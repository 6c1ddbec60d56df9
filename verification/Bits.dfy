/** The bit arithmetic the sources lean on, defined bit by bit on naturals so that
    masking, rounding up to a power of two and bit length can be related to division. */
module Bits {

  function Pow2(k: nat): (p: nat)
    ensures p >= 1
  {
    if k == 0 then 1 else 2 * Pow2(k - 1)
  }

  /** Bitwise and, one bit at a time. */
  function And(x: nat, y: nat): nat
    decreases x
  {
    if x == 0 || y == 0 then 0
    else 2 * And(x / 2, y / 2) + (if x % 2 == 1 && y % 2 == 1 then 1 else 0)
  }

  lemma HalveMod(x: nat, m: nat)
    requires m > 0
    ensures x % (2 * m) == 2 * ((x / 2) % m) + x % 2
  {
    var q, r := (x / 2) / m, (x / 2) % m;
    assert x == (2 * m) * q + (2 * r + x % 2) by {
      assert x == 2 * (x / 2) + x % 2;
      assert x / 2 == m * q + r;
    }
    ModUnique(x, 2 * m, q, 2 * r + x % 2);
  }

  /** A quotient and a remainder in range are the quotient and the remainder. */
  lemma ModUnique(x: int, m: nat, q: int, r: nat)
    requires m > 0 && x == m * q + r && r < m
    ensures x / m == q && x % m == r
  {
    var d := x / m - q;
    assert m * d == r - x % m by {
      assert x == m * (x / m) + x % m;
    }
    MulAtLeast(m, d);
    MulAtLeast(m, -d);
  }

  lemma MulAtLeast(m: int, d: int)
    requires m > 0
    ensures d >= 1 ==> m * d >= m
  {
  }

  /** Masking with 2^k - 1 is reduction modulo 2^k: the identity behind every
      `index & mask` in the ring and in the shard selection. */
  lemma {:induction false} MaskIsMod(x: nat, k: nat)
    ensures And(x, Pow2(k) - 1) == x % Pow2(k)
    decreases k
  {
    if k == 0 {
    } else if x == 0 {
    } else {
      var m := Pow2(k - 1);
      MaskIsMod(x / 2, k - 1);
      HalveMod(x, m);
      assert (2 * m - 1) / 2 == m - 1 && (2 * m - 1) % 2 == 1;
    }
  }

  /** Number of bits needed for n, as bits.Len. */
  function Len(n: nat): nat {
    if n == 0 then 0 else 1 + Len(n / 2)
  }

  lemma {:induction false} LenBrackets(n: nat)
    requires n > 0
    ensures Len(n) >= 1 && Pow2(Len(n) - 1) <= n < Pow2(Len(n))
  {
    if n > 1 { LenBrackets(n / 2); }
  }

  lemma {:induction false} Pow2Monotone(a: nat, b: nat)
    requires a <= b
    ensures Pow2(a) <= Pow2(b)
    ensures a < b ==> 2 * Pow2(a) <= Pow2(b)
    decreases b
  {
    if a < b { Pow2Monotone(a, b - 1); }
  }

  /** The doubling loop shared by queue.New and flow.NewTable: the least power of
      two that is at least n. */
  method RoundUp(n: nat) returns (size: nat, ghost k: nat)
    requires n > 0
    ensures size == Pow2(k) && size >= n
    ensures forall j: nat :: Pow2(j) >= n ==> Pow2(j) >= size
  {
    size, k := 1, 0;
    while size < n
      invariant size == Pow2(k)
      invariant k > 0 ==> Pow2(k - 1) < n
      decreases n - size
    {
      size, k := 2 * size, k + 1;
    }
    forall j: nat | Pow2(j) >= n ensures Pow2(j) >= size {
      if j < k { Pow2Monotone(j, k - 1); } else { Pow2Monotone(k, j); }
    }
  }
}
