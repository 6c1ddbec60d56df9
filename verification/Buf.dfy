/** buf/buf.go: size classes. */
module SizeClasses {
  import opened Bits

  const MIN_SIZE: nat := 64
  const LARGE: nat := 65536
  const MIN_SHIFT: nat := 6
  const NUM_CLASSES: nat := 11

  /** The class index for n, or -1 above LARGE. */
  function ClassOf(n: int): int {
    if n > LARGE then -1
    else if n <= MIN_SIZE then 0
    else Len(n - 1) - MIN_SHIFT
  }

  /** The capacity a Get(n) buffer has. */
  function Capacity(n: int): int {
    var c := ClassOf(n);
    if c >= 0 then MIN_SIZE * Pow2(c) else n
  }

  lemma ClassSizes()
    ensures Pow2(6) == 64 && Pow2(10) == 1024 && Pow2(16) == 65536
  {
    assert Pow2(3) == 8;
    assert Pow2(6) == 64;
    assert Pow2(9) == 512;
    assert Pow2(12) == 4096;
    assert Pow2(15) == 32768;
  }

  /** The class sizes are the powers of two from 2^6. */
  lemma {:induction false} ClassSize(c: nat)
    ensures MIN_SIZE * Pow2(c) == Pow2(MIN_SHIFT + c)
  {
    if c == 0 { ClassSizes(); } else { ClassSize(c - 1); }
  }

  lemma BitsInRange(n: int)
    requires MIN_SIZE < n <= LARGE
    ensures 7 <= Len(n - 1) <= 16 && Pow2(Len(n - 1) - 1) < n <= Pow2(Len(n - 1))
  {
    var l := Len(n - 1);
    ClassSizes();
    LenBrackets(n - 1);
    if l <= 6 { Pow2Monotone(l, 6); }
    if l > 16 { Pow2Monotone(16, l - 1); }
  }

  lemma ClassHolds(n: int)
    requires MIN_SIZE < n <= LARGE
    ensures 0 <= ClassOf(n) < NUM_CLASSES && Capacity(n) == Pow2(Len(n - 1)) && n <= Capacity(n) <= LARGE
            && Capacity(n) < 2 * n
  {
    var l := Len(n - 1);
    BitsInRange(n);
    ClassSize(l - 6);
    assert Pow2(l) == 2 * Pow2(l - 1);
    Pow2Monotone(l, 16);
    ClassSizes();
  }

  lemma NoSmallerPower(n: int, k: nat)
    requires MIN_SIZE < n <= LARGE && Pow2(k) >= n
    ensures Pow2(k) >= Pow2(Len(n - 1))
  {
    var l := Len(n - 1);
    BitsInRange(n);
    if k < l { Pow2Monotone(k, l - 1); } else { Pow2Monotone(l, k); }
  }

  /** Up to LARGE the class index is within range, and the class is the smallest that
      holds n; it wastes less than half of its size above MIN_SIZE. */
  lemma ClassIsLeast(n: int)
    requires n <= LARGE
    ensures 0 <= ClassOf(n) < NUM_CLASSES
    ensures n <= Capacity(n) <= LARGE
    ensures forall c: nat :: MIN_SIZE * Pow2(c) >= n ==> MIN_SIZE * Pow2(c) >= Capacity(n)
    ensures n > MIN_SIZE ==> Capacity(n) < 2 * n
  {
    if n > MIN_SIZE {
      ClassHolds(n);
      forall c: nat | MIN_SIZE * Pow2(c) >= n ensures MIN_SIZE * Pow2(c) >= Capacity(n) {
        ClassSize(c);
        NoSmallerPower(n, MIN_SHIFT + c);
      }
    }
  }

  /** A larger request never gets a smaller buffer, and a class is its own capacity. */
  lemma CapacityMonotone(m: int, n: int)
    requires 0 <= m <= n
    ensures m <= Capacity(m) <= Capacity(n)
    ensures Capacity(Capacity(n)) == Capacity(n)
  {
    if n <= LARGE {
      ClassIsLeast(m);
      ClassIsLeast(n);
      ClassIsLeast(Capacity(n));
    } else if m <= LARGE {
      ClassIsLeast(m);
    }
  }
}

/** buf/buf.go: buffers with one owner, and the pool that lends them against a budget. */
module BufPool {
  import opened Common
  import opened SizeClasses
  import opened Limit

  /** B is full[..n]; class is -1 for a buffer above LARGE, which is never pooled. */
  class Buf {
    const full: array<byte>
    const class_: int
    var n: nat

    ghost predicate Sized() {
      (class_ == -1 || (0 <= class_ < NUM_CLASSES && full.Length == MIN_SIZE * Bits.Pow2(class_)))
    }

    constructor (size: nat, class_: int)
      requires class_ == -1 || (0 <= class_ < NUM_CLASSES && size == MIN_SIZE * Bits.Pow2(class_))
      ensures Sized() && full.Length == size && this.class_ == class_ && fresh(full)
    {
      full := new byte[size](_ => 0);
      this.class_, n := class_, 0;
    }
  }

  /** What a set of buffers costs. */
  ghost function Cost(bs: set<Buf>): nat {
    if bs == {} then 0
    else
      var b :| b in bs;
      b.full.Length + Cost(bs - {b})
  }

  lemma {:induction false} CostAdds(bs: set<Buf>, b: Buf)
    requires b in bs
    ensures Cost(bs) == b.full.Length + Cost(bs - {b})
    decreases |bs|
  {
    var a :| a in bs && Cost(bs) == a.full.Length + Cost(bs - {a});
    if a != b {
      CostAdds(bs - {a}, b);
      CostAdds(bs - {b}, a);
      assert bs - {a} - {b} == bs - {b} - {a};
    }
  }

  /** Live and pooled buffers are different buffers with different memory, and pooled
      ones have a class. */
  ghost predicate Separate(live: set<Buf>, free: set<Buf>) {
    && live !! free
    && (forall a, b :: a in live + free && b in live + free && a != b ==> a.full != b.full)
    && (forall b :: b in live + free ==> b.Sized())
    && (forall b :: b in free ==> b.class_ >= 0)
  }

  class Pool {
    const budget: Budget?
    var free: set<Buf>        // the sync.Pools of all classes; class_ tells them apart
    ghost var live: set<Buf>  // lent out and not yet released

    /** Nobody shares memory, and the budget covers what is live. */
    ghost predicate Valid()
      reads this, budget
    {
      && Separate(live, free)
      && (budget != null ==> budget.Valid() && Cost(live) <= budget.used)
    }

    /** Everything Get may hand out or charge. */
    ghost function Spare(): set<object>
      reads this
    {
      free + (set b | b in free :: b.full) + (if budget == null then {} else {budget})
    }

    /** What others have reserved on the same budget. */
    ghost function Elsewhere(): int
      reads this, budget
    {
      if budget == null then 0 else budget.used - Cost(live)
    }

    constructor (budget: Budget?)
      requires budget != null ==> budget.Valid()
      ensures Valid() && live == {} && free == {} && this.budget == budget
    {
      this.budget, free, live := budget, {}, {};
    }

    /** The collector may empty the pools at any time. */
    method Collect(lost: set<Buf>)
      requires Valid()
      modifies this`free
      ensures Valid() && free == old(free) - lost
    {
      free := free - lost;
    }

    /** A buffer of length n charged at its capacity, or null exactly when the budget
        cannot cover it, and then nothing has changed. */
    method Get(n: nat) returns (b: Buf?)
      requires Valid()
      modifies this, budget, free
      ensures Valid() && free <= old(free) && Elsewhere() == old(Elsewhere())
      ensures b == null <==> budget != null && old(budget.used) + Capacity(n) > budget.max
      ensures b == null ==>
                live == old(live) && free == old(free) && (budget != null ==> budget.used == old(budget.used))
      ensures b != null ==>
                && b !in old(live) && live == old(live) + {b}
                && b.n == n && b.full.Length == Capacity(n)
                && (if b in old(free) then free == old(free) - {b} else free == old(free) && fresh(b) && fresh(b.full))
                && (budget != null ==> budget.used == old(budget.used) + Capacity(n))
    {
      var class_ := ClassOf(n);
      var capacity: nat := n;
      CapacityMonotone(0, n);
      if n <= LARGE { ClassIsLeast(n); }
      if class_ >= 0 {
        capacity := MIN_SIZE * Bits.Pow2(class_);
      }
      if budget != null {
        var ok := budget.Reserve(capacity);
        if !ok { return null; }
      }
      b := Take(class_, capacity);
      b.n := n;
      live := live + {b};
      assert live - {b} == old(live);
      CostAdds(live, b);
    }

    /** sync.Pool.Get on one class: some pooled buffer of it, or a new one; a buffer
        above LARGE is always new. */
    method Take(class_: int, capacity: nat) returns (b: Buf)
      requires class_ == -1 || (0 <= class_ < NUM_CLASSES && capacity == MIN_SIZE * Bits.Pow2(class_))
      requires forall x :: x in free ==> x.Sized() && x.class_ >= 0
      modifies this`free
      ensures b.Sized() && b.class_ == class_ && b.full.Length == capacity
      ensures if b in old(free) then free == old(free) - {b} else free == old(free) && fresh(b) && fresh(b.full)
    {
      var pooled := set x | x in free && x.class_ == class_;
      var reuse: bool := *;
      if reuse && pooled != {} {
        b :| b in pooled;
        free := free - {b};
      } else {
        b := new Buf(capacity, class_);
      }
    }

    /** Returns a live buffer to its class, or drops it, and refunds its capacity. */
    method Release(b: Buf)
      requires Valid() && b in live
      modifies this, budget, b
      ensures Valid() && live == old(live) - {b} && Elsewhere() == old(Elsewhere())
      ensures free == old(free) + if b.class_ >= 0 then {b} else {}
      ensures budget != null ==> budget.used == old(budget.used) - b.full.Length
    {
      CostAdds(live, b);
      if budget != null {
        budget.Release(b.full.Length);
      }
      b.n := 0;
      live := live - {b};
      if b.class_ >= 0 {
        free := free + {b};
      }
    }

    /** An owned copy of data, or null as for Get. */
    method Copy(data: seq<byte>) returns (b: Buf?)
      requires Valid()
      modifies this, budget, free, set x | x in free :: x.full
      ensures Valid() && Elsewhere() == old(Elsewhere())
      ensures b == null <==> budget != null && old(budget.used) + Capacity(|data|) > budget.max
      ensures b == null ==> live == old(live) && free == old(free)
      ensures b != null ==>
                && b !in old(live) && live == old(live) + {b}
                && b.n == |data| <= b.full.Length && b.full[..b.n] == data
    {
      CapacityMonotone(0, |data|);
      CapacityMonotone(|data|, |data|);
      b := Get(|data|);
      if b != null {
        var full := b.full;
        forall i | 0 <= i < |data| {
          full[i] := data[i];
        }
        assert full[..|data|] == data;
      }
    }
  }
}
