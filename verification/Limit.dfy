/** The arithmetic of the limiters, apart from the objects: what the concurrent protocols and
    the classes below have in common. */
module LimitSpec {
  /** Budget.Reserve grants n out of max with `used` in use; the comparison is the
      overflow-safe one. */
  predicate Grants(max: int, used: int, n: int) { 0 <= n && n <= max - used }

  function Held<K>(slots: map<K, int>, k: K): int { if k in slots then slots[k] else 0 }

  /** PerKey.TryAcquire and PerKey.Release on the map; a key is dropped at its last slot. */
  function Take<K>(slots: map<K, int>, k: K): map<K, int> { slots[k := Held(slots, k) + 1] }

  function Free<K>(slots: map<K, int>, k: K): map<K, int> {
    if Held(slots, k) == 1 then slots - {k} else slots[k := Held(slots, k) - 1]
  }
}

/** limit/limit.go: admission limiters and the byte budget, as the objects they are. */
module Limit {
  import opened LimitSpec

  /** At most max holders at a time. The CAS loop of TryAcquire is one atomic update. */
  class Concurrency {
    const max: int
    var inUse: int

    ghost predicate Valid()
      reads this
    {
      0 <= inUse <= max && max > 0
    }

    constructor (max: int)
      requires max > 0
      ensures Valid() && inUse == 0 && this.max == max
    {
      this.max, inUse := max, 0;
    }

    method TryAcquire() returns (ok: bool)
      requires Valid()
      modifies this
      ensures Valid()
      ensures ok <==> old(inUse) < max
      ensures inUse == if ok then old(inUse) + 1 else old(inUse)
    {
      if inUse >= max { return false; }
      inUse := inUse + 1;
      return true;
    }

    /** Releasing a permit nobody holds panics, so it is the caller's to exclude. */
    method Release()
      requires Valid() && inUse > 0
      modifies this
      ensures Valid() && inUse == old(inUse) - 1
    {
      inUse := inUse - 1;
    }
  }

  ghost predicate AllValid(ls: seq<Concurrency>)
    reads ls
  {
    forall l :: l in ls ==> l.Valid()
  }

  lemma PrefixCounts<T>(ls: seq<T>, i: nat)
    requires i < |ls|
    ensures multiset(ls[..i + 1]) == multiset(ls[..i]) + multiset{ls[i]}
  {
    assert ls[..i + 1] == ls[..i] + [ls[i]];
  }

  lemma PrefixAtMost<T>(ls: seq<T>, i: nat, l: T)
    requires i <= |ls|
    ensures multiset(ls[..i])[l] <= multiset(ls)[l]
  {
    assert ls == ls[..i] + ls[i..];
  }

  /** all.TryAcquire over limiters whose Release undoes TryAcquire. A limiter listed
      twice is asked twice, so it admits exactly when every limiter has room for all
      its listings; on refusal every limiter is as it was. */
  method TryAcquireAll(ls: seq<Concurrency>) returns (ok: bool)
    requires AllValid(ls)
    modifies ls
    ensures AllValid(ls)
    ensures ok <==> forall l :: l in ls ==> old(l.inUse) + multiset(ls)[l] <= l.max
    ensures forall l :: l in ls ==> l.inUse == old(l.inUse) + if ok then multiset(ls)[l] else 0
  {
    var i := 0;
    while i < |ls|
      invariant 0 <= i <= |ls|
      invariant AllValid(ls)
      invariant forall l :: l in ls ==> l.inUse == old(l.inUse) + multiset(ls[..i])[l]
    {
      var l := ls[i];
      PrefixCounts(ls, i);
      var got := l.TryAcquire();
      if !got {
        PrefixAtMost(ls, i + 1, l);
        Undo(ls, i);
        return false;
      }
      i := i + 1;
    }
    assert ls[..i] == ls;
    return true;
  }

  /** The rollback loop: gives back the first n permits, newest first. */
  method Undo(ls: seq<Concurrency>, n: nat)
    requires n <= |ls| && AllValid(ls)
    requires forall l :: l in ls ==> l.inUse >= multiset(ls[..n])[l]
    modifies ls
    ensures AllValid(ls)
    ensures forall l :: l in ls ==> l.inUse == old(l.inUse) - multiset(ls[..n])[l]
  {
    var j := n;
    while j > 0
      invariant 0 <= j <= n
      invariant AllValid(ls)
      invariant forall l :: l in ls ==> l.inUse == old(l.inUse) - multiset(ls[..n])[l] + multiset(ls[..j])[l]
    {
      j := j - 1;
      PrefixCounts(ls, j);
      ls[j].Release();
    }
  }

  /** all.Release: one permit per listing. */
  method ReleaseAll(ls: seq<Concurrency>)
    requires AllValid(ls)
    requires forall l :: l in ls ==> l.inUse >= multiset(ls)[l]
    modifies ls
    ensures AllValid(ls)
    ensures forall l :: l in ls ==> l.inUse == old(l.inUse) - multiset(ls)[l]
  {
    var i := 0;
    assert ls[..|ls|] == ls;
    while i < |ls|
      invariant 0 <= i <= |ls|
      invariant AllValid(ls)
      invariant forall l :: l in ls ==> l.inUse == old(l.inUse) - multiset(ls[..i])[l]
    {
      PrefixCounts(ls, i);
      PrefixAtMost(ls, i + 1, ls[i]);
      ls[i].Release();
      i := i + 1;
    }
  }

  /** The byte budget. */
  class Budget {
    const max: int
    var used: int

    ghost predicate Valid()
      reads this
    {
      0 <= used <= max && max > 0
    }

    constructor (max: int)
      requires max > 0
      ensures Valid() && used == 0 && this.max == max
    {
      this.max, used := max, 0;
    }

    /** Negative amounts are refused. */
    method Reserve(n: int) returns (ok: bool)
      requires Valid()
      modifies this
      ensures Valid()
      ensures ok <==> 0 <= n && old(used) + n <= max
      ensures used == if ok then old(used) + n else old(used)
    {
      if n < 0 { return false; }
      if n > max - used { return false; }
      used := used + n;
      return true;
    }

    /** Releasing a negative amount or more than is in use panics. */
    method Release(n: int)
      requires Valid() && 0 <= n <= used
      modifies this
      ensures Valid() && used == old(used) - n
    {
      used := used - n;
    }
  }

  /** At most max holders per key; a key is remembered only while it holds a slot. */
  class PerKey<K(==, !new)> {
    const max: int
    var n: map<K, int>

    ghost predicate Valid()
      reads this
    {
      max > 0 && forall k :: k in n ==> 1 <= n[k] <= max
    }

    constructor (max: int)
      requires max > 0
      ensures Valid() && n == map[] && this.max == max
    {
      this.max, n := max, map[];
    }

    method TryAcquire(k: K) returns (ok: bool)
      requires Valid()
      modifies this
      ensures Valid()
      ensures ok <==> Held(old(n), k) < max
      ensures n == if ok then Take(old(n), k) else old(n)
      ensures Held(n, k) == Held(old(n), k) + if ok then 1 else 0
      ensures forall j :: j != k ==> Held(n, j) == Held(old(n), j)
    {
      if (if k in n then n[k] else 0) >= max { return false; }
      n := n[k := (if k in n then n[k] else 0) + 1];
      return true;
    }

    /** Releasing a key that holds no slot panics. */
    method Release(k: K)
      requires Valid() && k in n
      modifies this
      ensures Valid() && n == Free(old(n), k) && (k in n <==> old(n)[k] > 1)
      ensures Held(n, k) == Held(old(n), k) - 1 && forall j :: j != k ==> Held(n, j) == Held(old(n), j)
    {
      if n[k] == 1 {
        n := n - {k};
        return;
      }
      n := n[k := n[k] - 1];
    }
  }

  /** Taking a slot and giving it back leaves the map as it was, and each touches its key only. */
  lemma FreeUndoesTake<K(!new)>(slots: map<K, int>, k: K)
    requires k in slots ==> slots[k] >= 1
    ensures Free(Take(slots, k), k) == slots
    ensures forall j :: j != k ==> Held(Take(slots, k), j) == Held(slots, j) == Held(Free(slots, k), j)
  {
    assert Free(Take(slots, k), k).Keys == slots.Keys;
  }
}

/** limit.Rate: the token bucket over the reals. Times are in token units, that is in
    seconds times perSec, so that one token drips per unit; the class converts. */
module RateLimit {
  import opened Common

  /** `last` is None until the first call. */
  datatype Bucket = Bucket(burst: nat, tokens: real, last: Option<real>)

  ghost predicate Sound(b: Bucket) {
    b.burst > 0 && 0.0 <= b.tokens <= b.burst as real
  }

  function Fresh(burst: nat): Bucket {
    Bucket(burst, burst as real, None)
  }

  /** The tokens a call at u finds. */
  function Refilled(b: Bucket, u: real): real {
    if b.last.None? then b.tokens
    else
      var t := b.tokens + (u - b.last.value);
      if t > b.burst as real then b.burst as real else t
  }

  predicate Admits(b: Bucket, u: real) { Refilled(b, u) >= 1.0 }

  function After(b: Bucket, u: real): Bucket {
    b.(tokens := if Admits(b, u) then Refilled(b, u) - 1.0 else Refilled(b, u), last := Some(u))
  }

  lemma Distribute(x: real, y: real, k: real)
    ensures (x - y) * k == x * k - y * k
  {
  }

  /** A clock reading in seconds, in token units. */
  function Units(seconds: real, perSec: real): real { seconds * perSec }

  class Rate {
    const perSec: real
    const burst: nat
    var tokens: real
    var last: Option<real>   // seconds

    ghost function Model(): Bucket
      reads this
    {
      Bucket(burst, tokens, if last.None? then None else Some(Units(last.value, perSec)))
    }

    constructor (perSec: real, burst: nat)
      requires perSec > 0.0 && burst > 0
      ensures Model() == Fresh(burst) && Sound(Model()) && this.perSec == perSec
    {
      this.perSec, this.burst, tokens, last := perSec, burst, burst as real, None;
    }

    method TryAcquire(now: real) returns (ok: bool)
      modifies this
      ensures Model() == After(old(Model()), Units(now, perSec))
      ensures ok == Admits(old(Model()), Units(now, perSec))
    {
      if last.Some? {
        Distribute(now, last.value, perSec);
        tokens := tokens + (now - last.value) * perSec;
        if tokens > burst as real {
          tokens := burst as real;
        }
      }
      assert tokens == Refilled(old(Model()), Units(now, perSec));
      last := Some(now);
      ok := tokens >= 1.0;
      if ok { tokens := tokens - 1.0; }
    }
  }

  /** The bucket after calls at us, and how many of them it admitted. */
  function AfterAll(b: Bucket, us: seq<real>): Bucket
    decreases |us|
  {
    if us == [] then b else AfterAll(After(b, us[0]), us[1..])
  }

  function Admitted(b: Bucket, us: seq<real>): nat
    decreases |us|
  {
    if us == [] then 0 else (if Admits(b, us[0]) then 1 else 0) + Admitted(After(b, us[0]), us[1..])
  }

  ghost predicate Rising(ts: seq<real>) { forall i, j :: 0 <= i <= j < |ts| ==> ts[i] <= ts[j] }

  /** The clock does not run backwards over the calls, nor from the last call to them. */
  ghost predicate Forward(b: Bucket, us: seq<real>) {
    && Rising(us)
    && (b.last.Some? && |us| > 0 ==> b.last.value <= us[0])
  }

  /** Tokens stay within 0..burst over every forward sequence of calls. */
  lemma {:induction false} TokensInRange(b: Bucket, us: seq<real>)
    requires Sound(b) && Forward(b, us)
    ensures Sound(AfterAll(b, us)) && AfterAll(b, us).burst == b.burst
    ensures |us| > 0 ==> AfterAll(b, us).last == Some(us[|us| - 1])
    ensures |us| == 0 ==> AfterAll(b, us) == b
    decreases |us|
  {
    if |us| > 0 {
      TokensInRange(After(b, us[0]), us[1..]);
    }
  }

  /** Each admission is paid for: what is admitted is at most what was there plus what
      has dripped since the last call. */
  lemma {:induction false} Paid(b: Bucket, us: seq<real>)
    requires Sound(b) && Forward(b, us) && b.last.Some? && |us| > 0
    ensures Admitted(b, us) as real <= b.tokens + (us[|us| - 1] - b.last.value)
    decreases |us|
  {
    if |us| > 1 {
      Paid(After(b, us[0]), us[1..]);
    }
  }

  /** A stretch of calls admits at most a full bucket plus what drips while it lasts. */
  lemma StretchBound(b: Bucket, us: seq<real>)
    requires Sound(b) && Forward(b, us) && |us| > 0
    ensures Admitted(b, us) as real <= b.burst as real + (us[|us| - 1] - us[0])
  {
    var rest := us[1..];
    if |rest| > 0 {
      Paid(After(b, us[0]), rest);
    }
  }

  /** Clock readings in seconds, converted. */
  function TokenTimes(ts: seq<real>, perSec: real): (us: seq<real>)
    ensures |us| == |ts|
  {
    seq(|ts|, i requires 0 <= i < |ts| => Units(ts[i], perSec))
  }

  lemma ScaleMonotone(x: real, y: real, k: real)
    requires x <= y && k > 0.0
    ensures x * k <= y * k
  {
  }

  lemma TimesForward(ts: seq<real>, perSec: real, us: seq<real>)
    requires perSec > 0.0 && us == TokenTimes(ts, perSec) && Rising(ts)
    ensures Rising(us)
  {
    forall a, b | 0 <= a <= b < |us| ensures us[a] <= us[b] {
      ScaleMonotone(ts[a], ts[b], perSec);
    }
  }

  lemma TimesDiffer(ts: seq<real>, perSec: real, us: seq<real>, i: nat, j: nat)
    requires us == TokenTimes(ts, perSec) && i < |ts| && j < |ts|
    ensures us[j] - us[i] == (ts[j] - ts[i]) * perSec
  {
    Distribute(ts[j], ts[i], perSec);
  }

  /** How many of the calls numbered i to j-1 a bucket that started full admits. */
  function AdmittedIn(burst: nat, us: seq<real>, i: nat, j: nat): nat
    requires i <= j <= |us|
  {
    Admitted(AfterAll(Fresh(burst), us[..i]), us[i..j])
  }

  lemma TokenWindow(burst: nat, us: seq<real>, i: nat, j: nat)
    requires burst > 0 && i < j <= |us| && Rising(us)
    ensures AdmittedIn(burst, us, i, j) as real <= burst as real + (us[j - 1] - us[i])
  {
    TokensInRange(Fresh(burst), us[..i]);
    StretchBound(AfterAll(Fresh(burst), us[..i]), us[i..j]);
  }

  /** The window bound: however the calls before i went, those numbered i to j-1 admit
      at most burst + perSec * (seconds from the first of them to the last). */
  lemma WindowBound(perSec: real, burst: nat, ts: seq<real>, i: nat, j: nat)
    requires perSec > 0.0 && burst > 0 && i < j <= |ts| && Rising(ts)
    ensures AdmittedIn(burst, TokenTimes(ts, perSec), i, j) as real <= burst as real + (ts[j - 1] - ts[i]) * perSec
  {
    var us := TokenTimes(ts, perSec);
    TimesForward(ts, perSec, us);
    TokenWindow(burst, us, i, j);
    TimesDiffer(ts, perSec, us, i, j - 1);
  }

  // ---- Exactly when a call is admitted ----

  lemma {:induction false} OneMore(b: Bucket, us: seq<real>, u: real)
    ensures AfterAll(b, us + [u]) == After(AfterAll(b, us), u)
    ensures Admitted(b, us + [u]) == Admitted(b, us) + if Admits(AfterAll(b, us), u) then 1 else 0
    decreases |us|
  {
    if us == [] {
      assert us + [u] == [u] && [u][1..] == [];
    } else {
      assert (us + [u])[0] == us[0] && (us + [u])[1..] == us[1..] + [u];
      OneMore(After(b, us[0]), us[1..], u);
    }
  }

  /** A bucket that started full, as call n finds it. */
  function Before(burst: nat, us: seq<real>, n: nat): Bucket
    requires n <= |us|
  {
    AfterAll(Fresh(burst), us[..n])
  }

  lemma {:induction false} NextBefore(burst: nat, us: seq<real>, n: nat)
    requires n < |us|
    ensures Before(burst, us, n + 1) == After(Before(burst, us, n), us[n])
  {
    assert us[..n + 1] == us[..n] + [us[n]];
    OneMore(Fresh(burst), us[..n], us[n]);
  }

  lemma {:induction false} NextAdmitted(burst: nat, us: seq<real>, i: nat, n: nat)
    requires i <= n < |us|
    ensures AdmittedIn(burst, us, i, n + 1)
            == AdmittedIn(burst, us, i, n) + if Admits(Before(burst, us, n), us[n]) then 1 else 0
  {
    assert us[i..n + 1] == us[i..n] + [us[n]];
    OneMore(Before(burst, us, i), us[i..n], us[n]);
    AfterParts(burst, us, i, n);
  }

  lemma {:induction false} AfterParts(burst: nat, us: seq<real>, i: nat, n: nat)
    requires i <= n <= |us|
    ensures AfterAll(Before(burst, us, i), us[i..n]) == Before(burst, us, n)
    decreases n - i
  {
    if i == n {
      assert us[i..n] == [];
    } else {
      assert us[i..n] == us[i..n - 1] + [us[n - 1]];
      OneMore(Before(burst, us, i), us[i..n - 1], us[n - 1]);
      AfterParts(burst, us, i, n - 1);
      NextBefore(burst, us, n - 1);
    }
  }

  /** What the calls i to n-1 leave, at call n, of a full bucket at call i and the drip since. */
  function Left(burst: nat, us: seq<real>, i: nat, n: nat): real
    requires i <= n < |us|
  {
    burst as real + (us[n] - us[i]) - AdmittedIn(burst, us, i, n) as real
  }

  lemma {:induction false} LeftSteps(burst: nat, us: seq<real>, i: nat, n: nat)
    requires i <= n && n + 1 < |us|
    ensures Left(burst, us, i, n + 1)
            == Left(burst, us, i, n) + (us[n + 1] - us[n]) - if Admits(Before(burst, us, n), us[n]) then 1.0 else 0.0
  {
    NextAdmitted(burst, us, i, n);
  }

  /** The tokens call n finds are the least of what every window up to it has left, and some
      window has left exactly that. */
  lemma {:induction false} TokensAreLeast(burst: nat, us: seq<real>, n: nat) returns (k: nat)
    requires n < |us| && Rising(us)
    ensures forall i :: 0 <= i <= n ==> Refilled(Before(burst, us, n), us[n]) <= Left(burst, us, i, n)
    ensures k <= n && Refilled(Before(burst, us, n), us[n]) == Left(burst, us, k, n)
  {
    var found := Refilled(Before(burst, us, n), us[n]);
    assert Left(burst, us, n, n) == burst as real;
    if n == 0 {
      k := 0;
    } else {
      var j := TokensAreLeast(burst, us, n - 1);
      NextBefore(burst, us, n - 1);
      BurstStays(Fresh(burst), us[..n]);
      forall i | 0 <= i < n ensures found <= Left(burst, us, i, n) { LeftSteps(burst, us, i, n - 1); }
      LeftSteps(burst, us, j, n - 1);
      k := if found == burst as real then n else j;
    }
  }

  lemma {:induction false} BurstStays(b: Bucket, us: seq<real>)
    ensures AfterAll(b, us).burst == b.burst
    decreases |us|
  {
    if us != [] { BurstStays(After(b, us[0]), us[1..]); }
  }

  lemma {:induction false} TokenConforms(burst: nat, us: seq<real>, n: nat)
    requires n < |us| && Rising(us)
    ensures Admits(Before(burst, us, n), us[n]) <==>
            forall i :: 0 <= i <= n ==> AdmittedIn(burst, us, i, n) as real + 1.0 <= burst as real + (us[n] - us[i])
  {
    var k := TokensAreLeast(burst, us, n);
    forall i | 0 <= i <= n
      ensures Left(burst, us, i, n) == burst as real + (us[n] - us[i]) - AdmittedIn(burst, us, i, n) as real
    {
    }
  }

  /** Exactly when a Rate that started full admits its call n: when in every window that ends with
      it, the calls admitted with it are at most burst + perSec * (seconds the window lasts). */
  lemma {:induction false} AdmitsExactly(perSec: real, burst: nat, ts: seq<real>, n: nat)
    requires perSec > 0.0 && n < |ts| && Rising(ts)
    ensures var us := TokenTimes(ts, perSec);
            Admits(Before(burst, us, n), us[n]) <==>
              forall i :: 0 <= i <= n ==>
                AdmittedIn(burst, us, i, n) as real + 1.0 <= burst as real + (ts[n] - ts[i]) * perSec
  {
    var us := TokenTimes(ts, perSec);
    TimesForward(ts, perSec, us);
    TokenConforms(burst, us, n);
    forall i | 0 <= i <= n ensures us[n] - us[i] == (ts[n] - ts[i]) * perSec { TimesDiffer(ts, perSec, us, i, n); }
  }

  /** No starvation: a call at least 1/perSec after the previous one is admitted. */
  lemma WaitingPays(b: Bucket, now: real, prev: real, perSec: real)
    requires Sound(b) && b.last == Some(Units(prev, perSec)) && (now - prev) * perSec >= 1.0
    ensures Admits(b, Units(now, perSec))
  {
    assert b.burst as real >= 1.0;
    Distribute(now, prev, perSec);
  }

  /** The bound is reached: of n calls at one instant a bucket of `left` tokens admits
      the lesser of n and left, so the burst term cannot be lowered. */
  lemma {:induction false} BurstIsTight(b: Bucket, left: nat, u: real, n: nat)
    requires Sound(b) && b.tokens == left as real && (b.last.Some? ==> b.last.value == u)
    ensures Admitted(b, seq(n, _ => u)) == if n <= left then n else left
    decreases n
  {
    if n > 0 {
      assert seq(n, _ => u)[1..] == seq(n - 1, _ => u);
      assert Refilled(b, u) == b.tokens;
      BurstIsTight(After(b, u), if left > 0 then left - 1 else 0, u, n - 1);
    }
  }
}
