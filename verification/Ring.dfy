/** The bounded FIFO that queue.Ring promises, as a value: what each critical
    section does to it. The ring class implements these functions on masked
    indices, and the wake-up protocol takes them as its locked steps. */
module RingSpec {
  import opened Common

  datatype Policy = Reject | DropOldest

  datatype Stats = Stats(pushed: nat, popped: nat, dropped: nat, rejected: nat)

  datatype Queue<T> = Queue(cap: nat, policy: Policy, items: seq<T>, closed: bool, stats: Stats)

  /** Holds whenever the lock is free. */
  predicate Consistent<T>(q: Queue<T>) {
    && |q.items| <= q.cap
    && q.cap > 0
    && q.stats.pushed == q.stats.popped + q.stats.dropped + |q.items|
  }

  function Append<T>(q: Queue<T>, v: T): Queue<T> {
    q.(items := q.items + [v], stats := q.stats.(pushed := q.stats.pushed + 1))
  }

  function Refuse<T>(q: Queue<T>): Queue<T> {
    q.(stats := q.stats.(rejected := q.stats.rejected + 1))
  }

  datatype Pushed<T> = Pushed(q: Queue<T>, accepted: bool, evicted: Option<T>)

  /** The critical section of Push. */
  function Push<T>(q: Queue<T>, v: T): (r: Pushed<T>)
    requires Consistent(q)
    ensures Consistent(r.q)
  {
    if q.closed then Pushed(Refuse(q), false, None)
    else if |q.items| < q.cap then Pushed(Append(q, v), true, None)
    else if q.policy.Reject? then Pushed(Refuse(q), false, None)
    else
      var kept := q.(items := q.items[1..], stats := q.stats.(dropped := q.stats.dropped + 1));
      Pushed(Append(kept, v), true, Some(q.items[0]))
  }

  /** Nothing but the items and the counters changes. */
  predicate SameRing<T>(q: Queue<T>, q': Queue<T>) {
    q'.cap == q.cap && q'.policy == q.policy && q'.closed == q.closed
  }

  /** Push accepts unless closed or full under Reject; an accepted item goes last, an eviction
      takes the oldest item and only when full, and exactly a refusal counts as Rejected. */
  lemma PushMeaning<T>(q: Queue<T>, v: T)
    requires Consistent(q)
    ensures var r := Push(q, v);
            && (r.accepted <==> !q.closed && (|q.items| < q.cap || !q.policy.Reject?))
            && (!r.accepted ==> r.q.items == q.items && r.evicted == None)
            && (r.accepted && r.evicted == None ==> r.q.items == q.items + [v])
            && (r.evicted.Some? ==> q.items + [v] == [r.evicted.value] + r.q.items && |q.items| == q.cap)
            && r.q.stats.rejected == q.stats.rejected + (if r.accepted then 0 else 1) && SameRing(q, r.q)
  {
    if |q.items| == q.cap {
      assert q.items == [q.items[0]] + q.items[1..];
    }
  }

  datatype Attempt = Accepted(more: bool) | Refused | Full

  /** One pass through the critical section of PushWait, which ignores the policy. */
  function PushWait<T>(q: Queue<T>, v: T): (r: (Queue<T>, Attempt))
    requires Consistent(q)
    ensures Consistent(r.0)
  {
    if q.closed then (Refuse(q), Refused)
    else if |q.items| < q.cap then
      var q' := Append(q, v);
      (q', Accepted(|q'.items| < q.cap))
    else (q, Full)
  }

  /** Whatever the policy, PushWait refuses exactly when closed, parks exactly when open and
      full, and then nothing has changed, and otherwise queues the item last; exactly a refusal
      counts as Rejected. */
  lemma PushWaitMeaning<T>(q: Queue<T>, v: T)
    requires Consistent(q)
    ensures var (q', a) := PushWait(q, v);
            && (a.Refused? <==> q.closed) && (a.Full? <==> !q.closed && |q.items| == q.cap)
            && (a.Accepted? <==> !q.closed && |q.items| < q.cap)
            && (a.Accepted? ==> q'.items == q.items + [v] && (a.more <==> |q'.items| < q.cap))
            && (!a.Accepted? ==> q'.items == q.items && q'.stats.pushed == q.stats.pushed) && (a.Full? ==> q' == q)
            && q'.stats.rejected == q.stats.rejected + (if a.Refused? then 1 else 0) && SameRing(q, q')
  {
  }

  /** The critical section of Pop. */
  function Pop<T>(q: Queue<T>): (r: (Queue<T>, Option<T>))
    requires Consistent(q)
    ensures Consistent(r.0)
  {
    if |q.items| == 0 then (q, None)
    else (q.(items := q.items[1..], stats := q.stats.(popped := q.stats.popped + 1)), Some(q.items[0]))
  }

  /** Pop finds nothing exactly when the queue is empty, open or closed, and otherwise takes the
      oldest item. */
  lemma PopMeaning<T>(q: Queue<T>)
    requires Consistent(q)
    ensures var (q', r) := Pop(q);
            && (r.None? <==> q.items == []) && (r.None? ==> q' == q)
            && (r.Some? ==> q.items == [r.value] + q'.items) && q'.stats.rejected == q.stats.rejected && SameRing(q, q')
  {
    if |q.items| > 0 { assert q.items == [q.items[0]] + q.items[1..]; }
  }

  /** The critical section of Drain. */
  function Drain<T>(q: Queue<T>): (r: Queue<T>)
    requires Consistent(q)
    ensures Consistent(r)
  {
    q.(items := [], stats := q.stats.(dropped := q.stats.dropped + |q.items|))
  }

  lemma DrainMeaning<T>(q: Queue<T>)
    requires Consistent(q)
    ensures var q' := Drain(q);
            && q'.items == [] && q'.stats.dropped == q.stats.dropped + |q.items| && q'.stats.popped == q.stats.popped
            && q'.stats.rejected == q.stats.rejected && SameRing(q, q')
  {
  }
}

/** queue/queue.go: the ring itself, on an array with masked indices. */
module RingBuffer {
  import Bits
  import opened Common
  import opened RingSpec

  /** Index x of a circular array of length n, for x less than twice around. */
  function Wrap(x: nat, n: nat): (i: nat)
    requires n > 0 && x < 2 * n
    ensures i < n
  {
    if x < n then x else x - n
  }

  /** The live window of a circular array. */
  function Window<T>(a: seq<T>, head: nat, n: nat): (w: seq<T>)
    requires head < |a| && n <= |a|
    ensures |w| == n
    ensures forall i :: 0 <= i < n ==> w[i] == a[Wrap(head + i, |a|)]
  {
    seq(n, i requires 0 <= i < n => a[Wrap(head + i, |a|)])
  }

  /** Clearing the oldest slot and stepping past it takes the first item off. */
  lemma WindowTail<T>(a: seq<T>, head: nat, n: nat, zero: T)
    requires head < |a| && 0 < n <= |a|
    ensures [a[head]] + Window(a[head := zero], Wrap(head + 1, |a|), n - 1) == Window(a, head, n)
  {
  }

  lemma MaskWraps(x: nat, k: nat)
    requires x < 2 * Bits.Pow2(k)
    ensures Bits.And(x, Bits.Pow2(k) - 1) == Wrap(x, Bits.Pow2(k))
  {
    var n := Bits.Pow2(k);
    Bits.MaskIsMod(x, k);
    Bits.ModUnique(x, n, if x < n then 0 else 1, Wrap(x, n));
  }

  class Ring<T> {
    const items: array<T>
    const mask: nat
    const policy: Policy
    const zero: T
    const hasOnDrop: bool
    ghost const k: nat
    var head: nat
    var n: nat
    var closed: bool
    var stats: Stats
    var notEmpty: bool     // a token is in the channel
    var notFull: bool
    var done: bool         // the channel is closed
    var handed: seq<T>     // items given to OnDrop, in order

    /** Slot j holds a queued item. */
    ghost predicate Live(j: nat)
      reads this
      requires j < items.Length
    {
      if head <= j then j - head < n else j + items.Length - head < n
    }

    /** The indices are in range and every slot outside the live window is zero. */
    ghost predicate Shape()
      reads this, items
    {
      && items.Length == Bits.Pow2(k)
      && mask == items.Length - 1
      && head < items.Length
      && n <= items.Length
      && forall j :: 0 <= j < items.Length && !Live(j) ==> items[j] == zero
    }

    ghost function Contents(): (w: seq<T>)
      reads this, items
      requires Shape()
      ensures |w| == n
    {
      Window(items[..], head, n)
    }

    /** Holds whenever the lock is free. */
    ghost predicate Valid()
      reads this, items
    {
      && Shape()
      && stats.pushed == stats.popped + stats.dropped + n
      && (closed <==> done)
    }

    ghost function Model(): (q: Queue<T>)
      reads this, items
      requires Valid()
      ensures Consistent(q)
    {
      Queue(items.Length, policy, Contents(), closed, stats)
    }

    /** New: the capacity is the least power of two at least Cap; a Cap that is
        not positive panics, so it is the caller's to exclude. */
    constructor (cap: nat, policy: Policy, hasOnDrop: bool, zero: T)
      requires cap > 0
      ensures Valid() && fresh(items)
      ensures Model() == Queue(items.Length, policy, [], false, Stats(0, 0, 0, 0))
      ensures items.Length >= cap && forall j: nat :: Bits.Pow2(j) >= cap ==> Bits.Pow2(j) >= items.Length
      ensures !notEmpty && !notFull && handed == [] && this.hasOnDrop == hasOnDrop
    {
      var size, k' := Bits.RoundUp(cap);
      items := new T[size](_ => zero);
      mask, k := size - 1, k';
      this.policy, this.zero, this.hasOnDrop := policy, zero, hasOnDrop;
      head, n, closed, stats := 0, 0, false, Stats(0, 0, 0, 0);
      notEmpty, notFull, done, handed := false, false, false, [];
    }

    method PopLocked() returns (v: T)
      requires Shape() && n > 0
      modifies this`head, this`n, items
      ensures Shape() && [v] + Contents() == old(Contents())
    {
      v := items[head];
      items[head] := zero;
      MaskWraps(head + 1, k);
      assert items[..] == old(items[..])[head := zero];
      WindowTail(old(items[..]), head, n, zero);
      head := Bits.And(head + 1, mask);
      n := n - 1;
    }

    /** The store both push paths share. */
    method Append(v: T)
      requires Shape() && n < items.Length
      modifies this`n, items
      ensures Shape() && Contents() == old(Contents()) + [v]
    {
      MaskWraps(head + n, k);
      items[Bits.And(head + n, mask)] := v;
      n := n + 1;
    }

    /** The oldest item makes room. */
    method Evict() returns (v: T)
      requires Valid() && n > 0
      modifies this`head, this`n, this`stats, items
      ensures var q := old(Model());
              && Valid() && v == q.items[0]
              && Model() == q.(items := q.items[1..], stats := q.stats.(dropped := q.stats.dropped + 1))
    {
      v := PopLocked();
      assert Contents() == old(Contents())[1..] && v == old(Contents())[0];
      stats := stats.(dropped := stats.dropped + 1);
    }

    /** v is queued and counted, and consumers are signalled. */
    method Admit(v: T)
      requires Valid() && n < items.Length
      modifies this`n, this`stats, this`notEmpty, items
      ensures Valid() && notEmpty && Model() == RingSpec.Append(old(Model()), v)
    {
      Append(v);
      stats := stats.(pushed := stats.pushed + 1);
      notEmpty := true;
    }

    method Push(v: T) returns (ok: bool)
      requires Valid()
      modifies this, items
      ensures Valid()
      ensures var r := RingSpec.Push(old(Model()), v);
              && Model() == r.q && ok == r.accepted
              && handed == old(handed) + (if hasOnDrop && r.evicted.Some? then [r.evicted.value] else [])
      ensures notEmpty == (old(notEmpty) || ok) && notFull == old(notFull)
    {
      if closed || (n == items.Length && policy.Reject?) {
        stats := stats.(rejected := stats.rejected + 1);
        ok := false;
      } else if n < items.Length {
        Admit(v);
        ok := true;
      } else {
        var dropped := Evict();
        Admit(v);
        if hasOnDrop {
          handed := handed + [dropped];
        }
        ok := true;
      }
    }

    /** One pass of PushWait; Full is where the caller parks. */
    method PushWaitOnce(v: T) returns (a: Attempt)
      requires Valid()
      modifies this, items
      ensures Valid() && (Model(), a) == RingSpec.PushWait(old(Model()), v)
      ensures notEmpty == (old(notEmpty) || a.Accepted?)
      ensures notFull == (old(notFull) || a == Accepted(true))
      ensures handed == old(handed)
    {
      if closed {
        stats := stats.(rejected := stats.rejected + 1);
        return Refused;
      }
      if n < items.Length {
        Admit(v);
        var more := n < items.Length;
        if more { notFull := true; }
        return Accepted(more);
      }
      return Full;
    }

    method Pop() returns (r: Option<T>)
      requires Valid()
      modifies this, items
      ensures Valid() && (Model(), r) == RingSpec.Pop(old(Model()))
      ensures notFull == (old(notFull) || r.Some?)
      ensures notEmpty == (old(notEmpty) || |old(Model().items)| > 1)
      ensures handed == old(handed)
    {
      if n == 0 { return None; }
      var v := PopLocked();
      stats := stats.(popped := stats.popped + 1);
      var more := n > 0;
      notFull := true;
      if more { notEmpty := true; }
      return Some(v);
    }

    method Close()
      requires Valid()
      modifies this`closed, this`done
      ensures Valid() && Model() == old(Model()).(closed := true)
    {
      if closed { return; }
      closed := true;
      done := true;
    }

    /** Pops until the ring is empty. */
    method TakeAll() returns (taken: seq<T>)
      requires Shape()
      modifies this`head, this`n, items
      ensures Shape() && n == 0 && taken == old(Contents())
    {
      taken := [];
      while n > 0
        invariant Shape() && taken + Contents() == old(Contents())
        decreases n
      {
        var v := PopLocked();
        taken := taken + [v];
      }
    }

    /** Hands every remaining item to OnDrop, oldest first, and signals no one. */
    method Drain() returns (count: nat)
      requires Valid()
      modifies this, items
      ensures Valid() && Model() == RingSpec.Drain(old(Model()))
      ensures count == |old(Model().items)|
      ensures handed == old(handed) + (if hasOnDrop then old(Model().items) else [])
      ensures notEmpty == old(notEmpty) && notFull == old(notFull)
    {
      var taken := TakeAll();
      stats := stats.(dropped := stats.dropped + |taken|);
      if hasOnDrop {
        handed := handed + taken;
      }
      return |taken|;
    }
  }
}
