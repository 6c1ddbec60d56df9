/** How often a reader grows: the claim of stream/reader.go that a frame arriving in
    pieces grows the buffer a logarithmic number of times, and where it ends. */
module ReaderGrowth {
  import opened Bits
  import opened SizeClasses

  function Min(a: int, b: int): int { if a < b then a else b }
  function Max(a: int, b: int): int { if a < b then b else a }

  /** The size grow asks for. */
  function GrowSize(len: int, need: int, max: int): int {
    Min(Capacity(Max(need, len + 1)), max)
  }

  /** Consecutive buffer lengths, and what each grow between them was asked for. */
  datatype Trail = Trail(sizes: seq<int>, needs: seq<int>)

  function Longer(t: Trail, need: int, size: int): Trail { Trail(t.sizes + [size], t.needs + [need]) }

  function After(t: Trail, grew: bool, need: int, len: int): Trail { if grew then Longer(t, need, len) else t }

  /** Grow i leads from one length to the next. */
  ghost predicate GrowStep(t: Trail, i: nat, max: int)
    requires i < |t.needs| < |t.sizes|
  {
    t.sizes[i] < t.sizes[i + 1] == GrowSize(t.sizes[i], t.needs[i], max)
  }

  /** Consecutive grows, from any length the reader may start at. */
  ghost predicate Growth(t: Trail, max: int) {
    && |t.sizes| == |t.needs| + 1 && 1 <= t.sizes[0] <= max
    && forall i: nat :: i < |t.needs| ==> GrowStep(t, i, max)
  }

  ghost function Last(t: Trail): int
    requires |t.sizes| == |t.needs| + 1
  {
    t.sizes[|t.needs|]
  }

  /** Size classes below n, then bytes above the largest class. */
  function Rank(n: int): int {
    if n <= LARGE then ClassOf(n) else NUM_CLASSES - 1 + (n - LARGE)
  }

  lemma CapacityIsClass(n: int)
    requires 0 <= n <= LARGE
    ensures 0 <= ClassOf(n) < NUM_CLASSES && Capacity(n) == MIN_SIZE * Pow2(ClassOf(n)) && n <= Capacity(n) <= LARGE
  {
    ClassIsLeast(n);
  }

  /** Growing out of a full class goes up in rank. */
  lemma RankRises(len: int, size: int)
    requires 1 <= len < size && Capacity(len) == len
    ensures Rank(len) < Rank(size)
  {
    if len <= LARGE {
      CapacityIsClass(len);
      if size <= LARGE {
        CapacityIsClass(size);
        if ClassOf(size) <= ClassOf(len) { Pow2Monotone(ClassOf(size), ClassOf(len)); }
      }
    }
  }

  /** A grow ends on a full class, on a direct size above the classes, or on max. */
  lemma GrowEnds(len: int, need: int, max: int)
    requires 1 <= len <= max
    ensures var size := GrowSize(len, need, max); 1 <= size <= max && (size == max || Capacity(size) == size)
  {
    var n := Max(need, len + 1);
    CapacityMonotone(n, n);
  }

  lemma {:induction false} LengthsInRange(t: Trail, max: int, i: nat)
    requires Growth(t, max) && i < |t.sizes|
    ensures 1 <= t.sizes[i] <= max && (i > 0 ==> t.sizes[i] == max || Capacity(t.sizes[i]) == t.sizes[i])
  {
    if i > 0 {
      LengthsInRange(t, max, i - 1);
      assert GrowStep(t, i - 1, max);
      GrowEnds(t.sizes[i - 1], t.needs[i - 1], max);
    }
  }

  /** Each grow but the first goes up at least one rank. */
  lemma {:induction false} RankCounts(t: Trail, max: int, i: nat)
    requires Growth(t, max) && 1 <= i < |t.sizes|
    ensures Rank(t.sizes[i]) >= i - 1
  {
    LengthsInRange(t, max, i);
    if i == 1 {
      if t.sizes[i] <= LARGE { CapacityIsClass(t.sizes[i]); }
    } else {
      LengthsInRange(t, max, i - 1);
      RankCounts(t, max, i - 1);
      assert GrowStep(t, i - 1, max);
      RankRises(t.sizes[i - 1], t.sizes[i]);
    }
  }

  /** At most one grow per size class, plus one per byte of max above the classes: a
      logarithmic number exactly as long as Max is at most the largest class. */
  lemma GrowsAtMost(t: Trail, max: int)
    requires Growth(t, max)
    ensures |t.needs| <= NUM_CLASSES + (if max > LARGE then max - LARGE else 0)
  {
    var n := |t.needs|;
    if n > 0 {
      RankCounts(t, max, n);
      LengthsInRange(t, max, n);
      if t.sizes[n] <= LARGE { CapacityIsClass(t.sizes[n]); }
    }
  }

  /** One more grow at the end. */
  lemma Grows(t: Trail, need: int, max: int)
    requires Growth(t, max) && Last(t) < GrowSize(Last(t), need, max)
    ensures Growth(Longer(t, need, GrowSize(Last(t), need, max)), max)
  {
    var longer := Longer(t, need, GrowSize(Last(t), need, max));
    forall i: nat | i < |longer.needs| ensures GrowStep(longer, i, max) {
      if i < |t.needs| { assert GrowStep(t, i, max); }
    }
  }

  /** Above the classes a full buffer grows by one byte. */
  lemma ByOneByte(len: int, max: int)
    requires LARGE <= len < max
    ensures GrowSize(len, len + 1, max) == len + 1
  {
  }
}

/** stream/reader.go: a buffered reader that grows, compacts and shrinks its backing
    store while it hands out one unbroken byte stream. */
module StreamReader {
  import opened BufPool
  import opened Common
  import opened ReaderGrowth
  import opened SizeClasses

  datatype Err = TooLarge | NoBuffer | Released | NegativeCount | NoProgress | InvalidCount | FromSource(code: int)

  const EOF := FromSource(0)
  const MAX_EMPTY_READS: nat := 100

  /** One answer of the source: what it writes into the slice it is given, the count it
      reports, which may be anything, and its error. */
  datatype Reply = Reply(fill: seq<byte>, n: int, err: Option<int>)

  /** An io.Reader with arbitrary behaviour: any script of replies, then EOF; or a steady one,
      which gives one byte per read for ever. */
  class Source {
    const steady: bool
    var script: seq<Reply>
    ghost var delivered: seq<byte>   // bytes validly delivered so far
    ghost var count: int             // what the last read returned
    ghost var failed: Option<Err>
    ghost var empties: nat           // reads in a row that returned neither data nor an error

    constructor (script: seq<Reply>, steady: bool)
      ensures this.script == script && this.steady == steady && delivered == []
    {
      this.script, this.steady, delivered := script, steady, [];
      count, failed, empties := 0, None, 0;
    }

    /** Read into p[from..to], which is never empty. It may scribble over all of it. */
    method Read(p: array<byte>, from: nat, to: nat) returns (n: int, err: Option<Err>)
      requires from < to <= p.Length
      modifies this, p
      ensures p[..from] == old(p[..from])
      ensures delivered == old(delivered) + if 0 <= n <= to - from then p[from..from + n] else []
      ensures err.Some? ==> err.value.FromSource?
      ensures count == n && failed == err && empties == if n == 0 && err.None? then old(empties) + 1 else 0
      ensures steady ==> n == 1 && err.None?
    {
      if steady {
        n, err := 1, None;
      } else if script == [] {
        n, err := 0, Some(EOF);
      } else {
        var reply := script[0];
        script := script[1..];
        forall i | 0 <= i < |reply.fill| && from + i < to {
          p[from + i] := reply.fill[i];
        }
        n := reply.n;
        err := if reply.err.None? then None else Some(FromSource(reply.err.value));
      }
      if 0 <= n <= to - from {
        delivered := delivered + p[from..from + n];
      }
      count, failed, empties := n, err, if n == 0 && err.None? then empties + 1 else 0;
    }
  }

  /** None of the buffers uses this memory. */
  ghost predicate Apart(bs: set<Buf>, memory: array<byte>) { forall b :: b in bs ==> b.full != memory }

  lemma SameSplit(a: seq<byte>, b: seq<byte>, c: seq<byte>, d: seq<byte>)
    requires a + b == c + d && |a| == |c|
    ensures a == c && b == d
  {
    assert a == (a + b)[..|a|] && c == (c + d)[..|c|];
    assert b == (a + b)[|a|..] && d == (c + d)[|c|..];
  }

  class Reader {
    const src: Source
    const pool: Pool
    const idle: array<byte>
    const max: nat
    var big: Buf?
    var data: array<byte>   // idle, or all of big's memory
    var len: nat            // data[..len] is the buffer
    var r: nat
    var w: nat              // data[r..w] is buffered
    var last: nat
    var err: Option<Err>    // sticky error from src
    var done: bool
    ghost var consumed: seq<byte>
    ghost var trail: Trail   // the grows since the buffer was last the idle one

    /** The pooled buffer the reader holds, if any. */
    ghost function Held(): set<Buf>
      reads this`big
    {
      if big == null then {} else {big}
    }

    /** What the reader's own borrowing must leave alone: the other live buffers of the
        pool, and what others have reserved on its budget. */
    ghost function Others(): (set<Buf>, int)
      reads this`big, pool, pool.budget
    {
      (pool.live - Held(), pool.Elsewhere())
    }

    /** The pool, what it may lend, and the buffer held. Live buffers of other owners are
        not in it, so no method below can touch them. */
    ghost function Store(): set<object>
      reads this`big, pool
    {
      {pool} + pool.Spare() + (if big == null then {} else {big, big.full})
    }

    /** The buffer is the idle one or one live pooled buffer, and pooled memory is never
        the idle memory. */
    ghost predicate Owns()
      reads this`big, this`data, this`len, this`done, pool, pool.budget
    {
      && pool.Valid()
      && Apart(pool.live + pool.free, idle)
      && (if big == null then data == idle && (done || len == idle.Length)
          else !done && big in pool.live && data == big.full)
    }

    /** The indices are in range, the buffer is within max, and an empty one starts over. */
    ghost predicate Shape()
      reads this`data, this`len, this`r, this`w, this`err, this`done
    {
      && 1 <= idle.Length <= max
      && r <= w <= len <= data.Length
      && (r == w ==> r == 0)
      && (if done then len == 0 else 1 <= len <= max)
      && (err.Some? ==> !src.steady && (err.value.FromSource? || err.value.InvalidCount?))
    }

    /** Consumed then buffered is what the source has delivered, and an error of the source that
        is kept is its last. */
    ghost predicate Unbroken()
      reads this`data, this`r, this`w, this`consumed, this`err, src, data
      requires r <= w <= data.Length
    {
      consumed + data[r..w] == src.delivered && (err.Some? && err.value.FromSource? ==> err == src.failed)
    }

    /** Why a read failed: the source made no progress, which is not kept, or the error kept. */
    ghost predicate Explains(e: Option<Err>)
      reads this`err
    {
      e.Some? ==> if e.value.NoProgress? then err.None? else e == err
    }

    /** Exactly why a call for n bytes failed, given whether it was stuck and which error was kept
        when it was made: TooLarge above max, NoBuffer if stuck, or else what the read says, which
        is the error kept if there was one. */
    ghost predicate Why(n: int, e: Option<Err>, stuck: bool, kept: Option<Err>)
      reads this`err
    {
      && (e == Some(TooLarge) <==> n > max) && (e == Some(NoBuffer) <==> stuck)
      && (n <= max && e != Some(NoBuffer) ==> Explains(e) && (kept.Some? && e.Some? ==> e == kept))
    }

    /** The budget does not cover a buffer of this size. */
    ghost predicate Refuses(size: int)
      reads pool.budget
    {
      pool.budget != null && pool.budget.used + Capacity(size) > pool.budget.max
    }

    /** Holding n bytes takes a larger buffer, which the budget does not cover. */
    ghost predicate Stuck(n: int)
      reads this`len, pool.budget
    {
      len < n <= max && Refuses(GrowSize(len, n, max))
    }

    /** The buffer's length is where its grows have led. */
    ghost predicate Traced()
      reads this`len, this`trail
    {
      Growth(trail, max) && Last(trail) == len
    }

    ghost predicate Valid()
      reads this, src, pool, pool.budget, data
    {
      Owns() && Shape() && (!done ==> Unbroken() && Traced())
    }

    ghost function Buffered(): seq<byte>
      reads this, data
      requires r <= w <= data.Length
    {
      data[r..w]
    }

    /** IdleSize 0 means 512 and Max 0 means 64KB; an IdleSize below 0 or above Max
        panics, so it is the caller's to exclude. */
    constructor (src: Source, pool: Pool, idleSize: nat, maxSize: nat)
      requires pool.Valid() && src.delivered == []
      requires (if idleSize == 0 then 512 else idleSize) <= (if maxSize == 0 then LARGE else maxSize)
      ensures Valid() && !done && Buffered() == [] && consumed == [] && big == null
      ensures this.src == src && this.pool == pool && fresh(idle)
      ensures max == (if maxSize == 0 then LARGE else maxSize) && trail == Trail([idle.Length], [])
      ensures err.None? && last == 0
      ensures idle.Length == if idleSize == 0 then 512 else idleSize
    {
      var size := if idleSize == 0 then 512 else idleSize;
      var buffer := new byte[size](_ => 0);
      idle, data, len := buffer, buffer, size;
      max := if maxSize == 0 then LARGE else maxSize;
      this.src, this.pool := src, pool;
      big, r, w, last, err, done, consumed, trail := null, 0, 0, 0, None, false, [], Trail([size], []);
    }

    /** The retry loop of readOnce: the first read that returns data or an error, unless
        a hundred in a row return neither. */
    method Pull() returns (n: int, se: Option<Err>)
      requires Shape() && Unbroken() && !done && w < len
      modifies src, data
      ensures data[..w] == old(data[..w])
      ensures src.delivered == old(src.delivered) + if 0 <= n <= len - w then data[w..w + n] else []
      ensures n == 0 ==> se.Some?
      ensures se.Some? ==> se.value.FromSource? || (se.value.NoProgress? && n == 0)
      ensures if se == Some(NoProgress) then src.empties == old(src.empties) + MAX_EMPTY_READS
              else src.count == n && src.failed == se && src.empties == 0
      ensures src.steady ==> n == 1 && se.None?
    {
      var i := 0;
      while true
        invariant i < MAX_EMPTY_READS && src.empties == old(src.empties) + i
        invariant src.delivered == old(src.delivered) && data[..w] == old(data[..w])
        decreases MAX_EMPTY_READS - i
      {
        n, se := src.Read(data, w, len);
        if n != 0 || se.Some? { break; }
        if i == MAX_EMPTY_READS - 1 { return 0, Some(NoProgress); }
        i := i + 1;
      }
    }

    /** Takes in n bytes that are in place, and the error that came with them. */
    method TakeIn(n: nat, se: Option<Err>)
      requires Shape() && !done && n <= len - w && (se.Some? ==> se.value.FromSource? && !src.steady)
      modifies this`w, this`last, this`err
      ensures Shape() && r == old(r) && w == old(w) + n && last == n && err == se
      ensures data[r..w] == old(data[r..w]) + old(data[w..w + n])
    {
      assert data[r..w + n] == data[r..w] + data[w..w + n];
      w, last, err := w + n, n, se;
    }

    /** One read from the source. Success always adds bytes; failure adds none. An error
        of the source is sticky, NoProgress is not. */
    method ReadOnce() returns (e: Option<Err>)
      requires Shape() && Unbroken() && !done && w < len
      modifies this`w, this`last, this`err, src, data
      ensures Shape() && Unbroken()
      ensures r == old(r) && old(Buffered()) <= Buffered()
      ensures e.None? ==> |Buffered()| > |old(Buffered())| && old(err).None?
      ensures e.Some? ==> w == old(w) && Explains(e) && !e.value.TooLarge? && !e.value.NoBuffer?
      ensures old(err).Some? ==> e == err == old(err)
      ensures old(err).None? && e.Some? ==>
                && (e.value.NoProgress? ==> src.empties == old(src.empties) + MAX_EMPTY_READS)
                && (e.value.InvalidCount? ==> !(0 <= src.count <= len - w))
      ensures last == if e.None? then |Buffered()| - |old(Buffered())|
                      else if old(err).None? && e.value.FromSource? then 0 else old(last)
      ensures src.steady ==> e.None?
    {
      if err.Some? {
        e := err;
      } else {
        var n, se := Pull();
        assert data[r..w] == data[..w][r..] == old(data[..w])[r..] == old(Buffered());
        if se == Some(NoProgress) {
          e := se;
        } else if n < 0 || n > len - w {
          err := Some(InvalidCount);
          e := err;
        } else {
          TakeIn(n, se);
          e := if n > 0 then None else se;   // hand out data first; the error comes next time
        }
      }
    }

    /** The same on a valid reader, whose holdings it leaves alone. */
    method ReadMore() returns (e: Option<Err>)
      requires Valid() && !done && w < len
      modifies this`w, this`last, this`err, src, data
      ensures Valid() && old(Buffered()) <= Buffered() && (e.None? <==> w - r > old(w - r))
      ensures Explains(e) && e != Some(TooLarge) && e != Some(NoBuffer)
      ensures e.None? ==> last == w - r - old(w - r)
      ensures old(err).Some? ==> e == err == old(err)
      ensures src.steady ==> e.None?
    {
      e := ReadOnce();
    }

    /** copy(dst, data[r:w]) between distinct arrays. */
    method CopyOut(dst: array<byte>, n: nat)
      requires r + n <= data.Length && n <= dst.Length && dst != data
      modifies dst
      ensures dst[..n] == data[r..r + n]
    {
      var from, off := data, r;
      forall i | 0 <= i < n {
        dst[i] := from[off + i];
      }
    }

    /** Takes b over as it is, giving the old pooled buffer back. */
    method Switch(b: Buf, size: nat)
      requires Owns() && Shape() && !done
      requires b in pool.live && b != big && b.n == size <= b.full.Length && len < size <= max
      modifies this`big, this`data, this`len, this`r, this`w, pool, pool.budget, big
      ensures Owns() && Shape() && big == b && r == 0 && w == old(w - r) && len == size
      ensures pool.live == old(pool.live - Held()) && pool.Elsewhere() == old(pool.Elsewhere())
      ensures pool.Spare() <= old(Store())
    {
      if big != null {
        pool.Release(big);
      }
      big, data, len, r, w := b, b.full, size, 0, w - r;
    }

    /** Switches to the freshly borrowed b with the buffered bytes moved into it. */
    method Adopt(b: Buf, size: nat)
      requires Owns() && Shape() && !done
      requires b in pool.live && b != big && b.full != data && b.n == size <= b.full.Length && len < size <= max
      modifies this`big, this`data, this`len, this`r, this`w, pool, pool.budget, big, b.full
      ensures Owns() && Shape() && big == b && r == 0 && len == size
      ensures w - r == old(w - r) && data[r..w] == old(data[r..w])
      ensures pool.live == old(pool.live - Held()) && pool.Elsewhere() == old(pool.Elsewhere())
      ensures pool.Spare() <= old(Store())
    {
      CopyOut(b.full, w - r);
      Switch(b, size);
    }

    /** A buffer from the pool that is neither the idle one nor the one held. */
    method Borrow(size: nat) returns (b: Buf?)
      requires Owns()
      modifies pool, pool.budget, pool.free
      ensures Owns() && pool.Spare() <= old(pool.Spare()) && pool.Elsewhere() == old(pool.Elsewhere())
      ensures b == null <==> old(Refuses(size))
      ensures b == null ==> pool.live == old(pool.live)
      ensures unchanged(this) && unchanged(src) && unchanged(data)
      ensures b != null ==>
                && pool.live == old(pool.live) + {b} && b !in old(pool.live) && b != big
                && b.full != data && b.full != idle && b.n == size <= b.full.Length
                && ({b, b.full} <= old(pool.Spare()) || (fresh(b) && fresh(b.full)))
    {
      b := pool.Get(size);
      CapacityMonotone(size, size);
    }

    /** Borrows a buffer of the given size and moves into it, or changes nothing. */
    method Enlarge(size: nat) returns (ok: bool)
      requires Owns() && Shape() && !done && len < size <= max
      modifies this`big, this`data, this`len, this`r, this`w, Store()
      ensures Owns() && Shape() && (forall o :: o in Store() ==> o in old(Store()) || fresh(o))
      ensures w - r == old(w - r) && data[r..w] == old(data[r..w]) && Others() == old(Others())
      ensures (ok <==> !old(Refuses(size))) && if ok then len == size && r == 0 else unchanged(this)
    {
      var b := Borrow(size);
      ok := b != null;
      if ok {
        Adopt(b, size);
        assert pool.live - Held() == old(pool.live - Held());
      }
    }

    /** The same, with the grow recorded. */
    method Extend(size: nat, ghost need: int) returns (ok: bool)
      requires Valid() && !done && len < size <= max && Growth(Longer(trail, need, size), max)
      modifies this`big, this`data, this`len, this`r, this`w, this`trail, Store()
      ensures Valid() && (forall o :: o in Store() ==> o in old(Store()) || fresh(o))
      ensures Buffered() == old(Buffered()) && Others() == old(Others())
      ensures ok <==> !old(Refuses(size))
      ensures if ok then len == size && r == 0 && trail == Longer(old(trail), need, size) else unchanged(this)
    {
      assert this !in Store() && src !in Store();
      ok := Enlarge(size);
      if ok { trail := Longer(trail, need, size); }
    }

    /** Moves the buffered bytes into a buffer at least one size class larger, within
        max. Failure changes nothing. */
    method Grow(need: int) returns (e: Option<Err>)
      requires Valid() && !done
      modifies this`big, this`data, this`len, this`r, this`w, this`trail, Store()
      ensures Valid() && (forall o :: o in Store() ==> o in old(Store()) || fresh(o))
      ensures Buffered() == old(Buffered()) && Others() == old(Others())
      ensures e == Some(TooLarge) <==> GrowSize(old(len), need, max) <= old(len)
      ensures e.None? ==> len == GrowSize(old(len), need, max) && r == 0
      ensures trail == After(old(trail), e.None?, need, len)
      ensures e == Some(NoBuffer) <==> old(GrowSize(len, need, max) > len && Refuses(GrowSize(len, need, max)))
      ensures e.Some? ==> e.value in {TooLarge, NoBuffer} && len == old(len) && r == old(r) && big == old(big)
    {
      var size := Min(Capacity(Max(need, len + 1)), max);
      if size <= len {
        e := Some(TooLarge);
      } else {
        Grows(trail, need, max);
        var ok := Extend(size, need);
        e := if ok then None else Some(NoBuffer);
      }
    }

    /** The in-place compaction: moves the buffered bytes to the front. */
    method Compact()
      requires Shape() && Unbroken() && !done
      modifies this`r, this`w, data
      ensures Shape() && Unbroken() && r == 0 && Buffered() == old(Buffered())
    {
      var d, off, n := data, r, w - r;
      forall i | 0 <= i < n {
        d[i] := d[off + i];
      }
      r, w := 0, n;
      assert data[r..w] == old(data[r..w]);
    }

    /** Makes room for n bytes from r with space left to read into. When n is more than
        is buffered, as Peek and Fill ask, only the budget or max can refuse it, and the
        last grow, flagged by `fell`, is never reached. */
    method Ensure(n: int) returns (e: Option<Err>, ghost fell: bool, ghost grew: bool)
      requires Valid() && !done
      modifies this`big, this`data, this`len, this`r, this`w, this`trail, idle, Store()
      ensures Valid() && (forall o :: o in Store() ==> o in old(Store()) || fresh(o))
      ensures Buffered() == old(Buffered())
      ensures Others() == old(Others())
      ensures e.None? ==> w < len && n <= len - r
      ensures e.Some? ==> e.value in {TooLarge, NoBuffer}
      ensures n > |Buffered()| ==> !fell && (e == Some(TooLarge) <==> n > max)
      ensures n > |Buffered()| ==> (e == Some(NoBuffer) <==> old(Stuck(n)))
      ensures n > |Buffered()| ==> (grew <==> e.None? && n > old(len)) && trail == After(old(trail), grew, n, len)
      ensures !grew ==> len == old(len)
    {
      fell, grew := false, false;
      if n > max {
        e := Some(TooLarge);
      } else if len < n {
        CapacityMonotone(0, n);
        CapacityMonotone(n, n);
        e := Grow(n);
        grew := e.None?;
      } else if w < len && len - r >= n {
        e := None;
      } else {
        var compacted := r > 0;
        if compacted { Compact(); }
        if compacted && w < len {
          e := None;
        } else {
          fell := true;
          CapacityMonotone(len + 1, len + 1);
          e := Grow(len + 1);
          grew := e.None?;
        }
      }
    }

    /** ensure as Peek and Fill call it, for more than is buffered. */
    method MakeRoom(n: int) returns (e: Option<Err>, ghost grew: bool)
      requires Valid() && !done && n > w - r
      modifies this`big, this`data, this`len, this`r, this`w, this`trail, idle, Store()
      ensures Valid() && !done && (forall o :: o in Store() ==> o in old(Store()) || fresh(o))
      ensures Buffered() == old(Buffered()) && Others() == old(Others()) && err == old(err)
      ensures (e.None? ==> w < len) && (e == Some(TooLarge) <==> n > max) && (e == Some(NoBuffer) <==> old(Stuck(n)))
      ensures e.Some? ==> e.value in {TooLarge, NoBuffer}
      ensures (grew <==> e.None? && n > old(len)) && (if grew then n <= len else len == old(len))
      ensures trail == After(old(trail), grew, n, len)
    {
      ghost var fell: bool;
      assert this !in Store() && src !in Store();
      e, fell, grew := Ensure(n);
    }

    /** One round of Peek's loop and all of Fill: makes room for n bytes, then reads. */
    method EnsureAndRead(n: int) returns (e: Option<Err>, ghost grew: bool)
      requires Valid() && !done && n > w - r
      modifies this`big, this`data, this`len, this`r, this`w, this`last, this`err, this`trail, src, idle, Store()
      ensures Valid() && !done && (forall o :: o in Store() ==> o in old(Store()) || fresh(o))
      ensures Others() == old(Others())
      ensures old(Buffered()) <= Buffered()
      ensures e.None? <==> w - r > old(w - r)
      ensures e.None? ==> last == w - r - old(w - r)
      ensures Why(n, e, old(Stuck(n)), old(err))
      ensures old(err).Some? ==> err == old(err) && e.Some?
      ensures trail == After(old(trail), grew, n, len) && (!grew ==> len == old(len))
      ensures (e.None? && n > old(len) ==> grew) && (grew ==> n > old(len) && n <= len)
      ensures n <= max && src.steady && pool.budget == null ==> e.None?
    {
      e, grew := MakeRoom(n);
      if e.None? {
        e := ReadMore();
      }
    }

    /** Peek's check of max, then its loop, round by round. */
    method PeekWithin(n: nat) returns (e: Option<Err>, ghost grew: bool)
      requires Valid() && !done
      modifies this`big, this`data, this`len, this`r, this`w, this`last, this`err, this`trail, src, idle, Store()
      ensures Valid() && (forall o :: o in Store() ==> o in old(Store()) || fresh(o))
      ensures Others() == old(Others()) && old(Buffered()) <= Buffered()
      ensures e.None? <==> w - r >= n
      ensures Why(n, e, old(Stuck(n)), old(err))
      ensures old(w - r) >= n ==> src.delivered == old(src.delivered)
      ensures trail == After(old(trail), grew, n, len)
    {
      e, grew := if n > max then Some(TooLarge) else None, false;
      ghost var mine := Store();
      while w - r < n && e.None?
        invariant Valid() && !done && (forall o :: o in Store() ==> o in mine || fresh(o))
        invariant Others() == old(Others()) && old(Buffered()) <= Buffered()
        invariant (e.Some? ==> w - r < n) && (e == Some(TooLarge) <==> n > max)
        invariant old(w - r) >= n ==> src.delivered == old(src.delivered)
        invariant trail == After(old(trail), grew, n, len) && (grew ==> n <= len)
        invariant old(Stuck(n)) <==> if e.None? then Stuck(n) else e == Some(NoBuffer)
        invariant n <= max && e != Some(NoBuffer) ==> Explains(e)
        invariant old(err).Some? ==> err == old(err) && w - r == old(w - r)
        decreases n - (w - r), e.None?
      {
        ghost var more: bool;
        e, more := EnsureAndRead(n);
        grew := grew || more;
      }
    }

    /** The first n buffered bytes, which are the next n of the stream. */
    method View(n: nat) returns (b: seq<byte>)
      requires Valid() && !done && n <= w - r
      ensures |b| == n && b <= Buffered() && consumed + b <= src.delivered && (n == w - r ==> b == Buffered())
    {
      b := data[r..r + n];
      assert data[r..w] == b + data[r + n..w];
    }

    /** Peek on a live reader. */
    method PeekLive(n: nat) returns (b: seq<byte>, e: Option<Err>, ghost grew: bool)
      requires Valid() && !done
      modifies this`big, this`data, this`len, this`r, this`w, this`last, this`err, this`trail, src, idle, Store()
      ensures Valid() && !done && (forall o :: o in Store() ==> o in old(Store()) || fresh(o))
      ensures Others() == old(Others()) && old(Buffered()) <= Buffered()
      ensures if e.None? then |b| == n && b <= Buffered() && consumed + b <= src.delivered
              else b == Buffered() && |b| < n
      ensures n <= old(w - r) ==> src.delivered == old(src.delivered)
      ensures Why(n, e, old(Stuck(n)), old(err)) && trail == After(old(trail), grew, n, len)
    {
      e, grew := PeekWithin(n);
      b := View(if e.None? then n else w - r);
    }

    /** The next n bytes of the stream, without consuming them, reading as needed. If
        fewer can be had, what is buffered and the error that stopped it: TooLarge exactly
        above max, NoBuffer exactly if a larger buffer is needed and refused, or else why the
        source gives no more. */
    method Peek(n: int) returns (b: seq<byte>, e: Option<Err>, ghost grew: bool)
      requires Valid()
      modifies this`big, this`data, this`len, this`r, this`w, this`last, this`err, this`trail, src, idle, Store()
      ensures Valid() && (forall o :: o in Store() ==> o in old(Store()) || fresh(o))
      ensures Others() == old(Others()) && old(Buffered()) <= Buffered()
      ensures done ==> b == [] && e == Some(Released)
      ensures !done && n < 0 ==> b == [] && e == Some(NegativeCount) && Buffered() == old(Buffered())
      ensures !done && n >= 0 && e.None? ==> |b| == n && b <= Buffered() && consumed + b <= src.delivered
      ensures !done && n >= 0 && e.Some? ==> b == Buffered() && |b| < n
      ensures n <= old(w - r) ==> src.delivered == old(src.delivered)
      ensures !done && n >= 0 ==> Why(n, e, old(Stuck(n)), old(err))
      ensures trail == After(old(trail), grew, n, len)
    {
      if done {
        b, e, grew := [], Some(Released), false;
      } else if n < 0 {
        b, e, grew := [], Some(NegativeCount), false;
      } else {
        b, e, grew := PeekLive(n);
      }
    }

    /** One more read appended to what is buffered, growing first if it is full; it fails for the
        reasons Peek does. */
    method Fill() returns (e: Option<Err>, ghost grew: bool)
      requires Valid()
      modifies this`big, this`data, this`len, this`r, this`w, this`last, this`err, this`trail, src, idle, Store()
      ensures Valid() && (forall o :: o in Store() ==> o in old(Store()) || fresh(o))
      ensures Others() == old(Others())
      ensures old(Buffered()) <= Buffered()
      ensures done ==> e == Some(Released)
      ensures (e.None? <==> w - r > old(w - r)) && (e.None? ==> last == w - r - old(w - r))
      ensures !done ==> Why(old(w - r) + 1, e, old(Stuck(w - r + 1)), old(err)) && (old(err).Some? ==> e.Some?)
      ensures trail == After(old(trail), grew, old(w - r) + 1, len) && (!grew ==> len == old(len))
      ensures (e.None? && old(w - r) + 1 > old(len) ==> grew) && (grew ==> old(w - r) + 1 > old(len))
      ensures !done && old(w - r) + 1 <= max && src.steady && pool.budget == null ==> e.None?
    {
      if done {
        e, grew := Some(Released), false;
      } else {
        var n := w - r + 1;
        e, grew := EnsureAndRead(n);
      }
    }

    /** Steps past k buffered bytes; an empty buffer starts over. */
    method Advance(k: nat)
      requires Shape() && k <= w - r
      modifies this`r, this`w
      ensures Shape() && w - r == old(w - r) - k && Buffered() == old(Buffered())[k..]
    {
      r := r + k;
      if r == w {
        r, w := 0, 0;
      }
    }

    /** Moves k buffered bytes to the consumed side. */
    method Consume(k: nat)
      requires Shape() && k <= w - r
      modifies this`r, this`w, this`consumed
      ensures Shape() && w - r == old(w - r) - k
      ensures consumed + Buffered() == old(consumed + Buffered()) && |consumed| == |old(consumed)| + k
    {
      ghost var front := Split(consumed, Buffered(), k);
      Advance(k);
      consumed := front;
    }

    /** The first k of b go over to a. */
    static lemma Split(a: seq<byte>, b: seq<byte>, k: nat) returns (front: seq<byte>)
      requires k <= |b|
      ensures front + b[k..] == a + b && |front| == |a| + k
    {
      front := a + b[..k];
    }

    /** Consumes n buffered bytes, or all there are. A pooled buffer that empties after a
        light read goes back to the pool. */
    method Discard(n: int) returns (k: nat)
      requires Valid()
      modifies this`big, this`data, this`len, this`r, this`w, this`consumed, this`trail, pool, pool.budget, big
      ensures Valid() && Store() <= old(Store()) && Others() == old(Others())
      ensures k == if n <= 0 then 0 else Min(n, |old(Buffered())|)
      ensures consumed + Buffered() == old(consumed + Buffered()) && |consumed| == |old(consumed)| + k
      ensures big == if n > 0 && Buffered() == [] && last <= idle.Length then null else old(big)
      ensures if old(big) != null && big == null then trail == Trail([idle.Length], [])
              else trail == old(trail)
    {
      k := if n <= 0 then 0 else Min(n, w - r);
      if n > 0 {
        Consume(k);
        if r == w {
          Settle();
        }
      }
    }

    /** shrink: the pooled buffer goes back and the idle one takes over. */
    method Shrink()
      requires Owns() && Shape() && !done && r == w && big != null
      modifies this`big, this`data, this`len, this`trail, pool, pool.budget, big
      ensures Owns() && Shape() && Traced() && big == null
      ensures pool.live == old(pool.live) - {old(big)} && pool.Elsewhere() == old(pool.Elsewhere())
      ensures Store() <= old(Store()) && trail == Trail([idle.Length], [])
    {
      pool.Release(big);
      big, data, len, trail := null, idle, idle.Length, Trail([idle.Length], []);
    }

    /** Back to the idle buffer after a light read, when nothing is buffered. */
    method Settle()
      requires Valid() && r == w
      modifies this`big, this`data, this`len, this`trail, pool, pool.budget, big
      ensures Valid() && Store() <= old(Store()) && Others() == old(Others())
      ensures big == if last <= idle.Length then null else old(big)
      ensures if old(big) != null && big == null then trail == Trail([idle.Length], [])
              else trail == old(trail)
    {
      if big != null && last <= idle.Length {
        Shrink();
        assert pool.live - Held() == old(pool.live - Held());
      }
    }

    /** Read on a live reader, into a slice with room. */
    method ReadLive(p: array<byte>) returns (n: nat, e: Option<Err>)
      requires Valid() && !done && p != idle && p !in Store() && p.Length > 0
      modifies this`big, this`data, this`len, this`r, this`w, this`last, this`err, this`consumed, this`trail
      modifies src, idle, Store(), p
      ensures Valid() && Store() <= old(Store()) && Others() == old(Others())
      ensures n <= p.Length && consumed == old(consumed) + p[..n] && (e.None? <==> n > 0)
      ensures old(w - r) > 0 ==> n == Min(p.Length, old(w - r)) && src.delivered == old(src.delivered)
      ensures Explains(e) && (old(w - r) == 0 && old(err).Some? ==> e == old(err))
    {
      n, e := 0, None;
      if r == w {
        e := ReadOnce();
      }
      if e.None? {
        n := HandOut(p);
      }
    }

    /** io.Reader: hands out buffered bytes, reading once only when there are none. The
        bytes written to p are the next n of the stream, and they are consumed. */
    method Read(p: array<byte>) returns (n: nat, e: Option<Err>)
      requires Valid() && p != idle && p !in Store()
      modifies this`big, this`data, this`len, this`r, this`w, this`last, this`err, this`consumed, this`trail
      modifies src, idle, Store(), p
      ensures Valid() && Store() <= old(Store()) && Others() == old(Others())
      ensures n <= p.Length && consumed == old(consumed) + p[..n]
      ensures !done && old(w - r) > 0 ==> n == Min(p.Length, old(w - r)) && src.delivered == old(src.delivered)
      ensures done ==> e == Some(Released)
      ensures e.Some? ==> n == 0
      ensures e.None? && p.Length > 0 ==> n > 0
      ensures !done && p.Length > 0 ==> Explains(e) && (old(w - r) == 0 && old(err).Some? ==> e == old(err))
    {
      if done {
        n, e := 0, Some(Released);
      } else if p.Length == 0 {
        n, e := 0, None;
      } else {
        n, e := ReadLive(p);
      }
    }

    /** Copies as much as fits from the front of the buffer and discards it. */
    method HandOut(p: array<byte>) returns (n: nat)
      requires Valid() && p != data && p.Length > 0 && w > r
      modifies this`big, this`data, this`len, this`r, this`w, this`consumed, this`trail, pool, pool.budget, big, p
      ensures Valid() && Store() <= old(Store()) && Others() == old(Others())
      ensures n == Min(p.Length, old(w - r)) && consumed == old(consumed) + p[..n]
    {
      n := Min(p.Length, w - r);
      CopyOut(p, n);
      ghost var rest := data[r + n..w];
      assert data[r..w] == data[r..r + n] + rest && data[r..r + n] == p[..n];
      assert consumed + data[r..w] == (consumed + p[..n]) + rest;
      var k := Discard(n);
      SameSplit(consumed, data[r..w], old(consumed) + p[..n], rest);
    }

    /** However it got here, the reader has grown at most once per size class since its
        buffer was last the idle one, plus once per byte of max above the classes. */
    lemma GrowsSeldom()
      requires Valid() && !done
      ensures |trail.needs| <= NUM_CLASSES + (if max > LARGE then max - LARGE else 0)
    {
      GrowsAtMost(trail, max);
    }

    /** Release gives any borrowed buffer back, once, and ends the reader. */
    method Release()
      requires Valid()
      modifies this`big, this`data, this`len, this`r, this`w, this`done, pool, pool.budget, big
      ensures Valid() && done && big == null && Buffered() == []
      ensures pool.live == old(pool.live - Held()) && pool.Elsewhere() == old(pool.Elsewhere())
    {
      if done { return; }
      done := true;
      if big != null {
        pool.Release(big);
        big := null;
      }
      data, len, r, w := idle, 0, 0, 0;
    }
  }

  /** Above the classes every successful Fill of a full buffer is a grow of one byte, after
      which the buffer is full again. */
  method FillFull(rd: Reader) returns (e: Option<Err>)
    requires rd.Valid() && !rd.done && LARGE <= rd.len == rd.w - rd.r < rd.max
    modifies rd, rd.src, rd.idle, rd.Store()
    ensures rd.Valid() && !rd.done && (forall o :: o in rd.Store() ==> o in old(rd.Store()) || fresh(o))
    ensures e.None? ==> rd.len == rd.w - rd.r == old(rd.len) + 1 && |rd.trail.needs| == old(|rd.trail.needs|) + 1
    ensures rd.src.steady && rd.pool.budget == null ==> e.None?
  {
    ghost var grew: bool;
    e, grew := rd.Fill();
    if e.None? {
      assert GrowStep(rd.trail, |rd.trail.needs| - 1, rd.max);
      ByOneByte(old(rd.len), rd.max);
    }
  }

  /** Fills the idle buffer of a fresh reader, which does not grow for it. */
  method FillUp(rd: Reader)
    requires rd.Valid() && !rd.done && rd.src.steady && rd.pool.budget == null && rd.trail == Trail([rd.len], [])
    modifies rd, rd.src, rd.idle, rd.Store()
    ensures rd.Valid() && !rd.done && rd.len == rd.w - rd.r == old(rd.len) && rd.trail == old(rd.trail)
    ensures forall o :: o in rd.Store() ==> o in old(rd.Store()) || fresh(o)
  {
    ghost var mine := rd.Store();
    while rd.w - rd.r < rd.len
      invariant rd.Valid() && !rd.done && rd.len == old(rd.len) && rd.trail == old(rd.trail)
      invariant forall o :: o in rd.Store() ==> o in mine || fresh(o)
      decreases rd.len - (rd.w - rd.r)
    {
      var e, _ := rd.Fill();
    }
  }

  /** k Fills in a row above the classes are k grows. */
  method GrowOn(rd: Reader, k: nat)
    requires rd.Valid() && !rd.done && rd.src.steady && rd.pool.budget == null
    requires LARGE <= rd.len == rd.w - rd.r && rd.len + k <= rd.max
    modifies rd, rd.src, rd.idle, rd.Store()
    ensures rd.Valid() && !rd.done && |rd.trail.needs| == old(|rd.trail.needs|) + k
  {
    ghost var mine := rd.Store();
    var i := 0;
    while i < k
      invariant 0 <= i <= k && rd.Valid() && !rd.done
      invariant rd.len == rd.w - rd.r == old(rd.len) + i && |rd.trail.needs| == old(|rd.trail.needs|) + i
      invariant forall o :: o in rd.Store() ==> o in mine || fresh(o)
    {
      var e := FillFull(rd);
      i := i + 1;
    }
  }

  /** So the logarithmic claim needs Max <= LARGE: with k bytes more, a source that gives a
      byte at a time makes the reader grow k times in a row. */
  method GrowsByteByByte(k: nat) returns (rd: Reader)
    requires k > 0
    ensures rd.Valid() && !rd.done && rd.max == LARGE + k && |rd.trail.needs| == k
  {
    var src := new Source([], true);
    var pool := new Pool(null);
    rd := new Reader(src, pool, LARGE, LARGE + k);
    FillUp(rd);
    GrowOn(rd, k);
  }
}
