/** stream/writer.go: collects owned and shared buffers and sends them in one go. */
module StreamWriter {
  import opened BufPool
  import opened Common

  /** One answer of the sink: how many bytes it takes at most, and whether it also reports an
      error. */
  datatype Reply = Reply(take: nat, err: bool)

  /** Where the bytes go: any script of replies, then everything is taken. Taking fewer bytes
      than offered is an error, as io.Writer demands; taking all of them may be one too. */
  class Sink {
    var script: seq<Reply>
    var out: seq<byte>
    ghost var failures: nat   // writes that have failed

    constructor (script: seq<Reply>)
      ensures this.script == script && out == [] && failures == 0
    {
      this.script, out, failures := script, [], 0;
    }

    method Write(p: seq<byte>) returns (n: nat, failed: bool)
      modifies this
      ensures n <= |p| && (n < |p| ==> failed)
      ensures out == old(out) + p[..n] && failures == old(failures) + if failed then 1 else 0
    {
      if script == [] {
        n, failed := |p|, false;
      } else {
        n := if script[0].take < |p| then script[0].take else |p|;
        failed := script[0].err || n < |p|;
        script := script[1..];
      }
      out, failures := out + p[..n], failures + if failed then 1 else 0;
    }
  }

  /** One queued piece: an owned buffer, or shared bytes that never change. */
  datatype Piece = Owned(b: Buf) | Shared(p: seq<byte>)

  function Content(piece: Piece): seq<byte>
    reads if piece.Owned? then {piece.b as object, piece.b.full} else {}
    requires piece.Owned? ==> piece.b.n <= piece.b.full.Length
  {
    match piece
    case Owned(b) => b.full[..b.n]
    case Shared(p) => p
  }

  ghost predicate Readable(vec: seq<Piece>)
    reads set i | 0 <= i < |vec| && vec[i].Owned? :: vec[i].b
  {
    forall i :: 0 <= i < |vec| && vec[i].Owned? ==> vec[i].b.n <= vec[i].b.full.Length
  }

  /** Everything queued, in the order it was added. */
  ghost function Bytes(vec: seq<Piece>): seq<byte>
    reads set i | 0 <= i < |vec| && vec[i].Owned? :: vec[i].b
    reads set i | 0 <= i < |vec| && vec[i].Owned? :: vec[i].b.full
    requires Readable(vec)
  {
    if vec == [] then [] else Content(vec[0]) + Bytes(vec[1..])
  }

  /** The owned buffers of a queue, in order. */
  function Owners(vec: seq<Piece>): seq<Buf> {
    if vec == [] then []
    else
      var last := vec[|vec| - 1];
      Owners(vec[..|vec| - 1]) + if last.Owned? then [last.b] else []
  }

  lemma {:induction false} OwnersListed(vec: seq<Piece>, i: nat)
    requires i < |vec| && vec[i].Owned?
    ensures vec[i].b in Owners(vec)
    decreases |vec|
  {
    if i < |vec| - 1 { OwnersListed(vec[..|vec| - 1], i); }
  }

  function Flat(parts: seq<seq<byte>>): seq<byte> {
    if parts == [] then [] else parts[0] + Flat(parts[1..])
  }

  lemma {:induction false} FlatSplit(parts: seq<seq<byte>>, k: nat)
    requires k <= |parts|
    ensures Flat(parts) == Flat(parts[..k]) + Flat(parts[k..])
    decreases k
  {
    if k > 0 {
      FlatSplit(parts[1..], k - 1);
      assert parts[..k][1..] == parts[1..][..k - 1] && parts[1..][k - 1..] == parts[k..];
    }
  }

  lemma FlatNext(parts: seq<seq<byte>>, k: nat)
    requires k < |parts|
    ensures Flat(parts[k..]) == parts[k] + Flat(parts[k + 1..])
    ensures Flat(parts[..k + 1]) == Flat(parts[..k]) + parts[k]
  {
    assert parts[k..][1..] == parts[k + 1..];
    FlatSplit(parts[..k + 1], k);
    assert parts[..k + 1][..k] == parts[..k] && parts[..k + 1][k..] == [parts[k]];
  }

  /** net.Buffers.WriteTo without writev: one Write per piece until one fails. `sent` counts
      the pieces before the one that failed, all of which went out whole. */
  method WriteEach(dst: Sink, parts: seq<seq<byte>>) returns (n: nat, failed: bool, sent: nat)
    modifies dst
    ensures n <= |Flat(parts)| && dst.out == old(dst.out) + Flat(parts)[..n]
    ensures sent <= |parts| && (failed <==> sent < |parts|)
    ensures |Flat(parts[..sent])| <= n && (failed ==> n <= |Flat(parts[..sent + 1])|)
    ensures !failed ==> n == |Flat(parts)|
    ensures dst.failures == old(dst.failures) + if failed then 1 else 0
  {
    n, failed, sent := 0, false, 0;
    ghost var all := Flat(parts);
    while sent < |parts| && !failed
      invariant 0 <= sent <= |parts| && n <= |all| && dst.out == old(dst.out) + all[..n]
      invariant if failed then sent < |parts| && |Flat(parts[..sent])| <= n <= |Flat(parts[..sent + 1])|
                else n == |Flat(parts[..sent])|
      invariant dst.failures == old(dst.failures) + if failed then 1 else 0
      decreases |parts| - sent, !failed
    {
      FlatNext(parts, sent);
      FlatSplit(parts, sent);
      var k, f := dst.Write(parts[sent]);
      assert all[..n] + parts[sent][..k] == all[..n + k];
      n, failed := n + k, f;
      if !failed { sent := sent + 1; }
    }
    assert parts[..|parts|] == parts;
  }

  class Writer {
    const dst: Sink
    const pool: Pool
    var held: seq<Buf>
    var vec: seq<Piece>
    var size: nat

    /** Every owned buffer is queued once and still live, with B within its memory. */
    ghost predicate Valid()
      reads this, pool, pool.budget, held
    {
      && pool.Valid()
      && held == Owners(vec)
      && NoDup(held)
      && (forall b :: b in held ==> b in pool.live && b.n <= b.full.Length)
    }

    constructor (dst: Sink, pool: Pool)
      requires pool.Valid()
      ensures Valid() && held == [] && vec == [] && size == 0 && this.dst == dst && this.pool == pool
    {
      this.dst, this.pool, held, vec, size := dst, pool, [], [], 0;
    }

    /** Takes ownership of b, which until now was the caller's. */
    method Add(b: Buf)
      requires Valid() && b in pool.live && b !in held && b.n <= b.full.Length
      modifies this
      ensures Valid() && held == old(held) + [b] && vec == old(vec) + [Owned(b)]
      ensures size == old(size) + b.n
    {
      held := held + [b];
      vec := vec + [Owned(b)];
      size := size + b.n;
    }

    /** Only borrows p; an empty p is ignored. */
    method AddShared(p: seq<byte>)
      requires Valid()
      modifies this
      ensures Valid() && held == old(held)
      ensures vec == old(vec) + (if p == [] then [] else [Shared(p)]) && size == old(size) + |p|
    {
      if |p| == 0 { return; }
      vec := vec + [Shared(p)];
      size := size + |p|;
    }

    /** Releases every owned buffer exactly once and forgets the shared ones. */
    method Discard()
      requires Valid()
      modifies this, pool, pool.budget, held
      ensures Valid() && held == [] && vec == [] && size == 0
      ensures pool.live == old(pool.live) - set b | b in old(held)
      ensures pool.Elsewhere() == old(pool.Elsewhere())
    {
      var i := 0;
      while i < |held|
        invariant 0 <= i <= |held| && held == old(held)
        invariant pool.Valid() && pool.Elsewhere() == old(pool.Elsewhere())
        invariant pool.live == old(pool.live) - set j | 0 <= j < i :: old(held)[j]
      {
        assert held[i] in pool.live;
        pool.Release(held[i]);
        i := i + 1;
      }
      held, vec, size := [], [], 0;
    }

    lemma Queued()
      requires Valid()
      ensures Readable(vec)
    {
      forall i | 0 <= i < |vec| && vec[i].Owned? ensures vec[i].b.n <= vec[i].b.full.Length {
        OwnersListed(vec, i);
      }
    }

    /** Sends everything queued, in order, then gives back every owned buffer, sent or
        not. It fails exactly if a write of the sink does. An empty queue touches nothing. */
    method Flush(vectored: bool) returns (n: nat, failed: bool)
      requires Valid()
      modifies this, dst, pool, pool.budget, held
      ensures Valid() && held == [] && vec == [] && (old(vec) != [] ==> size == 0)
      ensures pool.live == old(pool.live) - set b | b in old(held)
      ensures pool.Elsewhere() == old(pool.Elsewhere())
      ensures old(Readable(vec)) && n <= |old(Bytes(vec))|
      ensures dst.out == old(dst.out) + old(Bytes(vec))[..n]
      ensures n < |old(Bytes(vec))| ==> failed
      ensures failed <==> dst.failures > old(dst.failures)
      ensures old(vec) == [] ==> !failed && dst.out == old(dst.out)
    {
      Queued();
      if |vec| == 0 {
        n, failed := 0, false;
      } else {
        if |vec| == 1 {
          assert Bytes(vec) == Content(vec[0]);
          n, failed := dst.Write(Content(vec[0]));
        } else {
          var parts := Parts();
          if vectored {
            n, failed := dst.Write(Flat(parts));
          } else {
            var sent: nat;
            n, failed, sent := WriteEach(dst, parts);
          }
        }
        Discard();
      }
    }

    /** The bytes of each piece, in order. */
    method Parts() returns (parts: seq<seq<byte>>)
      requires Readable(vec)
      ensures Flat(parts) == Bytes(vec)
    {
      parts := [];
      var i := |vec|;
      while i > 0
        invariant 0 <= i <= |vec|
        invariant Flat(parts) == Bytes(vec[i..])
      {
        i := i - 1;
        assert vec[i..][1..] == vec[i + 1..];
        parts := [Content(vec[i])] + parts;
      }
      assert vec[0..] == vec;
    }
  }
}
