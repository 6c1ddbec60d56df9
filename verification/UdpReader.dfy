/** udp.Conn's two receive loops: read, one datagram per call into one buffer, and
    readBatch, up to `batch` datagrams per call into slots of one block of memory. The bodies
    are written out as they stand in the source, which differ in where the delay is reset and
    who unmaps the sender; both are proved to compute the same function of what arrives. */
module UdpReader {
  import opened Bits
  import opened Common

  /** A netip address: 4 bytes, or 16 bytes with a zone, 0 for none. */
  datatype Addr = V4(ip: nat) | V6(ip: nat, zone: nat)

  /** What the kernel writes for a sender. */
  datatype SockAddr = Inet4(ip: nat) | Inet6(ip: nat, scope: nat)

  const MAPPED: nat := 0xFFFF
  const LOW: nat := 0x1_0000_0000

  /** netip's Unmap: an IPv4-mapped IPv6 address becomes the IPv4 address, without zone. */
  function Unmap(a: Addr): Addr { if a.V6? && a.ip / LOW == MAPPED then V4(a.ip % LOW) else a }

  /** The address net.UDPConn reports. */
  function NetAddr(sa: SockAddr): Addr {
    match sa
    case Inet4(ip) => V4(ip)
    case Inet6(ip, scope) => V6(ip, scope)
  }

  /** The address the batch reader reports: unmapped first, then given its zone. */
  function BatchAddr(sa: SockAddr): Addr {
    match sa
    case Inet4(ip) => V4(ip)
    case Inet6(ip, scope) =>
      var a := Unmap(V6(ip, 0));
      if scope != 0 && a.V6? then V6(a.ip, scope) else a
  }

  /** Both loops name a sender alike, unmapping before the zone is added or after: a 16-byte
      address from ::ffff:0:0 up to its last mapped one as the 4-byte address it stands for, any
      other as it came. */
  lemma SameSender(sa: SockAddr)
    ensures Unmap(NetAddr(sa)) == BatchAddr(sa)
    ensures BatchAddr(sa) == match sa
                             case Inet4(ip) => V4(ip)
                             case Inet6(ip, scope) =>
                               if 0xFFFF_0000_0000 <= ip < 0x1_0000_0000_0000 then V4(ip - 0xFFFF_0000_0000)
                               else V6(ip, scope)
  {
  }

  /** What the kernel puts in a message: the bytes, or as many as fit if it was truncated,
      the sender, and its drop count if it reports one. */
  datatype Datagram = Datagram(data: seq<byte>, truncated: bool, from: SockAddr, port: nat, drops: Option<nat>)

  /** What sys.ClassifyRead says of an error. */
  datatype ReadErr = Fatal | Transient | Truncated

  /** A failed read: is it net.ErrClosed, how it is classified, and whether Close comes while
      a transient one is waited out. */
  datatype Failure = Failure(netClosed: bool, kind: ReadErr, code: int, closedMeanwhile: bool)

  datatype Event = Got(d: Datagram) | Failed(why: Failure)

  datatype Call = Call(payload: seq<byte>, from: Addr, port: nat)

  /** Everything a reader does that can be seen: handler calls, drop observations, its
      counters, the delays it slept, and the connection's closed flag and fatal error. */
  datatype Trace = Trace(
    calls: seq<Call>, observed: seq<nat>, recvPackets: nat, recvBytes: nat, truncated: nat, recvErrors: nat,
    delay: nat, slept: seq<nat>, closed: bool, fatal: Option<int>, stopped: bool)

  const MIN_DELAY: nat := 5
  const MAX_DELAY: nat := 1000

  /** backoff.Next, in milliseconds. */
  function NextDelay(d: nat): nat {
    var raised := if 2 * d < MIN_DELAY then MIN_DELAY else 2 * d;
    if raised > MAX_DELAY then MAX_DELAY else raised
  }

  /** readFailed: a closed socket stops the loop whatever else the error is. */
  function AfterFailure(t: Trace, why: Failure): Trace {
    if why.netClosed then t.(stopped := true)
    else
      match why.kind
      case Truncated => t.(truncated := t.truncated + 1)
      case Transient =>
        var d := NextDelay(t.delay);
        t.(recvErrors := t.recvErrors + 1, delay := d, slept := t.slept + [d],
           closed := t.closed || why.closedMeanwhile, stopped := t.stopped || why.closedMeanwhile)
      case Fatal =>
        t.(recvErrors := t.recvErrors + 1, closed := true, stopped := true,
           fatal := if t.fatal.None? && !t.closed then Some(why.code) else t.fatal)
  }

  /** One datagram, on its own. */
  function AfterDatagram(t: Trace, d: Datagram): Trace {
    var seen := t.(delay := 0, observed := t.observed + if d.drops.Some? then [d.drops.value] else []);
    if d.truncated then seen.(truncated := seen.truncated + 1)
    else seen.(recvPackets := seen.recvPackets + 1, recvBytes := seen.recvBytes + |d.data|,
               calls := seen.calls + [Call(d.data, Unmap(NetAddr(d.from)), d.port)])
  }

  function AfterEvent(t: Trace, e: Event): Trace {
    match e
    case Got(d) => AfterDatagram(t, d)
    case Failed(why) => AfterFailure(t, why)
  }

  /** The meaning of a receive loop: events in order until one stops it. */
  function Process(t: Trace, events: seq<Event>): Trace
    decreases |events|
  {
    if t.stopped || events == [] then t else Process(AfterEvent(t, events[0]), events[1..])
  }

  /** What one recvmmsg call returns: at least one datagram, or a failure. */
  datatype Batch = Many(ds: seq<Datagram>) | Bad(why: Failure)

  function Events(b: Batch): seq<Event> {
    match b
    case Many(ds) => seq(|ds|, i requires 0 <= i < |ds| => Got(ds[i]))
    case Bad(why) => [Failed(why)]
  }

  /** The arrivals of a run of batches, one after the other. */
  function Flatten(bs: seq<Batch>): seq<Event> {
    if bs == [] then [] else Events(bs[0]) + Flatten(bs[1..])
  }

  lemma {:induction false} ProcessConcat(t: Trace, a: seq<Event>, b: seq<Event>)
    ensures Process(t, a + b) == Process(Process(t, a), b)
    decreases |a|
  {
    if t.stopped || a == [] {
      assert a == [] ==> a + b == b;
      StoppedStays(Process(t, a), b);
    } else {
      var t' := AfterEvent(t, a[0]);
      ProcessConcat(t', a[1..], b);
      assert (a + b)[1..] == a[1..] + b;
    }
  }

  lemma StoppedStays(t: Trace, events: seq<Event>)
    ensures t.stopped ==> Process(t, events) == t
  {
  }

  /** Before a datagram the delay does not matter, so it may as well be reset already. */
  lemma {:induction false} ResetEarly(t: Trace, events: seq<Event>)
    requires !t.stopped && events != [] && events[0].Got?
    ensures Process(t.(delay := 0), events) == Process(t, events)
  {
    assert AfterDatagram(t.(delay := 0), events[0].d) == AfterDatagram(t, events[0].d);
  }

  /** A whole datagram fits its buffer; a truncated one has been cut to it. */
  predicate Fits(d: Datagram, max: nat) { |d.data| <= max }

  class Conn {
    const max: nat        // MaxPacket
    const batch: nat
    var trace: Trace

    constructor (max: nat, batch: nat)
      ensures this.max == max && this.batch == batch
      ensures trace == Trace([], [], 0, 0, 0, 0, 0, [], false, None, false)
    {
      this.max, this.batch := max, batch;
      trace := Trace([], [], 0, 0, 0, 0, 0, [], false, None, false);
    }

    /** The kernel's copy into buf[lo..lo + |data|]. */
    method Receive(buf: array<byte>, lo: nat, data: seq<byte>)
      requires lo + |data| <= buf.Length
      modifies buf
      ensures buf[lo..lo + |data|] == data
      ensures forall k :: 0 <= k < buf.Length && !(lo <= k < lo + |data|) ==> buf[k] == old(buf[k])
    {
      forall k | 0 <= k < |data| {
        buf[lo + k] := data[k];
      }
    }

    /** The handler sees what is in its slice now, and may overwrite all of the slot, from lo
        to its capacity hi, before it returns. */
    method Handle(buf: array<byte>, lo: nat, size: nat, hi: nat, from: Addr, port: nat, scribble: seq<byte>)
      requires lo + size <= hi <= buf.Length
      modifies this`trace, buf
      ensures trace == old(trace).(calls := old(trace.calls) + [Call(old(buf[lo..lo + size]), from, port)])
      ensures forall k :: 0 <= k < buf.Length && !(lo <= k < hi) ==> buf[k] == old(buf[k])
    {
      trace := trace.(calls := trace.calls + [Call(buf[lo..lo + size], from, port)]);
      forall k | 0 <= k < |scribble| && lo + k < hi {
        buf[lo + k] := scribble[k];
      }
    }

    /** readFailed: stops, waits or goes on, and counts. */
    method ReadFailed(why: Failure)
      modifies this`trace
      ensures trace == AfterFailure(old(trace), why)
    {
      if why.netClosed {
        trace := trace.(stopped := true);
      } else if why.kind.Truncated? {
        trace := trace.(truncated := trace.truncated + 1);
      } else if why.kind.Transient? {
        trace := trace.(recvErrors := trace.recvErrors + 1, delay := NextDelay(trace.delay));
        trace := trace.(slept := trace.slept + [trace.delay]);
        if why.closedMeanwhile {
          trace := trace.(closed := true, stopped := true);
        }
      } else {
        trace := trace.(recvErrors := trace.recvErrors + 1);
        if trace.fatal.None? && !trace.closed {
          trace := trace.(fatal := Some(why.code));
        }
        trace := trace.(closed := true, stopped := true);
      }
    }

    /** The body of read for one datagram, in the one buffer: the delay is reset each time,
        and the sender is unmapped here. */
    method DeliverSingle(data: array<byte>, d: Datagram, scribble: seq<byte>)
      requires data.Length == max && Fits(d, max)
      modifies this`trace, data
      ensures trace == AfterDatagram(old(trace), d)
    {
      Receive(data, 0, d.data);
      var n, from := |d.data|, NetAddr(d.from);
      trace := trace.(delay := 0);
      if d.drops.Some? {
        trace := trace.(observed := trace.observed + [d.drops.value]);
      }
      if d.truncated {
        trace := trace.(truncated := trace.truncated + 1);
      } else {
        trace := trace.(recvPackets := trace.recvPackets + 1);
        trace := trace.(recvBytes := trace.recvBytes + n);
        Handle(data, 0, n, max, Unmap(from), d.port, scribble);
      }
    }

    /** read: one buffer, reused for every datagram. The handler's writes come from
        `scribbles`, which may be anything. */
    method Read(events: seq<Event>, scribbles: seq<seq<byte>>)
      requires forall i :: 0 <= i < |events| && events[i].Got? ==> Fits(events[i].d, max)
      requires |scribbles| == |events|
      modifies this`trace
      ensures trace == Process(old(trace).(delay := 0), events)
    {
      var data := new byte[max](_ => 0);
      trace := trace.(delay := 0);
      var i := 0;
      while i < |events| && !trace.stopped
        invariant 0 <= i <= |events|
        invariant Process(trace, events[i..]) == Process(old(trace).(delay := 0), events)
      {
        assert events[i..][1..] == events[i + 1..];
        match events[i] {
          case Got(d) => DeliverSingle(data, d, scribbles[i]);
          case Failed(why) => ReadFailed(why);
        }
        i := i + 1;
      }
    }

    /** The inner body of readBatch for one message of a batch: no reset, and the sender as
        the batch reader reports it. */
    method DeliverMessage(mem: array<byte>, lo: nat, d: Datagram, scribble: seq<byte>)
      requires lo + max <= mem.Length && Fits(d, max) && Holds(mem, lo, d.data) && trace.delay == 0
      modifies this`trace, mem
      ensures trace == AfterDatagram(old(trace), d) && trace.delay == 0
      ensures forall k :: 0 <= k < mem.Length && !(lo <= k < lo + max) ==> mem[k] == old(mem[k])
    {
      var size, from := |d.data|, BatchAddr(d.from);
      if d.drops.Some? {
        trace := trace.(observed := trace.observed + [d.drops.value]);
      }
      if d.truncated {
        trace := trace.(truncated := trace.truncated + 1);
      } else {
        trace := trace.(recvPackets := trace.recvPackets + 1);
        trace := trace.(recvBytes := trace.recvBytes + size);
        assert mem[lo..lo + size] == d.data;
        SameSender(d.from);
        Handle(mem, lo, size, lo + max, from, d.port, scribble);
      }
    }

    /** One batch: the kernel fills all slots first, the delay is reset once, then the handler
        runs on each message in turn. A handler that writes all over its own slot cannot change
        a later datagram. */
    method DeliverBatch(mem: array<byte>, starts: seq<nat>, ds: seq<Datagram>, scribbles: seq<seq<byte>>)
      requires Slots(starts, max, mem.Length) && 0 < |ds| <= |starts| && |scribbles| == |ds|
      requires forall i :: 0 <= i < |ds| ==> Fits(ds[i], max)
      requires !trace.stopped
      modifies this`trace, mem
      ensures trace == Process(old(trace), Events(Many(ds))) && !trace.stopped
    {
      FillSlots(mem, starts, ds);
      ghost var events := Events(Many(ds));
      trace := trace.(delay := 0);
      ResetEarly(old(trace), events);
      var i := 0;
      assert events[0..] == events;
      while i < |ds|
        invariant 0 <= i <= |ds| && !trace.stopped && trace.delay == 0
        invariant Process(trace, events[i..]) == Process(old(trace), events)
        invariant forall j :: i <= j < |ds| ==> Holds(mem, starts[j], ds[j].data)
      {
        assert events[i..][1..] == events[i + 1..] && events[i] == Got(ds[i]);
        DeliverMessage(mem, starts[i], ds[i], scribbles[i]);
        i := i + 1;
      }
    }

    /** recvmmsg: datagram j into slot j. */
    method FillSlots(mem: array<byte>, starts: seq<nat>, ds: seq<Datagram>)
      requires Slots(starts, max, mem.Length) && |ds| <= |starts|
      requires forall i :: 0 <= i < |ds| ==> Fits(ds[i], max)
      modifies mem
      ensures forall j :: 0 <= j < |ds| ==> Holds(mem, starts[j], ds[j].data)
    {
      var i := 0;
      while i < |ds|
        invariant 0 <= i <= |ds|
        invariant forall j :: 0 <= j < i ==> Holds(mem, starts[j], ds[j].data)
      {
        Receive(mem, starts[i], ds[i].data);
        i := i + 1;
      }
    }

    /** The slots of the block: slot i is mem[i * max .. (i + 1) * max]. */
    method Carve() returns (starts: seq<nat>)
      ensures |starts| == batch && Slots(starts, max, batch * max)
      ensures forall i :: 0 <= i < batch ==> starts[i] == i * max
    {
      starts := [];
      var i := 0;
      while i < batch
        invariant 0 <= i <= batch && |starts| == i
        invariant forall j :: 0 <= j < i ==> starts[j] == j * max
        invariant Slots(starts, max, i * max)
      {
        SlotEnd(i, max);
        starts := starts + [i * max];
        i := i + 1;
      }
    }

    /** readBatch. If the socket cannot be had at all, that failure is its only event and it
        ends; otherwise it does what read does with the same arrivals. */
    method ReadBatch(refused: Option<Failure>, batches: seq<Batch>, scribbles: seq<seq<seq<byte>>>)
      requires |scribbles| == |batches|
      requires forall b :: 0 <= b < |batches| && batches[b].Many? ==>
                 && 0 < |batches[b].ds| <= batch && |scribbles[b]| == |batches[b].ds|
                 && forall i :: 0 <= i < |batches[b].ds| ==> Fits(batches[b].ds[i], max)
      modifies this`trace
      ensures trace == if refused.None? then Process(old(trace).(delay := 0), Flatten(batches))
                       else AfterFailure(old(trace).(delay := 0), refused.value)
    {
      trace := trace.(delay := 0);
      if refused.Some? {
        ReadFailed(refused.value);
      } else {
        var mem := new byte[batch * max](_ => 0);
        var starts := Carve();
        var i := 0;
        while i < |batches| && !trace.stopped
          invariant 0 <= i <= |batches|
          invariant Process(trace, Flatten(batches[i..])) == Process(old(trace).(delay := 0), Flatten(batches))
        {
          assert batches[i..][1..] == batches[i + 1..];
          ProcessConcat(trace, Events(batches[i]), Flatten(batches[i + 1..]));
          match batches[i] {
            case Many(ds) => DeliverBatch(mem, starts, ds, scribbles[i]);
            case Bad(why) => ReadFailed(why);
          }
          i := i + 1;
        }
      }
    }
  }

  /** Slots of length max, one after the other, within the first `length` bytes. */
  ghost predicate Slots(starts: seq<nat>, max: nat, length: nat) {
    && (forall i :: 0 <= i < |starts| ==> starts[i] + max <= length)
    && (forall i, j :: 0 <= i < j < |starts| ==> starts[i] + max <= starts[j])
  }

  ghost predicate Holds(mem: array<byte>, lo: nat, data: seq<byte>)
    reads mem
  {
    lo + |data| <= mem.Length && forall k :: 0 <= k < |data| ==> mem[lo + k] == data[k]
  }

  lemma SlotEnd(i: nat, max: nat)
    ensures i * max + max == (i + 1) * max
  {
  }

  // ---- What Process itself promises ----

  /** The datagram of an event, if it is delivered whole. */
  function WholeOf(e: Event): seq<Datagram> { if e.Got? && !e.d.truncated then [e.d] else [] }

  /** The datagrams among events that are delivered whole. */
  function Whole(events: seq<Event>): seq<Datagram> {
    if events == [] then [] else WholeOf(events[0]) + Whole(events[1..])
  }

  function CallsOf(ds: seq<Datagram>): seq<Call> {
    if ds == [] then [] else [Call(ds[0].data, Unmap(NetAddr(ds[0].from)), ds[0].port)] + CallsOf(ds[1..])
  }

  function BytesOf(ds: seq<Datagram>): nat { if ds == [] then 0 else |ds[0].data| + BytesOf(ds[1..]) }

  /** The event does not end the loop. */
  predicate GoesOn(e: Event) {
    e.Failed? ==> !e.why.netClosed && (e.why.kind.Truncated? || (e.why.kind.Transient? && !e.why.closedMeanwhile))
  }

  predicate Harmless(events: seq<Event>) { forall i :: 0 <= i < |events| ==> GoesOn(events[i]) }

  lemma {:induction false} EventGetsWhole(t: Trace, e: Event)
    requires GoesOn(e) && !t.stopped
    ensures var t' := AfterEvent(t, e);
            && !t'.stopped && t'.calls == t.calls + CallsOf(WholeOf(e))
            && t'.recvPackets == t.recvPackets + |WholeOf(e)|
            && t'.recvBytes == t.recvBytes + BytesOf(WholeOf(e))
  {
  }

  lemma {:induction false} WholeAdds(e: Event, rest: seq<Datagram>)
    ensures CallsOf(WholeOf(e) + rest) == CallsOf(WholeOf(e)) + CallsOf(rest)
    ensures BytesOf(WholeOf(e) + rest) == BytesOf(WholeOf(e)) + BytesOf(rest)
  {
    if WholeOf(e) == [] {
      assert WholeOf(e) + rest == rest;
    } else {
      assert (WholeOf(e) + rest)[1..] == rest;
    }
  }

  /** As long as nothing ends the loop, the handler gets exactly the whole datagrams, in order, ... */
  lemma {:induction false} HandlerGetsWhole(t: Trace, events: seq<Event>)
    requires Harmless(events) && !t.stopped
    ensures !Process(t, events).stopped && Process(t, events).calls == t.calls + CallsOf(Whole(events))
    decreases |events|
  {
    if events != [] {
      var (e, rest) := (events[0], events[1..]);
      EventGetsWhole(t, e);
      HandlerGetsWhole(AfterEvent(t, e), rest);
      WholeAdds(e, Whole(rest));
      Regroup(t.calls, CallsOf(WholeOf(e)), CallsOf(Whole(rest)));
    }
  }

  lemma Regroup(a: seq<Call>, b: seq<Call>, c: seq<Call>)
    ensures (a + b) + c == a + (b + c)
  {
  }

  /** ... and the counters count and weigh exactly those. */
  lemma {:induction false} CountersCountWhole(t: Trace, events: seq<Event>)
    requires Harmless(events) && !t.stopped
    ensures Process(t, events).recvPackets == t.recvPackets + |Whole(events)|
    ensures Process(t, events).recvBytes == t.recvBytes + BytesOf(Whole(events))
    decreases |events|
  {
    if events != [] {
      EventGetsWhole(t, events[0]);
      CountersCountWhole(AfterEvent(t, events[0]), events[1..]);
      WholeAdds(events[0], Whole(events[1..]));
    }
  }

  /** Every event is counted once: delivered, truncated, or an error; and the delays stay
      within the backoff's bounds. */
  lemma {:induction false} EveryEventCounts(t: Trace, events: seq<Event>)
    requires Harmless(events) && !t.stopped && t.delay <= MAX_DELAY
    ensures var t' := Process(t, events);
            && t'.recvPackets + t'.truncated + t'.recvErrors == t.recvPackets + t.truncated + t.recvErrors + |events|
            && t'.delay <= MAX_DELAY && !t'.stopped
    decreases |events|
  {
    if events != [] {
      EveryEventCounts(AfterEvent(t, events[0]), events[1..]);
    }
  }

  // What one event adds to the drop observations, to Truncated and to RecvErrors.
  function DropsIn(e: Event): seq<nat> { if e.Got? && e.d.drops.Some? then [e.d.drops.value] else [] }

  function CutIn(e: Event): nat {
    match e
    case Got(d) => if d.truncated then 1 else 0
    case Failed(why) => if !why.netClosed && why.kind.Truncated? then 1 else 0
  }

  function ErrorIn(e: Event): nat { if e.Failed? && !e.why.netClosed && !e.why.kind.Truncated? then 1 else 0 }

  function Drops(events: seq<Event>): seq<nat> {
    if events == [] then [] else DropsIn(events[0]) + Drops(events[1..])
  }

  function Cuts(events: seq<Event>): nat { if events == [] then 0 else CutIn(events[0]) + Cuts(events[1..]) }

  function Errors(events: seq<Event>): nat { if events == [] then 0 else ErrorIn(events[0]) + Errors(events[1..]) }

  lemma {:induction false} EventObserves(t: Trace, e: Event)
    ensures var t' := AfterEvent(t, e);
            && t'.observed == t.observed + DropsIn(e)
            && t'.truncated == t.truncated + CutIn(e) && t'.recvErrors == t.recvErrors + ErrorIn(e)
            && (t'.stopped <==> t.stopped || !GoesOn(e))
  {
  }

  /** As long as nothing ends the loop, every drop count that comes with a datagram is observed, of
      truncated ones too, in order; Truncated counts the truncated datagrams however they are
      reported, and RecvErrors the other failures. */
  lemma {:induction false} ObservesAndCounts(t: Trace, events: seq<Event>)
    requires Harmless(events) && !t.stopped
    ensures var t' := Process(t, events);
            && t'.observed == t.observed + Drops(events)
            && t'.truncated == t.truncated + Cuts(events) && t'.recvErrors == t.recvErrors + Errors(events)
    decreases |events|
  {
    if events != [] {
      var t1 := AfterEvent(t, events[0]);
      EventObserves(t, events[0]);
      ObservesAndCounts(t1, events[1..]);
      assert t1.observed + Drops(events[1..]) == t.observed + (DropsIn(events[0]) + Drops(events[1..]));
    }
  }

  /** An event that ends the loop is its last: nothing after it is handled. A closed socket ends it
      quietly; a fatal error closes the connection and is kept if it is the first and the
      connection was open; and a transient error does if Close comes while it is waited out. */
  lemma {:induction false} LoopEnds(t: Trace, before: seq<Event>, why: Failure, rest: seq<Event>)
    requires Harmless(before) && !t.stopped && !GoesOn(Failed(why))
    ensures var (mid, t') := (Process(t, before), Process(t, before + [Failed(why)] + rest));
            && t'.stopped && t'.calls == t.calls + CallsOf(Whole(before)) && t'.observed == t.observed + Drops(before)
            && t'.recvErrors == t.recvErrors + Errors(before) + (if why.netClosed then 0 else 1)
            && (why.netClosed ==> t'.fatal == mid.fatal && t'.closed == mid.closed)
            && (!why.netClosed ==> t'.closed)
            && (!why.netClosed && why.kind.Fatal? && mid.fatal.None? && !mid.closed ==> t'.fatal == Some(why.code))
            && (why.kind.Transient? ==> t'.fatal == mid.fatal)
  {
    HandlerGetsWhole(t, before);
    ObservesAndCounts(t, before);
    ProcessConcat(t, before, [Failed(why)] + rest);
    assert before + [Failed(why)] + rest == before + ([Failed(why)] + rest);
    var mid := Process(t, before);
    assert ([Failed(why)] + rest)[1..] == rest;
    StoppedStays(AfterEvent(mid, Failed(why)), rest);
  }

  /** Nothing but a fatal error or a Close closes the connection or is kept as its error. */
  lemma {:induction false} HarmlessLeavesOpen(t: Trace, events: seq<Event>)
    requires Harmless(events)
    ensures Process(t, events).closed == t.closed && Process(t, events).fatal == t.fatal
    decreases |events|
  {
    if !t.stopped && events != [] { HarmlessLeavesOpen(AfterEvent(t, events[0]), events[1..]); }
  }

  function Least(a: nat, b: nat): nat { if a < b then a else b }

  predicate IsWait(e: Event) { e.Failed? && !e.why.netClosed && e.why.kind.Transient? && !e.why.closedMeanwhile }

  /** The waits number i to i + n - 1: 5 ms, doubling, up to a second. */
  function Waits(i: nat, n: nat): seq<nat> {
    seq<nat>(n, k requires k >= 0 => Least(MIN_DELAY * Pow2(i + k), MAX_DELAY))
  }

  /** Transient errors in a row are waited out for 5 ms, 10 ms and so on, doubling up to a second. */
  lemma {:induction false} BackoffDoubles(t: Trace, events: seq<Event>, i: nat)
    requires !t.stopped && forall k :: 0 <= k < |events| ==> IsWait(events[k])
    requires t.delay == if i == 0 then 0 else Least(MIN_DELAY * Pow2(i - 1), MAX_DELAY)
    ensures Process(t, events).slept == t.slept + Waits(i, |events|)
    decreases |events|
  {
    if events != [] {
      var t1 := AfterEvent(t, events[0]);
      var d := Least(MIN_DELAY * Pow2(i), MAX_DELAY);
      assert i > 0 ==> Pow2(i) == 2 * Pow2(i - 1);
      assert t1.delay == d && t1.slept == t.slept + [d];
      BackoffDoubles(t1, events[1..], i + 1);
      assert Waits(i, |events|) == [d] + Waits(i + 1, |events| - 1);
    }
  }

  /** The first fatal error is the one kept, and none is recorded once the connection has
      been closed. */
  lemma {:induction false} FirstFatalKept(t: Trace, events: seq<Event>)
    ensures t.fatal.Some? || t.closed ==> Process(t, events).fatal == t.fatal
    decreases |events|
  {
    if !t.stopped && events != [] {
      FirstFatalKept(AfterEvent(t, events[0]), events[1..]);
    }
  }
}
