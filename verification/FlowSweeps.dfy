/** What one call of Sweep does, from its first step to its last, among all the others. */
module FlowSweeps {
  import opened Common
  import opened Ledgers
  import opened FlowProtocol
  import opened FlowTheorems
  import opened FlowCalls

  // ---- The reports a call makes ----

  /** Thread t reports a flow in step k. */
  predicate ReportsAt(run: seq<State>, t: Tid, k: nat) {
    k + 1 < |run| && At(run[k], t).Report? && At(run[k + 1], t) != At(run[k], t)
  }

  /** The flows thread t itself reports between states i and j, in order. */
  function MadeBy(run: seq<State>, t: Tid, i: nat, j: nat): seq<Id>
    requires i <= j < |run|
  {
    if i == j then []
    else MadeBy(run, t, i, j - 1) + if ReportsAt(run, t, j - 1) then [At(run[j - 1], t).id] else []
  }

  /** What thread t so reports is what the step appends to the reports. */
  lemma {:induction false} ReportStep(c: Config, run: seq<State>, t: Tid, k: nat)
    requires Run(c, run) && ReportsAt(run, t, k)
    ensures run[k + 1].sh.reports == run[k].sh.reports + [At(run[k], t).id]
  {
    assert StepAt(c, run, k);
    var (s, s') := (run[k], run[k + 1]);
    var u :| Steps(c, s, u, s');
    if u != t { OthersStay(c, s, t, u, s'); }
  }

  /** A flow that thread t has yet to report is reported by t and nobody else. */
  lemma {:induction false} OnlyItsReporter(c: Config, run: seq<State>, k: nat, t: Tid, u: Tid, id: Id)
    requires Run(c, run) && k + 1 < |run| && Steps(c, run[k], u, run[k + 1])
    requires id in Owes(At(run[k], t)) && id in run[k + 1].sh.reports
    ensures u == t && At(run[k], t).Report? && At(run[k], t).id == id
  {
    NotYetReported(c, run, k, t, id);
    HistoryStep(c, run[k].sh, At(run[k], u), run[k + 1].sh, At(run[k + 1], u));
    assert id in Owes(At(run[k], u)) by { Settles(c, run, k, u); }
    OneReporter(c, run, k, t, u, id);
  }

  lemma {:induction false} NotYetReported(c: Config, run: seq<State>, k: nat, t: Tid, id: Id)
    requires Run(c, run) && k < |run| && id in Owes(At(run[k], t))
    ensures id !in run[k].sh.reports
  {
    Reachable(c, run, k);
    var b := Book(c, run[k]);
    assert ListOf(b, t) == Owes(At(run[k], t));
    assert On(b, t, id);
  }

  /** A step that reports is at a report, only the scan of a Sweep sweeps, and only a Sweep
      moves the clock, to the time it was given. */
  predicate HistoryEffect(sh: Shared, pc: Pc, sh': Shared) {
    && sh'.reports == sh.reports + (if pc.Report? then [pc.id] else [])
    && (KindOf(pc) != Scanning ==> sh'.swept == sh.swept)
    && (sh'.clock == sh.clock || (pc.AdvanceCas? && sh'.clock == pc.now))
  }

  lemma {:induction false} OpenHistory(c: Config, sh: Shared, pc: Pc, sh': Shared, pc': Pc)
    requires |sh.shards| == Shards(c) && NextOpen(c, sh, pc, sh', pc')
    ensures HistoryEffect(sh, pc, sh')
  {
  }

  lemma {:induction false} RemoveHistory(c: Config, sh: Shared, pc: Pc, sh': Shared, pc': Pc)
    requires |sh.shards| == Shards(c) && NextRemove(c, sh, pc, sh', pc')
    ensures HistoryEffect(sh, pc, sh')
  {
  }

  lemma {:induction false} CloseHistory(sh: Shared, pc: Pc, sh': Shared, pc': Pc)
    requires NextClose(sh, pc, sh', pc')
    ensures HistoryEffect(sh, pc, sh')
  {
  }

  lemma {:induction false} ScanHistory(sh: Shared, pc: Pc, sh': Shared, pc': Pc)
    requires NextScan(sh, pc, sh', pc')
    ensures HistoryEffect(sh, pc, sh')
  {
  }

  lemma {:induction false} OtherHistory(c: Config, sh: Shared, pc: Pc, sh': Shared, pc': Pc)
    requires match KindOf(pc)
             case Calling => Call(sh, sh', pc')
             case Touching => NextTouch(sh, pc, sh', pc')
             case Sweeping => NextSweep(c, sh, pc, sh', pc')
             case Emptying => NextTable(sh, pc, sh', pc')
             case _ => false
    ensures HistoryEffect(sh, pc, sh')
  {
  }

  lemma {:induction false} HistoryStep(c: Config, sh: Shared, pc: Pc, sh': Shared, pc': Pc)
    requires Next(c, sh, pc, sh', pc')
    ensures HistoryEffect(sh, pc, sh')
  {
    match KindOf(pc)
    case Opening => OpenHistory(c, sh, pc, sh', pc');
    case Removing => RemoveHistory(c, sh, pc, sh', pc');
    case Ending => CloseHistory(sh, pc, sh', pc');
    case Scanning => ScanHistory(sh, pc, sh', pc');
    case _ => OtherHistory(c, sh, pc, sh', pc');
  }

  /** Inside a call of Sweep. */
  predicate InSweep(pc: Pc) {
    || pc.AdvanceLoad? || pc.AdvanceCas? || pc.SweepShard? || pc.SweepScan? || pc.SweepCas? || pc.SweepReport?
    || ((pc.CloseLoad? || pc.CloseCas? || pc.CloseFreeze? || pc.Report?) && pc.ret.FromSweep?)
  }

  /** The victims a call has dealt with. */
  function Dealt(pc: Pc): seq<Id> {
    match pc
    case SweepReport(victims, n) => if n <= |victims| then victims[..n] else victims
    case CloseLoad(_, FromSweep(victims, n)) => if n <= |victims| then victims[..n] else victims
    case CloseCas(_, _, FromSweep(victims, n)) => if n <= |victims| then victims[..n] else victims
    case CloseFreeze(_, FromSweep(victims, n)) => if n <= |victims| then victims[..n] else victims
    case Report(_, FromSweep(victims, n)) => if n <= |victims| then victims[..n] else victims
    case _ => []
  }

  /** A step within the call deals with a victim exactly by reporting it. */
  predicate Deals(pc: Pc, pc': Pc) {
    InSweep(pc') && Dealt(pc') == Dealt(pc) + if pc.Report? then [pc.id] else []
  }

  lemma {:induction false} CloseDeals(sh: Shared, pc: Pc, sh': Shared, pc': Pc)
    requires NextClose(sh, pc, sh', pc') && InSweep(pc) && Honest(sh, pc)
    ensures Deals(pc, pc')
  {
  }

  lemma {:induction false} SweepDeals(c: Config, sh: Shared, pc: Pc, sh': Shared, pc': Pc)
    requires NextSweep(c, sh, pc, sh', pc') && !pc'.Idle? && Honest(sh, pc)
    ensures Deals(pc, pc')
  {
  }

  lemma {:induction false} ScanDeals(sh: Shared, pc: Pc, sh': Shared, pc': Pc)
    requires NextScan(sh, pc, sh', pc')
    ensures Deals(pc, pc')
  {
    if pc.SweepScan? && pc.todo != {} {
      var k :| k in pc.todo && Looks(sh, pc.cutoff, pc.i, pc.todo, k, pc.victims, sh', pc');
      LooksDeals(sh, pc, k, sh', pc');
    }
  }

  lemma {:induction false} LooksDeals(sh: Shared, pc: Pc, k: Key, sh': Shared, pc': Pc)
    requires pc.SweepScan? && pc.i < |sh.shards| && Looks(sh, pc.cutoff, pc.i, pc.todo, k, pc.victims, sh', pc')
    ensures Deals(pc, pc')
  {
  }

  lemma {:induction false} StepDeals(c: Config, sh: Shared, pc: Pc, sh': Shared, pc': Pc)
    requires Next(c, sh, pc, sh', pc') && InSweep(pc) && !pc'.Idle? && Honest(sh, pc)
    ensures Deals(pc, pc') && (pc.Report? ==> pc' != pc)
  {
    match KindOf(pc)
    case Ending => CloseDeals(sh, pc, sh', pc');
    case Scanning => ScanDeals(sh, pc, sh', pc');
    case _ => SweepDeals(c, sh, pc, sh', pc');
  }

  /** Any step, of this thread or another, within the call. */
  lemma {:induction false} CallMoves(c: Config, s: State, t: Tid, u: Tid, s': State)
    requires Steps(c, s, u, s') && InSweep(At(s, t)) && Honest(s.sh, At(s, t)) && !At(s', t).Idle?
    ensures var (pc, pc') := (At(s, t), At(s', t));
            InSweep(pc') && Dealt(pc') == Dealt(pc) + if pc.Report? && pc' != pc then [pc.id] else []
  {
    if u == t {
      StepDeals(c, s.sh, At(s, t), s'.sh, At(s', t));
    } else {
      OthersStay(c, s, t, u, s');
    }
  }

  /** The thread is in the call from state i to state j. */
  ghost predicate OneCall(run: seq<State>, t: Tid, i: nat, j: nat) {
    Busy(run, t, i, j) && At(run[i], t).AdvanceLoad?
  }

  /** From its first step on, the reports a call of Sweep has made are the victims it has dealt
      with, in order, and no others. */
  lemma {:induction false} ReportsAsItGoes(c: Config, run: seq<State>, t: Tid, i: nat, j: nat)
    requires Run(c, run) && OneCall(run, t, i, j)
    ensures InSweep(At(run[j], t)) && MadeBy(run, t, i, j) == Dealt(At(run[j], t))
    decreases j
  {
    if i < j {
      ReportsAsItGoes(c, run, t, i, j - 1);
      AllHonest(c, run, j - 1);
      assert StepAt(c, run, j - 1);
      var (s, s') := (run[j - 1], run[j]);
      var u :| Steps(c, s, u, s');
      assert Honest(s.sh, At(s, t));
      CallMoves(c, s, t, u, s');
    }
  }

  /** A call of Sweep that is about to return has itself reported exactly its victims, each once
      and in order, so the count it returns, their number, is the number of its reports. */
  lemma {:induction false} SweepCountsItsReports(c: Config, run: seq<State>, t: Tid, i: nat, j: nat)
    requires Run(c, run) && OneCall(run, t, i, j)
    requires At(run[j], t).SweepReport? && At(run[j], t).n >= |At(run[j], t).victims|
    ensures MadeBy(run, t, i, j) == At(run[j], t).victims && At(run[j], t).n == |At(run[j], t).victims|
    ensures NoDup(MadeBy(run, t, i, j))
  {
    ReportsAsItGoes(c, run, t, i, j);
    AllHonest(c, run, j);
    assert Honest(run[j].sh, At(run[j], t));
  }

  // ---- The flows a call must take ----

  /** A Sweep with this cutoff has key k, whose flow's word is w, still before it. */
  predicate Ahead(c: Config, pc: Pc, cutoff: int, k: Key, w: Word) {
    var n := ShardOf(c, k);
    match pc
    case AdvanceLoad(now) => now - c.idle == cutoff
    case AdvanceCas(now, _) => now - c.idle == cutoff
    case SweepShard(d, i, _) => d == cutoff && i <= n
    case SweepScan(d, i, todo, _) => d == cutoff && (i < n || (i == n && k in todo))
    case SweepCas(d, i, todo, j, v, _) => d == cutoff && (i < n || (i == n && (k in todo || (j == k && v == w))))
    case _ => false
  }

  /** The table maps key k to flow id, whose word is w, idle since before the cutoff. */
  predicate Idles(c: Config, sh: Shared, cutoff: int, k: Key, id: Id, w: Word) {
    Maps(c, sh, k, id) && id in sh.flows && sh.flows[id].word == w && LastSeen(w) < cutoff
  }

  lemma {:induction false} LooksNearer(c: Config, sh: Shared, pc: Pc, j: Key, sh': Shared, pc': Pc, k: Key, id: Id,
                                       w: Word)
    requires pc.SweepScan? && j in pc.todo && pc.i < |sh.shards|
    requires Looks(sh, pc.cutoff, pc.i, pc.todo, j, pc.victims, sh', pc') && Ahead(c, pc, pc.cutoff, k, w)
    requires Idles(c, sh, pc.cutoff, k, id, w) && Maps(c, sh', k, id)
    ensures Ahead(c, pc', pc.cutoff, k, w)
  {
  }

  lemma {:induction false} CasNearer(c: Config, sh: Shared, pc: Pc, sh': Shared, pc': Pc, k: Key, id: Id, w: Word)
    requires pc.SweepCas? && NextScan(sh, pc, sh', pc') && Ahead(c, pc, pc.cutoff, k, w)
    requires Idles(c, sh, pc.cutoff, k, id, w) && Maps(c, sh', k, id)
    ensures Ahead(c, pc', pc.cutoff, k, w)
  {
  }

  lemma {:induction false} ShardNearer(c: Config, sh: Shared, pc: Pc, sh': Shared, pc': Pc, k: Key, w: Word)
    requires pc.SweepShard? || (pc.SweepScan? && pc.todo == {})
    requires |sh.shards| == Shards(c) && NextScan(sh, pc, sh', pc') && Ahead(c, pc, pc.cutoff, k, w)
    requires k in sh.shards[ShardOf(c, k)]
    ensures Ahead(c, pc', pc.cutoff, k, w)
  {
  }

  lemma {:induction false} ScanNearer(c: Config, sh: Shared, pc: Pc, sh': Shared, pc': Pc, k: Key, id: Id, w: Word)
    requires |sh.shards| == Shards(c) && NextScan(sh, pc, sh', pc') && Ahead(c, pc, pc.cutoff, k, w)
    requires Idles(c, sh, pc.cutoff, k, id, w) && Maps(c, sh', k, id)
    ensures Ahead(c, pc', pc.cutoff, k, w)
  {
    if pc.SweepCas? {
      CasNearer(c, sh, pc, sh', pc', k, id, w);
    } else if pc.SweepScan? && pc.todo != {} {
      var j :| j in pc.todo && Looks(sh, pc.cutoff, pc.i, pc.todo, j, pc.victims, sh', pc');
      LooksNearer(c, sh, pc, j, sh', pc', k, id, w);
    } else {
      ShardNearer(c, sh, pc, sh', pc', k, w);
    }
  }

  lemma {:induction false} ClockNearer(c: Config, sh: Shared, pc: Pc, sh': Shared, pc': Pc, cutoff: int, k: Key,
                                       w: Word)
    requires NextSweep(c, sh, pc, sh', pc') && Ahead(c, pc, cutoff, k, w) && !pc'.Idle?
    ensures Ahead(c, pc', cutoff, k, w)
  {
  }

  lemma {:induction false} ComesNearer(c: Config, sh: Shared, pc: Pc, sh': Shared, pc': Pc, cutoff: int, k: Key, id: Id,
                                       w: Word)
    requires Next(c, sh, pc, sh', pc') && Ahead(c, pc, cutoff, k, w) && !pc'.Idle?
    requires Idles(c, sh, cutoff, k, id, w) && Maps(c, sh', k, id)
    ensures Ahead(c, pc', cutoff, k, w)
  {
    if KindOf(pc) == Scanning {
      ScanNearer(c, sh, pc, sh', pc', k, id, w);
    } else {
      ClockNearer(c, sh, pc, sh', pc', cutoff, k, w);
    }
  }

  /** As long as the flow stays in the table, idle and unchanged, the call has it before it. */
  lemma {:induction false} StaysAhead(c: Config, run: seq<State>, t: Tid, i: nat, j: nat, k: Key, id: Id, w: Word)
    requires Run(c, run) && OneCall(run, t, i, j)
    requires forall m :: i <= m <= j ==> Idles(c, run[m].sh, At(run[i], t).now - c.idle, k, id, w)
    ensures Ahead(c, At(run[j], t), At(run[i], t).now - c.idle, k, w)
    decreases j
  {
    if i < j {
      StaysAhead(c, run, t, i, j - 1, k, id, w);
      OwnOrStays(c, run, j - 1, t);
      if At(run[j], t) != At(run[j - 1], t) {
        var (s, s', cutoff) := (run[j - 1], run[j], At(run[i], t).now - c.idle);
        ComesNearer(c, s.sh, At(s, t), s'.sh, At(s', t), cutoff, k, id, w);
      }
    }
  }

  /** In state m the flow has been seen since the cutoff, or its word is not what it was in state i. */
  predicate Stirs(run: seq<State>, i: nat, m: nat, id: Id, cutoff: int)
    requires i < |run| && m < |run| && id in run[i].sh.flows && id in run[m].sh.flows
  {
    LastSeen(run[m].sh.flows[id].word) >= cutoff || run[m].sh.flows[id].word != run[i].sh.flows[id].word
  }

  /** A flow that is in the table throughout a call of Sweep(now), until it starts to report, has
      in some state of the call been seen since now minus IdleTimeout, or been touched or frozen
      during the call. */
  lemma {:induction false} KeptIsNotIdle(c: Config, run: seq<State>, t: Tid, i: nat, j: nat, id: Id) returns (m: nat)
    requires Run(c, run) && OneCall(run, t, i, j) && At(run[j], t).SweepReport?
    requires forall k :: i <= k <= j ==> id in Present(c, run[k].sh)
    ensures i <= m <= j && id in run[i].sh.flows && id in run[m].sh.flows
    ensures Stirs(run, i, m, id, At(run[i], t).now - c.idle)
  {
    var (cutoff, f) := (At(run[i], t).now - c.idle, run[i].sh.flows[id]);
    if k :| i <= k <= j && Stirs(run, i, k, id, cutoff) {
      m := k;
    } else {
      forall k | i <= k <= j ensures Idles(c, run[k].sh, cutoff, f.key, id, f.word) {
        NeverBack(c, run, i, k);
        assert !Stirs(run, i, k, id, cutoff);
      }
      StaysAhead(c, run, t, i, j, f.key, id, f.word);
      assert false;
    }
  }

  /** So an idle flow that nobody touches or freezes meanwhile is out of the table when Sweep
      starts to report. */
  lemma {:induction false} IdleIsGone(c: Config, run: seq<State>, t: Tid, i: nat, j: nat, id: Id)
    requires Run(c, run) && OneCall(run, t, i, j) && At(run[j], t).SweepReport?
    requires id in run[i].sh.flows && LastSeen(run[i].sh.flows[id].word) < At(run[i], t).now - c.idle
    requires id in run[j].sh.flows && run[j].sh.flows[id].word == run[i].sh.flows[id].word
    ensures id !in Present(c, run[j].sh)
  {
    if id in Present(c, run[j].sh) {
      forall k | i <= k <= j ensures id in Present(c, run[k].sh) {
        NeverBack(c, run, i, k);
        if id !in Present(c, run[k].sh) { StaysGone(c, run, k, j, id); }
      }
      var m := KeptIsNotIdle(c, run, t, i, j, id);
      NeverBack(c, run, i, m);
      NeverBack(c, run, m, j);
      assert false;
    }
  }

  // ---- The table clock ----

  /** Sweep(now) is still advancing the clock, or the clock has reached now. */
  predicate Advances(sh: Shared, pc: Pc, now: int) {
    match pc
    case AdvanceLoad(n) => n == now
    case AdvanceCas(n, _) => n == now
    case _ => sh.clock >= now
  }

  lemma {:induction false} AdvanceGoes(c: Config, sh: Shared, pc: Pc, sh': Shared, pc': Pc, now: int)
    requires NextSweep(c, sh, pc, sh', pc') && Advances(sh, pc, now)
    ensures Advances(sh', pc', now)
  {
  }

  predicate Advancing(pc: Pc) { pc.AdvanceLoad? || pc.AdvanceCas? }

  lemma {:induction false} AdvancedBefore(c: Config, sh: Shared, pc: Pc, sh': Shared, pc': Pc)
    requires Next(c, sh, pc, sh', pc') && InSweep(pc) && !Advancing(pc)
    ensures !Advancing(pc')
  {
  }

  /** From the step in which Sweep(now) is done with advance, the table clock is at least now. */
  lemma {:induction false} SweepAdvances(c: Config, run: seq<State>, t: Tid, i: nat, j: nat)
    requires Run(c, run) && OneCall(run, t, i, j) && j + 1 < |run|
    ensures Advances(run[j + 1].sh, At(run[j + 1], t), At(run[i], t).now)
    decreases j
  {
    if i < j { SweepAdvances(c, run, t, i, j - 1); }
    var (pc, pc', now) := (At(run[j], t), At(run[j + 1], t), At(run[i], t).now);
    OwnOrStays(c, run, j, t);
    NeverBack(c, run, j, j + 1);
    if pc' != pc {
      if Advancing(pc) {
        AdvanceGoes(c, run[j].sh, pc, run[j + 1].sh, pc', now);
      } else {
        ReportsAsItGoes(c, run, t, i, j);
        AdvancedBefore(c, run[j].sh, pc, run[j + 1].sh, pc');
      }
    }
  }

  /** A call of Sweep returns after its scan and reports, or, exactly if idle eviction is disabled,
      as soon as it has advanced the clock. */
  lemma {:induction false} SweepReturns(c: Config, run: seq<State>, t: Tid, i: nat, j: nat)
    requires Run(c, run) && Returns(run, t, i, j) && At(run[i], t).AdvanceLoad?
    ensures var pc := At(run[j], t);
            if c.idle > 0 then pc.SweepReport? && pc.n == |pc.victims| else Advancing(pc)
  {
    ReportsAsItGoes(c, run, t, i, j);
    ReturnIsOwn(c, run, t, i, j);
    ScansAsConfigured(c, run, t, i, j);
    AllHonest(c, run, j);
    assert Honest(run[j].sh, At(run[j], t));
    SweepLast(c, run[j].sh, At(run[j], t), run[j + 1].sh, At(run[j + 1], t));
  }

  lemma {:induction false} SweepLast(c: Config, sh: Shared, pc: Pc, sh': Shared, pc': Pc)
    requires Next(c, sh, pc, sh', pc') && InSweep(pc) && pc'.Idle? && Honest(sh, pc)
    ensures if Advancing(pc) then c.idle <= 0 else pc.SweepReport? && pc.n == |pc.victims|
  {
    if KindOf(pc) == Ending { CloseDeals(sh, pc, sh', pc'); }
  }

  /** Past advance, idle eviction is on. */
  lemma {:induction false} ScansAsConfigured(c: Config, run: seq<State>, t: Tid, i: nat, j: nat)
    requires Run(c, run) && OneCall(run, t, i, j)
    ensures !Advancing(At(run[j], t)) ==> c.idle > 0
    decreases j
  {
    if i < j {
      ScansAsConfigured(c, run, t, i, j - 1);
      OwnOrStays(c, run, j - 1, t);
    }
  }

  /** A call of Sweep(now) has begun by state i. */
  ghost predicate SweepCalled(run: seq<State>, i: nat, now: int) {
    exists k, t :: 0 <= k <= i && k < |run| && At(run[k], t) == AdvanceLoad(now)
  }

  lemma {:induction false} CasWasCalled(c: Config, run: seq<State>, i: nat, t: Tid)
    requires Run(c, run) && i < |run| && At(run[i], t).AdvanceCas?
    ensures SweepCalled(run, i, At(run[i], t).now)
  {
    if i > 0 {
      OwnOrStays(c, run, i - 1, t);
      if At(run[i - 1], t) == At(run[i], t) {
        CasWasCalled(c, run, i - 1, t);
      } else {
        CasAfterLoad(c, run[i - 1].sh, At(run[i - 1], t), run[i].sh, At(run[i], t));
        assert At(run[i - 1], t) == AdvanceLoad(At(run[i], t).now);
      }
    }
  }

  lemma {:induction false} CasAfterLoad(c: Config, sh: Shared, pc: Pc, sh': Shared, pc': Pc)
    requires Next(c, sh, pc, sh', pc') && pc'.AdvanceCas?
    ensures pc == AdvanceLoad(pc'.now)
  {
  }

  /** The table clock is what it started from or the time some Sweep was called with. */
  lemma {:induction false} ClockIsSwept(c: Config, run: seq<State>, i: nat)
    requires Run(c, run) && i < |run|
    ensures run[i].sh.clock == run[0].sh.clock || SweepCalled(run, i, run[i].sh.clock)
  {
    if i > 0 {
      ClockIsSwept(c, run, i - 1);
      assert StepAt(c, run, i - 1);
      var (s, s') := (run[i - 1], run[i]);
      var t :| Steps(c, s, t, s');
      HistoryStep(c, s.sh, At(s, t), s'.sh, At(s', t));
      if s'.sh.clock != s.sh.clock { CasWasCalled(c, run, i - 1, t); }
    }
  }

  // ---- A flow that Sweep has taken out ----

  ghost predicate SweptGone(c: Config, sh: Shared) {
    forall id :: id in sh.swept ==> id in sh.flows && id !in Present(c, sh)
  }

  /** A step sweeps only what it takes out. */
  lemma {:induction false} SweepsWhatLeaves(c: Config, sh: Shared, pc: Pc, sh': Shared, pc': Pc, id: Id)
    requires Typed(c, sh) && Local(c, sh, pc) && NextScan(sh, pc, sh', pc') && id in sh'.swept && id !in sh.swept
    ensures id in sh'.flows && id !in Present(c, sh')
  {
    if pc.SweepScan? && pc.todo != {} {
      var k :| k in pc.todo && Looks(sh, pc.cutoff, pc.i, pc.todo, k, pc.victims, sh', pc');
      DeleteTakes(c, sh, pc.i, k, sh.shards[pc.i][k], sh');
    } else if pc.SweepCas? {
      DeleteTakes(c, sh, pc.i, pc.k, sh.shards[pc.i][pc.k], sh');
    }
  }

  lemma {:induction false} NewlySwept(c: Config, sh: Shared, pc: Pc, sh': Shared, pc': Pc, id: Id)
    requires Typed(c, sh) && Local(c, sh, pc) && Next(c, sh, pc, sh', pc') && id in sh'.swept && id !in sh.swept
    ensures id in sh'.flows && id !in Present(c, sh')
  {
    HistoryStep(c, sh, pc, sh', pc');
    SweepsWhatLeaves(c, sh, pc, sh', pc', id);
  }

  lemma {:induction false} KeepsSweptGone(c: Config, s: State, t: Tid, s': State)
    requires Locals(c, s) && Steps(c, s, t, s') && SweptGone(c, s.sh)
    ensures SweptGone(c, s'.sh)
  {
    LeaveStep(c, s.sh, At(s, t), s'.sh, At(s', t));
    BookMoves(c, s, t, s');
    MovesTakeIn(Book(c, s), t, Book(c, s'));
    forall id | id in s'.sh.swept ensures id in s'.sh.flows && id !in Present(c, s'.sh) {
      if id !in s.sh.swept { NewlySwept(c, s.sh, At(s, t), s'.sh, At(s', t), id); }
    }
  }

  lemma {:induction false} SweptStaysGone(c: Config, run: seq<State>, i: nat)
    requires Run(c, run) && i < |run|
    ensures SweptGone(c, run[i].sh)
  {
    if i > 0 {
      SweptStaysGone(c, run, i - 1);
      assert StepAt(c, run, i - 1);
      var (s, s') := (run[i - 1], run[i]);
      var t :| Steps(c, s, t, s');
      assert Locals(c, s) by { Reachable(c, run, i - 1); }
      KeepsSweptGone(c, s, t, s');
    }
  }

  /** A flow that Sweep has evicted is Closed, unless some thread still has it to report; and
      frozen in any case. */
  lemma {:induction false} EvictedIsClosed(c: Config, run: seq<State>, i: nat, id: Id)
    requires Run(c, run) && i < |run| && id in run[i].sh.swept
    ensures id in run[i].sh.flows && run[i].sh.flows[id].word.frozen && !InTable(c, run[i].sh, id)
    ensures run[i].sh.flows[id].life.Closed? || exists t :: id in Owes(At(run[i], t))
  {
    SweptStaysGone(c, run, i);
    ExactlyOnce(c, run, i, id);
    Reachable(c, run, i);
  }

  const TWO_TICKS := Config(0, 2, _ => 0)

  /** Thread 0 opens flow 1 for key 7 at time 10; thread 1 sweeps at time 20. */
  function Evict(i: nat): State {
    var inside := Late(5).sh;
    var later := inside.(clock := 20);
    var locked := later.(held := {0});
    var evicted := Delete(SetWord(locked, 1, Freeze(Word(5, false))), 0, 7).(swept := locked.swept[1 := 18]);
    match i
    case 6 => State(inside, map[0 := Idle, 1 := AdvanceLoad(20)])
    case 7 => State(inside, map[0 := Idle, 1 := AdvanceCas(20, 10)])
    case 8 => State(later, map[0 := Idle, 1 := SweepShard(18, 0, [])])
    case 9 => State(locked, map[0 := Idle, 1 := SweepScan(18, 0, {7}, [])])
    case 10 => State(locked, map[0 := Idle, 1 := SweepCas(18, 0, {}, 7, Word(5, false), [])])
    case 11 => State(evicted, map[0 := Idle, 1 := SweepScan(18, 0, {}, [1])])
    case _ => Late(i)
  }

  lemma EvictOpens(i: nat)
    requires i < 5
    ensures Steps(TWO_TICKS, Evict(i), 0, Evict(i + 1))
  {
    assert Shards(TWO_TICKS) == 1 && ShardOf(TWO_TICKS, 7) == 0;
  }

  lemma EvictStarts(i: nat)
    requires 5 <= i < 8
    ensures Steps(TWO_TICKS, Evict(i), 1, Evict(i + 1))
  {
    assert Shards(TWO_TICKS) == 1;
  }

  lemma EvictScans()
    ensures Steps(TWO_TICKS, Evict(8), 1, Evict(9))
  {
    assert Shards(TWO_TICKS) == 1;
    assert (map[7 := 1]).Keys == {7};
  }

  lemma EvictLooks()
    ensures Steps(TWO_TICKS, Evict(9), 1, Evict(10))
  {
    var (s, s') := (Evict(9), Evict(10));
    assert Shards(TWO_TICKS) == 1;
    assert {7} - {7} == {};
    assert Looks(s.sh, 18, 0, {7}, 7, [], s'.sh, At(s', 1));
  }

  /** The winning CAS of `expire`, on a flow alone in shard 0. */
  lemma CasEvicts(c: Config, s: State, s': State, v: Word)
    requires |s.sh.shards| == Shards(c) == 1 && s.sh.shards[0] == map[7 := 1] && 1 in s.sh.flows
    requires s.sh.flows[1].word == v && At(s, 1) == SweepCas(18, 0, {}, 7, v, [])
    requires s'.sh == Delete(SetWord(s.sh, 1, Freeze(v)), 0, 7).(swept := s.sh.swept[1 := 18])
    requires s'.pcs == s.pcs[1 := SweepScan(18, 0, {}, [1])]
    ensures Steps(c, s, 1, s')
  {
    assert [] + [1] == [1];
    assert NextScan(s.sh, At(s, 1), s'.sh, At(s', 1));
  }

  lemma EvictTakes()
    ensures Steps(TWO_TICKS, Evict(10), 1, Evict(11))
  {
    var (s, s') := (Evict(10), Evict(11));
    assert s'.pcs == s.pcs[1 := SweepScan(18, 0, {}, [1])];
    CasEvicts(TWO_TICKS, s, s', Word(5, false));
  }

  lemma EvictStep(i: nat)
    requires i < 11
    ensures Steps(TWO_TICKS, Evict(i), if i < 5 then 0 else 1, Evict(i + 1))
  {
    if i < 5 { EvictOpens(i); } else if i < 8 { EvictStarts(i); }
    else if i == 8 { EvictScans(); } else if i == 9 { EvictLooks(); } else { EvictTakes(); }
  }

  /** An evicted flow may still be Open: the promise of GetAndTouch that it no longer is holds
      only once Sweep has gone on to close it. */
  lemma EvictedStillOpen() returns (run: seq<State>)
    ensures Run(TWO_TICKS, run) && |run| == 12
    ensures var sh := run[11].sh;
            1 in sh.swept && 1 in sh.flows && sh.flows[1].life.Open? && 1 !in Present(TWO_TICKS, sh)
  {
    run := seq(12, i requires 0 <= i < 12 => Evict(i));
    assert Shards(TWO_TICKS) == 1;
    assert Start(TWO_TICKS, run[0]);
    forall i: nat | i + 1 < |run| ensures StepAt(TWO_TICKS, run, i) {
      EvictStep(i);
      var (s, s') := (run[i], run[i + 1]);
      assert Steps(TWO_TICKS, s, if i < 5 then 0 else 1, s');
    }
  }
}
