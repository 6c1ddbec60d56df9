/** What one whole call of an operation on a flow or on the table has done when it returns,
    whatever the other threads did meanwhile. */
module FlowCalls {
  import opened Common
  import opened Ledgers
  import opened FlowProtocol
  import opened FlowTheorems

  // ---- A call ----

  /** Thread t is inside an operation from state i to state j. */
  ghost predicate Busy(run: seq<State>, t: Tid, i: nat, j: nat) {
    i <= j < |run| && forall k :: i <= k <= j ==> !At(run[k], t).Idle?
  }

  /** ... and returns in the step after state j. */
  ghost predicate Returns(run: seq<State>, t: Tid, i: nat, j: nat) {
    Busy(run, t, i, j) && j + 1 < |run| && At(run[j + 1], t).Idle?
  }

  ghost predicate OwnStep(c: Config, s: State, t: Tid, s': State) {
    Next(c, s.sh, At(s, t), s'.sh, At(s', t))
  }

  lemma {:induction false} OthersStay(c: Config, s: State, t: Tid, u: Tid, s': State)
    requires Steps(c, s, u, s') && u != t
    ensures At(s', t) == At(s, t)
  {
  }

  /** In every step thread t moves or stays where it is. */
  lemma {:induction false} OwnOrStays(c: Config, run: seq<State>, k: nat, t: Tid)
    requires Run(c, run) && k + 1 < |run|
    ensures OwnStep(c, run[k], t, run[k + 1]) || At(run[k + 1], t) == At(run[k], t)
  {
    assert StepAt(c, run, k);
    var (s, s') := (run[k], run[k + 1]);
    var u :| Steps(c, s, u, s');
    if u != t { OthersStay(c, s, t, u, s'); }
  }

  lemma {:induction false} ReturnIsOwn(c: Config, run: seq<State>, t: Tid, i: nat, j: nat)
    requires Run(c, run) && Returns(run, t, i, j)
    ensures OwnStep(c, run[j], t, run[j + 1])
  {
    OwnOrStays(c, run, j, t);
  }

  // ---- Touch ----

  /** A clock reading as a flow records it. */
  function Even(clock: int): int { 2 * (clock / 2) }

  predicate InTouch(pc: Pc, id: Id, since: int) {
    match pc
    case TouchClock(d) => d == id
    case TouchLoad(d, ticks) => d == id && since <= 2 * ticks
    case TouchCas(d, ticks, _) => d == id && since <= 2 * ticks
    case _ => false
  }

  lemma {:induction false} TouchGoes(c: Config, sh: Shared, pc: Pc, sh': Shared, pc': Pc, id: Id, since: int)
    requires Next(c, sh, pc, sh', pc') && InTouch(pc, id, since) && since <= Even(sh.clock) && !pc'.Idle?
    ensures InTouch(pc', id, since)
  {
  }

  lemma {:induction false} TouchUnderWay(c: Config, run: seq<State>, t: Tid, i: nat, j: nat, id: Id)
    requires Run(c, run) && Busy(run, t, i, j) && At(run[i], t) == TouchClock(id)
    ensures InTouch(At(run[j], t), id, Even(run[i].sh.clock))
    decreases j
  {
    if i < j {
      TouchUnderWay(c, run, t, i, j - 1, id);
      NeverBack(c, run, i, j - 1);
      OwnOrStays(c, run, j - 1, t);
      if At(run[j], t) != At(run[j - 1], t) {
        TouchGoes(c, run[j - 1].sh, At(run[j - 1], t), run[j].sh, At(run[j], t), id, Even(run[i].sh.clock));
      }
    }
  }

  /** When a Touch returns, the flow's LastSeen is at least the table clock as it was when
      Touch was called, or Touch has found the flow frozen. */
  lemma {:induction false} TouchRecords(c: Config, run: seq<State>, t: Tid, i: nat, j: nat, id: Id)
    requires Run(c, run) && Returns(run, t, i, j) && At(run[i], t) == TouchClock(id)
    ensures id in run[j].sh.flows && id in run[j + 1].sh.flows
    ensures run[j].sh.flows[id].word.frozen || LastSeen(run[j + 1].sh.flows[id].word) >= Even(run[i].sh.clock)
  {
    TouchUnderWay(c, run, t, i, j, id);
    ReturnIsOwn(c, run, t, i, j);
    var (s, s') := (run[j], run[j + 1]);
    assert !At(s, t).TouchClock?;
    TouchLands(c, s.sh, At(s, t), s'.sh, At(s', t));
  }

  /** So a Touch that was called at or after a cutoff, and returns on an unfrozen flow, keeps
      the flow from every Sweep with that cutoff or an earlier one. */
  lemma {:induction false} CalledTouchSaves(c: Config, run: seq<State>, t: Tid, i: nat, j: nat, id: Id, cutoff: int,
                                            m: nat)
    requires Run(c, run) && Returns(run, t, i, j) && At(run[i], t) == TouchClock(id) && j < m < |run|
    requires Even(run[i].sh.clock) >= cutoff && id in run[j].sh.flows && !run[j].sh.flows[id].word.frozen
    ensures id in run[m].sh.swept ==> run[m].sh.swept[id] > cutoff
  {
    TouchRecords(c, run, t, i, j, id);
    NeverBack(c, run, j + 1, m);
    SweptWasIdle(c, run, m);
  }

  // ---- BeginClose and Close ----

  predicate InClosing(pc: Pc, id: Id) {
    match pc
    case Begin(d) => d == id
    case BeginFreeze(d) => d == id
    case CloseLoad(d, ret) => d == id && ret.Direct?
    case CloseCas(d, _, ret) => d == id && ret.Direct?
    case CloseFreeze(d, ret) => d == id && ret.Direct?
    case _ => false
  }

  predicate InClose(pc: Pc) { pc.CloseLoad? || pc.CloseCas? || pc.CloseFreeze? }

  lemma {:induction false} ClosingGoes(c: Config, sh: Shared, pc: Pc, sh': Shared, pc': Pc, id: Id)
    requires Next(c, sh, pc, sh', pc') && InClosing(pc, id) && !pc'.Idle?
    ensures InClosing(pc', id) && InClose(pc') == InClose(pc)
  {
  }

  lemma {:induction false} ClosingUnderWay(c: Config, run: seq<State>, t: Tid, i: nat, j: nat, id: Id)
    requires Run(c, run) && Busy(run, t, i, j) && InClosing(At(run[i], t), id)
    ensures InClosing(At(run[j], t), id) && InClose(At(run[j], t)) == InClose(At(run[i], t))
    decreases j
  {
    if i < j {
      ClosingUnderWay(c, run, t, i, j - 1, id);
      OwnOrStays(c, run, j - 1, t);
      if At(run[j], t) != At(run[j - 1], t) {
        ClosingGoes(c, run[j - 1].sh, At(run[j - 1], t), run[j].sh, At(run[j], t), id);
      }
    }
  }

  /** The last step of BeginClose or Close. A call that moved the life ends by freezing. */
  lemma {:induction false} ClosingEnds(c: Config, sh: Shared, pc: Pc, sh': Shared, pc': Pc, id: Id)
    requires Next(c, sh, pc, sh', pc') && Local(c, sh, pc) && InClosing(pc, id) && pc'.Idle?
    ensures id in sh'.flows && !sh'.flows[id].life.Open? && (InClose(pc) ==> sh'.flows[id].life.Closed?)
    ensures pc.BeginFreeze? || pc.CloseFreeze? ==> sh'.flows[id].word.frozen
  {
  }

  /** When Close returns the flow is Closed, when BeginClose returns it is no longer Open, and
      if this call is the one that moved it, it is frozen. */
  lemma {:induction false} CloseCloses(c: Config, run: seq<State>, t: Tid, i: nat, j: nat, id: Id)
    requires Run(c, run) && Returns(run, t, i, j)
    requires At(run[i], t) == Begin(id) || At(run[i], t) == CloseLoad(id, Direct)
    ensures id in run[j + 1].sh.flows
    ensures var f := run[j + 1].sh.flows[id];
            && !f.life.Open? && (At(run[i], t).CloseLoad? ==> f.life.Closed?)
            && (Freezing(At(run[j], t), id) ==> f.word.frozen)
  {
    ClosingUnderWay(c, run, t, i, j, id);
    ReturnIsOwn(c, run, t, i, j);
    Settles(c, run, j, t);
    ClosingEnds(c, run[j].sh, At(run[j], t), run[j + 1].sh, At(run[j + 1], t), id);
  }

  // ---- GetOrOpen ----

  /** GetOrOpen for k was called in state i; a flow it is making starts at a clock read since. */
  ghost predicate InOpen(run: seq<State>, i: nat, j: nat, pc: Pc, k: Key) {
    match pc
    case OpenEnter(d) => d == k
    case OpenId(d) => d == k
    case OpenClock(d, _) => d == k
    case OpenInsert(d, _, ticks) => d == k && ReadAt(run, i, j, ticks)
    case _ => false
  }

  /** The clock of some state from i to j reads `ticks`. */
  ghost predicate ReadAt(run: seq<State>, i: nat, j: nat, ticks: int) {
    exists m :: i <= m <= j && m < |run| && run[m].sh.clock / 2 == ticks
  }

  lemma {:induction false} OpenGoes(c: Config, sh: Shared, pc: Pc, sh': Shared, pc': Pc, k: Key)
    requires Next(c, sh, pc, sh', pc') && KindOf(pc) == Opening && pc.k == k && !pc'.Idle?
    ensures KindOf(pc') == Opening && pc'.k == k && (pc'.OpenInsert? ==> pc'.ticks == sh.clock / 2)
  {
  }

  lemma {:induction false} OpenUnderWay(c: Config, run: seq<State>, t: Tid, i: nat, j: nat, k: Key)
    requires Run(c, run) && Busy(run, t, i, j) && At(run[i], t) == OpenEnter(k)
    ensures InOpen(run, i, j, At(run[j], t), k)
    decreases j
  {
    if i < j {
      OpenUnderWay(c, run, t, i, j - 1, k);
      OwnOrStays(c, run, j - 1, t);
      if At(run[j], t) != At(run[j - 1], t) {
        OpenGoes(c, run[j - 1].sh, At(run[j - 1], t), run[j].sh, At(run[j], t), k);
      }
    }
  }

  /** The flow GetOrOpen made: open, unfrozen, of key k, last seen at clock reading `ticks`. */
  predicate NewFlow(sh: Shared, k: Key, id: Id, ticks: int) {
    id in sh.flows && sh.flows[id] == Flow(k, Open, Word(ticks, false))
  }

  lemma {:induction false} OpenEnds(c: Config, sh: Shared, pc: Pc, sh': Shared, pc': Pc, k: Key)
    requires Typed(c, sh) && Typed(c, sh') && Local(c, sh, pc) && Next(c, sh, pc, sh', pc')
    requires KindOf(pc) == Opening && pc.k == k && pc'.Idle? && !pc.OpenId?
    ensures k in Merge(sh'.shards)
    ensures if !pc.OpenInsert? then sh' == sh
            else k !in Merge(sh.shards) && Merge(sh'.shards)[k] == pc.id && NewFlow(sh', k, pc.id, pc.ticks)
  {
    MergeAt(c, sh, k);
    MergeAt(c, sh', k);
  }

  /** GetOrOpen(k) that returns without its constructor panicking leaves k in the table: it has
      found a flow there and changed nothing, or has put one in where there was none, open and
      last seen at the table clock of some moment of the call. */
  lemma {:induction false} OpenFindsOrMakes(c: Config, run: seq<State>, t: Tid, i: nat, j: nat, k: Key)
    requires Run(c, run) && Returns(run, t, i, j) && At(run[i], t) == OpenEnter(k) && !At(run[j], t).OpenId?
    ensures k in Merge(run[j + 1].sh.shards)
    ensures var (m, m') := (Merge(run[j].sh.shards), Merge(run[j + 1].sh.shards));
            if k in m then run[j + 1].sh == run[j].sh
            else exists ticks :: ReadAt(run, i, j, ticks) && NewFlow(run[j + 1].sh, k, m'[k], ticks)
  {
    OpenUnderWay(c, run, t, i, j, k);
    ReturnIsOwn(c, run, t, i, j);
    Settles(c, run, j, t);
    Settles(c, run, j + 1, t);
    OpenEnds(c, run[j].sh, At(run[j], t), run[j + 1].sh, At(run[j + 1], t), k);
  }

  // ---- Gone for good ----

  lemma {:induction false} StaysGone(c: Config, run: seq<State>, i: nat, j: nat, id: Id)
    requires Run(c, run) && i <= j < |run| && id in run[i].sh.flows && id !in Present(c, run[i].sh)
    ensures id !in Present(c, run[j].sh)
    decreases j
  {
    if i < j {
      StaysGone(c, run, i, j - 1, id);
      NeverBack(c, run, i, j - 1);
      assert StepAt(c, run, j - 1);
      var (s, s') := (run[j - 1], run[j]);
      var u :| Steps(c, s, u, s');
      assert Locals(c, s) by { Reachable(c, run, j - 1); }
      NoneReturns(c, s, u, s', id);
    }
  }

  lemma {:induction false} NoneReturns(c: Config, s: State, t: Tid, s': State, id: Id)
    requires Locals(c, s) && Steps(c, s, t, s') && id in s.sh.flows && id !in Present(c, s.sh)
    ensures id !in Present(c, s'.sh)
  {
    LeaveStep(c, s.sh, At(s, t), s'.sh, At(s', t));
    BookMoves(c, s, t, s');
    MovesTakeIn(Book(c, s), t, Book(c, s'));
  }

  // ---- Remove ----

  /** Remove(k, id) is before its look at the table, has it locked on the flow, or has taken
      the flow out. */
  ghost predicate InRemove(c: Config, sh: Shared, pc: Pc, k: Key, id: Id) {
    match pc
    case RemoveEnter(d, e) => d == k && e == id
    case RemoveFreeze(d, e) => d == k && e == id
    case RemoveDelete(d, e) => d == k && e == id
    case CloseLoad(e, ret) => Taken(c, sh, e, ret, id)
    case CloseCas(e, _, ret) => Taken(c, sh, e, ret, id)
    case CloseFreeze(e, ret) => Taken(c, sh, e, ret, id)
    case Report(e, ret) => Taken(c, sh, e, ret, id)
    case _ => false
  }

  ghost predicate Taken(c: Config, sh: Shared, e: Id, ret: Ret, id: Id) {
    e == id && ret.FromRemove? && id in sh.flows && id !in Present(c, sh)
  }

  lemma {:induction false} RemoveGoes(c: Config, sh: Shared, pc: Pc, sh': Shared, pc': Pc, k: Key, id: Id)
    requires Typed(c, sh) && Local(c, sh, pc) && Next(c, sh, pc, sh', pc') && InRemove(c, sh, pc, k, id) && !pc'.Idle?
    ensures InRemove(c, sh', pc', k, id)
  {
    if KindOf(pc) == Ending {
      CloseSameShards(sh, pc, sh', pc');
      SameShardsSamePresent(c, sh, sh');
    } else if pc.RemoveDelete? {
      RemoveTakes(c, sh, k, id, sh', pc');
    }
  }

  lemma {:induction false} RemoveStays(c: Config, run: seq<State>, m: nat, pc: Pc, k: Key, id: Id)
    requires Run(c, run) && m + 1 < |run| && InRemove(c, run[m].sh, pc, k, id)
    ensures InRemove(c, run[m + 1].sh, pc, k, id)
  {
    if KindOf(pc) == Ending {
      NeverBack(c, run, m, m + 1);
      StaysGone(c, run, m, m + 1, id);
    }
  }

  lemma {:induction false} RemoveNext(c: Config, run: seq<State>, t: Tid, m: nat, k: Key, id: Id)
    requires Run(c, run) && m + 1 < |run| && InRemove(c, run[m].sh, At(run[m], t), k, id) && !At(run[m + 1], t).Idle?
    ensures InRemove(c, run[m + 1].sh, At(run[m + 1], t), k, id)
  {
    OwnOrStays(c, run, m, t);
    if At(run[m + 1], t) != At(run[m], t) {
      Settles(c, run, m, t);
      RemoveGoes(c, run[m].sh, At(run[m], t), run[m + 1].sh, At(run[m + 1], t), k, id);
    } else {
      RemoveStays(c, run, m, At(run[m], t), k, id);
    }
  }

  lemma {:induction false} RemoveUnderWay(c: Config, run: seq<State>, t: Tid, i: nat, j: nat, k: Key, id: Id)
    requires Run(c, run) && Busy(run, t, i, j) && At(run[i], t) == RemoveEnter(k, id)
    ensures InRemove(c, run[j].sh, At(run[j], t), k, id)
    decreases j
  {
    if i < j {
      RemoveUnderWay(c, run, t, i, j - 1, k, id);
      RemoveNext(c, run, t, j - 1, k, id);
    }
  }

  /** When Remove(k, id) returns, the table does not have the flow id for k, and if there has
      been such a flow, never has it again. */
  lemma {:induction false} RemoveRemoves(c: Config, run: seq<State>, t: Tid, i: nat, j: nat, m: nat, k: Key, id: Id)
    requires Run(c, run) && Returns(run, t, i, j) && At(run[i], t) == RemoveEnter(k, id) && j < m < |run|
    ensures !Maps(c, run[j + 1].sh, k, id)
    ensures id in run[j + 1].sh.flows ==> !Maps(c, run[m].sh, k, id)
  {
    RemoveUnderWay(c, run, t, i, j, k, id);
    ReturnIsOwn(c, run, t, i, j);
    Settles(c, run, j, t);
    Settles(c, run, j + 1, t);
    RemoveEnds(c, run[j].sh, At(run[j], t), run[j + 1].sh, At(run[j + 1], t), k, id);
    if id in run[j + 1].sh.flows { NeverMapped(c, run, j + 1, m, k, id); }
  }

  lemma {:induction false} NeverMapped(c: Config, run: seq<State>, i: nat, j: nat, k: Key, id: Id)
    requires Run(c, run) && i <= j < |run| && id in run[i].sh.flows && !Maps(c, run[i].sh, k, id)
    ensures !Maps(c, run[j].sh, k, id)
  {
    NeverBack(c, run, i, j);
    Settles(c, run, j, 0);
    if Maps(c, run[j].sh, k, id) {
      assert ShardTyped(c, run[j].sh.flows, ShardOf(c, k), run[j].sh.shards[ShardOf(c, k)]);
      StaysGone(c, run, i, j, id);
    }
  }

  lemma {:induction false} RemoveEnds(c: Config, sh: Shared, pc: Pc, sh': Shared, pc': Pc, k: Key, id: Id)
    requires Typed(c, sh') && Next(c, sh, pc, sh', pc') && InRemove(c, sh, pc, k, id) && pc'.Idle?
    ensures !Maps(c, sh', k, id)
  {
    if KindOf(pc) == Ending {
      CloseSameShards(sh, pc, sh', pc');
      SameShardsSamePresent(c, sh, sh');
      if Maps(c, sh', k, id) {
        assert ShardTyped(c, sh'.flows, ShardOf(c, k), sh'.shards[ShardOf(c, k)]);
        assert InTable(c, sh', id);
      }
    }
  }

  // ---- Table.Close ----

  /** How many shards a call of Table.Close has emptied. */
  function Emptied(pc: Pc): Option<nat> {
    match pc
    case TableShard(i) => Some(i)
    case TableReport(next, _) => Some(next)
    case CloseLoad(_, FromTable(next, _)) => Some(next)
    case CloseCas(_, _, FromTable(next, _)) => Some(next)
    case CloseFreeze(_, FromTable(next, _)) => Some(next)
    case Report(_, FromTable(next, _)) => Some(next)
    case _ => None
  }

  /** id is gone, or its shard is still to be emptied. */
  ghost predicate Facing(c: Config, sh: Shared, pc: Pc, id: Id) {
    && Emptied(pc).Some? && id in sh.flows
    && (id in Present(c, sh) ==> Emptied(pc).value <= ShardOf(c, sh.flows[id].key))
  }

  lemma {:induction false} EmptyingCloses(c: Config, sh: Shared, pc: Pc, sh': Shared, pc': Pc)
    requires Next(c, sh, pc, sh', pc') && Emptied(pc).Some? && KindOf(pc) == Ending
    ensures Emptied(pc') == Emptied(pc) && SameShards(sh, sh')
  {
    CloseSameShards(sh, pc, sh', pc');
  }

  lemma {:induction false} EmptyingGoes(c: Config, sh: Shared, pc: Pc, sh': Shared, pc': Pc, id: Id)
    requires Next(c, sh, pc, sh', pc') && Facing(c, sh, pc, id) && !pc'.Idle?
    ensures Facing(c, sh', pc', id)
  {
    if KindOf(pc) == Ending {
      EmptyingCloses(c, sh, pc, sh', pc');
      SameShardsSamePresent(c, sh, sh');
    }
  }

  lemma {:induction false} FacingStays(c: Config, run: seq<State>, k: nat, pc: Pc, id: Id)
    requires Run(c, run) && k + 1 < |run| && Facing(c, run[k].sh, pc, id)
    ensures Facing(c, run[k + 1].sh, pc, id)
  {
    NeverBack(c, run, k, k + 1);
    if id !in Present(c, run[k].sh) { StaysGone(c, run, k, k + 1, id); }
  }

  lemma {:induction false} EmptyingUnderWay(c: Config, run: seq<State>, t: Tid, i: nat, j: nat, id: Id)
    requires Run(c, run) && Busy(run, t, i, j) && At(run[i], t) == TableShard(0) && id in run[i].sh.flows
    ensures Facing(c, run[j].sh, At(run[j], t), id)
    decreases j
  {
    if i < j {
      EmptyingUnderWay(c, run, t, i, j - 1, id);
      OwnOrStays(c, run, j - 1, t);
      if At(run[j], t) != At(run[j - 1], t) {
        EmptyingGoes(c, run[j - 1].sh, At(run[j - 1], t), run[j].sh, At(run[j], t), id);
      } else {
        FacingStays(c, run, j - 1, At(run[j], t), id);
      }
    }
  }

  lemma {:induction false} EmptyingEnds(c: Config, sh: Shared, pc: Pc, sh': Shared, pc': Pc, id: Id)
    requires Next(c, sh, pc, sh', pc') && Facing(c, sh, pc, id) && pc'.Idle?
    ensures id !in Present(c, sh')
  {
    if KindOf(pc) == Ending { EmptyingCloses(c, sh, pc, sh', pc'); }
  }

  /** When Table.Close returns, every flow there was when it was called has left the table, for
      good: whatever is in the table was opened during the call. */
  lemma {:induction false} TableCloseEmpties(c: Config, run: seq<State>, t: Tid, i: nat, j: nat, m: nat, id: Id)
    requires Run(c, run) && Returns(run, t, i, j) && At(run[i], t) == TableShard(0) && j < m < |run|
    requires id in Present(c, run[m].sh)
    ensures id !in run[i].sh.flows
  {
    if id in run[i].sh.flows {
      EmptyingUnderWay(c, run, t, i, j, id);
      ReturnIsOwn(c, run, t, i, j);
      EmptyingEnds(c, run[j].sh, At(run[j], t), run[j + 1].sh, At(run[j + 1], t), id);
      NeverBack(c, run, i, j + 1);
      StaysGone(c, run, j + 1, m, id);
    }
  }

  // ---- Nobody is stuck ----

  /** The shard lock a program counter asks for, as a set. */
  function Needs(c: Config, sh: Shared, pc: Pc): set<nat> {
    match pc
    case OpenEnter(k) => {ShardOf(c, k)}
    case RemoveEnter(k, _) => {ShardOf(c, k)}
    case SweepShard(_, i, _) => if i < |sh.shards| then {i} else {}
    case TableShard(i) => if i < |sh.shards| then {i} else {}
    case _ => {}
  }

  ghost predicate CanStep(c: Config, sh: Shared, pc: Pc) { exists sh', pc' :: Next(c, sh, pc, sh', pc') }

  lemma {:induction false} ValuesApart(m: map<Key, Id>, k: Key)
    requires k in m
    ensures forall id :: id in m.Values <==> id in (m - {k}).Values || id == m[k]
  {
    forall id | id in m.Values && id != m[k] ensures id in (m - {k}).Values {
      var j :| j in m && m[j] == id;
      assert j in m - {k} && (m - {k})[j] == id;
    }
  }

  /** The values of a map can be listed. */
  lemma {:induction false} AllValues(m: map<Key, Id>) returns (order: seq<Id>)
    ensures Enumerates(order, m)
    decreases |m|
  {
    if m == map[] {
      order := [];
    } else {
      var k :| k in m;
      var rest := m - {k};
      order := AllValues(rest);
      ValuesApart(m, k);
      if m[k] !in order { order := order + [m[k]]; }
    }
  }

  lemma {:induction false} OpenCanStep(c: Config, sh: Shared, pc: Pc)
    requires |sh.shards| == Shards(c) && KindOf(pc) == Opening
    ensures CanStep(c, sh, pc) <==> Needs(c, sh, pc) !! sh.held
  {
    match pc
    case OpenEnter(k) =>
      var i := ShardOf(c, k);
      if i !in sh.held {
        if k in sh.shards[i] {
          assert Next(c, sh, pc, sh, Idle);
        } else {
          assert Next(c, sh, pc, sh.(held := sh.held + {i}), OpenId(k));
        }
      }
    case OpenId(k) => assert Next(c, sh, pc, sh.(lastId := sh.lastId + 1), OpenClock(k, sh.lastId + 1));
    case OpenClock(k, id) => assert Next(c, sh, pc, sh, OpenInsert(k, id, sh.clock / 2));
    case OpenInsert(k, id, ticks) =>
      var i := ShardOf(c, k);
      var flows := sh.flows[id := Flow(k, Open, Word(ticks, false))];
      var shards := sh.shards[i := Put(sh.shards[i], k, id)];
      assert Next(c, sh, pc, sh.(flows := flows, shards := shards, held := sh.held - {i}), Idle);
  }

  lemma {:induction false} TouchCanStep(c: Config, sh: Shared, pc: Pc)
    requires |sh.shards| == Shards(c) && Local(c, sh, pc) && KindOf(pc) == Touching
    ensures CanStep(c, sh, pc)
  {
    match pc
    case TouchClock(id) => assert Next(c, sh, pc, sh, TouchLoad(id, sh.clock / 2));
    case TouchLoad(id, ticks) =>
      var v := sh.flows[id].word;
      assert Next(c, sh, pc, sh, if v.frozen || ticks <= v.ticks then Idle else TouchCas(id, ticks, v));
    case TouchCas(id, ticks, v) =>
      if sh.flows[id].word == v {
        assert Next(c, sh, pc, SetWord(sh, id, Word(ticks, false)), Idle);
      } else {
        assert Next(c, sh, pc, sh, TouchLoad(id, ticks));
      }
  }

  lemma {:induction false} CloseCanStep(c: Config, sh: Shared, pc: Pc)
    requires |sh.shards| == Shards(c) && Local(c, sh, pc) && KindOf(pc) == Ending
    ensures CanStep(c, sh, pc)
  {
    var (id, f) := (pc.id, sh.flows[pc.id]);
    match pc
    case Begin(_) =>
      if f.life.Open? {
        assert Next(c, sh, pc, SetLife(sh, id, Closing).(begins := sh.begins + [id]), BeginFreeze(id));
      } else {
        assert Next(c, sh, pc, sh, Idle);
      }
    case BeginFreeze(_) => assert Next(c, sh, pc, SetWord(sh, id, Freeze(f.word)), Idle);
    case CloseLoad(_, ret) =>
      assert Next(c, sh, pc, sh, if f.life.Closed? then AfterClose(id, ret) else CloseCas(id, f.life, ret));
    case CloseCas(_, s, ret) =>
      if f.life == s {
        assert Next(c, sh, pc, SetLife(sh, id, Closed).(closes := sh.closes + [id]), CloseFreeze(id, ret));
      } else {
        assert Next(c, sh, pc, sh, CloseLoad(id, ret));
      }
    case CloseFreeze(_, ret) => assert Next(c, sh, pc, SetWord(sh, id, Freeze(f.word)), AfterClose(id, ret));
    case Report(_, ret) =>
      var pc' := match ret
        case FromSweep(victims, n) => SweepReport(victims, n + 1)
        case FromTable(next, rest) => TableReport(next, rest)
        case _ => Idle;
      assert Next(c, sh, pc, sh.(reports := sh.reports + [id]), pc');
  }

  lemma {:induction false} RemoveCanStep(c: Config, sh: Shared, pc: Pc)
    requires |sh.shards| == Shards(c) && Local(c, sh, pc) && KindOf(pc) == Removing
    ensures CanStep(c, sh, pc) <==> Needs(c, sh, pc) !! sh.held
  {
    var i := ShardOf(c, pc.k);
    match pc
    case RemoveEnter(k, id) =>
      if i !in sh.held {
        if k in sh.shards[i] && sh.shards[i][k] == id {
          assert Next(c, sh, pc, sh.(held := sh.held + {i}), RemoveFreeze(k, id));
        } else {
          assert Next(c, sh, pc, sh, Idle);
        }
      }
    case RemoveFreeze(k, id) => assert Next(c, sh, pc, SetWord(sh, id, Freeze(sh.flows[id].word)), RemoveDelete(k, id));
    case RemoveDelete(k, id) =>
      assert Next(c, sh, pc, Delete(sh, i, k).(held := sh.held - {i}), CloseLoad(id, FromRemove));
  }

  lemma {:induction false} SweepCanStep(c: Config, sh: Shared, pc: Pc)
    requires |sh.shards| == Shards(c) && KindOf(pc) == Sweeping
    ensures CanStep(c, sh, pc)
  {
    match pc
    case AdvanceLoad(now) =>
      assert Next(c, sh, pc, sh, if now <= sh.clock then SweepBegin(c, now) else AdvanceCas(now, sh.clock));
    case AdvanceCas(now, cur) =>
      if sh.clock == cur {
        assert Next(c, sh, pc, sh.(clock := now), SweepBegin(c, now));
      } else {
        assert Next(c, sh, pc, sh, AdvanceLoad(now));
      }
    case SweepReport(victims, n) =>
      assert Next(c, sh, pc, sh, if n < |victims| then CloseLoad(victims[n], FromSweep(victims, n)) else Idle);
  }

  lemma {:induction false} LookCanStep(c: Config, sh: Shared, pc: Pc, k: Key)
    requires Typed(c, sh) && Local(c, sh, pc) && pc.SweepScan? && k in pc.todo
    ensures CanStep(c, sh, pc)
  {
    var (i, todo, victims) := (pc.i, pc.todo - {k}, pc.victims);
    assert ShardTyped(c, sh.flows, i, sh.shards[i]);
    var id := sh.shards[i][k];
    var v := sh.flows[id].word;
    if LastSeen(v) >= pc.cutoff {
      Sees(c, sh, pc, k, sh, SweepScan(pc.cutoff, i, todo, victims));
    } else if v.frozen {
      var swept := sh.swept[id := pc.cutoff];
      Sees(c, sh, pc, k, Delete(sh, i, k).(swept := swept), SweepScan(pc.cutoff, i, todo, victims + [id]));
    } else {
      Sees(c, sh, pc, k, sh, SweepCas(pc.cutoff, i, todo, k, v, victims));
    }
  }

  lemma {:induction false} Sees(c: Config, sh: Shared, pc: Pc, k: Key, sh': Shared, pc': Pc)
    requires |sh.shards| == Shards(c) && pc.SweepScan? && k in pc.todo && pc.i < |sh.shards|
    requires Looks(sh, pc.cutoff, pc.i, pc.todo, k, pc.victims, sh', pc')
    ensures CanStep(c, sh, pc)
  {
    assert Next(c, sh, pc, sh', pc');
  }

  lemma {:induction false} ScanCanStep(c: Config, sh: Shared, pc: Pc)
    requires Typed(c, sh) && Local(c, sh, pc) && KindOf(pc) == Scanning
    ensures CanStep(c, sh, pc) <==> Needs(c, sh, pc) !! sh.held
  {
    match pc
    case SweepShard(cutoff, i, victims) =>
      if i >= |sh.shards| {
        assert Next(c, sh, pc, sh, SweepReport(victims, 0));
      } else if i !in sh.held {
        assert Next(c, sh, pc, sh.(held := sh.held + {i}), SweepScan(cutoff, i, sh.shards[i].Keys, victims));
      }
    case SweepScan(cutoff, i, todo, victims) =>
      if todo == {} {
        assert Next(c, sh, pc, sh.(held := sh.held - {i}), SweepShard(cutoff, i + 1, victims));
      } else {
        var k :| k in todo;
        LookCanStep(c, sh, pc, k);
      }
    case SweepCas(_, _, _, _, _, _) => CasCanStep(c, sh, pc);
  }

  lemma {:induction false} CasCanStep(c: Config, sh: Shared, pc: Pc)
    requires Typed(c, sh) && Local(c, sh, pc) && pc.SweepCas?
    ensures CanStep(c, sh, pc)
  {
    var (i, v) := (pc.i, pc.v);
    assert ShardTyped(c, sh.flows, i, sh.shards[i]);
    var id := sh.shards[i][pc.k];
    if sh.flows[id].word == v {
      var swept := sh.swept[id := pc.cutoff];
      assert Next(c, sh, pc, Delete(SetWord(sh, id, Freeze(v)), i, pc.k).(swept := swept),
                  SweepScan(pc.cutoff, i, pc.todo, pc.victims + [id]));
    } else {
      assert Next(c, sh, pc, sh, SweepScan(pc.cutoff, i, pc.todo, pc.victims));
    }
  }

  lemma {:induction false} TableCanStep(c: Config, sh: Shared, pc: Pc)
    requires |sh.shards| == Shards(c) && KindOf(pc) == Emptying
    ensures CanStep(c, sh, pc) <==> Needs(c, sh, pc) !! sh.held
  {
    match pc
    case TableShard(i) =>
      if i >= |sh.shards| {
        assert Next(c, sh, pc, sh, Idle);
      } else if i !in sh.held {
        var order := AllValues(sh.shards[i]);
        assert Next(c, sh, pc, sh.(shards := sh.shards[i := map[]]), TableReport(i + 1, order));
      }
    case TableReport(next, rest) =>
      var pc' := if |rest| > 0 then CloseLoad(rest[0], FromTable(next, rest[1..])) else TableShard(next);
      assert Next(c, sh, pc, sh, pc');
  }

  /** Every locked shard is held by some thread. */
  ghost predicate Manned(c: Config, s: State) { forall j :: j in s.sh.held ==> HeldBySome(c, s, j) }

  ghost predicate HeldBySome(c: Config, s: State, j: nat) { exists t :: j in Holds(c, At(s, t)) }

  lemma {:induction false} KeepsManned(c: Config, s: State, t: Tid, s': State)
    requires Manned(c, s) && Locks(c, s) && Steps(c, s, t, s')
    ensures Manned(c, s')
  {
    LockStep(c, s.sh, At(s, t), s'.sh, At(s', t));
    forall j | j in s'.sh.held ensures HeldBySome(c, s', j) {
      if j !in Holds(c, At(s', t)) {
        assert j in s.sh.held && HeldBySome(c, s, j);
        var u :| j in Holds(c, At(s, u));
        assert u != t ==> At(s', u) == At(s, u);
      }
    }
  }

  lemma {:induction false} AllManned(c: Config, run: seq<State>, i: nat)
    requires Run(c, run) && i < |run|
    ensures Manned(c, run[i])
  {
    if i > 0 {
      AllManned(c, run, i - 1);
      assert StepAt(c, run, i - 1);
      var (s, s') := (run[i - 1], run[i]);
      var t :| Steps(c, s, t, s');
      assert Locks(c, s) by { Reachable(c, run, i - 1); }
      KeepsManned(c, s, t, s');
    }
  }

  /** The locks cannot deadlock: a thread that cannot go on waits for a shard that another thread
      holds, which itself can go on. */
  lemma {:induction false} NoDeadlock(c: Config, run: seq<State>, i: nat, t: Tid) returns (u: Tid)
    requires Run(c, run) && i < |run| && !At(run[i], t).Idle? && !CanStep(c, run[i].sh, At(run[i], t))
    ensures CanStep(c, run[i].sh, At(run[i], u)) && Holds(c, At(run[i], u)) == Needs(c, run[i].sh, At(run[i], t))
  {
    var s := run[i];
    WaitsForLocksOnly(c, run, i, t);
    AllManned(c, run, i);
    var j :| j in Needs(c, s.sh, At(s, t)) && j in s.sh.held;
    assert HeldBySome(c, s, j);
    u :| j in Holds(c, At(s, u));
    WaitsForLocksOnly(c, run, i, u);
  }

  /** A thread inside an operation can go on exactly unless it asks for a shard that is locked,
      and a thread that holds a shard asks for none. */
  lemma {:induction false} WaitsForLocksOnly(c: Config, run: seq<State>, i: nat, t: Tid)
    requires Run(c, run) && i < |run| && !At(run[i], t).Idle?
    ensures var (sh, pc) := (run[i].sh, At(run[i], t));
            && (CanStep(c, sh, pc) <==> Needs(c, sh, pc) !! sh.held)
            && (Holds(c, pc) != {} ==> Needs(c, sh, pc) == {})
  {
    Settles(c, run, i, t);
    var (sh, pc) := (run[i].sh, At(run[i], t));
    match KindOf(pc)
    case Opening => OpenCanStep(c, sh, pc);
    case Touching => TouchCanStep(c, sh, pc);
    case Ending => CloseCanStep(c, sh, pc);
    case Removing => RemoveCanStep(c, sh, pc);
    case Sweeping => SweepCanStep(c, sh, pc);
    case Scanning => ScanCanStep(c, sh, pc);
    case Emptying => TableCanStep(c, sh, pc);
  }
}
