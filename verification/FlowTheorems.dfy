/** What the flow protocol promises over every run. */
module FlowTheorems {
  import opened Bits
  import opened Common
  import opened Ledgers
  import opened FlowProtocol

  // ---- Time ----

  /** Clock and flows only move forward from one state to a later one. */
  ghost predicate Later(sh: Shared, sh': Shared) {
    && sh.clock <= sh'.clock && sh.lastId <= sh'.lastId
    && forall id :: id in sh.flows ==> id in sh'.flows && Forward(sh.flows[id], sh'.flows[id])
  }

  lemma {:induction false} StepLater(c: Config, run: seq<State>, i: nat)
    requires Run(c, run) && i + 1 < |run|
    ensures Later(run[i].sh, run[i + 1].sh)
  {
    Reachable(c, run, i);
    assert StepAt(c, run, i);
    var (s, s') := (run[i], run[i + 1]);
    var t :| Steps(c, s, t, s');
    KeepsInv(c, s, t, s');
  }

  /** Over any stretch of a run: the clock never goes back, a life only goes Open, Closing,
      Closed, LastSeen never decreases, and a frozen word never changes again. */
  lemma {:induction false} NeverBack(c: Config, run: seq<State>, i: nat, j: nat)
    requires Run(c, run) && i <= j < |run|
    ensures Later(run[i].sh, run[j].sh)
    decreases j
  {
    if i < j {
      NeverBack(c, run, i, j - 1);
      StepLater(c, run, j - 1);
    }
  }

  lemma SeenWithinClock(c: Config, run: seq<State>, i: nat, id: Id)
    requires Run(c, run) && i < |run| && id in run[i].sh.flows
    ensures LastSeen(run[i].sh.flows[id].word) <= run[i].sh.clock
  {
    Reachable(c, run, i);
    assert FlowTyped(run[i].sh, id, run[i].sh.flows[id]);
  }

  /** A Sweep's victim keeps, for ever, a LastSeen below that Sweep's cutoff. */
  lemma VictimStaysIdle(c: Config, run: seq<State>, i: nat, j: nat, id: Id)
    requires Run(c, run) && i <= j < |run| && id in run[i].sh.swept
    ensures id in run[i].sh.flows && id in run[j].sh.flows
    ensures run[j].sh.flows[id].word == run[i].sh.flows[id].word
    ensures LastSeen(run[j].sh.flows[id].word) < run[i].sh.swept[id]
  {
    Reachable(c, run, i);
    NeverBack(c, run, i, j);
  }

  /** A Touch that returns has been in time for its clock reading, unless it found the flow
      frozen. */
  lemma TouchLands(c: Config, sh: Shared, pc: Pc, sh': Shared, pc': Pc)
    requires Next(c, sh, pc, sh', pc') && (pc.TouchLoad? || pc.TouchCas?) && pc'.Idle?
    ensures pc.id in sh'.flows
    ensures sh.flows[pc.id].word.frozen || LastSeen(sh'.flows[pc.id].word) >= 2 * pc.ticks
  {
  }

  /** Touch in time saves: when a Touch with a clock reading of at least `cutoff` returns on
      an unfrozen flow, no Sweep with that cutoff or an earlier one ever takes the flow. */
  lemma TouchSaves(c: Config, run: seq<State>, i: nat, t: Tid, j: nat, cutoff: int)
    requires Run(c, run) && i < j < |run| && Steps(c, run[i], t, run[i + 1])
    requires (At(run[i], t).TouchLoad? || At(run[i], t).TouchCas?) && At(run[i + 1], t).Idle?
    requires var id := At(run[i], t).id; id in run[i].sh.flows && !run[i].sh.flows[id].word.frozen
    requires 2 * At(run[i], t).ticks >= cutoff
    ensures var id := At(run[i], t).id; id in run[j].sh.swept ==> run[j].sh.swept[id] > cutoff
  {
    TouchLands(c, run[i].sh, At(run[i], t), run[i + 1].sh, At(run[i + 1], t));
    NeverBack(c, run, i + 1, j);
    SweptWasIdle(c, run, j);
  }

  /** A flow some Sweep has taken was last seen before that Sweep's cutoff. */
  lemma SweptWasIdle(c: Config, run: seq<State>, j: nat)
    requires Run(c, run) && j < |run|
    ensures forall id :: id in run[j].sh.swept ==>
              id in run[j].sh.flows && LastSeen(run[j].sh.flows[id].word) < run[j].sh.swept[id]
  {
    Reachable(c, run, j);
  }

  // ---- Leaving ----

  /** The flows created are the disjoint union of those in the table, those some thread has
      taken out and not yet reported, and those reported; each is reported at most once, and
      only when Closed. */
  lemma ExactlyOnce(c: Config, run: seq<State>, i: nat, id: Id)
    requires Run(c, run) && i < |run| && id in run[i].sh.flows
    ensures var (s, listed) := (run[i], exists t :: id in Owes(At(run[i], t)));
            && (InTable(c, s.sh, id) || listed || id in s.sh.reports)
            && !(InTable(c, s.sh, id) && listed) && !(InTable(c, s.sh, id) && id in s.sh.reports)
            && !(listed && id in s.sh.reports)
            && NoDup(s.sh.reports) && (id in s.sh.reports ==> s.sh.flows[id].life.Closed?)
  {
    Reachable(c, run, i);
    var (s, b) := (run[i], Book(c, run[i]));
    forall t ensures On(b, t, id) <==> id in Owes(At(s, t)) {
      assert ListOf(b, t) == Owes(At(s, t));
    }
  }

  /** No two threads ever have the same flow to report, and none has it twice. */
  lemma OneReporter(c: Config, run: seq<State>, i: nat, t: Tid, u: Tid, id: Id)
    requires Run(c, run) && i < |run| && id in Owes(At(run[i], t)) && id in Owes(At(run[i], u))
    ensures t == u && NoDup(Owes(At(run[i], t)))
  {
    Reachable(c, run, i);
    var b := Book(c, run[i]);
    assert ListOf(b, t) == Owes(At(run[i], t)) && ListOf(b, u) == Owes(At(run[i], u));
    assert On(b, t, id) && On(b, u, id);
  }

  /** When no table operation is under way, every flow has either been reported or is still
      in the table. */
  lemma QuietPartition(c: Config, run: seq<State>, i: nat)
    requires Run(c, run) && i < |run| && forall t :: t in run[i].pcs ==> Owes(run[i].pcs[t]) == []
    ensures run[i].sh.flows.Keys == Present(c, run[i].sh) + set id | id in run[i].sh.reports
    ensures Present(c, run[i].sh) !! set id | id in run[i].sh.reports
  {
    Reachable(c, run, i);
    var b := Book(c, run[i]);
    assert forall t, id :: !On(b, t, id);
  }

  /** What a Sweep that is reporting has reported so far: its first n victims, all distinct. */
  ghost predicate Honest(sh: Shared, pc: Pc) {
    && (pc.SweepReport? ==> Reported(sh, pc.victims, pc.n))
    && ((pc.CloseLoad? || pc.CloseCas? || pc.CloseFreeze? || pc.Report?) && pc.ret.FromSweep? ==>
          Reported(sh, pc.ret.victims, pc.ret.n) && pc.ret.n < |pc.ret.victims| && pc.id == pc.ret.victims[pc.ret.n])
  }

  ghost predicate Reported(sh: Shared, victims: seq<Id>, n: nat) {
    n <= |victims| && NoDup(victims) && forall k :: 0 <= k < n ==> victims[k] in sh.reports
  }

  lemma {:induction false} HonestClose(sh: Shared, pc: Pc, sh': Shared, pc': Pc)
    requires NextClose(sh, pc, sh', pc') && Honest(sh, pc) && sh.reports <= sh'.reports
    ensures Honest(sh', pc')
  {
  }

  lemma {:induction false} HonestSweep(c: Config, sh: Shared, pc: Pc, sh': Shared, pc': Pc)
    requires NextSweep(c, sh, pc, sh', pc') || NextTable(sh, pc, sh', pc') || (pc.Idle? && Call(sh, sh', pc'))
    requires Honest(sh, pc)
    ensures Honest(sh', pc')
  {
  }

  lemma {:induction false} HonestScan(sh: Shared, pc: Pc, sh': Shared, pc': Pc)
    requires NextScan(sh, pc, sh', pc') && NoDup(Owes(pc))
    ensures Honest(sh', pc')
  {
  }

  lemma {:induction false} HonestStep(c: Config, sh: Shared, pc: Pc, sh': Shared, pc': Pc)
    requires Next(c, sh, pc, sh', pc') && Honest(sh, pc) && NoDup(Owes(pc)) && sh.reports <= sh'.reports
    ensures Honest(sh', pc')
  {
    match KindOf(pc)
    case Ending => HonestClose(sh, pc, sh', pc');
    case Scanning => HonestScan(sh, pc, sh', pc');
    case Opening => assert !pc'.SweepReport? && !pc'.CloseLoad?;
    case Touching => assert !pc'.SweepReport? && !pc'.CloseLoad?;
    case Removing => assert !pc'.SweepReport? && (pc'.CloseLoad? ==> pc'.ret.FromRemove?);
    case Calling => HonestSweep(c, sh, pc, sh', pc');
    case Sweeping => HonestSweep(c, sh, pc, sh', pc');
    case Emptying => HonestSweep(c, sh, pc, sh', pc');
  }

  lemma {:induction false} ReportsGrow(c: Config, s: State, t: Tid, s': State)
    requires Inv(c, s) && Steps(c, s, t, s')
    ensures s.sh.reports <= s'.sh.reports
  {
    LeaveStep(c, s.sh, At(s, t), s'.sh, At(s', t));
  }

  lemma {:induction false} KeepsHonest(c: Config, s: State, t: Tid, s': State)
    requires Inv(c, s) && Steps(c, s, t, s') && forall u :: Honest(s.sh, At(s, u))
    ensures forall u :: Honest(s'.sh, At(s', u))
  {
    ReportsGrow(c, s, t, s');
    assert ListOf(Book(c, s), t) == Owes(At(s, t));
    HonestStep(c, s.sh, At(s, t), s'.sh, At(s', t));
    assert forall u :: u != t ==> At(s', u) == At(s, u);
  }

  lemma {:induction false} AllHonest(c: Config, run: seq<State>, i: nat)
    requires Run(c, run) && i < |run|
    ensures forall u :: Honest(run[i].sh, At(run[i], u))
  {
    if i > 0 {
      AllHonest(c, run, i - 1);
      Reachable(c, run, i - 1);
      assert StepAt(c, run, i - 1);
      var (s, s') := (run[i - 1], run[i]);
      var t :| Steps(c, s, t, s');
      KeepsHonest(c, s, t, s');
    }
  }

  // ---- Closing ----

  /** At most one BeginClose and at most one Close of a flow ever return true, and a flow
      that is not Open is frozen unless the caller that moved it is about to freeze it. */
  lemma OneWinner(c: Config, run: seq<State>, i: nat, id: Id)
    requires Run(c, run) && i < |run| && id in run[i].sh.flows
    ensures NoDup(run[i].sh.begins) && NoDup(run[i].sh.closes)
    ensures id in run[i].sh.closes <==> run[i].sh.flows[id].life.Closed?
    ensures !run[i].sh.flows[id].life.Open? && !run[i].sh.flows[id].word.frozen ==>
              exists t :: Freezing(At(run[i], t), id)
  {
    Reachable(c, run, i);
  }

  // ---- Keys and epochs ----

  /** Every key lives in one shard only, its hash modulo the number of shards. */
  lemma OneShardPerKey(c: Config, run: seq<State>, i: nat, n: nat, k: Key)
    requires Run(c, run) && i < |run| && n < |run[i].sh.shards| && k in run[i].sh.shards[n]
    ensures n == c.hash(k) % |run[i].sh.shards|
  {
    Settles(c, run, i, 0);
    assert ShardTyped(c, run[i].sh.flows, n, run[i].sh.shards[n]);
    MaskIsMod(c.hash(k), c.bits);
  }

  /** The one map that the shards together are. */
  function Merge(shards: seq<map<Key, Id>>): map<Key, Id> {
    if shards == [] then map[] else Merge(shards[..|shards| - 1]) + shards[|shards| - 1]
  }

  /** What Len adds up, one shard at a time. */
  function SumLen(shards: seq<map<Key, Id>>): nat {
    if shards == [] then 0 else SumLen(shards[..|shards| - 1]) + |shards[|shards| - 1]|
  }

  /** No key is in two shards. */
  ghost predicate Disjoint(shards: seq<map<Key, Id>>) {
    forall i, j, k :: 0 <= i < |shards| && 0 <= j < |shards| && k in shards[i] && k in shards[j] ==> i == j
  }

  lemma {:induction false} MergeFinds(shards: seq<map<Key, Id>>, i: nat, k: Key)
    requires Disjoint(shards) && i < |shards| && k in shards[i]
    ensures k in Merge(shards) && Merge(shards)[k] == shards[i][k]
    decreases |shards|
  {
    if i < |shards| - 1 { MergeFinds(shards[..|shards| - 1], i, k); }
  }

  lemma {:induction false} MergeHolds(shards: seq<map<Key, Id>>, k: Key)
    requires k in Merge(shards)
    ensures exists i :: 0 <= i < |shards| && k in shards[i]
    decreases |shards|
  {
    var n := |shards| - 1;
    if k in shards[n] {
    } else {
      MergeHolds(shards[..n], k);
      var i :| 0 <= i < n && k in shards[..n][i];
      assert k in shards[i];
    }
  }

  lemma {:induction false} MergeCounts(shards: seq<map<Key, Id>>)
    requires Disjoint(shards)
    ensures |Merge(shards)| == SumLen(shards)
    decreases |shards|
  {
    if |shards| > 0 {
      var n := |shards| - 1;
      var (rest, last) := (shards[..n], shards[n]);
      MergeCounts(rest);
      LastApart(shards);
      SizesAdd(Merge(rest), last);
    }
  }

  lemma {:induction false} LastApart(shards: seq<map<Key, Id>>)
    requires Disjoint(shards) && |shards| > 0
    ensures Merge(shards[..|shards| - 1]).Keys !! shards[|shards| - 1].Keys
  {
    var n := |shards| - 1;
    forall k | k in Merge(shards[..n]) ensures k !in shards[n] {
      MergeHolds(shards[..n], k);
      var i :| 0 <= i < n && k in shards[..n][i];
      assert k in shards[i];
    }
  }

  lemma SizesAdd(a: map<Key, Id>, b: map<Key, Id>)
    requires a.Keys !! b.Keys
    ensures |a + b| == |a| + |b|
  {
    assert (a + b).Keys == a.Keys + b.Keys;
    assert |(a + b).Keys| == |a.Keys| + |b.Keys|;
  }

  lemma {:induction false} TypedApart(c: Config, sh: Shared)
    requires Typed(c, sh)
    ensures Disjoint(sh.shards)
  {
    forall a, b, x | 0 <= a < |sh.shards| && 0 <= b < |sh.shards| && x in sh.shards[a]
      && x in sh.shards[b] ensures a == b {
      assert ShardTyped(c, sh.flows, a, sh.shards[a]) && ShardTyped(c, sh.flows, b, sh.shards[b]);
    }
  }

  /** A lookup in the key's own shard is a lookup in the one map. */
  lemma {:induction false} MergeAt(c: Config, sh: Shared, k: Key)
    requires Typed(c, sh)
    ensures var n := ShardOf(c, k);
            && n < |sh.shards| && (k in Merge(sh.shards) <==> k in sh.shards[n])
            && (k in sh.shards[n] ==> Merge(sh.shards)[k] == sh.shards[n][k])
  {
    TypedApart(c, sh);
    if k in sh.shards[ShardOf(c, k)] { MergeFinds(sh.shards, ShardOf(c, k), k); }
    if k in Merge(sh.shards) {
      MergeHolds(sh.shards, k);
      var a :| 0 <= a < |sh.shards| && k in sh.shards[a];
      assert ShardTyped(c, sh.flows, a, sh.shards[a]);
    }
  }

  /** The sharded table is one map from key to flow: a lookup in the key's shard is a lookup
      in that map, and the shards' sizes add up to its size. */
  lemma TableIsOneMap(c: Config, run: seq<State>, i: nat, k: Key)
    requires Run(c, run) && i < |run|
    ensures var (shards, n) := (run[i].sh.shards, ShardOf(c, k));
            && n < |shards| && (k in Merge(shards) <==> k in shards[n])
            && (k in shards[n] ==> Merge(shards)[k] == shards[n][k])
            && |Merge(shards)| == SumLen(shards)
  {
    Settles(c, run, i, 0);
    MergeAt(c, run[i].sh, k);
    TypedApart(c, run[i].sh);
    MergeCounts(run[i].sh.shards);
  }

  /** Putting a key into its shard puts it into the one map; deleting it there deletes it. */
  lemma {:induction false} PutOnMap(c: Config, sh: Shared, sh': Shared, k: Key, id: Id)
    requires Typed(c, sh) && Typed(c, sh') && ShardOf(c, k) < |sh.shards|
    requires sh'.shards == sh.shards[ShardOf(c, k) := Put(sh.shards[ShardOf(c, k)], k, id)]
    ensures Merge(sh'.shards) == Put(Merge(sh.shards), k, id)
  {
    forall j ensures j in Merge(sh'.shards) <==> j in Put(Merge(sh.shards), k, id) {
      MergeAt(c, sh, j); MergeAt(c, sh', j);
    }
    forall j | j in Merge(sh'.shards) ensures Merge(sh'.shards)[j] == Put(Merge(sh.shards), k, id)[j] {
      MergeAt(c, sh, j);
      MergeAt(c, sh', j);
    }
  }

  lemma {:induction false} CutAt(c: Config, sh: Shared, sh': Shared, k: Key, j: Key)
    requires Typed(c, sh) && Typed(c, sh') && ShardOf(c, k) < |sh.shards|
    requires sh'.shards == sh.shards[ShardOf(c, k) := sh.shards[ShardOf(c, k)] - {k}]
    ensures j in Merge(sh'.shards) <==> j in Merge(sh.shards) && j != k
    ensures j in Merge(sh'.shards) ==> Merge(sh'.shards)[j] == Merge(sh.shards)[j]
  {
    MergeAt(c, sh, j);
    MergeAt(c, sh', j);
  }

  lemma {:induction false} CutOnMap(c: Config, sh: Shared, sh': Shared, k: Key)
    requires Typed(c, sh) && Typed(c, sh') && ShardOf(c, k) < |sh.shards|
    requires sh'.shards == sh.shards[ShardOf(c, k) := sh.shards[ShardOf(c, k)] - {k}]
    ensures Merge(sh'.shards) == Merge(sh.shards) - {k}
  {
    forall j { CutAt(c, sh, sh', k, j); }
  }

  ghost predicate RunTo(c: Config, run: seq<State>, i: nat, s: State) { Run(c, run) && i < |run| && run[i] == s }

  /** Some run passes through s. */
  ghost predicate Reached(c: Config, s: State) { exists run, i: nat :: RunTo(c, run, i, s) }

  lemma {:induction false} ReachedInv(c: Config, s: State)
    requires Reached(c, s)
    ensures Inv(c, s)
  {
    var run, i: nat :| RunTo(c, run, i, s);
    Reachable(c, run, i);
  }

  /** What a step from a reachable state starts from and ends in. */
  ghost predicate StepSound(c: Config, s: State, t: Tid, s': State) {
    Typed(c, s.sh) && Local(c, s.sh, At(s, t)) && Typed(c, s'.sh)
  }

  lemma {:induction false} ReachedStep(c: Config, s: State, t: Tid, s': State)
    requires Reached(c, s) && Steps(c, s, t, s')
    ensures StepSound(c, s, t, s')
  {
    ReachedInv(c, s);
    KeepsInv(c, s, t, s');
  }

  /** The part of the invariant that speaks of one goroutine. */
  lemma {:induction false} Settles(c: Config, run: seq<State>, i: nat, t: Tid)
    requires Run(c, run) && i < |run|
    ensures Typed(c, run[i].sh) && Local(c, run[i].sh, At(run[i], t))
  {
    Reachable(c, run, i);
  }

  lemma {:induction false} OpenPuts(c: Config, sh: Shared, k: Key, id: Id, ticks: int, sh': Shared, pc': Pc)
    requires Typed(c, sh) && Typed(c, sh') && Local(c, sh, OpenInsert(k, id, ticks))
    requires Next(c, sh, OpenInsert(k, id, ticks), sh', pc')
    ensures k !in Merge(sh.shards) && Merge(sh'.shards) == Put(Merge(sh.shards), k, id)
  {
    MergeAt(c, sh, k);
    PutOnMap(c, sh, sh', k, id);
  }

  lemma {:induction false} RemoveCuts(c: Config, sh: Shared, k: Key, id: Id, sh': Shared, pc': Pc)
    requires Typed(c, sh) && Typed(c, sh') && Local(c, sh, RemoveDelete(k, id))
            && Next(c, sh, RemoveDelete(k, id), sh', pc')
    ensures k in Merge(sh.shards) && Merge(sh.shards)[k] == id && Merge(sh'.shards) == Merge(sh.shards) - {k}
  {
    MergeAt(c, sh, k);
    RemoveShape(c, sh, k, id, sh', pc');
    CutOnMap(c, sh, sh', k);
  }

  lemma {:induction false} RemoveShape(c: Config, sh: Shared, k: Key, id: Id, sh': Shared, pc': Pc)
    requires Next(c, sh, RemoveDelete(k, id), sh', pc') && ShardOf(c, k) < |sh.shards|
    ensures sh'.shards == sh.shards[ShardOf(c, k) := sh.shards[ShardOf(c, k)] - {k}]
  {
  }

  /** All of m but the keys of shard i. */
  function Outside(c: Config, m: map<Key, Id>, i: nat): map<Key, Id> {
    map k: Key | k in m && ShardOf(c, k) != i :: m[k]
  }

  /** One flow leaves the map and joins the victims, or nothing happens. */
  ghost predicate Evicts(m: map<Key, Id>, victims: seq<Id>, pc': Pc, m': map<Key, Id>) {
    || m' == m
    || exists k :: k in m && m' == m - {k} && pc'.SweepScan? && pc'.victims == victims + [m[k]]
  }

  /** What each step of each operation is on the one map. */
  ghost predicate MapStep(c: Config, pc: Pc, m: map<Key, Id>, pc': Pc, m': map<Key, Id>) {
    match pc
    case OpenInsert(k, id, _) => k !in m && m' == Put(m, k, id)
    case RemoveDelete(k, id) => k in m && m[k] == id && m' == m - {k}
    case SweepScan(_, _, _, victims) => Evicts(m, victims, pc', m')
    case SweepCas(_, _, _, _, _, victims) => Evicts(m, victims, pc', m')
    case TableShard(i) => m' == Outside(c, m, i)
    case _ => m' == m
  }

  lemma {:induction false} CutEvicts(c: Config, sh: Shared, i: nat, k: Key, victims: seq<Id>, sh': Shared, pc': Pc)
    requires Typed(c, sh) && Typed(c, sh') && i < |sh.shards| && k in sh.shards[i]
    requires sh'.shards == sh.shards[i := sh.shards[i] - {k}]
    requires pc'.SweepScan? && pc'.victims == victims + [sh.shards[i][k]]
    ensures Evicts(Merge(sh.shards), victims, pc', Merge(sh'.shards))
  {
    assert ShardTyped(c, sh.flows, i, sh.shards[i]);
    MergeAt(c, sh, k);
    CutOnMap(c, sh, sh', k);
  }

  lemma {:induction false} ScanOnMap(c: Config, sh: Shared, pc: Pc, sh': Shared, pc': Pc)
    requires Typed(c, sh) && Typed(c, sh') && NextScan(sh, pc, sh', pc')
    ensures MapStep(c, pc, Merge(sh.shards), pc', Merge(sh'.shards))
  {
    if pc.SweepScan? && pc.todo != {} {
      var k :| k in pc.todo && Looks(sh, pc.cutoff, pc.i, pc.todo, k, pc.victims, sh', pc');
      if sh'.shards != sh.shards { CutEvicts(c, sh, pc.i, k, pc.victims, sh', pc'); }
    } else if pc.SweepCas? {
      if sh'.shards != sh.shards { CutEvicts(c, sh, pc.i, pc.k, pc.victims, sh', pc'); }
    }
  }

  lemma {:induction false} EmptyOnMap(c: Config, sh: Shared, i: nat, sh': Shared)
    requires Typed(c, sh) && Typed(c, sh') && i < |sh.shards| && sh'.shards == sh.shards[i := map[]]
    ensures Merge(sh'.shards) == Outside(c, Merge(sh.shards), i)
  {
    var (m, m') := (Merge(sh.shards), Merge(sh'.shards));
    forall k ensures k in m' <==> k in Outside(c, m, i) { MergeAt(c, sh, k); MergeAt(c, sh', k); }
    forall k | k in m' ensures m'[k] == m[k] { MergeAt(c, sh, k); MergeAt(c, sh', k); }
  }

  lemma {:induction false} NoneBeyond(c: Config, m: map<Key, Id>, i: nat)
    requires i >= Shards(c)
    ensures Outside(c, m, i) == m
  {
  }

  lemma {:induction false} TableOnMap(c: Config, sh: Shared, pc: Pc, sh': Shared, pc': Pc)
    requires Typed(c, sh) && Typed(c, sh') && NextTable(sh, pc, sh', pc')
    ensures MapStep(c, pc, Merge(sh.shards), pc', Merge(sh'.shards))
  {
    if pc.TableShard? {
      if pc.i < |sh.shards| { EmptyOnMap(c, sh, pc.i, sh'); } else { NoneBeyond(c, Merge(sh.shards), pc.i); }
    }
  }

  lemma {:induction false} OpenSameShards(c: Config, sh: Shared, pc: Pc, sh': Shared, pc': Pc)
    requires |sh.shards| == Shards(c) && NextOpen(c, sh, pc, sh', pc') && !pc.OpenInsert?
    ensures sh'.shards == sh.shards
  {
  }

  lemma {:induction false} RemoveSameShards(c: Config, sh: Shared, pc: Pc, sh': Shared, pc': Pc)
    requires |sh.shards| == Shards(c) && NextRemove(c, sh, pc, sh', pc') && !pc.RemoveDelete?
    ensures sh'.shards == sh.shards
  {
  }

  lemma {:induction false} OtherSameShards(c: Config, sh: Shared, pc: Pc, sh': Shared, pc': Pc)
    requires match KindOf(pc)
             case Calling => Call(sh, sh', pc')
             case Touching => NextTouch(sh, pc, sh', pc')
             case Ending => NextClose(sh, pc, sh', pc')
             case Sweeping => NextSweep(c, sh, pc, sh', pc')
             case _ => false
    ensures sh'.shards == sh.shards
  {
  }

  /** The sharded table simulates the one map: GetOrOpen inserts an absent key, Remove deletes
      the key of its flow, Sweep takes out its victims one by one, Table.Close empties shard
      after shard, and no other step touches the map. */
  lemma {:induction false} TableSimulatesMap(c: Config, s: State, t: Tid, s': State)
    requires Reached(c, s) && Steps(c, s, t, s')
    ensures MapStep(c, At(s, t), Merge(s.sh.shards), At(s', t), Merge(s'.sh.shards))
  {
    ReachedStep(c, s, t, s');
    StepOnMap(c, s.sh, At(s, t), s'.sh, At(s', t));
  }

  lemma {:induction false} StepOnMap(c: Config, sh: Shared, pc: Pc, sh': Shared, pc': Pc)
    requires Typed(c, sh) && Typed(c, sh') && Local(c, sh, pc) && Next(c, sh, pc, sh', pc')
    ensures MapStep(c, pc, Merge(sh.shards), pc', Merge(sh'.shards))
  {
    match KindOf(pc)
    case Opening =>
      if pc.OpenInsert? {
        OpenPuts(c, sh, pc.k, pc.id, pc.ticks, sh', pc');
      } else {
        OpenSameShards(c, sh, pc, sh', pc');
      }
    case Removing =>
      if pc.RemoveDelete? { RemoveCuts(c, sh, pc.k, pc.id, sh', pc'); } else { RemoveSameShards(c, sh, pc, sh', pc'); }
    case Scanning => ScanOnMap(c, sh, pc, sh', pc');
    case Emptying => TableOnMap(c, sh, pc, sh', pc');
    case _ => OtherSameShards(c, sh, pc, sh', pc');
  }

  /** Table.Len: it locks one shard after the other, shard n in state at[n]. */
  function LenRead(run: seq<State>, at: seq<nat>): nat
    requires forall n :: 0 <= n < |at| ==> at[n] < |run| && n < |run[at[n]].sh.shards|
  {
    if at == [] then 0
    else
      var n := |at| - 1;
      LenRead(run, at[..n]) + |run[at[n]].sh.shards[n]|
  }

  lemma {:induction false} LenOfStill(run: seq<State>, at: seq<nat>, shards: seq<map<Key, Id>>)
    requires |at| <= |shards| && forall n :: 0 <= n < |at| ==> at[n] < |run| && run[at[n]].sh.shards == shards
    ensures LenRead(run, at) == SumLen(shards[..|at|])
  {
    if at != [] {
      var n := |at| - 1;
      LenOfStill(run, at[..n], shards);
      assert shards[..n + 1][..n] == shards[..n];
    }
  }

  /** Len is the size of the map if no flow comes or goes while it counts. */
  lemma {:induction false} LenCountsMap(c: Config, run: seq<State>, i: nat, j: nat, at: seq<nat>)
    requires Run(c, run) && i <= j < |run| && |at| == |run[i].sh.shards|
    requires forall k :: i <= k <= j ==> run[k].sh.shards == run[i].sh.shards
    requires forall n :: 0 <= n < |at| ==> i <= at[n] <= j
    ensures LenRead(run, at) == |Merge(run[i].sh.shards)|
  {
    var shards := run[i].sh.shards;
    LenOfStill(run, at, shards);
    assert shards[..|at|] == shards;
    Settles(c, run, i, 0);
    TypedApart(c, run[i].sh);
    MergeCounts(shards);
  }

  /** IDs are epochs: a flow opened later for the same key has the greater ID. */
  lemma {:induction false} LaterFlowNewerId(c: Config, run: seq<State>, i: nat, j: nat, id: Id, id2: Id)
    requires Run(c, run) && i <= j < |run|
    requires id in run[i].sh.flows && id2 !in run[i].sh.flows && id2 in run[j].sh.flows
    requires run[i].sh.flows[id].key == run[j].sh.flows[id2].key
    ensures id < id2
    decreases j
  {
    if i < j {
      NeverBack(c, run, i, j - 1);
      if id2 in run[j - 1].sh.flows {
        StepLater(c, run, j - 1);
        LaterFlowNewerId(c, run, i, j - 1, id, id2);
      } else {
        NewFlowNewerId(c, run, j, id, id2);
      }
    }
  }

  lemma {:induction false} NewFlowNewerId(c: Config, run: seq<State>, j: nat, id: Id, id2: Id)
    requires Run(c, run) && 0 < j < |run|
    requires id in run[j - 1].sh.flows && id2 !in run[j - 1].sh.flows && id2 in run[j].sh.flows
    requires run[j - 1].sh.flows[id].key == run[j].sh.flows[id2].key
    ensures id < id2
  {
    var (s, s') := (run[j - 1], run[j]);
    assert Inv(c, s) by { Reachable(c, run, j - 1); }
    assert StepAt(c, run, j - 1);
    var t :| Steps(c, s, t, s');
    InsertedIsNewer(c, s, t, s', id2, id);
  }

  lemma {:induction false} InsertedIsNewer(c: Config, s: State, t: Tid, s': State, id2: Id, id: Id)
    requires Inv(c, s) && Steps(c, s, t, s') && id2 !in s.sh.flows && id2 in s'.sh.flows
    requires id in s.sh.flows && s.sh.flows[id].key == s'.sh.flows[id2].key
    ensures id < id2
  {
    KeepsLocals(c, s, t, s');
    var pc := At(s, t);
    assert pc.OpenInsert? && pc.id == id2;
    assert Local(c, s.sh, pc);
  }

  /** Remove(k, id) takes out the flow id and nothing else, so a stale ID never removes the
      flow that has reused the key. */
  lemma {:induction false} RemoveTakesOnlyItsFlow(c: Config, s: State, t: Tid, s': State, k: Key, id: Id)
    requires Reached(c, s) && Steps(c, s, t, s') && At(s, t) == RemoveDelete(k, id)
    ensures Present(c, s'.sh) == Present(c, s.sh) - {id} && id in Present(c, s.sh)
    ensures s.sh.flows[id].key == k && s.sh.flows[id].word.frozen
  {
    ReachedStep(c, s, t, s');
    RemoveTakes(c, s.sh, k, id, s'.sh, At(s', t));
  }

  lemma {:induction false} RemoveTakes(c: Config, sh: Shared, k: Key, id: Id, sh': Shared, pc': Pc)
    requires Typed(c, sh) && Local(c, sh, RemoveDelete(k, id)) && Next(c, sh, RemoveDelete(k, id), sh', pc')
    ensures Present(c, sh') == Present(c, sh) - {id} && id in Present(c, sh)
    ensures sh.flows[id].key == k && sh.flows[id].word.frozen
  {
    assert ShardTyped(c, sh.flows, ShardOf(c, k), sh.shards[ShardOf(c, k)]);
    DeleteTakes(c, sh, ShardOf(c, k), k, id, sh');
  }

  /** A step that takes a flow out of the table, other than Table.Close's, is a Remove that
      froze it, or a Sweep that records it. */
  lemma {:induction false} ScanTakesSwept(c: Config, sh: Shared, pc: Pc, sh': Shared, pc': Pc, id: Id)
    requires Typed(c, sh) && NextScan(sh, pc, sh', pc') && id in Present(c, sh) && id !in Present(c, sh')
    ensures id in sh'.swept
  {
    if pc.SweepScan? && pc.todo != {} {
      var k :| k in pc.todo && Looks(sh, pc.cutoff, pc.i, pc.todo, k, pc.victims, sh', pc');
      if sh'.shards != sh.shards { DeleteTakes(c, sh, pc.i, k, sh.shards[pc.i][k], sh'); }
    } else if pc.SweepCas? {
      if sh'.shards != sh.shards { DeleteTakes(c, sh, pc.i, pc.k, sh.shards[pc.i][pc.k], sh'); }
      else { SameShardsSamePresent(c, sh, sh'); }
    } else {
      SameShardsSamePresent(c, sh, sh');
    }
  }

  lemma {:induction false} TouchTakesNone(c: Config, sh: Shared, pc: Pc, sh': Shared, pc': Pc)
    requires NextTouch(sh, pc, sh', pc')
    ensures Present(c, sh) <= Present(c, sh')
  {
    SameShardsSamePresent(c, sh, sh');
  }

  lemma {:induction false} CloseTakesNone(c: Config, sh: Shared, pc: Pc, sh': Shared, pc': Pc)
    requires NextClose(sh, pc, sh', pc')
    ensures Present(c, sh) <= Present(c, sh')
  {
    SameShardsSamePresent(c, sh, sh');
  }

  lemma {:induction false} ClockTakesNone(c: Config, sh: Shared, pc: Pc, sh': Shared, pc': Pc)
    requires NextSweep(c, sh, pc, sh', pc') || (pc.Idle? && Call(sh, sh', pc'))
    ensures Present(c, sh) <= Present(c, sh')
  {
    SameShardsSamePresent(c, sh, sh');
  }

  lemma {:induction false} OpenTakesNone(c: Config, sh: Shared, pc: Pc, sh': Shared, pc': Pc)
    requires Typed(c, sh) && Local(c, sh, pc) && NextOpen(c, sh, pc, sh', pc')
    ensures Present(c, sh) <= Present(c, sh')
  {
    if pc.OpenInsert? { EntersOne(c, sh, pc, sh', pc'); } else { SameShardsSamePresent(c, sh, sh'); }
  }

  lemma {:induction false} RemoveTakesFrozen(c: Config, sh: Shared, pc: Pc, sh': Shared, pc': Pc, id: Id)
    requires Typed(c, sh) && Local(c, sh, pc) && NextRemove(c, sh, pc, sh', pc')
    requires id in Present(c, sh) && id !in Present(c, sh')
    ensures id in sh'.flows && sh'.flows[id].word.frozen
  {
    if pc.RemoveDelete? {
      DeleteTakes(c, sh, ShardOf(c, pc.k), pc.k, pc.id, sh');
    } else {
      SameShardsSamePresent(c, sh, sh');
    }
  }

  lemma {:induction false} TableTakesAsIs(c: Config, sh: Shared, pc: Pc, sh': Shared, pc': Pc, id: Id)
    requires NextTable(sh, pc, sh', pc') && id in Present(c, sh) && id !in Present(c, sh')
    ensures id in sh'.flows && sh'.flows[id] == sh.flows[id] && pc.TableShard?
  {
  }

  lemma {:induction false} LeavesFrozen(c: Config, sh: Shared, pc: Pc, sh': Shared, pc': Pc, id: Id)
    requires Typed(c, sh) && Local(c, sh, pc) && Next(c, sh, pc, sh', pc') && Typed(c, sh')
    requires id in Present(c, sh) && id !in Present(c, sh')
    ensures id in sh'.flows && (sh'.flows[id].word.frozen <==> !pc.TableShard? || sh.flows[id].word.frozen)
  {
    match KindOf(pc)
    case Calling => ClockTakesNone(c, sh, pc, sh', pc');
    case Opening => OpenTakesNone(c, sh, pc, sh', pc');
    case Touching => TouchTakesNone(c, sh, pc, sh', pc');
    case Ending => CloseTakesNone(c, sh, pc, sh', pc');
    case Removing => RemoveTakesFrozen(c, sh, pc, sh', pc', id);
    case Sweeping => ClockTakesNone(c, sh, pc, sh', pc');
    case Scanning => ScanTakesSwept(c, sh, pc, sh', pc', id);
    case Emptying => TableTakesAsIs(c, sh, pc, sh', pc', id);
  }

  /** A flow that leaves the table, in any step from a reachable state, is frozen from then
      on, exactly unless Table.Close took it out unfrozen: Remove and Sweep freeze first,
      Table.Close does not. */
  lemma {:induction false} FrozenOnLeaving(c: Config, s: State, t: Tid, s': State, id: Id)
    requires Reached(c, s) && Steps(c, s, t, s') && id in Present(c, s.sh) && id !in Present(c, s'.sh)
    ensures id in s.sh.flows && id in s'.sh.flows
    ensures s'.sh.flows[id].word.frozen <==> !At(s, t).TableShard? || s.sh.flows[id].word.frozen
  {
    ReachedStep(c, s, t, s');
    LeavesFrozen(c, s.sh, At(s, t), s'.sh, At(s', t), id);
  }

  // ---- A Touch after the flow has left ----

  const ONE_SHARD := Config(0, 0, _ => 0)

  /** Thread 0 opens flow 1 for key 7; thread 1 starts Table.Close and empties the shard;
      then thread 0 advances the clock and touches the flow. */
  function Late(i: nat): State {
    var none := Shared(10, 0, map[], [map[]], {}, [], map[], [], []);
    var locked := none.(held := {0});
    var drawn := locked.(lastId := 1);
    var inside := none.(lastId := 1, flows := map[1 := Flow(7, Open, Word(5, false))], shards := [map[7 := 1]]);
    var taken := inside.(shards := [map[]]);
    var later := taken.(clock := 20);
    var touched := later.(flows := map[1 := Flow(7, Open, Word(10, false))]);
    var out := TableReport(1, [1]);
    match i
    case 0 => State(none, map[])
    case 1 => State(none, map[0 := OpenEnter(7)])
    case 2 => State(locked, map[0 := OpenId(7)])
    case 3 => State(drawn, map[0 := OpenClock(7, 1)])
    case 4 => State(drawn, map[0 := OpenInsert(7, 1, 5)])
    case 5 => State(inside, map[0 := Idle])
    case 6 => State(inside, map[0 := Idle, 1 := TableShard(0)])
    case 7 => State(taken, map[0 := Idle, 1 := out])
    case 8 => State(taken, map[0 := AdvanceLoad(20), 1 := out])
    case 9 => State(taken, map[0 := AdvanceCas(20, 10), 1 := out])
    case 10 => State(later, map[0 := Idle, 1 := out])
    case 11 => State(later, map[0 := TouchClock(1), 1 := out])
    case 12 => State(later, map[0 := TouchLoad(1, 10), 1 := out])
    case 13 => State(later, map[0 := TouchCas(1, 10, Word(5, false)), 1 := out])
    case _ => State(touched, map[0 := Idle, 1 := out])
  }

  lemma OneShard()
    ensures Shards(ONE_SHARD) == 1 && forall k :: ShardOf(ONE_SHARD, k) == 0
  {
  }

  lemma LateOpens(i: nat)
    requires i < 5
    ensures Steps(ONE_SHARD, Late(i), 0, Late(i + 1))
  {
    OneShard();
  }

  lemma LateCloses(i: nat)
    requires 5 <= i < 7
    ensures Steps(ONE_SHARD, Late(i), 1, Late(i + 1))
  {
    OneShard();
    assert Enumerates([1], map[7 := 1]) by {
      assert 1 in (map[7 := 1]).Values by { assert 7 in map[7 := 1]; }
    }
  }

  lemma LateAdvances(i: nat)
    requires 7 <= i < 10
    ensures Steps(ONE_SHARD, Late(i), 0, Late(i + 1))
  {
    OneShard();
  }

  lemma LateTouches(i: nat)
    requires 10 <= i < 12
    ensures Steps(ONE_SHARD, Late(i), 0, Late(i + 1))
  {
    OneShard();
  }

  lemma LateLands(i: nat)
    requires 12 <= i < 14
    ensures Steps(ONE_SHARD, Late(i), 0, Late(i + 1))
  {
    OneShard();
  }

  lemma LateStep(i: nat)
    requires i < 14
    ensures Steps(ONE_SHARD, Late(i), if i == 5 || i == 6 then 1 else 0, Late(i + 1))
  {
    if i < 5 { LateOpens(i); } else if i < 7 { LateCloses(i); }
    else if i < 10 { LateAdvances(i); } else if i < 12 { LateTouches(i); } else { LateLands(i); }
  }

  /** The promise that Touch has no effect on a flow that has left its table fails for
      Table.Close: here the flow leaves at state 7 and a Touch moves its LastSeen after. */
  lemma TouchAfterTableClose() returns (run: seq<State>)
    ensures Run(ONE_SHARD, run) && |run| == 15
    ensures 1 !in Present(ONE_SHARD, run[7].sh) && 1 in run[7].sh.flows && 1 in run[14].sh.flows
    ensures LastSeen(run[14].sh.flows[1].word) > LastSeen(run[7].sh.flows[1].word)
  {
    run := seq(15, i requires 0 <= i < 15 => Late(i));
    OneShard();
    assert Start(ONE_SHARD, run[0]);
    forall i: nat | i + 1 < |run| ensures StepAt(ONE_SHARD, run, i) {
      LateStep(i);
      var (s, s') := (run[i], run[i + 1]);
      assert Steps(ONE_SHARD, s, if i == 5 || i == 6 then 1 else 0, s');
    }
  }
}
