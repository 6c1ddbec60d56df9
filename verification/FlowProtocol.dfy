/** flow/flow.go and flow/table.go as one concurrent protocol. Any number of threads open,
    touch, close, remove and sweep flows of a sharded table and close the table itself.
    Each atomic load, store, CAS and Or, each lock hand-over and each OnClose call is one
    step, so Touch can fall between the load and the CAS of a Sweep. */
module FlowProtocol {
  import opened Bits
  import opened Common
  import opened Ledgers

  type Key = nat
  type Id = nat

  datatype Life = Open | Closing | Closed

  /** The 64-bit word of a flow: LastSeen in nanoseconds with the lowest bit taken for the
      frozen flag, so LastSeen is 2 * ticks. */
  datatype Word = Word(ticks: int, frozen: bool)

  function LastSeen(w: Word): int { 2 * w.ticks }

  function Freeze(w: Word): Word { w.(frozen := true) }

  /** The integer the source keeps. */
  function Pack(w: Word): int { 2 * w.ticks + if w.frozen then 1 else 0 }

  function Unpack(x: int): Word { Word(x / 2, x % 2 == 1) }

  /** Every integer is one word and every word one integer, and the source's tests on the
      integer are the tests on the word: v & 1, v &^ 1, v | 1, and `now <= v` for a clock
      reading with its lowest bit cleared against an unfrozen word. */
  lemma PackingExact(w: Word, x: int, clock: int)
    ensures Unpack(Pack(w)) == w && Pack(Unpack(x)) == x
    ensures Pack(w) % 2 == (if w.frozen then 1 else 0)
    ensures Pack(w) - Pack(w) % 2 == LastSeen(w) == Pack(w.(frozen := false))
    ensures Pack(Freeze(w)) == LastSeen(w) + 1
    ensures Unpack(clock - clock % 2) == Word(clock / 2, false)
    ensures !w.frozen ==> (clock - clock % 2 <= Pack(w) <==> clock / 2 <= w.ticks)
  {
  }

  datatype Flow = Flow(key: Key, life: Life, word: Word)

  /** Two to the `bits` shards; `hash` is the seeded hash, which may be any function. */
  datatype Config = Config(bits: nat, idle: int, hash: Key -> nat)

  function Shards(c: Config): nat { Pow2(c.bits) }

  function ShardOf(c: Config, k: Key): (i: nat)
    ensures i < Shards(c)
  {
    MaskIsMod(c.hash(k), c.bits);
    And(c.hash(k), Pow2(c.bits) - 1)
  }

  /** On whose behalf Flow.Close runs: the caller's own, or a table operation that has
      taken the flow out and still has others to finish. */
  datatype Ret =
    | Direct
    | FromRemove
    | FromSweep(victims: seq<Id>, n: nat)
    | FromTable(next: nat, rest: seq<Id>)

  datatype Pc =
    | Idle
    | OpenEnter(k: Key) | OpenId(k: Key) | OpenClock(k: Key, id: Id) | OpenInsert(k: Key, id: Id, ticks: int)
    | TouchClock(id: Id) | TouchLoad(id: Id, ticks: int) | TouchCas(id: Id, ticks: int, v: Word)
    | Begin(id: Id) | BeginFreeze(id: Id)
    | CloseLoad(id: Id, ret: Ret) | CloseCas(id: Id, s: Life, ret: Ret) | CloseFreeze(id: Id, ret: Ret)
    | Report(id: Id, ret: Ret)
    | RemoveEnter(k: Key, id: Id) | RemoveFreeze(k: Key, id: Id) | RemoveDelete(k: Key, id: Id)
    | AdvanceLoad(now: int) | AdvanceCas(now: int, cur: int)
    | SweepShard(cutoff: int, i: nat, victims: seq<Id>)
    | SweepScan(cutoff: int, i: nat, todo: set<Key>, victims: seq<Id>)
    | SweepCas(cutoff: int, i: nat, todo: set<Key>, k: Key, v: Word, victims: seq<Id>)
    | SweepReport(victims: seq<Id>, n: nat)
    | TableShard(i: nat) | TableReport(next: nat, rest: seq<Id>)

  /** What the threads share; `held` are the locked shards. Then history: the flows given
      to OnClose in order, the flows a Sweep took out with its cutoff, and the flows for
      which BeginClose and Close returned true. */
  datatype Shared = Shared(
    clock: int, lastId: nat, flows: map<Id, Flow>, shards: seq<map<Key, Id>>, held: set<nat>,
    reports: seq<Id>, swept: map<Id, int>, begins: seq<Id>, closes: seq<Id>)

  function SetWord(sh: Shared, id: Id, w: Word): Shared
    requires id in sh.flows
  {
    sh.(flows := sh.flows[id := sh.flows[id].(word := w)])
  }

  function SetLife(sh: Shared, id: Id, l: Life): Shared
    requires id in sh.flows
  {
    sh.(flows := sh.flows[id := sh.flows[id].(life := l)])
  }

  function Put(m: map<Key, Id>, k: Key, id: Id): map<Key, Id> { m[k := id] }

  function Delete(sh: Shared, i: nat, k: Key): Shared
    requires i < |sh.shards|
  {
    sh.(shards := sh.shards[i := sh.shards[i] - {k}])
  }

  /** What an idle thread may do: call an operation, or NextID for something that is not
      in this table. */
  ghost predicate Call(sh: Shared, sh': Shared, pc': Pc) {
    || (sh' == sh && (pc'.OpenEnter? || pc'.RemoveEnter? || pc'.AdvanceLoad? || pc' == TableShard(0)))
    || (sh' == sh && (pc'.TouchClock? || pc'.Begin?) && pc'.id in sh.flows)
    || (sh' == sh && pc'.CloseLoad? && pc'.id in sh.flows && pc'.ret.Direct?)
    || (sh' == sh.(lastId := sh.lastId + 1) && pc'.Idle?)
  }

  /** GetOrOpen. The flow value's constructor may panic, which only gives the lock back. */
  ghost predicate NextOpen(c: Config, sh: Shared, pc: Pc, sh': Shared, pc': Pc)
    requires |sh.shards| == Shards(c)
  {
    match pc
    case OpenEnter(k) =>
      var i := ShardOf(c, k);
      && i !in sh.held
      && if k in sh.shards[i] then sh' == sh && pc' == Idle
         else sh' == sh.(held := sh.held + {i}) && pc' == OpenId(k)
    case OpenId(k) =>
      || (sh' == sh.(held := sh.held - {ShardOf(c, k)}) && pc' == Idle)
      || (sh' == sh.(lastId := sh.lastId + 1) && pc' == OpenClock(k, sh.lastId + 1))
    case OpenClock(k, id) => sh' == sh && pc' == OpenInsert(k, id, sh.clock / 2)
    case OpenInsert(k, id, ticks) =>
      var i := ShardOf(c, k);
      && sh' == sh.(flows := sh.flows[id := Flow(k, Open, Word(ticks, false))],
                    shards := sh.shards[i := Put(sh.shards[i], k, id)], held := sh.held - {i})
      && pc' == Idle
    case _ => false
  }

  ghost predicate NextTouch(sh: Shared, pc: Pc, sh': Shared, pc': Pc) {
    match pc
    case TouchClock(id) => sh' == sh && pc' == TouchLoad(id, sh.clock / 2)
    case TouchLoad(id, ticks) =>
      && id in sh.flows && sh' == sh
      && var v := sh.flows[id].word;
         pc' == if v.frozen || ticks <= v.ticks then Idle else TouchCas(id, ticks, v)
    case TouchCas(id, ticks, v) =>
      && id in sh.flows
      && if sh.flows[id].word == v then sh' == SetWord(sh, id, Word(ticks, false)) && pc' == Idle
         else sh' == sh && pc' == TouchLoad(id, ticks)
    case _ => false
  }

  /** After Flow.Close returns, either way. */
  function AfterClose(id: Id, ret: Ret): Pc { if ret.Direct? then Idle else Report(id, ret) }

  /** BeginClose, Close and Table.closed. */
  ghost predicate NextClose(sh: Shared, pc: Pc, sh': Shared, pc': Pc) {
    match pc
    case Begin(id) =>
      && id in sh.flows
      && if sh.flows[id].life.Open? then
           sh' == SetLife(sh, id, Closing).(begins := sh.begins + [id]) && pc' == BeginFreeze(id)
         else sh' == sh && pc' == Idle
    case BeginFreeze(id) => id in sh.flows && sh' == SetWord(sh, id, Freeze(sh.flows[id].word)) && pc' == Idle
    case CloseLoad(id, ret) =>
      && id in sh.flows && sh' == sh
      && pc' == if sh.flows[id].life.Closed? then AfterClose(id, ret) else CloseCas(id, sh.flows[id].life, ret)
    case CloseCas(id, s, ret) =>
      && id in sh.flows
      && if sh.flows[id].life == s then
           sh' == SetLife(sh, id, Closed).(closes := sh.closes + [id]) && pc' == CloseFreeze(id, ret)
         else sh' == sh && pc' == CloseLoad(id, ret)
    case CloseFreeze(id, ret) =>
      id in sh.flows && sh' == SetWord(sh, id, Freeze(sh.flows[id].word)) && pc' == AfterClose(id, ret)
    case Report(id, ret) =>
      && sh' == sh.(reports := sh.reports + [id])
      && pc' == match ret {
           case FromSweep(victims, n) => SweepReport(victims, n + 1)
           case FromTable(next, rest) => TableReport(next, rest)
           case _ => Idle
         }
    case _ => false
  }

  ghost predicate NextRemove(c: Config, sh: Shared, pc: Pc, sh': Shared, pc': Pc)
    requires |sh.shards| == Shards(c)
  {
    match pc
    case RemoveEnter(k, id) =>
      var i := ShardOf(c, k);
      && i !in sh.held
      && if k in sh.shards[i] && sh.shards[i][k] == id then
           sh' == sh.(held := sh.held + {i}) && pc' == RemoveFreeze(k, id)
         else sh' == sh && pc' == Idle
    case RemoveFreeze(k, id) =>
      id in sh.flows && sh' == SetWord(sh, id, Freeze(sh.flows[id].word)) && pc' == RemoveDelete(k, id)
    case RemoveDelete(k, id) =>
      var i := ShardOf(c, k);
      sh' == Delete(sh, i, k).(held := sh.held - {i}) && pc' == CloseLoad(id, FromRemove)
    case _ => false
  }

  /** Sweep outside the locks: advance the clock first, close and report the victims last. */
  ghost predicate NextSweep(c: Config, sh: Shared, pc: Pc, sh': Shared, pc': Pc) {
    match pc
    case AdvanceLoad(now) =>
      sh' == sh && pc' == if now <= sh.clock then SweepBegin(c, now) else AdvanceCas(now, sh.clock)
    case AdvanceCas(now, cur) =>
      if sh.clock == cur then sh' == sh.(clock := now) && pc' == SweepBegin(c, now)
      else sh' == sh && pc' == AdvanceLoad(now)
    case SweepReport(victims, n) =>
      sh' == sh && pc' == if n < |victims| then CloseLoad(victims[n], FromSweep(victims, n)) else Idle
    case _ => false
  }

  /** Sweep under the locks: shard by shard, decide every flow. */
  ghost predicate NextScan(sh: Shared, pc: Pc, sh': Shared, pc': Pc) {
    match pc
    case SweepShard(cutoff, i, victims) =>
      if i >= |sh.shards| then sh' == sh && pc' == SweepReport(victims, 0)
      else i !in sh.held && sh' == sh.(held := sh.held + {i}) && pc' == SweepScan(cutoff, i, sh.shards[i].Keys, victims)
    case SweepScan(cutoff, i, todo, victims) =>
      if todo == {} then sh' == sh.(held := sh.held - {i}) && pc' == SweepShard(cutoff, i + 1, victims)
      else i < |sh.shards| && exists k :: k in todo && Looks(sh, cutoff, i, todo, k, victims, sh', pc')
    case SweepCas(cutoff, i, todo, k, v, victims) =>
      && i < |sh.shards| && k in sh.shards[i] && sh.shards[i][k] in sh.flows
      && var id := sh.shards[i][k];
         if sh.flows[id].word == v then
           && sh' == Delete(SetWord(sh, id, Freeze(v)), i, k).(swept := sh.swept[id := cutoff])
           && pc' == SweepScan(cutoff, i, todo, victims + [id])
         else sh' == sh && pc' == SweepScan(cutoff, i, todo, victims)
    case _ => false
  }

  function SweepBegin(c: Config, now: int): Pc {
    if c.idle <= 0 then Idle else SweepShard(now - c.idle, 0, [])
  }

  /** The load of `expire` on the flow at key k. */
  ghost predicate Looks(sh: Shared, cutoff: int, i: nat, todo: set<Key>, k: Key, victims: seq<Id>, sh': Shared, pc': Pc)
    requires i < |sh.shards|
  {
    && k in sh.shards[i] && sh.shards[i][k] in sh.flows
    && var id := sh.shards[i][k];
       var v := sh.flows[id].word;
       if LastSeen(v) >= cutoff then sh' == sh && pc' == SweepScan(cutoff, i, todo - {k}, victims)
       else if v.frozen then
         && sh' == Delete(sh, i, k).(swept := sh.swept[id := cutoff])
         && pc' == SweepScan(cutoff, i, todo - {k}, victims + [id])
       else sh' == sh && pc' == SweepCas(cutoff, i, todo - {k}, k, v, victims)
  }

  /** All values of m, each once, in some order. */
  ghost predicate Enumerates(order: seq<Id>, m: map<Key, Id>) {
    NoDup(order) && forall id :: id in order <==> id in m.Values
  }

  /** Table.Close: empty each shard in one go, then close and report what it held. */
  ghost predicate NextTable(sh: Shared, pc: Pc, sh': Shared, pc': Pc) {
    match pc
    case TableShard(i) =>
      if i >= |sh.shards| then sh' == sh && pc' == Idle
      else
        && i !in sh.held && sh' == sh.(shards := sh.shards[i := map[]])
        && pc'.TableReport? && pc'.next == i + 1 && Enumerates(pc'.rest, sh.shards[i])
    case TableReport(next, rest) =>
      sh' == sh && pc' == if |rest| > 0 then CloseLoad(rest[0], FromTable(next, rest[1..])) else TableShard(next)
    case _ => false
  }

  /** The operation, or part of one, that a program counter belongs to. */
  datatype Kind = Calling | Opening | Touching | Ending | Removing | Sweeping | Scanning | Emptying

  function KindOf(pc: Pc): Kind {
    match pc
    case Idle => Calling
    case OpenEnter(_) => Opening case OpenId(_) => Opening case OpenClock(_, _) => Opening
    case OpenInsert(_, _, _) => Opening
    case TouchClock(_) => Touching case TouchLoad(_, _) => Touching case TouchCas(_, _, _) => Touching
    case Begin(_) => Ending case BeginFreeze(_) => Ending case CloseLoad(_, _) => Ending
    case CloseCas(_, _, _) => Ending case CloseFreeze(_, _) => Ending case Report(_, _) => Ending
    case RemoveEnter(_, _) => Removing case RemoveFreeze(_, _) => Removing case RemoveDelete(_, _) => Removing
    case AdvanceLoad(_) => Sweeping case AdvanceCas(_, _) => Sweeping case SweepReport(_, _) => Sweeping
    case SweepShard(_, _, _) => Scanning case SweepScan(_, _, _, _) => Scanning
    case SweepCas(_, _, _, _, _, _) => Scanning
    case TableShard(_) => Emptying case TableReport(_, _) => Emptying
  }

  ghost predicate Next(c: Config, sh: Shared, pc: Pc, sh': Shared, pc': Pc) {
    && |sh.shards| == Shards(c)
    && match KindOf(pc)
       case Calling => Call(sh, sh', pc')
       case Opening => NextOpen(c, sh, pc, sh', pc')
       case Touching => NextTouch(sh, pc, sh', pc')
       case Ending => NextClose(sh, pc, sh', pc')
       case Removing => NextRemove(c, sh, pc, sh', pc')
       case Sweeping => NextSweep(c, sh, pc, sh', pc')
       case Scanning => NextScan(sh, pc, sh', pc')
       case Emptying => NextTable(sh, pc, sh', pc')
  }

  datatype State = State(sh: Shared, pcs: map<Tid, Pc>)

  function At(s: State, t: Tid): Pc { if t in s.pcs then s.pcs[t] else Idle }

  ghost predicate Steps(c: Config, s: State, t: Tid, s': State) {
    s'.pcs == s.pcs[t := At(s', t)] && Next(c, s.sh, At(s, t), s'.sh, At(s', t))
  }

  /** An empty table; IDs may have been given out before. */
  ghost predicate Start(c: Config, s: State) {
    && s.sh.flows == map[] && s.sh.shards == seq(Shards(c), _ => map[]) && s.sh.held == {}
    && s.sh.reports == [] && s.sh.swept == map[] && s.sh.begins == [] && s.sh.closes == []
    && s.pcs == map[]
  }

  ghost predicate StepAt(c: Config, run: seq<State>, i: nat)
    requires i + 1 < |run|
  {
    var (s, s') := (run[i], run[i + 1]);
    exists t :: Steps(c, s, t, s')
  }

  ghost predicate Run(c: Config, run: seq<State>) {
    |run| > 0 && Start(c, run[0]) && forall i: nat :: i + 1 < |run| ==> StepAt(c, run, i)
  }

  // ---- What every step guarantees to the other threads ----

  function Rank(l: Life): nat { match l case Open => 0 case Closing => 1 case Closed => 2 }

  /** A flow only moves forward: its key is fixed, its life goes Open, Closing, Closed, its
      LastSeen does not decrease, and once frozen its word never changes again. */
  predicate Forward(f: Flow, f': Flow) {
    && f'.key == f.key
    && Rank(f.life) <= Rank(f'.life)
    && f.word.ticks <= f'.word.ticks
    && (f.word.frozen ==> f'.word == f.word)
  }

  /** The shard a thread has locked, as a set. */
  function Holds(c: Config, pc: Pc): set<nat> {
    match pc
    case OpenId(k) => {ShardOf(c, k)}
    case OpenClock(k, _) => {ShardOf(c, k)}
    case OpenInsert(k, _, _) => {ShardOf(c, k)}
    case RemoveFreeze(k, _) => {ShardOf(c, k)}
    case RemoveDelete(k, _) => {ShardOf(c, k)}
    case SweepScan(_, i, _, _) => {i}
    case SweepCas(_, i, _, _, _, _) => {i}
    case _ => {}
  }

  /** The ID a thread has drawn for a flow it has not inserted yet, as a set. */
  function Pending(pc: Pc): set<Id> {
    match pc
    case OpenClock(_, id) => {id}
    case OpenInsert(_, id, _) => {id}
    case _ => {}
  }

  ghost predicate FlowsForward(sh: Shared, pc: Pc, sh': Shared) {
    && (forall id :: id in sh.flows ==> id in sh'.flows && Forward(sh.flows[id], sh'.flows[id]))
    && (forall id :: id in sh'.flows && id !in sh.flows ==> pc.OpenInsert? && id == pc.id && sh'.flows[id].key == pc.k)
  }

  ghost predicate ShardsKept(c: Config, sh: Shared, pc: Pc, sh': Shared) {
    && |sh'.shards| == |sh.shards|
    && forall j :: 0 <= j < |sh.shards| && j !in Holds(c, pc) && j in sh.held ==> sh'.shards[j] == sh.shards[j]
  }

  ghost predicate Guarantee(c: Config, sh: Shared, pc: Pc, sh': Shared) {
    && sh.clock <= sh'.clock && sh.lastId <= sh'.lastId
    && FlowsForward(sh, pc, sh')
    && ShardsKept(c, sh, pc, sh')
  }

  // ---- What each thread may rely on at each point ----

  /** id is newer than every flow there has been for k, and not in use. */
  ghost predicate Newer(sh: Shared, k: Key, id: Id) {
    id <= sh.lastId && id !in sh.flows && forall j :: j in sh.flows && sh.flows[j].key == k ==> j < id
  }

  predicate Maps(c: Config, sh: Shared, k: Key, id: Id) {
    var i := ShardOf(c, k);
    i < |sh.shards| && k in sh.shards[i] && sh.shards[i][k] == id
  }

  predicate Absent(c: Config, sh: Shared, k: Key) {
    var i := ShardOf(c, k);
    i < |sh.shards| && k !in sh.shards[i]
  }

  ghost predicate Local(c: Config, sh: Shared, pc: Pc) {
    match pc
    case OpenId(k) => Absent(c, sh, k)
    case OpenClock(k, id) => Absent(c, sh, k) && Newer(sh, k, id)
    case OpenInsert(k, id, ticks) => Absent(c, sh, k) && Newer(sh, k, id) && 2 * ticks <= sh.clock
    case TouchClock(id) => id in sh.flows
    case TouchLoad(id, ticks) => id in sh.flows && 2 * ticks <= sh.clock
    case TouchCas(id, ticks, v) => id in sh.flows && 2 * ticks <= sh.clock && !v.frozen && v.ticks < ticks
    case Begin(id) => id in sh.flows
    case BeginFreeze(id) => id in sh.flows && !sh.flows[id].life.Open?
    case CloseLoad(id, _) => id in sh.flows
    case CloseCas(id, s, _) => id in sh.flows && !s.Closed?
    case CloseFreeze(id, _) => id in sh.flows && sh.flows[id].life.Closed?
    case Report(id, ret) => id in sh.flows && sh.flows[id].life.Closed? && !ret.Direct?
    case RemoveFreeze(k, id) => id in sh.flows && Maps(c, sh, k, id)
    case RemoveDelete(k, id) => id in sh.flows && Maps(c, sh, k, id) && sh.flows[id].word.frozen
    case AdvanceCas(now, cur) => cur < now
    case SweepScan(_, i, todo, _) => i < |sh.shards| && todo <= sh.shards[i].Keys
    case SweepCas(cutoff, i, todo, k, v, _) =>
      && i < |sh.shards| && todo <= sh.shards[i].Keys && k in sh.shards[i] && k !in todo
      && !v.frozen && LastSeen(v) < cutoff
    case _ => true
  }

  /** A shard holds only keys that hash to it, mapped to flows of that key. */
  ghost predicate ShardTyped(c: Config, flows: map<Id, Flow>, i: nat, m: map<Key, Id>) {
    forall k :: k in m ==> ShardOf(c, k) == i && m[k] in flows && flows[m[k]].key == k
  }

  ghost predicate TableTyped(c: Config, sh: Shared) {
    |sh.shards| == Shards(c) && forall i :: 0 <= i < |sh.shards| ==> ShardTyped(c, sh.flows, i, sh.shards[i])
  }

  predicate FlowTyped(sh: Shared, id: Id, f: Flow) { id <= sh.lastId && LastSeen(f.word) <= sh.clock }

  predicate SweptTyped(f: Flow, cutoff: int) { f.word.frozen && LastSeen(f.word) < cutoff }

  /** The table is consistent: every key in its masked-hash shard only, mapped to a flow of
      that key; IDs and LastSeen are behind the counters; and a swept flow is frozen with a
      LastSeen below the cutoff of the Sweep that took it. */
  ghost predicate Typed(c: Config, sh: Shared) {
    && TableTyped(c, sh)
    && (forall id :: id in sh.flows ==> FlowTyped(sh, id, sh.flows[id]))
    && (forall id :: id in sh.swept ==> id in sh.flows && SweptTyped(sh.flows[id], sh.swept[id]))
  }

  ghost predicate StepGood(c: Config, sh: Shared, pc: Pc, sh': Shared, pc': Pc) {
    Guarantee(c, sh, pc, sh') && Typed(c, sh') && Local(c, sh', pc')
  }

  /** Only the flow id changes, and it moves forward. */
  ghost predicate OneFlow(sh: Shared, id: Id, f: Flow, sh': Shared) {
    && id in sh.flows && Forward(sh.flows[id], f) && LastSeen(f.word) <= sh.clock
    && sh'.flows == sh.flows[id := f] && sh'.shards == sh.shards
    && sh'.clock == sh.clock && sh'.lastId == sh.lastId && sh'.swept == sh.swept
  }

  lemma {:induction false} OneFlowGood(c: Config, sh: Shared, pc: Pc, id: Id, f: Flow, sh': Shared)
    requires Typed(c, sh) && OneFlow(sh, id, f, sh')
    ensures Guarantee(c, sh, pc, sh') && Typed(c, sh')
  {
  }

  /** Only key k leaves shard i, which the thread has locked; its flow may be swept. */
  ghost predicate OneGone(sh: Shared, i: nat, k: Key, sh': Shared) {
    && i < |sh.shards| && sh'.flows == sh.flows && sh'.shards == sh.shards[i := sh.shards[i] - {k}]
    && sh'.clock == sh.clock && sh'.lastId == sh.lastId
  }

  lemma {:induction false} OneGoneGood(c: Config, sh: Shared, pc: Pc, i: nat, k: Key, sh': Shared)
    requires Typed(c, sh) && OneGone(sh, i, k, sh') && i in Holds(c, pc)
    requires forall id :: id in sh'.swept ==> id in sh.flows && SweptTyped(sh.flows[id], sh'.swept[id])
    ensures Guarantee(c, sh, pc, sh') && Typed(c, sh')
  {
    forall j | 0 <= j < |sh'.shards| ensures ShardTyped(c, sh'.flows, j, sh'.shards[j]) {
      assert ShardTyped(c, sh.flows, j, sh.shards[j]);
    }
  }

  lemma {:induction false} CallGood(c: Config, sh: Shared, sh': Shared, pc': Pc)
    requires Typed(c, sh) && Call(sh, sh', pc')
    ensures StepGood(c, sh, Idle, sh', pc')
  {
  }

  /** No flow and no shard changes; at most an ID is drawn. */
  predicate Still(sh: Shared, sh': Shared) {
    && sh'.flows == sh.flows && sh'.shards == sh.shards && sh'.clock == sh.clock && sh'.swept == sh.swept
    && sh.lastId <= sh'.lastId
  }

  lemma {:induction false} StillGood(c: Config, sh: Shared, pc: Pc, sh': Shared)
    requires Typed(c, sh) && Still(sh, sh')
    ensures Guarantee(c, sh, pc, sh') && Typed(c, sh')
  {
  }

  lemma {:induction false} OpenInsertGood(c: Config, sh: Shared, pc: Pc, sh': Shared, pc': Pc)
    requires Typed(c, sh) && Local(c, sh, pc) && pc.OpenInsert? && NextOpen(c, sh, pc, sh', pc')
    ensures StepGood(c, sh, pc, sh', pc')
  {
    forall j | 0 <= j < |sh'.shards| ensures ShardTyped(c, sh'.flows, j, sh'.shards[j]) {
      assert ShardTyped(c, sh.flows, j, sh.shards[j]);
    }
  }

  lemma {:induction false} OpenLocal(c: Config, sh: Shared, pc: Pc, sh': Shared, pc': Pc)
    requires Typed(c, sh) && Local(c, sh, pc) && !pc.OpenInsert? && NextOpen(c, sh, pc, sh', pc')
    ensures Still(sh, sh') && Local(c, sh', pc')
  {
  }

  lemma {:induction false} OpenGood(c: Config, sh: Shared, pc: Pc, sh': Shared, pc': Pc)
    requires Typed(c, sh) && Local(c, sh, pc) && NextOpen(c, sh, pc, sh', pc')
    ensures StepGood(c, sh, pc, sh', pc')
  {
    if pc.OpenInsert? {
      OpenInsertGood(c, sh, pc, sh', pc');
    } else {
      OpenLocal(c, sh, pc, sh', pc');
      StillGood(c, sh, pc, sh');
    }
  }

  lemma {:induction false} TouchGood(c: Config, sh: Shared, pc: Pc, sh': Shared, pc': Pc)
    requires Typed(c, sh) && Local(c, sh, pc) && NextTouch(sh, pc, sh', pc')
    ensures StepGood(c, sh, pc, sh', pc')
  {
    if pc.TouchCas? && sh' != sh {
      OneFlowGood(c, sh, pc, pc.id, sh'.flows[pc.id], sh');
    }
  }

  /** A closing step changes one flow's life or freezes it, or no flow at all. */
  lemma {:induction false} CloseChanges(c: Config, sh: Shared, pc: Pc, sh': Shared, pc': Pc)
    requires Typed(c, sh) && Local(c, sh, pc) && NextClose(sh, pc, sh', pc')
    ensures Still(sh, sh') || (!pc.Report? && pc.id in sh'.flows && OneFlow(sh, pc.id, sh'.flows[pc.id], sh'))
  {
    if !pc.Report? { assert FlowTyped(sh, pc.id, sh.flows[pc.id]); }
  }

  lemma {:induction false} CloseLocal(c: Config, sh: Shared, pc: Pc, sh': Shared, pc': Pc)
    requires Local(c, sh, pc) && NextClose(sh, pc, sh', pc')
    ensures Local(c, sh', pc')
  {
  }

  lemma {:induction false} CloseGood(c: Config, sh: Shared, pc: Pc, sh': Shared, pc': Pc)
    requires Typed(c, sh) && Local(c, sh, pc) && NextClose(sh, pc, sh', pc')
    ensures StepGood(c, sh, pc, sh', pc')
  {
    CloseLocal(c, sh, pc, sh', pc');
    CloseChanges(c, sh, pc, sh', pc');
    if Still(sh, sh') {
      StillGood(c, sh, pc, sh');
    } else {
      OneFlowGood(c, sh, pc, pc.id, sh'.flows[pc.id], sh');
    }
  }

  lemma {:induction false} RemoveGood(c: Config, sh: Shared, pc: Pc, sh': Shared, pc': Pc)
    requires Typed(c, sh) && Local(c, sh, pc) && NextRemove(c, sh, pc, sh', pc')
    ensures StepGood(c, sh, pc, sh', pc')
  {
    match pc
    case RemoveEnter(k, id) => assert ShardTyped(c, sh.flows, ShardOf(c, k), sh.shards[ShardOf(c, k)]);
    case RemoveFreeze(k, id) => OneFlowGood(c, sh, pc, id, sh'.flows[id], sh');
    case RemoveDelete(k, id) => OneGoneGood(c, sh, pc, ShardOf(c, k), k, sh');
  }

  lemma {:induction false} LooksGood(c: Config, sh: Shared, pc: Pc, k: Key, sh': Shared, pc': Pc)
    requires Typed(c, sh) && Local(c, sh, pc) && pc.SweepScan? && k in pc.todo
    requires Looks(sh, pc.cutoff, pc.i, pc.todo, k, pc.victims, sh', pc')
    ensures StepGood(c, sh, pc, sh', pc')
  {
    if sh' != sh {
      OneGoneGood(c, sh, pc, pc.i, k, sh');
    }
  }

  lemma {:induction false} SweepCasGood(c: Config, sh: Shared, pc: Pc, sh': Shared, pc': Pc)
    requires Typed(c, sh) && Local(c, sh, pc) && pc.SweepCas? && NextScan(sh, pc, sh', pc')
    ensures StepGood(c, sh, pc, sh', pc')
  {
    var id := sh.shards[pc.i][pc.k];
    if sh.flows[id].word == pc.v {
      var mid := SetWord(sh, id, Freeze(pc.v));
      OneFlowGood(c, sh, pc, id, mid.flows[id], mid);
      OneGoneGood(c, mid, pc, pc.i, pc.k, sh');
    }
  }

  lemma {:induction false} SweepGood(c: Config, sh: Shared, pc: Pc, sh': Shared, pc': Pc)
    requires Typed(c, sh) && Local(c, sh, pc) && OwesFlows(sh, pc) && NextSweep(c, sh, pc, sh', pc')
    ensures StepGood(c, sh, pc, sh', pc')
  {
    if pc.SweepReport? && pc.n < |pc.victims| { assert pc.victims[pc.n] == Owes(pc)[0]; }
  }

  lemma {:induction false} ScanGood(c: Config, sh: Shared, pc: Pc, sh': Shared, pc': Pc)
    requires Typed(c, sh) && Local(c, sh, pc) && NextScan(sh, pc, sh', pc')
    ensures StepGood(c, sh, pc, sh', pc')
  {
    if pc.SweepCas? {
      SweepCasGood(c, sh, pc, sh', pc');
    } else if pc.SweepScan? && pc.todo != {} {
      var k :| k in pc.todo && Looks(sh, pc.cutoff, pc.i, pc.todo, k, pc.victims, sh', pc');
      LooksGood(c, sh, pc, k, sh', pc');
    }
  }

  lemma {:induction false} TableGood(c: Config, sh: Shared, pc: Pc, sh': Shared, pc': Pc)
    requires Typed(c, sh) && Local(c, sh, pc) && OwesFlows(sh, pc) && NextTable(sh, pc, sh', pc')
    ensures StepGood(c, sh, pc, sh', pc')
  {
    if pc.TableReport? && |pc.rest| > 0 { assert pc.rest[0] in Owes(pc); }
    forall j | 0 <= j < |sh'.shards| ensures ShardTyped(c, sh'.flows, j, sh'.shards[j]) {
      assert ShardTyped(c, sh.flows, j, sh.shards[j]);
    }
  }

  /** The flows a thread has taken out of the table and not yet reported, in order. */
  function Owes(pc: Pc): seq<Id> {
    match pc
    case CloseLoad(id, ret) => RetOwes(id, ret)
    case CloseCas(id, _, ret) => RetOwes(id, ret)
    case CloseFreeze(id, ret) => RetOwes(id, ret)
    case Report(id, ret) => RetOwes(id, ret)
    case SweepShard(_, _, victims) => victims
    case SweepScan(_, _, _, victims) => victims
    case SweepCas(_, _, _, _, _, victims) => victims
    case SweepReport(victims, n) => if n <= |victims| then victims[n..] else []
    case TableReport(_, rest) => rest
    case _ => []
  }

  function RetOwes(id: Id, ret: Ret): seq<Id> {
    match ret
    case Direct => []
    case FromRemove => [id]
    case FromSweep(victims, n) => if n < |victims| then [id] + victims[n + 1..] else [id]
    case FromTable(_, rest) => [id] + rest
  }

  /** What a thread owes are flows. */
  ghost predicate OwesFlows(sh: Shared, pc: Pc) { forall id :: id in Owes(pc) ==> id in sh.flows }

  /** Every step keeps the table consistent, leaves the thread with what it relies on, and
      gives the others what they rely on. */
  lemma {:induction false} NextGood(c: Config, sh: Shared, pc: Pc, sh': Shared, pc': Pc)
    requires Typed(c, sh) && Local(c, sh, pc) && OwesFlows(sh, pc) && Next(c, sh, pc, sh', pc')
    ensures StepGood(c, sh, pc, sh', pc')
  {
    match KindOf(pc)
    case Calling => CallGood(c, sh, sh', pc');
    case Opening => OpenGood(c, sh, pc, sh', pc');
    case Touching => TouchGood(c, sh, pc, sh', pc');
    case Ending => CloseGood(c, sh, pc, sh', pc');
    case Removing => RemoveGood(c, sh, pc, sh', pc');
    case Sweeping => SweepGood(c, sh, pc, sh', pc');
    case Scanning => ScanGood(c, sh, pc, sh', pc');
    case Emptying => TableGood(c, sh, pc, sh', pc');
  }

  // ---- Locks and drawn IDs belong to one thread ----

  ghost predicate LockEffect(c: Config, sh: Shared, pc: Pc, sh': Shared, pc': Pc) {
    && ( || (Holds(c, pc') == Holds(c, pc) && sh'.held == sh.held)
         || (Holds(c, pc) == {} && Holds(c, pc') !! sh.held && sh'.held == sh.held + Holds(c, pc'))
         || (Holds(c, pc') == {} && sh'.held == sh.held - Holds(c, pc)))
    && (Pending(pc') == {} || Pending(pc') == Pending(pc)
        || (Pending(pc') == {sh'.lastId} && sh'.lastId == sh.lastId + 1))
  }

  lemma {:induction false} OpenLocks(c: Config, sh: Shared, pc: Pc, sh': Shared, pc': Pc)
    requires |sh.shards| == Shards(c) && NextOpen(c, sh, pc, sh', pc') && Holds(c, pc) <= sh.held
    ensures LockEffect(c, sh, pc, sh', pc')
  {
  }

  lemma {:induction false} RemoveLocks(c: Config, sh: Shared, pc: Pc, sh': Shared, pc': Pc)
    requires |sh.shards| == Shards(c) && NextRemove(c, sh, pc, sh', pc') && Holds(c, pc) <= sh.held
    ensures LockEffect(c, sh, pc, sh', pc')
  {
  }

  lemma {:induction false} ScanLocks(c: Config, sh: Shared, pc: Pc, sh': Shared, pc': Pc)
    requires NextScan(sh, pc, sh', pc') && Holds(c, pc) <= sh.held
    ensures LockEffect(c, sh, pc, sh', pc')
  {
    if pc.SweepScan? && pc.todo != {} {
      var k :| k in pc.todo && Looks(sh, pc.cutoff, pc.i, pc.todo, k, pc.victims, sh', pc');
      LooksLocks(c, sh, pc, k, sh', pc');
    }
  }

  lemma {:induction false} LooksLocks(c: Config, sh: Shared, pc: Pc, k: Key, sh': Shared, pc': Pc)
    requires pc.SweepScan? && pc.i < |sh.shards| && Looks(sh, pc.cutoff, pc.i, pc.todo, k, pc.victims, sh', pc')
    ensures sh'.held == sh.held && Holds(c, pc') == Holds(c, pc) && Pending(pc') == Pending(pc)
  {
  }

  lemma {:induction false} SweepLocks(c: Config, sh: Shared, pc: Pc, sh': Shared, pc': Pc)
    requires NextSweep(c, sh, pc, sh', pc')
    ensures LockEffect(c, sh, pc, sh', pc')
  {
  }

  /** Touch, the closing steps, Table.Close and calls never hold a lock across steps. */
  lemma {:induction false} TouchLocks(c: Config, sh: Shared, pc: Pc, sh': Shared, pc': Pc)
    requires NextTouch(sh, pc, sh', pc')
    ensures LockEffect(c, sh, pc, sh', pc')
  {
  }

  lemma {:induction false} CloseLocks(c: Config, sh: Shared, pc: Pc, sh': Shared, pc': Pc)
    requires NextClose(sh, pc, sh', pc')
    ensures LockEffect(c, sh, pc, sh', pc')
  {
  }

  lemma {:induction false} OtherLocks(c: Config, sh: Shared, pc: Pc, sh': Shared, pc': Pc)
    requires (pc.Idle? && Call(sh, sh', pc')) || NextTable(sh, pc, sh', pc')
    ensures LockEffect(c, sh, pc, sh', pc')
  {
  }

  lemma {:induction false} LockStep(c: Config, sh: Shared, pc: Pc, sh': Shared, pc': Pc)
    requires Next(c, sh, pc, sh', pc') && Holds(c, pc) <= sh.held
    ensures LockEffect(c, sh, pc, sh', pc')
  {
    match KindOf(pc)
    case Opening => OpenLocks(c, sh, pc, sh', pc');
    case Removing => RemoveLocks(c, sh, pc, sh', pc');
    case Sweeping => SweepLocks(c, sh, pc, sh', pc');
    case Scanning => ScanLocks(c, sh, pc, sh', pc');
    case Touching => TouchLocks(c, sh, pc, sh', pc');
    case Ending => CloseLocks(c, sh, pc, sh', pc');
    case Calling => OtherLocks(c, sh, pc, sh', pc');
    case Emptying => OtherLocks(c, sh, pc, sh', pc');
  }

  ghost predicate Locks(c: Config, s: State) {
    && (forall t :: Holds(c, At(s, t)) <= s.sh.held)
    && (forall t, u :: t != u ==> Holds(c, At(s, t)) !! Holds(c, At(s, u)))
    && (forall t, u :: t != u ==> Pending(At(s, t)) !! Pending(At(s, u)))
  }

  ghost predicate Locals(c: Config, s: State) {
    Typed(c, s.sh) && forall t :: Local(c, s.sh, At(s, t))
  }

  /** What another thread relies on survives a step. */
  lemma {:induction false} LocalStable(c: Config, sh: Shared, pc: Pc, sh': Shared, q: Pc)
    requires Typed(c, sh) && Guarantee(c, sh, pc, sh') && Local(c, sh, q)
    requires Holds(c, q) <= sh.held && Holds(c, q) !! Holds(c, pc) && Pending(q) !! Pending(pc)
    ensures Local(c, sh', q)
  {
  }

  lemma {:induction false} PendingKnown(c: Config, sh: Shared, pc: Pc)
    requires Local(c, sh, pc)
    ensures forall id :: id in Pending(pc) ==> id <= sh.lastId
  {
  }

  lemma {:induction false} KeepsLocks(c: Config, s: State, t: Tid, s': State)
    requires Locks(c, s) && Locals(c, s) && Steps(c, s, t, s')
    ensures Locks(c, s')
  {
    LockStep(c, s.sh, At(s, t), s'.sh, At(s', t));
    forall u ensures forall id :: id in Pending(At(s, u)) ==> id <= s.sh.lastId {
      PendingKnown(c, s.sh, At(s, u));
    }
    assert forall u :: u != t ==> At(s', u) == At(s, u);
  }

  // ---- Exactly-once leave ----

  /** id is the flow the table currently has for its key. */
  predicate InTable(c: Config, sh: Shared, id: Id) { id in sh.flows && Maps(c, sh, sh.flows[id].key, id) }

  /** The flows currently in the table. */
  function Present(c: Config, sh: Shared): set<Id> { set id | id in sh.flows && InTable(c, sh, id) }

  // What a step does to the ledger of flows, in the terms of one thread: nothing, ...
  ghost predicate StaysPut(c: Config, sh: Shared, pc: Pc, sh': Shared, pc': Pc) {
    sh'.flows.Keys == sh.flows.Keys && Present(c, sh') == Present(c, sh) && sh'.reports == sh.reports
      && Owes(pc') == Owes(pc)
  }

  /** ... a new flow enters the table, ... */
  ghost predicate ComesIn(c: Config, sh: Shared, pc: Pc, sh': Shared, pc': Pc, id: Id) {
    && id !in sh.flows.Keys && sh'.flows.Keys == sh.flows.Keys + {id} && Present(c, sh') == Present(c, sh) + {id}
    && sh'.reports == sh.reports && Owes(pc') == Owes(pc)
  }

  /** ... flows leave the table and become the thread's to report, ... */
  ghost predicate GoesOut(c: Config, sh: Shared, pc: Pc, sh': Shared, pc': Pc, out: seq<Id>) {
    && sh'.flows.Keys == sh.flows.Keys && Departs(Present(c, sh), out, Present(c, sh'))
    && sh'.reports == sh.reports && Owes(pc') == Owes(pc) + out
  }

  /** ... or the thread reports one. */
  ghost predicate Tells(c: Config, sh: Shared, pc: Pc, sh': Shared, pc': Pc) {
    && sh'.flows.Keys == sh.flows.Keys && Present(c, sh') == Present(c, sh)
    && |Owes(pc)| > 0 && sh'.reports == sh.reports + [Owes(pc)[0]] && Owes(pc') == Owes(pc)[1..]
  }

  ghost predicate LeaveEffect(c: Config, sh: Shared, pc: Pc, sh': Shared, pc': Pc) {
    || StaysPut(c, sh, pc, sh', pc')
    || (exists id :: ComesIn(c, sh, pc, sh', pc', id))
    || (exists out :: GoesOut(c, sh, pc, sh', pc', out))
    || Tells(c, sh, pc, sh', pc')
  }

  ghost predicate Departs(home: set<Id>, out: seq<Id>, home': set<Id>) {
    NoDup(out) && (forall x :: x in out ==> x in home) && (forall x :: x in home' <==> x in home && x !in out)
  }

  /** The shards and the keys of flows are unchanged. */
  ghost predicate SameShards(sh: Shared, sh': Shared) {
    && sh'.shards == sh.shards && sh'.flows.Keys == sh.flows.Keys
    && forall id :: id in sh.flows ==> sh'.flows[id].key == sh.flows[id].key
  }

  lemma {:induction false} SameShardsSamePresent(c: Config, sh: Shared, sh': Shared)
    requires SameShards(sh, sh')
    ensures sh'.flows.Keys == sh.flows.Keys && Present(c, sh') == Present(c, sh)
  {
  }

  lemma {:induction false} OpenLeaves(c: Config, sh: Shared, pc: Pc, sh': Shared, pc': Pc)
    requires Typed(c, sh) && Local(c, sh, pc) && NextOpen(c, sh, pc, sh', pc')
    ensures LeaveEffect(c, sh, pc, sh', pc')
  {
    if pc.OpenInsert? {
      EntersOne(c, sh, pc, sh', pc');
      assert ComesIn(c, sh, pc, sh', pc', pc.id);
    } else {
      SameShardsSamePresent(c, sh, sh');
      assert StaysPut(c, sh, pc, sh', pc');
    }
  }

  lemma {:induction false} EntersOne(c: Config, sh: Shared, pc: Pc, sh': Shared, pc': Pc)
    requires Typed(c, sh) && Local(c, sh, pc) && pc.OpenInsert? && NextOpen(c, sh, pc, sh', pc')
    ensures pc.id !in sh.flows && sh'.flows.Keys == sh.flows.Keys + {pc.id}
    ensures Present(c, sh') == Present(c, sh) + {pc.id}
  {
    forall j ensures InTable(c, sh', j) <==> InTable(c, sh, j) || j == pc.id {
      if j in sh.flows && ShardOf(c, sh.flows[j].key) != ShardOf(c, pc.k) {
        assert sh.flows[j].key != pc.k;
      }
    }
  }

  /** Key k, mapped to id, is deleted from its shard. */
  lemma {:induction false} DeleteTakes(c: Config, sh: Shared, i: nat, k: Key, id: Id, sh': Shared)
    requires Typed(c, sh) && i < |sh.shards| && k in sh.shards[i] && sh.shards[i][k] == id
    requires sh'.shards == sh.shards[i := sh.shards[i] - {k}] && sh'.flows.Keys == sh.flows.Keys
    requires forall j :: j in sh.flows ==> sh'.flows[j].key == sh.flows[j].key
    ensures Departs(Present(c, sh), [id], Present(c, sh'))
  {
    assert ShardTyped(c, sh.flows, i, sh.shards[i]);
    forall j ensures InTable(c, sh', j) <==> InTable(c, sh, j) && j != id {
      if j in sh.flows && j != id && ShardOf(c, sh.flows[j].key) == i {
        assert InTable(c, sh, j) ==> sh.flows[j].key != k;
      }
    }
  }

  lemma {:induction false} RemoveLeaves(c: Config, sh: Shared, pc: Pc, sh': Shared, pc': Pc)
    requires Typed(c, sh) && Local(c, sh, pc) && NextRemove(c, sh, pc, sh', pc')
    ensures LeaveEffect(c, sh, pc, sh', pc')
  {
    if pc.RemoveDelete? {
      DeleteTakes(c, sh, ShardOf(c, pc.k), pc.k, pc.id, sh');
      assert GoesOut(c, sh, pc, sh', pc', [pc.id]);
    } else {
      SameShardsSamePresent(c, sh, sh');
      assert StaysPut(c, sh, pc, sh', pc');
    }
  }

  lemma {:induction false} LooksLeaves(c: Config, sh: Shared, pc: Pc, k: Key, sh': Shared, pc': Pc)
    requires Typed(c, sh) && Local(c, sh, pc) && pc.SweepScan? && k in pc.todo
    requires Looks(sh, pc.cutoff, pc.i, pc.todo, k, pc.victims, sh', pc')
    ensures LeaveEffect(c, sh, pc, sh', pc')
  {
    if sh' != sh {
      var id := sh.shards[pc.i][k];
      DeleteTakes(c, sh, pc.i, k, id, sh');
      assert GoesOut(c, sh, pc, sh', pc', [id]);
    } else {
      assert StaysPut(c, sh, pc, sh', pc');
    }
  }

  lemma {:induction false} SweepCasLeaves(c: Config, sh: Shared, pc: Pc, sh': Shared, pc': Pc)
    requires Typed(c, sh) && Local(c, sh, pc) && pc.SweepCas? && NextScan(sh, pc, sh', pc')
    ensures LeaveEffect(c, sh, pc, sh', pc')
  {
    var id := sh.shards[pc.i][pc.k];
    if sh.flows[id].word == pc.v {
      DeleteTakes(c, sh, pc.i, pc.k, id, sh');
      assert GoesOut(c, sh, pc, sh', pc', [id]);
    } else {
      SameShardsSamePresent(c, sh, sh');
      assert StaysPut(c, sh, pc, sh', pc');
    }
  }

  lemma {:induction false} ScanLeaves(c: Config, sh: Shared, pc: Pc, sh': Shared, pc': Pc)
    requires Typed(c, sh) && Local(c, sh, pc) && NextScan(sh, pc, sh', pc')
    ensures LeaveEffect(c, sh, pc, sh', pc')
  {
    if pc.SweepCas? {
      SweepCasLeaves(c, sh, pc, sh', pc');
    } else if pc.SweepScan? && pc.todo != {} {
      var k :| k in pc.todo && Looks(sh, pc.cutoff, pc.i, pc.todo, k, pc.victims, sh', pc');
      LooksLeaves(c, sh, pc, k, sh', pc');
    } else {
      SameShardsSamePresent(c, sh, sh');
      assert StaysPut(c, sh, pc, sh', pc');
    }
  }

  lemma {:induction false} SweepLeaves(c: Config, sh: Shared, pc: Pc, sh': Shared, pc': Pc)
    requires NextSweep(c, sh, pc, sh', pc')
    ensures LeaveEffect(c, sh, pc, sh', pc')
  {
    SameShardsSamePresent(c, sh, sh');
    assert pc.SweepReport? && pc.n < |pc.victims| ==> pc.victims[pc.n..] == [pc.victims[pc.n]] + pc.victims[pc.n + 1..];
    assert StaysPut(c, sh, pc, sh', pc');
  }

  lemma {:induction false} EmptyTakes(c: Config, sh: Shared, i: nat, order: seq<Id>, sh': Shared)
    requires Typed(c, sh) && i < |sh.shards| && Enumerates(order, sh.shards[i])
    requires sh' == sh.(shards := sh.shards[i := map[]])
    ensures Departs(Present(c, sh), order, Present(c, sh'))
  {
    assert ShardTyped(c, sh.flows, i, sh.shards[i]);
    forall id | InTable(c, sh, id) && id in order ensures !InTable(c, sh', id) {
      var k :| k in sh.shards[i] && sh.shards[i][k] == id;
    }
  }

  lemma {:induction false} TableLeaves(c: Config, sh: Shared, pc: Pc, sh': Shared, pc': Pc)
    requires Typed(c, sh) && NextTable(sh, pc, sh', pc')
    ensures LeaveEffect(c, sh, pc, sh', pc')
  {
    if pc.TableShard? && pc.i < |sh.shards| {
      EmptyTakes(c, sh, pc.i, pc'.rest, sh');
      assert GoesOut(c, sh, pc, sh', pc', pc'.rest);
    } else {
      assert pc.TableReport? && |pc.rest| > 0 ==> pc.rest == [pc.rest[0]] + pc.rest[1..];
      assert StaysPut(c, sh, pc, sh', pc');
    }
  }

  lemma {:induction false} CloseLeaves(c: Config, sh: Shared, pc: Pc, sh': Shared, pc': Pc)
    requires Local(c, sh, pc) && NextClose(sh, pc, sh', pc')
    ensures LeaveEffect(c, sh, pc, sh', pc')
  {
    CloseSameShards(sh, pc, sh', pc');
    SameShardsSamePresent(c, sh, sh');
    CloseOwes(c, sh, pc, sh', pc');
    if pc.Report? {
      assert Tells(c, sh, pc, sh', pc');
    } else {
      assert StaysPut(c, sh, pc, sh', pc');
    }
  }

  lemma {:induction false} CloseSameShards(sh: Shared, pc: Pc, sh': Shared, pc': Pc)
    requires NextClose(sh, pc, sh', pc')
    ensures SameShards(sh, sh')
  {
  }

  /** Only the report itself changes what a closing thread owes. */
  lemma {:induction false} CloseOwes(c: Config, sh: Shared, pc: Pc, sh': Shared, pc': Pc)
    requires Local(c, sh, pc) && NextClose(sh, pc, sh', pc')
    ensures if pc.Report? then |Owes(pc)| > 0 && sh'.reports == sh.reports + [Owes(pc)[0]] && Owes(pc') == Owes(pc)[1..]
            else sh'.reports == sh.reports && Owes(pc') == Owes(pc)
  {
    if pc.Report? {
      ReportOwes(pc.id, pc.ret);
    } else {
      StillOwes(sh, pc, sh', pc');
    }
  }

  lemma {:induction false} StillOwes(sh: Shared, pc: Pc, sh': Shared, pc': Pc)
    requires NextClose(sh, pc, sh', pc') && !pc.Report?
    ensures sh'.reports == sh.reports && Owes(pc') == Owes(pc)
  {
  }

  /** What is left to report after this one. */
  lemma {:induction false} ReportOwes(id: Id, ret: Ret)
    requires !ret.Direct?
    ensures |RetOwes(id, ret)| > 0 && RetOwes(id, ret)[0] == id
    ensures match ret
            case FromSweep(victims, n) => Owes(SweepReport(victims, n + 1)) == RetOwes(id, ret)[1..]
            case FromTable(next, rest) => Owes(TableReport(next, rest)) == RetOwes(id, ret)[1..]
            case FromRemove => RetOwes(id, ret)[1..] == []
            case Direct => true
  {
  }

  lemma {:induction false} CallLeaves(c: Config, sh: Shared, pc: Pc, sh': Shared, pc': Pc)
    requires pc.Idle? && Call(sh, sh', pc')
    ensures StaysPut(c, sh, pc, sh', pc')
  {
    SameShardsSamePresent(c, sh, sh');
  }

  lemma {:induction false} TouchLeaves(c: Config, sh: Shared, pc: Pc, sh': Shared, pc': Pc)
    requires NextTouch(sh, pc, sh', pc')
    ensures StaysPut(c, sh, pc, sh', pc')
  {
    SameShardsSamePresent(c, sh, sh');
  }

  lemma {:induction false} LeaveStep(c: Config, sh: Shared, pc: Pc, sh': Shared, pc': Pc)
    requires Typed(c, sh) && Local(c, sh, pc) && Next(c, sh, pc, sh', pc')
    ensures LeaveEffect(c, sh, pc, sh', pc')
  {
    match KindOf(pc)
    case Calling => CallLeaves(c, sh, pc, sh', pc');
    case Opening => OpenLeaves(c, sh, pc, sh', pc');
    case Touching => TouchLeaves(c, sh, pc, sh', pc');
    case Ending => CloseLeaves(c, sh, pc, sh', pc');
    case Removing => RemoveLeaves(c, sh, pc, sh', pc');
    case Sweeping => SweepLeaves(c, sh, pc, sh', pc');
    case Scanning => ScanLeaves(c, sh, pc, sh', pc');
    case Emptying => TableLeaves(c, sh, pc, sh', pc');
  }

  /** Who has which flow. */
  function Book(c: Config, s: State): Ledger {
    Ledger(s.sh.flows.Keys, Present(c, s.sh), s.sh.reports, map t | t in s.pcs :: Owes(s.pcs[t]))
  }

  /** Every flow created is in exactly one place: in the table, on exactly one thread's
      list, once, or reported to OnClose, once. */
  ghost predicate LeavesOnce(c: Config, s: State) { OnePlace(Book(c, s)) }

  lemma {:induction false} KeepsLeavesOnce(c: Config, s: State, t: Tid, s': State)
    requires LeavesOnce(c, s) && Locals(c, s) && Steps(c, s, t, s')
    ensures LeavesOnce(c, s')
  {
    LeaveStep(c, s.sh, At(s, t), s'.sh, At(s', t));
    BookMoves(c, s, t, s');
    MovesKeep(Book(c, s), t, Book(c, s'));
  }

  lemma {:induction false} BookMoves(c: Config, s: State, t: Tid, s': State)
    requires s'.pcs == s.pcs[t := At(s', t)] && LeaveEffect(c, s.sh, At(s, t), s'.sh, At(s', t))
    ensures Moves(Book(c, s), t, Book(c, s'))
  {
    var (b, b') := (Book(c, s), Book(c, s'));
    assert ListOf(b, t) == Owes(At(s, t));
    assert b'.lists == b.lists[t := Owes(At(s', t))];
    var (sh, pc, sh', pc') := (s.sh, At(s, t), s'.sh, At(s', t));
    if StaysPut(c, sh, pc, sh', pc') {
      assert Same(b, t, b');
    } else if id :| ComesIn(c, sh, pc, sh', pc', id) {
      assert Enters(b, t, b', id);
    } else if out :| GoesOut(c, sh, pc, sh', pc', out) {
      assert TakesOut(b, t, b', out);
    } else {
      assert Finishes(b, t, b');
    }
  }

  lemma {:induction false} KeepsLocals(c: Config, s: State, t: Tid, s': State)
    requires Locks(c, s) && Locals(c, s) && LeavesOnce(c, s) && Steps(c, s, t, s')
    ensures Locals(c, s') && Guarantee(c, s.sh, At(s, t), s'.sh)
  {
    assert OwesFlows(s.sh, At(s, t)) by {
      assert ListOf(Book(c, s), t) == Owes(At(s, t));
      assert forall id: Id :: id in Owes(At(s, t)) ==> On(Book(c, s), t, id);
    }
    NextGood(c, s.sh, At(s, t), s'.sh, At(s', t));
    forall u ensures Local(c, s'.sh, At(s', u)) {
      if u != t {
        assert At(s', u) == At(s, u);
        LocalStable(c, s.sh, At(s, t), s'.sh, At(s, u));
      }
    }
  }

  // ---- The close state machine ----

  /** A caller between its successful CAS and its freeze. */
  predicate Freezing(pc: Pc, id: Id) { (pc.BeginFreeze? || pc.CloseFreeze?) && pc.id == id }

  /** Lives, wins and reports are unchanged, and a new flow is open. */
  ghost predicate LivesSame(sh: Shared, pc: Pc, sh': Shared) {
    && sh'.begins == sh.begins && sh'.closes == sh.closes && sh'.reports == sh.reports
    && (forall id :: id in sh.flows ==> id in sh'.flows && sh'.flows[id].life == sh.flows[id].life && !Freezing(pc, id))
    && (forall id :: id in sh'.flows && id !in sh.flows ==> sh'.flows[id].life.Open?)
  }

  lemma {:induction false} OpenLives(c: Config, sh: Shared, pc: Pc, sh': Shared, pc': Pc)
    requires |sh.shards| == Shards(c) && Local(c, sh, pc) && NextOpen(c, sh, pc, sh', pc')
    ensures LivesSame(sh, pc, sh')
  {
  }

  lemma {:induction false} TouchLives(sh: Shared, pc: Pc, sh': Shared, pc': Pc)
    requires NextTouch(sh, pc, sh', pc')
    ensures LivesSame(sh, pc, sh')
  {
  }

  lemma {:induction false} RemoveLives(c: Config, sh: Shared, pc: Pc, sh': Shared, pc': Pc)
    requires |sh.shards| == Shards(c) && NextRemove(c, sh, pc, sh', pc')
    ensures LivesSame(sh, pc, sh')
  {
  }

  lemma {:induction false} SweepLives(c: Config, sh: Shared, pc: Pc, sh': Shared, pc': Pc)
    requires NextSweep(c, sh, pc, sh', pc') || NextTable(sh, pc, sh', pc')
    ensures LivesSame(sh, pc, sh')
  {
  }

  lemma {:induction false} ScanLives(sh: Shared, pc: Pc, sh': Shared, pc': Pc)
    requires NextScan(sh, pc, sh', pc')
    ensures LivesSame(sh, pc, sh')
  {
  }

  /** Exactly the closing steps move a life, and whoever moves it freezes next. */
  ghost predicate LifeMoves(sh: Shared, pc: Pc, sh': Shared, pc': Pc, id: Id, life: Life) {
    && id in sh.flows && Rank(sh.flows[id].life) < Rank(life) && Freezing(pc', id)
    && sh'.flows == sh.flows[id := sh.flows[id].(life := life)] && sh'.reports == sh.reports
    && (if life.Closing? then sh'.begins == sh.begins + [id] && sh'.closes == sh.closes && sh.flows[id].life.Open?
        else life.Closed? && sh'.closes == sh.closes + [id] && sh'.begins == sh.begins)
  }

  ghost predicate Freezes(sh: Shared, pc: Pc, sh': Shared, id: Id) {
    && id in sh.flows && Freezing(pc, id)
    && sh' == sh.(flows := sh.flows[id := sh.flows[id].(word := Freeze(sh.flows[id].word))])
  }

  ghost predicate Reports(sh: Shared, pc: Pc, sh': Shared, id: Id) {
    id in sh.flows && sh.flows[id].life.Closed? && sh' == sh.(reports := sh.reports + [id]) && !Freezing(pc, id)
  }

  ghost predicate LifeEffect(sh: Shared, pc: Pc, sh': Shared, pc': Pc) {
    || LivesSame(sh, pc, sh')
    || (pc.Begin? && LifeMoves(sh, pc, sh', pc', pc.id, Closing))
    || (pc.CloseCas? && LifeMoves(sh, pc, sh', pc', pc.id, Closed))
    || ((pc.BeginFreeze? || pc.CloseFreeze?) && Freezes(sh, pc, sh', pc.id))
    || (pc.Report? && Reports(sh, pc, sh', pc.id))
  }

  lemma {:induction false} CloseLives(c: Config, sh: Shared, pc: Pc, sh': Shared, pc': Pc)
    requires Local(c, sh, pc) && NextClose(sh, pc, sh', pc')
    ensures LifeEffect(sh, pc, sh', pc')
  {
  }

  lemma {:induction false} LifeStep(c: Config, sh: Shared, pc: Pc, sh': Shared, pc': Pc)
    requires Local(c, sh, pc) && Next(c, sh, pc, sh', pc')
    ensures LifeEffect(sh, pc, sh', pc')
  {
    match KindOf(pc)
    case Calling => assert LivesSame(sh, pc, sh');
    case Opening => OpenLives(c, sh, pc, sh', pc');
    case Touching => TouchLives(sh, pc, sh', pc');
    case Ending => CloseLives(c, sh, pc, sh', pc');
    case Removing => RemoveLives(c, sh, pc, sh', pc');
    case Scanning => ScanLives(sh, pc, sh', pc');
    case Sweeping => SweepLives(c, sh, pc, sh', pc');
    case Emptying => SweepLives(c, sh, pc, sh', pc');
  }

  /** Close and BeginClose return true at most once per flow; a flow is Closed exactly when
      some Close won; and whatever was reported is Closed. */
  ghost predicate Wins(sh: Shared) {
    && NoDup(sh.begins) && NoDup(sh.closes)
    && (forall id :: id in sh.begins ==> id in sh.flows && !sh.flows[id].life.Open?)
    && (forall id: Id :: id in sh.closes <==> id in sh.flows && sh.flows[id].life.Closed?)
    && (forall id :: id in sh.reports ==> id in sh.flows && sh.flows[id].life.Closed?)
  }

  lemma {:induction false} SameWins(sh: Shared, pc: Pc, sh': Shared)
    requires Wins(sh) && LivesSame(sh, pc, sh')
    ensures Wins(sh')
  {
  }

  lemma {:induction false} MovesWin(sh: Shared, pc: Pc, sh': Shared, pc': Pc, l: Life)
    requires Wins(sh) && (pc.Begin? || pc.CloseCas?) && LifeMoves(sh, pc, sh', pc', pc.id, l)
            && (pc.Begin? <==> l.Closing?)
    ensures Wins(sh')
  {
  }

  lemma {:induction false} KeepsWins(sh: Shared, pc: Pc, sh': Shared, pc': Pc)
    requires Wins(sh) && LifeEffect(sh, pc, sh', pc')
    ensures Wins(sh')
  {
    if LivesSame(sh, pc, sh') {
      SameWins(sh, pc, sh');
    } else if pc.Begin? {
      MovesWin(sh, pc, sh', pc', Closing);
    } else if pc.CloseCas? {
      MovesWin(sh, pc, sh', pc', Closed);
    }
  }

  /** A flow that is no longer Open is frozen, or the caller that moved it is about to. */
  ghost predicate FreezeFollows(s: State) {
    forall id :: id in s.sh.flows && !s.sh.flows[id].life.Open? ==>
      s.sh.flows[id].word.frozen || exists t :: Freezing(At(s, t), id)
  }

  lemma {:induction false} KeepsFreezeFollows(c: Config, s: State, t: Tid, s': State)
    requires FreezeFollows(s) && Steps(c, s, t, s') && LifeEffect(s.sh, At(s, t), s'.sh, At(s', t))
    requires FlowsForward(s.sh, At(s, t), s'.sh)
    ensures FreezeFollows(s')
  {
    assert forall u :: u != t ==> At(s', u) == At(s, u);
    forall id | id in s'.sh.flows && !s'.sh.flows[id].life.Open? && !s'.sh.flows[id].word.frozen
      ensures exists u :: Freezing(At(s', u), id)
    {
      if Freezing(At(s', t), id) {
      } else {
        assert id in s.sh.flows && Forward(s.sh.flows[id], s'.sh.flows[id]);
        var u :| Freezing(At(s, u), id);
        assert u != t;
        assert Freezing(At(s', u), id);
      }
    }
  }

  // ---- All runs ----

  ghost predicate Inv(c: Config, s: State) {
    Locals(c, s) && Locks(c, s) && LeavesOnce(c, s) && Wins(s.sh) && FreezeFollows(s)
  }

  lemma {:induction false} KeepsInv(c: Config, s: State, t: Tid, s': State)
    requires Inv(c, s) && Steps(c, s, t, s')
    ensures Inv(c, s') && Guarantee(c, s.sh, At(s, t), s'.sh)
  {
    KeepsLocks(c, s, t, s');
    KeepsLeavesOnce(c, s, t, s');
    KeepsLocals(c, s, t, s');
    LifeStep(c, s.sh, At(s, t), s'.sh, At(s', t));
    KeepsWins(s.sh, At(s, t), s'.sh, At(s', t));
    KeepsFreezeFollows(c, s, t, s');
  }

  lemma {:induction false} StartInv(c: Config, s: State)
    requires Start(c, s)
    ensures Inv(c, s)
  {
    assert forall t :: At(s, t) == Idle;
    assert Book(c, s).lists == map[];
  }

  lemma {:induction false} StepInv(c: Config, run: seq<State>, i: nat)
    requires i + 1 < |run| && StepAt(c, run, i) && Inv(c, run[i])
    ensures Inv(c, run[i + 1])
  {
    var (s, s') := (run[i], run[i + 1]);
    var t :| Steps(c, s, t, s');
    KeepsInv(c, s, t, s');
  }

  /** Every state of every interleaving satisfies the invariants. */
  lemma {:induction false} Reachable(c: Config, run: seq<State>, i: nat)
    requires Run(c, run) && i < |run|
    ensures Inv(c, run[i])
  {
    if i == 0 {
      StartInv(c, run[0]);
    } else {
      Reachable(c, run, i - 1);
      StepInv(c, run, i - 1);
    }
  }
}
