/** queue/queue.go as a concurrent protocol. Any number of threads run Push, PushWait,
    Pop, PopWait, Close and Drain; each critical section, each channel operation and
    each OnDrop call is one step, and steps of different threads interleave freely. */
module RingProtocol {
  import opened Common
  import opened RingSpec

  type Tid = nat

  /** Where a thread is. `token` marks a waiter that has just taken a wake-up token. */
  datatype Pc<T> =
    | Idle
    | PushEnter(v: T) | PushSignal(evicted: Option<nat>) | PushDrop(gone: nat)
    | WaitEnter(v: T, token: bool) | WaitSignalEmpty(more: bool) | WaitSignalFull | WaitParked(v: T)
    | PopEnter(wait: bool, token: bool) | PopSignalFull(more: bool) | PopSignalEmpty | PopCheck | PopParked
    | CloseEnter | CloseDone
    | DrainEnter | DrainDrop(todo: seq<nat>)

  datatype Fate = Popped | Dropped

  /** History: every accepted item in order, and every item that left, in order,
      with its fate. */
  datatype Log<T> = Log(accepted: seq<T>, left: seq<T>, fates: seq<Fate>)

  function Accept<T>(h: Log<T>, v: T): Log<T> {
    Log(h.accepted + [v], h.left, h.fates)
  }

  function Leave<T>(h: Log<T>, vs: seq<T>, fate: Fate): Log<T> {
    Log(h.accepted, h.left + vs, h.fates + seq(|vs|, _ => fate))
  }

  /** What the threads share, then history: the log, the indices of left items handed
      to OnDrop, how often `done` was closed, and whether a Drain ran on a full open ring. */
  datatype Shared<T> = Shared(
    q: Queue<T>, notEmpty: bool, notFull: bool, done: bool, hasOnDrop: bool,
    log: Log<T>, handed: seq<nat>, closes: nat, fullDrain: bool)

  /** The calls an idle thread may make. */
  predicate Entry<T>(pc: Pc<T>) {
    pc.PushEnter? || (pc.WaitEnter? && !pc.token) || (pc.PopEnter? && !pc.token) || pc.CloseEnter? || pc.DrainEnter?
  }

  /** Push: the critical section, the signal, then OnDrop for an evicted item. */
  ghost predicate NextPush<T>(sh: Shared<T>, pc: Pc<T>, sh': Shared<T>, pc': Pc<T>)
    requires Consistent(sh.q)
  {
    match pc
    case PushEnter(v) =>
      var r := Push(sh.q, v);
      && sh' == sh.(q := r.q,
                    log := if !r.accepted then sh.log
                           else if r.evicted.None? then Accept(sh.log, v)
                           else Leave(Accept(sh.log, v), [r.evicted.value], Dropped))
      && pc' == if !r.accepted then Idle
                else PushSignal(if r.evicted.None? then None else Some(|sh.log.left|))
    case PushSignal(evicted) =>
      && sh' == sh.(notEmpty := true)
      && pc' == if evicted.Some? && sh.hasOnDrop then PushDrop(evicted.value) else Idle
    case PushDrop(g) => sh' == sh.(handed := sh.handed + [g]) && pc' == Idle
    case _ => false
  }

  /** PushWait: a pass, its signals, and the select on token, closed channel or context. */
  ghost predicate NextWait<T>(sh: Shared<T>, pc: Pc<T>, sh': Shared<T>, pc': Pc<T>)
    requires Consistent(sh.q)
  {
    match pc
    case WaitEnter(v, _) =>
      var r := PushWait(sh.q, v);
      && sh' == sh.(q := r.0, log := if r.1.Accepted? then Accept(sh.log, v) else sh.log)
      && pc' == match r.1 {
           case Accepted(more) => WaitSignalEmpty(more)
           case Refused => Idle
           case Full => WaitParked(v)
         }
    case WaitSignalEmpty(more) => sh' == sh.(notEmpty := true) && pc' == if more then WaitSignalFull else Idle
    case WaitSignalFull => sh' == sh.(notFull := true) && pc' == Idle
    case WaitParked(v) =>
      || (sh.notFull && sh' == sh.(notFull := false) && pc' == WaitEnter(v, true))
      || (sh.done && sh' == sh && pc' == WaitEnter(v, false))
      || (sh' == sh && pc' == Idle)
    case _ => false
  }

  /** Pop and PopWait. */
  ghost predicate NextPop<T>(sh: Shared<T>, pc: Pc<T>, sh': Shared<T>, pc': Pc<T>)
    requires Consistent(sh.q)
  {
    match pc
    case PopEnter(wait, _) =>
      var r := Pop(sh.q);
      && sh' == sh.(q := r.0, log := if r.1.None? then sh.log else Leave(sh.log, [r.1.value], Popped))
      && pc' == if r.1.Some? then PopSignalFull(|r.0.items| > 0) else if wait then PopCheck else Idle
    case PopSignalFull(more) => sh' == sh.(notFull := true) && pc' == if more then PopSignalEmpty else Idle
    case PopSignalEmpty => sh' == sh.(notEmpty := true) && pc' == Idle
    case PopCheck => sh' == sh && pc' == if sh.q.closed && |sh.q.items| == 0 then Idle else PopParked
    case PopParked =>
      || (sh.notEmpty && sh' == sh.(notEmpty := false) && pc' == PopEnter(true, true))
      || (sh.done && sh' == sh && pc' == PopEnter(true, false))
      || (sh' == sh && pc' == Idle)
    case _ => false
  }

  /** Close and Drain. */
  ghost predicate NextEnd<T>(sh: Shared<T>, pc: Pc<T>, sh': Shared<T>, pc': Pc<T>)
    requires Consistent(sh.q)
  {
    match pc
    case CloseEnter => sh' == sh.(q := sh.q.(closed := true)) && pc' == if sh.q.closed then Idle else CloseDone
    case CloseDone => sh' == sh.(done := true, closes := sh.closes + 1) && pc' == Idle
    case DrainEnter =>
      && sh' == sh.(q := Drain(sh.q), log := Leave(sh.log, sh.q.items, Dropped),
                    fullDrain := sh.fullDrain || (!sh.q.closed && |sh.q.items| == sh.q.cap))
      && pc' == if sh.hasOnDrop then DrainDrop(seq(|sh.q.items|, i => |sh.log.left| + i)) else Idle
    case DrainDrop(todo) =>
      if |todo| == 0 then sh' == sh && pc' == Idle
      else sh' == sh.(handed := sh.handed + [todo[0]]) && pc' == DrainDrop(todo[1..])
    case _ => false
  }

  /** The operation a program counter belongs to. */
  datatype Part = Calls | Pushes | Waits | Pops | Ends

  function PartOf<T>(pc: Pc<T>): Part {
    match pc
    case Idle => Calls
    case PushEnter(_) => Pushes case PushSignal(_) => Pushes case PushDrop(_) => Pushes
    case WaitEnter(_, _) => Waits case WaitSignalEmpty(_) => Waits case WaitSignalFull => Waits
    case WaitParked(_) => Waits
    case PopEnter(_, _) => Pops case PopSignalFull(_) => Pops case PopSignalEmpty => Pops
    case PopCheck => Pops case PopParked => Pops
    case CloseEnter => Ends case CloseDone => Ends case DrainEnter => Ends case DrainDrop(_) => Ends
  }

  /** One atomic step of a thread at pc. */
  ghost predicate Next<T>(sh: Shared<T>, pc: Pc<T>, sh': Shared<T>, pc': Pc<T>)
    requires Consistent(sh.q)
  {
    match PartOf(pc)
    case Calls => sh' == sh && Entry(pc')
    case Pushes => NextPush(sh, pc, sh', pc')
    case Waits => NextWait(sh, pc, sh', pc')
    case Pops => NextPop(sh, pc, sh', pc')
    case Ends => NextEnd(sh, pc, sh', pc')
  }

  datatype State<T> = State(sh: Shared<T>, pcs: map<Tid, Pc<T>>)

  function At<T>(s: State<T>, t: Tid): Pc<T> {
    if t in s.pcs then s.pcs[t] else Idle
  }

  /** Thread t takes one step; the others stay where they are. */
  ghost predicate Steps<T>(s: State<T>, t: Tid, s': State<T>) {
    Consistent(s.sh.q) && s'.pcs == s.pcs[t := At(s', t)] && Next(s.sh, At(s, t), s'.sh, At(s', t))
  }

  ghost predicate Start<T>(s: State<T>) {
    && s.sh.q.cap > 0 && s.sh.q.items == [] && !s.sh.q.closed && s.sh.q.stats == Stats(0, 0, 0, 0)
    && !s.sh.notEmpty && !s.sh.notFull && !s.sh.done
    && s.sh.log == Log([], [], []) && s.sh.handed == [] && s.sh.closes == 0 && !s.sh.fullDrain
    && s.pcs == map[]
  }

  ghost predicate StepAt<T(!new)>(run: seq<State<T>>, i: nat)
    requires i + 1 < |run|
  {
    var (s, s') := (run[i], run[i + 1]);
    exists t :: Steps(s, t, s')
  }

  /** Every interleaving: the states passed through from a fresh ring. */
  ghost predicate Run<T(!new)>(run: seq<State<T>>) {
    |run| > 0 && Start(run[0]) && forall i: nat :: i + 1 < |run| ==> StepAt(run, i)
  }

  // ---- Invariants ----

  function Count(fs: seq<Fate>, f: Fate): nat {
    if fs == [] then 0
    else Count(fs[..|fs| - 1], f) + (if fs[|fs| - 1] == f then 1 else 0)
  }

  lemma {:induction false} CountRepeat(fs: seq<Fate>, n: nat, x: Fate, f: Fate)
    ensures Count(fs + seq(n, _ => x), f) == Count(fs, f) + (if f == x then n else 0)
    decreases n
  {
    var tail := seq(n, _ => x);
    if n == 0 {
      assert fs + tail == fs;
    } else {
      CountRepeat(fs, n - 1, x, f);
      assert (fs + tail)[..|fs + tail| - 1] == fs + seq(n - 1, _ => x);
    }
  }

  /** FIFO and conservation: what was accepted is exactly what left, in order,
      followed by what is queued; the counters count it. */
  ghost predicate Balanced<T>(q: Queue<T>, h: Log<T>) {
    && h.accepted == h.left + q.items
    && |h.fates| == |h.left|
    && q.stats.pushed == |h.accepted|
    && q.stats.popped == Count(h.fates, Popped)
    && q.stats.dropped == Count(h.fates, Dropped)
  }

  ghost predicate Conserved<T>(sh: Shared<T>) { Consistent(sh.q) && Balanced(sh.q, sh.log) }

  /** About to signal notEmpty, or holding its token and about to Pop. */
  predicate WakesConsumer<T>(pc: Pc<T>) {
    || pc.PushSignal? || pc.WaitSignalEmpty? || pc.PopSignalEmpty?
    || (pc.PopSignalFull? && pc.more) || (pc.PopEnter? && pc.token)
  }

  /** About to signal notFull, or holding its token and about to retry the push. */
  predicate WakesProducer<T>(pc: Pc<T>) {
    || pc.PopSignalFull? || pc.WaitSignalFull?
    || (pc.WaitSignalEmpty? && pc.more) || (pc.WaitEnter? && pc.token)
  }

  /** Items wait only where a consumer's wake-up is on its way. */
  ghost predicate ConsumerLive<T>(s: State<T>) {
    |s.sh.q.items| > 0 ==> s.sh.notEmpty || exists t :: t in s.pcs && WakesConsumer(s.pcs[t])
  }

  ghost predicate ProducerParked<T>(s: State<T>) { exists t :: t in s.pcs && s.pcs[t].WaitParked? }

  ghost predicate ProducerWake<T>(s: State<T>) {
    s.sh.notFull || exists t :: t in s.pcs && WakesProducer(s.pcs[t])
  }

  predicate Room<T>(sh: Shared<T>) { !sh.q.closed && |sh.q.items| < sh.q.cap }

  /** A parked producer has free room before it only where its wake-up is on its way. */
  ghost predicate ProducerLive<T>(s: State<T>) {
    Room(s.sh) && ProducerParked(s) ==> ProducerWake(s)
  }

  /** `done` is closed once, by the one Close that found the ring open. */
  ghost predicate ClosesOnce<T>(s: State<T>) {
    && (s.sh.done ==> s.sh.q.closed)
    && s.sh.closes == (if s.sh.done then 1 else 0)
    && (s.sh.q.closed && !s.sh.done ==> exists t :: t in s.pcs && s.pcs[t].CloseDone?)
    && (forall t :: t in s.pcs && s.pcs[t].CloseDone? ==> s.sh.q.closed && !s.sh.done)
    && (forall t, u :: t in s.pcs && u in s.pcs && s.pcs[t].CloseDone? && s.pcs[u].CloseDone? ==> t == u)
  }

  /** Indices of dropped items a thread still has to hand to OnDrop. */
  function Owes<T>(pc: Pc<T>, hasOnDrop: bool): seq<nat> {
    match pc
    case PushSignal(e) => if e.Some? && hasOnDrop then [e.value] else []
    case PushDrop(g) => [g]
    case DrainDrop(todo) => todo
    case _ => []
  }

  predicate WasDropped(fates: seq<Fate>, g: nat) { g < |fates| && fates[g].Dropped? }

  /** Thread t owes OnDrop the item that left as number g. */
  predicate OwedBy<T>(s: State<T>, t: Tid, g: nat) { g in Owes(At(s, t), s.sh.hasOnDrop) }

  /** Each dropped item is owed to OnDrop by one thread, or was handed over, once. */
  ghost predicate DropsOnce<T>(s: State<T>) {
    && NoDup(s.sh.handed)
    && (forall g :: g in s.sh.handed ==> WasDropped(s.sh.log.fates, g))
    && (forall t, g :: OwedBy(s, t, g) ==> WasDropped(s.sh.log.fates, g) && g !in s.sh.handed)
    && (forall t :: NoDup(Owes(At(s, t), s.sh.hasOnDrop)))
    && (forall t, u, g :: OwedBy(s, t, g) && OwedBy(s, u, g) ==> t == u)
    && (s.sh.hasOnDrop ==>
          forall g :: WasDropped(s.sh.log.fates, g) ==> g in s.sh.handed || exists t :: OwedBy(s, t, g))
  }

  ghost predicate Inv<T>(s: State<T>) {
    && Conserved(s.sh)
    && ConsumerLive(s)
    && (!s.sh.fullDrain ==> ProducerLive(s))
    && ClosesOnce(s)
    && DropsOnce(s)
  }

  // ---- Every step keeps the invariants ----

  lemma LeaveCounts<T>(h: Log<T>, vs: seq<T>, fate: Fate)
    requires |h.fates| == |h.left|
    ensures var h' := Leave(h, vs, fate);
            && |h'.fates| == |h'.left|
            && Count(h'.fates, fate) == Count(h.fates, fate) + |vs|
            && forall f :: f != fate ==> Count(h'.fates, f) == Count(h.fates, f)
  {
    forall f { CountRepeat(h.fates, |vs|, fate, f); }
  }

  lemma AcceptBalances<T>(q: Queue<T>, h: Log<T>, v: T)
    requires Balanced(q, h)
    ensures Balanced(Append(q, v), Accept(h, v))
  {
  }

  lemma EvictBalances<T>(q: Queue<T>, h: Log<T>, v: T)
    requires Consistent(q) && Balanced(q, h) && |q.items| == q.cap && !q.closed && q.policy.DropOldest?
    ensures Balanced(Push(q, v).q, Leave(Accept(h, v), [q.items[0]], Dropped))
  {
    LeaveCounts(Accept(h, v), [q.items[0]], Dropped);
    assert q.items == [q.items[0]] + q.items[1..];
    assert h.accepted + [v] == h.left + [q.items[0]] + (q.items[1..] + [v]);
  }

  lemma PopBalances<T>(q: Queue<T>, h: Log<T>)
    requires Consistent(q) && Balanced(q, h) && |q.items| > 0
    ensures Balanced(Pop(q).0, Leave(h, [q.items[0]], Popped))
  {
    LeaveCounts(h, [q.items[0]], Popped);
    assert h.accepted == h.left + [q.items[0]] + q.items[1..];
  }

  lemma DrainBalances<T>(q: Queue<T>, h: Log<T>)
    requires Consistent(q) && Balanced(q, h)
    ensures Balanced(Drain(q), Leave(h, q.items, Dropped))
  {
    LeaveCounts(h, q.items, Dropped);
  }

  lemma {:induction false} PushConserves<T>(sh: Shared<T>, pc: Pc<T>, sh': Shared<T>, pc': Pc<T>)
    requires Conserved(sh) && NextPush(sh, pc, sh', pc')
    ensures Conserved(sh')
  {
    if pc.PushEnter? && !sh.q.closed {
      if |sh.q.items| < sh.q.cap {
        AcceptBalances(sh.q, sh.log, pc.v);
      } else if sh.q.policy.DropOldest? {
        EvictBalances(sh.q, sh.log, pc.v);
      }
    }
  }

  lemma {:induction false} WaitConserves<T>(sh: Shared<T>, pc: Pc<T>, sh': Shared<T>, pc': Pc<T>)
    requires Conserved(sh) && NextWait(sh, pc, sh', pc')
    ensures Conserved(sh')
  {
    if pc.WaitEnter? { AcceptBalances(sh.q, sh.log, pc.v); }
  }

  lemma {:induction false} PopConserves<T>(sh: Shared<T>, pc: Pc<T>, sh': Shared<T>, pc': Pc<T>)
    requires Conserved(sh) && NextPop(sh, pc, sh', pc')
    ensures Conserved(sh')
  {
    if pc.PopEnter? && |sh.q.items| > 0 { PopBalances(sh.q, sh.log); }
  }

  lemma {:induction false} EndConserves<T>(sh: Shared<T>, pc: Pc<T>, sh': Shared<T>, pc': Pc<T>)
    requires Conserved(sh) && NextEnd(sh, pc, sh', pc')
    ensures Conserved(sh')
  {
    if pc.DrainEnter? { DrainBalances(sh.q, sh.log); }
  }

  lemma {:induction false} KeepsConserved<T>(sh: Shared<T>, pc: Pc<T>, sh': Shared<T>, pc': Pc<T>)
    requires Conserved(sh) && Next(sh, pc, sh', pc')
    ensures Conserved(sh')
  {
    match PartOf(pc)
    case Calls =>
    case Pushes => PushConserves(sh, pc, sh', pc');
    case Waits => WaitConserves(sh, pc, sh', pc');
    case Pops => PopConserves(sh, pc, sh', pc');
    case Ends => EndConserves(sh, pc, sh', pc');
  }

  /** A step that leaves items queued and no wake-up of its own found it so. */
  predicate ConsumerEffect<T>(sh: Shared<T>, pc: Pc<T>, sh': Shared<T>, pc': Pc<T>) {
    |sh'.q.items| > 0 && !sh'.notEmpty && !WakesConsumer(pc') ==> |sh.q.items| > 0 && !sh.notEmpty && !WakesConsumer(pc)
  }

  lemma {:induction false} PushWakesConsumer<T>(sh: Shared<T>, pc: Pc<T>, sh': Shared<T>, pc': Pc<T>)
    requires Consistent(sh.q) && NextPush(sh, pc, sh', pc')
    ensures ConsumerEffect(sh, pc, sh', pc')
  {
    if pc.PushEnter? { PushMeaning(sh.q, pc.v); }
  }

  lemma {:induction false} WaitWakesConsumer<T>(sh: Shared<T>, pc: Pc<T>, sh': Shared<T>, pc': Pc<T>)
    requires Consistent(sh.q) && NextWait(sh, pc, sh', pc')
    ensures ConsumerEffect(sh, pc, sh', pc')
  {
  }

  lemma {:induction false} PopWakesConsumer<T>(sh: Shared<T>, pc: Pc<T>, sh': Shared<T>, pc': Pc<T>)
    requires Consistent(sh.q) && NextPop(sh, pc, sh', pc')
    ensures ConsumerEffect(sh, pc, sh', pc')
  {
  }

  lemma {:induction false} ConsumerStep<T>(sh: Shared<T>, pc: Pc<T>, sh': Shared<T>, pc': Pc<T>)
    requires Consistent(sh.q) && Next(sh, pc, sh', pc')
    ensures ConsumerEffect(sh, pc, sh', pc')
  {
    match PartOf(pc)
    case Pushes => PushWakesConsumer(sh, pc, sh', pc');
    case Waits => WaitWakesConsumer(sh, pc, sh', pc');
    case Pops => PopWakesConsumer(sh, pc, sh', pc');
    case _ =>
  }

  lemma {:induction false} KeepsConsumerLive<T>(s: State<T>, t: Tid, s': State<T>)
    requires ConsumerLive(s) && Steps(s, t, s')
    ensures ConsumerLive(s')
  {
    ConsumerStep(s.sh, At(s, t), s'.sh, At(s', t));
    assert t in s'.pcs;
    if |s'.sh.q.items| > 0 && !s'.sh.notEmpty && !WakesConsumer(s'.pcs[t]) {
      var u :| u in s.pcs && WakesConsumer(s.pcs[u]);
      assert u in s'.pcs && s'.pcs[u] == s.pcs[u];
    }
  }

  /** A step that leaves free room and no wake-up of its own did not park and found it so. */
  predicate ProducerEffect<T>(sh: Shared<T>, pc: Pc<T>, sh': Shared<T>, pc': Pc<T>) {
    Room(sh') && !sh'.fullDrain && !sh'.notFull && !WakesProducer(pc') ==>
      Room(sh) && !sh.fullDrain && !sh.notFull && !WakesProducer(pc) && !pc'.WaitParked?
  }

  lemma {:induction false} PushWakesProducer<T>(sh: Shared<T>, pc: Pc<T>, sh': Shared<T>, pc': Pc<T>)
    requires Consistent(sh.q) && NextPush(sh, pc, sh', pc')
    ensures ProducerEffect(sh, pc, sh', pc')
  {
    if pc.PushEnter? { PushMeaning(sh.q, pc.v); }
  }

  lemma {:induction false} WaitWakesProducer<T>(sh: Shared<T>, pc: Pc<T>, sh': Shared<T>, pc': Pc<T>)
    requires Consistent(sh.q) && NextWait(sh, pc, sh', pc')
    ensures ProducerEffect(sh, pc, sh', pc')
  {
  }

  lemma {:induction false} PopWakesProducer<T>(sh: Shared<T>, pc: Pc<T>, sh': Shared<T>, pc': Pc<T>)
    requires Consistent(sh.q) && NextPop(sh, pc, sh', pc')
    ensures ProducerEffect(sh, pc, sh', pc')
  {
  }

  lemma {:induction false} EndWakesProducer<T>(sh: Shared<T>, pc: Pc<T>, sh': Shared<T>, pc': Pc<T>)
    requires Consistent(sh.q) && NextEnd(sh, pc, sh', pc')
    ensures ProducerEffect(sh, pc, sh', pc')
  {
  }

  lemma {:induction false} ProducerStep<T>(sh: Shared<T>, pc: Pc<T>, sh': Shared<T>, pc': Pc<T>)
    requires Consistent(sh.q) && Next(sh, pc, sh', pc')
    ensures ProducerEffect(sh, pc, sh', pc')
  {
    match PartOf(pc)
    case Calls =>
    case Pushes => PushWakesProducer(sh, pc, sh', pc');
    case Waits => WaitWakesProducer(sh, pc, sh', pc');
    case Pops => PopWakesProducer(sh, pc, sh', pc');
    case Ends => EndWakesProducer(sh, pc, sh', pc');
  }

  lemma {:induction false} KeepsProducerLive<T>(s: State<T>, t: Tid, s': State<T>)
    requires (!s.sh.fullDrain ==> ProducerLive(s)) && Steps(s, t, s')
    ensures !s'.sh.fullDrain ==> ProducerLive(s')
  {
    ProducerStep(s.sh, At(s, t), s'.sh, At(s', t));
    assert t in s'.pcs;
    if !s'.sh.fullDrain && Room(s'.sh) && ProducerParked(s') && !s'.sh.notFull && !WakesProducer(s'.pcs[t]) {
      var p :| p in s'.pcs && s'.pcs[p].WaitParked?;
      assert p in s.pcs && s.pcs[p] == s'.pcs[p];
      var u :| u in s.pcs && WakesProducer(s.pcs[u]);
      assert u in s'.pcs && s'.pcs[u] == s.pcs[u];
    }
  }

  /** Only the first Close sets `closed`, and only it goes on to close `done`. */
  ghost predicate CloseEffect<T>(sh: Shared<T>, pc: Pc<T>, sh': Shared<T>, pc': Pc<T>) {
    && sh'.q.closed == (sh.q.closed || pc'.CloseDone?)
    && sh'.done == (sh.done || pc.CloseDone?)
    && sh'.closes == sh.closes + (if pc.CloseDone? then 1 else 0)
    && (pc'.CloseDone? ==> !sh.q.closed && !pc.CloseDone?)
  }

  /** A step that has nothing to do with Close or Drain. */
  predicate Unrelated<T>(sh: Shared<T>, pc: Pc<T>, sh': Shared<T>, pc': Pc<T>) {
    && sh'.q.closed == sh.q.closed && sh'.done == sh.done && sh'.closes == sh.closes && sh'.fullDrain == sh.fullDrain
    && !pc.CloseDone? && !pc'.CloseDone?
  }

  lemma {:induction false} PushUnrelated<T>(sh: Shared<T>, pc: Pc<T>, sh': Shared<T>, pc': Pc<T>)
    requires Consistent(sh.q) && NextPush(sh, pc, sh', pc')
    ensures Unrelated(sh, pc, sh', pc')
  {
  }

  lemma {:induction false} WaitUnrelated<T>(sh: Shared<T>, pc: Pc<T>, sh': Shared<T>, pc': Pc<T>)
    requires Consistent(sh.q) && NextWait(sh, pc, sh', pc')
    ensures Unrelated(sh, pc, sh', pc')
  {
  }

  lemma {:induction false} PopUnrelated<T>(sh: Shared<T>, pc: Pc<T>, sh': Shared<T>, pc': Pc<T>)
    requires Consistent(sh.q) && NextPop(sh, pc, sh', pc')
    ensures Unrelated(sh, pc, sh', pc')
  {
  }

  lemma {:induction false} OthersUnrelated<T>(sh: Shared<T>, pc: Pc<T>, sh': Shared<T>, pc': Pc<T>)
    requires Consistent(sh.q) && Next(sh, pc, sh', pc') && !PartOf(pc).Ends?
    ensures Unrelated(sh, pc, sh', pc')
  {
    match PartOf(pc)
    case Calls =>
    case Pushes => PushUnrelated(sh, pc, sh', pc');
    case Waits => WaitUnrelated(sh, pc, sh', pc');
    case Pops => PopUnrelated(sh, pc, sh', pc');
  }

  lemma {:induction false} EndCloses<T>(sh: Shared<T>, pc: Pc<T>, sh': Shared<T>, pc': Pc<T>)
    requires Consistent(sh.q) && NextEnd(sh, pc, sh', pc')
    ensures CloseEffect(sh, pc, sh', pc')
  {
  }

  lemma {:induction false} CloseStep<T>(sh: Shared<T>, pc: Pc<T>, sh': Shared<T>, pc': Pc<T>)
    requires Consistent(sh.q) && Next(sh, pc, sh', pc')
    ensures CloseEffect(sh, pc, sh', pc')
  {
    match PartOf(pc)
    case Ends => EndCloses(sh, pc, sh', pc');
    case _ => OthersUnrelated(sh, pc, sh', pc');
  }

  lemma {:induction false} KeepsClosesOnce<T>(s: State<T>, t: Tid, s': State<T>)
    requires ClosesOnce(s) && Steps(s, t, s')
    ensures ClosesOnce(s')
  {
    CloseStep(s.sh, At(s, t), s'.sh, At(s', t));
    assert t in s'.pcs;
    if s'.sh.q.closed && !s'.sh.done && !s'.pcs[t].CloseDone? {
      var u :| u in s.pcs && s.pcs[u].CloseDone?;
      assert u in s'.pcs && s'.pcs[u] == s.pcs[u];
    }
  }

  /** A step that drops nothing and hands nothing over. */
  ghost predicate OwesSame<T>(sh: Shared<T>, pc: Pc<T>, sh': Shared<T>, pc': Pc<T>) {
    && sh'.log.fates == sh.log.fates && sh'.handed == sh.handed
    && Owes(pc', sh.hasOnDrop) == Owes(pc, sh.hasOnDrop)
  }

  /** A step that hands the first item it owes to OnDrop. */
  ghost predicate HandsOver<T>(sh: Shared<T>, pc: Pc<T>, sh': Shared<T>, pc': Pc<T>) {
    var o := Owes(pc, sh.hasOnDrop);
    o != [] && sh'.log.fates == sh.log.fates && sh'.handed == sh.handed + [o[0]] && Owes(pc', sh.hasOnDrop) == o[1..]
  }

  /** A step after which the thread owes exactly the items it has just dropped. */
  ghost predicate TakesOn<T>(sh: Shared<T>, pc: Pc<T>, sh': Shared<T>, pc': Pc<T>) {
    var o' := Owes(pc', sh.hasOnDrop);
    && Owes(pc, sh.hasOnDrop) == [] && sh'.handed == sh.handed && sh.log.fates <= sh'.log.fates
    && (forall i :: 0 <= i < |o'| ==> o'[i] == |sh.log.fates| + i && WasDropped(sh'.log.fates, o'[i]))
    && (sh.hasOnDrop ==> forall g :: |sh.log.fates| <= g && WasDropped(sh'.log.fates, g) ==> g in o')
  }

  ghost predicate DropEffect<T>(sh: Shared<T>, pc: Pc<T>, sh': Shared<T>, pc': Pc<T>) {
    sh'.hasOnDrop == sh.hasOnDrop && (OwesSame(sh, pc, sh', pc') || HandsOver(sh, pc, sh', pc')
      || TakesOn(sh, pc, sh', pc'))
  }

  lemma {:induction false} PushDrops<T>(sh: Shared<T>, pc: Pc<T>, sh': Shared<T>, pc': Pc<T>)
    requires Conserved(sh) && NextPush(sh, pc, sh', pc') && pc.PushEnter?
    ensures TakesOn(sh, pc, sh', pc')
  {
  }

  lemma {:induction false} PopDropsNone<T>(sh: Shared<T>, pc: Pc<T>, sh': Shared<T>, pc': Pc<T>)
    requires Conserved(sh) && NextPop(sh, pc, sh', pc') && pc.PopEnter?
    ensures TakesOn(sh, pc, sh', pc')
  {
  }

  lemma {:induction false} DrainDrops<T>(sh: Shared<T>, pc: Pc<T>, sh': Shared<T>, pc': Pc<T>)
    requires Conserved(sh) && NextEnd(sh, pc, sh', pc') && pc.DrainEnter?
    ensures TakesOn(sh, pc, sh', pc')
  {
    var n, fates' := |sh.q.items|, sh'.log.fates;
    var todo := seq(n, i => |sh.log.left| + i);
    if sh.hasOnDrop {
      forall g: nat | |sh.log.fates| <= g && WasDropped(fates', g) ensures g in todo {
        assert todo[g - |sh.log.fates|] == g;
      }
    }
  }

  lemma {:induction false} DropStep<T>(sh: Shared<T>, pc: Pc<T>, sh': Shared<T>, pc': Pc<T>)
    requires Conserved(sh) && Next(sh, pc, sh', pc')
    ensures DropEffect(sh, pc, sh', pc')
  {
    match PartOf(pc)
    case Calls =>
    case Pushes => if pc.PushEnter? { PushDrops(sh, pc, sh', pc'); } else { PushHands(sh, pc, sh', pc'); }
    case Waits => WaitHands(sh, pc, sh', pc');
    case Pops => if pc.PopEnter? { PopDropsNone(sh, pc, sh', pc'); } else { PopHands(sh, pc, sh', pc'); }
    case Ends => if pc.DrainEnter? { DrainDrops(sh, pc, sh', pc'); } else { EndHands(sh, pc, sh', pc'); }
  }

  /** The steps that drop nothing: they hand an item over, or leave what is owed alone. */
  ghost predicate HandEffect<T>(sh: Shared<T>, pc: Pc<T>, sh': Shared<T>, pc': Pc<T>) {
    sh'.hasOnDrop == sh.hasOnDrop && (OwesSame(sh, pc, sh', pc') || HandsOver(sh, pc, sh', pc'))
  }

  lemma {:induction false} PushHands<T>(sh: Shared<T>, pc: Pc<T>, sh': Shared<T>, pc': Pc<T>)
    requires Consistent(sh.q) && NextPush(sh, pc, sh', pc') && !pc.PushEnter?
    ensures HandEffect(sh, pc, sh', pc')
  {
  }

  lemma {:induction false} WaitHands<T>(sh: Shared<T>, pc: Pc<T>, sh': Shared<T>, pc': Pc<T>)
    requires Consistent(sh.q) && NextWait(sh, pc, sh', pc')
    ensures HandEffect(sh, pc, sh', pc')
  {
    assert OwesSame(sh, pc, sh', pc');
  }

  lemma {:induction false} PopHands<T>(sh: Shared<T>, pc: Pc<T>, sh': Shared<T>, pc': Pc<T>)
    requires Consistent(sh.q) && NextPop(sh, pc, sh', pc') && !pc.PopEnter?
    ensures HandEffect(sh, pc, sh', pc')
  {
    assert OwesSame(sh, pc, sh', pc');
  }

  lemma {:induction false} EndHands<T>(sh: Shared<T>, pc: Pc<T>, sh': Shared<T>, pc': Pc<T>)
    requires Consistent(sh.q) && NextEnd(sh, pc, sh', pc') && !pc.DrainEnter?
    ensures HandEffect(sh, pc, sh', pc')
  {
  }

  lemma {:induction false} KeepsDropsOnce<T>(s: State<T>, t: Tid, s': State<T>)
    requires Conserved(s.sh) && DropsOnce(s) && Steps(s, t, s')
    ensures DropsOnce(s')
  {
    DropStep(s.sh, At(s, t), s'.sh, At(s', t));
    assert forall u :: u != t ==> At(s', u) == At(s, u);
    if OwesSame(s.sh, At(s, t), s'.sh, At(s', t)) {
      assert forall u, g :: OwedBy(s', u, g) <==> OwedBy(s, u, g);
    } else if HandsOver(s.sh, At(s, t), s'.sh, At(s', t)) {
      HandOverKeeps(s, t, s');
    } else {
      TakeOnKeeps(s, t, s');
    }
  }

  lemma {:induction false} HandOverKeeps<T>(s: State<T>, t: Tid, s': State<T>)
    requires DropsOnce(s) && s'.sh.hasOnDrop == s.sh.hasOnDrop
    requires HandsOver(s.sh, At(s, t), s'.sh, At(s', t)) && forall u :: u != t ==> At(s', u) == At(s, u)
    ensures DropsOnce(s')
  {
    var first := Owes(At(s, t), s.sh.hasOnDrop)[0];
    assert OwedBy(s, t, first);
    assert forall u, g :: OwedBy(s', u, g) <==> OwedBy(s, u, g) && !(u == t && g == first);
    assert forall g :: g in s'.sh.handed <==> g in s.sh.handed || g == first;
  }

  lemma {:induction false} TakeOnKeeps<T>(s: State<T>, t: Tid, s': State<T>)
    requires DropsOnce(s) && s'.sh.hasOnDrop == s.sh.hasOnDrop
    requires TakesOn(s.sh, At(s, t), s'.sh, At(s', t)) && forall u :: u != t ==> At(s', u) == At(s, u)
    ensures DropsOnce(s')
  {
    assert forall u, g :: u != t ==> (OwedBy(s', u, g) <==> OwedBy(s, u, g));
    assert forall g: nat :: OwedBy(s', t, g) ==> g >= |s.sh.log.fates|;
    assert forall g :: !OwedBy(s, t, g);
    assert forall g: nat :: g < |s.sh.log.fates| ==>
        (WasDropped(s'.sh.log.fates, g) <==> WasDropped(s.sh.log.fates, g));
    if s.sh.hasOnDrop {
      forall g: nat | WasDropped(s'.sh.log.fates, g) ensures g in s'.sh.handed || exists u :: OwedBy(s', u, g) {
        if g >= |s.sh.log.fates| {
          assert OwedBy(s', t, g);
        } else if g !in s.sh.handed {
          var u :| OwedBy(s, u, g);
          assert OwedBy(s', u, g);
        }
      }
    }
  }

  lemma {:induction false} KeepsInv<T>(s: State<T>, t: Tid, s': State<T>)
    requires Inv(s) && Steps(s, t, s')
    ensures Inv(s')
  {
    KeepsConserved(s.sh, At(s, t), s'.sh, At(s', t));
    KeepsConsumerLive(s, t, s');
    KeepsProducerLive(s, t, s');
    KeepsClosesOnce(s, t, s');
    KeepsDropsOnce(s, t, s');
  }

  lemma {:induction false} StartInv<T>(s: State<T>)
    requires Start(s)
    ensures Inv(s)
  {
  }

  lemma {:induction false} StepInv<T(!new)>(run: seq<State<T>>, i: nat)
    requires i + 1 < |run| && StepAt(run, i) && Inv(run[i])
    ensures Inv(run[i + 1])
  {
    var (s, s') := (run[i], run[i + 1]);
    var t :| Steps(s, t, s');
    KeepsInv(s, t, s');
  }

  /** Every state of every interleaving satisfies the invariants. */
  lemma {:induction false} Reachable<T(!new)>(run: seq<State<T>>, i: nat)
    requires Run(run) && i < |run|
    ensures Inv(run[i])
  {
    if i == 0 {
      StartInv(run[0]);
    } else {
      Reachable(run, i - 1);
      StepInv(run, i - 1);
    }
  }

  // ---- What the invariants mean ----

  /** No thread is between two steps of its own: each is idle or parked in a select. */
  ghost predicate Quiet<T>(s: State<T>) {
    forall t :: t in s.pcs ==> s.pcs[t].Idle? || s.pcs[t].WaitParked? || s.pcs[t].PopParked?
  }

  /** Items never sit in the queue with every consumer asleep: once the other threads
      are at rest, a parked consumer can take its token and pop. */
  lemma {:induction false} NoLostConsumerWakeup<T(!new)>(run: seq<State<T>>, i: nat, t: Tid)
    requires Run(run) && i < |run| && Quiet(run[i])
    requires |run[i].sh.q.items| > 0 && At(run[i], t).PopParked?
    ensures var s := run[i];
            Steps(s, t, State(s.sh.(notEmpty := false), s.pcs[t := PopEnter(true, true)]))
  {
    Reachable(run, i);
  }

  /** Free room never stays in front of a parked producer, as long as no Drain found the
      ring open and full. */
  lemma {:induction false} NoLostProducerWakeup<T(!new)>(run: seq<State<T>>, i: nat, t: Tid)
    requires Run(run) && i < |run| && Quiet(run[i]) && !run[i].sh.fullDrain
    requires Room(run[i].sh) && At(run[i], t).WaitParked?
    ensures var s := run[i];
            Steps(s, t, State(s.sh.(notFull := false), s.pcs[t := WaitEnter(At(s, t).v, true)]))
  {
    Reachable(run, i);
    assert t in run[i].pcs;
  }

  /** Thread t runs the critical section of Drain in step k. */
  predicate DrainsAt<T>(run: seq<State<T>>, k: nat, t: Tid) {
    k + 1 < |run| && At(run[k], t).DrainEnter? && !At(run[k + 1], t).DrainEnter?
  }

  /** What a caller of Drain can look at: Close was called, or Len is below Cap. */
  predicate SafeToDrain<T>(q: Queue<T>) { q.closed || |q.items| < q.cap }

  /** Only a Drain on a full open ring is remembered as one. */
  lemma {:induction false} DrainRemembered<T>(sh: Shared<T>, pc: Pc<T>, sh': Shared<T>, pc': Pc<T>)
    requires Consistent(sh.q) && Next(sh, pc, sh', pc') && !sh.fullDrain && (pc.DrainEnter? ==> SafeToDrain(sh.q))
    ensures !sh'.fullDrain && (pc.DrainEnter? ==> !pc'.DrainEnter?)
  {
    match PartOf(pc)
    case Ends =>
    case _ => OthersUnrelated(sh, pc, sh', pc');
  }

  lemma {:induction false} DrainLeaves<T>(sh: Shared<T>, pc: Pc<T>, sh': Shared<T>, pc': Pc<T>)
    requires Consistent(sh.q) && Next(sh, pc, sh', pc') && pc.DrainEnter?
    ensures !pc'.DrainEnter?
  {
  }

  lemma {:induction false} SafeDrains<T(!new)>(run: seq<State<T>>, i: nat)
    requires Run(run) && i < |run|
    requires forall k: nat, t :: k < i && DrainsAt(run, k, t) ==> SafeToDrain(run[k].sh.q)
    ensures !run[i].sh.fullDrain
  {
    if i > 0 {
      SafeDrains(run, i - 1);
      assert StepAt(run, i - 1);
      var (s, s') := (run[i - 1], run[i]);
      var t :| Steps(s, t, s');
      if At(s, t).DrainEnter? {
        DrainLeaves(s.sh, At(s, t), s'.sh, At(s', t));
        assert DrainsAt(run, i - 1, t);
      }
      DrainRemembered(s.sh, At(s, t), s'.sh, At(s', t));
    }
  }

  /** A Drain on a closed ring, or on one that is not full, strands nobody: if every Drain so
      far was such a one, a producer parked before free room can take its token. */
  lemma {:induction false} SafeDrainStrandsNobody<T(!new)>(run: seq<State<T>>, i: nat, t: Tid)
    requires Run(run) && i < |run| && Quiet(run[i])
    requires forall k: nat, u :: k < i && DrainsAt(run, k, u) ==> SafeToDrain(run[k].sh.q)
    requires Room(run[i].sh) && At(run[i], t).WaitParked?
    ensures var s := run[i];
            Steps(s, t, State(s.sh.(notFull := false), s.pcs[t := WaitEnter(At(s, t).v, true)]))
  {
    SafeDrains(run, i);
    NoLostProducerWakeup(run, i, t);
  }

  /** Close wakes everyone: `done` is closed at most once, and once the others are at rest after a
      Close it is closed, so a parked waiter of either kind can go back to the ring. */
  lemma {:induction false} CloseWakesWaiters<T(!new)>(run: seq<State<T>>, i: nat, t: Tid)
    requires Run(run) && i < |run|
    ensures run[i].sh.closes <= 1 && (run[i].sh.q.closed && Quiet(run[i]) ==> run[i].sh.done)
    ensures var s := run[i];
            s.sh.q.closed && Quiet(s) ==>
              && (At(s, t).WaitParked? ==> Steps(s, t, State(s.sh, s.pcs[t := WaitEnter(At(s, t).v, false)])))
              && (At(s, t).PopParked? ==> Steps(s, t, State(s.sh, s.pcs[t := PopEnter(true, false)])))
  {
    Reachable(run, i);
  }

  /** A waiter may give up with its context at any time. */
  lemma WaitersMayLeave<T>(s: State<T>, t: Tid)
    requires Consistent(s.sh.q) && (At(s, t).WaitParked? || At(s, t).PopParked?)
    ensures Steps(s, t, State(s.sh, s.pcs[t := Idle]))
  {
  }

  /** What a step decides for its caller, in terms of the ring it finds. Push refuses exactly
      when closed or full under Reject. PushWait refuses exactly when closed and parks exactly
      when open and full, whatever the policy. Pop finds nothing exactly when empty. PopWait gives
      up exactly when closed and empty, so after Close it first returns what is left. */
  ghost predicate Decides<T>(q: Queue<T>, pc: Pc<T>, pc': Pc<T>) {
    match pc
    case PushEnter(_) => pc'.Idle? <==> q.closed || (|q.items| == q.cap && q.policy.Reject?)
    case WaitEnter(v, _) =>
      && (pc'.Idle? <==> q.closed) && (pc'.WaitParked? <==> !q.closed && |q.items| == q.cap)
      && (pc'.WaitParked? ==> pc'.v == v)
    case PopEnter(wait, _) =>
      (pc'.PopSignalFull? <==> q.items != []) && (q.items == [] ==> pc' == if wait then PopCheck else Idle)
    case PopCheck => if q.closed && q.items == [] then pc'.Idle? else pc'.PopParked?
    case _ => true
  }

  /** A step changes Rejected exactly if it refuses, and never the ring's capacity or policy. */
  predicate CountsRefusal<T>(sh: Shared<T>, pc: Pc<T>, sh': Shared<T>, pc': Pc<T>) {
    && sh'.q.stats.rejected == sh.q.stats.rejected + (if (pc.PushEnter? || pc.WaitEnter?) && pc'.Idle? then 1 else 0)
    && sh'.q.cap == sh.q.cap && sh'.q.policy == sh.q.policy
  }

  lemma {:induction false} PushDecides<T>(sh: Shared<T>, pc: Pc<T>, sh': Shared<T>, pc': Pc<T>)
    requires Consistent(sh.q) && NextPush(sh, pc, sh', pc')
    ensures Decides(sh.q, pc, pc') && CountsRefusal(sh, pc, sh', pc')
  {
    if pc.PushEnter? { PushMeaning(sh.q, pc.v); }
  }

  lemma {:induction false} WaitDecides<T>(sh: Shared<T>, pc: Pc<T>, sh': Shared<T>, pc': Pc<T>)
    requires Consistent(sh.q) && NextWait(sh, pc, sh', pc')
    ensures Decides(sh.q, pc, pc') && CountsRefusal(sh, pc, sh', pc')
  {
    if pc.WaitEnter? { PushWaitMeaning(sh.q, pc.v); }
  }

  lemma {:induction false} PopTakes<T>(sh: Shared<T>, pc: Pc<T>, sh': Shared<T>, pc': Pc<T>)
    requires Consistent(sh.q) && NextPop(sh, pc, sh', pc') && pc.PopEnter?
    ensures Decides(sh.q, pc, pc') && CountsRefusal(sh, pc, sh', pc')
  {
    PopMeaning(sh.q);
  }

  lemma {:induction false} PopDecides<T>(sh: Shared<T>, pc: Pc<T>, sh': Shared<T>, pc': Pc<T>)
    requires Consistent(sh.q) && NextPop(sh, pc, sh', pc')
    ensures Decides(sh.q, pc, pc') && CountsRefusal(sh, pc, sh', pc')
  {
    if pc.PopEnter? { PopTakes(sh, pc, sh', pc'); }
  }

  lemma {:induction false} EndDecides<T>(sh: Shared<T>, pc: Pc<T>, sh': Shared<T>, pc': Pc<T>)
    requires Consistent(sh.q) && NextEnd(sh, pc, sh', pc')
    ensures Decides(sh.q, pc, pc') && CountsRefusal(sh, pc, sh', pc')
  {
    DrainMeaning(sh.q);
  }

  lemma {:induction false} StepDecides<T>(sh: Shared<T>, pc: Pc<T>, sh': Shared<T>, pc': Pc<T>)
    requires Consistent(sh.q) && Next(sh, pc, sh', pc')
    ensures Decides(sh.q, pc, pc') && CountsRefusal(sh, pc, sh', pc')
  {
    match PartOf(pc)
    case Calls =>
    case Pushes => PushDecides(sh, pc, sh', pc');
    case Waits => WaitDecides(sh, pc, sh', pc');
    case Pops => PopDecides(sh, pc, sh', pc');
    case Ends => EndDecides(sh, pc, sh', pc');
  }

  /** Thread t is refused in step k. */
  predicate RefusedAt<T>(run: seq<State<T>>, k: nat, t: Tid) {
    k + 1 < |run| && (At(run[k], t).PushEnter? || At(run[k], t).WaitEnter?) && At(run[k + 1], t).Idle?
  }

  ghost predicate SomeRefused<T>(run: seq<State<T>>, k: nat) { exists t :: RefusedAt(run, k, t) }

  /** How many calls have been refused before state i. */
  ghost function Refusals<T>(run: seq<State<T>>, i: nat): nat
    requires i < |run|
  {
    if i == 0 then 0 else Refusals(run, i - 1) + if SomeRefused(run, i - 1) then 1 else 0
  }

  /** Rejected counts the refused calls, and capacity and policy stay what they were. */
  lemma {:induction false} RejectedExact<T(!new)>(run: seq<State<T>>, i: nat)
    requires Run(run) && i < |run|
    ensures run[i].sh.q.stats.rejected == Refusals(run, i)
    ensures run[i].sh.q.cap == run[0].sh.q.cap && run[i].sh.q.policy == run[0].sh.q.policy
  {
    if i > 0 {
      RejectedExact(run, i - 1);
      assert StepAt(run, i - 1);
      var (s, s') := (run[i - 1], run[i]);
      var t :| Steps(s, t, s');
      StepDecides(s.sh, At(s, t), s'.sh, At(s', t));
      assert forall u :: u != t ==> At(s', u) == At(s, u);
      assert SomeRefused(run, i - 1) <==> RefusedAt(run, i - 1, t);
    }
  }

  ghost predicate CanStep<T(!new)>(sh: Shared<T>, pc: Pc<T>)
    requires Consistent(sh.q)
  {
    exists sh', pc' :: Next(sh, pc, sh', pc')
  }

  lemma {:induction false} PushCanStep<T(!new)>(sh: Shared<T>, pc: Pc<T>)
    requires Consistent(sh.q) && PartOf(pc).Pushes?
    ensures CanStep(sh, pc)
  {
    match pc
    case PushEnter(v) =>
      var r := Push(sh.q, v);
      if !r.accepted {
        assert Next(sh, pc, sh.(q := r.q), Idle);
      } else if r.evicted.None? {
        assert Next(sh, pc, sh.(q := r.q, log := Accept(sh.log, v)), PushSignal(None));
      } else {
        var log := Leave(Accept(sh.log, v), [r.evicted.value], Dropped);
        assert Next(sh, pc, sh.(q := r.q, log := log), PushSignal(Some(|sh.log.left|)));
      }
    case PushSignal(evicted) =>
      var pc' := if evicted.Some? && sh.hasOnDrop then PushDrop(evicted.value) else Idle;
      assert Next(sh, pc, sh.(notEmpty := true), pc');
    case PushDrop(g) => assert Next(sh, pc, sh.(handed := sh.handed + [g]), Idle);
  }

  lemma {:induction false} WaitCanStep<T(!new)>(sh: Shared<T>, pc: Pc<T>)
    requires Consistent(sh.q) && PartOf(pc).Waits?
    ensures CanStep(sh, pc)
  {
    match pc
    case WaitEnter(v, _) =>
      var (q, a) := PushWait(sh.q, v);
      match a {
        case Accepted(more) => assert Next(sh, pc, sh.(q := q, log := Accept(sh.log, v)), WaitSignalEmpty(more));
        case Refused => assert Next(sh, pc, sh.(q := q), Idle);
        case Full => assert Next(sh, pc, sh.(q := q), WaitParked(v));
      }
    case WaitSignalEmpty(more) => assert Next(sh, pc, sh.(notEmpty := true), if more then WaitSignalFull else Idle);
    case WaitSignalFull => assert Next(sh, pc, sh.(notFull := true), Idle);
    case WaitParked(_) => assert Next(sh, pc, sh, Idle);
  }

  lemma {:induction false} PopCanStep<T(!new)>(sh: Shared<T>, pc: Pc<T>)
    requires Consistent(sh.q) && PartOf(pc).Pops?
    ensures CanStep(sh, pc)
  {
    match pc
    case PopEnter(wait, _) =>
      var (q, r) := Pop(sh.q);
      if r.Some? {
        var log := Leave(sh.log, [r.value], Popped);
        assert Next(sh, pc, sh.(q := q, log := log), PopSignalFull(|q.items| > 0));
      } else {
        assert Next(sh, pc, sh.(q := q), if wait then PopCheck else Idle);
      }
    case PopSignalFull(more) => assert Next(sh, pc, sh.(notFull := true), if more then PopSignalEmpty else Idle);
    case PopSignalEmpty => assert Next(sh, pc, sh.(notEmpty := true), Idle);
    case PopCheck => assert Next(sh, pc, sh, if sh.q.closed && |sh.q.items| == 0 then Idle else PopParked);
    case PopParked => assert Next(sh, pc, sh, Idle);
  }

  lemma {:induction false} EndCanStep<T(!new)>(sh: Shared<T>, pc: Pc<T>)
    requires Consistent(sh.q) && PartOf(pc).Ends?
    ensures CanStep(sh, pc)
  {
    match pc
    case CloseEnter => assert Next(sh, pc, sh.(q := sh.q.(closed := true)), if sh.q.closed then Idle else CloseDone);
    case CloseDone => assert Next(sh, pc, sh.(done := true, closes := sh.closes + 1), Idle);
    case DrainEnter =>
      var sh' := sh.(q := Drain(sh.q), log := Leave(sh.log, sh.q.items, Dropped),
                     fullDrain := sh.fullDrain || (!sh.q.closed && |sh.q.items| == sh.q.cap));
      assert Next(sh, pc, sh', if sh.hasOnDrop then DrainDrop(seq(|sh.q.items|, i => |sh.log.left| + i)) else Idle);
    case DrainDrop(todo) =>
      if |todo| == 0 {
        assert Next(sh, pc, sh, Idle);
      } else {
        assert Next(sh, pc, sh.(handed := sh.handed + [todo[0]]), DrainDrop(todo[1..]));
      }
  }

  /** No thread inside an operation is ever stuck: outside its select it can always go on. */
  lemma {:induction false} NeverStuck<T(!new)>(run: seq<State<T>>, i: nat, t: Tid)
    requires Run(run) && i < |run| && !At(run[i], t).Idle?
    ensures Consistent(run[i].sh.q) && CanStep(run[i].sh, At(run[i], t))
  {
    Reachable(run, i);
    var (sh, pc) := (run[i].sh, At(run[i], t));
    match PartOf(pc)
    case Pushes => PushCanStep(sh, pc);
    case Waits => WaitCanStep(sh, pc);
    case Pops => PopCanStep(sh, pc);
    case Ends => EndCanStep(sh, pc);
  }

  /** FIFO over a whole run, with each accepted item popped, dropped or still queued. */
  lemma {:induction false} FifoConservation<T(!new)>(run: seq<State<T>>, i: nat)
    requires Run(run) && i < |run|
    ensures var (h, q) := (run[i].sh.log, run[i].sh.q);
            && h.accepted == h.left + q.items && |h.fates| == |h.left| && |q.items| <= q.cap
            && q.stats.pushed == q.stats.popped + q.stats.dropped + |q.items|
            && q.stats.popped == Count(h.fates, Popped) && q.stats.dropped == Count(h.fates, Dropped)
  {
    Reachable(run, i);
  }

  /** When the threads are at rest, OnDrop has received exactly the dropped items,
      each once. */
  lemma {:induction false} DropsReachOnDrop<T(!new)>(run: seq<State<T>>, i: nat)
    requires Run(run) && i < |run| && Quiet(run[i]) && run[i].sh.hasOnDrop
    ensures NoDup(run[i].sh.handed)
    ensures forall g: nat :: g in run[i].sh.handed <==> WasDropped(run[i].sh.log.fates, g)
  {
    Reachable(run, i);
    assert forall t, g :: !OwedBy(run[i], t, g);
  }

  /** Exactly when a Drain keeps producers safe: it is closed or not full, which its caller
      can see, or else no producer is parked or a wake-up was already on its way. */
  lemma {:induction false} DrainExact<T(!new)>(run: seq<State<T>>, i: nat, t: Tid)
    requires Run(run) && i + 1 < |run| && !run[i].sh.fullDrain
    requires Steps(run[i], t, run[i + 1]) && At(run[i], t).DrainEnter?
    ensures var (s, s') := (run[i], run[i + 1]);
            ProducerLive(s') <==> SafeToDrain(s.sh.q) || !ProducerParked(s) || ProducerWake(s)
  {
    Reachable(run, i);
    DrainStep(run[i], t, run[i + 1]);
  }

  lemma {:induction false} DrainStep<T>(s: State<T>, t: Tid, s': State<T>)
    requires Conserved(s.sh) && Steps(s, t, s') && At(s, t).DrainEnter?
    ensures ProducerLive(s') <==> s.sh.q.closed || !ProducerParked(s) || ProducerWake(s)
  {
    assert s'.sh.q.cap > |s'.sh.q.items|;
    assert forall u :: u != t ==> (u in s.pcs <==> u in s'.pcs) && (u in s.pcs ==> s.pcs[u] == s'.pcs[u]);
    assert t in s.pcs && t in s'.pcs;
    if ProducerParked(s) {
      var p :| p in s.pcs && s.pcs[p].WaitParked?;
      assert p in s'.pcs && s'.pcs[p].WaitParked?;
    }
    if u :| u in s.pcs && WakesProducer(s.pcs[u]) {
      assert u in s'.pcs && WakesProducer(s'.pcs[u]);
    }
  }

  /** The states of a run that strands a producer: thread 0 fills a ring of capacity 1,
      thread 1 parks in PushWait, then thread 0 drains the open ring. */
  function Strand(i: nat): State<int>
    requires i < 8
  {
    var none := Shared(Queue(1, Reject, [], false, Stats(0, 0, 0, 0)), false, false, false, false,
                       Log([], [], []), [], 0, false);
    var one := none.(q := Queue(1, Reject, [7], false, Stats(1, 0, 0, 0)), log := Log([7], [], []));
    var told := one.(notEmpty := true);
    var gone := told.(q := Queue(1, Reject, [], false, Stats(1, 0, 1, 0)), log := Log([7], [7], [Dropped]),
                      fullDrain := true);
    match i
    case 0 => State(none, map[])
    case 1 => State(none, map[0 := PushEnter(7)])
    case 2 => State(one, map[0 := PushSignal(None)])
    case 3 => State(told, map[0 := Idle])
    case 4 => State(told, map[0 := Idle, 1 := WaitEnter(8, false)])
    case 5 => State(told, map[0 := Idle, 1 := WaitParked(8)])
    case 6 => State(told, map[0 := DrainEnter, 1 := WaitParked(8)])
    case _ => State(gone, map[0 := Idle, 1 := WaitParked(8)])
  }

  lemma StrandFills()
    ensures Steps(Strand(0), 0, Strand(1)) && Steps(Strand(1), 0, Strand(2)) && Steps(Strand(2), 0, Strand(3))
  {
  }

  lemma StrandParks()
    ensures Steps(Strand(3), 1, Strand(4)) && Steps(Strand(4), 1, Strand(5)) && Steps(Strand(5), 0, Strand(6))
  {
  }

  lemma StrandDrains()
    ensures Steps(Strand(6), 0, Strand(7))
  {
    assert [Dropped] == seq(1, _ => Dropped);
  }

  lemma StrandStep(i: nat)
    requires i < 7
    ensures Steps(Strand(i), if i == 3 || i == 4 then 1 else 0, Strand(i + 1))
  {
    if i < 3 { StrandFills(); } else if i < 6 { StrandParks(); } else { StrandDrains(); }
  }

  /** A Drain on a full open ring can strand a producer: thread 1 is parked before an empty
      open ring, every thread is at rest and no token is left. */
  lemma EarlyDrainStrands() returns (run: seq<State<int>>)
    ensures Run(run)
    ensures var s := run[|run| - 1]; Quiet(s) && At(s, 1).WaitParked? && Room(s.sh) && !s.sh.notFull
  {
    run := seq(8, i requires 0 <= i < 8 => Strand(i));
    forall i: nat | i + 1 < |run| ensures StepAt(run, i) {
      StrandStep(i);
      var (s, s') := (run[i], run[i + 1]);
      assert Steps(s, if i == 3 || i == 4 then 1 else 0, s');
    }
  }
}
