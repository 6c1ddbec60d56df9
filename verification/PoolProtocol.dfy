/** buf.Pool over limit.Budget as a concurrent protocol: any number of threads get and
    release buffers, and reserve directly, through the CAS loop of Budget.Reserve. Each
    load, CAS, atomic add and pool operation is one step; the collector may drop pooled
    buffers at any time. */
module PoolProtocol {
  import opened LimitSpec
  import opened SizeClasses
  import opened Sums

  type Tid = nat
  type BufId = nat   // stands for the buffer's memory

  datatype Pc =
    | Idle
    | GetLoad(n: nat) | GetCas(n: nat, seen: int) | GetTake(n: nat)
    | Refund(b: BufId, cap: nat) | Put(b: BufId)
    | ReserveLoad(n: nat) | ReserveCas(n: nat, seen: int)

  /** `caps` knows every buffer ever made; `direct` is what Reserve was granted outside
      the pool. */
  datatype Shared = Shared(max: nat, used: int, live: map<BufId, nat>, free: set<BufId>, caps: map<BufId, nat>,
    direct: nat)

  function CapOf(n: nat): (c: nat)
    ensures c == Capacity(n)
  {
    CapacityMonotone(0, n);
    Capacity(n)
  }

  /** An idle thread calls Get or Reserve, releases a buffer it owns, or gives back part
      of a direct reservation. A release gives up ownership at once, so it happens once. */
  ghost predicate Call(sh: Shared, sh': Shared, pc': Pc) {
    || (sh' == sh && (pc'.GetLoad? || pc'.ReserveLoad?))
    || (pc'.Refund? && pc'.b in sh.live && pc'.cap == sh.live[pc'.b] && sh' == sh.(live := sh.live - {pc'.b}))
    || (pc'.Idle? && exists m: nat :: GivesBack(sh, m, sh'))
  }

  ghost predicate GivesBack(sh: Shared, m: nat, sh': Shared) {
    m <= sh.direct && sh' == sh.(used := sh.used - m, direct := sh.direct - m)
  }

  /** sync.Pool hands out a pooled buffer of the class of n. */
  ghost predicate Reuses(sh: Shared, n: nat, b: BufId, sh': Shared) {
    && b in sh.free && n <= LARGE && b in sh.caps && sh.caps[b] == CapOf(n)
    && sh' == sh.(free := sh.free - {b}, live := sh.live[b := CapOf(n)])
  }

  /** A new buffer, with memory of its own. */
  ghost predicate Makes(sh: Shared, n: nat, b: BufId, sh': Shared) {
    b !in sh.caps && sh' == sh.(caps := sh.caps[b := CapOf(n)], live := sh.live[b := CapOf(n)])
  }

  ghost predicate Next(sh: Shared, pc: Pc, sh': Shared, pc': Pc) {
    match pc
    case Idle => Call(sh, sh', pc')
    case GetLoad(n) =>
      sh' == sh && pc' == if Grants(sh.max, sh.used, CapOf(n)) then GetCas(n, sh.used) else Idle
    case GetCas(n, seen) =>
      if sh.used == seen then sh' == sh.(used := seen + CapOf(n)) && pc' == GetTake(n)
      else sh' == sh && pc' == GetLoad(n)
    case GetTake(n) =>
      pc'.Idle? && exists b :: Reuses(sh, n, b, sh') || Makes(sh, n, b, sh')
    case Refund(b, cap) =>
      sh' == sh.(used := sh.used - cap) && pc' == if cap <= LARGE then Put(b) else Idle
    case Put(b) => sh' == sh.(free := sh.free + {b}) && pc' == Idle
    case ReserveLoad(n) =>
      sh' == sh && pc' == if Grants(sh.max, sh.used, n) then ReserveCas(n, sh.used) else Idle
    case ReserveCas(n, seen) =>
      if sh.used == seen then sh' == sh.(used := seen + n, direct := sh.direct + n) && pc' == Idle
      else sh' == sh && pc' == ReserveLoad(n)
  }

  datatype State = State(sh: Shared, pcs: map<Tid, Pc>)

  function At(s: State, t: Tid): Pc { if t in s.pcs then s.pcs[t] else Idle }

  ghost predicate Steps(s: State, t: Tid, s': State) {
    || (s'.pcs == s.pcs[t := At(s', t)] && Next(s.sh, At(s, t), s'.sh, At(s', t)))
    || (s'.pcs == s.pcs && exists lost :: s'.sh == s.sh.(free := s.sh.free - lost))   // the collector
  }

  ghost predicate Start(s: State) {
    s.sh.max > 0 && s.sh == Shared(s.sh.max, 0, map[], {}, map[], 0) && s.pcs == map[]
  }

  ghost predicate StepAt(run: seq<State>, i: nat)
    requires i + 1 < |run|
  {
    var (s, s') := (run[i], run[i + 1]);
    exists t :: Steps(s, t, s')
  }

  ghost predicate Run(run: seq<State>) {
    |run| > 0 && Start(run[0]) && forall i: nat :: i + 1 < |run| ==> StepAt(run, i)
  }

  // ---- Invariants ----

  /** What a thread has charged without a live buffer to show for it. */
  function Charge(pc: Pc): nat {
    match pc
    case GetTake(n) => CapOf(n)
    case Refund(_, cap) => cap
    case _ => 0
  }

  /** The buffer a thread is returning, which is neither live nor pooled. */
  predicate Returns(pc: Pc, b: BufId) { (pc.Refund? || pc.Put?) && pc.b == b }

  function Charges(pcs: map<Tid, Pc>): map<Tid, nat> { map t | t in pcs :: Charge(pcs[t]) }

  /** A thread about to CAS has seen a value with room for what it asks. */
  predicate Fits(pc: Pc, max: nat) {
    (pc.GetCas? ==> pc.seen + CapOf(pc.n) <= max) && (pc.ReserveCas? ==> pc.seen + pc.n <= max)
  }

  /** The budget is exactly the live buffers, the charges in flight and the direct
      reservations, and never leaves 0..max. */
  ghost predicate Accounts(s: State) {
    && s.sh.used == Sum(s.sh.live) + Sum(Charges(s.pcs)) + s.sh.direct
    && s.sh.used <= s.sh.max
    && forall t :: t in s.pcs ==> Fits(s.pcs[t], s.sh.max)
  }

  /** Memory has one place: live, pooled, or on its way back with one thread. */
  ghost predicate Placed(sh: Shared) {
    && (forall b :: b in sh.live ==> b in sh.caps && sh.live[b] == sh.caps[b] && b !in sh.free)
    && (forall b :: b in sh.free ==> b in sh.caps)
  }

  ghost predicate Separate(s: State) {
    && Placed(s.sh)
    && (forall t, b :: Returns(At(s, t), b) ==> b in s.sh.caps && b !in s.sh.live && b !in s.sh.free)
    && (forall t, u, b :: Returns(At(s, t), b) && Returns(At(s, u), b) ==> t == u)
  }

  ghost predicate Inv(s: State) { Accounts(s) && Separate(s) }

  // ---- Every step keeps them ----

  /** A step moves a charge but never loses one, and a CAS that succeeds stays within max. */
  ghost predicate ChargeEffect(sh: Shared, pc: Pc, sh': Shared, pc': Pc) {
    && sh'.used - Sum(sh'.live) - Charge(pc') - sh'.direct == sh.used - Sum(sh.live) - Charge(pc) - sh.direct
    && sh'.used <= sh'.max == sh.max
    && Fits(pc', sh.max)
  }

  lemma TakeCharges(sh: Shared, n: nat, b: BufId, sh': Shared)
    requires Placed(sh) && (Reuses(sh, n, b, sh') || Makes(sh, n, b, sh'))
    ensures Sum(sh'.live) == Sum(sh.live) + CapOf(n)
  {
    SumPut(sh.live, b, CapOf(n));
    assert sh.live - {b} == sh.live;
  }

  lemma {:induction false} ChargeStep(sh: Shared, pc: Pc, sh': Shared, pc': Pc)
    requires Next(sh, pc, sh', pc') && sh.used <= sh.max && Fits(pc, sh.max) && Placed(sh)
    ensures ChargeEffect(sh, pc, sh', pc')
  {
    if pc.Idle? && pc'.Refund? {
      SumDrop(sh.live, pc'.b);
    }
    if pc.GetTake? {
      var b :| Reuses(sh, pc.n, b, sh') || Makes(sh, pc.n, b, sh');
      TakeCharges(sh, pc.n, b, sh');
    }
  }

  lemma {:induction false} ChargesMove(pcs: map<Tid, Pc>, t: Tid, pc': Pc)
    ensures Sum(Charges(pcs[t := pc'])) == Sum(Charges(pcs)) - Charge(if t in pcs then pcs[t] else Idle) + Charge(pc')
  {
    var m := Charges(pcs);
    assert Charges(pcs[t := pc']) == m[t := Charge(pc')];
    SumPut(m, t, Charge(pc'));
    if t in m { SumDrop(m, t); } else { assert m - {t} == m; }
  }

  lemma {:induction false} KeepsAccounts(s: State, t: Tid, s': State)
    requires Inv(s) && Steps(s, t, s')
    ensures Accounts(s')
  {
    if s'.pcs == s.pcs[t := At(s', t)] && Next(s.sh, At(s, t), s'.sh, At(s', t)) {
      ChargeStep(s.sh, At(s, t), s'.sh, At(s', t));
      ChargesMove(s.pcs, t, At(s', t));
    }
  }

  /** Where memory moves: a step keeps every buffer in one place and at most starts or
      continues returning its own. */
  ghost predicate MoveEffect(sh: Shared, pc: Pc, sh': Shared, pc': Pc) {
    && Placed(sh')
    && sh.caps.Keys <= sh'.caps.Keys
    && (forall b :: Returns(pc', b) ==>
          b in sh'.caps && b !in sh'.live && b !in sh'.free && (Returns(pc, b) || b in sh.live))
    && (forall b :: b in sh'.live || b in sh'.free ==> b in sh.live || b in sh.free || Returns(pc, b) || b !in sh.caps)
  }

  lemma {:induction false} MoveStep(sh: Shared, pc: Pc, sh': Shared, pc': Pc)
    requires Next(sh, pc, sh', pc') && Placed(sh)
    requires forall b :: Returns(pc, b) ==> b in sh.caps && b !in sh.live && b !in sh.free
    ensures MoveEffect(sh, pc, sh', pc')
  {
  }

  lemma {:induction false} KeepsSeparate(s: State, t: Tid, s': State)
    requires Separate(s) && Steps(s, t, s')
    ensures Separate(s')
  {
    if s'.pcs == s.pcs[t := At(s', t)] && Next(s.sh, At(s, t), s'.sh, At(s', t)) {
      MoveStep(s.sh, At(s, t), s'.sh, At(s', t));
      assert forall u :: u != t ==> At(s', u) == At(s, u);
    } else {
      assert forall u :: At(s', u) == At(s, u);
    }
  }

  lemma {:induction false} StepInv(run: seq<State>, i: nat)
    requires i + 1 < |run| && StepAt(run, i) && Inv(run[i])
    ensures Inv(run[i + 1])
  {
    var (s, s') := (run[i], run[i + 1]);
    var t :| Steps(s, t, s');
    KeepsAccounts(s, t, s');
    KeepsSeparate(s, t, s');
  }

  lemma {:induction false} Reachable(run: seq<State>, i: nat)
    requires Run(run) && i < |run|
    ensures Inv(run[i])
  {
    if i == 0 {
      assert Charges(run[0].pcs) == map[];
    } else {
      Reachable(run, i - 1);
      StepInv(run, i - 1);
    }
  }

  // ---- What they mean ----

  /** At every atomic step the budget is within 0..max and covers the live buffers. */
  lemma BudgetCoversLive(run: seq<State>, i: nat)
    requires Run(run) && i < |run|
    ensures Sum(run[i].sh.live) <= run[i].sh.used <= run[i].sh.max
  {
    Reachable(run, i);
  }

  /** With no operation in flight and no direct reservation, Used is exactly the capacity
      of the live buffers. */
  lemma UsedIsLive(run: seq<State>, i: nat)
    requires Run(run) && i < |run| && run[i].sh.direct == 0
    requires forall t :: t in run[i].pcs ==> run[i].pcs[t].Idle?
    ensures run[i].sh.used == Sum(run[i].sh.live)
  {
    Reachable(run, i);
    AllZero(Charges(run[i].pcs));
  }

  /** The buffer a Get is about to hand out is held by nobody: not live, and not on its
      way back. */
  lemma GetIsExclusive(run: seq<State>, i: nat, t: Tid, n: nat, b: BufId, sh': Shared)
    requires Run(run) && i < |run| && At(run[i], t) == GetTake(n)
    requires Reuses(run[i].sh, n, b, sh') || Makes(run[i].sh, n, b, sh')
    ensures b !in run[i].sh.live && b !in sh'.free && b in sh'.live && forall u :: !Returns(At(run[i], u), b)
  {
    Reachable(run, i);
  }

  // ---- What one call has done ----

  /** Thread t is inside a call from state i to state j and returns in the next step. */
  ghost predicate Completes(run: seq<State>, t: Tid, i: nat, j: nat) {
    i <= j && j + 1 < |run| && At(run[j + 1], t).Idle? && forall k :: i <= k <= j ==> !At(run[k], t).Idle?
  }

  /** In every step thread t moves or stays where it is. */
  lemma {:induction false} OwnOrStays(run: seq<State>, k: nat, t: Tid)
    requires Run(run) && k + 1 < |run|
    ensures Next(run[k].sh, At(run[k], t), run[k + 1].sh, At(run[k + 1], t)) || At(run[k + 1], t) == At(run[k], t)
  {
    assert StepAt(run, k);
    var (s, s') := (run[k], run[k + 1]);
    var u :| Steps(s, u, s');
  }

  predicate InGet(pc: Pc, n: nat) { (pc.GetLoad? || pc.GetCas? || pc.GetTake?) && pc.n == n }

  predicate InReserve(pc: Pc, n: nat) { (pc.ReserveLoad? || pc.ReserveCas?) && pc.n == n }

  predicate InRelease(pc: Pc, b: BufId, cap: nat) {
    (pc.Refund? && pc.b == b && pc.cap == cap) || (pc.Put? && pc.b == b && cap <= LARGE)
  }

  lemma {:induction false} CallGoes(sh: Shared, pc: Pc, sh': Shared, pc': Pc, n: nat, b: BufId)
    requires Next(sh, pc, sh', pc') && !pc'.Idle?
    ensures (InGet(pc, n) ==> InGet(pc', n)) && (InReserve(pc, n) ==> InReserve(pc', n))
    ensures InRelease(pc, b, n) ==> InRelease(pc', b, n)
  {
  }

  lemma {:induction false} CallUnderWay(run: seq<State>, t: Tid, i: nat, j: nat, n: nat, b: BufId)
    requires Run(run) && i <= j < |run| && forall k :: i <= k <= j ==> !At(run[k], t).Idle?
    ensures InGet(At(run[i], t), n) ==> InGet(At(run[j], t), n)
    ensures InReserve(At(run[i], t), n) ==> InReserve(At(run[j], t), n)
    ensures InRelease(At(run[i], t), b, n) ==> InRelease(At(run[j], t), b, n)
    decreases j
  {
    if i < j {
      CallUnderWay(run, t, i, j - 1, n, b);
      OwnOrStays(run, j - 1, t);
      if At(run[j], t) != At(run[j - 1], t) {
        CallGoes(run[j - 1].sh, At(run[j - 1], t), run[j].sh, At(run[j], t), n, b);
      }
    }
  }

  /** A call of Get(n) ends with one more live buffer, of the capacity of n, or in a state whose
      budget does not cover that capacity: a lost CAS is no reason to give up. */
  lemma {:induction false} GetEnds(run: seq<State>, t: Tid, i: nat, j: nat, n: nat)
    requires Run(run) && Completes(run, t, i, j) && At(run[i], t) == GetLoad(n)
    ensures var (sh, sh') := (run[j].sh, run[j + 1].sh);
            || (sh' == sh && sh.used + Capacity(n) > sh.max)
            || exists b: BufId :: b !in sh.live && sh'.live == sh.live[b := CapOf(n)]
  {
    CallUnderWay(run, t, i, j, n, 0);
    OwnOrStays(run, j, t);
    var (s, s') := (run[j], run[j + 1]);
    if At(s, t).GetTake? {
      var b: BufId :| Reuses(s.sh, n, b, s'.sh) || Makes(s.sh, n, b, s'.sh);
      Reachable(run, j);
      assert b !in s.sh.live && s'.sh.live == s.sh.live[b := CapOf(n)];
    }
  }

  /** A call of Reserve(n) ends with n more reserved, or in a state whose budget does not cover n. */
  lemma {:induction false} ReserveEnds(run: seq<State>, t: Tid, i: nat, j: nat, n: nat)
    requires Run(run) && Completes(run, t, i, j) && At(run[i], t) == ReserveLoad(n)
    ensures var (sh, sh') := (run[j].sh, run[j + 1].sh);
            || (sh' == sh && sh.used + n > sh.max)
            || (sh'.used == sh.used + n && sh'.direct == sh.direct + n)
  {
    CallUnderWay(run, t, i, j, n, 0);
    OwnOrStays(run, j, t);
  }

  /** A call of Release ends with the buffer pooled, exactly if it has a class. */
  lemma {:induction false} ReleaseEnds(run: seq<State>, t: Tid, i: nat, j: nat, b: BufId, cap: nat)
    requires Run(run) && Completes(run, t, i, j) && At(run[i], t) == Refund(b, cap)
    ensures b in run[j + 1].sh.free <==> cap <= LARGE
  {
    CallUnderWay(run, t, i, j, cap, b);
    OwnOrStays(run, j, t);
    Reachable(run, j);
    assert Returns(At(run[j], t), b);
  }

  /** Some number that no buffer has. */
  lemma {:induction false} Unused(caps: map<BufId, nat>) returns (b: BufId)
    ensures forall x :: x in caps ==> x < b
    decreases |caps|
  {
    if caps == map[] {
      b := 0;
    } else {
      var x :| x in caps;
      b := Unused(caps - {x});
      if b <= x { b := x + 1; }
      assert forall y :: y in caps ==> y == x || y in caps - {x};
    }
  }

  /** No call is ever stuck: Get, Reserve and Release never wait. */
  lemma {:induction false} NeverStuck(sh: Shared, pc: Pc)
    requires !pc.Idle?
    ensures exists sh', pc' :: Next(sh, pc, sh', pc')
  {
    match pc
    case GetLoad(n) =>
      assert Next(sh, pc, sh, if Grants(sh.max, sh.used, CapOf(n)) then GetCas(n, sh.used) else Idle);
    case GetCas(n, seen) =>
      if sh.used == seen {
        assert Next(sh, pc, sh.(used := seen + CapOf(n)), GetTake(n));
      } else {
        assert Next(sh, pc, sh, GetLoad(n));
      }
    case GetTake(n) =>
      var b := Unused(sh.caps);
      var sh' := sh.(caps := sh.caps[b := CapOf(n)], live := sh.live[b := CapOf(n)]);
      assert Makes(sh, n, b, sh');
      assert Next(sh, pc, sh', Idle);
    case Refund(b, cap) => assert Next(sh, pc, sh.(used := sh.used - cap), if cap <= LARGE then Put(b) else Idle);
    case Put(b) => assert Next(sh, pc, sh.(free := sh.free + {b}), Idle);
    case ReserveLoad(n) =>
      assert Next(sh, pc, sh, if Grants(sh.max, sh.used, n) then ReserveCas(n, sh.used) else Idle);
    case ReserveCas(n, seen) =>
      if sh.used == seen {
        assert Next(sh, pc, sh.(used := seen + n, direct := sh.direct + n), Idle);
      } else {
        assert Next(sh, pc, sh, ReserveLoad(n));
      }
  }
}
