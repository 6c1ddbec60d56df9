/** udp.dropCounter: readers that share a socket report the kernel's wrapping 32-bit drop
    count, late, twice or out of order. Each load, CAS and add is one step. */
module UdpDrops {
  import opened Sums

  type Tid = nat

  const WRAP: nat := 0x1_0000_0000
  const HALF: nat := 0x8000_0000

  /** int32(raw - prev) on uint32 values. */
  function Delta(raw: nat, prev: nat): int {
    var d := (raw - prev) % WRAP;
    if d < HALF then d else d - WRAP
  }

  /** The signed 32-bit window. */
  predicate Near(count: nat, behind: nat) { behind <= count + HALF && count < behind + HALF }

  /** The wrapped difference is the true difference exactly inside the window. */
  lemma DeltaExact(count: nat, behind: nat)
    ensures Delta(count % WRAP, behind % WRAP) == count - behind <==> Near(count, behind)
  {
    var d := count - behind;
    assert (count % WRAP - behind % WRAP) % WRAP == d % WRAP by {
      ModShift(count, behind);
    }
    if Near(count, behind) {
      assert d % WRAP == if d >= 0 then d else d + WRAP;
    }
  }

  lemma ModShift(a: nat, b: nat)
    ensures (a % WRAP - b % WRAP) % WRAP == (a - b) % WRAP
  {
    var (qa, qb) := (a / WRAP, b / WRAP);
    assert a - b == (a % WRAP - b % WRAP) + WRAP * (qa - qb);
    AddMultiple(a % WRAP - b % WRAP, qa - qb);
  }

  lemma AddMultiple(x: int, q: int)
    ensures (x + WRAP * q) % WRAP == x % WRAP
  {
  }

  /** A thread carries the true count it reports; the source sees it modulo 2^32. */
  datatype Pc = Idle | Load(count: nat) | Cas(count: nat, prev: nat) | Add(count: nat, delta: nat)

  /** The 32-bit `last` and the total; then history: the true count behind `last`, and the
      true counts of the reports that have been decided. */
  datatype Shared = Shared(last: nat, total: nat, behind: nat, decided: set<nat>)

  ghost predicate Next(sh: Shared, pc: Pc, sh': Shared, pc': Pc) {
    match pc
    case Idle => sh' == sh && pc'.Load?
    case Load(n) =>
      if Delta(n % WRAP, sh.last) <= 0 then sh' == sh.(decided := sh.decided + {n}) && pc' == Idle
      else sh' == sh && pc' == Cas(n, sh.last)
    case Cas(n, prev) =>
      if sh.last == prev then
        && sh' == sh.(last := n % WRAP, behind := n, decided := sh.decided + {n})
        && Delta(n % WRAP, prev) >= 0 && pc' == Add(n, Delta(n % WRAP, prev))
      else sh' == sh && pc' == Load(n)
    case Add(_, delta) => sh' == sh.(total := sh.total + delta) && pc' == Idle
  }

  /** A step that drops a report as old, or that wins the CAS for it. */
  predicate Decides(sh: Shared, pc: Pc) {
    (pc.Load? && Delta(pc.count % WRAP, sh.last) <= 0) || (pc.Cas? && sh.last == pc.prev)
  }

  /** The assumption: a report is within the window of the count behind `last` at the step
      that decides it. */
  predicate Timely(sh: Shared, pc: Pc) { Decides(sh, pc) ==> Near(pc.count, sh.behind) }

  datatype State = State(sh: Shared, pcs: map<Tid, Pc>)

  function At(s: State, t: Tid): Pc { if t in s.pcs then s.pcs[t] else Idle }

  ghost predicate Steps(s: State, t: Tid, s': State) {
    && s'.pcs == s.pcs[t := At(s', t)] && Next(s.sh, At(s, t), s'.sh, At(s', t)) && Timely(s.sh, At(s, t))
  }

  ghost predicate Start(s: State) { s.sh == Shared(0, 0, 0, {}) && s.pcs == map[] }

  ghost predicate StepAt(run: seq<State>, i: nat)
    requires i + 1 < |run|
  {
    var (s, s') := (run[i], run[i + 1]);
    exists t :: Steps(s, t, s')
  }

  ghost predicate Run(run: seq<State>) {
    |run| > 0 && Start(run[0]) && forall i: nat :: i + 1 < |run| ==> StepAt(run, i)
  }

  /** A drop count that has won its CAS and is not added yet. */
  function Carry(pc: Pc): nat { if pc.Add? then pc.delta else 0 }

  function Carries(pcs: map<Tid, Pc>): map<Tid, nat> { map t | t in pcs :: Carry(pcs[t]) }

  ghost predicate Inv(s: State) {
    && s.sh.last == s.sh.behind % WRAP
    && s.sh.total + Sum(Carries(s.pcs)) == s.sh.behind
    && (forall n :: n in s.sh.decided ==> n <= s.sh.behind)
    && (s.sh.behind == 0 || s.sh.behind in s.sh.decided)
    && (forall t :: t in s.pcs && s.pcs[t].Cas? ==> Delta(s.pcs[t].count % WRAP, s.pcs[t].prev) > 0)
  }

  /** A step that wins moves `behind` forward by exactly what it will add. */
  lemma {:induction false} DropStep(sh: Shared, pc: Pc, sh': Shared, pc': Pc)
    requires Next(sh, pc, sh', pc') && Timely(sh, pc) && sh.last == sh.behind % WRAP
    requires pc.Cas? ==> Delta(pc.count % WRAP, pc.prev) > 0
    ensures sh'.last == sh'.behind % WRAP && sh'.behind >= sh.behind
    ensures sh'.total + Carry(pc') - sh'.behind == sh.total + Carry(pc) - sh.behind
    ensures pc'.Cas? ==> Delta(pc'.count % WRAP, pc'.prev) > 0
    ensures forall n :: n in sh'.decided ==> n in sh.decided || n <= sh'.behind
    ensures sh.decided <= sh'.decided && (sh'.behind == sh.behind || sh'.behind in sh'.decided)
  {
    if pc.Load? || pc.Cas? {
      DeltaExact(pc.count, sh.behind);
    }
  }

  lemma {:induction false} CarriesMove(pcs: map<Tid, Pc>, t: Tid, pc': Pc)
    ensures Sum(Carries(pcs[t := pc'])) == Sum(Carries(pcs)) - Carry(if t in pcs then pcs[t] else Idle) + Carry(pc')
  {
    var m := Carries(pcs);
    assert Carries(pcs[t := pc']) == m[t := Carry(pc')];
    SumPut(m, t, Carry(pc'));
    if t in m { SumDrop(m, t); } else { assert m - {t} == m; }
  }

  lemma {:induction false} KeepsInv(s: State, t: Tid, s': State)
    requires Inv(s) && Steps(s, t, s')
    ensures Inv(s')
  {
    DropStep(s.sh, At(s, t), s'.sh, At(s', t));
    CarriesMove(s.pcs, t, At(s', t));
  }

  lemma {:induction false} Reachable(run: seq<State>, i: nat)
    requires Run(run) && i < |run|
    ensures Inv(run[i])
  {
    if i == 0 {
      assert Carries(run[0].pcs) == map[];
    } else {
      Reachable(run, i - 1);
      assert StepAt(run, i - 1);
      var (s, s') := (run[i - 1], run[i]);
      var t :| Steps(s, t, s');
      KeepsInv(s, t, s');
    }
  }

  /** At every step, the total plus what is still to be added is the greatest true count
      among the reports decided so far, across any number of 32-bit wraps, however stale or
      repeated the reports are. */
  lemma TotalIsGreatest(run: seq<State>, i: nat)
    requires Run(run) && i < |run|
    ensures var (sh, sum) := (run[i].sh, run[i].sh.total + Sum(Carries(run[i].pcs)));
            && (forall n :: n in sh.decided ==> n <= sum)
            && (sum == 0 || sum in sh.decided)
  {
    Reachable(run, i);
  }

  /** With no observe under way, the total is that greatest count. */
  lemma QuietTotal(run: seq<State>, i: nat)
    requires Run(run) && i < |run| && forall t :: t in run[i].pcs ==> run[i].pcs[t].Idle?
    ensures (forall n :: n in run[i].sh.decided ==> n <= run[i].sh.total)
    ensures run[i].sh.total == 0 || run[i].sh.total in run[i].sh.decided
  {
    TotalIsGreatest(run, i);
    AllZero(Carries(run[i].pcs));
  }

  /** An observe of n that is under way; once it has won its CAS its count is decided. */
  predicate Observing(sh: Shared, pc: Pc, n: nat) { !pc.Idle? && pc.count == n && (pc.Add? ==> n in sh.decided) }

  lemma {:induction false} ObserveStep(sh: Shared, pc: Pc, sh': Shared, pc': Pc, n: nat)
    requires Next(sh, pc, sh', pc') && Observing(sh, pc, n)
    ensures if pc'.Idle? then n in sh'.decided else Observing(sh', pc', n)
  {
  }

  lemma {:induction false} DecidedStays(sh: Shared, pc: Pc, sh': Shared, pc': Pc)
    requires Next(sh, pc, sh', pc')
    ensures sh.decided <= sh'.decided
  {
  }

  lemma {:induction false} ObserveUnderWay(run: seq<State>, t: Tid, i: nat, j: nat, n: nat)
    requires Run(run) && i <= j < |run| && At(run[i], t) == Load(n)
    requires forall k :: i <= k <= j ==> !At(run[k], t).Idle?
    ensures Observing(run[j].sh, At(run[j], t), n)
    decreases j
  {
    if i < j {
      ObserveUnderWay(run, t, i, j - 1, n);
      assert StepAt(run, j - 1);
      var (s, s') := (run[j - 1], run[j]);
      var u :| Steps(s, u, s');
      DecidedStays(s.sh, At(s, u), s'.sh, At(s', u));
      if u == t { ObserveStep(s.sh, At(s, t), s'.sh, At(s', t), n); }
    }
  }

  /** When an observe returns, its count has been decided, so it is within the total and what is
      still to be added; a lost CAS is not a reason to give up. */
  lemma {:induction false} ObserveIsDecided(run: seq<State>, t: Tid, i: nat, j: nat, n: nat)
    requires Run(run) && i <= j < |run| - 1 && At(run[i], t) == Load(n) && At(run[j + 1], t).Idle?
    requires forall k :: i <= k <= j ==> !At(run[k], t).Idle?
    ensures n in run[j + 1].sh.decided && n <= run[j + 1].sh.total + Sum(Carries(run[j + 1].pcs))
  {
    ObserveUnderWay(run, t, i, j, n);
    assert StepAt(run, j);
    var (s, s') := (run[j], run[j + 1]);
    var u :| Steps(s, u, s');
    if u == t { ObserveStep(s.sh, At(s, t), s'.sh, At(s', t), n); }
    TotalIsGreatest(run, j + 1);
  }

  /** The window cannot be widened: a report 2^31 ahead is taken for a stale one, and one
      2^31 + 1 behind for a fresh one. */
  lemma WindowIsSharp(behind: nat)
    ensures Delta((behind + HALF) % WRAP, behind % WRAP) <= 0
    ensures behind > HALF ==> Delta((behind - HALF - 1) % WRAP, behind % WRAP) > 0
  {
    ModShift(behind + HALF, behind);
    if behind > HALF { ModShift(behind - HALF - 1, behind); }
  }
}
