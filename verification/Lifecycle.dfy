/** lifecycle.go: one Server and any number of LoopContext, Stop, Shutdown and forceAbort
    calls on it, with the goroutine that runs Service.Serve. Each critical section, each call
    and each return of a hook is one step. A hook returns any error; protect turns its panic
    into one. */
module Lifecycle {
  type Tid = nat

  datatype Leaf = Canceled | AbortTimeout | NoService | AlreadyRunning | NotRunning | ContextDone | Panicked
    | Cause(id: nat)

  /** The leaves of an error in order; [] is nil, and errors.Join is concatenation. */
  type Error = seq<Leaf>

  /** Is there a Service, and which hooks are set. */
  datatype Config = Config(service: bool, onStart: bool, onStop: bool, onError: bool)

  datatype Phase = New | Starting | Running | Stopping | Stopped

  datatype Serving = NotYet | InServe | Sent(err: Error)

  datatype Owner = Nobody | By(t: Tid)

  /** What the one run has done so far: calls made, the parts of its error, the joined error
      and the one it returns. */
  datatype Log = Log(
    starts: nat, shutdowns: nat, shutdownReturned: bool, cancelled: bool, stops: nat, reports: seq<Error>,
    startErr: Error, serveErr: Error, shutErr: Error, stopErr: Error, joined: Error, final: Error)

  datatype Shared = Shared(
    phase: Phase, stopped: bool, parentDone: bool, hasForce: bool, forced: bool, forces: nat, dones: nat, result: Error,
    serving: Serving, owner: Owner, log: Log)

  /** How the drain began: OnStart failed, Serve returned by itself, or a stop was asked for. */
  datatype Path = Failed | Returned | Asked

  datatype Pc =
    | Idle
    | Start | SetRunning | Spawn | Select | SetStopping(path: Path)
    | Shut(path: Path) | InShut(path: Path) | Abort | Collect
    | StopHook | InStop | Report | InReport | Unwind | Finish | Exited
    | Refused(err: Error) | Wait | Waited(err: Error) | Told | Forced(begun: bool)

  datatype State = State(sh: Shared, pcs: map<Tid, Pc>)

  /** ignoreCanceled. */
  function IgnoreCanceled(e: Error): Error { if Canceled in e then [] else e }

  /** The error LoopContext reports: a failed start keeps Shutdown's error whole. */
  function Joined(l: Log): Error {
    if l.startErr != [] then l.startErr + l.shutErr + l.stopErr
    else l.serveErr + IgnoreCanceled(l.shutErr) + l.stopErr
  }

  const EMPTY := Log(0, 0, false, false, 0, [], [], [], [], [], [], [])

  // ---- Steps ----

  /** LoopContext up to and including begin. */
  predicate CallsLoop(cf: Config, sh: Shared, t: Tid, sh': Shared, pc': Pc) {
    if !cf.service then sh' == sh && pc' == Refused([NoService])
    else if !sh.phase.New? then sh' == sh && pc' == Refused([AlreadyRunning])
    else sh' == sh.(phase := Starting, hasForce := true, owner := By(t)) && pc' == Start
  }

  /** Stop, which returns, or Shutdown, which goes on to wait. */
  predicate CallsStop(sh: Shared, sh': Shared, pc': Pc) {
    if sh.phase.New? || sh.phase.Stopped? then sh' == sh && pc' == Refused([NotRunning])
    else sh' == sh.(stopped := true) && (pc' == Told || pc' == Wait)
  }

  predicate CallsForce(sh: Shared, sh': Shared, pc': Pc) {
    && pc' == Forced(sh.hasForce)
    && sh' == if sh.hasForce && !sh.forced then sh.(forced := true, forces := sh.forces + 1) else sh
  }

  predicate NextCall(cf: Config, sh: Shared, t: Tid, sh': Shared, pc': Pc) {
    CallsLoop(cf, sh, t, sh', pc') || CallsStop(sh, sh', pc') || CallsForce(sh, sh', pc')
  }

  /** From OnStart to the start of the drain. */
  ghost predicate NextRun(cf: Config, sh: Shared, pc: Pc, sh': Shared, pc': Pc) {
    match pc
    case Start =>
      if !cf.onStart then sh' == sh && pc' == SetRunning
      else
        && sh' == sh.(log := sh.log.(starts := sh.log.starts + 1, startErr := sh'.log.startErr))
        && pc' == if sh'.log.startErr == [] then SetRunning else Shut(Failed)
    case SetRunning => sh' == sh.(phase := Running) && pc' == Spawn
    case Spawn => sh' == sh.(serving := InServe) && pc' == Select
    case Select =>
      || (sh.serving.Sent? && sh' == sh.(log := sh.log.(serveErr := sh.serving.err)) && pc' == SetStopping(Returned))
      || ((sh.stopped || sh.parentDone) && sh' == sh && pc' == SetStopping(Asked))
    case SetStopping(path) => sh' == sh.(phase := Stopping) && pc' == Shut(path)
    case _ => false
  }

  /** Service.Shutdown, and the abort of a Serve that has not returned. */
  ghost predicate NextDrain(sh: Shared, pc: Pc, sh': Shared, pc': Pc) {
    match pc
    case Shut(path) => sh' == sh.(log := sh.log.(shutdowns := sh.log.shutdowns + 1)) && pc' == InShut(path)
    case InShut(path) =>
      && sh' == sh.(log := sh.log.(shutErr := sh'.log.shutErr, shutdownReturned := true))
      && pc' == if path.Asked? then Abort else StopHook
    case Abort => sh' == sh.(log := sh.log.(cancelled := true)) && pc' == Collect
    case Collect =>
      && pc' == StopHook
      && ((sh.serving.Sent? && sh' == sh.(log := sh.log.(serveErr := sh.serving.err)))
          || sh' == sh.(log := sh.log.(serveErr := [AbortTimeout])))
    case _ => false
  }

  /** OnStop, OnError, then the deferred calls. */
  ghost predicate NextExit(cf: Config, sh: Shared, pc: Pc, sh': Shared, pc': Pc) {
    match pc
    case StopHook =>
      if !cf.onStop then sh' == sh && pc' == Report
      else sh' == sh.(log := sh.log.(stops := sh.log.stops + 1)) && pc' == InStop
    case InStop => sh' == sh.(log := sh.log.(stopErr := sh'.log.stopErr)) && pc' == Report
    case Report =>
      var err := Joined(sh.log);
      if err == [] || !cf.onError then sh' == sh.(log := sh.log.(joined := err, final := err)) && pc' == Unwind
      else sh' == sh.(log := sh.log.(joined := err, reports := sh.log.reports + [err])) && pc' == InReport
    case InReport =>
      && pc' == Unwind
      && (sh' == sh.(log := sh.log.(final := sh.log.joined))
          || sh' == sh.(log := sh.log.(final := sh.log.joined + [Panicked])))
    case Unwind => sh' == sh.(log := sh.log.(cancelled := true)) && pc' == Finish
    case Finish =>
      sh' == sh.(stopped := true, result := sh.log.final, phase := Stopped, dones := sh.dones + 1) && pc' == Exited
    case _ => false
  }

  /** Shutdown waits for the loop to finish, or for its own context. */
  ghost predicate NextWait(sh: Shared, sh': Shared, pc': Pc) {
    sh' == sh && ((sh.dones > 0 && pc' == Waited(sh.result)) || pc' == Refused([ContextDone]))
  }

  function At(s: State, t: Tid): Pc { if t in s.pcs then s.pcs[t] else Idle }

  /** The part of a call that a program counter belongs to. */
  datatype Part = Calls | Runs | Drains | Exits | Waits | Done

  function PartOf(pc: Pc): Part {
    match pc
    case Idle => Calls
    case Start => Runs case SetRunning => Runs case Spawn => Runs case Select => Runs case SetStopping(_) => Runs
    case Shut(_) => Drains case InShut(_) => Drains case Abort => Drains case Collect => Drains
    case StopHook => Exits case InStop => Exits case Report => Exits case InReport => Exits
    case Unwind => Exits case Finish => Exits
    case Wait => Waits
    case Exited => Done case Refused(_) => Done case Waited(_) => Done case Told => Done case Forced(_) => Done
  }

  ghost predicate Next(cf: Config, sh: Shared, t: Tid, pc: Pc, sh': Shared, pc': Pc) {
    match PartOf(pc)
    case Calls => NextCall(cf, sh, t, sh', pc')
    case Runs => NextRun(cf, sh, pc, sh', pc')
    case Drains => NextDrain(sh, pc, sh', pc')
    case Exits => NextExit(cf, sh, pc, sh', pc')
    case Waits => NextWait(sh, sh', pc')
    case Done => false
  }

  ghost predicate ThreadSteps(cf: Config, s: State, t: Tid, s': State) {
    s' == State(s'.sh, s.pcs[t := At(s', t)]) && Next(cf, s.sh, t, At(s, t), s'.sh, At(s', t))
  }

  /** Serve returns into its channel, or the parent context ends. */
  ghost predicate OutsideSteps(s: State, s': State) {
    && s'.pcs == s.pcs
    && ((s.sh.serving.InServe? && s'.sh.serving.Sent? && s'.sh == s.sh.(serving := s'.sh.serving))
        || s'.sh == s.sh.(parentDone := true))
  }

  ghost predicate Steps(cf: Config, s: State, s': State) {
    OutsideSteps(s, s') || exists t :: ThreadSteps(cf, s, t, s')
  }

  ghost predicate Begins(s: State) {
    s.pcs == map[] && s.sh == Shared(New, false, s.sh.parentDone, false, false, 0, 0, [], NotYet, Nobody, EMPTY)
  }

  ghost predicate StepAt(cf: Config, run: seq<State>, i: nat)
    requires i + 1 < |run|
  {
    var (s, s') := (run[i], run[i + 1]);
    Steps(cf, s, s')
  }

  ghost predicate Run(cf: Config, run: seq<State>) {
    |run| > 0 && Begins(run[0]) && forall i: nat :: i + 1 < |run| ==> StepAt(cf, run, i)
  }

  // ---- Invariants ----

  /** How far LoopContext has come; 0 outside it. */
  function Stage(pc: Pc): nat {
    match pc
    case Start => 1 case SetRunning => 2 case Spawn => 3 case Select => 4 case SetStopping(_) => 5
    case Shut(_) => 6 case InShut(_) => 7 case Abort => 8 case Collect => 9
    case StopHook => 10 case InStop => 11 case Report => 12 case InReport => 13
    case Unwind => 14 case Finish => 15 case Exited => 16
    case _ => 0
  }

  predicate HasPath(pc: Pc) { pc.SetStopping? || pc.Shut? || pc.InShut? }

  predicate PhaseOk(sh: Shared, pc: Pc) {
    && (HasPath(pc) ==> (pc.path.Failed? <==> sh.log.startErr != []))
    && (1 <= Stage(pc) <= 5 || pc.Abort? || pc.Collect? ==> sh.log.startErr == [])
    && sh.phase == if Stage(pc) == 16 then Stopped
                   else if Stage(pc) <= 2 || sh.log.startErr != [] then Starting
                   else if Stage(pc) <= 5 then Running
                   else Stopping
  }

  /** The calls made by the time LoopContext is at pc. */
  predicate CallsOk(cf: Config, sh: Shared, pc: Pc) {
    var l := sh.log;
    && l.starts == (if Stage(pc) >= 2 && cf.onStart then 1 else 0)
    && l.shutdowns == (if Stage(pc) >= 7 then 1 else 0)
    && (l.shutdownReturned <==> Stage(pc) >= 8)
    && (l.cancelled ==> Stage(pc) >= 9) && (pc.Collect? || Stage(pc) >= 15 ==> l.cancelled)
    && (Stage(pc) >= 10 && sh.serving.InServe? ==> l.cancelled)
    && l.stops == (if Stage(pc) >= 11 && cf.onStop then 1 else 0)
    && (pc.InStop? ==> cf.onStop)
    && l.reports == (if Stage(pc) >= 13 && cf.onError && l.joined != [] then [l.joined] else [])
    && (pc.InReport? ==> cf.onError && l.joined != [])
    && sh.dones == (if pc.Exited? then 1 else 0)
  }

  /** The Serve part of the error is what Serve returned, or the timeout. */
  predicate ServeErrOk(sh: Shared) { sh.log.serveErr == [AbortTimeout] || sh.serving == Sent(sh.log.serveErr) }

  predicate ErrorsOk(cf: Config, sh: Shared, pc: Pc) {
    var l := sh.log;
    && (Stage(pc) >= 13 ==> l.joined == Joined(l))
    && (Stage(pc) >= 14 ==> l.final == l.joined || (l.reports == [l.joined] && l.final == l.joined + [Panicked]))
    && (pc.Exited? ==> sh.result == l.final)
    && (Stage(pc) >= 10 && l.startErr == [] ==> ServeErrOk(sh))
    && (HasPath(pc) && pc.path.Returned? ==> sh.serving == Sent(l.serveErr))
    && (sh.serving.NotYet? <==> l.startErr != [] || Stage(pc) <= 3)
  }

  predicate RunOk(cf: Config, sh: Shared, pc: Pc) {
    Stage(pc) > 0 && sh.hasForce && PhaseOk(sh, pc) && CallsOk(cf, sh, pc) && ErrorsOk(cf, sh, pc)
  }

  predicate Unstarted(sh: Shared) {
    sh.phase.New? && sh.log == EMPTY && sh.dones == 0 && !sh.hasForce && sh.serving.NotYet? && !sh.stopped
  }

  predicate ForceOk(sh: Shared) { sh.forces == (if sh.forced then 1 else 0) && (sh.forced ==> sh.hasForce) }

  predicate ThreadOk(sh: Shared, t: Tid, pc: Pc) {
    && (Stage(pc) > 0 ==> sh.owner == By(t))
    && (pc.Waited? ==> sh.dones > 0 && pc.err == sh.result)
    && (pc.Told? || pc.Wait? ==> sh.stopped) && (pc.Forced? && pc.begun ==> sh.forced)
  }

  ghost predicate Inv(cf: Config, s: State) {
    && ForceOk(s.sh)
    && (s.sh.owner.Nobody? ==> Unstarted(s.sh))
    && (s.sh.owner.By? ==> RunOk(cf, s.sh, At(s, s.sh.owner.t)))
    && (forall t :: ThreadOk(s.sh, t, At(s, t)))
  }

  lemma {:induction false} RunStep(cf: Config, sh: Shared, pc: Pc, sh': Shared, pc': Pc)
    requires RunOk(cf, sh, pc) && NextRun(cf, sh, pc, sh', pc')
    ensures RunOk(cf, sh', pc')
  {
  }

  lemma {:induction false} DrainStep(cf: Config, sh: Shared, pc: Pc, sh': Shared, pc': Pc)
    requires RunOk(cf, sh, pc) && NextDrain(sh, pc, sh', pc')
    ensures RunOk(cf, sh', pc')
  {
  }

  /** OnStop. */
  lemma {:induction false} HookStep(cf: Config, sh: Shared, pc: Pc, sh': Shared, pc': Pc)
    requires RunOk(cf, sh, pc) && (pc.StopHook? || pc.InStop?) && NextExit(cf, sh, pc, sh', pc')
    ensures RunOk(cf, sh', pc')
  {
  }

  /** report up to the call of OnError. */
  lemma {:induction false} ReportStep(cf: Config, sh: Shared, sh': Shared, pc': Pc)
    requires RunOk(cf, sh, Report) && NextExit(cf, sh, Report, sh', pc')
    ensures RunOk(cf, sh', pc')
  {
  }

  /** OnError returns or panics. */
  lemma {:induction false} ReportedStep(cf: Config, sh: Shared, sh': Shared, pc': Pc)
    requires RunOk(cf, sh, InReport) && NextExit(cf, sh, InReport, sh', pc')
    ensures RunOk(cf, sh', pc')
  {
  }

  /** The deferred abort and finish. */
  lemma {:induction false} FinishStep(cf: Config, sh: Shared, pc: Pc, sh': Shared, pc': Pc)
    requires RunOk(cf, sh, pc) && (pc.Unwind? || pc.Finish?) && NextExit(cf, sh, pc, sh', pc')
    ensures RunOk(cf, sh', pc')
  {
  }

  lemma {:induction false} ExitStep(cf: Config, sh: Shared, pc: Pc, sh': Shared, pc': Pc)
    requires RunOk(cf, sh, pc) && PartOf(pc).Exits? && NextExit(cf, sh, pc, sh', pc')
    ensures RunOk(cf, sh', pc')
  {
    if pc.StopHook? || pc.InStop? {
      HookStep(cf, sh, pc, sh', pc');
    } else if pc.Report? {
      ReportStep(cf, sh, sh', pc');
    } else if pc.InReport? {
      ReportedStep(cf, sh, sh', pc');
    } else {
      FinishStep(cf, sh, pc, sh', pc');
    }
  }

  /** What no step undoes, and what the others' steps leave alone. */
  predicate Quiet(sh: Shared, sh': Shared) {
    && sh'.owner == sh.owner && sh'.log == sh.log && sh'.phase == sh.phase && sh'.dones == sh.dones
    && sh'.result == sh.result
    && sh'.hasForce == sh.hasForce && (sh.stopped ==> sh'.stopped) && (sh.forced ==> sh'.forced)
    && (sh'.serving == sh.serving || (sh.serving.InServe? && sh'.serving.Sent?))
  }

  lemma {:induction false} QuietKeepsRun(cf: Config, sh: Shared, pc: Pc, sh': Shared)
    requires RunOk(cf, sh, pc) && Quiet(sh, sh')
    ensures RunOk(cf, sh', pc)
  {
  }

  /** A step inside LoopContext touches neither force nor owner, and closes done only at the end. */
  predicate LoopEffect(sh: Shared, sh': Shared) {
    && sh'.owner == sh.owner && sh'.forced == sh.forced && sh'.forces == sh.forces && sh'.hasForce == sh.hasForce
    && ((sh'.dones == sh.dones && sh'.result == sh.result) || sh.dones == 0) && (sh.stopped ==> sh'.stopped)
  }

  function Rank(p: Phase): nat {
    match p case New => 0 case Starting => 1 case Running => 2 case Stopping => 3 case Stopped => 4
  }

  predicate Forward(sh: Shared, sh': Shared) {
    Rank(sh.phase) <= Rank(sh'.phase) && (sh.owner.By? ==> sh'.owner == sh.owner) && sh.dones <= sh'.dones
  }

  lemma {:induction false} RunEffects(cf: Config, sh: Shared, pc: Pc, sh': Shared, pc': Pc)
    requires PhaseOk(sh, pc) && NextRun(cf, sh, pc, sh', pc')
    ensures LoopEffect(sh, sh') && Forward(sh, sh')
  {
  }

  lemma {:induction false} DrainEffects(sh: Shared, pc: Pc, sh': Shared, pc': Pc)
    requires NextDrain(sh, pc, sh', pc')
    ensures LoopEffect(sh, sh') && Forward(sh, sh')
  {
  }

  lemma {:induction false} ExitEffects(cf: Config, sh: Shared, pc: Pc, sh': Shared, pc': Pc)
    requires CallsOk(cf, sh, pc) && !pc.Exited? && NextExit(cf, sh, pc, sh', pc')
    ensures LoopEffect(sh, sh') && Forward(sh, sh')
  {
  }

  lemma {:induction false} LoopEffects(cf: Config, sh: Shared, t: Tid, pc: Pc, sh': Shared, pc': Pc)
    requires RunOk(cf, sh, pc) && Next(cf, sh, t, pc, sh', pc')
    ensures LoopEffect(sh, sh') && Forward(sh, sh')
  {
    match PartOf(pc)
    case Runs => RunEffects(cf, sh, pc, sh', pc');
    case Drains => DrainEffects(sh, pc, sh', pc');
    case Exits => ExitEffects(cf, sh, pc, sh', pc');
    case _ =>
  }

  lemma {:induction false} LoopStep(cf: Config, sh: Shared, t: Tid, pc: Pc, sh': Shared, pc': Pc)
    requires RunOk(cf, sh, pc) && Next(cf, sh, t, pc, sh', pc')
    ensures RunOk(cf, sh', pc') && LoopEffect(sh, sh')
  {
    LoopEffects(cf, sh, t, pc, sh', pc');
    match PartOf(pc)
    case Runs => RunStep(cf, sh, pc, sh', pc');
    case Drains => DrainStep(cf, sh, pc, sh', pc');
    case Exits => ExitStep(cf, sh, pc, sh', pc');
    case _ =>
  }

  lemma {:induction false} KeepsInv(cf: Config, s: State, s': State)
    requires Inv(cf, s) && Steps(cf, s, s')
    ensures Inv(cf, s')
  {
    if OutsideSteps(s, s') {
      OutsideKeepsInv(cf, s, s');
    } else {
      var t :| ThreadSteps(cf, s, t, s');
      ThreadKeepsInv(cf, s, t, s');
    }
  }

  lemma {:induction false} OutsideKeepsInv(cf: Config, s: State, s': State)
    requires Inv(cf, s) && OutsideSteps(s, s')
    ensures Inv(cf, s')
  {
    if s.sh.owner.By? { QuietKeepsRun(cf, s.sh, At(s, s.sh.owner.t), s'.sh); }
    forall u ensures ThreadOk(s'.sh, u, At(s', u)) { assert ThreadOk(s.sh, u, At(s, u)); }
  }

  lemma {:induction false} ThreadKeepsInv(cf: Config, s: State, t: Tid, s': State)
    requires Inv(cf, s) && ThreadSteps(cf, s, t, s')
    ensures Inv(cf, s')
  {
    var (pc, pc') := (At(s, t), At(s', t));
    assert ThreadOk(s.sh, t, pc);
    assert forall u :: u != t ==> At(s', u) == At(s, u);
    if Stage(pc) > 0 {
      LoopStep(cf, s.sh, t, pc, s'.sh, pc');
      forall u ensures ThreadOk(s'.sh, u, At(s', u)) { assert ThreadOk(s.sh, u, At(s, u)); }
    } else {
      CallKeepsInv(cf, s, t, s');
    }
  }

  /** A caller other than the run itself: begin, or a call or wait that leaves the run alone. */
  predicate CallEffect(sh: Shared, t: Tid, sh': Shared, pc': Pc) {
    && ForceOk(sh')
    && (pc'.Waited? ==> sh'.dones > 0 && pc'.err == sh'.result)
    && (pc'.Told? || pc'.Wait? ==> sh'.stopped) && (pc'.Forced? && pc'.begun ==> sh'.forced)
    && if pc'.Start? then sh.phase.New? && sh' == sh.(phase := Starting, hasForce := true, owner := By(t))
       else Stage(pc') == 0 && Quiet(sh, sh') && (sh'.stopped ==> sh.stopped || !sh.phase.New?)
  }

  lemma {:induction false} StopStep(sh: Shared, t: Tid, sh': Shared, pc': Pc)
    requires ForceOk(sh) && (CallsStop(sh, sh', pc') || CallsForce(sh, sh', pc'))
    ensures CallEffect(sh, t, sh', pc')
  {
  }

  lemma {:induction false} CallStep(cf: Config, sh: Shared, t: Tid, pc: Pc, sh': Shared, pc': Pc)
    requires ForceOk(sh) && Next(cf, sh, t, pc, sh', pc') && Stage(pc) == 0
    ensures CallEffect(sh, t, sh', pc')
  {
    if PartOf(pc).Calls? && !CallsLoop(cf, sh, t, sh', pc') { StopStep(sh, t, sh', pc'); }
  }

  lemma {:induction false} CallKeepsInv(cf: Config, s: State, t: Tid, s': State)
    requires Inv(cf, s) && ThreadSteps(cf, s, t, s') && Stage(At(s, t)) == 0
    ensures Inv(cf, s')
  {
    var (pc, pc') := (At(s, t), At(s', t));
    assert forall u :: u != t ==> At(s', u) == At(s, u);
    CallStep(cf, s.sh, t, pc, s'.sh, pc');
    if !pc'.Start? && s.sh.owner.By? {
      assert ThreadOk(s.sh, t, pc);
      QuietKeepsRun(cf, s.sh, At(s, s.sh.owner.t), s'.sh);
    }
    forall u ensures ThreadOk(s'.sh, u, At(s', u)) { assert ThreadOk(s.sh, u, At(s, u)); }
  }

  lemma {:induction false} StepInv(cf: Config, run: seq<State>, i: nat)
    requires Run(cf, run) && 0 < i < |run| && Inv(cf, run[i - 1])
    ensures Inv(cf, run[i])
  {
    assert StepAt(cf, run, i - 1);
    KeepsInv(cf, run[i - 1], run[i]);
  }

  /** Every state of every run keeps the invariant. */
  lemma {:induction false} Reachable(cf: Config, run: seq<State>, i: nat)
    requires Run(cf, run) && i < |run|
    ensures Inv(cf, run[i])
  {
    if i > 0 {
      Reachable(cf, run, i - 1);
      StepInv(cf, run, i);
    }
  }

  // ---- What every run guarantees ----

  lemma {:induction false} StepForward(cf: Config, s: State, s': State)
    requires Inv(cf, s) && Steps(cf, s, s')
    ensures Forward(s.sh, s'.sh)
  {
    if !OutsideSteps(s, s') {
      var t :| ThreadSteps(cf, s, t, s');
      assert ThreadOk(s.sh, t, At(s, t));
      if Stage(At(s, t)) == 0 {
        CallStep(cf, s.sh, t, At(s, t), s'.sh, At(s', t));
      } else {
        LoopEffects(cf, s.sh, t, At(s, t), s'.sh, At(s', t));
      }
    }
  }

  /** The state only moves forward, and a Server runs once: the first LoopContext past begin
      is the only one ever. */
  lemma {:induction false} OnlyForward(cf: Config, run: seq<State>, i: nat, j: nat)
    requires Run(cf, run) && i <= j < |run|
    ensures Forward(run[i].sh, run[j].sh)
    decreases j
  {
    if i < j {
      OnlyForward(cf, run, i, j - 1);
      NextForward(cf, run, j);
    }
  }

  lemma {:induction false} NextForward(cf: Config, run: seq<State>, j: nat)
    requires Run(cf, run) && 0 < j < |run|
    ensures Forward(run[j - 1].sh, run[j].sh)
  {
    Reachable(cf, run, j - 1);
    assert StepAt(cf, run, j - 1);
    StepForward(cf, run[j - 1], run[j]);
  }

  lemma {:induction false} OneRun(cf: Config, run: seq<State>, i: nat, j: nat, t: Tid, u: Tid)
    requires Run(cf, run) && i <= j < |run| && Stage(At(run[i], t)) > 0 && Stage(At(run[j], u)) > 0
    ensures t == u
  {
    Reachable(cf, run, i);
    Reachable(cf, run, j);
    OnlyForward(cf, run, i, j);
    assert ThreadOk(run[i].sh, t, At(run[i], t)) && ThreadOk(run[j].sh, u, At(run[j], u));
  }

  /** In every state: Service.Shutdown is called at most once, the service context is cancelled
      only after it returned, OnStop runs at most once and after it, done and force are closed
      at most once. */
  lemma {:induction false} CallsInOrder(cf: Config, run: seq<State>, i: nat)
    requires Run(cf, run) && i < |run|
    ensures run[i].sh.log.shutdowns <= 1 && (run[i].sh.log.shutdownReturned ==> run[i].sh.log.shutdowns == 1)
    ensures run[i].sh.log.cancelled ==> run[i].sh.log.shutdownReturned
    ensures run[i].sh.log.stops <= 1 && (run[i].sh.log.stops == 1 ==> run[i].sh.log.shutdownReturned)
    ensures run[i].sh.dones <= 1 && run[i].sh.forces <= 1 && |run[i].sh.log.reports| <= 1
  {
    Reachable(cf, run, i);
  }

  /** Every LoopContext that passed begin, however it ends, has run OnStart once if set,
      started Serve exactly if that did not fail, called Shutdown once, cancelled the service
      context, run OnStop if set, told OnError once if set and the error is not nil, and
      closed done. */
  ghost predicate Complete(cf: Config, sh: Shared) {
    var l := sh.log;
    && sh.phase.Stopped? && sh.dones == 1
    && l.starts == (if cf.onStart then 1 else 0) && (sh.serving.NotYet? <==> l.startErr != [])
    && l.shutdowns == 1 && l.shutdownReturned && l.cancelled
    && l.stops == (if cf.onStop then 1 else 0)
    && l.reports == (if cf.onError && l.joined != [] then [l.joined] else [])
    && (sh.result == l.joined || (l.reports == [l.joined] && sh.result == l.joined + [Panicked]))
  }

  lemma {:induction false} ExitIsComplete(cf: Config, run: seq<State>, i: nat, t: Tid)
    requires Run(cf, run) && i < |run| && At(run[i], t).Exited?
    ensures Complete(cf, run[i].sh)
  {
    Reachable(cf, run, i);
    assert ThreadOk(run[i].sh, t, At(run[i], t));
  }

  /** The joined error is made of every part: a failed start, or what Serve returned (or the
      abort timeout), then Shutdown's error and OnStop's. */
  lemma {:induction false} ErrorHasEveryPart(cf: Config, run: seq<State>, i: nat, t: Tid)
    requires Run(cf, run) && i < |run| && At(run[i], t).Exited?
    ensures run[i].sh.log.joined == Joined(run[i].sh.log)
    ensures run[i].sh.log.startErr == [] ==>
      run[i].sh.log.serveErr == [AbortTimeout] || run[i].sh.serving == Sent(run[i].sh.log.serveErr)
    ensures run[i].sh.log.startErr != [] ==> run[i].sh.serving.NotYet?
  {
    Reachable(cf, run, i);
    assert ThreadOk(run[i].sh, t, At(run[i], t));
  }

  /** Leaf by leaf: LoopContext returns every failure of OnStart and OnStop, of Serve once it was
      started, and of Shutdown, unless the service was running and a cancellation is among
      Shutdown's; and nothing else but a panic of OnError. */
  lemma {:induction false} NoFailureIsLost(cf: Config, run: seq<State>, i: nat, t: Tid, x: Leaf)
    requires Run(cf, run) && i < |run| && At(run[i], t).Exited?
    ensures var (l, result) := (run[i].sh.log, run[i].sh.result);
            && (x in l.startErr || x in l.stopErr ==> x in result)
            && (l.startErr == [] && x in l.serveErr ==> x in result)
            && (x in l.shutErr && (l.startErr != [] || Canceled !in l.shutErr) ==> x in result)
            && (x in result ==> x in l.startErr || x in l.serveErr || x in l.shutErr || x in l.stopErr || x == Panicked)
  {
    ErrorHasEveryPart(cf, run, i, t);
    ExitIsComplete(cf, run, i, t);
  }

  /** The parts come in the order of errors.Join: OnStart's or Serve's, then Shutdown's, then
      OnStop's. */
  lemma {:induction false} ErrorInOrder(cf: Config, run: seq<State>, i: nat, t: Tid)
    requires Run(cf, run) && i < |run| && At(run[i], t).Exited?
    ensures var l := run[i].sh.log;
            exists first: Error, shut: Error ::
              l.joined == first + shut + l.stopErr && first == (if l.startErr != [] then l.startErr else l.serveErr)
              && (shut == l.shutErr || (shut == [] && Canceled in l.shutErr && l.startErr == []))
  {
    ErrorHasEveryPart(cf, run, i, t);
  }

  // ---- Causes ----

  /** The error kept for Serve changes only to what Serve returned, or, once the service context
      has been cancelled and Serve has still not returned in time, to the timeout. */
  ghost predicate ServeErrCause(sh: Shared, pc: Pc, sh': Shared) {
    sh'.log.serveErr == sh.log.serveErr || sh.serving == Sent(sh'.log.serveErr)
      || (pc.Collect? && sh.log.cancelled && sh'.log.serveErr == [AbortTimeout])
  }

  /** A drain is begun for a reason, and a call refused for one. */
  ghost predicate ForCause(cf: Config, sh: Shared, pc: Pc, sh': Shared, pc': Pc) {
    && (pc.Select? ==> if pc' == SetStopping(Returned) then sh.serving.Sent?
                       else pc' == SetStopping(Asked) && (sh.stopped || sh.parentDone))
    && (pc.Idle? && pc'.Start? ==> cf.service && sh.phase.New?)
    && (pc.Idle? && (pc'.Told? || pc'.Wait?) ==> !sh.phase.New? && !sh.phase.Stopped?)
    && (pc.Idle? && pc'.Refused? ==>
          || (pc'.err == [NoService] && !cf.service) || (pc'.err == [AlreadyRunning] && !sh.phase.New?)
          || (pc'.err == [NotRunning] && (sh.phase.New? || sh.phase.Stopped?)))
  }

  lemma {:induction false} RunCauses(cf: Config, sh: Shared, pc: Pc, sh': Shared, pc': Pc)
    requires NextRun(cf, sh, pc, sh', pc')
    ensures ServeErrCause(sh, pc, sh') && ForCause(cf, sh, pc, sh', pc')
  {
  }

  lemma {:induction false} DrainCauses(cf: Config, sh: Shared, pc: Pc, sh': Shared, pc': Pc)
    requires NextDrain(sh, pc, sh', pc') && CallsOk(cf, sh, pc)
    ensures ServeErrCause(sh, pc, sh') && ForCause(cf, sh, pc, sh', pc')
  {
  }

  lemma {:induction false} ExitCauses(cf: Config, sh: Shared, pc: Pc, sh': Shared, pc': Pc)
    requires NextExit(cf, sh, pc, sh', pc')
    ensures ServeErrCause(sh, pc, sh') && ForCause(cf, sh, pc, sh', pc')
  {
  }

  lemma {:induction false} CallCauses(cf: Config, sh: Shared, t: Tid, pc: Pc, sh': Shared, pc': Pc)
    requires Next(cf, sh, t, pc, sh', pc') && Stage(pc) == 0
    ensures ServeErrCause(sh, pc, sh') && ForCause(cf, sh, pc, sh', pc')
  {
  }

  lemma {:induction false} StepForCause(cf: Config, run: seq<State>, i: nat, t: Tid)
    requires Run(cf, run) && i + 1 < |run| && At(run[i + 1], t) != At(run[i], t)
    ensures var (s, s') := (run[i], run[i + 1]);
            ServeErrCause(s.sh, At(s, t), s'.sh) && ForCause(cf, s.sh, At(s, t), s'.sh, At(s', t))
  {
    assert StepAt(cf, run, i);
    var (s, s') := (run[i], run[i + 1]);
    var u :| ThreadSteps(cf, s, u, s');
    assert u == t;
    assert Inv(cf, s) by { Reachable(cf, run, i); }
    assert ThreadOk(s.sh, t, At(s, t));
    match PartOf(At(s, t))
    case Runs => RunCauses(cf, s.sh, At(s, t), s'.sh, At(s', t));
    case Drains => DrainCauses(cf, s.sh, At(s, t), s'.sh, At(s', t));
    case Exits => ExitCauses(cf, s.sh, At(s, t), s'.sh, At(s', t));
    case _ => CallCauses(cf, s.sh, t, At(s, t), s'.sh, At(s', t));
  }

  /** Each hook, and Serve, may return any error, and it is the one kept. */
  lemma HooksReturnAnything(cf: Config, sh: Shared, path: Path, e: Error)
    ensures var l := sh.log;
            && (cf.onStart ==> NextRun(cf, sh, Start, sh.(log := l.(starts := l.starts + 1, startErr := e)),
                                       if e == [] then SetRunning else Shut(Failed)))
            && NextDrain(sh, InShut(path), sh.(log := l.(shutErr := e, shutdownReturned := true)),
                         if path.Asked? then Abort else StopHook)
            && NextExit(cf, sh, InStop, sh.(log := l.(stopErr := e)), Report)
    ensures sh.serving.InServe? ==> OutsideSteps(State(sh, map[]), State(sh.(serving := Sent(e)), map[]))
  {
  }

  ghost predicate CanStep(cf: Config, sh: Shared, t: Tid, pc: Pc) {
    exists sh', pc' :: Next(cf, sh, t, pc, sh', pc')
  }

  lemma {:induction false} RunNeverStuck(cf: Config, sh: Shared, t: Tid, pc: Pc)
    requires PartOf(pc).Runs?
    ensures CanStep(cf, sh, t, pc) <==> !pc.Select? || sh.serving.Sent? || sh.stopped || sh.parentDone
  {
    var l := sh.log;
    match pc
    case Start =>
      if cf.onStart {
        assert Next(cf, sh, t, pc, sh.(log := l.(starts := l.starts + 1, startErr := [])), SetRunning);
      } else {
        assert Next(cf, sh, t, pc, sh, SetRunning);
      }
    case SetRunning => assert Next(cf, sh, t, pc, sh.(phase := Running), Spawn);
    case Spawn => assert Next(cf, sh, t, pc, sh.(serving := InServe), Select);
    case Select =>
      if sh.serving.Sent? {
        assert Next(cf, sh, t, pc, sh.(log := l.(serveErr := sh.serving.err)), SetStopping(Returned));
      } else if sh.stopped || sh.parentDone {
        assert Next(cf, sh, t, pc, sh, SetStopping(Asked));
      }
    case SetStopping(path) => assert Next(cf, sh, t, pc, sh.(phase := Stopping), Shut(path));
  }

  lemma {:induction false} DrainNeverStuck(cf: Config, sh: Shared, t: Tid, pc: Pc)
    requires PartOf(pc).Drains?
    ensures CanStep(cf, sh, t, pc)
  {
    var l := sh.log;
    match pc
    case Shut(path) => assert Next(cf, sh, t, pc, sh.(log := l.(shutdowns := l.shutdowns + 1)), InShut(path));
    case InShut(path) =>
      assert Next(cf, sh, t, pc, sh.(log := l.(shutErr := [], shutdownReturned := true)),
                  if path.Asked? then Abort else StopHook);
    case Abort => assert Next(cf, sh, t, pc, sh.(log := l.(cancelled := true)), Collect);
    case Collect => assert Next(cf, sh, t, pc, sh.(log := l.(serveErr := [AbortTimeout])), StopHook);
  }

  lemma {:induction false} ExitNeverStuck(cf: Config, sh: Shared, t: Tid, pc: Pc)
    requires PartOf(pc).Exits?
    ensures CanStep(cf, sh, t, pc)
  {
    var (l, err) := (sh.log, Joined(sh.log));
    match pc
    case StopHook =>
      if cf.onStop {
        assert Next(cf, sh, t, pc, sh.(log := l.(stops := l.stops + 1)), InStop);
      } else {
        assert Next(cf, sh, t, pc, sh, Report);
      }
    case InStop => assert Next(cf, sh, t, pc, sh.(log := l.(stopErr := [])), Report);
    case Report =>
      if err == [] || !cf.onError {
        assert Next(cf, sh, t, pc, sh.(log := l.(joined := err, final := err)), Unwind);
      } else {
        assert Next(cf, sh, t, pc, sh.(log := l.(joined := err, reports := l.reports + [err])), InReport);
      }
    case InReport => assert Next(cf, sh, t, pc, sh.(log := l.(final := l.joined)), Unwind);
    case Unwind => assert Next(cf, sh, t, pc, sh.(log := l.(cancelled := true)), Finish);
    case Finish =>
      var sh' := sh.(stopped := true, result := l.final, phase := Stopped, dones := sh.dones + 1);
      assert Next(cf, sh, t, pc, sh', Exited);
  }

  /** LoopContext waits only in its select, and can leave it exactly if Serve has returned or a stop
      was asked for. */
  lemma {:induction false} LoopNeverStuck(cf: Config, sh: Shared, t: Tid, pc: Pc)
    requires 1 <= Stage(pc) <= 15
    ensures CanStep(cf, sh, t, pc) <==> !pc.Select? || sh.serving.Sent? || sh.stopped || sh.parentDone
  {
    match PartOf(pc)
    case Runs => RunNeverStuck(cf, sh, t, pc);
    case Drains => DrainNeverStuck(cf, sh, t, pc);
    case Exits => ExitNeverStuck(cf, sh, t, pc);
  }

  /** A waiting Shutdown can end with its own context at any time, and with the loop's result once
      there is one. */
  lemma ShutdownCanEnd(cf: Config, sh: Shared, t: Tid)
    ensures Next(cf, sh, t, Wait, sh, Refused([ContextDone]))
    ensures sh.dones > 0 ==> Next(cf, sh, t, Wait, sh, Waited(sh.result))
  {
  }

  /** When the drain is over, from OnStop on, Serve was never started, has returned, or has had
      its context cancelled. */
  lemma {:induction false} ServeNotLeftRunning(cf: Config, run: seq<State>, i: nat, t: Tid)
    requires Run(cf, run) && i < |run| && Stage(At(run[i], t)) >= 10
    ensures run[i].sh.serving.InServe? ==> run[i].sh.log.cancelled
  {
    Reachable(cf, run, i);
    assert ThreadOk(run[i].sh, t, At(run[i], t));
  }

  /** Stop and Shutdown that are not refused have asked the loop to stop, for good, and a
      forceAbort after begin has closed the force channel. */
  lemma {:induction false} StopIsHeard(cf: Config, run: seq<State>, i: nat, t: Tid)
    requires Run(cf, run) && i < |run|
    ensures At(run[i], t).Told? || At(run[i], t).Wait? ==> run[i].sh.stopped
    ensures At(run[i], t).Forced? && At(run[i], t).begun ==> run[i].sh.forced && run[i].sh.forces == 1
  {
    Reachable(cf, run, i);
    assert ThreadOk(run[i].sh, t, At(run[i], t));
  }

  /** LoopContext returns nil exactly when no part failed, a Shutdown error with a
      cancellation in it not counting once the service was running. */
  lemma {:induction false} NilExactly(cf: Config, run: seq<State>, i: nat, t: Tid)
    requires Run(cf, run) && i < |run| && At(run[i], t).Exited?
    ensures run[i].sh.result == [] <==>
      var l := run[i].sh.log;
      l.startErr == [] && l.serveErr == [] && l.stopErr == [] && (l.shutErr == [] || Canceled in l.shutErr)
  {
    ErrorHasEveryPart(cf, run, i, t);
    ExitIsComplete(cf, run, i, t);
  }

  /** A Shutdown call that waited for the loop returns what LoopContext returned. */
  lemma {:induction false} ShutdownSeesResult(cf: Config, run: seq<State>, i: nat, t: Tid)
    requires Run(cf, run) && i < |run| && At(run[i], t).Waited?
    ensures Complete(cf, run[i].sh) && At(run[i], t).err == run[i].sh.result
  {
    Reachable(cf, run, i);
    assert ThreadOk(run[i].sh, t, At(run[i], t));
  }

  // ---- ignoreCanceled ----

  /** An error without its cancellations. */
  function Without(e: Error): Error {
    if e == [] then [] else (if e[0].Canceled? then [] else [e[0]]) + Without(e[1..])
  }

  lemma {:induction false} WithoutKeeps(e: Error, x: Leaf)
    ensures x in Without(e) <==> x in e && x != Canceled
  {
    if e != [] {
      WithoutKeeps(e[1..], x);
      assert e == [e[0]] + e[1..];
    }
  }

  lemma {:induction false} WithoutSame(e: Error)
    requires Canceled !in e
    ensures Without(e) == e
  {
    if e != [] {
      WithoutSame(e[1..]);
      assert e == [e[0]] + e[1..];
    }
  }

  /** Dropping the cancellation drops nothing else exactly when the error holds none, or
      nothing but cancellations. */
  lemma {:induction false} IgnoreCanceledExact(e: Error)
    ensures IgnoreCanceled(e) == Without(e) <==> Canceled !in e || forall x :: x in e ==> x == Canceled
  {
    if Canceled !in e {
      WithoutSame(e);
    } else if x :| x in e && x != Canceled {
      WithoutKeeps(e, x);
    } else if Without(e) != [] {
      WithoutKeeps(e, Without(e)[0]);
    }
  }

  /** A group in which one Shutdown was cut short and another failed: the failure is lost. */
  lemma CanceledHidesFailure(id: nat)
    ensures IgnoreCanceled([Canceled] + [Cause(id)]) == [] && Without([Canceled] + [Cause(id)]) == [Cause(id)]
  {
    var e: Error := [Canceled] + [Cause(id)];
    assert e[0] == Canceled && e[1..] == [Cause(id)];
    assert Without(e[1..]) == [Cause(id)];
  }

  /** A run without hooks on a service that two failures end: Serve returns nil when asked to
      stop, but Shutdown was cut short and also failed. */
  function Masked(i: nat, id: nat): State {
    var none := Shared(New, false, true, false, false, 0, 0, [], NotYet, Nobody, EMPTY);
    var begun := none.(phase := Starting, hasForce := true, owner := By(0));
    var running := begun.(phase := Running);
    var serving := running.(serving := InServe);
    var stopping := serving.(phase := Stopping);
    var asked := stopping.(log := EMPTY.(shutdowns := 1));
    var failed := asked.(log := asked.log.(shutErr := [Canceled, Cause(id)], shutdownReturned := true));
    var aborted := failed.(log := failed.log.(cancelled := true));
    var served := aborted.(serving := Sent([]));
    var finished := served.(stopped := true, phase := Stopped, dones := 1);
    match i
    case 0 => State(none, map[])
    case 1 => State(begun, map[0 := Start])
    case 2 => State(begun, map[0 := SetRunning])
    case 3 => State(running, map[0 := Spawn])
    case 4 => State(serving, map[0 := Select])
    case 5 => State(serving, map[0 := SetStopping(Asked)])
    case 6 => State(stopping, map[0 := Shut(Asked)])
    case 7 => State(asked, map[0 := InShut(Asked)])
    case 8 => State(failed, map[0 := Abort])
    case 9 => State(aborted, map[0 := Collect])
    case 10 => State(served, map[0 := Collect])
    case 11 => State(served, map[0 := StopHook])
    case 12 => State(served, map[0 := Report])
    case 13 => State(served, map[0 := Unwind])
    case 14 => State(served, map[0 := Finish])
    case _ => State(finished, map[0 := Exited])
  }

  const NO_HOOKS := Config(true, false, false, false)

  lemma MaskedRuns(i: nat, id: nat)
    requires i < 6
    ensures ThreadSteps(NO_HOOKS, Masked(i, id), 0, Masked(i + 1, id))
  {
  }

  lemma MaskedDrains(i: nat, id: nat)
    requires 6 <= i < 9 || i == 10
    ensures ThreadSteps(NO_HOOKS, Masked(i, id), 0, Masked(i + 1, id))
  {
  }

  lemma MaskedExits(i: nat, id: nat)
    requires 11 <= i < 15
    ensures ThreadSteps(NO_HOOKS, Masked(i, id), 0, Masked(i + 1, id))
  {
  }

  lemma MaskedStep(i: nat, id: nat)
    requires i < 15
    ensures Steps(NO_HOOKS, Masked(i, id), Masked(i + 1, id))
  {
    if i < 6 { MaskedRuns(i, id); } else if i == 9 { }
    else if i < 11 { MaskedDrains(i, id); } else { MaskedExits(i, id); }
  }

  /** A whole run in which Service.Shutdown fails for a reason of its own and LoopContext
      returns nil. */
  lemma FailureReturnsNil(id: nat) returns (run: seq<State>)
    ensures Run(NO_HOOKS, run) && |run| == 16 && At(run[15], 0).Exited?
    ensures Cause(id) in run[15].sh.log.shutErr && run[15].sh.result == []
  {
    run := seq(16, i requires 0 <= i < 16 => Masked(i, id));
    forall i: nat | i + 1 < |run| ensures StepAt(NO_HOOKS, run, i) { MaskedStep(i, id); }
    assert [Canceled, Cause(id)][1] == Cause(id);
  }
}
