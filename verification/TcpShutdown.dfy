/** What stopping the TCP server guarantees: its flags, what Close and Shutdown reach, and
    what is left when Serve returns. */
module TcpShutdown {
  import opened LimitSpec
  import opened Sums
  import opened TcpServer

  datatype Actor = Server | Caller(t: Tid)

  function StopperOf(s: State, a: Actor): Stopper {
    match a
    case Server => if s.main.Broken? then s.main.o else Over
    case Caller(t) => At(s, t).1
  }

  predicate InOnce(o: Stopper) { o.OnceStop? || o.OnceListener? || o.OnceDrain? }

  /** Past stopAccept, whoever runs it. */
  predicate PastOnce(o: Stopper) { o.Check? || o.Wait? || o.AbortLock? || o.AbortShut? }

  /** Serve has left the accept loop, or is about to with a late socket. */
  predicate Leaving(m: Main) {
    m.LateAdmit? || m.LateIp? || m.LateShut? || m.Waiting? || m.Cancel? || m.Returning? || m.Returned?
  }

  predicate Ended(m: Main) { m.Cancel? || m.Returning? || m.Returned? }

  /** Flags of one stopper against the shared flags. */
  predicate StopperOk(sh: Shared, o: Stopper) {
    && (InOnce(o) ==> sh.flags.once.Running?)
    && (o.OnceListener? || o.OnceDrain? ==> sh.flags.stopped)
    && (o.OnceDrain? ==> sh.flags.lnClosed)
    && (PastOnce(o) ==> sh.flags.once.Passed?)
    && (o.Wait? ==> sh.flags.serving)
    && (o.AbortShut? ==> sh.flags.aborted)
  }

  predicate FlagsOk(sh: Shared) {
    && sh.flags.drains == (if sh.flags.once.Passed? then 1 else 0)
    && (sh.flags.once.Passed? ==> sh.flags.stopped && sh.flags.lnClosed)
    && (sh.flags.aborted ==> sh.flags.once.Passed? && sh.flags.cancelled)
  }

  predicate MainFlags(sh: Shared, m: Main) {
    && (sh.flags.serving <==> !m.NotStarted?)
    && (Leaving(m) ==> sh.flags.stopped)
    && (m.Broken? && m.o.Over? ==> sh.flags.stopped)
    && sh.flags.dones == (if m.Returned? then 1 else 0)
    && (sh.flags.cancelled <==> sh.flags.aborted || m.Returning? || m.Returned?)
  }

  ghost predicate StopOk(s: State) {
    && FlagsOk(s.sh) && MainFlags(s.sh, s.main)
    && (forall a :: StopperOk(s.sh, StopperOf(s, a)))
    && (forall a, b :: InOnce(StopperOf(s, a)) && InOnce(StopperOf(s, b)) ==> a == b)
    && s.sh.wg == |s.handlers|
    && (Ended(s.main) ==> s.handlers == map[])
  }

  /** How a stopper's step moves the flags. */
  predicate FlagEffect(sh: Shared, o: Stopper, sh': Shared, o': Stopper) {
    && FlagsOk(sh') && StopperOk(sh', o')
    && (sh.flags.stopped ==> sh'.flags.stopped) && (sh.flags.lnClosed ==> sh'.flags.lnClosed)
    && (sh.flags.aborted ==> sh'.flags.aborted)
    && (sh.flags.once.Passed? ==> sh'.flags.once.Passed?)
    && (sh.flags.once.Running? && !InOnce(o) ==> sh'.flags.once.Running?)
    && (InOnce(o') ==> InOnce(o) || sh.flags.once.Fresh?)
    && (sh'.flags.once != sh.flags.once ==> InOnce(o) || InOnce(o'))
    && sh'.wg == sh.wg && sh'.flags.dones == sh.flags.dones && sh'.flags.serving == sh.flags.serving
    && (sh'.flags.cancelled <==> sh.flags.cancelled || sh'.flags.aborted)
    && (o'.Over? ==> sh'.flags.stopped)
  }

  lemma {:induction false} StopFlags(sh: Shared, o: Stopper, sh': Shared, o': Stopper, mayLeave: bool)
    requires FlagsOk(sh) && StopperOk(sh, o) && NextStop(sh, o, sh', o', mayLeave)
    ensures FlagEffect(sh, o, sh', o')
  {
  }

  /** Flags other than the stoppers' are moved by the Serve goroutine alone. */
  predicate SameFlags(sh: Shared, sh': Shared) {
    sh'.flags == sh.flags.(serving := sh'.flags.serving, cancelled := sh'.flags.cancelled, dones := sh'.flags.dones)
      && sh'.wg == sh.wg
  }

  predicate ServeFlags(sh: Shared, m: Main, sh': Shared, m': Main) {
    SameFlags(sh, sh') && MainFlags(sh', m') && (m'.Broken? ==> m'.o.OnceEnter?)
      && (Ended(m') ==> Ended(m) || sh.wg == 0) && (sh.flags.serving ==> sh'.flags.serving)
  }

  lemma {:induction false} AcceptFlagStep(cf: Config, sh: Shared, m: Main, sh': Shared, m': Main)
    requires FlagsOk(sh) && MainFlags(sh, m) && NextAccept(cf, sh, m, sh', m')
    ensures ServeFlags(sh, m, sh', m')
  {
  }

  lemma {:induction false} AdmitFlagStep(cf: Config, sh: Shared, m: Main, sh': Shared, m': Main)
    requires FlagsOk(sh) && MainFlags(sh, m) && NextAdmit(cf, sh, m, sh', m')
    ensures ServeFlags(sh, m, sh', m')
  {
  }

  lemma {:induction false} TrackFlagStep(cf: Config, sh: Shared, m: Main, sh': Shared, m': Main)
    requires FlagsOk(sh) && MainFlags(sh, m) && NextTrack(cf, sh, m, sh', m')
    ensures ServeFlags(sh, m, sh', m')
  {
  }

  lemma {:induction false} EndFlagStep(sh: Shared, m: Main, sh': Shared, m': Main)
    requires FlagsOk(sh) && MainFlags(sh, m) && !m.Broken? && NextEnd(sh, m, sh', m')
    ensures ServeFlags(sh, m, sh', m')
  {
  }

  /** Everyone but a stays where it is, and a's step has the effect of a stopper's. */
  lemma {:induction false} StopKeepsStopOk(s: State, a: Actor, s': State)
    requires StopOk(s) && FlagEffect(s.sh, StopperOf(s, a), s'.sh, StopperOf(s', a))
    requires forall b :: b != a ==> StopperOf(s', b) == StopperOf(s, b)
    requires s'.handlers == s.handlers && MainFlags(s'.sh, s'.main) && (Ended(s'.main) ==> Ended(s.main))
    ensures StopOk(s')
  {
    forall b ensures StopperOk(s'.sh, StopperOf(s', b)) {
      assert StopperOk(s.sh, StopperOf(s, b)) && StopperOk(s.sh, StopperOf(s, a));
      assert InOnce(StopperOf(s, a)) && InOnce(StopperOf(s, b)) ==> a == b;
    }
    forall b, c | InOnce(StopperOf(s', b)) && InOnce(StopperOf(s', c)) ensures b == c {
      assert StopperOk(s.sh, StopperOf(s, b)) && StopperOk(s.sh, StopperOf(s, c));
    }
  }

  lemma {:induction false} CallerKeepsStopOk(s: State, t: Tid, s': State)
    requires StopOk(s) && CallerSteps(s, t, s')
    ensures StopOk(s')
  {
    var a := Caller(t);
    assert StopperOk(s.sh, StopperOf(s, a));
    if !At(s, t).1.Over? {
      StopFlags(s.sh, At(s, t).1, s'.sh, At(s', t).1, At(s, t).0.Shutter?);
    }
    StopKeepsStopOk(s, a, s');
  }

  lemma {:induction false} BrokenKeepsStopOk(cf: Config, s: State, s': State)
    requires StopOk(s) && MainSteps(cf, s, s') && s.main.Broken?
    ensures StopOk(s')
  {
    assert StopperOk(s.sh, StopperOf(s, Server));
    assert forall t :: StopperOf(s', Caller(t)) == StopperOf(s, Caller(t));
    if !s.main.o.Over? {
      StopFlags(s.sh, s.main.o, s'.sh, s'.main.o, false);
    }
    StopKeepsStopOk(s, Server, s');
  }

  /** The Serve goroutine outside stopAccept and abortAll. */
  lemma {:induction false} ServeKeepsStopOk(s: State, s': State)
    requires StopOk(s) && ServeFlags(s.sh, s.main, s'.sh, s'.main) && !s.main.Broken?
    requires s'.handlers == s.handlers && s'.callers == s.callers
    ensures StopOk(s')
  {
    forall b ensures StopperOk(s'.sh, StopperOf(s', b)) && (InOnce(StopperOf(s', b)) ==> InOnce(StopperOf(s, b))) {
      assert StopperOk(s.sh, StopperOf(s, b));
      if b.Caller? { assert StopperOf(s', b) == StopperOf(s, b); }
    }
    assert s.sh.wg == 0 ==> s.handlers == map[];
  }

  /** Goroutines come and go; nothing else about stopping changes. */
  lemma {:induction false} GoKeepsStopOk(s: State, s': State)
    requires StopOk(s) && s'.callers == s.callers && FlagsOk(s'.sh) && MainFlags(s'.sh, s'.main)
    requires s'.sh.flags.stopped == s.sh.flags.stopped && s'.sh.flags.once == s.sh.flags.once
            && s'.sh.flags.lnClosed == s.sh.flags.lnClosed && s'.sh.flags.aborted == s.sh.flags.aborted
    requires s'.main == s.main || (s.main.Spawn? && s'.main.Accepting?)
    requires s'.sh.wg == |s'.handlers| && (Ended(s.main) ==> s'.handlers == map[])
    ensures StopOk(s')
  {
    forall b ensures StopperOf(s', b) == StopperOf(s, b) && StopperOk(s'.sh, StopperOf(s', b)) {
      assert StopperOk(s.sh, StopperOf(s, b));
    }
  }

  lemma {:induction false} HandlerFlags(cf: Config, sh: Shared, c: ConnId, h: Handler, sh': Shared, h': Handler)
    requires NextHandler(cf, sh, c, h, sh', h')
    ensures SameFlags(sh, sh') && sh'.flags.serving == sh.flags.serving && sh'.flags.dones == sh.flags.dones
            && sh'.flags.cancelled == sh.flags.cancelled
  {
  }

  lemma {:induction false} HandlerKeepsStopOk(cf: Config, s: State, c: ConnId, s': State)
    requires StopOk(s) && HandlerSteps(cf, s, c, s')
    ensures StopOk(s')
  {
    HandlerFlags(cf, s.sh, c, s.handlers[c], s'.sh, s'.handlers[c]);
    assert s'.handlers.Keys == s.handlers.Keys;
    assert |s'.handlers| == |s'.handlers.Keys| && |s.handlers| == |s.handlers.Keys|;
    GoKeepsStopOk(s, s');
  }

  lemma {:induction false} EndKeepsStopOk(s: State, c: ConnId, s': State)
    requires StopOk(s) && Ends(s, c, s')
    ensures StopOk(s')
  {
    assert |s.handlers - {c}| == |s.handlers| - 1;
    GoKeepsStopOk(s, s');
  }

  lemma {:induction false} SpawnKeepsStopOk(cf: Config, s: State, s': State)
    requires Phases(cf, s) && StopOk(s) && Spawns(s, s')
    ensures StopOk(s')
  {
    assert s.main.c in Mine(s.main);
    assert |s'.handlers| == |s.handlers| + 1;
    GoKeepsStopOk(s, s');
  }

  lemma {:induction false} KeepsStopOk(cf: Config, s: State, s': State)
    requires Phases(cf, s) && StopOk(s) && Steps(cf, s, s')
    ensures StopOk(s')
  {
    if MainSteps(cf, s, s') {
      if s.main.Broken? {
        BrokenKeepsStopOk(cf, s, s');
      } else {
        MainFlagStep(cf, s.sh, s.main, s'.sh, s'.main);
        ServeKeepsStopOk(s, s');
      }
    } else if Spawns(s, s') {
      SpawnKeepsStopOk(cf, s, s');
    } else if c :| HandlerSteps(cf, s, c, s') {
      HandlerKeepsStopOk(cf, s, c, s');
    } else if c :| Ends(s, c, s') {
      EndKeepsStopOk(s, c, s');
    } else {
      var t :| CallerSteps(s, t, s');
      CallerKeepsStopOk(s, t, s');
    }
  }

  lemma {:induction false} MainFlagStep(cf: Config, sh: Shared, m: Main, sh': Shared, m': Main)
    requires FlagsOk(sh) && MainFlags(sh, m) && !m.Broken? && NextMain(cf, sh, m, sh', m')
    ensures ServeFlags(sh, m, sh', m')
  {
    match PartOf(m)
    case Accepts => AcceptFlagStep(cf, sh, m, sh', m');
    case Admits => AdmitFlagStep(cf, sh, m, sh', m');
    case Tracks => TrackFlagStep(cf, sh, m, sh', m');
    case Finishes => EndFlagStep(sh, m, sh', m');
  }

  // ---- What a stop reaches ----

  /** A closed socket stays closed, what was aborted stays so, and once stopped no connection is
      tracked anew. */
  ghost predicate Grows(sh: Shared, sh': Shared) {
    && (sh.flags.stopped ==> sh'.flags.stopped && sh'.conns <= sh.conns)
    && (sh.flags.aborted ==> sh'.flags.aborted) && sh.flags.drains <= sh'.flags.drains
    && (forall c :: c in sh.socks ==> c in sh'.socks && (sh.socks[c].shut ==> sh'.socks[c].shut))
  }

  lemma {:induction false} AcceptGrows(cf: Config, sh: Shared, m: Main, sh': Shared, m': Main)
    requires NextAccept(cf, sh, m, sh', m')
    ensures Grows(sh, sh')
  {
  }

  lemma {:induction false} AdmitGrows(cf: Config, sh: Shared, m: Main, sh': Shared, m': Main)
    requires NextAdmit(cf, sh, m, sh', m')
    ensures Grows(sh, sh')
  {
  }

  lemma {:induction false} TrackGrows(cf: Config, sh: Shared, m: Main, sh': Shared, m': Main)
    requires NextTrack(cf, sh, m, sh', m')
    ensures Grows(sh, sh')
  {
  }

  lemma {:induction false} ServeGrows(cf: Config, sh: Shared, m: Main, sh': Shared, m': Main)
    requires NextMain(cf, sh, m, sh', m')
    ensures Grows(sh, sh')
  {
    match PartOf(m)
    case Accepts => AcceptGrows(cf, sh, m, sh', m');
    case Admits => AdmitGrows(cf, sh, m, sh', m');
    case Tracks => TrackGrows(cf, sh, m, sh', m');
    case Finishes => if m.Broken? && !m.o.Over? { StopGrows(sh, m.o, sh', m'.o, false); }
  }

  lemma {:induction false} HandlerGrows(cf: Config, sh: Shared, c: ConnId, h: Handler, sh': Shared, h': Handler)
    requires NextHandler(cf, sh, c, h, sh', h')
    ensures Grows(sh, sh')
  {
  }

  lemma {:induction false} StopGrows(sh: Shared, o: Stopper, sh': Shared, o': Stopper, mayLeave: bool)
    requires NextStop(sh, o, sh', o', mayLeave)
    ensures Grows(sh, sh')
  {
    StopPhase(sh, o, sh', o', mayLeave);
    StaysStopped(sh, o, sh', o', mayLeave);
    ShutGrows(sh, sh');
  }

  lemma {:induction false} StaysStopped(sh: Shared, o: Stopper, sh': Shared, o': Stopper, mayLeave: bool)
    requires NextStop(sh, o, sh', o', mayLeave)
    ensures sh.flags.stopped ==> sh'.flags.stopped
    ensures (sh.flags.aborted ==> sh'.flags.aborted) && sh.flags.drains <= sh'.flags.drains
  {
  }

  lemma {:induction false} ShutGrows(sh: Shared, sh': Shared)
    requires StopEffect(sh, sh') && (sh.flags.stopped ==> sh'.flags.stopped)
    requires (sh.flags.aborted ==> sh'.flags.aborted) && sh.flags.drains <= sh'.flags.drains
    ensures Grows(sh, sh')
  {
  }

  lemma {:induction false} StepGrows(cf: Config, s: State, s': State)
    requires Steps(cf, s, s')
    ensures Grows(s.sh, s'.sh)
  {
    if MainSteps(cf, s, s') {
      ServeGrows(cf, s.sh, s.main, s'.sh, s'.main);
    } else if c :| HandlerSteps(cf, s, c, s') {
      HandlerGrows(cf, s.sh, c, s.handlers[c], s'.sh, s'.handlers[c]);
    } else if t :| CallerSteps(s, t, s') {
      if !At(s, t).1.Over? { StopGrows(s.sh, At(s, t).1, s'.sh, At(s', t).1, At(s, t).0.Shutter?); }
    }
  }

  /** While abortAll closes what it found, every tracked connection is closed or still on its list,
      which holds sockets only. */
  predicate Covers(sh: Shared, o: Stopper) {
    o.AbortShut? ==>
      && o.list <= sh.socks.Keys
      && forall c :: c in sh.conns && c in sh.socks ==> sh.socks[c].shut || c in o.list
  }

  lemma {:induction false} StopCovers(sh: Shared, o: Stopper, sh': Shared, o': Stopper, mayLeave: bool)
    requires Covers(sh, o) && sh.conns <= sh.socks.Keys && NextStop(sh, o, sh', o', mayLeave)
    ensures Covers(sh', o')
  {
    if o.AbortShut? && o.list != {} {
      var c :| c in o.list && c in sh.socks && sh' == Shut(sh, c) && o' == AbortShut(o.list - {c});
      ShutCovers(sh, o.list, c);
    }
  }

  lemma {:induction false} ShutCovers(sh: Shared, list: set<ConnId>, c: ConnId)
    requires Covers(sh, AbortShut(list)) && c in sh.socks
    ensures Covers(Shut(sh, c), AbortShut(list - {c}))
  {
  }

  lemma {:induction false} CoversLasts(sh: Shared, o: Stopper, sh': Shared)
    requires Covers(sh, o) && Grows(sh, sh') && sh.flags.stopped && sh.conns <= sh.socks.Keys
    ensures Covers(sh', o)
  {
  }

  ghost predicate AllCover(s: State) { forall a :: Covers(s.sh, StopperOf(s, a)) }

  /** A stopper either stays where it was or takes a stopper's step. */
  ghost predicate Follows(s: State, a: Actor, s': State) {
    var (o, o') := (StopperOf(s, a), StopperOf(s', a));
    || o' == o || !o'.AbortShut?
    || NextStop(s.sh, o, s'.sh, o', false) || NextStop(s.sh, o, s'.sh, o', true)
  }

  lemma {:induction false} StepFollows(cf: Config, s: State, a: Actor, s': State)
    requires Steps(cf, s, s')
    ensures Follows(s, a, s')
  {
    if a.Caller? {
      if t :| CallerSteps(s, t, s') {
        assert a.t != t ==> At(s', a.t) == At(s, a.t);
      }
    }
  }

  lemma {:induction false} KeepsCover(cf: Config, s: State, s': State)
    requires Phases(cf, s) && StopOk(s) && AllCover(s) && Steps(cf, s, s')
    ensures AllCover(s')
  {
    StepGrows(cf, s, s');
    forall a ensures Covers(s'.sh, StopperOf(s', a)) {
      var (o, o') := (StopperOf(s, a), StopperOf(s', a));
      assert Covers(s.sh, o) && StopperOk(s.sh, o);
      StepFollows(cf, s, a, s');
      if o' == o {
        if o.AbortShut? { CoversLasts(s.sh, o, s'.sh); }
      } else if NextStop(s.sh, o, s'.sh, o', false) {
        StopCovers(s.sh, o, s'.sh, o', false);
      } else if NextStop(s.sh, o, s'.sh, o', true) {
        StopCovers(s.sh, o, s'.sh, o', true);
      }
    }
  }

  // ---- At most one uncounted socket ----

  predicate Gone(m: Main) { m.Waiting? || m.Cancel? || m.Returning? || m.Returned? }

  predicate Loose(sh: Shared, c: ConnId) { c in sh.socks && sh.socks[c].tally.Uncounted? }

  /** The uncounted socket is the one in hand, or the one Serve was holding when it left. */
  ghost predicate FewLoose(sh: Shared, m: Main) {
    && (forall c, d :: Loose(sh, c) && Loose(sh, d) ==> c == d)
    && (forall c :: Loose(sh, c) ==> c in Mine(m) || Gone(m))
  }

  /** No socket becomes uncounted but one newly accepted. */
  ghost predicate LooseEffect(sh: Shared, m: Main, sh': Shared, m': Main) {
    && (forall c :: Loose(sh', c) ==> Loose(sh, c) || (m.Accepting? && c in Mine(m')))
    && (forall c :: Loose(sh', c) && c in Mine(m) ==> c in Mine(m') || Gone(m'))
    && (Gone(m) ==> Gone(m'))
  }

  lemma {:induction false} LooseKeeps(sh: Shared, m: Main, sh': Shared, m': Main)
    requires FewLoose(sh, m) && LooseEffect(sh, m, sh', m')
    ensures FewLoose(sh', m')
  {
    forall c, d | Loose(sh', c) && Loose(sh', d) ensures c == d {
      if m.Accepting? { assert Mine(m) == {} && !Loose(sh, c) && !Loose(sh, d); }
    }
  }

  lemma {:induction false} AcceptLoose(cf: Config, sh: Shared, m: Main, sh': Shared, m': Main)
    requires NextAccept(cf, sh, m, sh', m')
    ensures LooseEffect(sh, m, sh', m')
  {
  }

  lemma {:induction false} AdmitLoose(cf: Config, sh: Shared, m: Main, sh': Shared, m': Main)
    requires MainOk(cf, sh, m) && NextAdmit(cf, sh, m, sh', m')
    ensures LooseEffect(sh, m, sh', m')
  {
  }

  /** From track on, Serve keeps its socket in hand or is gone, and takes up no other. */
  predicate HandStays(m: Main, m': Main) {
    && (Mine(m) <= Mine(m') || Gone(m')) && (Gone(m) ==> Gone(m'))
    && (m.CountActive? ==> m'.Spawn?) && (!Working(m) ==> !Working(m'))
    && !m.AdShut? && !m.IpShut? && !m.Spawn?
  }

  lemma {:induction false} ServeHand(cf: Config, sh: Shared, m: Main, sh': Shared, m': Main)
    requires NextTrack(cf, sh, m, sh', m') || (PartOf(m).Finishes? && NextEnd(sh, m, sh', m'))
    ensures HandStays(m, m')
  {
  }

  /** A socket Serve works on from track on is uncounted until it is counted as accepted. */
  lemma {:induction false} ServeLoose(cf: Config, sh: Shared, m: Main, sh': Shared, m': Main)
    requires MainOk(cf, sh, m) && MainEffect(cf, sh, m, sh', m') && HandStays(m, m')
    ensures LooseEffect(sh, m, sh', m')
  {
  }

  lemma {:induction false} StopLoose(sh: Shared, m: Main, sh': Shared, m': Main)
    requires StopEffect(sh, sh') && Mine(m) <= Mine(m') && (Gone(m) ==> Gone(m'))
    ensures LooseEffect(sh, m, sh', m')
  {
  }

  /** A connection with a handler stays counted as accepted. */
  lemma {:induction false} HandlerLoose(cf: Config, sh: Shared, c: ConnId, sh': Shared, h': Handler, m: Main)
    requires HandlerEffect(cf, sh, c, sh', h')
    ensures LooseEffect(sh, m, sh', m)
  {
  }

  lemma {:induction false} MainLoose(cf: Config, s: State, s': State)
    requires Phases(cf, s) && MainSteps(cf, s, s')
    ensures LooseEffect(s.sh, s.main, s'.sh, s'.main)
  {
    var (sh, m, sh', m') := (s.sh, s.main, s'.sh, s'.main);
    if PartOf(m).Accepts? {
      AcceptLoose(cf, sh, m, sh', m');
    } else if PartOf(m).Admits? {
      AdmitLoose(cf, sh, m, sh', m');
    } else if m.Broken? {
      if !m.o.Over? { StopPhase(sh, m.o, sh', m'.o, false); }
      StopLoose(sh, m, sh', m');
    } else {
      ServePhase(cf, sh, m, sh', m');
      ServeHand(cf, sh, m, sh', m');
      ServeLoose(cf, sh, m, sh', m');
    }
  }

  lemma {:induction false} KeepsFewLoose(cf: Config, s: State, s': State)
    requires Phases(cf, s) && FewLoose(s.sh, s.main) && Steps(cf, s, s')
    ensures FewLoose(s'.sh, s'.main)
  {
    if MainSteps(cf, s, s') {
      MainLoose(cf, s, s');
    } else if Spawns(s, s') {
      assert s.main.c in Mine(s.main) && !Loose(s.sh, s.main.c);
    } else if c :| HandlerSteps(cf, s, c, s') {
      HandlerPhase(cf, s.sh, c, s.handlers[c], s'.sh, s'.handlers[c]);
      HandlerLoose(cf, s.sh, c, s'.sh, s'.handlers[c], s.main);
    } else if t :| CallerSteps(s, t, s') {
      if !At(s, t).1.Over? { StopPhase(s.sh, At(s, t).1, s'.sh, At(s', t).1, At(s, t).0.Shutter?); }
      StopLoose(s.sh, s.main, s'.sh, s'.main);
    }
    LooseKeeps(s.sh, s.main, s'.sh, s'.main);
  }

  // ---- Every run ----

  ghost predicate Inv(cf: Config, s: State) {
    Phases(cf, s) && Counts(s.sh) && Bounded(cf, s.sh.slots) && StopOk(s) && AllCover(s) && FewLoose(s.sh, s.main)
  }

  lemma {:induction false} StartInv(cf: Config, s: State)
    requires Start(s)
    ensures Inv(cf, s)
  {
    AllZero(Weights(s.sh.socks, IsAccepted));
    AllZero(Weights(s.sh.socks, IsRejected));
    AllZero(Weights(s.sh.socks, IsRejectedIp));
    AllZero(Weights(s.sh.socks, IsLive));
    AllZero(Weights(s.sh.socks, IsEnded));
    AllZero(Weights(s.sh.socks, HasPermit));
    forall ip ensures Held(s.sh.slots, ip) == Tot(s.sh.socks, OnIp(ip)) { AllZero(Weights(s.sh.socks, OnIp(ip))); }
    assert forall a :: StopperOf(s, a) == Over;
  }

  lemma {:induction false} KeepsInv(cf: Config, s: State, s': State)
    requires Inv(cf, s) && Steps(cf, s, s')
    ensures Inv(cf, s')
  {
    KeepsPhases(cf, s, s');
    KeepsCounts(cf, s, s');
    KeepsBounded(cf, s, s');
    KeepsStopOk(cf, s, s');
    KeepsCover(cf, s, s');
    KeepsFewLoose(cf, s, s');
  }

  lemma {:induction false} StepInv(cf: Config, run: seq<State>, i: nat)
    requires Run(cf, run) && 0 < i < |run| && Inv(cf, run[i - 1])
    ensures Inv(cf, run[i])
  {
    assert StepAt(cf, run, i - 1);
    KeepsInv(cf, run[i - 1], run[i]);
  }

  /** Every state of every run keeps the invariant. */
  lemma {:induction false} Reachable(cf: Config, run: seq<State>, i: nat)
    requires Run(cf, run) && i < |run|
    ensures Inv(cf, run[i])
  {
    if i == 0 {
      StartInv(cf, run[0]);
    } else {
      Reachable(cf, run, i - 1);
      StepInv(cf, run, i);
    }
  }

  /** Once stopped, always stopped: no connection is tracked after, and a closed socket
      stays closed. */
  lemma {:induction false} StoppedIsFinal(cf: Config, run: seq<State>, i: nat, j: nat)
    requires Run(cf, run) && i <= j < |run|
    ensures run[i].sh.flags.stopped ==> run[j].sh.flags.stopped && run[j].sh.conns <= run[i].sh.conns
    ensures (run[i].sh.flags.aborted ==> run[j].sh.flags.aborted) && run[i].sh.flags.drains <= run[j].sh.flags.drains
    ensures forall c :: c in run[i].sh.socks ==>
              c in run[j].sh.socks && (run[i].sh.socks[c].shut ==> run[j].sh.socks[c].shut)
    decreases j
  {
    if i < j {
      StoppedIsFinal(cf, run, i, j - 1);
      assert StepAt(cf, run, j - 1);
      StepGrows(cf, run[j - 1], run[j]);
    }
  }

  /** abortAll takes the lock only after the listener is closed and Draining signalled, and
      Draining is closed at most once. */
  lemma {:induction false} AbortFollowsStop(cf: Config, run: seq<State>, i: nat, a: Actor)
    requires Run(cf, run) && i < |run|
    ensures run[i].sh.flags.drains <= 1
    ensures run[i].sh.flags.drains == 1 ==> run[i].sh.flags.stopped && run[i].sh.flags.lnClosed
    ensures run[i].sh.flags.aborted ==> run[i].sh.flags.drains == 1
    ensures StopperOf(run[i], a).AbortLock? || StopperOf(run[i], a).AbortShut? ==> run[i].sh.flags.drains == 1
  {
    Reachable(cf, run, i);
    assert StopperOk(run[i].sh, StopperOf(run[i], a));
  }

  /** When a call of abortAll ends, every connection still tracked is closed, then and ever after. */
  lemma {:induction false} AbortClosesAll(cf: Config, run: seq<State>, i: nat, j: nat, a: Actor, c: ConnId)
    requires Run(cf, run) && i <= j < |run| && StopperOf(run[i], a) == AbortShut({}) && c in run[j].sh.conns
    ensures c in run[j].sh.socks && run[j].sh.socks[c].shut
  {
    Reachable(cf, run, i);
    AbortFollowsStop(cf, run, i, a);
    StoppedIsFinal(cf, run, i, j);
    assert Covers(run[i].sh, StopperOf(run[i], a));
  }

  /** The handlers' context is cancelled exactly by abortAll or once Serve is done with every
      handler: while any handler runs, only by abortAll. */
  lemma {:induction false} ContextOutlivesHandlers(cf: Config, run: seq<State>, i: nat)
    requires Run(cf, run) && i < |run|
    ensures run[i].sh.flags.cancelled <==> run[i].sh.flags.aborted || run[i].main.Returning? || run[i].main.Returned?
    ensures run[i].handlers != map[] ==> (run[i].sh.flags.cancelled <==> run[i].sh.flags.aborted)
  {
    Reachable(cf, run, i);
  }

  // ---- Admission ----

  ghost function PermitHolders(sh: Shared): set<ConnId> { set c | c in sh.socks && sh.socks[c].permit }

  ghost function SlotHolders(sh: Shared, ip: Ip): set<ConnId> {
    set c | c in sh.socks && sh.socks[c].slot && sh.socks[c].ip == ip
  }

  ghost function LooseSocks(sh: Shared): set<ConnId> { set c | c in sh.socks && Loose(sh, c) }

  /** Summing a property's indicator counts the sockets that have it. */
  lemma {:induction false} TotCounts(socks: map<ConnId, Sock>, f: Sock -> nat, having: set<ConnId>)
    requires having <= socks.Keys && forall c :: c in socks ==> f(socks[c]) == if c in having then 1 else 0
    ensures Tot(socks, f) == |having|
    decreases |socks|
  {
    if socks == map[] {
      AllZero(Weights(socks, f));
      assert having == {};
    } else {
      var c :| c in socks;
      TotDrop(socks, c, f);
      TotCounts(socks - {c}, f, having - {c});
      assert c in having || having - {c} == having;
    }
  }

  /** Permits and slots in use are exactly the sockets holding them, no address has more
      slots than allowed, and a socket counted as Closed holds nothing. */
  ghost predicate HeldByHolders(cf: Config, sh: Shared) {
    && sh.permits == |PermitHolders(sh)|
    && (forall ip :: Held(sh.slots, ip) == |SlotHolders(sh, ip)| <= cf.maxPerIp)
    && (forall c :: c in sh.socks && sh.socks[c].ended ==> !sh.socks[c].permit && !sh.socks[c].slot)
  }

  lemma {:induction false} CountsHolders(cf: Config, sh: Shared)
    requires Counts(sh) && Bounded(cf, sh.slots)
    ensures sh.permits == |PermitHolders(sh)| && forall ip :: Held(sh.slots, ip) == |SlotHolders(sh, ip)| <= cf.maxPerIp
  {
    TotCounts(sh.socks, HasPermit, PermitHolders(sh));
    forall ip ensures Held(sh.slots, ip) == |SlotHolders(sh, ip)| <= cf.maxPerIp {
      TotCounts(sh.socks, OnIp(ip), SlotHolders(sh, ip));
    }
  }

  lemma {:induction false} ClosedIsBare(cf: Config, s: State, c: ConnId)
    requires Phases(cf, s) && c in s.sh.socks && s.sh.socks[c].ended
    ensures Bare(s.sh.socks[c])
  {
  }

  lemma {:induction false} HoldersExact(cf: Config, run: seq<State>, i: nat)
    requires Run(cf, run) && i < |run|
    ensures HeldByHolders(cf, run[i].sh)
  {
    var s := run[i];
    assert Inv(cf, s) by { Reachable(cf, run, i); }
    CountsHolders(cf, s.sh);
    forall c | c in s.sh.socks && s.sh.socks[c].ended ensures Bare(s.sh.socks[c]) { ClosedIsBare(cf, s, c); }
  }

  /** Between its admission and its release a tracked connection holds every limit that applies. */
  lemma {:induction false} HandledIsAdmitted(cf: Config, run: seq<State>, i: nat, c: ConnId)
    requires Run(cf, run) && i < |run| && c in run[i].handlers
    ensures c in run[i].sh.socks
    ensures run[i].handlers[c].Handling? ==> c in run[i].sh.conns && Full(cf, run[i].sh.socks[c])
  {
    Reachable(cf, run, i);
  }

  /** Nothing is released that is not held: neither limiter can panic. */
  lemma {:induction false} ReleasesAreHeld(cf: Config, run: seq<State>, i: nat, c: ConnId)
    requires Run(cf, run) && i < |run| && c in run[i].sh.socks
    ensures c in run[i].handlers && run[i].handlers[c].HAdmit? && cf.hasAdmit ==> run[i].sh.permits >= 1
    ensures run[i].main == LateAdmit(c) && cf.hasAdmit ==> run[i].sh.permits >= 1
    ensures run[i].sh.socks[c].slot ==> Held(run[i].sh.slots, run[i].sh.socks[c].ip) >= 1
  {
    var s := run[i];
    assert Inv(cf, s) by { Reachable(cf, run, i); }
    HeldIsCounted(s.sh, c);
    if cf.hasAdmit && ((c in s.handlers && s.handlers[c].HAdmit?) || s.main == LateAdmit(c)) {
      ReleasesPermit(cf, s, c);
    }
  }

  lemma {:induction false} HeldIsCounted(sh: Shared, c: ConnId)
    requires Counts(sh) && c in sh.socks
    ensures sh.socks[c].permit ==> sh.permits >= 1
    ensures sh.socks[c].slot ==> Held(sh.slots, sh.socks[c].ip) >= 1
  {
    if sh.socks[c].permit { PermitIsHeld(sh, c); }
    if sh.socks[c].slot { SlotIsHeld(sh, c); }
  }

  lemma {:induction false} ReleasesPermit(cf: Config, s: State, c: ConnId)
    requires Phases(cf, s) && c in s.sh.socks && cf.hasAdmit
    requires (c in s.handlers && s.handlers[c].HAdmit?) || s.main == LateAdmit(c)
    ensures s.sh.socks[c].permit
  {
  }

  lemma {:induction false} TalliesSplit(socks: map<ConnId, Sock>)
    ensures |socks| == Tot(socks, IsAccepted) + Tot(socks, IsRejected) + Tot(socks, IsRejectedIp)
            + Tot(socks, IsUncounted)
    decreases |socks|
  {
    if socks == map[] {
      AllZero(Weights(socks, IsAccepted));
      AllZero(Weights(socks, IsRejected));
      AllZero(Weights(socks, IsRejectedIp));
      AllZero(Weights(socks, IsUncounted));
    } else {
      var c :| c in socks;
      TotDrop(socks, c, IsAccepted);
      TotDrop(socks, c, IsRejected);
      TotDrop(socks, c, IsRejectedIp);
      TotDrop(socks, c, IsUncounted);
      TalliesSplit(socks - {c});
    }
  }

  lemma {:induction false} TotDrop(socks: map<ConnId, Sock>, c: ConnId, f: Sock -> nat)
    requires c in socks
    ensures Tot(socks, f) == f(socks[c]) + Tot(socks - {c}, f) && |socks - {c}| == |socks| - 1
  {
    SumDrop(Weights(socks, f), c);
    assert Weights(socks, f) - {c} == Weights(socks - {c}, f);
    assert (socks - {c}).Keys == socks.Keys - {c};
  }

  /** Every socket Accept returned is counted once, as Accepted, Rejected or RejectedPerIP,
      but for at most one: the one in hand, or the late one track refused. */
  ghost predicate AllCounted(sh: Shared) {
    |sh.socks| == sh.count.accepted + sh.count.rejected + sh.count.rejectedIp + |LooseSocks(sh)|
    && |LooseSocks(sh)| <= 1
  }

  lemma {:induction false} CountsAll(sh: Shared, m: Main)
    requires Counts(sh) && FewLoose(sh, m)
    ensures AllCounted(sh)
  {
    TalliesSplit(sh.socks);
    var loose := LooseSocks(sh);
    TotCounts(sh.socks, IsUncounted, loose);
    if c :| c in loose {
      assert loose == {c};
    }
  }

  lemma {:induction false} EverySocketCounted(cf: Config, run: seq<State>, i: nat)
    requires Run(cf, run) && i < |run|
    ensures AllCounted(run[i].sh)
  {
    var s := run[i];
    assert Inv(cf, s) by { Reachable(cf, run, i); }
    CountsAll(s.sh, s.main);
  }

  // ---- When Serve returns ----

  lemma {:induction false} TotSame(socks: map<ConnId, Sock>, f: Sock -> nat, g: Sock -> nat)
    requires forall c :: c in socks ==> f(socks[c]) == g(socks[c])
    ensures Tot(socks, f) == Tot(socks, g)
  {
    assert Weights(socks, f) == Weights(socks, g);
  }

  /** Every socket is closed and done with, and every gauge and limit is back to nothing. */
  ghost predicate Clean(sh: Shared) {
    && sh.conns == {} && (forall c :: c in sh.socks ==> sh.socks[c].shut)
    && sh.count.active == 0 && sh.count.accepted == sh.count.closed
    && sh.permits == 0 && sh.slots == map[]
  }

  lemma {:induction false} NoneHas(socks: map<ConnId, Sock>, f: Sock -> nat)
    requires forall c :: c in socks ==> f(socks[c]) == 0
    ensures Tot(socks, f) == 0
  {
    AllZero(Weights(socks, f));
  }

  ghost predicate AllSettled(sh: Shared) {
    sh.conns <= sh.socks.Keys && forall c :: c in sh.socks ==> Settled(sh.socks[c], c in sh.conns)
  }

  lemma {:induction false} SettledTotals(sh: Shared)
    requires AllSettled(sh)
    ensures Tot(sh.socks, IsLive) == 0 && Tot(sh.socks, HasPermit) == 0
            && Tot(sh.socks, IsAccepted) == Tot(sh.socks, IsEnded)
  {
    NoneHas(sh.socks, IsLive);
    NoneHas(sh.socks, HasPermit);
    TotSame(sh.socks, IsAccepted, IsEnded);
  }

  lemma {:induction false} SettledIsClean(cf: Config, sh: Shared)
    requires Counts(sh) && Bounded(cf, sh.slots) && AllSettled(sh)
    ensures Clean(sh)
  {
    SettledTotals(sh);
    forall ip ensures ip !in sh.slots { NoSlot(cf, sh, ip); }
  }

  lemma {:induction false} NoSlot(cf: Config, sh: Shared, ip: Ip)
    requires Counts(sh) && Bounded(cf, sh.slots) && forall c :: c in sh.socks ==> !sh.socks[c].slot
    ensures ip !in sh.slots
  {
    NoneHas(sh.socks, OnIp(ip));
  }

  lemma {:induction false} EndedSettles(cf: Config, s: State, c: ConnId)
    requires Phases(cf, s) && Ended(s.main) && s.handlers == map[] && c in s.sh.socks
    ensures Settled(s.sh.socks[c], c in s.sh.conns)
  {
  }

  /** When Serve returns no handler runs, no connection is tracked, every socket is closed,
      Active is zero, Accepted equals Closed, and no permit and no slot is held. */
  lemma {:induction false} ServeReturnsClean(cf: Config, run: seq<State>, i: nat)
    requires Run(cf, run) && i < |run| && run[i].main.Returned?
    ensures run[i].handlers == map[] && run[i].sh.wg == 0 && run[i].sh.flags.dones == 1 && Clean(run[i].sh)
  {
    var s := run[i];
    assert Inv(cf, s) by { Reachable(cf, run, i); }
    forall c | c in s.sh.socks ensures Settled(s.sh.socks[c], c in s.sh.conns) { EndedSettles(cf, s, c); }
    SettledIsClean(cf, s.sh);
  }
}
