/** What a whole call of Close, Shutdown or Serve has done when it ends, why Serve turns sockets
    away, and that nobody waits without need. */
module TcpCalls {
  import opened LimitSpec
  import opened TcpServer
  import opened TcpShutdown

  // ---- Close, Shutdown and a broken listener ----

  /** The server takes no connection any more: its listener is closed and Draining signalled. */
  predicate Stopped(sh: Shared) { sh.flags.stopped && sh.flags.lnClosed && sh.flags.drains == 1 }

  /** ... and the handlers' context is cancelled and every tracked connection is closed. */
  predicate Aborted(sh: Shared) {
    && Stopped(sh) && sh.flags.aborted && sh.flags.cancelled
    && forall c :: c in sh.conns ==> c in sh.socks && sh.socks[c].shut
  }

  lemma {:induction false} AbortLasts(cf: Config, run: seq<State>, i: nat, j: nat, a: Actor)
    requires Run(cf, run) && i <= j < |run| && StopperOf(run[i], a) == AbortShut({})
    ensures Aborted(run[j].sh)
  {
    Reachable(cf, run, i);
    Reachable(cf, run, j);
    assert StopperOk(run[i].sh, StopperOf(run[i], a));
    StoppedIsFinal(cf, run, i, j);
    forall c | c in run[j].sh.conns ensures c in run[j].sh.socks && run[j].sh.socks[c].shut {
      AbortClosesAll(cf, run, i, j, a, c);
    }
  }

  /** Where Close and a broken Serve never are: they do not wait. */
  predicate Straight(o: Stopper) { !o.Check? && !o.Wait? }

  lemma {:induction false} StopStraight(sh: Shared, o: Stopper, sh': Shared, o': Stopper)
    requires NextStop(sh, o, sh', o', false) && Straight(o)
    ensures Straight(o') && (o'.Over? ==> o == AbortShut({}))
  {
  }

  /** Shutdown aborts only from its wait, and finds the server serving when it waits. */
  lemma {:induction false} AbortsAfterWait(sh: Shared, o: Stopper, sh': Shared, o': Stopper)
    requires NextStop(sh, o, sh', o', true)
    ensures (o'.AbortLock? ==> o.Wait?) && (o'.Wait? ==> sh.flags.serving)
  {
  }

  lemma {:induction false} ShutdownWaitsFirst(cf: Config, run: seq<State>, k: nat, t: Tid)
    requires Run(cf, run) && k + 1 < |run| && At(run[k + 1], t) == (Shutter, AbortLock) != At(run[k], t)
    ensures At(run[k], t) == (Shutter, Wait) && run[k].sh.flags.serving
  {
    assert StepAt(cf, run, k);
    var (s, s') := (run[k], run[k + 1]);
    if At(s, t).1.Over? {
      CallerBegins(cf, s, t, s');
    } else {
      CallerMoves(cf, s, t, s');
      AbortsAfterWait(s.sh, At(s, t).1, s'.sh, At(s', t).1);
      Reachable(cf, run, k);
      assert StopperOk(s.sh, StopperOf(s, Caller(t)));
    }
  }

  /** A waiting Shutdown can abort at any time, when its context ends, and return once Serve has. */
  lemma ShutdownCanEnd(cf: Config, s: State, t: Tid)
    requires At(s, t) == (Shutter, Wait)
    ensures Steps(cf, s, s.(callers := s.callers[t := (Shutter, AbortLock)]))
    ensures s.sh.flags.dones > 0 ==> Steps(cf, s, s.(callers := s.callers[t := (Shutter, Over)]))
  {
    assert CallerSteps(s, t, s.(callers := s.callers[t := (Shutter, AbortLock)]));
    if s.sh.flags.dones > 0 { assert CallerSteps(s, t, s.(callers := s.callers[t := (Shutter, Over)])); }
  }

  lemma {:induction false} StopAsks(sh: Shared, o: Stopper, sh': Shared, o': Stopper)
    requires NextStop(sh, o, sh', o', true) && o'.Over?
    ensures PastOnce(o) && (!sh.flags.serving || sh.flags.dones > 0 || o == AbortShut({}))
  {
  }

  /** A caller that moves within its call takes a stopper's step. */
  lemma {:induction false} CallerMoves(cf: Config, s: State, t: Tid, s': State)
    requires Steps(cf, s, s') && At(s', t) != At(s, t) && !At(s, t).1.Over?
    ensures At(s', t).0 == At(s, t).0 && NextStop(s.sh, At(s, t).1, s'.sh, At(s', t).1, At(s, t).0.Shutter?)
  {
    if u :| CallerSteps(s, u, s') {
      assert u != t ==> At(s', t) == At(s, t);
    }
  }

  lemma {:induction false} CallerBegins(cf: Config, s: State, t: Tid, s': State)
    requires Steps(cf, s, s') && At(s', t) != At(s, t) && At(s, t).1.Over?
    ensures At(s', t).1.OnceEnter?
  {
    if u :| CallerSteps(s, u, s') {
      assert u != t ==> At(s', t) == At(s, t);
    }
  }

  lemma {:induction false} CloserStraight(cf: Config, run: seq<State>, i: nat, t: Tid)
    requires Run(cf, run) && i < |run| && At(run[i], t).0.Closer?
    ensures Straight(At(run[i], t).1)
  {
    if i > 0 {
      assert StepAt(cf, run, i - 1);
      var (s, s') := (run[i - 1], run[i]);
      if At(s', t) == At(s, t) {
        CloserStraight(cf, run, i - 1, t);
      } else if At(s, t).1.Over? {
        CallerBegins(cf, s, t, s');
      } else {
        CallerMoves(cf, s, t, s');
        CloserStraight(cf, run, i - 1, t);
        StopStraight(s.sh, At(s, t).1, s'.sh, At(s', t).1);
      }
    }
  }

  /** Caller t's call ends in the step after state k. */
  ghost predicate EndsAt(run: seq<State>, k: nat, t: Tid) {
    k + 1 < |run| && !At(run[k], t).1.Over? && At(run[k + 1], t).1.Over?
  }

  /** When Close returns, the server has aborted: the handlers' context is cancelled, and every
      connection tracked then or later is closed. */
  lemma {:induction false} CloseAborts(cf: Config, run: seq<State>, k: nat, t: Tid, j: nat)
    requires Run(cf, run) && EndsAt(run, k, t) && At(run[k], t).0.Closer? && k < j < |run|
    ensures Aborted(run[j].sh)
  {
    assert StepAt(cf, run, k);
    CallerMoves(cf, run[k], t, run[k + 1]);
    CloserStraight(cf, run, k, t);
    StopStraight(run[k].sh, At(run[k], t).1, run[k + 1].sh, At(run[k + 1], t).1);
    AbortLasts(cf, run, k, j, Caller(t));
  }

  /** When Shutdown returns, the server was not serving, or Serve had returned, or the server
      has aborted as by Close. */
  lemma {:induction false} ShutdownWaitsOrAborts(cf: Config, run: seq<State>, k: nat, t: Tid, j: nat)
    requires Run(cf, run) && EndsAt(run, k, t) && At(run[k], t).0.Shutter? && k < j < |run|
    ensures Stopped(run[j].sh)
    ensures !run[k].sh.flags.serving || run[k].main.Returned? || Aborted(run[j].sh)
  {
    assert StepAt(cf, run, k);
    var (s, s') := (run[k], run[k + 1]);
    CallerMoves(cf, s, t, s');
    Reachable(cf, run, k);
    Reachable(cf, run, j);
    StopAsks(s.sh, At(s, t).1, s'.sh, At(s', t).1);
    if At(s, t).1 == AbortShut({}) { AbortLasts(cf, run, k, j, Caller(t)); }
    assert StopperOk(s.sh, StopperOf(s, Caller(t)));
    StoppedIsFinal(cf, run, k, j);
  }

  /** A Serve whose listener broke moves through stopAccept and abortAll. */
  lemma {:induction false} ServeMoves(cf: Config, s: State, s': State)
    requires Steps(cf, s, s') && s'.main.Broken? && s'.main != s.main
    ensures s'.main.o.OnceEnter? || (s.main.Broken? && NextStop(s.sh, s.main.o, s'.sh, s'.main.o, false))
  {
  }

  lemma {:induction false} BrokenStraight(cf: Config, run: seq<State>, i: nat)
    requires Run(cf, run) && i < |run| && run[i].main.Broken?
    ensures Straight(run[i].main.o)
  {
    if i > 0 {
      assert StepAt(cf, run, i - 1);
      var (s, s') := (run[i - 1], run[i]);
      if s'.main == s.main {
        BrokenStraight(cf, run, i - 1);
      } else {
        ServeMoves(cf, s, s');
        if !s'.main.o.OnceEnter? {
          BrokenStraight(cf, run, i - 1);
          StopStraight(s.sh, s.main.o, s'.sh, s'.main.o);
        }
      }
    }
  }

  /** When the accept loop has broken, and before Serve waits for the handlers, the server has
      aborted as by Close. */
  lemma {:induction false} BrokenServeAborts(cf: Config, run: seq<State>, i: nat, j: nat)
    requires Run(cf, run) && i < j < |run| && run[i].main.Broken? && !run[i + 1].main.Broken?
    ensures Aborted(run[j].sh) && run[i + 1].main == Waiting
  {
    assert StepAt(cf, run, i);
    BrokenLeaves(cf, run[i], run[i + 1]);
    AbortedWhenOver(cf, run, i, j);
  }

  lemma {:induction false} BrokenLeaves(cf: Config, s: State, s': State)
    requires Steps(cf, s, s') && s.main.Broken? && !s'.main.Broken?
    ensures s.main.o.Over? && s'.main == Waiting
  {
  }

  lemma {:induction false} AbortedWhenOver(cf: Config, run: seq<State>, i: nat, j: nat)
    requires Run(cf, run) && i <= j < |run| && run[i].main == Broken(Over)
    ensures Aborted(run[j].sh)
  {
    if i > 0 {
      assert StepAt(cf, run, i - 1);
      var (s, s') := (run[i - 1], run[i]);
      if s'.main == s.main {
        AbortedWhenOver(cf, run, i - 1, j);
      } else {
        ServeMoves(cf, s, s');
        BrokenStraight(cf, run, i - 1);
        StopStraight(s.sh, s.main.o, s'.sh, s'.main.o);
        AbortLasts(cf, run, i - 1, j, Server);
      }
    }
  }

  // ---- Why a socket is turned away ----

  /** Serve turns a socket away, and gives up the listener, only for cause: for the address
      limit exactly when that many sockets of the address hold a slot, for the Admit limit when
      there is one, for being late when the server is stopped, and the listener on an error that
      comes before it was stopped. */
  ghost predicate ForCause(cf: Config, s: State, s': State) {
    && (s.main.PerIp? && s.main.c in s.sh.socks ==>
          var sock := s.sh.socks[s.main.c];
          s'.main.IpReject? <==> sock.keyed && |SlotHolders(s.sh, sock.ip)| == cf.maxPerIp)
    && (s.main.Admit? && s'.main.AdRelease? ==> cf.hasAdmit)
    && (s.main.Track? ==> (s'.main.LateAdmit? <==> s.sh.flags.stopped))
    && (s.main.Classify? && s'.main.Broken? ==> !s.sh.flags.stopped)
  }

  lemma {:induction false} TurnsAway(cf: Config, s: State, s': State)
    requires NextMain(cf, s.sh, s.main, s'.sh, s'.main) && HeldByHolders(cf, s.sh)
    ensures ForCause(cf, s, s')
  {
  }

  lemma {:induction false} TurnsAwayForCause(cf: Config, run: seq<State>, i: nat)
    requires Run(cf, run) && i + 1 < |run| && run[i + 1].main != run[i].main && !run[i].main.Spawn?
    ensures ForCause(cf, run[i], run[i + 1])
  {
    assert StepAt(cf, run, i);
    var (s, s') := (run[i], run[i + 1]);
    HoldersExact(cf, run, i);
    assert MainSteps(cf, s, s');
    TurnsAway(cf, s, s');
  }

  /** How often the accept loop has backed off from an error of Accept before state i. */
  function Backoffs(run: seq<State>, i: nat): nat
    requires i < |run|
  {
    if i == 0 then 0
    else Backoffs(run, i - 1) + if run[i - 1].main.Classify? && run[i].main.Backoff? then 1 else 0
  }

  lemma {:induction false} AcceptErrs(cf: Config, sh: Shared, m: Main, sh': Shared, m': Main)
    requires NextAccept(cf, sh, m, sh', m')
    ensures sh'.count.acceptErrors == sh.count.acceptErrors + if m.Classify? && m'.Backoff? then 1 else 0
  {
  }

  lemma {:induction false} AdmitErrs(cf: Config, sh: Shared, m: Main, sh': Shared, m': Main)
    requires NextAdmit(cf, sh, m, sh', m') || NextTrack(cf, sh, m, sh', m')
    ensures sh'.count.acceptErrors == sh.count.acceptErrors && !m.Classify?
  {
  }

  lemma {:induction false} EndErrs(sh: Shared, m: Main, sh': Shared, m': Main)
    requires NextEnd(sh, m, sh', m')
    ensures sh'.count.acceptErrors == sh.count.acceptErrors && !m.Classify?
  {
  }

  lemma {:induction false} ErrorStep(cf: Config, sh: Shared, m: Main, sh': Shared, m': Main)
    requires NextMain(cf, sh, m, sh', m')
    ensures sh'.count.acceptErrors == sh.count.acceptErrors + if m.Classify? && m'.Backoff? then 1 else 0
  {
    match PartOf(m)
    case Accepts => AcceptErrs(cf, sh, m, sh', m');
    case Admits => AdmitErrs(cf, sh, m, sh', m');
    case Tracks => AdmitErrs(cf, sh, m, sh', m');
    case Finishes => EndErrs(sh, m, sh', m');
  }

  lemma {:induction false} ErrorsElsewhere(cf: Config, s: State, s': State)
    requires Steps(cf, s, s') && !MainSteps(cf, s, s')
    ensures s'.sh.count.acceptErrors == s.sh.count.acceptErrors && !(s.main.Classify? && s'.main.Backoff?)
  {
  }

  /** AcceptErrors counts the errors that Serve backs off from. */
  lemma {:induction false} AcceptErrorsExact(cf: Config, run: seq<State>, i: nat)
    requires Run(cf, run) && i < |run|
    ensures run[i].sh.count.acceptErrors == Backoffs(run, i)
  {
    if i > 0 {
      AcceptErrorsExact(cf, run, i - 1);
      assert StepAt(cf, run, i - 1);
      var (s, s') := (run[i - 1], run[i]);
      if MainSteps(cf, s, s') {
        ErrorStep(cf, s.sh, s.main, s'.sh, s'.main);
      } else {
        ErrorsElsewhere(cf, s, s');
      }
    }
  }

  // ---- Nobody is stuck ----

  /** A stopper waits for another one's stopAccept, and for nothing else. */
  lemma {:induction false} StopCanStep(sh: Shared, o: Stopper, mayLeave: bool)
    requires !o.Over? && (o.AbortShut? ==> o.list <= sh.socks.Keys)
    ensures (exists sh', o' :: NextStop(sh, o, sh', o', mayLeave)) <==> !(o.OnceEnter? && sh.flags.once.Running?)
  {
    var f := sh.flags;
    match o
    case OnceEnter =>
      if f.once.Passed? {
        assert NextStop(sh, o, sh, AfterOnce(mayLeave), mayLeave);
      } else if f.once.Fresh? {
        assert NextStop(sh, o, Raise(sh, f.(once := Running)), OnceStop, mayLeave);
      }
    case OnceStop => assert NextStop(sh, o, Raise(sh, f.(stopped := true)), OnceListener, mayLeave);
    case OnceListener => assert NextStop(sh, o, Raise(sh, f.(lnClosed := true)), OnceDrain, mayLeave);
    case OnceDrain =>
      assert NextStop(sh, o, Raise(sh, f.(drains := f.drains + 1, once := Passed)), AfterOnce(mayLeave), mayLeave);
    case Check => assert NextStop(sh, o, sh, if f.serving then Wait else Over, mayLeave);
    case Wait => assert NextStop(sh, o, sh, AbortLock, mayLeave);
    case AbortLock =>
      assert NextStop(sh, o, Raise(sh, f.(cancelled := true, aborted := true)), AbortShut(sh.conns), mayLeave);
    case AbortShut(list) =>
      if list == {} {
        assert NextStop(sh, o, sh, Over, mayLeave);
      } else {
        var c :| c in list;
        assert NextStop(sh, o, Shut(sh, c), AbortShut(list - {c}), mayLeave);
      }
  }

  ghost predicate CanStop(sh: Shared, o: Stopper, mayLeave: bool) {
    exists sh', o' :: NextStop(sh, o, sh', o', mayLeave)
  }

  ghost predicate CanHandle(cf: Config, sh: Shared, c: ConnId, h: Handler) {
    exists sh', h' :: NextHandler(cf, sh, c, h, sh', h')
  }

  ghost predicate CanServe(cf: Config, sh: Shared, m: Main) {
    exists sh', m' :: NextMain(cf, sh, m, sh', m')
  }

  lemma {:induction false} HandlerCanStep(cf: Config, sh: Shared, c: ConnId, h: Handler)
    requires c in sh.socks && !h.HDone?
    ensures CanHandle(cf, sh, c, h)
  {
    var s := sh.socks[c];
    match h
    case Handling => assert NextHandler(cf, sh, c, h, sh, HShut);
    case HShut => assert NextHandler(cf, sh, c, h, Shut(sh, c), HAdmit);
    case HAdmit => assert NextHandler(cf, sh, c, h, FreePermit(cf, sh, c), HIp);
    case HIp => assert NextHandler(cf, sh, c, h, FreeSlot(sh, c), HUntrack);
    case HUntrack => assert NextHandler(cf, sh, c, h, sh.(conns := sh.conns - {c}), HActive);
    case HActive =>
      var down := sh.count.(active := sh.count.active - 1);
      assert NextHandler(cf, sh, c, h, Count(sh, c, s.(live := false), down), HClosed);
    case HClosed =>
      var up := sh.count.(closed := sh.count.closed + 1);
      assert NextHandler(cf, sh, c, h, Count(sh, c, s.(ended := true), up), HDone);
  }

  lemma {:induction false} AdmitCanStep(cf: Config, sh: Shared, m: Main)
    requires PartOf(m).Admits? && m.c in sh.socks
    ensures CanServe(cf, sh, m)
  {
    var (c, s) := (m.c, sh.socks[m.c]);
    match m
    case PerIp(_) =>
      if !s.keyed { assert NextMain(cf, sh, m, sh, Admit(c)); }
      else if Held(sh.slots, s.ip) >= cf.maxPerIp { assert NextMain(cf, sh, m, sh, IpReject(c)); }
      else { assert NextMain(cf, sh, m, Put(sh, c, s.(slot := true)).(slots := Take(sh.slots, s.ip)), Admit(c)); }
    case IpReject(_) =>
      var up := sh.count.(rejectedIp := sh.count.rejectedIp + 1);
      assert NextMain(cf, sh, m, Count(sh, c, s.(tally := RejectedIp), up), IpShut(c));
    case IpShut(_) => assert NextMain(cf, sh, m, Shut(sh, c), Accepting);
    case Admit(_) => assert NextMain(cf, sh, m, sh, if cf.hasAdmit then AdRelease(c) else Track(c));
    case AdRelease(_) => assert NextMain(cf, sh, m, FreeSlot(sh, c), AdReject(c));
    case AdReject(_) =>
      var up := sh.count.(rejected := sh.count.rejected + 1);
      assert NextMain(cf, sh, m, Count(sh, c, s.(tally := Rejected), up), AdShut(c));
    case AdShut(_) => assert NextMain(cf, sh, m, Shut(sh, c), Accepting);
  }

  lemma {:induction false} TrackCanStep(cf: Config, sh: Shared, m: Main)
    requires PartOf(m).Tracks? && m.c in sh.socks
    ensures CanServe(cf, sh, m)
  {
    var (c, s) := (m.c, sh.socks[m.c]);
    match m
    case Track(_) =>
      if sh.flags.stopped { assert NextMain(cf, sh, m, sh, LateAdmit(c)); }
      else { assert NextMain(cf, sh, m, sh.(conns := sh.conns + {c}), CountAccepted(c)); }
    case LateAdmit(_) => assert NextMain(cf, sh, m, FreePermit(cf, sh, c), LateIp(c));
    case LateIp(_) => assert NextMain(cf, sh, m, FreeSlot(sh, c), LateShut(c));
    case LateShut(_) => assert NextMain(cf, sh, m, Shut(sh, c), Waiting);
    case CountAccepted(_) =>
      var up := sh.count.(accepted := sh.count.accepted + 1);
      assert NextMain(cf, sh, m, Count(sh, c, s.(tally := Accepted), up), CountActive(c));
    case CountActive(_) =>
      var up := sh.count.(active := sh.count.active + 1);
      assert NextMain(cf, sh, m, Count(sh, c, s.(live := true), up), Spawn(c));
  }

  lemma {:induction false} AcceptCanStep(cf: Config, sh: Shared, m: Main)
    requires PartOf(m).Accepts?
    ensures CanServe(cf, sh, m)
  {
    match m
    case NotStarted =>
      if sh.flags.stopped { assert NextMain(cf, sh, m, sh, NotStarted); }
      else { assert NextMain(cf, sh, m, Raise(sh, sh.flags.(serving := true, cancelled := false)), Accepting); }
    case Accepting => assert NextMain(cf, sh, m, sh, Classify);
    case Classify => assert NextMain(cf, sh, m, sh, if sh.flags.stopped then Waiting else Broken(OnceEnter));
    case Backoff => assert NextMain(cf, sh, m, sh, Accepting);
  }

  /** What comes from outside is arbitrary: Accept may return a socket of any address, or fail for a
      while or for good, and the Admit limiter may admit or refuse. */
  lemma OutsideIsFree(cf: Config, sh: Shared, c: ConnId, ip: Ip, keyed: bool)
    requires keyed ==> cf.perIp
    ensures c !in sh.socks ==>
              var s := Sock(ip, keyed, false, false, false, Uncounted, false, false);
              NextMain(cf, sh, Accepting, Put(sh, c, s), PerIp(c))
    ensures NextMain(cf, sh, Accepting, sh, Classify)
    ensures !sh.flags.stopped ==>
              var up := sh.count.(acceptErrors := sh.count.acceptErrors + 1);
              NextMain(cf, sh, Classify, sh.(count := up), Backoff) && NextMain(cf, sh, Classify, sh, Broken(OnceEnter))
    ensures c in sh.socks && cf.hasAdmit ==>
              var taken := Put(sh, c, sh.socks[c].(permit := true)).(permits := sh.permits + 1);
              NextMain(cf, sh, Admit(c), sh, AdRelease(c)) && NextMain(cf, sh, Admit(c), taken, Track(c))
  {
  }

  /** What Serve may have to wait for: the handlers, at its end, or another one's stopAccept. */
  predicate ServeWaits(sh: Shared, m: Main) {
    (m.Waiting? && sh.wg > 0) || (m == Broken(OnceEnter) && sh.flags.once.Running?)
  }

  lemma {:induction false} EndCanStep(cf: Config, sh: Shared, m: Main)
    requires PartOf(m).Finishes? && !m.Returned? && (m.Broken? ==> Covers(sh, m.o))
    ensures CanServe(cf, sh, m) <==> !ServeWaits(sh, m)
  {
    match m
    case Broken(o) =>
      if o.Over? {
        assert NextMain(cf, sh, m, sh, Waiting);
      } else {
        StopCanStep(sh, o, false);
        if sh', o' :| NextStop(sh, o, sh', o', false) { assert NextMain(cf, sh, m, sh', Broken(o')); }
      }
    case Waiting => if sh.wg == 0 { assert NextMain(cf, sh, m, sh, Cancel); }
    case Cancel => assert NextMain(cf, sh, m, Raise(sh, sh.flags.(cancelled := true)), Returning);
    case Returning => assert NextMain(cf, sh, m, Raise(sh, sh.flags.(dones := sh.flags.dones + 1)), Returned);
  }

  /** Someone is running the once. */
  ghost predicate SomeRuns(s: State) { exists a :: InOnce(StopperOf(s, a)) }

  /** Exactly who has to wait: Serve for its handlers at its end, and anyone about to stop the
      server for the one that is stopping it, which itself can go on. */
  ghost predicate NobodyStuck(cf: Config, s: State) {
    && (!s.main.Returned? && !s.main.Spawn? ==> (CanServe(cf, s.sh, s.main) <==> !ServeWaits(s.sh, s.main)))
    && (forall c :: c in s.handlers && !s.handlers[c].HDone? ==> CanHandle(cf, s.sh, c, s.handlers[c]))
    && (forall t :: var (kind, o) := At(s, t);
          !o.Over? ==> (CanStop(s.sh, o, kind.Shutter?) <==> !(o.OnceEnter? && s.sh.flags.once.Running?)))
    && (s.sh.flags.once.Running? ==> SomeRuns(s))
  }

  lemma {:induction false} CallersCanStep(s: State, t: Tid)
    requires AllCover(s) && !At(s, t).1.Over?
    ensures var (kind, o) := At(s, t); CanStop(s.sh, o, kind.Shutter?) <==> !(o.OnceEnter? && s.sh.flags.once.Running?)
  {
    assert Covers(s.sh, StopperOf(s, Caller(t)));
    StopCanStep(s.sh, At(s, t).1, At(s, t).0.Shutter?);
  }

  lemma {:induction false} ServeCanStep(cf: Config, s: State)
    requires Phases(cf, s) && AllCover(s) && !s.main.Returned? && !s.main.Spawn?
    ensures CanServe(cf, s.sh, s.main) <==> !ServeWaits(s.sh, s.main)
  {
    match PartOf(s.main)
    case Accepts => AcceptCanStep(cf, s.sh, s.main);
    case Admits => AdmitCanStep(cf, s.sh, s.main);
    case Tracks => TrackCanStep(cf, s.sh, s.main);
    case Finishes =>
      assert Covers(s.sh, StopperOf(s, Server));
      EndCanStep(cf, s.sh, s.main);
  }

  lemma {:induction false} EveryoneCanStep(cf: Config, run: seq<State>, i: nat)
    requires Run(cf, run) && i < |run|
    ensures NobodyStuck(cf, run[i])
  {
    var s := run[i];
    assert Inv(cf, s) by { Reachable(cf, run, i); }
    if !s.main.Returned? && !s.main.Spawn? { ServeCanStep(cf, s); }
    forall c | c in s.handlers && !s.handlers[c].HDone? ensures CanHandle(cf, s.sh, c, s.handlers[c]) {
      HandlerCanStep(cf, s.sh, c, s.handlers[c]);
    }
    forall t | !At(s, t).1.Over?
      ensures CanStop(s.sh, At(s, t).1, At(s, t).0.Shutter?) <==> !(At(s, t).1.OnceEnter? && s.sh.flags.once.Running?)
    {
      CallersCanStep(s, t);
    }
    OnceHasRunner(cf, run, i);
  }

  /** While the once is running, someone is running it. */
  lemma {:induction false} OnceHasRunner(cf: Config, run: seq<State>, i: nat)
    requires Run(cf, run) && i < |run|
    ensures run[i].sh.flags.once.Running? ==> SomeRuns(run[i])
  {
    if i > 0 {
      OnceHasRunner(cf, run, i - 1);
      RunnerNext(cf, run, i - 1);
    }
  }

  lemma {:induction false} RunnerNext(cf: Config, run: seq<State>, k: nat)
    requires Run(cf, run) && k + 1 < |run| && (run[k].sh.flags.once.Running? ==> SomeRuns(run[k]))
    ensures run[k + 1].sh.flags.once.Running? ==> SomeRuns(run[k + 1])
  {
    assert StepAt(cf, run, k);
    var (s, s') := (run[k], run[k + 1]);
    assert StopOk(s) by { Reachable(cf, run, k); }
    if s'.sh.flags.once.Running? { RunnerStays(cf, s, s'); }
  }

  lemma {:induction false} OnceMoves(sh: Shared, o: Stopper, sh': Shared, o': Stopper, mayLeave: bool)
    requires NextStop(sh, o, sh', o', mayLeave) && sh'.flags.once.Running? && !InOnce(o')
    ensures sh.flags.once.Running? && !InOnce(o)
  {
  }

  /** Actor a moves and the others stay. */
  lemma {:induction false} RunnerPasses(s: State, a: Actor, s': State, mayLeave: bool)
    requires NextStop(s.sh, StopperOf(s, a), s'.sh, StopperOf(s', a), mayLeave) && s'.sh.flags.once.Running?
    requires forall b :: b != a ==> StopperOf(s', b) == StopperOf(s, b)
    requires s.sh.flags.once.Running? ==> SomeRuns(s)
    ensures SomeRuns(s')
  {
    if !InOnce(StopperOf(s', a)) {
      OnceMoves(s.sh, StopperOf(s, a), s'.sh, StopperOf(s', a), mayLeave);
      var b :| InOnce(StopperOf(s, b));
      assert InOnce(StopperOf(s', b));
    }
  }

  lemma {:induction false} CallerPasses(s: State, t: Tid, s': State)
    requires CallerSteps(s, t, s') && !At(s, t).1.Over? && s'.sh.flags.once.Running?
    requires s.sh.flags.once.Running? ==> SomeRuns(s)
    ensures SomeRuns(s')
  {
    assert forall b :: b != Caller(t) ==> StopperOf(s', b) == StopperOf(s, b);
    RunnerPasses(s, Caller(t), s', At(s, t).0.Shutter?);
  }

  lemma {:induction false} ServePasses(cf: Config, s: State, s': State)
    requires MainSteps(cf, s, s') && s.main.Broken? && !s.main.o.Over? && s'.sh.flags.once.Running?
    requires s.sh.flags.once.Running? ==> SomeRuns(s)
    ensures SomeRuns(s')
  {
    assert forall t :: StopperOf(s', Caller(t)) == StopperOf(s, Caller(t));
    RunnerPasses(s, Server, s', false);
  }

  lemma {:induction false} RunnerStays(cf: Config, s: State, s': State)
    requires Steps(cf, s, s') && s'.sh.flags.once.Running? && StopOk(s)
    requires s.sh.flags.once.Running? ==> SomeRuns(s)
    ensures SomeRuns(s')
  {
    if t :| CallerSteps(s, t, s') && !At(s, t).1.Over? {
      CallerPasses(s, t, s');
    } else if MainSteps(cf, s, s') && s.main.Broken? && !s.main.o.Over? {
      ServePasses(cf, s, s');
    } else {
      OnceUntouched(cf, s, s');
      var b :| InOnce(StopperOf(s, b));
      assert InOnce(StopperOf(s', b));
    }
  }

  lemma {:induction false} OnceUntouched(cf: Config, s: State, s': State)
    requires Steps(cf, s, s') && StopOk(s)
    requires forall t :: !(CallerSteps(s, t, s') && !At(s, t).1.Over?)
    requires !(MainSteps(cf, s, s') && s.main.Broken? && !s.main.o.Over?)
    ensures s'.sh.flags.once == s.sh.flags.once
    ensures forall a :: InOnce(StopperOf(s, a)) ==> StopperOf(s', a) == StopperOf(s, a)
  {
    if MainSteps(cf, s, s') {
      if !s.main.Broken? { MainFlagStep(cf, s.sh, s.main, s'.sh, s'.main); }
    } else if c :| HandlerSteps(cf, s, c, s') {
      HandlerFlags(cf, s.sh, c, s.handlers[c], s'.sh, s'.handlers[c]);
    } else if t :| CallerSteps(s, t, s') {
      assert forall a :: a != Caller(t) ==> StopperOf(s', a) == StopperOf(s, a);
    }
  }
}
