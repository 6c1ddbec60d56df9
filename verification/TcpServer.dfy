/** tcp/server.go as a concurrent protocol: the Serve goroutine with its accept loop, one
    goroutine per connection, and any number of Close and Shutdown callers. Each critical
    section, counter update, limiter call, socket close and channel close is one step. */
module TcpServer {
  import opened LimitSpec
  import opened Sums

  type Tid = nat
  type Ip = nat
  type ConnId = nat

  /** The server's options: is there an Admit limiter, and the slots per address, if limited. */
  datatype Config = Config(hasAdmit: bool, perIp: bool, maxPerIp: nat)

  datatype Tally = Uncounted | Accepted | Rejected | RejectedIp

  /** A socket Accept has returned: its address key, if it has one; whether it holds a
      per-address slot and an Admit permit; whether it has been closed; how it was counted;
      whether it is in the Active gauge, and whether it was counted as Closed. */
  datatype Sock = Sock(ip: Ip, keyed: bool, slot: bool, permit: bool, shut: bool, tally: Tally, live: bool, ended: bool)

  /** sync.Once around stopAccept. */
  datatype Once = Fresh | Running | Passed

  /** The server's flags and how often its channels were closed. */
  datatype Flags = Flags(
    serving: bool, stopped: bool, once: Once, lnClosed: bool, drains: nat, cancelled: bool, aborted: bool, dones: nat)

  datatype Counters = Counters(
    accepted: nat, rejected: nat, rejectedIp: nat, active: int, closed: nat, acceptErrors: nat)

  datatype Shared = Shared(
    flags: Flags, wg: nat, conns: set<ConnId>, socks: map<ConnId, Sock>, count: Counters,
    permits: int, slots: map<Ip, int>)

  /** stopAccept, then abortAll, for Close; Shutdown first waits, and may not abort at all.
      The accept loop runs the Close form when the listener breaks. */
  datatype Stopper = OnceEnter | OnceStop | OnceListener | OnceDrain | Check | Wait | AbortLock
    | AbortShut(list: set<ConnId>) | Over

  datatype Main =
    | NotStarted | Accepting | Classify | Backoff
    | PerIp(c: ConnId) | IpReject(c: ConnId) | IpShut(c: ConnId)
    | Admit(c: ConnId) | AdRelease(c: ConnId) | AdReject(c: ConnId) | AdShut(c: ConnId)
    | Track(c: ConnId) | LateAdmit(c: ConnId) | LateIp(c: ConnId) | LateShut(c: ConnId)
    | CountAccepted(c: ConnId) | CountActive(c: ConnId) | Spawn(c: ConnId)
    | Broken(o: Stopper)
    | Waiting | Cancel | Returning | Returned

  /** serveConn: the handler, which may close its connection, then the deferred calls in
      reverse order. */
  datatype Handler = Handling | HShut | HAdmit | HIp | HUntrack | HActive | HClosed | HDone

  datatype Kind = Closer | Shutter

  datatype State = State(sh: Shared, main: Main, handlers: map<ConnId, Handler>, callers: map<Tid, (Kind, Stopper)>)

  function Put(sh: Shared, c: ConnId, s: Sock): Shared { sh.(socks := sh.socks[c := s]) }

  /** A socket changes together with a counter. */
  function Count(sh: Shared, c: ConnId, s: Sock, count: Counters): Shared {
    sh.(socks := sh.socks[c := s], count := count)
  }

  function Raise(sh: Shared, flags: Flags): Shared { sh.(flags := flags) }

  /** releasePerIP. */
  function FreeSlot(sh: Shared, c: ConnId): Shared
    requires c in sh.socks
  {
    var s := sh.socks[c];
    if s.slot then Put(sh, c, s.(slot := false)).(slots := Free(sh.slots, s.ip)) else sh
  }

  /** Admit.Release, if there is a limiter. */
  function FreePermit(cf: Config, sh: Shared, c: ConnId): Shared
    requires c in sh.socks
  {
    if cf.hasAdmit then Put(sh, c, sh.socks[c].(permit := false)).(permits := sh.permits - 1) else sh
  }

  function Shut(sh: Shared, c: ConnId): Shared
    requires c in sh.socks
  {
    Put(sh, c, sh.socks[c].(shut := true))
  }

  /** One step of stopAccept and abortAll, on behalf of a Close (`mayLeave` false) or a
      Shutdown, whose wait may end with the server done or with its context. */
  ghost predicate NextStop(sh: Shared, o: Stopper, sh': Shared, o': Stopper, mayLeave: bool) {
    match o
    case OnceEnter =>
      && !sh.flags.once.Running?
      && if sh.flags.once.Passed? then sh' == sh && o' == AfterOnce(mayLeave)
         else sh' == Raise(sh, sh.flags.(once := Running)) && o' == OnceStop
    case OnceStop => sh' == Raise(sh, sh.flags.(stopped := true)) && o' == OnceListener
    case OnceListener => sh' == Raise(sh, sh.flags.(lnClosed := true)) && o' == OnceDrain
    case OnceDrain =>
      sh' == Raise(sh, sh.flags.(drains := sh.flags.drains + 1, once := Passed)) && o' == AfterOnce(mayLeave)
    case Check => sh' == sh && o' == if sh.flags.serving then Wait else Over
    case Wait => sh' == sh && ((sh.flags.dones > 0 && o' == Over) || o' == AbortLock)
    case AbortLock => sh' == Raise(sh, sh.flags.(cancelled := true, aborted := true)) && o' == AbortShut(sh.conns)
    case AbortShut(list) =>
      if list == {} then sh' == sh && o' == Over
      else exists c :: c in list && c in sh.socks && sh' == Shut(sh, c) && o' == AbortShut(list - {c})
    case Over => false
  }

  function AfterOnce(mayLeave: bool): Stopper { if mayLeave then Check else AbortLock }

  /** A socket as Accept returns it, of any address. */
  predicate NewSock(cf: Config, s: Sock) {
    (s.keyed ==> cf.perIp) && !s.slot && !s.permit && !s.shut && s.tally.Uncounted? && !s.live && !s.ended
  }

  /** The accept loop, up to a socket in hand. */
  ghost predicate NextAccept(cf: Config, sh: Shared, m: Main, sh': Shared, m': Main) {
    match m
    case NotStarted =>
      if sh.flags.stopped then sh' == sh && m' == NotStarted
      else sh' == Raise(sh, sh.flags.(serving := true, cancelled := false)) && m' == Accepting
    case Accepting =>
      || (sh' == sh && m' == Classify)
      || (m'.PerIp? && m'.c !in sh.socks && m'.c in sh'.socks
          && NewSock(cf, sh'.socks[m'.c]) && sh' == Put(sh, m'.c, sh'.socks[m'.c]))
    case Classify =>
      if sh.flags.stopped then sh' == sh && m' == Waiting
      else || (sh' == sh.(count := sh.count.(acceptErrors := sh.count.acceptErrors + 1)) && m' == Backoff)
           || (sh' == sh && m' == Broken(OnceEnter))
    case Backoff => sh' == sh && (m' == Accepting || (sh.flags.drains > 0 && m' == Waiting))
    case _ => false
  }

  /** The admission limits, per address and over all. */
  ghost predicate NextAdmit(cf: Config, sh: Shared, m: Main, sh': Shared, m': Main) {
    match m
    case PerIp(c) =>
      && c in sh.socks
      && var s := sh.socks[c];
         if !s.keyed then sh' == sh && m' == Admit(c)
         else if Held(sh.slots, s.ip) >= cf.maxPerIp then sh' == sh && m' == IpReject(c)
         else sh' == Put(sh, c, s.(slot := true)).(slots := Take(sh.slots, s.ip)) && m' == Admit(c)
    case IpReject(c) =>
      && c in sh.socks && m' == IpShut(c)
      && sh' == Count(sh, c, sh.socks[c].(tally := RejectedIp), sh.count.(rejectedIp := sh.count.rejectedIp + 1))
    case IpShut(c) => c in sh.socks && sh' == Shut(sh, c) && m' == Accepting
    case Admit(c) =>
      && c in sh.socks
      && if !cf.hasAdmit then sh' == sh && m' == Track(c)
         else || (sh' == sh && m' == AdRelease(c))
              || (sh' == Put(sh, c, sh.socks[c].(permit := true)).(permits := sh.permits + 1) && m' == Track(c))
    case AdRelease(c) => c in sh.socks && sh' == FreeSlot(sh, c) && m' == AdReject(c)
    case AdReject(c) =>
      && c in sh.socks && m' == AdShut(c)
      && sh' == Count(sh, c, sh.socks[c].(tally := Rejected), sh.count.(rejected := sh.count.rejected + 1))
    case AdShut(c) => c in sh.socks && sh' == Shut(sh, c) && m' == Accepting
    case _ => false
  }

  /** From track to the handler's start, or out with a late socket. */
  ghost predicate NextTrack(cf: Config, sh: Shared, m: Main, sh': Shared, m': Main) {
    match m
    case Track(c) =>
      if sh.flags.stopped then sh' == sh && m' == LateAdmit(c)
      else sh' == sh.(conns := sh.conns + {c}) && m' == CountAccepted(c)
    case LateAdmit(c) => c in sh.socks && sh' == FreePermit(cf, sh, c) && m' == LateIp(c)
    case LateIp(c) => c in sh.socks && sh' == FreeSlot(sh, c) && m' == LateShut(c)
    case LateShut(c) => c in sh.socks && sh' == Shut(sh, c) && m' == Waiting
    case CountAccepted(c) =>
      && c in sh.socks && m' == CountActive(c)
      && sh' == Count(sh, c, sh.socks[c].(tally := Accepted), sh.count.(accepted := sh.count.accepted + 1))
    case CountActive(c) =>
      && c in sh.socks && m' == Spawn(c)
      && sh' == Count(sh, c, sh.socks[c].(live := true), sh.count.(active := sh.count.active + 1))
    case _ => false
  }

  /** The accept loop breaks, and Serve ends. */
  ghost predicate NextEnd(sh: Shared, m: Main, sh': Shared, m': Main) {
    match m
    case Broken(o) =>
      if o.Over? then sh' == sh && m' == Waiting
      else m'.Broken? && NextStop(sh, o, sh', m'.o, false)
    case Waiting => sh.wg == 0 && sh' == sh && m' == Cancel
    case Cancel => sh' == Raise(sh, sh.flags.(cancelled := true)) && m' == Returning
    case Returning => sh' == Raise(sh, sh.flags.(dones := sh.flags.dones + 1)) && m' == Returned
    case _ => false
  }

  ghost predicate NextHandler(cf: Config, sh: Shared, c: ConnId, h: Handler, sh': Shared, h': Handler) {
    && c in sh.socks
    && match h
       case Handling => (sh' == sh || sh' == Shut(sh, c)) && (h' == Handling || h' == HShut)
       case HShut => sh' == Shut(sh, c) && h' == HAdmit
       case HAdmit => sh' == FreePermit(cf, sh, c) && h' == HIp
       case HIp => sh' == FreeSlot(sh, c) && h' == HUntrack
       case HUntrack => sh' == sh.(conns := sh.conns - {c}) && h' == HActive
       case HActive =>
         h' == HClosed && sh' == Count(sh, c, sh.socks[c].(live := false), sh.count.(active := sh.count.active - 1))
       case HClosed =>
         h' == HDone && sh' == Count(sh, c, sh.socks[c].(ended := true), sh.count.(closed := sh.count.closed + 1))
       case HDone => false
  }

  /** wg.Add and the go statement. */
  ghost predicate Spawns(s: State, s': State) {
    && s.main.Spawn?
    && s' == s.(main := Accepting, sh := s.sh.(wg := s.sh.wg + 1), handlers := s.handlers[s.main.c := Handling])
  }

  /** wg.Done ends the goroutine. */
  ghost predicate Ends(s: State, c: ConnId, s': State) {
    && c in s.handlers && s.handlers[c].HDone? && s.sh.wg > 0
    && s' == s.(sh := s.sh.(wg := s.sh.wg - 1), handlers := s.handlers - {c})
  }

  /** The part of Serve that a program counter belongs to. */
  datatype Part = Accepts | Admits | Tracks | Finishes | Starts

  function PartOf(m: Main): Part {
    match m
    case NotStarted => Accepts case Accepting => Accepts case Classify => Accepts case Backoff => Accepts
    case PerIp(_) => Admits case IpReject(_) => Admits case IpShut(_) => Admits case Admit(_) => Admits
    case AdRelease(_) => Admits case AdReject(_) => Admits case AdShut(_) => Admits
    case Track(_) => Tracks case LateAdmit(_) => Tracks case LateIp(_) => Tracks case LateShut(_) => Tracks
    case CountAccepted(_) => Tracks case CountActive(_) => Tracks
    case Broken(_) => Finishes case Waiting => Finishes case Cancel => Finishes case Returning => Finishes
    case Returned => Finishes
    case Spawn(_) => Starts
  }

  ghost predicate NextMain(cf: Config, sh: Shared, m: Main, sh': Shared, m': Main) {
    match PartOf(m)
    case Accepts => NextAccept(cf, sh, m, sh', m')
    case Admits => NextAdmit(cf, sh, m, sh', m')
    case Tracks => NextTrack(cf, sh, m, sh', m')
    case Finishes => NextEnd(sh, m, sh', m')
    case Starts => false
  }

  ghost predicate MainSteps(cf: Config, s: State, s': State) {
    s' == s.(sh := s'.sh, main := s'.main) && NextMain(cf, s.sh, s.main, s'.sh, s'.main)
  }

  ghost predicate HandlerSteps(cf: Config, s: State, c: ConnId, s': State) {
    && c in s.handlers && c in s'.handlers
    && s' == s.(sh := s'.sh, handlers := s.handlers[c := s'.handlers[c]])
    && NextHandler(cf, s.sh, c, s.handlers[c], s'.sh, s'.handlers[c])
  }

  function At(s: State, t: Tid): (Kind, Stopper) { if t in s.callers then s.callers[t] else (Closer, Over) }

  /** A Close or Shutdown caller starts, or takes a step. */
  ghost predicate CallerSteps(s: State, t: Tid, s': State) {
    && s' == s.(sh := s'.sh, callers := s.callers[t := At(s', t)])
    && if At(s, t).1.Over? then s'.sh == s.sh && At(s', t).1.OnceEnter?
       else At(s', t).0 == At(s, t).0 && NextStop(s.sh, At(s, t).1, s'.sh, At(s', t).1, At(s, t).0.Shutter?)
  }

  ghost predicate Steps(cf: Config, s: State, s': State) {
    || MainSteps(cf, s, s')
    || Spawns(s, s')
    || (exists c :: HandlerSteps(cf, s, c, s'))
    || (exists c :: Ends(s, c, s'))
    || (exists t :: CallerSteps(s, t, s'))
  }

  ghost predicate Start(s: State) {
    && s.sh == Shared(Flags(false, false, Fresh, false, 0, false, false, 0), 0, {}, map[], Counters(0, 0, 0, 0, 0, 0),
        0, map[])
    && s.main == NotStarted && s.handlers == map[] && s.callers == map[]
  }

  ghost predicate StepAt(cf: Config, run: seq<State>, i: nat)
    requires i + 1 < |run|
  {
    var (s, s') := (run[i], run[i + 1]);
    Steps(cf, s, s')
  }

  ghost predicate Run(cf: Config, run: seq<State>) {
    |run| > 0 && Start(run[0]) && forall i: nat :: i + 1 < |run| ==> StepAt(cf, run, i)
  }

  // ---- Where each socket is in its life ----

  /** Every limit that applies is held. */
  predicate Full(cf: Config, s: Sock) { s.slot == s.keyed && s.permit == cf.hasAdmit }

  predicate Bare(s: Sock) { !s.slot && !s.permit }

  /** What the accept loop knows of the socket it is working on; `tracked` tells whether
      the socket is in conns. */
  predicate MainSock(cf: Config, m: Main, s: Sock, tracked: bool) {
    && !s.ended
    && match m
       case PerIp(_) => Bare(s) && s.tally.Uncounted? && !s.live && !tracked
       case IpReject(_) => Bare(s) && s.tally.Uncounted? && !s.live && !tracked
       case IpShut(_) => Bare(s) && s.tally.RejectedIp? && !s.live && !tracked
       case Admit(_) => s.slot == s.keyed && !s.permit && s.tally.Uncounted? && !s.live && !tracked
       case AdRelease(_) => s.slot == s.keyed && !s.permit && s.tally.Uncounted? && !s.live && !tracked
       case AdReject(_) => Bare(s) && s.tally.Uncounted? && !s.live && !tracked
       case AdShut(_) => Bare(s) && s.tally.Rejected? && !s.live && !tracked
       case Track(_) => Full(cf, s) && s.tally.Uncounted? && !s.live && !tracked
       case LateAdmit(_) => Full(cf, s) && s.tally.Uncounted? && !s.live && !tracked
       case LateIp(_) => s.slot == s.keyed && !s.permit && s.tally.Uncounted? && !s.live && !tracked
       case LateShut(_) => Bare(s) && s.tally.Uncounted? && !s.live && !tracked
       case CountAccepted(_) => Full(cf, s) && s.tally.Uncounted? && !s.live && tracked
       case CountActive(_) => Full(cf, s) && s.tally.Accepted? && !s.live && tracked
       case Spawn(_) => Full(cf, s) && s.tally.Accepted? && s.live && tracked
       case _ => true
  }

  /** What a connection's goroutine knows of its socket. */
  predicate HandlerSock(cf: Config, h: Handler, s: Sock, tracked: bool) {
    && s.tally.Accepted?
    && match h
       case Handling => Full(cf, s) && s.live && !s.ended && tracked
       case HShut => Full(cf, s) && s.live && !s.ended && tracked
       case HAdmit => Full(cf, s) && s.live && !s.ended && tracked && s.shut
       case HIp => s.slot == s.keyed && !s.permit && s.live && !s.ended && tracked && s.shut
       case HUntrack => Bare(s) && s.live && !s.ended && tracked && s.shut
       case HActive => Bare(s) && s.live && !s.ended && !tracked && s.shut
       case HClosed => Bare(s) && !s.live && !s.ended && !tracked && s.shut
       case HDone => Bare(s) && !s.live && s.ended && !tracked && s.shut
  }

  /** Nobody works on the socket any more: it holds nothing, is closed, and was counted as
      Closed exactly if it was counted as Accepted. */
  predicate Settled(s: Sock, tracked: bool) {
    Bare(s) && s.shut && !s.live && !tracked && (s.ended <==> s.tally.Accepted?)
  }

  /** The accept loop has a socket in hand. */
  predicate Working(m: Main) {
    || m.PerIp? || m.IpReject? || m.IpShut? || m.Admit? || m.AdRelease? || m.AdReject? || m.AdShut? || m.Track?
    || m.LateAdmit? || m.LateIp? || m.LateShut? || m.CountAccepted? || m.CountActive? || m.Spawn?
  }

  function Mine(m: Main): set<ConnId> { if Working(m) then {m.c} else {} }

  predicate MainOk(cf: Config, sh: Shared, m: Main) {
    Working(m) ==> m.c in sh.socks && MainSock(cf, m, sh.socks[m.c], m.c in sh.conns)
  }

  ghost predicate Phases(cf: Config, s: State) {
    && MainOk(cf, s.sh, s.main)
    && (forall c :: c in s.handlers ==>
          c in s.sh.socks && HandlerSock(cf, s.handlers[c], s.sh.socks[c], c in s.sh.conns))
    && Mine(s.main) !! s.handlers.Keys
    && (forall c :: c in s.sh.socks && c !in Mine(s.main) && c !in s.handlers ==>
          Settled(s.sh.socks[c], c in s.sh.conns))
    && s.sh.conns <= s.sh.socks.Keys
  }

  /** Only socket c and its place in conns may change. */
  ghost predicate Touches(sh: Shared, c: ConnId, sh': Shared) {
    && (forall d :: d != c ==> (d in sh'.socks <==> d in sh.socks) && (d in sh'.conns <==> d in sh.conns))
    && (forall d :: d != c && d in sh.socks ==> sh'.socks[d] == sh.socks[d])
    && (c in sh.socks ==> c in sh'.socks) && (c in sh'.conns ==> c in sh'.socks || c in sh.conns)
  }

  predicate SameSocks(sh: Shared, sh': Shared) { sh'.socks == sh.socks && sh'.conns == sh.conns }

  function Focus(m: Main, m': Main): ConnId { if Working(m) then m.c else if Working(m') then m'.c else 0 }

  /** A step of the accept loop: it works on its own socket, or takes up a new one, or lets
      go of one that is settled. */
  ghost predicate MainEffect(cf: Config, sh: Shared, m: Main, sh': Shared, m': Main) {
    && MainOk(cf, sh', m')
    && if !Working(m) && !Working(m') then SameSocks(sh, sh')
       else
         var c := Focus(m, m');
         && Touches(sh, c, sh')
         && (if Working(m) then m.c == c else c !in sh.socks)
         && (if Working(m') then m'.c == c else c in sh'.socks && Settled(sh'.socks[c], c in sh'.conns))
  }

  lemma {:induction false} AcceptPhase(cf: Config, sh: Shared, m: Main, sh': Shared, m': Main)
    requires MainOk(cf, sh, m) && sh.conns <= sh.socks.Keys && NextAccept(cf, sh, m, sh', m')
    ensures MainEffect(cf, sh, m, sh', m')
  {
  }

  lemma {:induction false} AdmitPhase(cf: Config, sh: Shared, m: Main, sh': Shared, m': Main)
    requires MainOk(cf, sh, m) && sh.conns <= sh.socks.Keys && NextAdmit(cf, sh, m, sh', m')
    ensures MainEffect(cf, sh, m, sh', m')
  {
  }

  lemma {:induction false} TrackPhase(cf: Config, sh: Shared, m: Main, sh': Shared, m': Main)
    requires MainOk(cf, sh, m) && NextTrack(cf, sh, m, sh', m')
    ensures MainEffect(cf, sh, m, sh', m')
  {
  }

  lemma {:induction false} EndPhase(cf: Config, sh: Shared, m: Main, sh': Shared, m': Main)
    requires NextEnd(sh, m, sh', m') && !m.Broken?
    ensures MainEffect(cf, sh, m, sh', m')
  {
  }

  lemma {:induction false} ServePhase(cf: Config, sh: Shared, m: Main, sh': Shared, m': Main)
    requires MainOk(cf, sh, m) && sh.conns <= sh.socks.Keys && NextMain(cf, sh, m, sh', m') && !m.Broken?
    ensures MainEffect(cf, sh, m, sh', m')
  {
    match PartOf(m)
    case Accepts => AcceptPhase(cf, sh, m, sh', m');
    case Admits => AdmitPhase(cf, sh, m, sh', m');
    case Tracks => TrackPhase(cf, sh, m, sh', m');
    case Finishes => EndPhase(cf, sh, m, sh', m');
  }

  /** A stopper touches sockets only to close them. */
  ghost predicate StopEffect(sh: Shared, sh': Shared) {
    && sh'.conns == sh.conns && sh'.socks.Keys == sh.socks.Keys
    && forall c :: c in sh.socks ==> sh'.socks[c] == sh.socks[c] || sh'.socks[c] == sh.socks[c].(shut := true)
  }

  lemma {:induction false} StopPhase(sh: Shared, o: Stopper, sh': Shared, o': Stopper, mayLeave: bool)
    requires NextStop(sh, o, sh', o', mayLeave)
    ensures StopEffect(sh, sh')
  {
  }

  /** Closing a socket under someone changes nothing it relies on. */
  lemma {:induction false} ShutHarmless(cf: Config, m: Main, h: Handler, s: Sock, tracked: bool)
    ensures MainSock(cf, m, s, tracked) ==> MainSock(cf, m, s.(shut := true), tracked)
    ensures HandlerSock(cf, h, s, tracked) ==> HandlerSock(cf, h, s.(shut := true), tracked)
    ensures Settled(s, tracked) ==> Settled(s.(shut := true), tracked)
  {
  }

  lemma {:induction false} StopKeepsPhases(cf: Config, s: State, s': State)
    requires Phases(cf, s) && StopEffect(s.sh, s'.sh) && s'.handlers == s.handlers
    requires s'.main == s.main || (!Working(s.main) && !Working(s'.main))
    ensures Phases(cf, s')
  {
    if Working(s.main) { ShutHarmless(cf, s.main, Handling, s.sh.socks[s.main.c], s.main.c in s.sh.conns); }
    forall c | c in s'.handlers ensures HandlerSock(cf, s'.handlers[c], s'.sh.socks[c], c in s'.sh.conns) {
      ShutHarmless(cf, s.main, s.handlers[c], s.sh.socks[c], c in s.sh.conns);
    }
  }

  ghost predicate HandlerEffect(cf: Config, sh: Shared, c: ConnId, sh': Shared, h': Handler) {
    Touches(sh, c, sh') && c in sh'.socks && HandlerSock(cf, h', sh'.socks[c], c in sh'.conns)
  }

  lemma {:induction false} HandlerPhase(cf: Config, sh: Shared, c: ConnId, h: Handler, sh': Shared, h': Handler)
    requires c in sh.socks && HandlerSock(cf, h, sh.socks[c], c in sh.conns) && NextHandler(cf, sh, c, h, sh', h')
    ensures HandlerEffect(cf, sh, c, sh', h')
  {
  }

  lemma {:induction false} MainKeepsPhases(cf: Config, s: State, s': State)
    requires Phases(cf, s) && MainEffect(cf, s.sh, s.main, s'.sh, s'.main) && s'.handlers == s.handlers
    ensures Phases(cf, s')
  {
  }

  lemma {:induction false} EffectKeepsPhases(cf: Config, s: State, c: ConnId, h': Handler, s': State)
    requires Phases(cf, s) && c in s.handlers && HandlerEffect(cf, s.sh, c, s'.sh, h')
    requires s'.main == s.main && s'.handlers == s.handlers[c := h']
    ensures Phases(cf, s')
  {
  }

  lemma {:induction false} HandlerKeepsPhases(cf: Config, s: State, c: ConnId, s': State)
    requires Phases(cf, s) && HandlerSteps(cf, s, c, s')
    ensures Phases(cf, s')
  {
    var h' := s'.handlers[c];
    HandlerPhase(cf, s.sh, c, s.handlers[c], s'.sh, h');
    assert s'.main == s.main && s'.handlers == s.handlers[c := h'];
    EffectKeepsPhases(cf, s, c, h', s');
  }

  lemma {:induction false} SpawnKeepsPhases(cf: Config, s: State, s': State)
    requires Phases(cf, s) && Spawns(s, s')
    ensures Phases(cf, s')
  {
  }

  lemma {:induction false} EndKeepsPhases(cf: Config, s: State, c: ConnId, s': State)
    requires Phases(cf, s) && Ends(s, c, s')
    ensures Phases(cf, s')
  {
  }

  lemma {:induction false} CallerKeepsPhases(cf: Config, s: State, t: Tid, s': State)
    requires Phases(cf, s) && CallerSteps(s, t, s')
    ensures Phases(cf, s')
  {
    if !At(s, t).1.Over? { StopPhase(s.sh, At(s, t).1, s'.sh, At(s', t).1, At(s, t).0.Shutter?); }
    StopKeepsPhases(cf, s, s');
  }

  /** The Serve goroutine's steps, one effect at a time. */
  lemma {:induction false} MainPhases(cf: Config, s: State, s': State)
    requires Phases(cf, s) && MainSteps(cf, s, s')
    ensures Phases(cf, s')
  {
    if s.main.Broken? {
      if !s.main.o.Over? { StopPhase(s.sh, s.main.o, s'.sh, s'.main.o, false); }
      StopKeepsPhases(cf, s, s');
    } else {
      ServePhase(cf, s.sh, s.main, s'.sh, s'.main);
      MainKeepsPhases(cf, s, s');
    }
  }

  lemma {:induction false} KeepsPhases(cf: Config, s: State, s': State)
    requires Phases(cf, s) && Steps(cf, s, s')
    ensures Phases(cf, s')
  {
    if MainSteps(cf, s, s') {
      MainPhases(cf, s, s');
    } else if Spawns(s, s') {
      SpawnKeepsPhases(cf, s, s');
    } else if c :| HandlerSteps(cf, s, c, s') {
      HandlerKeepsPhases(cf, s, c, s');
    } else if c :| Ends(s, c, s') {
      EndKeepsPhases(cf, s, c, s');
    } else {
      var t :| CallerSteps(s, t, s');
      CallerKeepsPhases(cf, s, t, s');
    }
  }

  // ---- Counters and limits ----

  function IsAccepted(s: Sock): nat { if s.tally.Accepted? then 1 else 0 }
  function IsRejected(s: Sock): nat { if s.tally.Rejected? then 1 else 0 }
  function IsRejectedIp(s: Sock): nat { if s.tally.RejectedIp? then 1 else 0 }
  function IsUncounted(s: Sock): nat { if s.tally.Uncounted? then 1 else 0 }
  function IsLive(s: Sock): nat { if s.live then 1 else 0 }
  function IsEnded(s: Sock): nat { if s.ended then 1 else 0 }
  function HasPermit(s: Sock): nat { if s.permit then 1 else 0 }
  function OnIp(ip: Ip): Sock -> nat { (s: Sock) => if s.slot && s.ip == ip then 1 else 0 }

  /** The total of f over all sockets. */
  ghost function Tot(socks: map<ConnId, Sock>, f: Sock -> nat): nat { Sum(Weights(socks, f)) }

  ghost function Weights(socks: map<ConnId, Sock>, f: Sock -> nat): map<ConnId, nat> {
    map c | c in socks :: f(socks[c])
  }

  lemma {:induction false} TotPut(socks: map<ConnId, Sock>, c: ConnId, s': Sock, f: Sock -> nat)
    ensures Tot(socks[c := s'], f) == Tot(socks, f) - Was(socks, c, f) + f(s')
  {
    var m := Weights(socks, f);
    assert Weights(socks[c := s'], f) == m[c := f(s')];
    SumPut(m, c, f(s'));
    if c in m { SumDrop(m, c); } else { assert m - {c} == m; }
  }

  function Was(socks: map<ConnId, Sock>, c: ConnId, f: Sock -> nat): nat { if c in socks then f(socks[c]) else 0 }

  /** Every counter counts the sockets it should, and every limit is held by exactly the
      sockets that hold it. */
  ghost predicate Counts(sh: Shared) {
    && sh.count.accepted == Tot(sh.socks, IsAccepted)
    && sh.count.rejected == Tot(sh.socks, IsRejected)
    && sh.count.rejectedIp == Tot(sh.socks, IsRejectedIp)
    && sh.count.active == Tot(sh.socks, IsLive)
    && sh.count.closed == Tot(sh.socks, IsEnded)
    && sh.permits == Tot(sh.socks, HasPermit)
    && (forall ip :: Held(sh.slots, ip) == Tot(sh.socks, OnIp(ip)))
  }

  /** Socket c becomes s', and each counter moves by what that changes. */
  ghost predicate Moves(sh: Shared, c: ConnId, s': Sock, sh': Shared) {
    var socks := sh.socks;
    && sh'.socks == socks[c := s']
    && sh'.count.accepted == sh.count.accepted - Was(socks, c, IsAccepted) + IsAccepted(s')
    && sh'.count.rejected == sh.count.rejected - Was(socks, c, IsRejected) + IsRejected(s')
    && sh'.count.rejectedIp == sh.count.rejectedIp - Was(socks, c, IsRejectedIp) + IsRejectedIp(s')
    && sh'.count.active == sh.count.active - Was(socks, c, IsLive) + IsLive(s')
    && sh'.count.closed == sh.count.closed - Was(socks, c, IsEnded) + IsEnded(s')
    && sh'.permits == sh.permits - Was(socks, c, HasPermit) + HasPermit(s')
    && (forall ip :: Held(sh'.slots, ip) == Held(sh.slots, ip) - Was(socks, c, OnIp(ip)) + OnIp(ip)(s'))
  }

  lemma {:induction false} MovesKeep(sh: Shared, c: ConnId, s': Sock, sh': Shared)
    requires Counts(sh) && Moves(sh, c, s', sh')
    ensures Counts(sh')
  {
    TotPut(sh.socks, c, s', IsAccepted);
    TotPut(sh.socks, c, s', IsRejected);
    TotPut(sh.socks, c, s', IsRejectedIp);
    TotPut(sh.socks, c, s', IsLive);
    TotPut(sh.socks, c, s', IsEnded);
    TotPut(sh.socks, c, s', HasPermit);
    forall ip ensures Held(sh'.slots, ip) == Tot(sh'.socks, OnIp(ip)) {
      TotPut(sh.socks, c, s', OnIp(ip));
    }
  }

  /** No counter and no socket changes. */
  predicate SameCounts(sh: Shared, sh': Shared) {
    && sh'.socks == sh.socks && sh'.permits == sh.permits && sh'.slots == sh.slots
    && sh'.count == sh.count.(acceptErrors := sh'.count.acceptErrors)
  }

  ghost predicate CountEffect(sh: Shared, c: ConnId, sh': Shared) {
    SameCounts(sh, sh') || (c in sh'.socks && Moves(sh, c, sh'.socks[c], sh'))
  }

  lemma {:induction false} AcceptCounts(cf: Config, sh: Shared, m: Main, sh': Shared, m': Main)
    requires MainOk(cf, sh, m) && NextAccept(cf, sh, m, sh', m')
    ensures CountEffect(sh, Focus(m, m'), sh')
  {
  }

  lemma {:induction false} AdmitCounts(cf: Config, sh: Shared, m: Main, sh': Shared, m': Main)
    requires MainOk(cf, sh, m) && NextAdmit(cf, sh, m, sh', m')
    ensures CountEffect(sh, Focus(m, m'), sh')
  {
  }

  lemma {:induction false} TrackCounts(cf: Config, sh: Shared, m: Main, sh': Shared, m': Main)
    requires MainOk(cf, sh, m) && NextTrack(cf, sh, m, sh', m')
    ensures CountEffect(sh, Focus(m, m'), sh')
  {
  }

  lemma {:induction false} ServeCounts(cf: Config, sh: Shared, m: Main, sh': Shared, m': Main)
    requires MainOk(cf, sh, m) && NextMain(cf, sh, m, sh', m') && !m.Broken?
    ensures CountEffect(sh, Focus(m, m'), sh')
  {
    match PartOf(m)
    case Accepts => AcceptCounts(cf, sh, m, sh', m');
    case Admits => AdmitCounts(cf, sh, m, sh', m');
    case Tracks => TrackCounts(cf, sh, m, sh', m');
    case Finishes =>
  }

  lemma {:induction false} HandlerCounts(cf: Config, sh: Shared, c: ConnId, h: Handler, sh': Shared, h': Handler)
    requires c in sh.socks && HandlerSock(cf, h, sh.socks[c], c in sh.conns) && NextHandler(cf, sh, c, h, sh', h')
    ensures CountEffect(sh, c, sh')
  {
  }

  lemma {:induction false} StopCounts(sh: Shared, o: Stopper, sh': Shared, o': Stopper, mayLeave: bool)
    requires NextStop(sh, o, sh', o', mayLeave)
    ensures SameCounts(sh, sh') || exists c :: c in sh'.socks && Moves(sh, c, sh'.socks[c], sh')
  {
    if o.AbortShut? && o.list != {} {
      var c :| c in o.list && c in sh.socks && sh' == Shut(sh, c) && o' == AbortShut(o.list - {c});
      assert Moves(sh, c, sh'.socks[c], sh');
    }
  }

  lemma {:induction false} EffectKeepsCounts(sh: Shared, c: ConnId, sh': Shared)
    requires Counts(sh) && CountEffect(sh, c, sh')
    ensures Counts(sh')
  {
    if !SameCounts(sh, sh') { MovesKeep(sh, c, sh'.socks[c], sh'); }
  }

  lemma {:induction false} StopKeepsCounts(sh: Shared, o: Stopper, sh': Shared, o': Stopper, mayLeave: bool)
    requires Counts(sh) && NextStop(sh, o, sh', o', mayLeave)
    ensures Counts(sh')
  {
    StopCounts(sh, o, sh', o', mayLeave);
    if !SameCounts(sh, sh') {
      var c :| c in sh'.socks && Moves(sh, c, sh'.socks[c], sh');
      MovesKeep(sh, c, sh'.socks[c], sh');
    }
  }

  lemma {:induction false} MainKeepsCounts(cf: Config, sh: Shared, m: Main, sh': Shared, m': Main)
    requires MainOk(cf, sh, m) && Counts(sh) && NextMain(cf, sh, m, sh', m')
    ensures Counts(sh')
  {
    if m.Broken? {
      BrokenKeepsCounts(sh, m, sh', m');
    } else {
      ServeCounts(cf, sh, m, sh', m');
      EffectKeepsCounts(sh, Focus(m, m'), sh');
    }
  }

  lemma {:induction false} BrokenKeepsCounts(sh: Shared, m: Main, sh': Shared, m': Main)
    requires Counts(sh) && m.Broken? && NextEnd(sh, m, sh', m')
    ensures Counts(sh')
  {
    if !m.o.Over? { StopKeepsCounts(sh, m.o, sh', m'.o, false); }
  }

  lemma {:induction false} KeepsCounts(cf: Config, s: State, s': State)
    requires Phases(cf, s) && Counts(s.sh) && Steps(cf, s, s')
    ensures Counts(s'.sh)
  {
    if MainSteps(cf, s, s') {
      MainKeepsCounts(cf, s.sh, s.main, s'.sh, s'.main);
    } else if Spawns(s, s') {
      EffectKeepsCounts(s.sh, 0, s'.sh);
    } else if c :| HandlerSteps(cf, s, c, s') {
      HandlerCounts(cf, s.sh, c, s.handlers[c], s'.sh, s'.handlers[c]);
      EffectKeepsCounts(s.sh, c, s'.sh);
    } else if c :| Ends(s, c, s') {
      EffectKeepsCounts(s.sh, 0, s'.sh);
    } else {
      var t :| CallerSteps(s, t, s');
      if !At(s, t).1.Over? { StopKeepsCounts(s.sh, At(s, t).1, s'.sh, At(s', t).1, At(s, t).0.Shutter?); }
    }
  }

  /** The per-address slots: a key is remembered only while it holds some, never too many. */
  predicate Bounded(cf: Config, slots: map<Ip, int>) { forall ip :: ip in slots ==> 1 <= slots[ip] <= cf.maxPerIp }

  /** A step leaves the slots alone, takes one that is free, or frees one that is held. */
  ghost predicate SlotEffect(cf: Config, sh: Shared, sh': Shared) {
    || sh'.slots == sh.slots
    || (exists ip :: Held(sh.slots, ip) < cf.maxPerIp && sh'.slots == Take(sh.slots, ip))
    || (exists ip :: ip in sh.slots && sh'.slots == Free(sh.slots, ip))
  }

  lemma {:induction false} SlotKeeps(cf: Config, sh: Shared, sh': Shared)
    requires Bounded(cf, sh.slots) && SlotEffect(cf, sh, sh')
    ensures Bounded(cf, sh'.slots)
  {
  }

  /** A socket with a slot is counted in its address's slots, so releasing it cannot panic. */
  lemma {:induction false} SlotIsHeld(sh: Shared, c: ConnId)
    requires Counts(sh) && c in sh.socks && sh.socks[c].slot
    ensures sh.socks[c].ip in sh.slots && Held(sh.slots, sh.socks[c].ip) >= 1
  {
    var ip := sh.socks[c].ip;
    SumDrop(Weights(sh.socks, OnIp(ip)), c);
  }

  lemma {:induction false} PermitIsHeld(sh: Shared, c: ConnId)
    requires Counts(sh) && c in sh.socks && sh.socks[c].permit
    ensures sh.permits >= 1
  {
    SumDrop(Weights(sh.socks, HasPermit), c);
  }

  lemma {:induction false} FreeSlotEffect(cf: Config, sh: Shared, c: ConnId, sh': Shared)
    requires Counts(sh) && c in sh.socks && sh'.slots == FreeSlot(sh, c).slots
    ensures SlotEffect(cf, sh, sh')
  {
    if sh.socks[c].slot { SlotIsHeld(sh, c); }
  }

  lemma {:induction false} AcceptSlots(cf: Config, sh: Shared, m: Main, sh': Shared, m': Main)
    requires Counts(sh) && NextAccept(cf, sh, m, sh', m')
    ensures SlotEffect(cf, sh, sh')
  {
  }

  lemma {:induction false} AdmitSlots(cf: Config, sh: Shared, m: Main, sh': Shared, m': Main)
    requires Counts(sh) && NextAdmit(cf, sh, m, sh', m')
    ensures SlotEffect(cf, sh, sh')
  {
    if m.AdRelease? { FreeSlotEffect(cf, sh, m.c, sh'); }
  }

  lemma {:induction false} TrackSlots(cf: Config, sh: Shared, m: Main, sh': Shared, m': Main)
    requires Counts(sh) && NextTrack(cf, sh, m, sh', m')
    ensures SlotEffect(cf, sh, sh')
  {
    if m.LateIp? { FreeSlotEffect(cf, sh, m.c, sh'); }
  }

  lemma {:induction false} ServeSlots(cf: Config, sh: Shared, m: Main, sh': Shared, m': Main)
    requires Counts(sh) && NextMain(cf, sh, m, sh', m')
    ensures SlotEffect(cf, sh, sh')
  {
    match PartOf(m)
    case Accepts => AcceptSlots(cf, sh, m, sh', m');
    case Admits => AdmitSlots(cf, sh, m, sh', m');
    case Tracks => TrackSlots(cf, sh, m, sh', m');
    case Finishes => if m.Broken? && !m.o.Over? { StopSlots(sh, m.o, sh', m'.o, false); }
  }

  lemma {:induction false} StopSlots(sh: Shared, o: Stopper, sh': Shared, o': Stopper, mayLeave: bool)
    requires NextStop(sh, o, sh', o', mayLeave)
    ensures sh'.slots == sh.slots
  {
  }

  lemma {:induction false} HandlerSlots(cf: Config, sh: Shared, c: ConnId, h: Handler, sh': Shared, h': Handler)
    requires Counts(sh) && NextHandler(cf, sh, c, h, sh', h')
    ensures SlotEffect(cf, sh, sh')
  {
    if h.HIp? { FreeSlotEffect(cf, sh, c, sh'); }
  }

  lemma {:induction false} KeepsBounded(cf: Config, s: State, s': State)
    requires Counts(s.sh) && Bounded(cf, s.sh.slots) && Steps(cf, s, s')
    ensures Bounded(cf, s'.sh.slots)
  {
    if MainSteps(cf, s, s') {
      ServeSlots(cf, s.sh, s.main, s'.sh, s'.main);
    } else if c :| HandlerSteps(cf, s, c, s') {
      HandlerSlots(cf, s.sh, c, s.handlers[c], s'.sh, s'.handlers[c]);
    } else if t :| CallerSteps(s, t, s') {
      if !At(s, t).1.Over? { StopSlots(s.sh, At(s, t).1, s'.sh, At(s', t).1, At(s, t).0.Shutter?); }
    }
    SlotKeeps(cf, s.sh, s'.sh);
  }
}
