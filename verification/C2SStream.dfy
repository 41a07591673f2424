/** The state machine of one client-to-server stream. A run queue executes the handlers one by one,
    so each handler is one step. What the handler cannot decide itself (the answer of the active
    authenticator, of a hook, of the resource manager) comes with the event. */
module C2SStream {

  const MAX_AUTH_FAILED := 5
  const MAX_AUTH_ABORTED := 1

  datatype Phase = Connecting | Connected | Authenticating | Authenticated | Binded | Disconnected | Terminated

  // `directTLS`: the transport was secured before the stream started.
  datatype Flags = Flags(directTLS: bool, secured: bool, authed: bool, compressed: bool, binded: bool,
                         sessionStarted: bool)

  // `active`: an authenticator is in the active slot.
  datatype AuthState = AuthState(active: bool, failedTimes: nat, abortTimes: nat)

  datatype Closing = Closing(sendDisabled: bool, timerSet: bool)

  datatype State = State(
    phase: Phase,
    flags: Flags,
    auth: AuthState,
    closing: Closing,
    doneClosed: nat,      // how many times the done channel was closed
    restarts: nat)        // session restarts after the first

  // How far closing gets: the disconnected hook may halt or fail, and then any of the steps of
  // termination may fail.
  datatype Teardown = Hibernates | HookFails | TerminationFails | Completes

  datatype AuthAnswer = Rejects | Challenges | Accepts

  datatype BindAnswer = Refused | TooManySessions | Bound

  datatype CompressAnswer = BadRequest | NotSupported | Compressed

  datatype Kind =
    | StreamHeader(featuresFail: bool)
    | StartTLS(goodNamespace: bool)
    | Auth(knownMechanism: bool)
    | Abort
    | IQ(legacyAuth: bool, bind: BindAnswer, opensSession: bool)
    | OtherStanza
    | Compress(result: CompressAnswer)
    | Unknown

  // `sasl`: the element is in the SASL namespace; `answer`: what the active authenticator says to it, if asked.
  datatype Element = Element(kind: Kind, sasl: bool, answer: AuthAnswer)

  datatype Event =
    | Receive(elem: Element, td: Teardown)
    | SessionError(td: Teardown)
    | Disconnect(timeout: bool, td: Teardown) // asked from outside, or the connection timeout
    | TimerFires(td: Teardown)
    | Resume(binds: bool)

  // ---------------------------------------------------------------------------------------------
  // Steps
  // ---------------------------------------------------------------------------------------------

  function Start(directTLS: bool): State {
    State(Connecting, Flags(directTLS, directTLS, false, false, false, false), AuthState(false, 0, 0),
          Closing(false, false), 0, 0)
  }

  predicate Closed(s: State) { s.phase.Disconnected? || s.phase.Terminated? }

  function DoTerminate(s: State, td: Teardown): State {
    if td.TerminationFails? then s else s.(doneClosed := s.doneClosed + 1, phase := Terminated)
  }

  function DoClose(s: State, td: Teardown): State {
    if s.phase.Disconnected? then DoTerminate(s, td)
    else if s.phase.Terminated? then s
    else
      var s' := s.(phase := Disconnected);
      if td.Hibernates? || td.HookFails? then s' else DoTerminate(s', td)
  }

  function DoDisconnect(s: State, timeout: bool, td: Teardown): State {
    if s.phase.Binded? && timeout then s.(closing := Closing(true, true)) else DoClose(s, td)
  }

  function DoRestart(s: State): State { s.(phase := Connecting, restarts := s.restarts + 1) }

  function DoFail(s: State, td: Teardown): State {
    var s' := s.(auth := s.auth.(failedTimes := s.auth.failedTimes + 1));
    if s'.auth.failedTimes >= MAX_AUTH_FAILED then DoDisconnect(s', false, td) else s'
  }

  function DoAbort(s: State, td: Teardown): State {
    // the first abort reaches the limit
    DoDisconnect(s.(auth := s.auth.(abortTimes := s.auth.abortTimes + 1)), false, td)
  }

  function DoFinish(s: State): State {
    DoRestart(s.(flags := s.flags.(authed := true), auth := s.auth.(active := false)))
  }

  function DoAnswer(s: State, answer: AuthAnswer, td: Teardown): State {
    match answer
    case Rejects => DoFail(s, td)
    case Accepts => DoFinish(s)
    case Challenges => s.(phase := Authenticating)
  }

  function OnConnecting(s: State, e: Element): State {
    if !s.flags.authed then s.(phase := Connected)
    else if e.kind == StreamHeader(true) then s
    else s.(phase := Authenticated)
  }

  function OnConnected(s: State, e: Element, td: Teardown): State {
    match e.kind
    case StartTLS(good) =>
      if s.flags.secured || !good then DoDisconnect(s, false, td)
      else DoRestart(s.(flags := s.flags.(secured := true)))
    case Auth(known) =>
      if !e.sasl then DoDisconnect(s, false, td)
      else if !known then s
      else DoAnswer(s.(auth := s.auth.(active := true)), e.answer, td)
    case IQ(legacyAuth, _, _) => if legacyAuth then s else DoDisconnect(s, false, td)
    case _ => DoDisconnect(s, false, td)
  }

  // Any element of the SASL namespace but an abort goes to the authenticator.
  function OnAuthenticating(s: State, e: Element, td: Teardown): State {
    if !e.sasl then DoDisconnect(s, false, td)
    else if e.kind.Abort? then DoAbort(s, td)
    else DoAnswer(s, e.answer, td)
  }

  function OnAuthenticated(s: State, e: Element, td: Teardown): State {
    match e.kind
    case Compress(answer) =>
      if s.flags.compressed || answer.BadRequest? then DoDisconnect(s, false, td)
      else if answer.NotSupported? then s
      else DoRestart(s.(flags := s.flags.(compressed := true)))
    case IQ(_, bind, _) =>
      (match bind
       case Refused => s
       case TooManySessions => DoDisconnect(s, false, td)
       case Bound => s.(phase := Binded, flags := s.flags.(binded := true)))
    case _ => DoDisconnect(s, false, td)
  }

  function OnBinded(s: State, e: Element, td: Teardown): State {
    match e.kind
    case IQ(_, _, opens) => if opens then s.(flags := s.flags.(sessionStarted := true)) else s
    case OtherStanza => s
    case _ => DoDisconnect(s, false, td)
  }

  function Next(s: State, ev: Event): State {
    match ev
    case Receive(e, td) =>
      (match s.phase
       case Connecting => OnConnecting(s, e)
       case Connected => OnConnected(s, e, td)
       case Authenticating => OnAuthenticating(s, e, td)
       case Authenticated => OnAuthenticated(s, e, td)
       case Binded => OnBinded(s, e, td)
       case _ => s)
    case SessionError(td) => DoClose(s, td)
    case Disconnect(timeout, td) => DoDisconnect(s, timeout, td)
    case TimerFires(td) => DoClose(s, td)
    case Resume(binds) => if binds then s.(phase := Binded, flags := s.flags.(binded := true)) else s
  }

  // ---------------------------------------------------------------------------------------------
  // What every run keeps
  // ---------------------------------------------------------------------------------------------

  predicate PhaseInv(s: State) {
    && (s.phase.Authenticated? || s.phase.Binded? ==> s.flags.authed)
    && (s.phase.Connected? || s.phase.Authenticating? ==> !s.flags.authed)
    && (s.phase.Authenticating? ==> s.auth.active)
    && (s.phase.Binded? ==> s.flags.binded)
    && s.doneClosed == (if s.phase.Terminated? then 1 else 0)
  }

  predicate LimitsInv(s: State) {
    && s.auth.failedTimes <= MAX_AUTH_FAILED && (s.auth.failedTimes == MAX_AUTH_FAILED ==> !s.flags.authed)
    && s.auth.abortTimes <= MAX_AUTH_ABORTED && (s.auth.abortTimes == MAX_AUTH_ABORTED ==> !s.flags.authed)
  }

  predicate RestartInv(s: State) {
    && (s.flags.directTLS ==> s.flags.secured)
    && s.restarts == (if s.flags.secured && !s.flags.directTLS then 1 else 0) +
                     (if s.flags.authed then 1 else 0) + (if s.flags.compressed then 1 else 0)
  }

  predicate AtLimit(s: State) { s.auth.failedTimes == MAX_AUTH_FAILED || s.auth.abortTimes == MAX_AUTH_ABORTED }

  predicate Inv(s: State) {
    PhaseInv(s) && LimitsInv(s) && RestartInv(s) && (AtLimit(s) ==> Closed(s))
  }

  /** A stream is resumed only if it is authenticated; it must not have been terminated. */
  predicate Admissible(s: State, ev: Event) {
    ev.Resume? && ev.binds ==> s.flags.authed && !s.phase.Terminated?
  }

  /** Closing moves the phase and, on termination, closes the done channel; it touches nothing else. */
  lemma CloseShape(s: State, td: Teardown)
    ensures var s' := DoClose(s, td);
            && Closed(s') && s' == s.(phase := s'.phase, doneClosed := s'.doneClosed)
            && s'.doneClosed == s.doneClosed + (if s'.phase.Terminated? && !s.phase.Terminated? then 1 else 0)
            && (s.phase.Terminated? ==> s'.phase.Terminated?)
            && DoDisconnect(s, false, td) == s'
  {
  }

  lemma CloseKeeps(s: State, td: Teardown)
    requires PhaseInv(s) && LimitsInv(s) && RestartInv(s)
    ensures Inv(DoClose(s, td)) && DoDisconnect(s, false, td) == DoClose(s, td)
    ensures DoClose(s, td).flags.directTLS == s.flags.directTLS
  {
    CloseShape(s, td);
    var s' := DoClose(s, td);
    var p, d := s'.phase, s'.doneClosed;
    ReclosedKeeps(s, p, d);
  }

  lemma ReclosedKeeps(s: State, p: Phase, d: nat)
    requires PhaseInv(s) && LimitsInv(s) && RestartInv(s)
    requires (p.Disconnected? && d == 0) || (p.Terminated? && d == 1)
    ensures Inv(s.(phase := p, doneClosed := d))
  {
  }

  lemma AnswerKeeps(s: State, answer: AuthAnswer, td: Teardown)
    requires Inv(s) && s.auth.active && (s.phase.Connected? || s.phase.Authenticating?)
    ensures Inv(DoAnswer(s, answer, td)) && DoAnswer(s, answer, td).flags.directTLS == s.flags.directTLS
  {
    if answer.Rejects? && s.auth.failedTimes + 1 >= MAX_AUTH_FAILED {
      CloseKeeps(s.(auth := s.auth.(failedTimes := s.auth.failedTimes + 1)), td);
    }
  }

  lemma ConnectedKeeps(s: State, e: Element, td: Teardown)
    requires Inv(s) && s.phase.Connected?
    ensures Inv(OnConnected(s, e, td)) && OnConnected(s, e, td).flags.directTLS == s.flags.directTLS
  {
    CloseKeeps(s, td);
    if e.kind.Auth? { AnswerKeeps(s.(auth := s.auth.(active := true)), e.answer, td); }
  }

  lemma AuthenticatingKeeps(s: State, e: Element, td: Teardown)
    requires Inv(s) && s.phase.Authenticating?
    ensures Inv(OnAuthenticating(s, e, td)) && OnAuthenticating(s, e, td).flags.directTLS == s.flags.directTLS
  {
    CloseKeeps(s, td);
    if e.kind.Abort? {
      CloseKeeps(s.(auth := s.auth.(abortTimes := s.auth.abortTimes + 1)), td);
    }
    AnswerKeeps(s, e.answer, td);
  }

  lemma AuthenticatedKeeps(s: State, e: Element, td: Teardown)
    requires Inv(s) && s.phase.Authenticated?
    ensures Inv(OnAuthenticated(s, e, td)) && OnAuthenticated(s, e, td).flags.directTLS == s.flags.directTLS
  {
    CloseKeeps(s, td);
  }

  lemma BindedKeeps(s: State, e: Element, td: Teardown)
    requires Inv(s) && s.phase.Binded?
    ensures Inv(OnBinded(s, e, td)) && OnBinded(s, e, td).flags.directTLS == s.flags.directTLS
  {
    CloseKeeps(s, td);
  }

  lemma ReceiveKeeps(s: State, e: Element, td: Teardown)
    requires Inv(s)
    ensures Inv(Next(s, Receive(e, td))) && Next(s, Receive(e, td)).flags.directTLS == s.flags.directTLS
  {
    match s.phase
    case Connecting =>
    case Connected => ConnectedKeeps(s, e, td);
    case Authenticating => AuthenticatingKeeps(s, e, td);
    case Authenticated => AuthenticatedKeeps(s, e, td);
    case Binded => BindedKeeps(s, e, td);
    case _ =>
  }

  /** Resuming is the only event that can break the invariant, and it does exactly when it is applied
      to an unauthenticated or to a terminated stream. */
  lemma StepKeepsInv(s: State, ev: Event)
    requires Inv(s)
    ensures Inv(Next(s, ev)) <==> Admissible(s, ev)
    ensures Next(s, ev).flags.directTLS == s.flags.directTLS
  {
    match ev
    case Receive(e, td) => ReceiveKeeps(s, e, td);
    case SessionError(td) => CloseKeeps(s, td);
    case Disconnect(timeout, td) => CloseKeeps(s, td);
    case TimerFires(td) => CloseKeeps(s, td);
    case Resume(binds) =>
  }

  function Run(s: State, evs: seq<Event>): State
    decreases |evs|
  {
    if evs == [] then s else Run(Next(s, evs[0]), evs[1..])
  }

  predicate AllAdmissible(s: State, evs: seq<Event>)
    decreases |evs|
  {
    evs == [] || (Admissible(s, evs[0]) && AllAdmissible(Next(s, evs[0]), evs[1..]))
  }

  lemma {:induction false} RunKeepsInv(s: State, evs: seq<Event>)
    requires Inv(s) && AllAdmissible(s, evs)
    ensures Inv(Run(s, evs)) && Run(s, evs).flags.directTLS == s.flags.directTLS
    decreases |evs|
  {
    if evs != [] {
      StepKeepsInv(s, evs[0]);
      RunKeepsInv(Next(s, evs[0]), evs[1..]);
    }
  }

  /** In every run from the start. */
  lemma ReachableStream(directTLS: bool, evs: seq<Event>)
    requires AllAdmissible(Start(directTLS), evs)
    ensures var s := Run(Start(directTLS), evs);
            && (s.phase.Authenticated? || s.phase.Binded? ==> s.flags.authed)
            && (s.phase.Connected? || s.phase.Authenticating? ==> !s.flags.authed)
            && (s.phase.Authenticating? ==> s.auth.active)
            && s.auth.failedTimes <= 5 && s.auth.abortTimes <= 1
            && s.restarts <= 3 && (directTLS ==> s.restarts <= 2)
            && s.doneClosed <= 1 && (s.doneClosed == 1 <==> s.phase.Terminated?)
  {
    RunKeepsInv(Start(directTLS), evs);
  }

  // ---------------------------------------------------------------------------------------------
  // What a run owes each flag to
  // ---------------------------------------------------------------------------------------------

  datatype Milestone = Securing | Challenged | Rejected | Accepted | Aborted | Compressing | Binding | Opening

  /** The element goes to the active authenticator: the first one names a known mechanism, and every later
      one is in the SASL namespace and no abort. */
  predicate ReachesAuthenticator(s: State, ev: Event) {
    && ev.Receive? && ev.elem.sasl
    && ((s.phase == Connected && ev.elem.kind == Auth(true)) || (s.phase == Authenticating && ev.elem.kind != Abort))
  }

  predicate Happens(m: Milestone, s: State, ev: Event) {
    match m
    case Securing => ev.Receive? && s.phase == Connected && !s.flags.secured && ev.elem.kind == StartTLS(true)
    case Challenged => ReachesAuthenticator(s, ev) && ev.elem.answer == Challenges
    case Rejected => ReachesAuthenticator(s, ev) && ev.elem.answer == Rejects
    case Accepted => ReachesAuthenticator(s, ev) && ev.elem.answer == Accepts
    case Aborted => ev.Receive? && s.phase == Authenticating && ev.elem.sasl && ev.elem.kind == Abort
    case Compressing =>
      ev.Receive? && s.phase == Authenticated && !s.flags.compressed && ev.elem.kind == Compress(Compressed)
    case Binding =>
      || ev == Resume(true)
      || (ev.Receive? && s.phase == Authenticated && ev.elem.kind.IQ? && ev.elem.kind.bind == Bound)
    case Opening => ev.Receive? && s.phase == Binded && ev.elem.kind.IQ? && ev.elem.kind.opensSession
  }

  function Count(b: bool): nat { if b then 1 else 0 }

  /** Each flag is set, and each counter raised, by exactly the event that stands for it. */
  predicate FlagsFollow(s: State, ev: Event, s': State) {
    && s'.flags.directTLS == s.flags.directTLS
    && (s'.flags.secured <==> s.flags.secured || Happens(Securing, s, ev))
    && (s'.flags.authed <==> s.flags.authed || Happens(Accepted, s, ev))
    && (s'.flags.compressed <==> s.flags.compressed || Happens(Compressing, s, ev))
    && (s'.flags.binded <==> s.flags.binded || Happens(Binding, s, ev))
    && (s'.flags.sessionStarted <==> s.flags.sessionStarted || Happens(Opening, s, ev))
    && (s'.auth.active <==> (s.auth.active || ReachesAuthenticator(s, ev)) && !Happens(Accepted, s, ev))
    && s'.auth.failedTimes == s.auth.failedTimes + Count(Happens(Rejected, s, ev))
    && s'.auth.abortTimes == s.auth.abortTimes + Count(Happens(Aborted, s, ev))
    && s'.restarts == s.restarts + Count(Happens(Securing, s, ev)) + Count(Happens(Accepted, s, ev)) +
                      Count(Happens(Compressing, s, ev))
  }

  lemma StepFlags(s: State, ev: Event)
    requires Inv(s)
    ensures FlagsFollow(s, ev, Next(s, ev))
    ensures Happens(Accepted, s, ev) ==> !s.flags.authed
  {
    if ev.Receive? {
      ReceiveFlags(s, ev.elem, ev.td);
    } else {
      QuietFlags(s, ev);
    }
  }

  lemma QuietFlags(s: State, ev: Event)
    requires !ev.Receive?
    ensures FlagsFollow(s, ev, Next(s, ev))
  {
    if !ev.Resume? {
      CloseTouchesNoFlag(s, ev.td);
      NothingFollows(s, ev, Next(s, ev));
    }
  }

  lemma NothingFollows(s: State, ev: Event, s': State)
    requires !ReachesAuthenticator(s, ev) && s'.flags == s.flags && s'.auth == s.auth && s'.restarts == s.restarts
    requires forall m :: m in {Securing, Aborted, Compressing, Binding, Opening} ==> !Happens(m, s, ev)
    ensures FlagsFollow(s, ev, s')
  {
  }

  lemma CloseTouchesNoFlag(s: State, td: Teardown)
    ensures var s' := DoClose(s, td);
            s'.flags == s.flags && s'.auth == s.auth && s'.restarts == s.restarts && DoDisconnect(s, false, td) == s'
  {
  }

  lemma ReceiveFlags(s: State, e: Element, td: Teardown)
    requires s.phase == Authenticating ==> s.auth.active
    ensures FlagsFollow(s, Receive(e, td), Next(s, Receive(e, td)))
  {
    match s.phase
    case Connected => ConnectedFlags(s, e, td);
    case Authenticating => AuthenticatingFlags(s, e, td);
    case Authenticated => AuthenticatedFlags(s, e, td);
    case Binded => BindedFlags(s, e, td);
    case _ => NothingFollows(s, Receive(e, td), Next(s, Receive(e, td)));
  }

  lemma ConnectedFlags(s: State, e: Element, td: Teardown)
    requires s.phase == Connected
    ensures FlagsFollow(s, Receive(e, td), OnConnected(s, e, td))
  {
    if e.kind == Auth(true) && e.sasl {
      FirstAnswerFlags(s, e, td);
    } else if e.kind != StartTLS(true) || s.flags.secured {
      CloseTouchesNoFlag(s, td);
      NothingFollows(s, Receive(e, td), OnConnected(s, e, td));
    }
  }

  lemma FirstAnswerFlags(s: State, e: Element, td: Teardown)
    requires s.phase == Connected && e.kind == Auth(true) && e.sasl
    ensures FlagsFollow(s, Receive(e, td), OnConnected(s, e, td))
  {
    AnswerFlags(s.(auth := s.auth.(active := true)), e, td);
  }

  lemma BindedFlags(s: State, e: Element, td: Teardown)
    requires s.phase == Binded
    ensures FlagsFollow(s, Receive(e, td), OnBinded(s, e, td))
  {
    if !(e.kind.IQ? && e.kind.opensSession) {
      CloseTouchesNoFlag(s, td);
      NothingFollows(s, Receive(e, td), OnBinded(s, e, td));
    }
  }

  lemma AuthenticatingFlags(s: State, e: Element, td: Teardown)
    requires s.phase == Authenticating && s.auth.active
    ensures FlagsFollow(s, Receive(e, td), OnAuthenticating(s, e, td))
  {
    if !e.sasl {
      CloseTouchesNoFlag(s, td);
      NothingFollows(s, Receive(e, td), OnAuthenticating(s, e, td));
    } else if e.kind == Abort {
      AbortFlags(s, e, td);
    } else {
      AnswerFlags(s, e, td);
    }
  }

  lemma AbortFlags(s: State, e: Element, td: Teardown)
    requires s.phase == Authenticating && s.auth.active && e.sasl && e.kind == Abort
    ensures FlagsFollow(s, Receive(e, td), OnAuthenticating(s, e, td))
  {
    CloseTouchesNoFlag(s.(auth := s.auth.(abortTimes := s.auth.abortTimes + 1)), td);
  }

  lemma AuthenticatedFlags(s: State, e: Element, td: Teardown)
    requires s.phase == Authenticated
    ensures FlagsFollow(s, Receive(e, td), OnAuthenticated(s, e, td))
  {
    CloseTouchesNoFlag(s, td);
    var ev := Receive(e, td);
    if !Happens(Compressing, s, ev) && !Happens(Binding, s, ev) { NothingFollows(s, ev, OnAuthenticated(s, e, td)); }
  }

  lemma AnswerFlags(s: State, e: Element, td: Teardown)
    requires (s.phase == Connected || s.phase == Authenticating) && s.auth.active
    ensures var s' := DoAnswer(s, e.answer, td);
            && s'.flags == s.flags.(authed := s.flags.authed || e.answer == Accepts)
            && s'.auth.failedTimes == s.auth.failedTimes + Count(e.answer == Rejects)
            && s'.auth.abortTimes == s.auth.abortTimes && s'.restarts == s.restarts + Count(e.answer == Accepts)
            && (s'.auth.active <==> e.answer != Accepts)
  {
    CloseTouchesNoFlag(s.(auth := s.auth.(failedTimes := s.auth.failedTimes + 1)), td);
  }

  predicate Enters(s: State, s': State, p: Phase) { s.phase != p && s'.phase == p }

  /** An element that an open stream survives. The fifth rejection ends it. */
  predicate Survives(s: State, e: Element) {
    var lastRejection := e.answer == Rejects && s.auth.failedTimes == 4;
    match s.phase
    case Connecting => true
    case Connected =>
      || (e.kind == StartTLS(true) && !s.flags.secured)
      || (e.kind == Auth(true) && e.sasl && !lastRejection)
      || (e.kind == Auth(false) && e.sasl)
      || (e.kind.IQ? && e.kind.legacyAuth)
    case Authenticating => e.sasl && e.kind != Abort && !lastRejection
    case Authenticated =>
      || (e.kind.Compress? && e.kind.result != BadRequest && !s.flags.compressed)
      || (e.kind.IQ? && e.kind.bind != TooManySessions)
    case Binded => e.kind.IQ? || e.kind == OtherStanza
    case _ => true
  }

  /** An open stream enters each phase for one reason, and is closed by exactly what it does not survive. */
  lemma StepMoves(s: State, ev: Event)
    requires Inv(s) && !Closed(s)
    ensures var s' := Next(s, ev);
            && (Closed(s') <==> match ev
                                case Receive(e, _) => !Survives(s, e)
                                case Disconnect(timeout, _) => !(timeout && s.phase == Binded)
                                case Resume(_) => false
                                case _ => true)
            && (Enters(s, s', Connecting) <==>
                  Happens(Securing, s, ev) || Happens(Accepted, s, ev) || Happens(Compressing, s, ev))
            && (Enters(s, s', Connected) <==> ev.Receive? && s.phase == Connecting && !s.flags.authed)
            && (Enters(s, s', Authenticating) <==> s.phase == Connected && Happens(Challenged, s, ev))
            && (Enters(s, s', Authenticated) <==>
                  ev.Receive? && s.phase == Connecting && s.flags.authed && ev.elem.kind != StreamHeader(true))
            && (Enters(s, s', Binded) <==> s.phase != Binded && Happens(Binding, s, ev))
    ensures Next(s, ev).closing ==
            if s.phase == Binded && ev.Disconnect? && ev.timeout then Closing(true, true) else s.closing
  {
  }

  /** How often a milestone is reached in a run. */
  function Occurrences(m: Milestone, s: State, evs: seq<Event>): nat
    decreases |evs|
  {
    if evs == [] then 0 else Count(Happens(m, s, evs[0])) + Occurrences(m, Next(s, evs[0]), evs[1..])
  }

  /** The same over a run: every flag and counter of the last state is owed to the events of the run. */
  lemma {:induction false} RunFlags(s: State, evs: seq<Event>)
    requires Inv(s) && AllAdmissible(s, evs)
    ensures var s' := Run(s, evs);
            && Count(s'.flags.authed) == Count(s.flags.authed) + Occurrences(Accepted, s, evs)
            && Count(s'.flags.secured) == Count(s.flags.secured) + Occurrences(Securing, s, evs)
            && Count(s'.flags.compressed) == Count(s.flags.compressed) + Occurrences(Compressing, s, evs)
            && s'.auth.failedTimes == s.auth.failedTimes + Occurrences(Rejected, s, evs)
            && s'.auth.abortTimes == s.auth.abortTimes + Occurrences(Aborted, s, evs)
            && (s'.flags.binded <==> s.flags.binded || Occurrences(Binding, s, evs) > 0)
            && (s'.flags.sessionStarted <==> s.flags.sessionStarted || Occurrences(Opening, s, evs) > 0)
    decreases |evs|
  {
    if evs != [] {
      StepFlags(s, evs[0]);
      StepKeepsInv(s, evs[0]);
      RunFlags(Next(s, evs[0]), evs[1..]);
    }
  }

  /** A milestone that a run counts stands at some place of the run. */
  lemma {:induction false} OccursAt(m: Milestone, s: State, evs: seq<Event>) returns (i: nat)
    requires Occurrences(m, s, evs) > 0
    ensures i < |evs| && Happens(m, Run(s, evs[..i]), evs[i])
    decreases |evs|
  {
    if Happens(m, s, evs[0]) {
      i := 0;
    } else {
      var k := OccursAt(m, Next(s, evs[0]), evs[1..]);
      i := k + 1;
      assert evs[..i][0] == evs[0] && evs[..i][1..] == evs[1..][..k];
    }
  }

  /** In every run from the start a stream is authenticated if and only if the authenticator has accepted, and
      then it has accepted exactly once; it has failed exactly as often as the authenticator has rejected. */
  lemma AuthenticatedByAccepting(directTLS: bool, evs: seq<Event>)
    requires AllAdmissible(Start(directTLS), evs)
    ensures var s0 := Start(directTLS);
            var s := Run(s0, evs);
            && Occurrences(Accepted, s0, evs) == Count(s.flags.authed)
            && Occurrences(Securing, s0, evs) == Count(s.flags.secured && !directTLS)
            && Occurrences(Compressing, s0, evs) == Count(s.flags.compressed)
            && Occurrences(Rejected, s0, evs) == s.auth.failedTimes <= 5
            && Occurrences(Aborted, s0, evs) == s.auth.abortTimes <= 1
            && (s.flags.binded <==> Occurrences(Binding, s0, evs) > 0)
            && (s.flags.sessionStarted <==> Occurrences(Opening, s0, evs) > 0)
            && (s.phase.Authenticated? || s.phase.Binded? || s.flags.authed ==>
                  exists i :: 0 <= i < |evs| && ReachesAuthenticator(Run(s0, evs[..i]), evs[i]) &&
                              evs[i].elem.answer == Accepts)
  {
    var s0 := Start(directTLS);
    RunKeepsInv(s0, evs);
    RunFlags(s0, evs);
    if Run(s0, evs).flags.authed { var i := OccursAt(Accepted, s0, evs); }
  }

  /** Nothing happens after termination: whatever comes, the whole state stays. */
  lemma {:induction false} TerminatedIsFinal(s: State, evs: seq<Event>)
    requires s.phase.Terminated? && AllAdmissible(s, evs)
    ensures Run(s, evs) == s
    decreases |evs|
  {
    if evs != [] {
      assert Next(s, evs[0]) == s;
      TerminatedIsFinal(s, evs[1..]);
    }
  }

  /** However often termination failed before, one undisturbed close ends the stream and closes the
      done channel once. */
  lemma {:induction false} RetriedTerminationEnds(s: State, tds: seq<Teardown>)
    requires Inv(s) && !Closed(s)
    requires forall i :: 0 <= i < |tds| ==> !tds[i].Completes?
    requires |tds| >= 1 && forall i :: 1 <= i < |tds| ==> tds[i].TerminationFails?
    ensures var evs := seq(|tds|, i requires 0 <= i < |tds| => SessionError(tds[i]));
            && Run(s, evs).phase.Disconnected?
            && Run(s, evs + [SessionError(Completes)]) == s.(phase := Terminated, doneClosed := 1)
  {
    var evs := seq(|tds|, i requires 0 <= i < |tds| => SessionError(tds[i]));
    var d := s.(phase := Disconnected);
    assert Next(s, evs[0]) == d;
    StillDisconnected(d, evs[1..]);
    assert (evs + [SessionError(Completes)])[1..] == evs[1..] + [SessionError(Completes)];
    StillDisconnected(d, evs[1..]);
    RunAppend(d, evs[1..], SessionError(Completes));
  }

  lemma {:induction false} StillDisconnected(d: State, evs: seq<Event>)
    requires d.phase.Disconnected? && forall i :: 0 <= i < |evs| ==> evs[i] == SessionError(TerminationFails)
    ensures Run(d, evs) == d
    decreases |evs|
  {
    if evs != [] { StillDisconnected(d, evs[1..]); }
  }

  lemma {:induction false} RunAppend(s: State, evs: seq<Event>, ev: Event)
    ensures Run(s, evs + [ev]) == Next(Run(s, evs), ev)
    decreases |evs|
  {
    if evs == [] {
      assert ([] + [ev])[1..] == [];
    } else {
      assert (evs + [ev])[1..] == evs[1..] + [ev];
      RunAppend(Next(s, evs[0]), evs[1..], ev);
    }
  }

  // ---------------------------------------------------------------------------------------------
  // The stream object
  // ---------------------------------------------------------------------------------------------

  class InC2S {
    const directTLS: bool
    var phase: Phase
    var secured: bool
    var authed: bool
    var compressed: bool
    var binded: bool
    var sessionStarted: bool
    var active: bool
    var failedTimes: nat
    var abortTimes: nat
    var sendDisabled: bool
    var timerSet: bool
    var doneClosed: nat
    var restarts: nat

    ghost function St(): State
      reads this
    {
      State(phase, Flags(directTLS, secured, authed, compressed, binded, sessionStarted),
            AuthState(active, failedTimes, abortTimes), Closing(sendDisabled, timerSet), doneClosed, restarts)
    }

    constructor (directTLS: bool)
      ensures St() == Start(directTLS) && Inv(St())
    {
      this.directTLS := directTLS;
      phase, secured, authed, compressed := Connecting, directTLS, false, false;
      binded, sessionStarted, active := false, false, false;
      failedTimes, abortTimes, doneClosed, restarts := 0, 0, 0, 0;
      sendDisabled, timerSet := false, false;
    }

    method Terminate(td: Teardown)
      modifies this
      ensures St() == DoTerminate(old(St()), td)
    {
      // unregister, delete the cluster resource, run the terminated hook: any may fail
      if td.TerminationFails? {
        return;
      }
      doneClosed := doneClosed + 1;
      phase := Terminated;
    }

    method Close(td: Teardown)
      modifies this
      ensures St() == DoClose(old(St()), td)
    {
      match phase {
        case Disconnected =>
          Terminate(td);
          return;
        case Terminated => return;
        case _ =>
      }
      phase := Disconnected;
      if td.Hibernates? || td.HookFails? {
        return;
      }
      Terminate(td);
    }

    method DisconnectStream(timeout: bool, td: Teardown)
      modifies this
      ensures St() == DoDisconnect(old(St()), timeout, td)
    {
      if phase.Binded? && timeout {
        timerSet := true;
        sendDisabled := true;
        return;
      }
      Close(td);
    }

    method RestartSession()
      modifies this
      ensures St() == DoRestart(old(St()))
    {
      restarts := restarts + 1;
      phase := Connecting;
    }

    method FinishAuthentication()
      modifies this
      ensures St() == DoFinish(old(St()))
    {
      authed := true;
      active := false;
      RestartSession();
    }

    method FailAuthentication(td: Teardown)
      modifies this
      ensures St() == DoFail(old(St()), td)
    {
      failedTimes := failedTimes + 1;
      if failedTimes >= MAX_AUTH_FAILED {
        DisconnectStream(false, td);
      }
    }

    method AbortAuthentication(td: Teardown)
      modifies this
      ensures St() == DoAbort(old(St()), td)
    {
      abortTimes := abortTimes + 1;
      assert abortTimes >= MAX_AUTH_ABORTED;
      DisconnectStream(false, td);
    }

    method StartAuthentication(e: Element, td: Teardown)
      requires e.kind.Auth?
      modifies this
      ensures St() == OnConnected(old(St()), e, td)
    {
      if !e.sasl {
        DisconnectStream(false, td);
        return;
      }
      if e.kind.knownMechanism {
        active := true;
        match e.answer {
          case Rejects => FailAuthentication(td);
          case Accepts => FinishAuthentication();
          case Challenges => phase := Authenticating;
        }
      }
    }

    method HandleElement(e: Element, td: Teardown)
      requires Inv(St())
      modifies this
      ensures St() == Next(old(St()), Receive(e, td)) && Inv(St())
      ensures authed && !old(authed) <==>
              e.sasl && e.answer == Accepts && ((old(phase) == Connected && e.kind == Auth(true)) ||
                                                (old(phase) == Authenticating && e.kind != Abort))
      ensures failedTimes == old(failedTimes) + Count(Happens(Rejected, old(St()), Receive(e, td)))
      ensures secured && !old(secured) <==> Happens(Securing, old(St()), Receive(e, td))
      ensures compressed && !old(compressed) <==> Happens(Compressing, old(St()), Receive(e, td))
      ensures binded <==> old(binded) || Happens(Binding, old(St()), Receive(e, td))
      ensures sessionStarted <==> old(sessionStarted) || Happens(Opening, old(St()), Receive(e, td))
      ensures !old(Closed(St())) ==> (Closed(St()) <==> !Survives(old(St()), e))
    {
      StepKeepsInv(St(), Receive(e, td));
      StepFlags(St(), Receive(e, td));
      if !Closed(St()) { StepMoves(St(), Receive(e, td)); }
      Dispatch(e, td);
    }

    method Dispatch(e: Element, td: Teardown)
      requires phase.Authenticating? ==> active
      modifies this
      ensures St() == Next(old(St()), Receive(e, td))
    {
      match phase {
        case Connecting =>
          if !authed {
            phase := Connected;
          } else if e.kind != StreamHeader(true) {
            phase := Authenticated;
          }
        case Connected => HandleConnected(e, td);
        case Authenticating => HandleAuthenticating(e, td);
        case Authenticated => HandleAuthenticated(e, td);
        case Binded => HandleBinded(e, td);
        case _ =>
      }
    }

    method HandleConnected(e: Element, td: Teardown)
      modifies this
      ensures St() == OnConnected(old(St()), e, td)
    {
      match e.kind {
        case StartTLS(good) =>
          if secured || !good {
            DisconnectStream(false, td);
          } else {
            secured := true;
            RestartSession();
          }
        case Auth(_) => StartAuthentication(e, td);
        case IQ(legacyAuth, _, _) =>
          if !legacyAuth { DisconnectStream(false, td); } // answered with an error otherwise
        case _ => DisconnectStream(false, td);
      }
    }

    method HandleBinded(e: Element, td: Teardown)
      modifies this
      ensures St() == OnBinded(old(St()), e, td)
    {
      match e.kind {
        case OtherStanza =>
        case IQ(_, _, opens) =>
          if opens { sessionStarted := true; }
        case _ => DisconnectStream(false, td);
      }
    }

    method HandleAuthenticating(e: Element, td: Teardown)
      requires active && phase.Authenticating?
      modifies this
      ensures St() == OnAuthenticating(old(St()), e, td)
    {
      if !e.sasl {
        DisconnectStream(false, td);
        return;
      }
      if e.kind.Abort? {
        AbortAuthentication(td);
        return;
      }
      match e.answer {
        case Rejects => FailAuthentication(td);
        case Accepts => FinishAuthentication();
        case Challenges =>
      }
    }

    method HandleAuthenticated(e: Element, td: Teardown)
      modifies this
      ensures St() == OnAuthenticated(old(St()), e, td)
    {
      match e.kind {
        case Compress(answer) =>
          if compressed || answer.BadRequest? {
            DisconnectStream(false, td);
          } else if answer.Compressed? {
            compressed := true;
            RestartSession();
          }
        case IQ(_, bind, _) =>
          match bind {
            case Refused =>
            case TooManySessions => DisconnectStream(false, td);
            case Bound =>
              phase := Binded;
              binded := true;
          }
        case _ => DisconnectStream(false, td);
      }
    }

    /** Another stream's session is moved to this one. */
    method ResumeSession(binds: bool)
      requires Inv(St())
      modifies this
      ensures St() == Next(old(St()), Resume(binds))
      ensures Inv(St()) <==> Admissible(old(St()), Resume(binds))
    {
      StepKeepsInv(St(), Resume(binds));
      if binds {
        phase := Binded;
        binded := true;
      }
    }
  }
}
