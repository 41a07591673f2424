/** The outgoing server-to-server stream. Stanzas submitted before the stream is authenticated wait in a
    queue that authentication flushes; afterwards they go straight to the wire. */
module OutStream {

  datatype Phase = Connecting | Connected | Securing | Authenticating | Authenticated |
                   VerifyingKey | AuthorizingKey | Disconnected

  /** `wire` and `submitted` record what was written and what was asked for; handshake elements are not
      stanzas and are not recorded. `flushes` counts how often the queue was sent. */
  datatype Out = Out(phase: Phase, dialback: bool, secured: bool, authed: bool, pending: seq<string>,
                     wire: seq<string>, submitted: seq<string>, flushes: nat)

  function Start(dialback: bool, directTLS: bool): Out {
    Out(Connecting, dialback, directTLS, false, [], [], [], 0)
  }

  datatype Element =
    | Header
    | Features(startTLS: bool, external: bool, dialbackFeature: bool)
    | Proceed(goodNamespace: bool)
    | SaslSuccess | SaslFailure
    | DbResult(valid: bool)
    | DbVerify
    | Unexpected

  /** What fails while a step writes: nothing, a handshake element, or the i-th element of the queue, whose
      write fails, or after whose write the hook that announces it fails. */
  datatype Trouble = Nothing | Handshake | Flush(i: nat, written: bool)

  /** How many elements a failing flush has written. */
  function Gone(trouble: Trouble): nat
    requires trouble.Flush?
  {
    trouble.i + if trouble.written then 1 else 0
  }

  datatype Event =
    | Submit(stanza: string, written: bool)
    | Receive(elem: Element, trouble: Trouble)
    | SessionError
    | Disconnect(written: bool)

  // ---------------------------------------------------------------------------------------------
  // Steps
  // ---------------------------------------------------------------------------------------------

  function DoClose(s: Out): Out { s.(phase := Disconnected) }

  /** Sending the queue: all of it, or, if a write fails, the part in front; then the stream is closed and
      the queue is left as it was. */
  function DoFlush(s: Out, trouble: Trouble): Out {
    if trouble.Flush? && trouble.i < |s.pending|
    then s.(phase := Disconnected, wire := s.wire + s.pending[..Gone(trouble)], flushes := s.flushes + 1)
    else s.(phase := Authenticated, wire := s.wire + s.pending, pending := [], flushes := s.flushes + 1)
  }

  /** Entering a phase that starts with a handshake element; if it cannot be written the stream closes. */
  function DoEnter(s: Out, phase: Phase, trouble: Trouble): Out {
    if trouble.Handshake? then DoClose(s) else s.(phase := phase)
  }

  function OnConnected(s: Out, e: Element, trouble: Trouble): Out {
    if !e.Features? then DoClose(s)
    else if !s.secured then (if e.startTLS then DoEnter(s, Securing, trouble) else DoClose(s))
    else if s.authed then DoFlush(s, trouble)
    else if s.dialback then DoEnter(s, AuthorizingKey, trouble)
    else if e.external then DoEnter(s, Authenticating, trouble)
    else if e.dialbackFeature then DoEnter(s, VerifyingKey, trouble)
    else DoClose(s)
  }

  function Next(s: Out, ev: Event): Out {
    match ev
    case Submit(x, written) =>
      var s' := s.(submitted := s.submitted + [x]);
      if s.phase.Authenticated? then (if written then s'.(wire := s.wire + [x]) else s')
      else s'.(pending := s.pending + [x])
    case SessionError => DoClose(s)
    case Disconnect(written) => if written then DoClose(s) else s
    case Receive(e, trouble) =>
      match s.phase
      case Connecting => s.(phase := Connected)
      case Connected => OnConnected(s, e, trouble)
      case Securing => if e == Proceed(true) then DoEnter(s.(secured := true), Connecting, trouble) else DoClose(s)
      case Authenticating => if e == SaslSuccess then DoEnter(s.(authed := true), Connecting, trouble) else DoClose(s)
      case VerifyingKey => if e == DbResult(true) then DoFlush(s, trouble) else DoClose(s)
      case AuthorizingKey => DoClose(s)
      case Authenticated => s
      case Disconnected => s
  }

  function Run(s: Out, evs: seq<Event>): Out
    decreases |evs|
  {
    if evs == [] then s else Run(Next(s, evs[0]), evs[1..])
  }

  // ---------------------------------------------------------------------------------------------
  // Nothing is duplicated or reordered, ever
  // ---------------------------------------------------------------------------------------------

  /** `a` is `b` with some elements left out. */
  predicate Subsequence(a: seq<string>, b: seq<string>) {
    a == [] ||
    (b != [] && (Subsequence(a, b[..|b| - 1]) ||
                 (a[|a| - 1] == b[|b| - 1] && Subsequence(a[..|a| - 1], b[..|b| - 1]))))
  }

  lemma SubsequenceMore(a: seq<string>, b: seq<string>, x: string)
    requires Subsequence(a, b)
    ensures Subsequence(a, b + [x]) && Subsequence(a + [x], b + [x])
  {
    assert (b + [x])[..|b|] == b && (a + [x])[..|a|] == a;
  }

  lemma {:induction false} PrefixIsSubsequence(s: seq<string>, i: nat)
    requires i <= |s|
    ensures Subsequence(s[..i], s)
  {
    if s != [] {
      if i == |s| {
        PrefixIsSubsequence(s[..|s| - 1], |s| - 1);
        assert s[..i][..i - 1] == s[..|s| - 1][..|s| - 1];
      } else {
        PrefixIsSubsequence(s[..|s| - 1], i);
        assert s[..|s| - 1][..i] == s[..i];
      }
    }
  }

  /** What holds whatever fails. */
  predicate Inv(s: Out) {
    && Subsequence(s.wire, s.submitted)
    && s.flushes <= 1
    && (s.phase.Authenticated? ==> s.pending == [] && s.flushes == 1)
    && (!s.phase.Authenticated? && !s.phase.Disconnected? ==> s.flushes == 0)
    && (s.flushes == 0 ==> s.wire == [] && s.pending == s.submitted)
  }

  lemma FlushKeepsInv(s: Out, trouble: Trouble)
    requires Inv(s) && s.flushes == 0
    ensures Inv(DoFlush(s, trouble))
  {
    assert [] + s.pending == s.submitted;
    PrefixIsSubsequence(s.submitted, |s.submitted|);
    assert s.submitted[..|s.submitted|] == s.submitted;
    if trouble.Flush? && trouble.i < |s.pending| {
      PrefixIsSubsequence(s.submitted, Gone(trouble));
      assert [] + s.pending[..Gone(trouble)] == s.submitted[..Gone(trouble)];
    }
  }

  predicate SameQueues(s: Out, s': Out) {
    s'.pending == s.pending && s'.wire == s.wire && s'.submitted == s.submitted && s'.flushes == s.flushes
  }

  /** The phase stays, ends, or moves on before authentication. */
  predicate Quiet(s: Out, s': Out) {
    || s' == s || s'.phase.Disconnected?
    || (!s.phase.Authenticated? && !s.phase.Disconnected? && !s'.phase.Authenticated?)
  }

  /** An element either flushes the queue, from one of two phases, or leaves the queues alone. */
  lemma ReceiveShape(s: Out, e: Element, trouble: Trouble)
    ensures var s' := Next(s, Receive(e, trouble));
            || ((s.phase.VerifyingKey? || s.phase.Connected?) && s' == DoFlush(s, trouble))
            || (SameQueues(s, s') && Quiet(s, s'))
  {
  }

  lemma ReceiveKeepsInv(s: Out, e: Element, trouble: Trouble)
    requires Inv(s)
    ensures Inv(Next(s, Receive(e, trouble)))
  {
    ReceiveShape(s, e, trouble);
    var s' := Next(s, Receive(e, trouble));
    if SameQueues(s, s') {
      QuietKeepsInv(s, s');
    } else {
      FlushKeepsInv(s, trouble);
    }
  }

  lemma QuietKeepsInv(s: Out, s': Out)
    requires Inv(s) && SameQueues(s, s')
    ensures Quiet(s, s') ==> Inv(s')
  {
  }

  lemma StepKeepsInv(s: Out, ev: Event)
    requires Inv(s)
    ensures Inv(Next(s, ev))
  {
    match ev
    case Submit(x, written) => SubsequenceMore(s.wire, s.submitted, x);
    case Receive(e, trouble) => ReceiveKeepsInv(s, e, trouble);
    case _ =>
  }

  /** In every run, with writes failing at will, what is on the wire is part of what was submitted, in the
      same order and without repetition, and the queue was sent at most once. */
  lemma {:induction false} RunNeverReorders(s: Out, evs: seq<Event>)
    requires Inv(s)
    ensures Inv(Run(s, evs))
    ensures Subsequence(Run(s, evs).wire, Run(s, evs).submitted) && Run(s, evs).flushes <= 1
    decreases |evs|
  {
    if evs != [] {
      StepKeepsInv(s, evs[0]);
      RunNeverReorders(Next(s, evs[0]), evs[1..]);
    }
  }

  // ---------------------------------------------------------------------------------------------
  // Exactly when nothing is lost
  // ---------------------------------------------------------------------------------------------

  predicate Conserved(s: Out) { s.wire + s.pending == s.submitted }

  /** The element makes the stream send its queue: a valid dialback result, or the features after SASL. */
  predicate Flushes(s: Out, e: Element) {
    || (s.phase.VerifyingKey? && e == DbResult(true))
    || (s.phase.Connected? && e.Features? && s.secured && s.authed)
  }

  /** The two ways to break conservation: a stanza of an authenticated stream that is not written, and a
      flush that fails after something was written. */
  predicate Breaks(s: Out, ev: Event) {
    match ev
    case Submit(_, written) => s.phase.Authenticated? && !written
    case Receive(e, trouble) => Flushes(s, e) && trouble.Flush? && trouble.i < |s.pending| && Gone(trouble) > 0
    case _ => false
  }

  lemma FlushesExactly(s: Out, e: Element, trouble: Trouble)
    ensures var s' := Next(s, Receive(e, trouble));
            if Flushes(s, e) then s' == DoFlush(s, trouble) else SameQueues(s, s')
  {
  }

  lemma FlushConserves(s: Out, trouble: Trouble)
    requires Conserved(s) && s.wire == []
    ensures Conserved(DoFlush(s, trouble)) <==> !(trouble.Flush? && trouble.i < |s.pending| && Gone(trouble) > 0)
  {
    var s' := DoFlush(s, trouble);
    assert [] + s.pending == s.pending && s.pending + [] == s.pending;
    if trouble.Flush? && trouble.i < |s.pending| {
      assert |s'.wire + s'.pending| == Gone(trouble) + |s.submitted|;
      if Gone(trouble) == 0 { assert s'.wire == []; }
    }
  }

  lemma SubmitConserves(s: Out, x: string, written: bool)
    requires Conserved(s) && (s.phase.Authenticated? ==> s.pending == [])
    ensures Conserved(Next(s, Submit(x, written))) <==> !(s.phase.Authenticated? && !written)
  {
    var s' := Next(s, Submit(x, written));
    assert s.wire + (s.pending + [x]) == s.wire + s.pending + [x];
    if s.phase.Authenticated? {
      assert s.wire + [x] + [] == s.wire + [] + [x];
      assert |s'.wire + s'.pending| == |s.submitted| + if written then 1 else 0;
    }
  }

  /** One event conserves exactly if it is none of the two. */
  lemma StepConserves(s: Out, ev: Event)
    requires Inv(s) && Conserved(s)
    ensures Conserved(Next(s, ev)) <==> !Breaks(s, ev)
  {
    match ev
    case Submit(x, written) => SubmitConserves(s, x, written);
    case Receive(e, trouble) =>
      FlushesExactly(s, e, trouble);
      if Flushes(s, e) { FlushConserves(s, trouble); }
    case _ =>
  }

  /** Once lost, a stanza stays lost, and once kept too long, a stanza stays in the queue. */
  predicate Broken(s: Out) {
    || (s.flushes == 1 && |s.wire| + |s.pending| < |s.submitted|)
    || (s.phase.Disconnected? && |s.wire| + |s.pending| > |s.submitted|)
  }

  lemma BreakingBreaks(s: Out, ev: Event)
    requires Inv(s) && Conserved(s) && Breaks(s, ev)
    ensures Broken(Next(s, ev))
  {
    assert |s.wire + s.pending| == |s.submitted|;
    if ev.Receive? { FlushesExactly(s, ev.elem, ev.trouble); }
  }

  lemma BrokenStays(s: Out, ev: Event)
    requires Inv(s) && Broken(s)
    ensures Broken(Next(s, ev))
  {
    if ev.Receive? { FlushesExactly(s, ev.elem, ev.trouble); }
  }

  lemma {:induction false} BrokenForGood(s: Out, evs: seq<Event>)
    requires Inv(s) && Broken(s)
    ensures !Conserved(Run(s, evs))
    decreases |evs|
  {
    if evs == [] {
      assert |s.wire + s.pending| != |s.submitted|;
    } else {
      BrokenStays(s, evs[0]);
      StepKeepsInv(s, evs[0]);
      BrokenForGood(Next(s, evs[0]), evs[1..]);
    }
  }

  predicate NoneBreaks(s: Out, evs: seq<Event>)
    decreases |evs|
  {
    evs == [] || (!Breaks(s, evs[0]) && NoneBreaks(Next(s, evs[0]), evs[1..]))
  }

  /** After every run the wire followed by the queue is exactly what was submitted, if and only if no event
      of the run was one of the two. */
  lemma {:induction false} RunConserves(s: Out, evs: seq<Event>)
    requires Inv(s) && Conserved(s)
    ensures Conserved(Run(s, evs)) <==> NoneBreaks(s, evs)
    decreases |evs|
  {
    if evs != [] {
      StepKeepsInv(s, evs[0]);
      StepConserves(s, evs[0]);
      if Breaks(s, evs[0]) {
        BreakingBreaks(s, evs[0]);
        BrokenForGood(Next(s, evs[0]), evs[1..]);
      } else {
        RunConserves(Next(s, evs[0]), evs[1..]);
      }
    }
  }

  /** From the start; and once authenticated, everything submitted is on the wire. */
  lemma NoneLost(dialback: bool, directTLS: bool, evs: seq<Event>)
    ensures var s0 := Start(dialback, directTLS); var s := Run(s0, evs);
            && (s.wire + s.pending == s.submitted <==> NoneBreaks(s0, evs))
            && (NoneBreaks(s0, evs) && s.phase.Authenticated? ==> s.wire == s.submitted)
            && (!s.phase.Authenticated? && !s.phase.Disconnected? ==> s.wire == [] && s.pending == s.submitted)
  {
    var s0 := Start(dialback, directTLS);
    RunConserves(s0, evs);
    RunNeverReorders(s0, evs);
    var s := Run(s0, evs);
    if s.phase.Authenticated? { assert s.wire + [] == s.wire; }
  }

  predicate Writes(ev: Event) {
    match ev
    case Submit(_, written) => written
    case Receive(_, trouble) => trouble.Nothing?
    case SessionError => true
    case Disconnect(written) => written
  }

  /** A run without a failed write has none of the two. */
  lemma {:induction false} WritesNeverBreak(s: Out, evs: seq<Event>)
    requires forall i :: 0 <= i < |evs| ==> Writes(evs[i])
    ensures NoneBreaks(s, evs)
    decreases |evs|
  {
    if evs != [] {
      assert Writes(evs[0]);
      WritesNeverBreak(Next(s, evs[0]), evs[1..]);
    }
  }

  /** What a failed flush leaves behind, from either phase: the part that went out is still in the queue. */
  lemma FailedFlushKeepsQueue(s: Out, e: Element, trouble: Trouble)
    requires Inv(s) && Flushes(s, e) && trouble.Flush? && trouble.i < |s.pending|
    ensures var s' := Next(s, Receive(e, trouble));
            s'.phase.Disconnected? && s'.wire == s.pending[..Gone(trouble)] && s'.pending == s.pending == s'.submitted
  {
    FlushesExactly(s, e, trouble);
    assert [] + s.pending[..Gone(trouble)] == s.pending[..Gone(trouble)];
  }

  /** It happens: the dialback flush of two waiting stanzas fails at the second. */
  lemma FailedFlushHappens(x: string, y: string)
    ensures var features := Receive(Features(false, false, true), Nothing);
            var evs := [Submit(x, true), Submit(y, true), Receive(Header, Nothing), features,
                Receive(DbResult(true), Flush(1, false))];
            var s := Run(Start(false, true), evs);
            s.wire == [x] && s.pending == [x, y] == s.submitted
  {
    var s0, s1 := Start(false, true), Next(Start(false, true), Submit(x, true));
    var s2 := Next(s1, Submit(y, true));
    var s3 := Next(s2, Receive(Header, Nothing));
    var s4 := Next(s3, Receive(Features(false, false, true), Nothing));
    var s5 := Next(s4, Receive(DbResult(true), Flush(1, false)));
    assert s4.pending == [x, y] && s4.phase == VerifyingKey && [x, y][..1] == [x];
    var evs := [Submit(x, true), Submit(y, true), Receive(Header, Nothing),
        Receive(Features(false, false, true), Nothing), Receive(DbResult(true), Flush(1, false))];
    assert Run(s5, []) == s5;
    assert evs[4..] == [evs[4]] && evs[4..][1..] == [];
    assert Run(s4, evs[4..]) == s5;
    assert evs[3..][1..] == evs[4..];
    assert Run(s3, evs[3..]) == s5;
    assert evs[2..][1..] == evs[3..];
    assert Run(s2, evs[2..]) == s5;
    assert evs[1..][1..] == evs[2..];
    assert Run(s1, evs[1..]) == s5;
  }

  // ---------------------------------------------------------------------------------------------
  // Nothing goes out before the peer has accepted the stream
  // ---------------------------------------------------------------------------------------------

  /** The peer accepts the stream: by SASL, or by confirming its dialback key. */
  predicate Accepts(s: Out, ev: Event) {
    ev.Receive? &&
    ((s.phase == Authenticating && ev.elem == SaslSuccess) || (s.phase == VerifyingKey && ev.elem == DbResult(true)))
  }

  predicate Secures(s: Out, ev: Event) { ev.Receive? && s.phase == Securing && ev.elem == Proceed(true) }

  /** A flag is set by exactly one kind of event, and the queue is sent by the key's confirmation, or by the features
      that follow SASL. */
  lemma StepFlags(s: Out, ev: Event)
    ensures var s' := Next(s, ev);
            && (s'.secured <==> s.secured || Secures(s, ev))
            && (s'.authed <==> s.authed || (s.phase == Authenticating && Accepts(s, ev)))
            && s'.dialback == s.dialback
            && s'.flushes == s.flushes + if ev.Receive? && Flushes(s, ev.elem) then 1 else 0
  {
  }

  predicate Enters(s: Out, s': Out, p: Phase) { s.phase != p && s'.phase == p }

  /** How the features of the peer lead on, if the handshake element can be written. */
  lemma FeaturesLead(s: Out, e: Element, trouble: Trouble)
    requires s.phase == Connected
    ensures var s' := Next(s, Receive(e, trouble));
            var open := e.Features? && s.secured && !s.authed && trouble != Handshake;
            && (s'.phase == Securing <==> e.Features? && !s.secured && e.startTLS && trouble != Handshake)
            && (s'.phase == AuthorizingKey <==> open && s.dialback)
            && (s'.phase == Authenticating <==> open && !s.dialback && e.external)
            && (s'.phase == VerifyingKey <==> open && !s.dialback && !e.external && e.dialbackFeature)
            && s'.phase !in {Connecting, Connected}
  {
  }

  /** The other phases are left for one reason each. */
  lemma StepMoves(s: Out, ev: Event)
    ensures var s' := Next(s, ev);
            && (Enters(s, s', Connecting) <==>
                  && (Secures(s, ev) || (s.phase == Authenticating && Accepts(s, ev)))
                  && ev.trouble != Handshake)
            && (Enters(s, s', Connected) <==> ev.Receive? && s.phase == Connecting)
            && (s.phase in {Securing, Authenticating, VerifyingKey, AuthorizingKey} && ev.Receive? ==>
                  Secures(s, ev) || Accepts(s, ev) || s'.phase == Disconnected)
            && (ev == SessionError ==> s'.phase == Disconnected)
            && (ev.Disconnect? ==> s'.phase == if ev.written then Disconnected else s.phase)
            && (ev.Submit? || s.phase == Disconnected ==> s'.phase == s.phase)
  {
  }

  /** In every run a stream that counts as authenticated, or has sent its queue, was accepted by an earlier event. */
  lemma {:induction false} AcceptedBefore(s: Out, evs: seq<Event>) returns (i: nat)
    requires !s.authed && s.flushes == 0 && (Run(s, evs).authed || Run(s, evs).flushes > 0)
    ensures i < |evs| && Accepts(Run(s, evs[..i]), evs[i])
    decreases |evs|
  {
    StepFlags(s, evs[0]);
    if Accepts(s, evs[0]) {
      i := 0;
    } else {
      var k := AcceptedBefore(Next(s, evs[0]), evs[1..]);
      i := k + 1;
      assert evs[..i][0] == evs[0] && evs[..i][1..] == evs[1..][..k];
    }
  }

  lemma {:induction false} SecuredBefore(s: Out, evs: seq<Event>) returns (i: nat)
    requires !s.secured && Run(s, evs).secured
    ensures i < |evs| && Secures(Run(s, evs[..i]), evs[i])
    decreases |evs|
  {
    StepFlags(s, evs[0]);
    if Secures(s, evs[0]) {
      i := 0;
    } else {
      var k := SecuredBefore(Next(s, evs[0]), evs[1..]);
      i := k + 1;
      assert evs[..i][0] == evs[0] && evs[..i][1..] == evs[1..][..k];
    }
  }

  predicate Past(s: Out) { s.phase in {Authenticating, VerifyingKey, AuthorizingKey} || s.authed || s.flushes > 0 }

  lemma {:induction false} PastIsSecured(s: Out, evs: seq<Event>)
    requires Past(s) ==> s.secured
    ensures Past(Run(s, evs)) ==> Run(s, evs).secured
    decreases |evs|
  {
    if evs != [] {
      StepFlags(s, evs[0]);
      if evs[0].Receive? && s.phase == Connected { FeaturesLead(s, evs[0].elem, evs[0].trouble); }
      PastIsSecured(Next(s, evs[0]), evs[1..]);
    }
  }

  /** So in every run from the start nothing is on the wire before the stream was secured and the peer accepted it. */
  lemma WireIsEarned(dialback: bool, directTLS: bool, evs: seq<Event>)
    requires var s := Run(Start(dialback, directTLS), evs); s.wire != [] || s.phase.Authenticated?
    ensures exists i :: 0 <= i < |evs| && Accepts(Run(Start(dialback, directTLS), evs[..i]), evs[i])
    ensures directTLS || exists i :: 0 <= i < |evs| && Secures(Run(Start(dialback, directTLS), evs[..i]), evs[i])
  {
    var s0 := Start(dialback, directTLS);
    RunNeverReorders(s0, evs);
    var i := AcceptedBefore(s0, evs);
    PastIsSecured(s0, evs);
    if !directTLS { var k := SecuredBefore(s0, evs); }
  }

  // ---------------------------------------------------------------------------------------------
  // The stream object
  // ---------------------------------------------------------------------------------------------

  class OutS2S {
    const dialback: bool
    var phase: Phase
    var secured: bool
    var authed: bool
    var pendingQueue: seq<string>
    ghost var wire: seq<string>
    ghost var submitted: seq<string>
    ghost var flushes: nat

    ghost function St(): Out
      reads this
    {
      Out(phase, dialback, secured, authed, pendingQueue, wire, submitted, flushes)
    }

    constructor (dialback: bool, directTLS: bool)
      ensures St() == Start(dialback, directTLS) && Inv(St())
    {
      this.dialback := dialback;
      phase, secured, authed, pendingQueue := Connecting, directTLS, false, [];
      wire, submitted, flushes := [], [], 0;
    }

    method SendOrEnqueue(x: string, written: bool)
      requires Inv(St())
      modifies this
      ensures St() == Next(old(St()), Submit(x, written)) && Inv(St())
      ensures Conserved(old(St())) ==> (Conserved(St()) <==> !Breaks(old(St()), Submit(x, written)))
    {
      StepKeepsInv(St(), Submit(x, written));
      if Conserved(St()) { StepConserves(St(), Submit(x, written)); }
      submitted := submitted + [x];
      match phase {
        case Authenticated =>
          if written { wire := wire + [x]; }
        case _ =>
          pendingQueue := pendingQueue + [x];
      }
    }

    method Close()
      modifies this`phase
      ensures phase == Disconnected
    {
      phase := Disconnected;
    }

    /** The queue is sent element by element; the first failed write ends it. */
    method FinishAuthentication(trouble: Trouble)
      modifies this
      ensures St() == DoFlush(old(St()), trouble)
    {
      phase := Authenticated;
      flushes := flushes + 1;
      for i := 0 to |pendingQueue|
        invariant phase == Authenticated && pendingQueue == old(pendingQueue)
        invariant secured == old(secured) && authed == old(authed) && submitted == old(submitted) &&
                flushes == old(flushes) + 1
        invariant wire == old(wire) + pendingQueue[..i] && (trouble.Flush? ==> i <= trouble.i)
      {
        if trouble.Flush? && trouble.i == i && !trouble.written {
          Close(); // the error is reported and the stream closed
          return;
        }
        wire := wire + [pendingQueue[i]];
        assert old(wire) + pendingQueue[..i] + [pendingQueue[i]] == old(wire) + pendingQueue[..i + 1];
        if trouble.Flush? && trouble.i == i {
          Close(); // the hook failed
          return;
        }
      }
      assert pendingQueue[..|pendingQueue|] == pendingQueue;
      pendingQueue := [];
    }

    method Enter(next: Phase, trouble: Trouble)
      modifies this`phase
      ensures St() == DoEnter(old(St()), next, trouble)
    {
      phase := next;
      if trouble.Handshake? {
        Close();
      }
    }

    method HandleConnected(e: Element, trouble: Trouble)
      modifies this
      ensures St() == OnConnected(old(St()), e, trouble)
    {
      if !e.Features? {
        Close();
        return;
      }
      if !secured {
        if !e.startTLS {
          Close();
          return;
        }
        Enter(Securing, trouble);
        return;
      }
      if authed {
        FinishAuthentication(trouble);
        return;
      }
      if !dialback {
        if e.external {
          Enter(Authenticating, trouble);
        } else if e.dialbackFeature {
          Enter(VerifyingKey, trouble);
        } else {
          Close();
        }
      } else {
        Enter(AuthorizingKey, trouble);
      }
    }

    /** An element is one step; it keeps the order, and it conserves exactly if it breaks no flush. */
    method HandleElement(e: Element, trouble: Trouble)
      requires Inv(St())
      modifies this
      ensures St() == Next(old(St()), Receive(e, trouble)) && Inv(St())
      ensures Conserved(old(St())) ==> (Conserved(St()) <==> !Breaks(old(St()), Receive(e, trouble)))
      ensures authed <==> old(authed) || (old(phase) == Authenticating && e == SaslSuccess)
      ensures secured <==> old(secured) || (old(phase) == Securing && e == Proceed(true))
    {
      StepFlags(St(), Receive(e, trouble));
      StepKeepsInv(St(), Receive(e, trouble));
      if Conserved(St()) { StepConserves(St(), Receive(e, trouble)); }
      Dispatch(e, trouble);
    }

    method Dispatch(e: Element, trouble: Trouble)
      modifies this
      ensures St() == Next(old(St()), Receive(e, trouble))
    {
      match phase {
        case Connecting => phase := Connected;
        case Connected => HandleConnected(e, trouble);
        case Securing =>
          if e == Proceed(true) {
            secured := true;
            Enter(Connecting, trouble);
          } else {
            Close();
          }
        case Authenticating =>
          if e == SaslSuccess {
            authed := true;
            Enter(Connecting, trouble);
          } else {
            Close();
          }
        case VerifyingKey =>
          if e == DbResult(true) {
            FinishAuthentication(trouble);
          } else {
            Close();
          }
        case AuthorizingKey => Close();
        case Authenticated =>
        case Disconnected =>
      }
    }
  }
}
