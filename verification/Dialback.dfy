/** Server dialback (section 2 of XEP-0220). The sending server registers a request and sends a key; the
    receiving server relays the key to the authoritative server, here the sender's own, for verification. */
module Dialback {
  import opened Options
  import opened Text

  /** Keyed hashing, and a digest of the secret, both printed as hexadecimal. */
  datatype Hashing = Hashing(mac: (string, string) -> string, digest: string -> string)

  function DbKey(h: Hashing, secret: string, sender: string, target: string, streamID: string): string {
    h.mac(h.digest(secret), target + " " + sender + " " + streamID)
  }

  type KV = map<string, string>

  function DbReqKey(streamID: string): string { "db://" + streamID }

  function DbReqVal(sender: string, target: string): string { sender + " " + target }

  function Register(kv: KV, sender: string, target: string, streamID: string): KV {
    kv[DbReqKey(streamID) := DbReqVal(sender, target)]
  }

  function Unregister(kv: KV, streamID: string): KV { kv - {DbReqKey(streamID)} }

  /** The words of a text, as Sscanf with two %s verbs reads them. */
  function Words(ss: seq<string>): seq<string> {
    if ss == [] then [] else (if ss[0] == "" then [] else [ss[0]]) + Words(ss[1..])
  }

  function Word(ws: seq<string>, i: nat): string { if i < |ws| then ws[i] else "" }

  predicate IsRequestOn(kv: KV, sender: string, target: string, streamID: string) {
    && DbReqKey(streamID) in kv && kv[DbReqKey(streamID)] != ""
    && var ws := Words(Split(kv[DbReqKey(streamID)], ' '));
       Word(ws, 0) == sender && Word(ws, 1) == target
  }

  predicate Domain(d: string) { d != "" && ' ' !in d }

  lemma {:induction false} WordsOfValue(sender: string, target: string)
    requires Domain(sender) && Domain(target)
    ensures Words(Split(DbReqVal(sender, target), ' ')) == [sender, target]
  {
    assert DbReqVal(sender, target) == sender + [' '] + target;
    SplitHead(sender, target, ' ');
    SplitNone(target, ' ');
    assert [target][1..] == [] && ([sender] + [target])[1..] == [target];
    assert Words([target]) == [target];
    assert Words([sender] + [target]) == [sender] + Words([target]);
  }

  /** What was registered is what is found: for space-free domains, the request of a stream is on exactly
      for the pair it was registered with. */
  lemma RegisteredIsOn(kv: KV, a: string, b: string, streamID: string, sender: string, target: string)
    requires Domain(a) && Domain(b)
    ensures IsRequestOn(Register(kv, a, b, streamID), sender, target, streamID) <==> sender == a && target == b
  {
    WordsOfValue(a, b);
  }

  lemma FirstWord(a: string, rest: string, a': string, rest': string)
    requires ' ' !in a && ' ' !in a' && a + " " + rest == a' + " " + rest'
    ensures a == a' && rest == rest'
  {
    SplitHead(a, rest, ' ');
    SplitHead(a', rest', ' ');
    assert ([a] + Split(rest, ' '))[0] == a && ([a'] + Split(rest', ' '))[0] == a';
    assert (a + " " + rest)[|a| + 1..] == rest && (a' + " " + rest')[|a'| + 1..] == rest';
  }

  /** Under a keyed hash that tells texts apart, a key is good for one pair of domains and one stream only. */
  lemma KeyIsForOneRequest(h: Hashing, secret: string, a: string, b: string, id: string, a': string, b': string,
                           id': string)
    requires Domain(a) && Domain(b) && Domain(a') && Domain(b')
    requires forall k, m, m' :: h.mac(k, m) == h.mac(k, m') ==> m == m'
    ensures DbKey(h, secret, a, b, id) == DbKey(h, secret, a', b', id') <==> a == a' && b == b' && id == id'
  {
    if DbKey(h, secret, a, b, id) == DbKey(h, secret, a', b', id') {
      var t, t' := b + " " + a + " " + id, b' + " " + a' + " " + id';
      assert t == b + " " + (a + " " + id) && t' == b' + " " + (a' + " " + id');
      assert h.mac(h.digest(secret), t) == h.mac(h.digest(secret), t');
      FirstWord(b, a + " " + id, b', a' + " " + id');
      FirstWord(a, id, a', id');
    }
  }

  // ---------------------------------------------------------------------------------------------
  // Elements and handlers
  // ---------------------------------------------------------------------------------------------

  /** The db:result and db:verify elements. */
  datatype Element =
    | Result(from: string, to: string, key: string)
    | Verify(from: string, to: string, id: string, key: string)

  datatype Answer = Valid | Invalid | ItemNotFound

  function OutgoingRegister(kv: KV, sender: string, target: string, streamID: string): KV {
    Register(kv, target, sender, streamID)
  }

  /** What the receiving server relays over its dialback stream. */
  function Relay(r: Element, streamID: string): Element
    requires r.Result?
  {
    Verify(r.to, r.from, streamID, r.key)
  }

  predicate Accepts(h: Hashing, secret: string, kv: KV, v: Element)
    requires v.Verify?
  {
    IsRequestOn(kv, v.from, v.to, v.id) && v.key == DbKey(h, secret, v.from, v.to, v.id)
  }

  lemma StartedIsOn(kv: KV, sender: string, target: string, streamID: string)
    requires Domain(sender) && Domain(target)
    ensures forall a: string, b: string ::
              IsRequestOn(OutgoingRegister(kv, sender, target, streamID), a, b, streamID) <==>
              a == target && b == sender
  {
    forall a: string, b: string
      ensures IsRequestOn(OutgoingRegister(kv, sender, target, streamID), a, b, streamID) <==>
              a == target && b == sender
    {
      RegisteredIsOn(kv, target, sender, streamID, a, b);
    }
  }

  /** The authoritative server's store and its verification handler. */
  class Authority {
    const h: Hashing
    const secret: string
    const isLocal: string -> bool
    var kv: KV

    constructor (h: Hashing, secret: string, isLocal: string -> bool)
      ensures this.h == h && this.secret == secret && this.isLocal == isLocal && kv == map[]
    {
      this.h, this.secret, this.isLocal, kv := h, secret, isLocal, map[];
    }

    /** An outgoing stream reaches the dialback branch: the request is registered and the key sent. Relayed
        to this authority, that very element passes, and no other pair of domains does under that id. */
    method StartDialback(sender: string, target: string, streamID: string) returns (r: Element)
      modifies this
      ensures kv == OutgoingRegister(old(kv), sender, target, streamID)
      ensures r == Result(sender, target, h.mac(h.digest(secret), sender + " " + target + " " + streamID))
      ensures Domain(sender) && Domain(target) ==> Accepts(h, secret, kv, Relay(r, streamID))
      ensures Domain(sender) && Domain(target) ==>
                forall v: Element :: v.Verify? && v.id == streamID && Accepts(h, secret, kv, v) ==>
                    v == Relay(r, streamID)
    {
      if Domain(sender) && Domain(target) { StartedIsOn(kv, sender, target, streamID); }
      kv := kv[DbReqKey(streamID) := DbReqVal(target, sender)];
      r := Result(sender, target, DbKey(h, secret, target, sender, streamID));
    }

    /** Valid exactly for a registered request with the right key, and a valid answer uses the
        registration up. */
    method VerifyDialbackKey(v: Element) returns (a: Answer)
      requires v.Verify?
      modifies this
      ensures a == if !isLocal(v.to) then ItemNotFound else if Accepts(h, secret, old(kv), v) then Valid else Invalid
      ensures kv == if a == Valid then Unregister(old(kv), v.id) else old(kv)
    {
      if !isLocal(v.to) {
        return ItemNotFound;
      }
      var on := IsRequestOn(kv, v.from, v.to, v.id);
      var expected := DbKey(h, secret, v.from, v.to, v.id);
      if on && expected == v.key {
        kv := kv - {DbReqKey(v.id)};
        a := Valid;
      } else {
        a := Invalid;
      }
    }
  }

  // ---------------------------------------------------------------------------------------------
  // The receiving stream
  // ---------------------------------------------------------------------------------------------

  datatype Phase = Connecting | Connected | AuthorizingKey | Disconnected

  /** A received key element, and the stream id under which it is being verified. */
  datatype Question = Question(result: Element, streamID: string)

  /** `sender` is the domain that the last stream header named, for which the stream speaks; `vouched` records
      the domain of the key element that authorised it, `certified` the one whose certificate authenticated it. */
  datatype In = In(phase: Phase, secured: bool, authed: bool, authorized: bool, sender: string, streamID: string,
                   asked: Option<Question>, vouched: Option<string>, certified: Option<string>)

  /** The DNS names of each of the peer's certificates. */
  type Certificates = seq<seq<string>>

  predicate Names(certs: Certificates, domain: string) {
    exists c :: c in certs && domain in c
  }

  datatype InElement =
    | StartTLS(goodNamespace: bool)
    | Auth(sasl: bool, external: bool, certs: Certificates, limited: bool)
    | DbResult(to: string, key: string, dialed: bool)
    | DbVerify
    | Stanza
    | Header
    | Other

  /** `from` is the element's own attribute, `newID` the id that a restarted session takes. The rate limiter is
      set before a valid answer or a matching certificate counts, and then it may fail. */
  datatype InEvent =
    | Receive(elem: InElement, from: string, newID: string)
    | KeyAnswer(valid: bool, limiterFails: bool)
    | SessionError

  function InRestart(s: In, newID: string): In { s.(phase := Connecting, streamID := newID) }

  function InClose(s: In): In { s.(phase := Disconnected) }

  /** `served` are the domains of the receiving server. */
  function OnConnected(served: string -> bool, s: In, e: InElement, from: string, newID: string): In {
    if !s.secured then
      (if e == StartTLS(true) then InRestart(s.(secured := true), newID) else InClose(s))
    else if e.Auth? && !s.authed then
      (if !e.sasl then InClose(s)
       else if e.external && Names(e.certs, s.sender) && !e.limited
       then InRestart(s.(authed := true, certified := Some(s.sender)), newID)
       else s)
    else if e.DbResult? && !s.authorized then
      (if served(e.to) && e.dialed
       then s.(phase := AuthorizingKey, asked := Some(Question(Result(from, e.to, e.key), s.streamID))) else s)
    else if e.DbVerify? || e.Stanza? then s
    else if s.authed || s.authorized then InClose(s)
    else s
  }

  function InNext(served: string -> bool, s: In, ev: InEvent): In {
    match ev
    case Receive(e, from, newID) =>
      (match s.phase
       case Connecting => s.(phase := Connected, sender := from)
       case Connected => OnConnected(served, s, e, from, newID)
       case _ => s)
    case KeyAnswer(valid, limiterFails) =>
      if s.asked.None? then s
      else if valid && limiterFails then s.(asked := None)
      else if valid then s.(phase := Connected, asked := None, authorized := true,
          vouched := Some(s.asked.value.result.from))
      else s.(phase := Connected, asked := None)
    case SessionError => InClose(s)
  }

  function Fresh(directTLS: bool, streamID: string): In {
    In(Connecting, directTLS, false, false, "", streamID, None, None, None)
  }

  /** A question under way is for the stream's own id, and nothing but the stream's end can happen until it
      is answered; keys are asked about, and streams authorised, only when secured. */
  predicate InInv(s: In) {
    && (s.asked.Some? ==>
          && s.asked.value.streamID == s.streamID && s.asked.value.result.Result? && s.secured
          && (s.phase.AuthorizingKey? || s.phase.Disconnected?))
    && (s.authorized ==> s.secured && s.asked.None?) && (s.authorized <==> s.vouched.Some?)
    && (s.authed ==> s.secured) && (s.authed <==> s.certified.Some?)
  }

  lemma InStepKeeps(served: string -> bool, s: In, ev: InEvent)
    requires InInv(s)
    ensures InInv(InNext(served, s, ev))
    ensures !s.authorized && InNext(served, s, ev).authorized ==> ev == KeyAnswer(true, false) && s.asked.Some?
    ensures s.asked.Some? && !ev.KeyAnswer? ==> InNext(served, s, ev).asked == s.asked
  {
  }

  datatype Trust = Security | Authentication | Authorisation

  predicate Has(g: Trust, s: In) {
    match g
    case Security => s.secured
    case Authentication => s.authed
    case Authorisation => s.authorized
  }

  /** The event that gives a stream its security (a good STARTTLS), its authentication (SASL EXTERNAL under a
      certificate that names the sender) or its authorisation (a valid answer about its key). */
  predicate Gains(g: Trust, s: In, ev: InEvent) {
    !Has(g, s) &&
    match g
    case Security => ev.Receive? && s.phase == Connected && ev.elem == StartTLS(true)
    case Authentication =>
      && ev.Receive? && s.phase == Connected && s.secured && ev.elem.Auth? && ev.elem.sasl && ev.elem.external
      && !ev.elem.limited && exists c :: c in ev.elem.certs && s.sender in c
    case Authorisation => ev == KeyAnswer(true, false) && s.asked.Some?
  }

  /** Each is gained by exactly that event, and none is ever lost. */
  lemma StepGains(served: string -> bool, s: In, ev: InEvent, g: Trust)
    requires InInv(s)
    ensures Has(g, InNext(served, s, ev)) <==> Has(g, s) || Gains(g, s, ev)
    ensures InNext(served, s, ev).certified == if Gains(Authentication, s, ev) then Some(s.sender) else s.certified
  {
  }

  /** A stanza goes to the element hook and, unless that halts it, to its recipient. */
  predicate Processed(s: In, ev: InEvent) {
    ev.Receive? && ev.elem == Stanza && s.phase == Connected && s.secured && (s.authed || s.authorized)
  }

  /** What ends a stream: anything but STARTTLS before it is secured, an authentication outside the SASL namespace,
      and, once it is trusted, whatever is no stanza and nothing it can still gain from. */
  predicate Offends(s: In, e: InElement) {
    s.phase == Connected &&
    if !s.secured then e != StartTLS(true)
    else
      || (e.Auth? && !s.authed && !e.sasl)
      || (e.Auth? && s.authed)
      || (e.DbResult? && s.authorized)
      || ((e.StartTLS? || e == Header || e == Other) && (s.authed || s.authorized))
  }

  predicate Enters(s: In, s': In, p: Phase) { s.phase != p && s'.phase == p }

  /** A stream enters each phase for one reason. A question is put under the stream's own id and for exactly the
      domains and the key of the element that was taken up. */
  lemma StepMoves(served: string -> bool, s: In, ev: InEvent)
    requires InInv(s)
    ensures var s' := InNext(served, s, ev);
            && (Enters(s, s', Connecting) <==>
                  s.phase == Connected && (Gains(Security, s, ev) || Gains(Authentication, s, ev)))
            && (Enters(s, s', Connected) <==>
                  || (ev.Receive? && s.phase == Connecting)
                  || (ev.KeyAnswer? && s.asked.Some? && !(ev.valid && ev.limiterFails)))
            && (Enters(s, s', AuthorizingKey) <==> ev.Receive? && TakesUp(served, s, ev.elem))
            && (Enters(s, s', Disconnected) <==>
                  s.phase != Disconnected && (ev == SessionError || (ev.Receive? && Offends(s, ev.elem))))
            && s'.sender == (if ev.Receive? && s.phase == Connecting then ev.from else s.sender)
            && s'.streamID == (if Enters(s, s', Connecting) then ev.newID else s.streamID)
            && s'.asked == if ev.Receive? && TakesUp(served, s, ev.elem)
                           then Some(Question(Result(ev.from, ev.elem.to, ev.elem.key), s.streamID))
                           else if ev.KeyAnswer? then None else s.asked
  {
  }

  class InS2S {
    const served: string -> bool
    var phase: Phase
    var secured: bool
    var authed: bool
    var authorized: bool
    var sender: string
    var streamID: string
    var asked: Option<Question>
    ghost var vouched: Option<string>
    ghost var certified: Option<string>

    ghost function St(): In
      reads this
    {
      In(phase, secured, authed, authorized, sender, streamID, asked, vouched, certified)
    }

    constructor (served: string -> bool, directTLS: bool, streamID: string)
      ensures this.served == served && St() == Fresh(directTLS, streamID) && InInv(St())
    {
      this.served := served;
      phase, secured, authed, authorized := Connecting, directTLS, false, false;
      sender, this.streamID, asked, vouched, certified := "", streamID, None, None, None;
    }

    method CloseStream()
      modifies this`phase
      ensures St() == InClose(old(St()))
    {
      phase := Disconnected;
    }

    method RestartSession(newID: string)
      modifies this`phase, this`streamID
      ensures St() == InRestart(old(St()), newID)
    {
      streamID := newID;
      phase := Connecting;
    }

    /** An element never authorises, and never touches a question under way. It authenticates exactly under a
        certificate that names the sender, and a stanza is processed exactly for a trusted peer. */
    method HandleElement(e: InElement, from: string, newID: string) returns (processed: bool)
      requires InInv(St())
      modifies this
      ensures St() == InNext(served, old(St()), Receive(e, from, newID)) && InInv(St())
      ensures authorized == old(authorized)
      ensures old(asked).Some? ==> asked == old(asked) && streamID == old(streamID)
      ensures authed && !old(authed) <==>
              && old(phase) == Connected && old(secured) && !old(authed)
              && e.Auth? && e.sasl && e.external && Names(e.certs, old(sender)) && !e.limited
      ensures secured && !old(secured) <==> old(phase) == Connected && !old(secured) && e == StartTLS(true)
      ensures processed <==>
              old(phase) == Connected && old(secured) && (old(authed) || old(authorized)) && e == Stanza
    {
      InStepKeeps(served, St(), Receive(e, from, newID));
      StepGains(served, St(), Receive(e, from, newID), Security);
      StepGains(served, St(), Receive(e, from, newID), Authentication);
      processed := false;
      match phase {
        case Connecting => phase, sender := Connected, from;
        case Connected => processed := HandleConnected(e, from, newID);
        case _ =>
      }
    }

    method Named(certs: Certificates) returns (named: bool)
      ensures named <==> Names(certs, sender)
    {
      for i := 0 to |certs|
        invariant forall k :: 0 <= k < i ==> sender !in certs[k]
      {
        for j := 0 to |certs[i]|
          invariant sender !in certs[i][..j]
        {
          if certs[i][j] == sender {
            assert certs[i] in certs && sender in certs[i];
            return true;
          }
        }
      }
      named := false;
    }

    method HandleConnected(e: InElement, from: string, newID: string) returns (processed: bool)
      modifies this
      ensures St() == OnConnected(served, old(St()), e, from, newID)
      ensures processed <==> old(secured) && (old(authed) || old(authorized)) && e == Stanza
    {
      processed := false;
      if !secured {
        if e != StartTLS(true) {
          CloseStream();
          return;
        }
        secured := true;
        RestartSession(newID);
        return;
      }
      match e {
        case Auth(sasl, external, certs, limited) =>
          if !authed {
            if !sasl {
              CloseStream();
              return;
            }
            if !external {
              return;
            }
            var named := Named(certs);
            if named && !limited {
              authed, certified := true, Some(sender);
              RestartSession(newID);
            }
            return;
          }
        case DbResult(to, key, dialed) =>
          if !authorized {
            AuthorizeDialbackKey(Result(from, to, key), dialed);
            return;
          }
        case DbVerify => return;
        case _ =>
      }
      if authed || authorized {
        if e.Stanza? {
          return true;
        }
        CloseStream();
      }
    }

    // The key is handed to a dialback stream to the sender, under this stream's id.
    method AuthorizeDialbackKey(r: Element, dialed: bool)
      requires r.Result?
      modifies this`phase, this`asked
      ensures St() == if !served(r.to) || !dialed then old(St())
                      else old(St()).(phase := AuthorizingKey, asked := Some(Question(r, streamID)))
    {
      if !served(r.to) || !dialed {
        return;
      }
      asked := Some(Question(r, streamID));
      phase := AuthorizingKey;
    }

    method HandleDialbackResult(valid: bool, limiterFails: bool)
      requires InInv(St()) && asked.Some?
      modifies this
      ensures St() == InNext(served, old(St()), KeyAnswer(valid, limiterFails)) && InInv(St())
      ensures authorized <==> old(authorized) || (valid && !limiterFails)
    {
      InStepKeeps(served, St(), KeyAnswer(valid, limiterFails));
      ghost var from := asked.value.result.from;
      asked := None;
      if valid {
        if limiterFails {
          return;
        }
        authorized, vouched := true, Some(from);
      }
      phase := Connected;
    }
  }

  /** The whole exchange. The key and request that an outgoing stream registers are exactly what its own
      server expects when the peer relays them, and the peer's stream is then authorised; the same relay
      does not pass twice. */
  method Exchange(authority: Authority, stream: InS2S, sender: string, target: string) returns (second: Answer)
    requires Domain(sender) && Domain(target) && authority.isLocal(sender) && stream.served(target)
    requires InInv(stream.St()) && stream.phase.Connected? && stream.secured && !stream.authorized
    modifies authority, stream
    ensures stream.authorized && second == Invalid
    ensures authority.kv == old(authority.kv) - {DbReqKey(old(stream.streamID))}
  {
    var r := authority.StartDialback(sender, target, stream.streamID);
    var _ := stream.HandleElement(DbResult(r.to, r.key, true), r.from, "");
    var relayed := Relay(stream.asked.value.result, stream.asked.value.streamID);
    var first := authority.VerifyDialbackKey(relayed);
    stream.HandleDialbackResult(first == Valid, false);
    second := authority.VerifyDialbackKey(relayed);
  }

  // ---------------------------------------------------------------------------------------------
  // Any number of receiving streams around one authority
  // ---------------------------------------------------------------------------------------------

  /** The authority's hashing, secret and domains, and the domains of the receiving servers. */
  datatype Env = Env(h: Hashing, secret: string, isLocal: string -> bool, served: string -> bool)

  /** A receiving stream, and the authority's answer on its way to it. */
  datatype Node = Node(stream: In, reply: Option<bool>)

  datatype System = System(kv: KV, nodes: map<nat, Node>)

  datatype Step =
    | DoRegister(sender: string, target: string, streamID: string)          // by an outgoing stream of the authority
    | DoVerify(from: string, to: string, id: string, key: string)           // a question from anywhere else
    | DoReceive(n: nat, elem: InElement, from: string, newID: string)
    | DoError(n: nat)
    | DoAnswer(n: nat)                                                       // the authority answers stream n
    | DoDeliver(n: nat, limiterFails: bool)                                  // the answer reaches stream n

  predicate Passes(env: Env, kv: KV, v: Element)
    requires v.Verify?
  {
    env.isLocal(v.to) && Accepts(env.h, env.secret, kv, v)
  }

  function AfterVerify(env: Env, kv: KV, v: Element): KV
    requires v.Verify?
  {
    if Passes(env, kv, v) then Unregister(kv, v.id) else kv
  }

  /** Stream n waits for the authority. */
  predicate Asking(s: System, n: nat) {
    n in s.nodes && s.nodes[n].stream.asked.Some? && s.nodes[n].stream.asked.value.result.Result? &&
        s.nodes[n].reply.None?
  }

  function Asked(s: System, n: nat): Question
    requires Asking(s, n)
  {
    s.nodes[n].stream.asked.value
  }

  function Relayed(q: Question): (v: Element)
    requires q.result.Result?
    ensures v.Verify? && v.id == q.streamID
  {
    Relay(q.result, q.streamID)
  }

  function StreamNext(env: Env, s: System, n: nat, ev: InEvent): System
    requires n in s.nodes
  {
    s.(nodes := s.nodes[n := s.nodes[n].(stream := InNext(env.served, s.nodes[n].stream, ev))])
  }

  function SysNext(env: Env, s: System, step: Step): System {
    match step
    case DoRegister(sender, target, id) => s.(kv := OutgoingRegister(s.kv, sender, target, id))
    case DoVerify(from, to, id, key) => s.(kv := AfterVerify(env, s.kv, Verify(from, to, id, key)))
    case DoReceive(n, e, from, newID) =>
      if n !in s.nodes then s else StreamNext(env, s, n, Receive(e, from, newID))
    case DoError(n) =>
      if n !in s.nodes then s else StreamNext(env, s, n, SessionError)
    case DoAnswer(n) =>
      if !Asking(s, n) then s
      else
        var v := Relayed(Asked(s, n));
        System(AfterVerify(env, s.kv, v), s.nodes[n := s.nodes[n].(reply := Some(Passes(env, s.kv, v)))])
    case DoDeliver(n, limiterFails) =>
      if n !in s.nodes || s.nodes[n].reply.None? then s
      else
        var node := s.nodes[n];
        var stream := InNext(env.served, node.stream, KeyAnswer(node.reply.value, limiterFails));
        s.(nodes := s.nodes[n := Node(stream, None)])
  }

  function SysRun(env: Env, s: System, steps: seq<Step>): System {
    if steps == [] then s else SysNext(env, SysRun(env, s, steps[..|steps| - 1]), steps[|steps| - 1])
  }

  ghost predicate SysInit(s: System) {
    && s.kv == map[]
    && (forall n :: n in s.nodes ==> s.nodes[n].reply == None)
    && (forall n :: n in s.nodes ==> exists tls, id :: s.nodes[n].stream == Fresh(tls, id))
  }

  ghost predicate SysInv(s: System) {
    forall n :: n in s.nodes ==> InInv(s.nodes[n].stream) && (s.nodes[n].reply.Some? ==> s.nodes[n].stream.asked.Some?)
  }

  lemma SysStepKeeps(env: Env, s: System, step: Step)
    requires SysInv(s)
    ensures SysInv(SysNext(env, s, step))
  {
    match step
    case DoReceive(n, e, from, newID) =>
      if n in s.nodes { InStepKeeps(env.served, s.nodes[n].stream, Receive(e, from, newID)); }
    case DoError(n) => if n in s.nodes { InStepKeeps(env.served, s.nodes[n].stream, SessionError); }
    case DoDeliver(n, limiterFails) =>
      if n in s.nodes && s.nodes[n].reply.Some? {
        InStepKeeps(env.served, s.nodes[n].stream, KeyAnswer(s.nodes[n].reply.value, limiterFails));
      }
    case _ =>
  }

  lemma {:induction false} SysRunKeeps(env: Env, s: System, steps: seq<Step>)
    requires SysInit(s)
    ensures SysInv(SysRun(env, s, steps))
  {
    if steps != [] {
      SysRunKeeps(env, s, steps[..|steps| - 1]);
      SysStepKeeps(env, SysRun(env, s, steps[..|steps| - 1]), steps[|steps| - 1]);
    }
  }

  // ---------------------------------------------------------------------------------------------
  // Every authorised stream is paid for by a registration
  // ---------------------------------------------------------------------------------------------

  lemma SameKeySameStream(a: string, b: string)
    ensures DbReqKey(a) == DbReqKey(b) <==> a == b
  {
    assert DbReqKey(a)[|"db://"|..] == a && DbReqKey(b)[|"db://"|..] == b;
  }

  /** The authority's answer that step j gives to stream n is valid. */
  predicate ValidAnswerAt(env: Env, s: System, steps: seq<Step>, n: nat, j: nat) {
    && j < |steps| && steps[j] == DoAnswer(n)
    && var before := SysRun(env, s, steps[..j]);
       Asking(before, n) && Passes(env, before.kv, Relayed(Asked(before, n)))
  }

  predicate Vouched(s: System, n: nat) {
    n in s.nodes && (s.nodes[n].stream.authorized || s.nodes[n].reply == Some(true))
  }

  /** One step vouches for a stream only by a valid answer. */
  lemma VouchedByAnswer(env: Env, s: System, step: Step, n: nat)
    requires SysInv(s) && !Vouched(s, n) && Vouched(SysNext(env, s, step), n)
    ensures step == DoAnswer(n) && Asking(s, n) && Passes(env, s.kv, Relayed(Asked(s, n)))
  {
    match step
    case DoReceive(m, e, from, newID) =>
      if m in s.nodes { InStepKeeps(env.served, s.nodes[m].stream, Receive(e, from, newID)); }
    case DoDeliver(m, limiterFails) =>
      if m in s.nodes && s.nodes[m].reply.Some? {
        InStepKeeps(env.served, s.nodes[m].stream, KeyAnswer(s.nodes[m].reply.value, limiterFails));
      }
    case _ =>
  }

  /** Stream n is authorised, or about to be, by a key element from domain d. */
  predicate VouchedAs(s: System, n: nat, d: string) {
    n in s.nodes &&
    var st := s.nodes[n].stream;
    || (st.authorized && st.vouched == Some(d))
    || (s.nodes[n].reply == Some(true) && st.asked.Some? && st.asked.value.result.Result? &&
        st.asked.value.result.from == d)
  }

  lemma VouchedAsStays(env: Env, s: System, step: Step, n: nat, d: string)
    requires SysInv(s) && VouchedAs(s, n, d) && Vouched(SysNext(env, s, step), n)
    ensures VouchedAs(SysNext(env, s, step), n, d)
  {
    match step
    case DoReceive(m, e, from, newID) =>
      if m in s.nodes { InStepKeeps(env.served, s.nodes[m].stream, Receive(e, from, newID)); }
    case _ =>
  }

  /** The domain of the key element in the question that step j answers. */
  function AnsweredDomain(env: Env, s: System, steps: seq<Step>, n: nat, j: nat): string
    requires ValidAnswerAt(env, s, steps, n, j)
  {
    Asked(SysRun(env, s, steps[..j]), n).result.from
  }

  lemma {:induction false} AnsweredBefore(env: Env, s: System, steps: seq<Step>, n: nat) returns (j: nat)
    requires SysInit(s) && Vouched(SysRun(env, s, steps), n)
    ensures ValidAnswerAt(env, s, steps, n, j)
    ensures VouchedAs(SysRun(env, s, steps), n, AnsweredDomain(env, s, steps, n, j))
  {
    var k := |steps| - 1;
    var front := steps[..k];
    var before := SysRun(env, s, front);
    SysRunKeeps(env, s, front);
    if Vouched(before, n) {
      j := AnsweredBefore(env, s, front, n);
      assert front[..j] == steps[..j];
      VouchedAsStays(env, before, steps[k], n, AnsweredDomain(env, s, front, n, j));
    } else {
      j := k;
      VouchedByAnswer(env, before, steps[k], n);
    }
  }

  predicate OpenAt(env: Env, s: System, steps: seq<Step>, id: string, k: nat)
    requires k <= |steps|
  {
    DbReqKey(id) in SysRun(env, s, steps[..k]).kv
  }

  /** Step i registered a request for that stream, and it has stood since. */
  ghost predicate StandsSince(env: Env, s: System, steps: seq<Step>, sender: string, target: string, id: string,
                              i: nat)
  {
    && i < |steps| && steps[i] == DoRegister(sender, target, id)
    && forall k :: i < k <= |steps| ==> OpenAt(env, s, steps, id, k)
  }

  /** A step leaves the request of a stream alone, takes it away, or registers it anew. */
  lemma RequestFate(env: Env, s: System, step: Step, id: string)
    ensures var kv, kv' := s.kv, SysNext(env, s, step).kv;
            DbReqKey(id) in kv' ==>
              || (step.DoRegister? && step.streamID == id && kv'[DbReqKey(id)] == DbReqVal(step.target, step.sender))
              || (DbReqKey(id) in kv && kv'[DbReqKey(id)] == kv[DbReqKey(id)])
  {
    if step.DoRegister? { SameKeySameStream(step.streamID, id); }
  }

  lemma {:induction false} RegisteredBefore(env: Env, s: System, steps: seq<Step>, id: string)
    returns (sender: string, target: string, i: nat)
    requires SysInit(s) && DbReqKey(id) in SysRun(env, s, steps).kv
    ensures StandsSince(env, s, steps, sender, target, id, i)
    ensures SysRun(env, s, steps).kv[DbReqKey(id)] == DbReqVal(target, sender)
  {
    var n := |steps| - 1;
    var front, last := steps[..n], steps[n];
    RequestFate(env, SysRun(env, s, front), last, id);
    assert steps[..|steps|] == steps;
    if last.DoRegister? && last.streamID == id &&
        SysRun(env, s, steps).kv[DbReqKey(id)] == DbReqVal(last.target, last.sender) {
      sender, target, i := last.sender, last.target, n;
    } else {
      sender, target, i := RegisteredBefore(env, s, front, id);
      forall k | i < k <= |steps| ensures OpenAt(env, s, steps, id, k) {
        if k <= n {
          assert front[..k] == steps[..k];
          assert OpenAt(env, s, front, id, k);
        }
      }
    }
  }

  ghost predicate DomainsOk(steps: seq<Step>) {
    forall i :: 0 <= i < |steps| && steps[i].DoRegister? ==> Domain(steps[i].sender) && Domain(steps[i].target)
  }

  /** The registration made by step i was consumed by the valid answer of step j to stream n, which asked, under
      its own id, for exactly the pair of domains of the registration and with the key that belongs to them. */
  ghost predicate PaidFor(env: Env, s: System, steps: seq<Step>, n: nat, i: nat, j: nat) {
    && i < j && ValidAnswerAt(env, s, steps, n, j)
    && var before, after := SysRun(env, s, steps[..j]), SysRun(env, s, steps[..j + 1]);
       var q := Asked(before, n);
       && q.streamID == before.nodes[n].stream.streamID
       && StandsSince(env, s, steps[..j], q.result.from, q.result.to, q.streamID, i)
       && q.result.key == DbKey(env.h, env.secret, q.result.to, q.result.from, q.streamID)
       && after.kv == before.kv - {DbReqKey(q.streamID)} && DbReqKey(q.streamID) in before.kv
  }

  lemma AnswerIsPaid(env: Env, s: System, steps: seq<Step>, n: nat, j: nat) returns (i: nat)
    requires SysInit(s) && DomainsOk(steps) && ValidAnswerAt(env, s, steps, n, j)
    ensures PaidFor(env, s, steps, n, i, j)
  {
    var front := steps[..j];
    var before := SysRun(env, s, front);
    SysRunKeeps(env, s, front);
    var q := Asked(before, n);
    var sender, target;
    sender, target, i := RegisteredBefore(env, s, front, q.streamID);
    assert steps[i].DoRegister?;
    WordsOfValue(target, sender);
    assert steps[..j + 1][..j] == front && steps[..j + 1][j] == DoAnswer(n);
  }

  /** In every interleaved run, every stream that is authorised was vouched for by a valid answer that
      consumed a registration made before it, by the domain that the key element named. */
  lemma AuthorisedIsPaidFor(env: Env, s: System, steps: seq<Step>, n: nat) returns (i: nat, j: nat)
    requires SysInit(s) && DomainsOk(steps)
    requires n in SysRun(env, s, steps).nodes && SysRun(env, s, steps).nodes[n].stream.authorized
    ensures PaidFor(env, s, steps, n, i, j)
    ensures SysRun(env, s, steps).nodes[n].stream.vouched == Some(steps[i].sender)
  {
    SysRunKeeps(env, s, steps);
    j := AnsweredBefore(env, s, steps, n);
    i := AnswerIsPaid(env, s, steps, n, j);
  }

  // ---------------------------------------------------------------------------------------------
  // The domain vouched for and the domain spoken for
  // ---------------------------------------------------------------------------------------------

  /** What is asked about, and what was vouched for, is the domain that the stream speaks for. */
  predicate Matching(s: In) {
    && (s.asked.Some? ==> s.asked.value.result.Result? && s.asked.value.result.from == s.sender)
    && (s.authorized ==> s.vouched == Some(s.sender))
  }

  predicate TakesUp(served: string -> bool, s: In, e: InElement) {
    s.phase.Connected? && s.secured && !s.authorized && e.DbResult? && served(e.to) && e.dialed
  }

  /** What the source does not test: that a key element which is taken up names the sender of the header, and
      that a header after a restart names the domain that was vouched for. */
  predicate NamesSender(served: string -> bool, s: In, ev: InEvent) {
    ev.Receive? ==>
      && (TakesUp(served, s, ev.elem) ==> ev.from == s.sender)
      && (s.phase.Connecting? && s.authorized ==> ev.from == s.sender)
  }

  /** A stream whose domains match keeps them matching if and only if the next element names its sender. */
  lemma MatchingKeptExactly(served: string -> bool, s: In, ev: InEvent)
    requires InInv(s) && Matching(s)
    ensures Matching(InNext(served, s, ev)) <==> NamesSender(served, s, ev)
  {
  }

  /** The event that a step is for stream n, if it is one. */
  function EventOf(s: System, step: Step, n: nat): Option<InEvent> {
    if n !in s.nodes then None
    else
      match step
      case DoReceive(m, e, from, newID) => if m == n then Some(Receive(e, from, newID)) else None
      case DoError(m) => if m == n then Some(SessionError) else None
      case DoDeliver(m, limiterFails) =>
        if m == n && s.nodes[n].reply.Some? then Some(KeyAnswer(s.nodes[n].reply.value, limiterFails)) else None
      case _ => None
  }

  lemma EventIs(env: Env, s: System, step: Step, n: nat)
    requires n in s.nodes
    ensures n in SysNext(env, s, step).nodes
    ensures SysNext(env, s, step).nodes[n].stream ==
            match EventOf(s, step, n)
            case None => s.nodes[n].stream
            case Some(ev) => InNext(env.served, s.nodes[n].stream, ev)
  {
  }

  predicate StepNamesSender(env: Env, s: System, step: Step, n: nat) {
    n in s.nodes && EventOf(s, step, n).Some? ==> NamesSender(env.served, s.nodes[n].stream, EventOf(s, step, n).value)
  }

  predicate MatchesAt(env: Env, s: System, steps: seq<Step>, n: nat, k: nat)
    requires k <= |steps|
  {
    var at := SysRun(env, s, steps[..k]);
    n in at.nodes ==> Matching(at.nodes[n].stream)
  }

  predicate NamesAt(env: Env, s: System, steps: seq<Step>, n: nat, k: nat)
    requires k < |steps|
  {
    StepNamesSender(env, SysRun(env, s, steps[..k]), steps[k], n)
  }

  /** In a run, a stream speaks throughout for the domain that is vouched for if and only if every element in
      it names its sender. */
  lemma {:induction false} MatchesThroughout(env: Env, s: System, steps: seq<Step>, n: nat)
    requires SysInit(s) && n in s.nodes
    ensures n in SysRun(env, s, steps).nodes
    ensures (forall k :: 0 <= k <= |steps| ==> MatchesAt(env, s, steps, n, k)) <==>
            (forall k :: 0 <= k < |steps| ==> NamesAt(env, s, steps, n, k))
  {
    if steps != [] {
      MatchesThroughout(env, s, steps[..|steps| - 1], n);
      PrefixesAgree(env, s, steps, n);
      LastMatches(env, s, steps, n);
      LastDecides(env, s, steps, n);
    } else {
      assert steps[..0] == steps;
    }
  }

  lemma LastMatches(env: Env, s: System, steps: seq<Step>, n: nat)
    requires SysInit(s) && steps != [] && n in SysRun(env, s, steps[..|steps| - 1]).nodes
    ensures n in SysRun(env, s, steps).nodes
    ensures var m := |steps| - 1;
            MatchesAt(env, s, steps, n, m) ==> (MatchesAt(env, s, steps, n, m + 1) <==> NamesAt(env, s, steps, n, m))
  {
    var m := |steps| - 1;
    var before := SysRun(env, s, steps[..m]);
    SysRunKeeps(env, s, steps[..m]);
    EventIs(env, before, steps[m], n);
    assert steps[..m + 1] == steps;
    if Matching(before.nodes[n].stream) && EventOf(before, steps[m], n).Some? {
      MatchingKeptExactly(env.served, before.nodes[n].stream, EventOf(before, steps[m], n).value);
    }
  }

  lemma PrefixesAgree(env: Env, s: System, steps: seq<Step>, n: nat)
    requires steps != []
    ensures var front := steps[..|steps| - 1];
            && (forall k :: 0 <= k <= |front| ==> MatchesAt(env, s, steps, n, k) == MatchesAt(env, s, front, n, k))
            && (forall k :: 0 <= k < |front| ==> NamesAt(env, s, steps, n, k) == NamesAt(env, s, front, n, k))
  {
    var front := steps[..|steps| - 1];
    assert forall k :: 0 <= k <= |front| ==> front[..k] == steps[..k];
  }

  lemma LastDecides(env: Env, s: System, steps: seq<Step>, n: nat)
    requires steps != []
    requires var m := |steps| - 1; MatchesAt(env, s, steps, n, m) ==>
               (MatchesAt(env, s, steps, n, m + 1) <==> NamesAt(env, s, steps, n, m))
    requires var m := |steps| - 1;
             (forall k :: 0 <= k <= m ==> MatchesAt(env, s, steps, n, k)) <==>
             (forall k :: 0 <= k < m ==> NamesAt(env, s, steps, n, k))
    ensures (forall k :: 0 <= k <= |steps| ==> MatchesAt(env, s, steps, n, k)) <==>
            (forall k :: 0 <= k < |steps| ==> NamesAt(env, s, steps, n, k))
  {
  }

  /** So a stream all of whose elements name its sender, once authorised, speaks for the domain that made the
      registration which its authorisation consumed. */
  lemma SpeaksForRegistrant(env: Env, s: System, steps: seq<Step>, n: nat) returns (i: nat, j: nat)
    requires SysInit(s) && DomainsOk(steps) && n in s.nodes
    requires forall k :: 0 <= k < |steps| ==> NamesAt(env, s, steps, n, k)
    requires n in SysRun(env, s, steps).nodes && SysRun(env, s, steps).nodes[n].stream.authorized
    ensures PaidFor(env, s, steps, n, i, j)
    ensures steps[i].sender == SysRun(env, s, steps).nodes[n].stream.sender
  {
    i, j := AuthorisedIsPaidFor(env, s, steps, n);
    MatchesThroughout(env, s, steps, n);
    assert steps[..|steps|] == steps;
    assert MatchesAt(env, s, steps, n, |steps|);
  }

  /** The condition is needed: a header from one domain and a key element from another leave a stream that
      speaks for the first and was vouched for by the second. */
  lemma DomainsMayDiffer(env: Env, a: string, b: string, t: string, id: string)
    requires Domain(a) && Domain(t) && env.isLocal(a) && env.served(t)
    ensures var s := System(map[], map[0 := Node(Fresh(true, id), None)]);
            var key := DbKey(env.h, env.secret, t, a, id);
            var steps := [DoRegister(a, t, id), DoReceive(0, Header, b, ""),
                          DoReceive(0, DbResult(t, key, true), a, ""), DoAnswer(0), DoDeliver(0, false)];
            var st := SysRun(env, s, steps).nodes;
            SysInit(s) && 0 in st && st[0].stream.authorized && st[0].stream.sender == b &&
                st[0].stream.vouched == Some(a)
  {
    var s := System(map[], map[0 := Node(Fresh(true, id), None)]);
    var key := DbKey(env.h, env.secret, t, a, id);
    var steps := [DoRegister(a, t, id), DoReceive(0, Header, b, ""), DoReceive(0, DbResult(t, key, true), a, ""),
                  DoAnswer(0), DoDeliver(0, false)];
    var s1 := SysNext(env, s, steps[0]);
    var s2 := SysNext(env, s1, steps[1]);
    var s3 := SysNext(env, s2, steps[2]);
    StartedIsOn(map[], a, t, id);
    assert s3.kv == OutgoingRegister(map[], a, t, id);
    assert Asking(s3, 0) && Relayed(Asked(s3, 0)) == Verify(t, a, id, key);
    var s4 := SysNext(env, s3, steps[3]);
    FiveSteps(env, s, steps);
  }

  lemma FiveSteps(env: Env, s: System, steps: seq<Step>)
    requires |steps| == 5
    ensures SysRun(env, s, steps) ==
            SysNext(env, SysNext(env, SysNext(env, SysNext(env, SysNext(env, s, steps[0]), steps[1]), steps[2]),
                steps[3]), steps[4])
  {
    assert steps[..4][..3] == steps[..3] && steps[..3][..2] == steps[..2] && steps[..2][..1] == steps[..1] &&
        steps[..1][..0] == [];
    assert SysRun(env, s, steps[..1]) == SysNext(env, s, steps[0]);
    assert SysRun(env, s, steps[..2]) == SysNext(env, SysRun(env, s, steps[..1]), steps[1]);
    assert SysRun(env, s, steps[..3]) == SysNext(env, SysRun(env, s, steps[..2]), steps[2]);
    assert SysRun(env, s, steps[..4]) == SysNext(env, SysRun(env, s, steps[..3]), steps[3]);
  }

  // ---------------------------------------------------------------------------------------------
  // Every trusted stream has earned its trust
  // ---------------------------------------------------------------------------------------------

  /** Step i is the event by which stream n gains g. */
  predicate GainsAt(env: Env, s: System, steps: seq<Step>, n: nat, g: Trust, i: nat) {
    && i < |steps|
    && var before := SysRun(env, s, steps[..i]);
       n in before.nodes && EventOf(before, steps[i], n).Some? &&
       Gains(g, before.nodes[n].stream, EventOf(before, steps[i], n).value)
  }

  lemma LastGain(env: Env, s: System, steps: seq<Step>, n: nat, g: Trust)
    requires SysInit(s) && steps != [] && n in SysRun(env, s, steps[..|steps| - 1]).nodes
    ensures n in SysRun(env, s, steps).nodes
    ensures Has(g, SysRun(env, s, steps).nodes[n].stream) <==>
            Has(g, SysRun(env, s, steps[..|steps| - 1]).nodes[n].stream) || GainsAt(env, s, steps, n, g, |steps| - 1)
  {
    var m := |steps| - 1;
    var before := SysRun(env, s, steps[..m]);
    SysRunKeeps(env, s, steps[..m]);
    EventIs(env, before, steps[m], n);
    if EventOf(before, steps[m], n).Some? {
      StepGains(env.served, before.nodes[n].stream, EventOf(before, steps[m], n).value, g);
    }
  }

  lemma GainsInFront(env: Env, s: System, steps: seq<Step>, n: nat, g: Trust, i: nat)
    requires i + 1 < |steps|
    ensures GainsAt(env, s, steps, n, g, i) <==> GainsAt(env, s, steps[..|steps| - 1], n, g, i)
  {
    assert steps[..|steps| - 1][..i] == steps[..i];
  }

  /** In every run a stream has g if and only if it had it from the start or one step gained it. */
  lemma {:induction false} HasIffGained(env: Env, s: System, steps: seq<Step>, n: nat, g: Trust)
    requires SysInit(s) && n in s.nodes
    ensures n in SysRun(env, s, steps).nodes
    ensures Has(g, SysRun(env, s, steps).nodes[n].stream) <==>
            Has(g, s.nodes[n].stream) || exists i :: GainsAt(env, s, steps, n, g, i)
  {
    if steps != [] {
      var m := |steps| - 1;
      HasIffGained(env, s, steps[..m], n, g);
      LastGain(env, s, steps, n, g);
      forall i | 0 <= i < m ensures GainsAt(env, s, steps, n, g, i) <==> GainsAt(env, s, steps[..m], n, g, i) {
        GainsInFront(env, s, steps, n, g, i);
      }
      if i :| GainsAt(env, s, steps[..m], n, g, i) { assert GainsAt(env, s, steps, n, g, i); }
      if i :| GainsAt(env, s, steps, n, g, i) { assert i == m || GainsAt(env, s, steps[..m], n, g, i); }
    }
  }

  lemma GainedStays(env: Env, s: System, steps: seq<Step>, n: nat, g: Trust, i: nat, k: nat)
    requires SysInit(s) && n in s.nodes && GainsAt(env, s, steps, n, g, i) && i < k <= |steps|
    ensures n in SysRun(env, s, steps[..k]).nodes && Has(g, SysRun(env, s, steps[..k]).nodes[n].stream)
  {
    assert steps[..k][..i] == steps[..i];
    assert GainsAt(env, s, steps[..k], n, g, i);
    HasIffGained(env, s, steps[..k], n, g);
  }

  /** It is gained once at most. */
  lemma GainedOnce(env: Env, s: System, steps: seq<Step>, n: nat, g: Trust, i: nat, j: nat)
    requires SysInit(s) && n in s.nodes && GainsAt(env, s, steps, n, g, i) && GainsAt(env, s, steps, n, g, j)
    ensures i == j && !Has(g, s.nodes[n].stream)
  {
    HasIffGained(env, s, steps[..i], n, g);
    if i < j {
      GainedStays(env, s, steps, n, g, i, j);
    } else if j < i {
      GainedStays(env, s, steps, n, g, j, i);
    }
  }

  /** Step h is a header of stream n. */
  predicate HeaderAt(env: Env, s: System, steps: seq<Step>, n: nat, h: nat) {
    && h < |steps| && steps[h].DoReceive? && steps[h].n == n
    && var before := SysRun(env, s, steps[..h]);
       n in before.nodes && before.nodes[n].stream.phase == Connecting
  }

  /** Step h is the last header of stream n. */
  ghost predicate LastHeader(env: Env, s: System, steps: seq<Step>, n: nat, h: nat) {
    HeaderAt(env, s, steps, n, h) && forall k :: h < k < |steps| ==> !HeaderAt(env, s, steps, n, k)
  }

  predicate Headed(s: In) { s.phase == Connected || s.phase == AuthorizingKey || s.asked.Some? }

  lemma StepHeaded(served: string -> bool, s: In, ev: InEvent)
    ensures Headed(InNext(served, s, ev)) ==> Headed(s) || (s.phase == Connecting && ev.Receive?)
    ensures !(s.phase == Connecting && ev.Receive?) ==> InNext(served, s, ev).sender == s.sender
  {
  }

  /** A stream that is past its header speaks for the domain that its last header named. */
  lemma {:induction false} HeaderBefore(env: Env, s: System, steps: seq<Step>, n: nat) returns (h: nat)
    requires SysInit(s) && n in s.nodes
    requires n in SysRun(env, s, steps).nodes && Headed(SysRun(env, s, steps).nodes[n].stream)
    ensures LastHeader(env, s, steps, n, h) && steps[h].from == SysRun(env, s, steps).nodes[n].stream.sender
  {
    var m := |steps| - 1;
    var front := steps[..m];
    var before := SysRun(env, s, front);
    HasIffGained(env, s, front, n, Security);
    EventIs(env, before, steps[m], n);
    if HeaderAt(env, s, steps, n, m) {
      h := m;
    } else {
      if EventOf(before, steps[m], n).Some? {
        StepHeaded(env.served, before.nodes[n].stream, EventOf(before, steps[m], n).value);
      }
      h := HeaderBefore(env, s, front, n);
      assert front[..h] == steps[..h];
      forall k | h < k < |steps| ensures !HeaderAt(env, s, steps, n, k) {
        if k < m {
          assert front[..k] == steps[..k];
          assert !HeaderAt(env, s, front, n, k);
        }
      }
    }
  }

  /** The certificate shown at step i, by a stream whose last header was step h, names the domain of that header. */
  ghost predicate CertifiedBy(env: Env, s: System, steps: seq<Step>, n: nat, h: nat, i: nat) {
    && GainsAt(env, s, steps, n, Authentication, i) && LastHeader(env, s, steps[..i], n, h)
    && steps[i].DoReceive? && steps[i].elem.Auth? && exists c :: c in steps[i].elem.certs && steps[h].from in c
  }

  lemma {:induction false} CertifiedStays(env: Env, s: System, steps: seq<Step>, n: nat, i: nat)
    requires SysInit(s) && n in s.nodes && GainsAt(env, s, steps, n, Authentication, i)
    ensures n in SysRun(env, s, steps).nodes
    ensures SysRun(env, s, steps).nodes[n].stream.certified == Some(SysRun(env, s, steps[..i]).nodes[n].stream.sender)
  {
    var m := |steps| - 1;
    var before := SysRun(env, s, steps[..m]);
    SysRunKeeps(env, s, steps[..m]);
    HasIffGained(env, s, steps[..m], n, Authentication);
    EventIs(env, before, steps[m], n);
    if EventOf(before, steps[m], n).Some? {
      StepGains(env.served, before.nodes[n].stream, EventOf(before, steps[m], n).value, Authentication);
    }
    if i < m {
      GainsInFront(env, s, steps, n, Authentication, i);
      assert steps[..m][..i] == steps[..i];
      CertifiedStays(env, s, steps[..m], n, i);
      if GainsAt(env, s, steps, n, Authentication, m) { GainedOnce(env, s, steps, n, Authentication, i, m); }
    }
  }

  /** In every run an authenticated stream has shown, in exactly one step, a certificate for the domain that its
      last header before that step had named. */
  lemma AuthenticatedIsCertified(env: Env, s: System, steps: seq<Step>, n: nat) returns (h: nat, i: nat)
    requires SysInit(s) && n in s.nodes
    requires n in SysRun(env, s, steps).nodes && SysRun(env, s, steps).nodes[n].stream.authed
    ensures CertifiedBy(env, s, steps, n, h, i)
    ensures forall k :: GainsAt(env, s, steps, n, Authentication, k) ==> k == i
    ensures SysRun(env, s, steps).nodes[n].stream.certified == Some(steps[h].from)
  {
    HasIffGained(env, s, steps, n, Authentication);
    i :| GainsAt(env, s, steps, n, Authentication, i);
    h := HeaderBefore(env, s, steps[..i], n);
    CertifiedStays(env, s, steps, n, i);
    forall k | GainsAt(env, s, steps, n, Authentication, k) ensures k == i {
      GainedOnce(env, s, steps, n, Authentication, i, k);
    }
  }

  /** No stanza is processed for a stranger: in every run, before a stanza of stream n is processed, the stream was
      secured, and it has shown a certificate for the domain of its header or has been vouched for by an answer
      that consumed a registration. */
  lemma ProcessedIsEarned(env: Env, s: System, steps: seq<Step>, n: nat, from: string, newID: string)
    returns (h: nat, i: nat, j: nat)
    requires SysInit(s) && DomainsOk(steps) && n in s.nodes && n in SysRun(env, s, steps).nodes
    requires Processed(SysRun(env, s, steps).nodes[n].stream, Receive(Stanza, from, newID))
    ensures s.nodes[n].stream.secured || exists k :: GainsAt(env, s, steps, n, Security, k)
    ensures CertifiedBy(env, s, steps, n, h, i) || PaidFor(env, s, steps, n, i, j)
  {
    HasIffGained(env, s, steps, n, Security);
    h, j := 0, 0;
    if SysRun(env, s, steps).nodes[n].stream.authed {
      h, i := AuthenticatedIsCertified(env, s, steps, n);
    } else {
      i, j := AuthorisedIsPaidFor(env, s, steps, n);
    }
  }

  predicate SpeaksAsCertified(s: In) { s.authed ==> s.certified == Some(s.sender) }

  /** An authenticated stream goes on to speak for the certified domain if and only if the header that follows
      names it again, which the source does not test. */
  lemma CertifiedKeptExactly(served: string -> bool, s: In, ev: InEvent)
    requires InInv(s) && SpeaksAsCertified(s)
    ensures SpeaksAsCertified(InNext(served, s, ev)) <==>
            (ev.Receive? && s.phase == Connecting && s.authed ==> ev.from == s.sender)
  {
  }

  /** It happens: a certificate for a, and a second header that names b. */
  lemma CertifiedMayDiffer(env: Env, a: string, b: string, id: string)
    ensures var s := System(map[], map[0 := Node(Fresh(true, id), None)]);
            var steps := [DoReceive(0, Header, a, ""), DoReceive(0, Auth(true, true, [[a]], false), a, ""),
                          DoReceive(0, Header, b, "")];
            var st := SysRun(env, s, steps).nodes;
            SysInit(s) && 0 in st && st[0].stream.authed && st[0].stream.certified == Some(a) &&
                st[0].stream.sender == b
  {
    var s := System(map[], map[0 := Node(Fresh(true, id), None)]);
    var steps := [DoReceive(0, Header, a, ""), DoReceive(0, Auth(true, true, [[a]], false), a, ""),
                  DoReceive(0, Header, b, "")];
    var s1 := SysNext(env, s, steps[0]);
    assert [a] in [[a]] && a in [a];
    assert Names([[a]], a);
    var s2 := SysNext(env, s1, steps[1]);
    assert steps[..2][..1] == steps[..1] && steps[..1][..0] == [];
    assert SysRun(env, s, steps[..1]) == s1;
    assert SysRun(env, s, steps[..2]) == s2;
  }

  // ---------------------------------------------------------------------------------------------
  // No registration pays twice
  // ---------------------------------------------------------------------------------------------

  function Registrations(steps: seq<Step>, id: string): nat {
    if steps == [] then 0
    else
      var last := steps[|steps| - 1];
      Registrations(steps[..|steps| - 1], id) + if last.DoRegister? && last.streamID == id then 1 else 0
  }

  predicate PassesFor(env: Env, s: System, step: Step, id: string) {
    match step
    case DoVerify(from, to, id', key) => id' == id && Passes(env, s.kv, Verify(from, to, id, key))
    case DoAnswer(n) => Asking(s, n) && Asked(s, n).streamID == id && Passes(env, s.kv, Relayed(Asked(s, n)))
    case _ => false
  }

  function ValidAnswers(env: Env, s: System, steps: seq<Step>, id: string): nat {
    if steps == [] then 0
    else
      var front := steps[..|steps| - 1];
      ValidAnswers(env, s, front, id) + if PassesFor(env, SysRun(env, s, front), steps[|steps| - 1], id) then 1 else 0
  }

  function Open(s: System, id: string): nat { if DbReqKey(id) in s.kv then 1 else 0 }

  lemma StepPays(env: Env, s: System, step: Step, id: string)
    ensures (if PassesFor(env, s, step, id) then 1 else 0) + Open(SysNext(env, s, step), id) <=
            Open(s, id) + if step.DoRegister? && step.streamID == id then 1 else 0
  {
    match step
    case DoRegister(_, _, other) => SameKeySameStream(other, id);
    case _ =>
  }

  /** In every run, the valid answers for a stream id, to anybody, and the request still open do not exceed
      its registrations and what was open before. */
  lemma {:induction false} AnswersWithinRegistrations(env: Env, s: System, steps: seq<Step>, id: string)
    ensures ValidAnswers(env, s, steps, id) + Open(SysRun(env, s, steps), id) <= Registrations(steps, id) + Open(s, id)
  {
    if steps != [] {
      AnswersWithinRegistrations(env, s, steps[..|steps| - 1], id);
      StepPays(env, SysRun(env, s, steps[..|steps| - 1]), steps[|steps| - 1], id);
    }
  }
}
