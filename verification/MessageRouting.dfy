/** What becomes of a message that a client sends: routing by full address, by priority or to a remote
    server, the second attempt at the bare address, and the offline queue. */
module MessageRouting {
  import opened Sequences
  import Hooks

  datatype Address = Address(domain: string, user: string, resource: string)

  predicate IsFullWithUser(a: Address) { a.user != "" && a.resource != "" }

  function Bare(a: Address): Address { a.(resource := "") }

  datatype Resource = Resource(name: string, priority: int)

  datatype Remote = Reached | NotFound | Timeout | Broken

  /** What a routing attempt finds: whether the account exists, its resources, whether the storage
      answers and whether each resource can be handed the stanza, and the remote server. */
  datatype World = World(exists_: bool, resources: seq<Resource>, storageFails: bool, hands: Resource -> bool,
      remote: Remote)

  datatype RouteError = NotExistingAccount | ResourceNotFound | UserNotAvailable | RemoteServerNotFound |
                        RemoteServerTimeout | Infrastructure

  datatype RouteResult = Routed(targets: seq<string>) | Failed(err: RouteError)

  predicate ByPriority(a: Resource, b: Resource) { a.priority >= b.priority }

  predicate Sane(w: World) {
    !w.storageFails && w.remote != Broken && forall r :: r in w.resources ==> w.hands(r)
  }

  /** The resources that a message to a bare address is for: those of highest priority, unless that is
      negative. */
  predicate Best(rss: seq<Resource>, r: Resource) {
    r in rss && r.priority >= 0 && forall x :: x in rss ==> x.priority <= r.priority
  }

  /** Routing of a message, without sorting or searching: the result, and who got the message, which a
      failing hand-over does not take back. */
  ghost predicate RouteSpec(isLocal: string -> bool, to: Address, w: World, r: RouteResult, got: seq<string>) {
    && (r.Routed? ==> got == r.targets)
    && (r.Failed? && r.err != Infrastructure ==> got == [])
    && if !isLocal(to.domain) then
         match w.remote
         case Reached => r == Routed([to.domain])
         case NotFound => r == Failed(RemoteServerNotFound)
         case Timeout => r == Failed(RemoteServerTimeout)
         case Broken => r == Failed(Infrastructure) && got == []
       else if w.storageFails then r == Failed(Infrastructure) && got == []
       else if !w.exists_ then r == Failed(NotExistingAccount)
       else if w.resources == [] then r == Failed(UserNotAvailable)
       else if IsFullWithUser(to) then FullSpec(to, w, r, got)
       else BestSpec(w, r, got)
  }

  ghost predicate FullSpec(to: Address, w: World, r: RouteResult, got: seq<string>) {
    if exists x :: x in w.resources && x.name == to.resource
    then r == Routed([to.resource]) ||
        (r == Failed(Infrastructure) && got == [] && exists x :: x in w.resources && !w.hands(x))
    else r == Failed(ResourceNotFound)
  }

  ghost predicate BestSpec(w: World, r: RouteResult, got: seq<string>) {
    && (forall n :: n in got ==> exists x :: Best(w.resources, x) && w.hands(x) && x.name == n)
    && match r
       case Routed(ts) =>
         ts != [] && forall n :: n in ts <==> exists x :: Best(w.resources, x) && x.name == n
       case Failed(e) =>
         || (e == Infrastructure && exists x :: Best(w.resources, x) && !w.hands(x))
         || (e == UserNotAvailable && forall x :: x in w.resources ==> x.priority < 0)
  }

  method RouteToFull(to: Address, w: World) returns (r: RouteResult, got: seq<string>)
    requires w.resources != []
    ensures FullSpec(to, w, r, got) && (r.Routed? ==> got == r.targets) && (r.Failed? ==> got == [])
  {
    var rss := w.resources;
    for i := 0 to |rss|
      invariant forall j :: 0 <= j < i ==> rss[j].name != to.resource
    {
      if rss[i].name == to.resource {
        assert rss[i] in rss;
        if !w.hands(rss[i]) {
          return Failed(Infrastructure), [];
        }
        return Routed([rss[i].name]), [rss[i].name];
      }
    }
    r, got := Failed(ResourceNotFound), [];
  }

  method SortResources(rss: seq<Resource>) returns (r: seq<Resource>)
    ensures Sorted(r, ByPriority) && |r| == |rss| && forall x :: x in r <==> x in rss
  {
    r := SortBy(rss, ByPriority);
    RearrangedMembers(r, rss);
  }

  lemma AllBelow(all: seq<Resource>, rss: seq<Resource>)
    requires Sorted(rss, ByPriority) && rss != [] && (forall x :: x in rss <==> x in all)
    ensures forall x :: x in all ==> x.priority <= rss[0].priority
  {
    forall x | x in all ensures x.priority <= rss[0].priority {
      var j :| 0 <= j < |rss| && rss[j] == x;
      assert j > 0 ==> ByPriority(rss[0], rss[j]);
    }
  }

  /** In priority order the best resources are the ones at the front. */
  lemma FrontIsBest(all: seq<Resource>, rss: seq<Resource>, i: nat)
    requires Sorted(rss, ByPriority) && (forall x :: x in rss <==> x in all)
    requires 0 < i <= |rss| && rss[0].priority >= 0
    requires forall j :: 0 <= j < i ==> rss[j].priority == rss[0].priority
    requires i < |rss| ==> rss[i].priority != rss[0].priority
    ensures forall j :: 0 <= j < i ==> Best(all, rss[j])
    ensures forall x :: Best(all, x) ==> exists j :: 0 <= j < i && rss[j] == x
  {
    AllBelow(all, rss);
    forall x | Best(all, x) ensures exists j :: 0 <= j < i && rss[j] == x {
      var j :| 0 <= j < |rss| && rss[j] == x;
      assert rss[0] in all;
      assert j > i ==> ByPriority(rss[0], rss[i]) && ByPriority(rss[i], rss[j]);
    }
  }

  method RouteToBest(w: World) returns (r: RouteResult, got: seq<string>)
    requires w.resources != []
    ensures BestSpec(w, r, got) && (r.Routed? ==> got == r.targets) && (r == Failed(UserNotAvailable) ==> got == [])
  {
    got := [];
    var rss := SortResources(w.resources);
    var p0 := rss[0].priority;
    if p0 < 0 {
      AllBelow(w.resources, rss);
      return Failed(UserNotAvailable), [];
    }
    var i := 0;
    while i < |rss| && rss[i].priority == p0
      invariant 0 <= i <= |rss| && (i > 0 ==> got != [])
      invariant forall n :: n in got <==> exists j :: 0 <= j < i && rss[j].name == n
      invariant forall j :: 0 <= j < i ==> rss[j].priority == p0 && w.hands(rss[j])
    {
      if !w.hands(rss[i]) {
        SameAsFrontIsBest(w.resources, rss, i);
        GotAreBest(w, rss, i, got);
        return Failed(Infrastructure), got;
      }
      got := got + [rss[i].name];
      i := i + 1;
    }
    GotAreBest(w, rss, i, got);
    FrontIsBest(w.resources, rss, i);
    forall n ensures n in got <==> exists x :: Best(w.resources, x) && x.name == n {
      if n in got {
        var j :| 0 <= j < i && rss[j].name == n;
        assert Best(w.resources, rss[j]);
      }
    }
    r := Routed(got);
  }

  lemma SameAsFrontIsBest(all: seq<Resource>, rss: seq<Resource>, i: nat)
    requires Sorted(rss, ByPriority) && (forall x :: x in rss <==> x in all)
    requires i < |rss| && rss[0].priority >= 0 && rss[i].priority == rss[0].priority
    ensures Best(all, rss[i])
  {
    AllBelow(all, rss);
    assert rss[i] in rss;
  }

  lemma GotAreBest(w: World, rss: seq<Resource>, i: nat, got: seq<string>)
    requires Sorted(rss, ByPriority) && (forall x :: x in rss <==> x in w.resources)
    requires i <= |rss| && rss != [] && rss[0].priority >= 0
    requires forall j :: 0 <= j < i ==> rss[j].priority == rss[0].priority && w.hands(rss[j])
    requires forall n :: n in got <==> exists j :: 0 <= j < i && rss[j].name == n
    ensures forall n :: n in got ==> exists x :: Best(w.resources, x) && w.hands(x) && x.name == n
  {
    forall n | n in got ensures exists x :: Best(w.resources, x) && w.hands(x) && x.name == n {
      var j :| 0 <= j < i && rss[j].name == n;
      SameAsFrontIsBest(w.resources, rss, j);
    }
  }

  /** router.Route and c2sRouter.Route for a message. */
  method Route(isLocal: string -> bool, to: Address, w: World) returns (r: RouteResult, got: seq<string>)
    ensures RouteSpec(isLocal, to, w, r, got)
    ensures Sane(w) ==> r != Failed(Infrastructure)
  {
    got := [];
    if !isLocal(to.domain) {
      match w.remote {
        case Reached => return Routed([to.domain]), [to.domain];
        case NotFound => return Failed(RemoteServerNotFound), [];
        case Timeout => return Failed(RemoteServerTimeout), [];
        case Broken => return Failed(Infrastructure), [];
      }
    }
    if w.storageFails {
      return Failed(Infrastructure), [];
    }
    if !w.exists_ {
      return Failed(NotExistingAccount), [];
    }
    if |w.resources| == 0 {
      return Failed(UserNotAvailable), [];
    }
    if IsFullWithUser(to) {
      r, got := RouteToFull(to, w);
    } else {
      r, got := RouteToBest(w);
    }
  }

  // ---------------------------------------------------------------------------------------------
  // The offline queue
  // ---------------------------------------------------------------------------------------------

  datatype MessageType = Normal | Chat | Groupchat | Headline | Error

  // `noStore` and `store`: the processing hints that the message carries.
  datatype Message = Message(id: nat, to: Address, noStore: bool, store: bool, typ: MessageType, hasBody: bool)

  predicate IsArchivable(m: Message) {
    if m.noStore then false
    else if m.store then true
    else m.typ == Normal || (m.typ == Chat && m.hasBody)
  }

  /** What is never kept, whatever else it says; and without the hint against it, what is always kept. */
  predicate Forbidden(m: Message) {
    m.noStore || (!m.store && (m.typ in {Groupchat, Headline, Error} || (m.typ == Chat && !m.hasBody)))
  }

  /** The two hints come before the type, and the hint against storing before the hint for it. */
  lemma ArchivableByHintAndType(m: Message)
    ensures IsArchivable(m) <==> !Forbidden(m)
    ensures m.noStore ==> !IsArchivable(m.(store := true)) && !IsArchivable(m.(typ := Normal))
    ensures IsArchivable(m.(noStore := false, store := true)) && IsArchivable(m.(noStore := false, typ := Normal))
    ensures !m.store && m.typ != Normal && IsArchivable(m) ==> m.typ == Chat && m.hasBody
  {
  }

  class OfflineStore {
    const capacity: nat
    var queue: map<string, seq<Message>>
    ghost var accepted: map<string, seq<Message>>
    ghost var delivered: map<string, seq<Message>>

    static function Of(m: map<string, seq<Message>>, u: string): seq<Message> {
      if u in m then m[u] else []
    }

    /** Every accepted message is waiting or was delivered, in order and once; the queue keeps its size
        although the limit is tested by equality. */
    ghost predicate Valid()
      reads this
    {
      && (forall u :: Of(accepted, u) == Of(delivered, u) + Of(queue, u))
      && (forall u :: |Of(queue, u)| <= capacity)
    }

    constructor (capacity: nat)
      ensures Valid() && this.capacity == capacity && queue == map[]
    {
      this.capacity := capacity;
      queue, accepted, delivered := map[], map[], map[];
    }

    method Archive(u: string, m: Message) returns (stored: bool)
      requires Valid()
      modifies this
      ensures Valid() && delivered == old(delivered)
      ensures stored <==> |old(Of(queue, u))| < capacity
      ensures queue == if stored then old(queue)[u := old(Of(queue, u)) + [m]] else old(queue)
      ensures accepted == if stored then old(accepted)[u := old(Of(accepted, u)) + [m]] else old(accepted)
    {
      var q := Of(queue, u);
      if |q| == capacity {
        return false;
      }
      queue := queue[u := q + [m]];
      accepted := accepted[u := Of(accepted, u) + [m]];
      stored := true;
      assert Of(delivered, u) + (q + [m]) == Of(delivered, u) + q + [m];
    }

    method Deliver(u: string) returns (sent: seq<Message>)
      requires Valid()
      modifies this
      ensures Valid() && accepted == old(accepted)
      ensures sent == old(Of(queue, u)) && Of(queue, u) == []
      ensures delivered == old(delivered)[u := old(Of(delivered, u)) + sent]
      ensures forall x :: x != u ==> Of(queue, x) == old(Of(queue, x))
    {
      sent := Of(queue, u);
      queue := queue - {u};
      delivered := delivered[u := Of(delivered, u) + sent];
    }
  }

  // ---------------------------------------------------------------------------------------------
  // processMessage
  // ---------------------------------------------------------------------------------------------

  datatype WillRoute = Keeps | Halts | Fails | Replaces

  /** Everything around one message: per attempt the answer of the will-route hooks and what routing
      finds, then what each other handler of the message-routed chain says, and the hook that announces that
      a message was archived. */
  datatype Surroundings = Surroundings(isLocal: string -> bool, will: nat -> WillRoute, world: nat -> World,
                                       answer: Hooks.Handler -> Hooks.Reply, archivedHookFails: bool)

  const MESSAGE_ROUTED := "c2s.stream.message_routed"

  const LOWEST_PRIORITY: int := -0x8000_0000

  const OFFLINE := Hooks.Handler(0, LOWEST_PRIORITY)

  predicate OthersGoOn(e: Surroundings, chain: seq<Hooks.Handler>) {
    forall h :: h in chain && h != OFFLINE ==> e.answer(h) == Hooks.Continue
  }

  ghost predicate Undisturbed(e: Surroundings, chain: seq<Hooks.Handler>) {
    && (forall n: nat :: e.will(n) == Keeps && Sane(e.world(n)))
    && OthersGoOn(e, chain) && !e.archivedHookFails
  }

  /** The chain as the server starts it: the offline module at the lowest priority, the modules for message
      carbons and for the archive one and two above it, in any order, and any others above these. */
  method StartModules(hooks: Hooks.HookSet, before: seq<Hooks.Handler>, after: seq<Hooks.Handler>)
    requires hooks.Valid() && hooks.Of(MESSAGE_ROUTED) == []
    requires forall h :: h in before + after ==> h.priority > LOWEST_PRIORITY
    modifies hooks
    ensures hooks.Valid() && Hooks.Alone(hooks.Of(MESSAGE_ROUTED), OFFLINE)
    ensures multiset(hooks.Of(MESSAGE_ROUTED)) == multiset(before + after) + multiset{OFFLINE}
  {
    StartOthers(hooks, before);
    ghost var chain := hooks.Of(MESSAGE_ROUTED);
    RearrangedMembers(chain, before);
    hooks.AddHook(MESSAGE_ROUTED, OFFLINE);
    Hooks.StaysAlone(chain, OFFLINE, OFFLINE, hooks.Of(MESSAGE_ROUTED));
    StartOthers(hooks, after);
  }

  method StartOthers(hooks: Hooks.HookSet, others: seq<Hooks.Handler>)
    requires hooks.Valid() && forall h :: h in others ==> h.priority > LOWEST_PRIORITY
    modifies hooks
    ensures hooks.Valid()
    ensures multiset(hooks.Of(MESSAGE_ROUTED)) == old(multiset(hooks.Of(MESSAGE_ROUTED))) + multiset(others)
    ensures old(Hooks.Alone(hooks.Of(MESSAGE_ROUTED), OFFLINE)) ==> Hooks.Alone(hooks.Of(MESSAGE_ROUTED), OFFLINE)
  {
    for i := 0 to |others|
      invariant hooks.Valid()
      invariant multiset(hooks.Of(MESSAGE_ROUTED)) == old(multiset(hooks.Of(MESSAGE_ROUTED))) + multiset(others[..i])
      invariant old(Hooks.Alone(hooks.Of(MESSAGE_ROUTED), OFFLINE)) ==> Hooks.Alone(hooks.Of(MESSAGE_ROUTED), OFFLINE)
    {
      ghost var chain := hooks.Of(MESSAGE_ROUTED);
      hooks.AddHook(MESSAGE_ROUTED, others[i]);
      Hooks.StaysAlone(chain, OFFLINE, others[i], hooks.Of(MESSAGE_ROUTED));
      assert others[..i + 1] == others[..i] + [others[i]];
    }
    assert others[..|others|] == others;
  }

  /** `handed`: who got it; `stored`: kept in the offline queue; `errors`: error answers sent. */
  datatype Fate = Fate(handed: seq<string>, stored: bool, errors: nat, attempts: nat)

  predicate ExactlyOne(f: Fate) {
    || (f.handed != [] && !f.stored && f.errors == 0)
    || (f.handed == [] && f.stored && f.errors == 0)
    || (f.handed == [] && !f.stored && f.errors == 1)
  }

  /** An archivable message for a local user is kept while that user's queue has room. */
  predicate CanKeep(e: Surroundings, m: Message, to: Address, size: nat, capacity: nat) {
    IsArchivable(m) && e.isLocal(to.domain) && size < capacity
  }

  /** The offline handler, which the hook chain runs last: may keep the message or refuse it. */
  method OnMessageRouted(e: Surroundings, m: Message, to: Address, targets: seq<string>, store: OfflineStore)
    returns (outcome: Hooks.Reply, stored: bool, errors: nat)
    requires store.Valid()
    modifies store
    ensures store.Valid() && store.delivered == old(store.delivered)
    ensures stored <==> targets == [] && CanKeep(e, m, to, |old(OfflineStore.Of(store.queue, to.user))|, store.capacity)
    ensures !stored ==> store.queue == old(store.queue)
    ensures stored ==> store.queue == old(store.queue)[to.user := old(OfflineStore.Of(store.queue, to.user)) + [m]]
    ensures outcome == if targets != [] || !IsArchivable(m) || !e.isLocal(to.domain) then Hooks.Continue
                       else if stored && e.archivedHookFails then Hooks.Fail else Hooks.Stop
    ensures errors == if outcome == Hooks.Stop && !stored then 1 else 0
    ensures Forbidden(m) ==> !stored && outcome == Hooks.Continue && store.queue == old(store.queue)
    ensures !Forbidden(m) && targets == [] && e.isLocal(to.domain) ==>
              (stored <==> |old(OfflineStore.Of(store.queue, to.user))| < store.capacity) && (stored || errors == 1)
  {
    ArchivableByHintAndType(m);
    outcome, stored, errors := Hooks.Continue, false, 0;
    if |targets| > 0 || !IsArchivable(m) || !e.isLocal(to.domain) {
      return;
    }
    stored := store.Archive(to.user, m);
    if !stored {
      return Hooks.Stop, false, 1; // the queue is full: an error goes back
    }
    outcome := if e.archivedHookFails then Hooks.Fail else Hooks.Stop;
  }

  /** The message-routed chain. Its order puts the offline handler last, so that it sees the message exactly
      when every other handler let it pass; otherwise nothing is kept and the first that did not decides. */
  method RunMessageRouted(hooks: Hooks.HookSet, e: Surroundings, m: Message, to: Address, targets: seq<string>,
                          store: OfflineStore)
    returns (outcome: Hooks.Reply, stored: bool, errors: nat)
    requires hooks.Valid() && Hooks.Alone(hooks.Of(MESSAGE_ROUTED), OFFLINE) && store.Valid()
    modifies store
    ensures store.Valid() && store.delivered == old(store.delivered)
    ensures !stored ==> store.queue == old(store.queue)
    ensures stored ==> store.queue == old(store.queue)[to.user := old(OfflineStore.Of(store.queue, to.user)) + [m]]
    ensures OthersGoOn(e, old(hooks.Of(MESSAGE_ROUTED))) ==>
              && (stored <==> targets == [] && IsArchivable(m) && e.isLocal(to.domain) &&
                              |old(OfflineStore.Of(store.queue, to.user))| < store.capacity)
              && outcome == (if targets != [] || !IsArchivable(m) || !e.isLocal(to.domain) then Hooks.Continue
                             else if stored && e.archivedHookFails then Hooks.Fail else Hooks.Stop)
              && errors == if outcome == Hooks.Stop && !stored then 1 else 0
    ensures !OthersGoOn(e, old(hooks.Of(MESSAGE_ROUTED))) ==>
              && !stored && errors == 0 && outcome != Hooks.Continue
              && exists h :: h in old(hooks.Of(MESSAGE_ROUTED)) && h != OFFLINE && e.answer(h) == outcome
  {
    var chain := hooks.Of(MESSAGE_ROUTED);
    Hooks.LowestIsLast(chain, OFFLINE);
    var ran;
    outcome, ran := hooks.Run(MESSAGE_ROUTED, h => if h == OFFLINE then Hooks.Stop else e.answer(h));
    stored, errors := false, 0;
    // the last handler of the chain is the offline one: only if it is reached it gets to act
    if |ran| == |chain| {
      OthersWent(e, chain, ran);
      outcome, stored, errors := OnMessageRouted(e, m, to, targets, store);
    } else {
      assert ran[|ran| - 1] == chain[|ran| - 1] && chain[|ran| - 1] in chain;
    }
  }

  lemma OthersWent(e: Surroundings, chain: seq<Hooks.Handler>, ran: seq<Hooks.Handler>)
    requires ran == chain && chain != [] && chain[|chain| - 1] == OFFLINE
    requires forall i :: 0 <= i < |ran| - 1 ==> ran[i] != OFFLINE && e.answer(ran[i]) == Hooks.Continue
    ensures OthersGoOn(e, chain)
  {
  }

  predicate NobodyThere(w: World) { !w.storageFails && w.exists_ && w.resources == [] }

  /** The address of an attempt: the second one is made at the bare address. */
  function AttemptAddress(to: Address, n: nat): Address { if n == 0 then to else Bare(to) }

  /** The first attempt does not find the resource, which is what a second one at the bare address is for. */
  predicate Missing(e: Surroundings, m: Message) {
    var w := e.world(0);
    && e.isLocal(m.to.domain) && !w.storageFails && w.exists_ && w.resources != []
    && IsFullWithUser(m.to) && forall x :: x in w.resources ==> x.name != m.to.resource
  }

  predicate Refused(f: Fate) { f.handed == [] && !f.stored && f.errors == 1 }

  predicate HandedTo(f: Fate, targets: seq<string>) { f.handed == targets && !f.stored && f.errors == 0 }

  /** What becomes of a message by what its last attempt finds, when nothing interferes: those who are found get it;
      if nobody is available it is kept while there is room; otherwise it is answered. */
  ghost predicate DueFate(e: Surroundings, m: Message, at: Address, w: World, size: nat, capacity: nat, f: Fate) {
    if !e.isLocal(at.domain) then
      if w.remote == Reached then HandedTo(f, [at.domain]) else Refused(f)
    else if !w.exists_ then Refused(f)
    else if IsFullWithUser(at) && w.resources != [] then HandedTo(f, [at.resource])
    else if forall x :: x in w.resources ==> x.priority < 0 then
      f.handed == [] && (f.stored <==> CanKeep(e, m, m.to, size, capacity)) && (f.stored || f.errors == 1)
    else
      HandedTo(f, f.handed) && f.handed != [] &&
      forall n :: n in f.handed <==> exists x :: Best(w.resources, x) && x.name == n
  }

  /** An attempt handed the message to these, and to no others before it was done or failed. */
  ghost predicate ReachedBy(e: Surroundings, at: Address, w: World, got: seq<string>) {
    RouteSpec(e.isLocal, at, w, Routed(got), got) || RouteSpec(e.isLocal, at, w, Failed(Infrastructure), got)
  }

  lemma DueFrom(e: Surroundings, m: Message, at: Address, w: World, r: RouteResult, got: seq<string>, size: nat,
                capacity: nat, f: Fate)
    requires RouteSpec(e.isLocal, at, w, r, got) && r != Failed(ResourceNotFound) && r != Failed(Infrastructure)
    requires at.domain == m.to.domain
    requires match r
             case Routed(targets) => HandedTo(f, targets)
             case Failed(UserNotAvailable) =>
               f.handed == [] && (f.stored <==> CanKeep(e, m, m.to, size, capacity)) && (f.stored || f.errors == 1)
             case Failed(_) => Refused(f)
    ensures DueFate(e, m, at, w, size, capacity, f)
  {
    if r.Routed? { assert r.targets != [] ==> r.targets[0] in r.targets; }
  }

  /** A message is routed at most twice, and unless another hook or the infrastructure interferes it is
      handed over, kept, or answered, and only one of these. */
  method ProcessMessage(hooks: Hooks.HookSet, e: Surroundings, m: Message, store: OfflineStore) returns (f: Fate)
    requires hooks.Valid() && Hooks.Alone(hooks.Of(MESSAGE_ROUTED), OFFLINE) && store.Valid()
    modifies store
    ensures store.Valid()
    ensures f.attempts <= 2
    ensures Undisturbed(e, old(hooks.Of(MESSAGE_ROUTED))) ==> ExactlyOne(f)
    // whom it reached, also when a later hand-over failed
    ensures f.handed != [] ==>
              f.attempts >= 1 && ReachedBy(e, AttemptAddress(m.to, f.attempts - 1), e.world(f.attempts - 1), f.handed)
    ensures f.stored ==>
              && IsArchivable(m) && e.isLocal(m.to.domain)
              && store.queue == old(store.queue)[m.to.user := old(OfflineStore.Of(store.queue, m.to.user)) + [m]]
    ensures !f.stored ==> store.queue == old(store.queue)
    ensures f.errors <= 1 && (f.handed != [] ==> !f.stored && f.errors == 0)
    // a kept message is also refused exactly when the hook that announces it fails
    ensures f.stored ==> (f.errors == 1 <==> e.archivedHookFails)
    // an archivable message for an existing account without resources is kept whenever there is room
    ensures e.will(0) == Keeps && e.isLocal(m.to.domain) && NobodyThere(e.world(0)) &&
            OthersGoOn(e, old(hooks.Of(MESSAGE_ROUTED))) ==>
              (f.stored <==> IsArchivable(m) && |old(OfflineStore.Of(store.queue, m.to.user))| < store.capacity)
    // undisturbed, the last attempt decides, and there is a second one exactly when the resource is not there
    ensures Undisturbed(e, old(hooks.Of(MESSAGE_ROUTED))) ==>
              && f.attempts == (if Missing(e, m) then 2 else 1)
              && DueFate(e, m, AttemptAddress(m.to, f.attempts - 1), e.world(f.attempts - 1),
                         |old(OfflineStore.Of(store.queue, m.to.user))|, store.capacity, f)
  {
    var attempts, stopped, r, got := RouteTwice(e, m);
    if stopped {
      return Fate([], false, 0, attempts);
    }
    f := Conclude(hooks, e, m, attempts, AttemptAddress(m.to, attempts - 1), e.world(attempts - 1), r, got, store);
  }

  /** What follows from the attempt that decides. */
  method Conclude(hooks: Hooks.HookSet, e: Surroundings, m: Message, attempts: nat, at: Address, ghost w: World,
                  r: RouteResult, got: seq<string>, store: OfflineStore)
    returns (f: Fate)
    requires hooks.Valid() && Hooks.Alone(hooks.Of(MESSAGE_ROUTED), OFFLINE) && store.Valid()
    requires RouteSpec(e.isLocal, at, w, r, got) && at.domain == m.to.domain && at.user == m.to.user
    modifies store
    ensures store.Valid() && f.attempts == attempts
    ensures f.handed != [] ==> ReachedBy(e, at, w, f.handed) && !f.stored && f.errors == 0
    ensures f.stored ==>
              && IsArchivable(m) && e.isLocal(m.to.domain)
              && store.queue == old(store.queue)[m.to.user := old(OfflineStore.Of(store.queue, m.to.user)) + [m]]
              && (f.errors == 1 <==> e.archivedHookFails)
    ensures !f.stored ==> store.queue == old(store.queue)
    ensures f.errors <= 1
    ensures OthersGoOn(e, old(hooks.Of(MESSAGE_ROUTED))) && r == Failed(UserNotAvailable) ==>
              (f.stored <==> CanKeep(e, m, m.to, |old(OfflineStore.Of(store.queue, m.to.user))|, store.capacity))
    ensures OthersGoOn(e, old(hooks.Of(MESSAGE_ROUTED))) && !e.archivedHookFails &&
            r != Failed(Infrastructure) && r != Failed(ResourceNotFound) ==>
              && ExactlyOne(f)
              && DueFate(e, m, at, w, |old(OfflineStore.Of(store.queue, m.to.user))|, store.capacity, f)
  {
    f := Fate([], false, 0, attempts);
    var stored, errors := false, 0;
    match r {
      case Routed(targets) =>
        stored, errors := Settle(hooks, e, m, at, targets, store);
        f := f.(handed := targets, stored := stored, errors := errors);
      case Failed(UserNotAvailable) =>
        stored, errors := Settle(hooks, e, m, at, [], store);
        f := f.(stored := stored, errors := errors);
      case Failed(Infrastructure) =>
        f := f.(handed := got);
        return;
      case Failed(_) =>
        f := Fate([], false, 1, attempts);
    }
    if OthersGoOn(e, hooks.Of(MESSAGE_ROUTED)) && !e.archivedHookFails && r != Failed(ResourceNotFound) {
      DueFrom(e, m, at, w, r, got, |old(OfflineStore.Of(store.queue, m.to.user))|, store.capacity, f);
    }
  }

  /** The attempts, up to the one that decides; a will-route hook that halts, fails or replaces the message stops. */
  method RouteTwice(e: Surroundings, m: Message)
    returns (attempts: nat, stopped: bool, r: RouteResult, got: seq<string>)
    ensures attempts <= 2 && (stopped ==> e.will(attempts) != Keeps)
    ensures !stopped ==>
              && 1 <= attempts && (attempts == 2 <==> Missing(e, m)) && r != Failed(ResourceNotFound)
              && RouteSpec(e.isLocal, AttemptAddress(m.to, attempts - 1), e.world(attempts - 1), r, got)
              && (r == Failed(Infrastructure) ==> !Sane(e.world(attempts - 1)))
    ensures e.will(0) == Keeps && e.isLocal(m.to.domain) && NobodyThere(e.world(0)) ==>
              !stopped && attempts == 1 && r == Failed(UserNotAvailable)
  {
    attempts, stopped, r, got := 0, false, Failed(ResourceNotFound), [];
    var to := m.to;
    while true
      invariant attempts <= 1 && !stopped && to == AttemptAddress(m.to, attempts)
      invariant attempts == 1 ==> Missing(e, m)
      decreases 2 - attempts
    {
      match e.will(attempts) {
        case Keeps =>
        case _ =>
          stopped := true;
          return;
      }
      r, got := Route(e.isLocal, to, e.world(attempts));
      attempts := attempts + 1;
      if r != Failed(ResourceNotFound) {
        return;
      }
      // treat the message as if it were addressed to the bare address
      assert IsFullWithUser(to);
      to := Bare(m.to);
    }
  }

  /** What becomes of a message that was handed to `targets`, or to nobody because nobody was available. */
  method Settle(hooks: Hooks.HookSet, e: Surroundings, m: Message, to: Address, targets: seq<string>,
                          store: OfflineStore)
    returns (stored: bool, errors: nat)
    requires hooks.Valid() && Hooks.Alone(hooks.Of(MESSAGE_ROUTED), OFFLINE) && store.Valid()
    modifies store
    ensures store.Valid() && errors <= 1
    ensures !stored ==> store.queue == old(store.queue)
    ensures stored ==> store.queue == old(store.queue)[to.user := old(OfflineStore.Of(store.queue, to.user)) + [m]]
    ensures stored ==> targets == [] && IsArchivable(m) && e.isLocal(to.domain)
    ensures stored ==> (errors == 1 <==> e.archivedHookFails)
    ensures targets != [] ==> errors == 0
    ensures OthersGoOn(e, old(hooks.Of(MESSAGE_ROUTED))) && targets == [] ==>
              && (stored <==> CanKeep(e, m, to, |old(OfflineStore.Of(store.queue, to.user))|, store.capacity))
              && (!stored ==> errors == 1)
  {
    var outcome;
    outcome, stored, errors := RunMessageRouted(hooks, e, m, to, targets, store);
    if outcome != Hooks.Stop && |targets| == 0 {
      errors := 1;
    }
  }

  /** A failing announcement of an archived message gives the message two fates. */
  method KeptAndRefused(u: string) returns (f: Fate)
    ensures f.stored && f.errors == 1
  {
    var store := new OfflineStore(1);
    var w := World(true, [], false, (r: Resource) => true, Reached);
    var e := Surroundings((d: string) => true, (n: nat) => Keeps, (n: nat) => w,
        (h: Hooks.Handler) => Hooks.Continue, true);
    var hooks := new Hooks.HookSet();
    StartModules(hooks, [], []);
    var m := Message(0, Address("local", u, ""), false, true, Chat, false);
    f := ProcessMessage(hooks, e, m, store);
  }
}
