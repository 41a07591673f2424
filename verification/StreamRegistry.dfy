/** The registry of client streams of one node. A stream is first kept among the anonymous streams;
    binding a resource moves it into the list of its user. This module proves that the two levels
    are one flat map from stream to place, under the three policies for a resource that is already
    taken (section 7.7.2.2 of RFC 6120), and that a session limit tested by equality holds. */
module StreamRegistry {

  type StreamId = nat

  datatype Jid = Jid(user: string, resource: string)

  datatype Place = Anonymous | Bound(jid: Jid)

  type Flat = map<StreamId, Place>

  datatype Policy = Override | Disallow | TerminateOld

  datatype Request = Generated | Wanted(resource: string)

  datatype Outcome = Accepted(jid: Jid) | Conflict | TooManySessions

  // ---------------------------------------------------------------------------------------------
  // The flat registry
  // ---------------------------------------------------------------------------------------------

  function Sessions(m: Flat, user: string): set<StreamId> {
    set id | id in m && m[id].Bound? && m[id].jid.user == user
  }

  predicate Taken(m: Flat, j: Jid) {
    exists id :: id in m && m[id] == Bound(j)
  }

  /** The streams that hold an address. */
  function Holders(m: Flat, j: Jid): set<StreamId> {
    set id | id in m && m[id] == Bound(j)
  }

  /** What a bind request of an anonymous stream does: nothing about lists, only who is where. */
  function BindOutcome(m: Flat, user: string, req: Request, newName: string, policy: Policy, limit: int): Outcome {
    if |Sessions(m, user)| == limit then TooManySessions
    else if req.Generated? then Accepted(Jid(user, newName))
    else if !Taken(m, Jid(user, req.resource)) || policy.TerminateOld? then Accepted(Jid(user, req.resource))
    else if policy.Override? then Accepted(Jid(user, newName))
    else Conflict
  }

  function AfterBind(m: Flat, id: StreamId, out: Outcome): Flat {
    match out
    case Accepted(j) => (m - Holders(m, j))[id := Bound(j)]
    case Conflict => m
    case TooManySessions => m - {id}
  }

  /** The flat registry together with the address that every stream that ever registered reports; the
      resource of that address is empty until the stream binds. */
  datatype Registry = Registry(places: Flat, addrs: map<StreamId, Jid>)

  datatype Step =
    | DoRegister(id: StreamId)
    | DoBind(id: StreamId, user: string, req: Request, newName: string, policy: Policy)
    | DoUnregister(id: StreamId)

  /** What the callers guarantee: stream ids are never reused, resource names are not empty, a generated
      name is new, and a stream that is already gone is unregistered again only while its address is free. */
  predicate Admissible(r: Registry, step: Step) {
    match step
    case DoRegister(id) => id !in r.addrs
    case DoBind(id, user, req, newName, _) =>
      && id in r.places && r.places[id].Anonymous? && newName != "" && !Taken(r.places, Jid(user, newName))
      && (req.Wanted? ==> req.resource != "")
    case DoUnregister(id) => id in r.addrs && (id in r.places || !Taken(r.places, r.addrs[id]))
  }

  function Next(r: Registry, step: Step, limit: string -> int): Registry {
    match step
    case DoRegister(id) => Registry(r.places[id := Anonymous], r.addrs[id := Jid("", "")])
    case DoBind(id, user, req, newName, policy) =>
      var out := BindOutcome(r.places, user, req, newName, policy, limit(user));
      Registry(AfterBind(r.places, id, out), if out.Accepted? then r.addrs[id := out.jid] else r.addrs)
    case DoUnregister(id) => r.(places := r.places - {id})
  }

  /** A stream reports the address it is bound to, or none while it is anonymous. */
  ghost predicate Reported(r: Registry) {
    && (forall a :: a in r.places ==> a in r.addrs)
    && (forall a :: a in r.places && r.places[a].Anonymous? ==> r.addrs[a].resource == "")
    && (forall a :: a in r.places && r.places[a].Bound? ==> r.addrs[a] == r.places[a].jid && r.addrs[a].resource != "")
  }

  ghost predicate Unshared(m: Flat) {
    forall a, b :: a in m && b in m && m[a].Bound? && m[a] == m[b] ==> a == b
  }

  /** No two streams share an address, streams report where they are, and no user exceeds its limit. */
  ghost predicate Sound(r: Registry, limit: string -> int) {
    && Unshared(r.places) && Reported(r)
    && (forall u :: limit(u) >= 0 ==> |Sessions(r.places, u)| <= limit(u))
  }

  lemma SubsetSize<T>(a: set<T>, b: set<T>)
    requires a <= b
    ensures |a| <= |b|
  {
    if a != b { assert b == a + (b - a); }
  }

  lemma FewerSessions(m: Flat, m': Flat, u: string)
    requires forall id :: id in m' && m'[id].Bound? && m'[id].jid.user == u ==> id in m && m[id] == m'[id]
    ensures |Sessions(m', u)| <= |Sessions(m, u)|
  {
    SubsetSize(Sessions(m', u), Sessions(m, u));
  }

  lemma OneMoreSession(m: Flat, m': Flat, u: string, added: StreamId)
    requires forall id :: id in m' && id != added ==> id in m && m[id] == m'[id]
    ensures |Sessions(m', u)| <= |Sessions(m, u)| + 1
  {
    assert Sessions(m', u) <= Sessions(m, u) + {added};
    SubsetSize(Sessions(m', u), Sessions(m, u) + {added});
  }

  /** A bind is accepted only below the limit, and adds one session of one user. */
  lemma BindKeepsLimit(m: Flat, id: StreamId, out: Outcome, user: string, max: int, u: string)
    requires |Sessions(m, u)| <= max
    requires out.Accepted? ==> out.jid.user == user && (user == u ==> |Sessions(m, u)| != max)
    ensures |Sessions(AfterBind(m, id, out), u)| <= max
  {
    var m' := AfterBind(m, id, out);
    if out.Accepted? && user == u {
      OneMoreSession(m, m', u, id);
    } else {
      FewerSessions(m, m', u);
    }
  }

  lemma StepKeepsLimit(r: Registry, step: Step, limit: string -> int, u: string)
    requires |Sessions(r.places, u)| <= limit(u)
    ensures |Sessions(Next(r, step, limit).places, u)| <= limit(u)
  {
    match step
    case DoRegister(id) => FewerSessions(r.places, r.places[id := Anonymous], u);
    case DoUnregister(id) => FewerSessions(r.places, r.places - {id}, u);
    case DoBind(id, user, req, newName, policy) =>
      var out := BindOutcome(r.places, user, req, newName, policy, limit(user));
      BindKeepsLimit(r.places, id, out, user, limit(u), u);
  }

  lemma StepKeepsSound(r: Registry, step: Step, limit: string -> int)
    requires Sound(r, limit) && Admissible(r, step)
    ensures Sound(Next(r, step, limit), limit)
  {
    forall u | limit(u) >= 0 ensures |Sessions(Next(r, step, limit).places, u)| <= limit(u) {
      StepKeepsLimit(r, step, limit, u);
    }
  }

  function Run(r: Registry, steps: seq<Step>, limit: string -> int): Registry
    decreases |steps|
  {
    if steps == [] then r else Run(Next(r, steps[0], limit), steps[1..], limit)
  }

  predicate AllAdmissible(r: Registry, steps: seq<Step>, limit: string -> int)
    decreases |steps|
  {
    steps == [] || (Admissible(r, steps[0]) && AllAdmissible(Next(r, steps[0], limit), steps[1..], limit))
  }

  /** In every run no address is shared and no session limit is passed. */
  lemma {:induction false} RunSound(r: Registry, steps: seq<Step>, limit: string -> int)
    requires Sound(r, limit) && AllAdmissible(r, steps, limit)
    ensures Sound(Run(r, steps, limit), limit)
    decreases |steps|
  {
    if steps != [] {
      StepKeepsSound(r, steps[0], limit);
      RunSound(Next(r, steps[0], limit), steps[1..], limit);
    }
  }

  lemma EmptySound(limit: string -> int)
    ensures Sound(Registry(map[], map[]), limit)
  {
    forall u ensures Sessions(map[], u) == {} {}
  }

  /** What the source removes: the stream itself while it is anonymous, and otherwise whoever holds the
      address that it reports. */
  function Removed(r: Registry, id: StreamId): Flat
    requires id in r.addrs
  {
    if id in r.places && r.places[id].Anonymous? then r.places - {id} else r.places - Holders(r.places, r.addrs[id])
  }

  /** Unregistering removes the stream and nobody else, if and only if the stream is registered or nobody
      holds its address by then. */
  lemma UnregisterOwnOnly(r: Registry, id: StreamId)
    requires Unshared(r.places) && Reported(r) && id in r.addrs
    ensures Removed(r, id) == r.places - {id} <==> id in r.places || !Taken(r.places, r.addrs[id])
  {
    var m, j := r.places, r.addrs[id];
    if id in m && m[id].Bound? {
      assert Holders(m, j) == {id};
    } else if id !in m {
      if Taken(m, j) {
        var x :| x in m && m[x] == Bound(j);
        assert x in Holders(m, j) && x !in Removed(r, id) && x in m - {id};
      } else {
        assert Holders(m, j) == {};
      }
    }
  }

  /** A generated name never evicts anybody, and under Disallow nobody is ever evicted. */
  lemma NobodyEvicted(m: Flat, id: StreamId, user: string, req: Request, newName: string, policy: Policy, limit: int)
    requires id in m && m[id].Anonymous? && !Taken(m, Jid(user, newName))
    requires !policy.TerminateOld?
    ensures var m' := AfterBind(m, id, BindOutcome(m, user, req, newName, policy, limit));
            forall x :: x in m && x != id ==> x in m' && m'[x] == m[x]
  {
    var out := BindOutcome(m, user, req, newName, policy, limit);
    if out.Accepted? {
      assert Holders(m, out.jid) == {} by {
        assert !Taken(m, out.jid);
      }
    }
  }

  /** What a bind means to the one who asks. The limit comes first; a wanted address that is free, or freed by
      terminating, is given; only Disallow answers a taken one with a conflict; and the new name stands in where
      none was wanted, or where the wanted one is taken under Override. */
  predicate AnsweredByPolicy(m: Flat, user: string, req: Request, newName: string, policy: Policy, limit: int,
                             out: Outcome) {
    var taken := req.Wanted? && Taken(m, Jid(user, req.resource));
    && (out == TooManySessions <==> |Sessions(m, user)| == limit)
    && (out == Conflict <==> |Sessions(m, user)| != limit && taken && policy == Disallow)
    && (out.Accepted? && (req == Generated || (taken && policy == Override)) ==> out.jid == Jid(user, newName))
    && (out.Accepted? && req.Wanted? ==>
          (out.jid == Jid(user, req.resource) <==> !taken || policy == TerminateOld))
  }

  /** What a bind does to the streams: nobody but an old holder under TerminateOld has to go, nobody else moves. */
  predicate MovedByPolicy(m: Flat, m': Flat, id: StreamId, user: string, req: Request, policy: Policy, out: Outcome) {
    && (forall x :: x in m && x != id ==>
          (x !in m' <==> out.Accepted? && policy == TerminateOld &&
                         req.Wanted? && m[x] == Bound(Jid(user, req.resource))))
    && (forall x :: x in m' && x != id ==> x in m && m'[x] == m[x])
    && (out == TooManySessions <==> id !in m')
    && (out == Conflict ==> m' == m)
    && (out.Accepted? ==> m'[id] == Bound(out.jid))
  }

  lemma BindByPolicy(m: Flat, id: StreamId, user: string, req: Request, newName: string, policy: Policy, limit: int)
    requires id in m && m[id].Anonymous? && !Taken(m, Jid(user, newName))
    ensures var out := BindOutcome(m, user, req, newName, policy, limit);
            && AnsweredByPolicy(m, user, req, newName, policy, limit, out)
            && MovedByPolicy(m, AfterBind(m, id, out), id, user, req, policy, out)
  {
    var out := BindOutcome(m, user, req, newName, policy, limit);
    if out.Accepted? && !Taken(m, out.jid) { FreeHoldsNobody(m, out.jid); }
  }

  /** Why a stream comes, goes or moves: it registers; it is unregistered, asks for one session too many, or has to
      make room for a stream that wants its address; it binds. */
  lemma WhyItMoves(r: Registry, step: Step, limit: string -> int, x: StreamId)
    requires Reported(r) && Admissible(r, step)
    ensures var m, m' := r.places, Next(r, step, limit).places;
            && (x !in m && x in m' <==> x !in m && step == DoRegister(x))
            && (x in m && x !in m' <==>
                  && x in m
                  && (|| step == DoUnregister(x)
                      || (step.DoBind? && step.id == x && |Sessions(m, step.user)| == limit(step.user))
                      || (step.DoBind? && step.id != x && |Sessions(m, step.user)| != limit(step.user) &&
                          step.policy == TerminateOld && step.req.Wanted? &&
                          m[x] == Bound(Jid(step.user, step.req.resource)))))
            && (x in m && x in m' && m[x] != m'[x] ==>
                  step.DoBind? && step.id == x && m[x].Anonymous? && m'[x].Bound? && m'[x].jid.user == step.user)
            && (x !in m && x in m' ==> m'[x].Anonymous?)
  {
    if step.DoBind? {
      BindByPolicy(r.places, step.id, step.user, step.req, step.newName, step.policy, limit(step.user));
    }
  }

  // ---------------------------------------------------------------------------------------------
  // The two-level registry
  // ---------------------------------------------------------------------------------------------

  /** The anonymous streams, the lists of bound streams by user, and the address that each stream,
      alive or not, reports; its resource is empty until it binds. */
  datatype Levels = Levels(stms: set<StreamId>, bndRes: map<string, seq<StreamId>>, jids: map<StreamId, Jid>)

  predicate Listed(r: Levels, id: StreamId) {
    id in r.jids && r.jids[id].user in r.bndRes && id in r.bndRes[r.jids[id].user]
  }

  ghost predicate ListOk(r: Levels, user: string, l: seq<StreamId>) {
    && l != []
    && (forall i :: 0 <= i < |l| ==> l[i] in r.jids && l[i] !in r.stms)
    && (forall i :: 0 <= i < |l| ==> r.jids[l[i]].user == user && r.jids[l[i]].resource != "")
    && (forall i, j :: 0 <= i < j < |l| ==> r.jids[l[i]].resource != r.jids[l[j]].resource)
  }

  ghost predicate LevelsOk(r: Levels) {
    && (forall id :: id in r.stms ==> id in r.jids && r.jids[id].resource == "")
    && (forall u :: u in r.bndRes ==> ListOk(r, u, r.bndRes[u]))
  }

  function Flatten(r: Levels): Flat {
    map id | id in r.jids && (id in r.stms || Listed(r, id)) :: if id in r.stms then Anonymous else Bound(r.jids[id])
  }

  function UserList(r: Levels, user: string): seq<StreamId> {
    if user in r.bndRes then r.bndRes[user] else []
  }

  lemma ListHolds(r: Levels, jid: Jid, k: nat)
    requires LevelsOk(r) && k < |UserList(r, jid.user)| && r.jids[UserList(r, jid.user)[k]].resource == jid.resource
    ensures var id := UserList(r, jid.user)[k]; id in Flatten(r) && Flatten(r)[id] == Bound(jid)
    ensures Taken(Flatten(r), jid)
  {
    var id := UserList(r, jid.user)[k];
    assert ListOk(r, jid.user, r.bndRes[jid.user]);
    assert r.jids[id] == jid;
    assert Listed(r, id);
    assert Flatten(r)[id] == Bound(jid);
  }

  lemma ListMisses(r: Levels, jid: Jid)
    requires LevelsOk(r)
    requires forall i :: 0 <= i < |UserList(r, jid.user)| ==> r.jids[UserList(r, jid.user)[i]].resource != jid.resource
    ensures !Taken(Flatten(r), jid)
  {
    forall id | id in Flatten(r) ensures Flatten(r)[id] != Bound(jid) {
      if id !in r.stms && r.jids[id].user == jid.user {
        var k :| 0 <= k < |r.bndRes[jid.user]| && r.bndRes[jid.user][k] == id;
        assert UserList(r, jid.user)[k] == id;
      }
    }
  }

  /** Appending an anonymous stream to its user's list moves it, and nobody else. */
  lemma AppendBinds(r: Levels, id: StreamId, jid: Jid)
    requires LevelsOk(r) && id in r.stms && jid.resource != "" && !Taken(Flatten(r), jid)
    ensures var r' := Levels(r.stms - {id}, r.bndRes[jid.user := UserList(r, jid.user) + [id]], r.jids[id := jid]);
            LevelsOk(r') && Flatten(r') == Flatten(r)[id := Bound(jid)]
  {
    var l := UserList(r, jid.user);
    var r' := Levels(r.stms - {id}, r.bndRes[jid.user := l + [id]], r.jids[id := jid]);
    forall i | 0 <= i < |l| ensures r.jids[l[i]].resource != jid.resource && l[i] != id {
      if r.jids[l[i]].resource == jid.resource { ListHolds(r, jid, i); }
    }
    forall u | u in r'.bndRes ensures ListOk(r', u, r'.bndRes[u]) {
      if u != jid.user { assert ListOk(r, u, r.bndRes[u]); }
    }
    forall x ensures Listed(r', x) <==> x == id || Listed(r, x) {
      ListedElsewhere(r, id);
    }
    assert Flatten(r') == Flatten(r)[id := Bound(jid)];
  }

  lemma ListedElsewhere(r: Levels, id: StreamId)
    requires LevelsOk(r) && id in r.stms
    ensures forall u :: u in r.bndRes ==> id !in r.bndRes[u]
  {
    forall u | u in r.bndRes ensures id !in r.bndRes[u] {
      assert ListOk(r, u, r.bndRes[u]);
    }
  }

  /** Dropping an anonymous stream without listing it loses it, and nobody else. */
  lemma DropLoses(r: Levels, id: StreamId, jid: Jid)
    requires LevelsOk(r) && id in r.stms && jid.user in r.bndRes
    ensures var r' := Levels(r.stms - {id}, r.bndRes, r.jids[id := jid]);
            LevelsOk(r') && Flatten(r') == Flatten(r) - {id}
  {
    var r' := Levels(r.stms - {id}, r.bndRes, r.jids[id := jid]);
    ListedElsewhere(r, id);
    forall u | u in r'.bndRes ensures ListOk(r', u, r'.bndRes[u]) { assert ListOk(r, u, r.bndRes[u]); }
    assert forall x :: Listed(r', x) <==> Listed(r, x);
    assert Flatten(r') == Flatten(r) - {id};
  }

  function Without(l: seq<StreamId>, k: nat): seq<StreamId>
    requires k < |l|
  {
    l[..k] + l[k + 1..]
  }

  lemma WithoutMembers(l: seq<StreamId>, k: nat)
    requires k < |l| && forall i, j :: 0 <= i < j < |l| ==> l[i] != l[j]
    ensures forall x :: x in Without(l, k) <==> x in l && x != l[k]
  {
    assert l == l[..k] + [l[k]] + l[k + 1..];
    forall x | x in Without(l, k) ensures x != l[k] {
      var i :| 0 <= i < |Without(l, k)| && Without(l, k)[i] == x;
      assert x == l[if i < k then i else i + 1];
    }
  }

  function Spliced(bndRes: map<string, seq<StreamId>>, user: string, k: nat): map<string, seq<StreamId>>
    requires user in bndRes && k < |bndRes[user]|
  {
    var rest := Without(bndRes[user], k);
    if |rest| == 0 then bndRes - {user} else bndRes[user := rest]
  }

  lemma SplicedLists(r: Levels, user: string, k: nat)
    requires LevelsOk(r) && user in r.bndRes && k < |r.bndRes[user]|
    ensures LevelsOk(r.(bndRes := Spliced(r.bndRes, user, k)))
  {
    var r' := r.(bndRes := Spliced(r.bndRes, user, k));
    var l := r.bndRes[user];
    assert ListOk(r, user, l);
    var rest := Without(l, k);
    assert forall i :: 0 <= i < |rest| ==> rest[i] == l[if i < k then i else i + 1];
    forall u | u in r'.bndRes ensures ListOk(r', u, r'.bndRes[u]) {
      if u != user { assert ListOk(r, u, r.bndRes[u]); }
    }
  }

  lemma SplicedListed(r: Levels, jid: Jid, k: nat, x: StreamId)
    requires LevelsOk(r) && jid.user in r.bndRes && k < |r.bndRes[jid.user]|
    requires r.jids[r.bndRes[jid.user][k]].resource == jid.resource
    ensures Listed(r.(bndRes := Spliced(r.bndRes, jid.user, k)), x) <==> Listed(r, x) && r.jids[x] != jid
  {
    var l := r.bndRes[jid.user];
    assert ListOk(r, jid.user, l);
    WithoutMembers(l, k);
    if Listed(r, x) && r.jids[x].user == jid.user {
      var i :| 0 <= i < |l| && l[i] == x;
      assert r.jids[x] == jid <==> i == k;
    }
  }

  /** Splicing one entry out of a list removes the stream that holds that address, and nobody else. */
  lemma SpliceRemoves(r: Levels, jid: Jid, k: nat)
    requires LevelsOk(r) && jid.user in r.bndRes && k < |r.bndRes[jid.user]|
    requires r.jids[r.bndRes[jid.user][k]].resource == jid.resource
    ensures var r' := r.(bndRes := Spliced(r.bndRes, jid.user, k));
            LevelsOk(r') && Flatten(r') == Flatten(r) - Holders(Flatten(r), jid)
  {
    var r' := r.(bndRes := Spliced(r.bndRes, jid.user, k));
    SplicedLists(r, jid.user, k);
    forall x ensures Listed(r', x) <==> Listed(r, x) && r.jids[x] != jid { SplicedListed(r, jid, k, x); }
    FlattenWithout(r, r', jid);
  }

  lemma FlattenWithout(r: Levels, r': Levels, jid: Jid)
    requires r'.stms == r.stms && r'.jids == r.jids && forall x :: x in r.stms ==> x in r.jids
    requires forall x :: Listed(r', x) <==> Listed(r, x) && r.jids[x] != jid
    ensures Flatten(r') == Flatten(r) - Holders(Flatten(r), jid)
  {
    var m, m' := Flatten(r), Flatten(r');
    assert forall x :: x in m' <==> x in m && m[x] != Bound(jid);
    assert m'.Keys == (m - Holders(m, jid)).Keys;
  }

  lemma ForgetAnonymous(r: Levels, id: StreamId)
    requires LevelsOk(r)
    ensures LevelsOk(r.(stms := r.stms - {id}))
    ensures id in r.stms ==> Flatten(r.(stms := r.stms - {id})) == Flatten(r) - {id}
    ensures id !in r.stms ==> Flatten(r.(stms := r.stms - {id})) == Flatten(r)
  {
    var r' := r.(stms := r.stms - {id});
    forall u | u in r'.bndRes ensures ListOk(r', u, r'.bndRes[u]) { assert ListOk(r, u, r.bndRes[u]); }
    if id in r.stms {
      ListedElsewhere(r, id);
      assert forall x :: Listed(r', x) <==> Listed(r, x);
      assert Flatten(r').Keys == Flatten(r).Keys - {id};
    } else {
      assert r' == r;
    }
  }

  lemma SessionsAreList(r: Levels, user: string)
    requires LevelsOk(r)
    ensures |Sessions(Flatten(r), user)| == |UserList(r, user)|
  {
    var l := UserList(r, user);
    if user in r.bndRes {
      assert ListOk(r, user, l);
      forall id ensures id in Sessions(Flatten(r), user) <==> id in l {
        if id in l { assert Listed(r, id); }
      }
      ListSize(l);
      assert Sessions(Flatten(r), user) == Members(l);
    } else {
      assert Sessions(Flatten(r), user) == {};
    }
  }

  function Members(l: seq<StreamId>): set<StreamId> { set id | id in l }

  lemma {:induction false} ListSize(l: seq<StreamId>)
    requires forall i, j :: 0 <= i < j < |l| ==> l[i] != l[j]
    ensures |Members(l)| == |l|
  {
    if l != [] {
      var front, last := l[..|l| - 1], l[|l| - 1];
      ListSize(front);
      assert l == front + [last];
      assert last !in front by { assert forall i :: 0 <= i < |front| ==> front[i] == l[i]; }
      assert Members(l) == Members(front) + {last};
    }
  }

  class LocalRouter {
    var stms: set<StreamId>
    var bndRes: map<string, seq<StreamId>>
    var jids: map<StreamId, Jid>

    ghost function State(): Levels
      reads this
    {
      Levels(stms, bndRes, jids)
    }

    ghost predicate Valid()
      reads this
    {
      LevelsOk(State())
    }

    ghost function Abs(): Flat
      reads this
    {
      Flatten(State())
    }

    ghost function Whole(): Registry
      reads this
    {
      Registry(Abs(), jids)
    }

    constructor ()
      ensures Valid() && Abs() == map[] && jids == map[]
    {
      stms, bndRes, jids := {}, map[], map[];
    }

    /** A new stream; ids come from one counter, so an id is unknown until now or still anonymous. */
    method Register(id: StreamId) returns (ok: bool)
      requires Valid() && (id in stms || id !in jids)
      modifies this
      ensures Valid()
      ensures ok <==> id !in old(stms)
      ensures Abs() == if ok then old(Abs())[id := Anonymous] else old(Abs())
      ensures jids == if ok then old(jids)[id := Jid("", "")] else old(jids)
    {
      if id in stms {
        return false;
      }
      stms, jids := stms + {id}, jids[id := Jid("", "")];
      ok := true;
      assert forall x :: x != id ==> (Listed(State(), x) <==> Listed(old(State()), x));
    }

    /** The stream of the list with that resource, if there is one. */
    method Find(l: seq<StreamId>, resource: string) returns (k: int)
      requires forall i :: 0 <= i < |l| ==> l[i] in jids
      ensures -1 <= k < |l|
      ensures k >= 0 ==> jids[l[k]].resource == resource
      ensures k < 0 ==> forall i :: 0 <= i < |l| ==> jids[l[i]].resource != resource
    {
      for i := 0 to |l|
        invariant forall j :: 0 <= j < i ==> jids[l[j]].resource != resource
      {
        if jids[l[i]].resource == resource {
          return i;
        }
      }
      k := -1;
    }

    /** Moves an anonymous stream under its user, once its address is set. A stream whose resource is
        already taken is dropped from the anonymous streams and listed nowhere. */
    method Bind(id: StreamId, jid: Jid) returns (ok: bool)
      requires Valid() && jid.resource != ""
      modifies this
      ensures Valid()
      ensures ok <==> id in old(stms)
      ensures !ok ==> State() == old(State())
      ensures ok ==> jids == old(jids)[id := jid] && stms == old(stms) - {id}
      ensures ok && !Taken(old(Abs()), jid) ==> Abs() == old(Abs())[id := Bound(jid)]
      ensures ok && Taken(old(Abs()), jid) ==> Abs() == old(Abs()) - {id}
    {
      if id !in stms {
        return false;
      }
      ok := true;
      var l := if jid.user in bndRes then bndRes[jid.user] else [];
      assert l != [] ==> ListOk(State(), jid.user, l);
      var k := Find(l, jid.resource);
      if k < 0 {
        ListMisses(State(), jid);
        AppendBinds(State(), id, jid);
        bndRes := bndRes[jid.user := l + [id]];
      } else {
        ListHolds(State(), jid, k);
        DropLoses(State(), id, jid);
      }
      stms := stms - {id};
      jids := jids[id := jid];
    }

    /** Takes a stream out of both levels. The list is searched by the stream's resource name, so a
        stream that is no longer registered takes away whoever holds its address now. */
    method Unregister(id: StreamId)
      requires Valid() && id in jids
      modifies this
      ensures Valid() && jids == old(jids) && stms == old(stms) - {id}
      ensures Abs() == if id in old(stms) then old(Abs()) - {id} else old(Abs()) - Holders(old(Abs()), jids[id])
      ensures Abs() == old(Abs()) - {id} <==> id in old(Abs()) || !Taken(old(Abs()), jids[id])
    {
      OwnOnlyInLevels(State(), id);
      ForgetAnonymous(State(), id);
      stms := stms - {id};
      ghost var mid := State();
      Unbind(jids[id]);
      if id in old(stms) {
        UnnamedHoldsNothing(mid, jids[id]);
      }
    }

    /** Takes the holder of an address out of the list of its user, and the list away with its last entry. */
    method Unbind(jid: Jid)
      requires Valid()
      modifies this`bndRes
      ensures Valid() && Abs() == old(Abs()) - Holders(old(Abs()), jid)
    {
      var l := if jid.user in bndRes then bndRes[jid.user] else [];
      assert l != [] ==> ListOk(State(), jid.user, l);
      var k := Find(l, jid.resource);
      if k < 0 {
        ListMisses(State(), jid);
        FreeHoldsNobody(Abs(), jid);
        return;
      }
      SpliceRemoves(State(), jid, k);
      bndRes := Spliced(bndRes, jid.user, k);
    }

    lemma UnnamedHoldsNothing(r: Levels, jid: Jid)
      requires LevelsOk(r) && jid.resource == ""
      ensures Holders(Flatten(r), jid) == {}
    {
      forall x | x in Flatten(r) ensures Flatten(r)[x] != Bound(jid) {
        if x !in r.stms { assert ListOk(r, r.jids[x].user, r.bndRes[r.jids[x].user]); }
      }
    }

    /** The stream that holds an address. */
    method Stream(jid: Jid) returns (found: bool, id: StreamId)
      requires Valid()
      ensures found <==> Taken(Abs(), jid)
      ensures found ==> id in Abs() && Abs()[id] == Bound(jid) && id in jids && jids[id] == jid && id !in stms
    {
      found, id := false, 0;
      if jid.user in bndRes {
        var l := bndRes[jid.user];
        assert ListOk(State(), jid.user, l);
        var k := Find(l, jid.resource);
        if k >= 0 {
          ListHolds(State(), jid, k);
          return true, l[k];
        }
      }
      ListMisses(State(), jid);
    }

    /** Delivery to an address: to the one stream that holds it, or to none. */
    method Route(jid: Jid) returns (targets: seq<StreamId>)
      requires Valid()
      ensures |targets| <= 1
      ensures forall id :: id in targets <==> id in Abs() && Abs()[id] == Bound(jid)
    {
      targets := [];
      if jid.user !in bndRes {
        ListMisses(State(), jid);
        return;
      }
      var l := bndRes[jid.user];
      assert ListOk(State(), jid.user, l);
      for i := 0 to |l|
        invariant forall id :: id in targets <==> id in l[..i] && jids[id].resource == jid.resource
        invariant |targets| <= 1 && (targets != [] ==> exists k :: 0 <= k < i && jids[l[k]].resource == jid.resource)
      {
        assert l[..i + 1] == l[..i] + [l[i]];
        if jids[l[i]].resource == jid.resource {
          targets := targets + [l[i]];
        }
      }
      assert l[..|l|] == l;
      forall id ensures id in targets <==> id in Abs() && Abs()[id] == Bound(jid) {
        if id in targets {
          var k :| 0 <= k < |l| && l[k] == id;
          ListHolds(State(), jid, k);
        }
      }
    }

    /** Resource binding of an authenticated, still anonymous stream, the resource manager of the
        node holding exactly the bound streams. */
    method BindResource(id: StreamId, user: string, req: Request, newName: string, policy: Policy, limit: int)
      returns (out: Outcome)
      requires Valid() && id in stms
      requires Admissible(Whole(), DoBind(id, user, req, newName, policy))
      modifies this
      ensures Valid()
      ensures out == BindOutcome(old(Abs()), user, req, newName, policy, limit)
      ensures Abs() == AfterBind(old(Abs()), id, out)
      ensures jids == if out.Accepted? then old(jids)[id := out.jid] else old(jids)
      ensures AnsweredByPolicy(old(Abs()), user, req, newName, policy, limit, out)
      ensures MovedByPolicy(old(Abs()), Abs(), id, user, req, policy, out)
    {
      ghost var before := Abs();
      BindByPolicy(before, id, user, req, newName, policy, limit);
      SessionsAreList(State(), user);
      var rss := if user in bndRes then bndRes[user] else [];
      if |rss| == limit {
        Unregister(id);
        return TooManySessions;
      }
      var res := newName;
      if req.Wanted? {
        res := req.resource;
        var taken, holder := Stream(Jid(user, res));
        if taken {
          match policy {
            case Override =>
              res := newName;
            case TerminateOld =>
              Unregister(holder);
            case Disallow =>
              return Conflict;
          }
        }
      }
      EvictedFree(before, Jid(user, res));
      var ok := Bind(id, Jid(user, res));
      out := Accepted(Jid(user, res));
    }
  }

  lemma FreeHoldsNobody(m: Flat, j: Jid)
    requires !Taken(m, j)
    ensures m - Holders(m, j) == m
  {
    assert Holders(m, j) == {};
  }

  lemma EvictedFree(m: Flat, j: Jid)
    ensures !Taken(m - Holders(m, j), j)
    ensures !Taken(m, j) ==> m - Holders(m, j) == m
  {
    if !Taken(m, j) { assert Holders(m, j) == {}; }
  }

  lemma OwnOnlyInLevels(r: Levels, id: StreamId)
    requires LevelsOk(r) && id in r.jids
    ensures var m := Flatten(r);
            (if id in r.stms then m - {id} else m - Holders(m, r.jids[id])) == m - {id} <==>
                id in m || !Taken(m, r.jids[id])
  {
    LevelsReported(r);
    UnregisterOwnOnly(Registry(Flatten(r), r.jids), id);
  }

  lemma LevelsReported(r: Levels)
    requires LevelsOk(r)
    ensures Unshared(Flatten(r)) && Reported(Registry(Flatten(r), r.jids))
  {
    var m := Flatten(r);
    forall a | a in m && m[a].Bound? ensures r.jids[a].resource != "" {
      assert ListOk(r, r.jids[a].user, r.bndRes[r.jids[a].user]);
    }
    forall a, b | a in m && b in m && m[a].Bound? && m[a] == m[b] ensures a == b {
      var l := r.bndRes[r.jids[a].user];
      assert ListOk(r, r.jids[a].user, l);
      var i :| 0 <= i < |l| && l[i] == a;
      var j :| 0 <= j < |l| && l[j] == b;
    }
  }

  /** The two-level registry refines the flat one: a run of the handlers is the run of the flat steps. */
  method Execute(router: LocalRouter, steps: seq<Step>, limit: string -> int)
    requires router.Valid() && AllAdmissible(router.Whole(), steps, limit)
    modifies router
    ensures router.Valid() && router.Whole() == Run(old(router.Whole()), steps, limit)
    ensures Sound(old(router.Whole()), limit) ==> Sound(router.Whole(), limit)
    decreases |steps|
  {
    if Sound(router.Whole(), limit) { RunSound(router.Whole(), steps, limit); }
    if |steps| > 0 {
      ghost var before := router.Whole();
      LevelsReported(router.State());
      match steps[0] {
        case DoRegister(id) => var _ := router.Register(id);
        case DoBind(id, user, req, newName, policy) =>
          var _ := router.BindResource(id, user, req, newName, policy, limit(user));
        case DoUnregister(id) => router.Unregister(id);
      }
      assert router.Whole() == Next(before, steps[0], limit);
      Execute(router, steps[1..], limit);
    }
  }

  /** Registers a stream and binds it to a free address. */
  method RegisterAt(router: LocalRouter, id: StreamId, j: Jid)
    requires router.Valid() && id !in router.jids && j.resource != "" && !Taken(router.Abs(), j)
    modifies router
    ensures router.Valid() && router.Whole() == Registry(old(router.Abs())[id := Bound(j)], old(router.jids)[id := j])
  {
    var ok := router.Register(id);
    assert router.Abs()[id] == Anonymous;
    assert !Taken(router.Abs(), j) by {
      forall x | x in router.Abs() ensures router.Abs()[x] != Bound(j) {}
    }
    ok := router.Bind(id, j);
  }

  /** The condition on unregistering is needed: once the first stream is gone and the second has taken its
      address, unregistering the first once more removes the second. */
  method UnregisteredTwice(router: LocalRouter, first: StreamId, second: StreamId, j: Jid)
    requires router.Valid() && router.Abs() == map[] && first != second && j.resource != ""
    requires first !in router.jids && second !in router.jids
    modifies router
    ensures router.Valid() && router.Abs() == map[]
  {
    RegisterAt(router, first, j);
    router.Unregister(first);
    assert router.Abs() == map[];
    RegisterAt(router, second, j);
    ghost var before := router.Abs();
    assert before == map[second := Bound(j)] && Holders(before, j) == {second};
    router.Unregister(first);
  }
}
