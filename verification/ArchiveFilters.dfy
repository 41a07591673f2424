/** Filtering an archive. The source cuts the list at the first message that meets a condition; this
    module says when the cuts are the same as testing every message. */
module ArchiveFilters {
  import opened Options
  import opened Sequences

  datatype Jid = Jid(bare: string, resource: string)

  datatype Message = Message(id: string, from: Jid, to: Jid, stamp: int)

  function IdOf(m: Message): string { m.id }

  datatype With = Anyone | Malformed | Peer(jid: Jid)

  datatype Filters = Filters(peer: With, ids: seq<string>, beforeId: string, afterId: string,
                             start: Option<int>, end: Option<int>)

  predicate MatchesPeer(w: With, m: Message) {
    match w
    case Anyone => true
    case Malformed => false
    case Peer(j) =>
      if j.resource != "" then m.from == j || m.to == j else m.from.bare == j.bare || m.to.bare == j.bare
  }

  // ---------------------------------------------------------------------------------------------
  // Testing every message
  // ---------------------------------------------------------------------------------------------

  function Filter(s: seq<Message>, p: Message -> bool): seq<Message> {
    if s == [] then []
    else Filter(s[..|s| - 1], p) + if p(s[|s| - 1]) then [s[|s| - 1]] else []
  }

  /** Position in the archive of the message with that id, or -1. */
  function Pos(all: seq<Message>, id: string): int {
    if all == [] then -1
    else if all[|all| - 1].id == id then |all| - 1
    else Pos(all[..|all| - 1], id)
  }

  /** The conjunction of the filter conditions; an empty field is no condition, and ids exclude anchors.
      Nothing stands before or after an id that is not in the archive. */
  function Wanted(all: seq<Message>, f: Filters): Message -> bool {
    (m: Message) =>
      && MatchesPeer(f.peer, m)
      && (if f.ids != [] then m.id in f.ids
          else (f.beforeId != "" ==> Pos(all, m.id) < Pos(all, f.beforeId)) &&
               (f.afterId != "" ==> 0 <= Pos(all, f.afterId) < Pos(all, m.id)))
      && (f.start.Some? ==> m.stamp > f.start.value)
      && (f.end.Some? ==> m.stamp < f.end.value)
  }

  // ---------------------------------------------------------------------------------------------
  // Cutting
  // ---------------------------------------------------------------------------------------------

  function HasId(id: string): Message -> bool { (m: Message) => m.id == id }

  function InIds(ids: seq<string>): Message -> bool { (m: Message) => m.id in ids }

  function Later(t: int): Message -> bool { (m: Message) => m.stamp > t }

  function NotBefore(t: int): Message -> bool { (m: Message) => m.stamp >= t }

  function Earlier(t: int): Message -> bool { (m: Message) => m.stamp < t }

  function PeerTest(w: With): Message -> bool { (m: Message) => MatchesPeer(w, m) }

  function PosBelow(all: seq<Message>, id: string): Message -> bool { (m: Message) => Pos(all, m.id) < Pos(all, id) }

  function PosAbove(all: seq<Message>, id: string): Message -> bool { (m: Message) => Pos(all, m.id) > Pos(all, id) }

  /** First position where `p` holds, or the length. */
  function First(s: seq<Message>, p: Message -> bool): nat {
    if s == [] || p(s[0]) then 0 else 1 + First(s[1..], p)
  }

  lemma {:induction false} FirstIs(s: seq<Message>, p: Message -> bool)
    ensures First(s, p) <= |s|
    ensures First(s, p) < |s| ==> p(s[First(s, p)])
    ensures forall i :: 0 <= i < First(s, p) ==> !p(s[i])
  {
    if s != [] && !p(s[0]) {
      FirstIs(s[1..], p);
      assert forall i :: 1 <= i < |s| ==> s[i] == s[1..][i - 1];
    }
  }

  function CutBefore(s: seq<Message>, id: string): seq<Message> {
    FirstIs(s, HasId(id));
    s[..First(s, HasId(id))]
  }

  /** Without a message of that id nothing is cut. */
  function CutAfter(s: seq<Message>, id: string): seq<Message> {
    FirstIs(s, HasId(id));
    var k := First(s, HasId(id));
    if k == |s| then s else s[k + 1..]
  }

  /** Without a later message nothing is cut. */
  function CutStart(s: seq<Message>, t: int): seq<Message> {
    FirstIs(s, Later(t));
    var k := First(s, Later(t));
    if k == |s| then s else s[k..]
  }

  function CutEnd(s: seq<Message>, t: int): seq<Message> {
    FirstIs(s, NotBefore(t));
    s[..First(s, NotBefore(t))]
  }

  function ByPeer(s: seq<Message>, f: Filters): seq<Message> {
    if f.peer.Anyone? then s else Filter(s, PeerTest(f.peer))
  }

  function ByIds(s: seq<Message>, f: Filters): seq<Message> {
    if f.ids != [] then Filter(s, InIds(f.ids))
    else
      var s1 := if f.beforeId != "" then CutBefore(s, f.beforeId) else s;
      if f.afterId != "" then CutAfter(s1, f.afterId) else s1
  }

  function ByTime(s: seq<Message>, f: Filters): seq<Message> {
    var s1 := if f.start.Some? then CutStart(s, f.start.value) else s;
    if f.end.Some? then CutEnd(s1, f.end.value) else s1
  }

  /** What applyFilters returns; a malformed address is an error. */
  function Cuts(s: seq<Message>, f: Filters): Option<seq<Message>> {
    if f.peer.Malformed? then None else Some(ByTime(ByIds(ByPeer(s, f), f), f))
  }

  method FilterLoop(s: seq<Message>, p: Message -> bool) returns (r: seq<Message>)
    ensures r == Filter(s, p)
  {
    r := [];
    for i := 0 to |s|
      invariant r == Filter(s[..i], p)
    {
      assert s[..i + 1][..i] == s[..i];
      if p(s[i]) {
        r := r + [s[i]];
      }
    }
    assert s[..|s|] == s;
  }

  method FirstLoop(s: seq<Message>, p: Message -> bool) returns (k: nat)
    ensures k == First(s, p) && k <= |s|
  {
    FirstIs(s, p);
    for i := 0 to |s|
      invariant forall j :: 0 <= j < i ==> !p(s[j])
    {
      if p(s[i]) {
        return i;
      }
    }
    k := |s|;
  }

  method FilterByIds(messages: seq<Message>, f: Filters) returns (s: seq<Message>)
    ensures s == ByIds(messages, f)
  {
    s := messages;
    if |f.ids| > 0 {
      s := FilterLoop(s, InIds(f.ids));
    } else {
      if |f.beforeId| > 0 {
        var k := FirstLoop(s, HasId(f.beforeId));
        s := s[..k];
      }
      if |f.afterId| > 0 {
        var k := FirstLoop(s, HasId(f.afterId));
        if k < |s| {
          s := s[k + 1..];
        }
      }
    }
  }

  method FilterByTime(messages: seq<Message>, f: Filters) returns (s: seq<Message>)
    ensures s == ByTime(messages, f)
  {
    s := messages;
    if f.start.Some? {
      var k := FirstLoop(s, Later(f.start.value));
      if k < |s| {
        s := s[k..];
      }
    }
    if f.end.Some? {
      var k := FirstLoop(s, NotBefore(f.end.value));
      s := s[..k];
    }
  }

  method ApplyFilters(messages: seq<Message>, f: Filters) returns (r: Option<seq<Message>>)
    ensures r == Cuts(messages, f)
  {
    var s := messages;
    if !f.peer.Anyone? {
      if f.peer.Malformed? {
        return None;
      }
      s := FilterLoop(s, PeerTest(f.peer));
    }
    s := FilterByIds(s, f);
    s := FilterByTime(s, f);
    r := Some(s);
  }

  // ---------------------------------------------------------------------------------------------
  // Cutting is filtering
  // ---------------------------------------------------------------------------------------------

  /** A stretch of the archive in archive order: positions and stamps grow. */
  ghost predicate Ordered(all: seq<Message>, s: seq<Message>) {
    && (forall i :: 0 <= i < |s| ==> s[i] in all)
    && (forall i, j :: 0 <= i < j < |s| ==> Pos(all, s[i].id) < Pos(all, s[j].id) && s[i].stamp <= s[j].stamp)
  }

  ghost predicate StampOrdered(s: seq<Message>) {
    forall i, j :: 0 <= i < j < |s| ==> s[i].stamp <= s[j].stamp
  }

  lemma {:induction false} PosOf(all: seq<Message>, k: nat)
    requires DistinctBy(all, IdOf) && k < |all|
    ensures Pos(all, all[k].id) == k
  {
    if k < |all| - 1 {
      assert all[k].id != all[|all| - 1].id;
      PosOf(all[..|all| - 1], k);
    }
  }

  lemma WholeOrdered(all: seq<Message>)
    requires DistinctBy(all, IdOf) && StampOrdered(all)
    ensures Ordered(all, all)
  {
    forall i, j | 0 <= i < j < |all| ensures Pos(all, all[i].id) < Pos(all, all[j].id) {
      PosOf(all, i);
      PosOf(all, j);
    }
  }

  lemma {:induction false} FilterMembers(s: seq<Message>, p: Message -> bool)
    ensures forall m :: m in Filter(s, p) <==> m in s && p(m)
  {
    if s != [] {
      FilterMembers(s[..|s| - 1], p);
      assert s == s[..|s| - 1] + [s[|s| - 1]];
    }
  }

  /** A conversation is what the peer said and what was said to it: with a resource that very address, and
      without one any address of the account. */
  lemma ConversationBothWays(all: seq<Message>, j: Jid, m: Message)
    ensures var kept := Cuts(all, Filters(Peer(j), [], "", "", None, None));
            && kept.Some?
            && (m in kept.value <==>
                  m in all && exists end :: end in {m.from, m.to} && end.bare == j.bare &&
                                            (j.resource == "" || end.resource == j.resource))
  {
    FilterMembers(all, PeerTest(Peer(j)));
    assert m.from in {m.from, m.to} && m.to in {m.from, m.to};
  }

  lemma {:induction false} FilterOrdered(all: seq<Message>, s: seq<Message>, p: Message -> bool)
    requires Ordered(all, s)
    ensures Ordered(all, Filter(s, p))
  {
    if s != [] {
      var front, last := s[..|s| - 1], s[|s| - 1];
      FilterOrdered(all, front, p);
      FilterMembers(front, p);
      forall i | 0 <= i < |Filter(front, p)|
        ensures Pos(all, Filter(front, p)[i].id) < Pos(all, last.id) && Filter(front, p)[i].stamp <= last.stamp
      {
        var m := Filter(front, p)[i];
        assert m in front;
        var k :| 0 <= k < |front| && front[k] == m;
        assert s[k] == m;
      }
    }
  }

  lemma {:induction false} FilterSame(s: seq<Message>, p: Message -> bool, q: Message -> bool)
    requires forall m :: m in s ==> (p(m) <==> q(m))
    ensures Filter(s, p) == Filter(s, q)
  {
    if s != [] {
      assert forall m :: m in s[..|s| - 1] ==> m in s;
      FilterSame(s[..|s| - 1], p, q);
    }
  }

  /** Filtering twice is filtering by both conditions. */
  lemma {:induction false} FilterTwice(s: seq<Message>, p: Message -> bool, q: Message -> bool, pq: Message -> bool)
    requires forall m :: m in s ==> (pq(m) <==> p(m) && q(m))
    ensures Filter(Filter(s, p), q) == Filter(s, pq)
  {
    if s != [] {
      var front, last := s[..|s| - 1], s[|s| - 1];
      assert forall m :: m in front ==> m in s;
      FilterTwice(front, p, q, pq);
      if p(last) {
        assert (Filter(front, p) + [last])[..|Filter(front, p)|] == Filter(front, p);
      } else {
        assert Filter(s, p) == Filter(front, p);
      }
    }
  }

  lemma {:induction false} FilterAll(s: seq<Message>, p: Message -> bool)
    requires forall i :: 0 <= i < |s| ==> p(s[i])
    ensures Filter(s, p) == s
  {
    if s != [] { FilterAll(s[..|s| - 1], p); }
  }

  lemma {:induction false} FilterNone(s: seq<Message>, p: Message -> bool)
    requires forall i :: 0 <= i < |s| ==> !p(s[i])
    ensures Filter(s, p) == []
  {
    if s != [] { FilterNone(s[..|s| - 1], p); }
  }

  lemma {:induction false} FilterConcat(a: seq<Message>, b: seq<Message>, p: Message -> bool)
    ensures Filter(a + b, p) == Filter(a, p) + Filter(b, p)
  {
    if b == [] {
      assert a + b == a;
    } else {
      assert (a + b)[..|a + b| - 1] == a + b[..|b| - 1];
      FilterConcat(a, b[..|b| - 1], p);
    }
  }

  lemma FilterFront(a: seq<Message>, b: seq<Message>, p: Message -> bool)
    requires (forall i :: 0 <= i < |a| ==> p(a[i])) && forall i :: 0 <= i < |b| ==> !p(b[i])
    ensures Filter(a + b, p) == a
  {
    FilterConcat(a, b, p);
    FilterAll(a, p);
    FilterNone(b, p);
  }

  lemma FilterBack(a: seq<Message>, b: seq<Message>, p: Message -> bool)
    requires (forall i :: 0 <= i < |a| ==> !p(a[i])) && forall i :: 0 <= i < |b| ==> p(b[i])
    ensures Filter(a + b, p) == b
  {
    FilterConcat(a, b, p);
    FilterNone(a, p);
    FilterAll(b, p);
  }

  /** A condition that holds up to a point and not after it keeps a prefix. */
  lemma PrefixIsFilter(s: seq<Message>, p: Message -> bool, k: nat)
    requires k <= |s| && (forall i :: 0 <= i < k ==> p(s[i])) && forall i :: k <= i < |s| ==> !p(s[i])
    ensures Filter(s, p) == s[..k]
  {
    FilterFront(s[..k], s[k..], p);
    assert s == s[..k] + s[k..];
  }

  lemma SuffixIsFilter(s: seq<Message>, p: Message -> bool, k: nat)
    requires k <= |s| && (forall i :: 0 <= i < k ==> !p(s[i])) && forall i :: k <= i < |s| ==> p(s[i])
    ensures Filter(s, p) == s[k..]
  {
    FilterBack(s[..k], s[k..], p);
    assert s == s[..k] + s[k..];
  }

  /** An anchor that is in the list. */
  predicate Present(s: seq<Message>, id: string) {
    exists m :: m in s && m.id == id
  }

  lemma CutBeforeIsFilter(all: seq<Message>, s: seq<Message>, id: string)
    requires Ordered(all, s) && Present(s, id)
    ensures CutBefore(s, id) == Filter(s, PosBelow(all, id))
  {
    var k := AnchorAt(s, id);
    PrefixIsFilter(s, PosBelow(all, id), k);
  }

  lemma AnchorAt(s: seq<Message>, id: string) returns (k: nat)
    requires Present(s, id)
    ensures k == First(s, HasId(id)) && k < |s| && s[k].id == id
  {
    k := First(s, HasId(id));
    FirstIs(s, HasId(id));
    var m :| m in s && m.id == id;
    var i :| 0 <= i < |s| && s[i] == m;
  }

  lemma CutAfterIsFilter(all: seq<Message>, s: seq<Message>, id: string)
    requires Ordered(all, s) && Present(s, id)
    ensures CutAfter(s, id) == Filter(s, PosAbove(all, id))
  {
    var k := AnchorAt(s, id);
    SuffixIsFilter(s, PosAbove(all, id), k + 1);
  }

  /** The start cut tests every message exactly when the list is empty or some message is later than
      the bound; otherwise it keeps what it should drop. */
  lemma CutStartIsFilter(all: seq<Message>, s: seq<Message>, t: int)
    requires Ordered(all, s)
    ensures CutStart(s, t) == Filter(s, Later(t)) <==> s == [] || exists m :: m in s && m.stamp > t
  {
    var p := Later(t);
    FirstIs(s, p);
    var k := First(s, p);
    if k == |s| {
      assert forall m :: m in s ==> m.stamp <= t;
      FilterNone(s, p);
    } else {
      assert s[k] in s;
      SuffixIsFilter(s, p, k);
    }
  }

  lemma CutEndIsFilter(all: seq<Message>, s: seq<Message>, t: int)
    requires Ordered(all, s)
    ensures CutEnd(s, t) == Filter(s, Earlier(t))
  {
    var p := NotBefore(t);
    FirstIs(s, p);
    PrefixIsFilter(s, Earlier(t), First(s, p));
  }

  // ---------------------------------------------------------------------------------------------
  // The whole request
  // ---------------------------------------------------------------------------------------------

  /** The anchors that are given stand in the list left by the address filter, "after" first. */
  ghost predicate AnchorsOk(all: seq<Message>, f: Filters) {
    f.ids == [] ==>
      var s := ByPeer(all, f);
      && (f.beforeId != "" ==> Present(s, f.beforeId))
      && (f.afterId != "" ==> Present(s, f.afterId))
      && (f.beforeId != "" && f.afterId != "" ==> Pos(all, f.afterId) < Pos(all, f.beforeId))
  }

  /** A start bound is given only if some message of the list it cuts is later, or that list is empty. */
  ghost predicate StartOk(all: seq<Message>, f: Filters) {
    f.start.Some? ==> var s := ByIds(ByPeer(all, f), f); s == [] || exists m :: m in s && m.stamp > f.start.value
  }

  lemma ByPeerIsFilter(all: seq<Message>, f: Filters)
    requires !f.peer.Malformed? && Ordered(all, all)
    ensures ByPeer(all, f) == Filter(all, PeerTest(f.peer)) && Ordered(all, ByPeer(all, f))
  {
    FilterOrdered(all, all, PeerTest(f.peer));
    if f.peer.Anyone? { FilterAll(all, PeerTest(f.peer)); }
  }

  // ---------------------------------------------------------------------------------------------
  // Exactly when a request is answered rightly
  // ---------------------------------------------------------------------------------------------

  function Between(before: string, after: string): Filters { Filters(Anyone, [], before, after, None, None) }

  lemma NotPresent(s: seq<Message>, id: string)
    requires !Present(s, id)
    ensures First(s, HasId(id)) == |s| && CutBefore(s, id) == s && CutAfter(s, id) == s
  {
    FirstIs(s, HasId(id));
    assert forall i :: 0 <= i < |s| ==> s[i] in s;
  }

  lemma {:induction false} InArchive(all: seq<Message>, m: Message)
    requires m in all
    ensures Pos(all, m.id) >= 0
  {
    var front, last := all[..|all| - 1], all[|all| - 1];
    assert all == front + [last];
    if last.id != m.id { InArchive(front, m); }
  }

  lemma KnownPos(all: seq<Message>, s: seq<Message>, id: string)
    requires Ordered(all, s) && Present(s, id)
    ensures Pos(all, id) >= 0
  {
    var m :| m in s && m.id == id;
    InArchive(all, m);
  }

  /** An anchor that is not in the list it should cut does nothing. */
  lemma CutBeforeEffect(all: seq<Message>, s: seq<Message>, id: string, p: Message -> bool)
    requires Ordered(all, s) && forall m :: p(m) <==> (Present(s, id) ==> Pos(all, m.id) < Pos(all, id))
    ensures CutBefore(s, id) == Filter(s, p)
  {
    if Present(s, id) {
      CutBeforeIsFilter(all, s, id);
      FilterSame(s, PosBelow(all, id), p);
    } else {
      NotPresent(s, id);
      FilterAll(s, p);
    }
  }

  lemma CutAfterEffect(all: seq<Message>, s: seq<Message>, id: string, p: Message -> bool)
    requires Ordered(all, s) && forall m :: p(m) <==> (Present(s, id) ==> 0 <= Pos(all, id) < Pos(all, m.id))
    ensures CutAfter(s, id) == Filter(s, p)
  {
    if Present(s, id) {
      KnownPos(all, s, id);
      CutAfterIsFilter(all, s, id);
      FilterSame(s, PosAbove(all, id), p);
    } else {
      NotPresent(s, id);
      FilterAll(s, p);
    }
  }

  function Anchored(peer: With, before: string, after: string): Filters { Filters(peer, [], before, after, None, None) }

  /** The list that the "after" anchor is looked for in. */
  function UpTo(s: seq<Message>, before: string): seq<Message> { if before != "" then CutBefore(s, before) else s }

  ghost predicate PassesBefore(all: seq<Message>, before: string, m: Message) {
    before != "" ==> Pos(all, m.id) < Pos(all, before)
  }

  ghost predicate PassesAfter(all: seq<Message>, after: string, m: Message) {
    after != "" ==> 0 <= Pos(all, after) < Pos(all, m.id)
  }

  /** What the cuts test: an anchor counts only if it is found. */
  ghost predicate InEffect(all: seq<Message>, s: seq<Message>, before: string, after: string, m: Message) {
    && (Present(s, before) ==> PassesBefore(all, before, m))
    && (Present(UpTo(s, before), after) ==> PassesAfter(all, after, m))
  }

  ghost function EffectTest(all: seq<Message>, s: seq<Message>, before: string, after: string): Message -> bool {
    m => InEffect(all, s, before, after, m)
  }

  lemma AnchorsEffect(all: seq<Message>, s: seq<Message>, before: string, after: string)
    requires Ordered(all, s)
    ensures var f := Anchored(Anyone, before, after);
            ByIds(s, f) == Filter(s, EffectTest(all, s, before, after))
  {
    var f := Anchored(Anyone, before, after);
    var p := m => Present(s, before) ==> PassesBefore(all, before, m);
    var s1 := UpTo(s, before);
    assert s1 == Filter(s, p) by {
      if before != "" { CutBeforeEffect(all, s, before, p); } else { FilterAll(s, p); }
    }
    FilterOrdered(all, s, p);
    var q := m => Present(s1, after) ==> PassesAfter(all, after, m);
    assert ByIds(s, f) == Filter(s1, q) by {
      if after != "" { CutAfterEffect(all, s1, after, q); } else { FilterAll(s1, q); }
    }
    FilterTwice(s, p, q, EffectTest(all, s, before, after));
  }

  lemma FiltersEqual(s: seq<Message>, p: Message -> bool, q: Message -> bool)
    ensures Filter(s, p) == Filter(s, q) <==> forall m :: m in s ==> (p(m) <==> q(m))
  {
    FilterMembers(s, p);
    FilterMembers(s, q);
    if forall m :: m in s ==> (p(m) <==> q(m)) {
      FilterSame(s, p, q);
    } else {
      var m :| m in s && (p(m) <==> !q(m));
      assert m in Filter(s, p) <==> m !in Filter(s, q);
    }
  }

  /** What the whole request tests: anchors that are found, a start bound that some message passes, the end. */
  ghost predicate IdsInEffect(all: seq<Message>, s: seq<Message>, f: Filters, m: Message) {
    if f.ids != [] then m.id in f.ids else InEffect(all, s, f.beforeId, f.afterId, m)
  }

  ghost predicate StartInEffect(s: seq<Message>, f: Filters, m: Message) {
    f.start.Some? && (exists x :: x in s && x.stamp > f.start.value) ==> m.stamp > f.start.value
  }

  ghost predicate EndInEffect(f: Filters, m: Message) { f.end.Some? ==> m.stamp < f.end.value }

  ghost function IdsTest(all: seq<Message>, s: seq<Message>, f: Filters): Message -> bool {
    m => IdsInEffect(all, s, f, m)
  }

  ghost function TimesTest(s: seq<Message>, f: Filters): Message -> bool {
    m => StartInEffect(s, f, m) && EndInEffect(f, m)
  }

  ghost function CutsTest(all: seq<Message>, f: Filters): Message -> bool {
    var s := ByPeer(all, f);
    m => IdsInEffect(all, s, f, m) && StartInEffect(ByIds(s, f), f, m) && EndInEffect(f, m)
  }

  /** All that the request asks for besides the address. */
  ghost predicate PassesRest(all: seq<Message>, f: Filters, m: Message) {
    && (if f.ids != [] then m.id in f.ids else PassesBefore(all, f.beforeId, m) && PassesAfter(all, f.afterId, m))
    && (f.start.Some? ==> m.stamp > f.start.value)
    && (f.end.Some? ==> m.stamp < f.end.value)
  }

  ghost function RestTest(all: seq<Message>, f: Filters): Message -> bool { m => PassesRest(all, f, m) }

  lemma IdsEffect(all: seq<Message>, s: seq<Message>, f: Filters)
    requires Ordered(all, s)
    ensures ByIds(s, f) == Filter(s, IdsTest(all, s, f))
  {
    if f.ids != [] {
      FilterSame(s, InIds(f.ids), IdsTest(all, s, f));
    } else {
      AnchorsEffect(all, s, f.beforeId, f.afterId);
      FilterSame(s, EffectTest(all, s, f.beforeId, f.afterId), IdsTest(all, s, f));
    }
  }

  lemma StartEffect(all: seq<Message>, s: seq<Message>, f: Filters, p: Message -> bool)
    requires Ordered(all, s) && f.start.Some? && forall m :: p(m) <==> StartInEffect(s, f, m)
    ensures CutStart(s, f.start.value) == Filter(s, p)
  {
    var t := f.start.value;
    if exists x :: x in s && x.stamp > t {
      CutStartIsFilter(all, s, t);
      FilterSame(s, Later(t), p);
    } else {
      NoneLater(s, t);
      FilterAll(s, p);
    }
  }

  lemma NoneLater(s: seq<Message>, t: int)
    requires forall x :: x in s ==> x.stamp <= t
    ensures CutStart(s, t) == s
  {
    FirstIs(s, Later(t));
  }

  lemma TimesEffect(all: seq<Message>, s: seq<Message>, f: Filters)
    requires Ordered(all, s)
    ensures ByTime(s, f) == Filter(s, TimesTest(s, f))
  {
    var p, q := (m: Message) => StartInEffect(s, f, m), (m: Message) => EndInEffect(f, m);
    var s1 := if f.start.Some? then CutStart(s, f.start.value) else s;
    assert s1 == Filter(s, p) by {
      if f.start.Some? { StartEffect(all, s, f, p); } else { FilterAll(s, p); }
    }
    FilterOrdered(all, s, p);
    assert ByTime(s, f) == Filter(s1, q) by {
      if f.end.Some? {
        CutEndIsFilter(all, s1, f.end.value);
        FilterSame(s1, Earlier(f.end.value), q);
      } else { FilterAll(s1, q); }
    }
    FilterTwice(s, p, q, TimesTest(s, f));
  }

  /** What a request returns, without any condition on it: the messages that pass what is in effect. */
  lemma CutsEffect(all: seq<Message>, f: Filters)
    requires Ordered(all, all) && !f.peer.Malformed?
    ensures Cuts(all, f) == Some(Filter(ByPeer(all, f), CutsTest(all, f)))
  {
    ByPeerIsFilter(all, f);
    var s := ByPeer(all, f);
    IdsEffect(all, s, f);
    FilterOrdered(all, s, IdsTest(all, s, f));
    TimesEffect(all, ByIds(s, f), f);
    FilterTwice(s, IdsTest(all, s, f), TimesTest(ByIds(s, f), f), CutsTest(all, f));
  }

  lemma WantedIsRest(all: seq<Message>, f: Filters)
    requires Ordered(all, all) && !f.peer.Malformed?
    ensures Filter(all, Wanted(all, f)) == Filter(ByPeer(all, f), RestTest(all, f))
  {
    ByPeerIsFilter(all, f);
    FilterTwice(all, PeerTest(f.peer), RestTest(all, f), Wanted(all, f));
  }

  // A request is answered rightly if what is in effect implies all that it asks for.
  lemma RequestAnsweredExactly(all: seq<Message>, f: Filters)
    requires DistinctBy(all, IdOf) && StampOrdered(all) && !f.peer.Malformed?
    ensures Cuts(all, f) == Some(Filter(all, Wanted(all, f))) <==>
            forall m :: m in ByPeer(all, f) && CutsTest(all, f)(m) ==> RestTest(all, f)(m)
  {
    WholeOrdered(all);
    CutsEffect(all, f);
    WantedIsRest(all, f);
    FiltersEqual(ByPeer(all, f), CutsTest(all, f), RestTest(all, f));
    assert forall m :: RestTest(all, f)(m) ==> CutsTest(all, f)(m);
  }

  lemma AnchorsInEffect(all: seq<Message>, f: Filters)
    requires Ordered(all, all) && !f.peer.Malformed? && f.ids == [] && AnchorsOk(all, f)
    ensures var s := ByPeer(all, f);
            && (f.beforeId != "" ==> Present(s, f.beforeId))
            && (f.afterId != "" ==> Present(UpTo(s, f.beforeId), f.afterId))
  {
    ByPeerIsFilter(all, f);
    var s := ByPeer(all, f);
    if f.beforeId != "" && f.afterId != "" {
      CutBeforeIsFilter(all, s, f.beforeId);
      FilterMembers(s, PosBelow(all, f.beforeId));
      var m :| m in s && m.id == f.afterId;
      assert m in UpTo(s, f.beforeId);
    }
  }

  /** On a stamp-ordered archive with distinct ids, with anchors and start bound that cut, the cuts
      return exactly the messages that satisfy all conditions, in order. */
  lemma CutsAreFilter(all: seq<Message>, f: Filters)
    requires DistinctBy(all, IdOf) && StampOrdered(all) && !f.peer.Malformed?
    requires AnchorsOk(all, f) && StartOk(all, f)
    ensures Cuts(all, f) == Some(Filter(all, Wanted(all, f)))
  {
    WholeOrdered(all);
    ByPeerIsFilter(all, f);
    var s := ByPeer(all, f);
    IdsEffect(all, s, f);
    FilterMembers(s, IdsTest(all, s, f));
    if f.ids == [] { AnchorsInEffect(all, f); }
    forall m | m in s && CutsTest(all, f)(m) ensures RestTest(all, f)(m) {
      assert m in ByIds(s, f) && StartInEffect(ByIds(s, f), f, m);
    }
    RequestAnsweredExactly(all, f);
  }

  /** A "before" id that is unknown, or that the address test removed, returns everything; so does an "after"
      id. */
  lemma LostAnchorReturnsEverything(all: seq<Message>, peer: With, id: string)
    requires !peer.Malformed? && !Present(ByPeer(all, Anchored(peer, id, "")), id)
    ensures Cuts(all, Anchored(peer, id, "")) == Some(ByPeer(all, Anchored(peer, id, "")))
    ensures Cuts(all, Anchored(peer, "", id)) == Some(ByPeer(all, Anchored(peer, id, "")))
  {
    NotPresent(ByPeer(all, Anchored(peer, id, "")), id);
  }

  lemma {:induction false} UnknownPos(all: seq<Message>, id: string)
    requires !Present(all, id)
    ensures Pos(all, id) == -1
  {
    if all != [] {
      assert all[|all| - 1] in all && forall m :: m in all[..|all| - 1] ==> m in all;
      UnknownPos(all[..|all| - 1], id);
    }
  }

  /** Yet nothing stands before or after an id that is unknown. */
  lemma UnknownAnchorWantsNothing(all: seq<Message>, peer: With, id: string)
    requires !Present(all, id) && id != ""
    ensures Filter(all, Wanted(all, Anchored(peer, id, ""))) == []
    ensures Filter(all, Wanted(all, Anchored(peer, "", id))) == []
  {
    UnknownPos(all, id);
    assert forall i :: 0 <= i < |all| ==> all[i] in all;
    forall i | 0 <= i < |all| ensures Pos(all, all[i].id) >= 0 { InArchive(all, all[i]); }
    FilterNone(all, Wanted(all, Anchored(peer, id, "")));
    FilterNone(all, Wanted(all, Anchored(peer, "", id)));
  }

  /** The guard on anchors, from the positions of the anchors and of the first and last message of the right
      address: an anchor must be there, or stand outside what is there on the side where it cuts nothing;
      and two anchors that are there must be in order, unless nothing is in front of "before". */
  predicate AnchorGuard(all: seq<Message>, s: seq<Message>, before: string, after: string) {
    s == [] ||
    var lo, hi, b, a := Pos(all, s[0].id), Pos(all, s[|s| - 1].id), Pos(all, before), Pos(all, after);
    if before == "" && after == "" then true
    else if after == "" then Present(s, before) || hi < b
    else if before == "" then Present(s, after) || 0 <= a < lo
    else if Present(s, before) then b <= lo || (Present(s, after) && a < b) || 0 <= a < lo
    else if Present(s, after) then hi <= a || hi < b
    else 0 <= a < lo && hi < b
  }

  ghost predicate EffectSuffices(all: seq<Message>, s: seq<Message>, before: string, after: string) {
    forall m :: m in s && InEffect(all, s, before, after, m) ==>
        PassesBefore(all, before, m) && PassesAfter(all, after, m)
  }

  lemma Within(all: seq<Message>, s: seq<Message>)
    requires Ordered(all, s) && s != []
    ensures forall m :: m in s ==> Pos(all, s[0].id) <= Pos(all, m.id) <= Pos(all, s[|s| - 1].id)
    ensures s[0] in s && s[|s| - 1] in s
  {
    forall m | m in s ensures Pos(all, s[0].id) <= Pos(all, m.id) <= Pos(all, s[|s| - 1].id) {
      var i :| 0 <= i < |s| && s[i] == m;
    }
  }

  lemma FoundUpTo(all: seq<Message>, s: seq<Message>, before: string, after: string)
    requires Ordered(all, s) && before != ""
    ensures Present(UpTo(s, before), after) <==>
            Present(s, after) && (Present(s, before) ==> Pos(all, after) < Pos(all, before))
  {
    if Present(s, before) {
      CutBeforeIsFilter(all, s, before);
      FilterMembers(s, PosBelow(all, before));
      if Present(s, after) {
        var m :| m in s && m.id == after;
        assert m in UpTo(s, before) <==> Pos(all, after) < Pos(all, before);
      }
    } else {
      NotPresent(s, before);
    }
  }

  lemma GuardNeeded(all: seq<Message>, s: seq<Message>, before: string, after: string)
    requires Ordered(all, s) && EffectSuffices(all, s, before, after)
    ensures AnchorGuard(all, s, before, after)
  {
    if s != [] {
      Within(all, s);
      if before != "" { FoundUpTo(all, s, before, after); }
      EndsPass(all, s, before, after, s[0]);
      EndsPass(all, s, before, after, s[|s| - 1]);
      if after != "" && Present(s, after) { KnownPos(all, s, after); }
    }
  }

  lemma EndsPass(all: seq<Message>, s: seq<Message>, before: string, after: string, m: Message)
    requires EffectSuffices(all, s, before, after) && m in s
    ensures InEffect(all, s, before, after, m) ==> PassesBefore(all, before, m) && PassesAfter(all, after, m)
  {
  }

  lemma GuardEnough(all: seq<Message>, s: seq<Message>, before: string, after: string, m: Message)
    requires Ordered(all, s) && AnchorGuard(all, s, before, after) && m in s && InEffect(all, s, before, after, m)
    ensures PassesBefore(all, before, m) && PassesAfter(all, after, m)
  {
    Within(all, s);
    if before != "" { FoundUpTo(all, s, before, after); }
    if after != "" && Present(s, after) { KnownPos(all, s, after); }
  }

  /** The positions decide. */
  lemma GuardDecides(all: seq<Message>, s: seq<Message>, before: string, after: string)
    requires Ordered(all, s)
    ensures EffectSuffices(all, s, before, after) <==> AnchorGuard(all, s, before, after)
  {
    if AnchorGuard(all, s, before, after) {
      forall m | m in s && InEffect(all, s, before, after, m)
        ensures PassesBefore(all, before, m) && PassesAfter(all, after, m)
      {
        GuardEnough(all, s, before, after, m);
      }
    } else if EffectSuffices(all, s, before, after) {
      GuardNeeded(all, s, before, after);
    }
  }

  lemma RestIsAnchors(all: seq<Message>, f: Filters, m: Message)
    requires f.ids == [] && f.start.None? && f.end.None?
    ensures CutsTest(all, f)(m) <==> InEffect(all, ByPeer(all, f), f.beforeId, f.afterId, m)
    ensures RestTest(all, f)(m) <==> PassesBefore(all, f.beforeId, m) && PassesAfter(all, f.afterId, m)
  {
  }

  /** Anchors, with or without an address, are answered rightly if and only if the guard holds. */
  lemma AnchorsAnsweredExactly(all: seq<Message>, f: Filters)
    requires DistinctBy(all, IdOf) && StampOrdered(all) && !f.peer.Malformed?
    requires f.ids == [] && f.start.None? && f.end.None?
    ensures Cuts(all, f) == Some(Filter(all, Wanted(all, f))) <==>
            AnchorGuard(all, ByPeer(all, f), f.beforeId, f.afterId)
  {
    WholeOrdered(all);
    ByPeerIsFilter(all, f);
    RequestAnsweredExactly(all, f);
    GuardDecides(all, ByPeer(all, f), f.beforeId, f.afterId);
    forall m ensures CutsTest(all, f)(m) <==> InEffect(all, ByPeer(all, f), f.beforeId, f.afterId, m)
        ensures RestTest(all, f)(m) <==> PassesBefore(all, f.beforeId, m) && PassesAfter(all, f.afterId, m) {
      RestIsAnchors(all, f, m);
    }
  }

  /** The guard on times, for the list that they cut: a start bound must have a later message, unless there is
      no message or the end leaves none. */
  predicate TimeGuard(s: seq<Message>, f: Filters) {
    || f.start.None? || s == [] || (exists m :: m in s && m.stamp > f.start.value)
    || (f.end.Some? && s[0].stamp >= f.end.value)
  }

  ghost predicate TimesSuffice(s: seq<Message>, f: Filters) {
    forall m :: m in s && StartInEffect(s, f, m) && EndInEffect(f, m) ==> (f.start.Some? ==> m.stamp > f.start.value)
  }

  lemma TimeGuardDecides(all: seq<Message>, s: seq<Message>, f: Filters)
    requires Ordered(all, s)
    ensures TimesSuffice(s, f) <==> TimeGuard(s, f)
  {
    if f.start.Some? && s != [] && forall m :: m in s ==> m.stamp <= f.start.value {
      assert s[0] in s;
      if f.end.Some? && s[0].stamp >= f.end.value {
        forall m | m in s ensures m.stamp >= s[0].stamp { var i :| 0 <= i < |s| && s[i] == m; }
      } else {
        assert StartInEffect(s, f, s[0]) && EndInEffect(f, s[0]);
      }
    }
  }

  predicate IdsGuard(all: seq<Message>, f: Filters) {
    f.ids != [] || AnchorGuard(all, ByPeer(all, f), f.beforeId, f.afterId)
  }

  /** Any request whose anchors pass their guard is answered rightly if and only if its times pass theirs. */
  lemma TimesAnsweredExactly(all: seq<Message>, f: Filters)
    requires DistinctBy(all, IdOf) && StampOrdered(all) && !f.peer.Malformed? && IdsGuard(all, f)
    ensures Cuts(all, f) == Some(Filter(all, Wanted(all, f))) <==> TimeGuard(ByIds(ByPeer(all, f), f), f)
  {
    WholeOrdered(all);
    ByPeerIsFilter(all, f);
    var s := ByPeer(all, f);
    var t := ByIds(s, f);
    IdsEffect(all, s, f);
    FilterMembers(s, IdsTest(all, s, f));
    FilterOrdered(all, s, IdsTest(all, s, f));
    RequestAnsweredExactly(all, f);
    if f.ids == [] { GuardDecides(all, s, f.beforeId, f.afterId); }
    TimeGuardDecides(all, t, f);
    RestIsTimes(all, f);
  }

  lemma RestIsTimes(all: seq<Message>, f: Filters)
    requires var s := ByPeer(all, f);
             && (forall m :: m in ByIds(s, f) <==> m in s && IdsInEffect(all, s, f, m))
             && (f.ids == [] ==> EffectSuffices(all, s, f.beforeId, f.afterId))
    ensures (forall m :: m in ByPeer(all, f) && CutsTest(all, f)(m) ==> RestTest(all, f)(m)) <==>
            TimesSuffice(ByIds(ByPeer(all, f), f), f)
  {
    var s := ByPeer(all, f);
    var t := ByIds(s, f);
    if TimesSuffice(t, f) {
      forall m | m in s && CutsTest(all, f)(m) ensures RestTest(all, f)(m) {
        assert m in t;
      }
    } else {
      var m :| m in t && StartInEffect(t, f, m) && EndInEffect(f, m) && f.start.Some? && m.stamp <= f.start.value;
      assert CutsTest(all, f)(m) && !RestTest(all, f)(m);
    }
  }

  /** Two anchors of the archive are answered rightly if and only if "after" stands in front of "before",
      or nothing stands in front of "before". */
  lemma PresentAnchorsExactly(all: seq<Message>, before: string, after: string)
    requires DistinctBy(all, IdOf) && StampOrdered(all)
    requires before != "" && after != "" && Present(all, before) && Present(all, after)
    ensures Cuts(all, Between(before, after)) == Some(Filter(all, Wanted(all, Between(before, after)))) <==>
            Pos(all, after) < Pos(all, before) || Pos(all, before) == 0
  {
    if Pos(all, after) < Pos(all, before) {
      CutsAreFilter(all, Between(before, after));
    } else {
      CrossedAnchorsIgnoreAfter(all, before, after);
      FilterNone(all, Wanted(all, Between(before, after)));
      var k := AnchorAt(all, before);
      PosOf(all, k);
    }
  }

  /** A start bound later than every message is no bound at all. */
  lemma LateStartKeepsEverything(all: seq<Message>, t: int)
    requires forall m :: m in all ==> m.stamp <= t
    ensures Cuts(all, Filters(Anyone, [], "", "", Some(t), None)) == Some(all)
  {
    FirstIs(all, Later(t));
  }

  /** An "after" anchor that comes behind the "before" anchor is ignored. */
  lemma CrossedAnchorsIgnoreAfter(all: seq<Message>, before: string, after: string)
    requires DistinctBy(all, IdOf) && before != "" && after != "" && Present(all, before) && Present(all, after)
    requires Pos(all, before) <= Pos(all, after)
    ensures Cuts(all, Filters(Anyone, [], before, after, None, None)) == Some(CutBefore(all, before))
  {
    var k := AnchorAt(all, before);
    var j := AnchorAt(all, after);
    PosOf(all, k);
    PosOf(all, j);
    var s := CutBefore(all, before);
    FirstIs(s, HasId(after));
    assert forall i :: 0 <= i < |s| ==> s[i] == all[i] && s[i].id != all[j].id;
  }
}
