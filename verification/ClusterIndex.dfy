/** The cluster resource index. Every node keeps, in memory, a mirror of the resources that all
    nodes publish in one shared key-value log. A node opens its watch, then takes a snapshot, then
    replays the watched events, so that some events are applied twice; its own events it skips,
    because it has already applied them itself. The mirror is nested: one table per instance, one
    list per user.
 */
module ClusterIndex {

  type InstanceId = string

  datatype Key = Key(user: string, resource: string, inst: InstanceId)

  // What a node knows of a resource; `info` stands for its presence and info map.
  datatype Desc = Desc(user: string, resource: string, inst: InstanceId, info: string)

  function KeyOf(d: Desc): Key { Key(d.user, d.resource, d.inst) }

  datatype Event = Put(desc: Desc) | Del(key: Key)

  function EventKey(e: Event): Key { if e.Put? then KeyOf(e.desc) else e.key }

  type Index = map<Key, Desc>

  function Apply(m: Index, e: Event): Index {
    match e
    case Put(d) => m[KeyOf(d) := d]
    case Del(k) => m - {k}
  }

  /** The value of the key-value store after a log. */
  function Fold(m: Index, log: seq<Event>): Index {
    if log == [] then m else Apply(Fold(m, log[..|log| - 1]), log[|log| - 1])
  }

  // ---------------------------------------------------------------------------------------------
  // Replaying an overlap is harmless
  // ---------------------------------------------------------------------------------------------

  lemma {:induction false} FoldConcat(m: Index, a: seq<Event>, b: seq<Event>)
    ensures Fold(m, a + b) == Fold(Fold(m, a), b)
  {
    if b == [] {
      assert a + b == a;
    } else {
      assert (a + b)[..|a + b| - 1] == a + b[..|b| - 1];
      FoldConcat(m, a, b[..|b| - 1]);
    }
  }

  predicate Touched(log: seq<Event>, k: Key) {
    exists i :: 0 <= i < |log| && EventKey(log[i]) == k
  }

  predicate SameAt(a: Index, b: Index, k: Key) {
    (k in a <==> k in b) && (k in a ==> a[k] == b[k])
  }

  lemma SliceConcat(log: seq<Event>, i: nat, j: nat, k: nat)
    requires i <= j <= k <= |log|
    ensures log[i..j] + log[j..k] == log[i..k]
  {
  }

  /** A log decides every key it touches, and leaves the others alone. */
  lemma {:induction false} FoldAt(m: Index, m': Index, log: seq<Event>, k: Key)
    ensures Touched(log, k) ==> SameAt(Fold(m, log), Fold(m', log), k)
    ensures !Touched(log, k) ==> SameAt(Fold(m, log), m, k)
  {
    if log != [] {
      var front, e := log[..|log| - 1], log[|log| - 1];
      FoldAt(m, m', front, k);
      if EventKey(e) != k {
        if Touched(log, k) {
          var i :| 0 <= i < |log| && EventKey(log[i]) == k;
          assert front[i] == log[i];
        }
      }
    }
  }

  lemma SameEverywhere(a: Index, b: Index)
    requires forall k :: SameAt(a, b, k)
    ensures a == b
  {
    assert forall k :: k in a ==> SameAt(a, b, k);
    assert forall k :: k in b ==> SameAt(a, b, k);
  }

  /** A snapshot at t followed by a replay from w <= t up to c >= t is the fold of the log up to c. */
  lemma OverlapReplay(log: seq<Event>, w: nat, t: nat, c: nat)
    requires w <= t <= c <= |log|
    ensures Fold(Fold(map[], log[..t]), log[w..c]) == Fold(map[], log[..c])
  {
    var before, overlap, after := Fold(map[], log[..w]), log[w..t], log[t..c];
    FoldConcat(map[], log[..w], overlap);
    assert log[..w] + overlap == log[..t];
    FoldConcat(map[], log[..t], after);
    assert log[..t] + after == log[..c];
    FoldConcat(Fold(map[], log[..t]), overlap, after);
    assert overlap + after == log[w..c];
    forall k ensures SameAt(Fold(Fold(before, overlap), overlap), Fold(before, overlap), k) {
      FoldAt(Fold(before, overlap), before, overlap, k);
    }
    SameEverywhere(Fold(Fold(before, overlap), overlap), Fold(before, overlap));
  }

  // ---------------------------------------------------------------------------------------------
  // N nodes over one log
  // ---------------------------------------------------------------------------------------------

  datatype Phase = Idle | Watching(w: nat) | Ready(w: nat, t: nat, cursor: nat)

  datatype Node = Node(index: Index, phase: Phase)

  datatype Cluster = Cluster(log: seq<Event>, nodes: map<InstanceId, Node>)

  datatype Step =
    | LocalPut(n: InstanceId, user: string, resource: string, info: string)
    | LocalDel(n: InstanceId, user: string, resource: string)
    | OpenWatch(n: InstanceId)
    | TakeSnapshot(n: InstanceId)
    | Deliver(n: InstanceId, count: nat)

  /** What processKVEvents does with a batch: the node's own keys are skipped. */
  function ReplayForeign(m: Index, events: seq<Event>, me: InstanceId): Index {
    if events == [] then m
    else
      var front, e := ReplayForeign(m, events[..|events| - 1], me), events[|events| - 1];
      if EventKey(e).inst == me then front else Apply(front, e)
  }

  function Next(s: Cluster, step: Step): Cluster {
    if step.n !in s.nodes then s
    else
      var node := s.nodes[step.n];
      match step
      case LocalPut(n, user, resource, info) =>
        var d := Desc(user, resource, n, info);
        Cluster(s.log + [Put(d)], s.nodes[n := node.(index := node.index[KeyOf(d) := d])])
      case LocalDel(n, user, resource) =>
        var k := Key(user, resource, n);
        Cluster(s.log + [Del(k)], s.nodes[n := node.(index := node.index - {k})])
      case OpenWatch(n) =>
        if node.phase.Idle? then s.(nodes := s.nodes[n := node.(phase := Watching(|s.log|))]) else s
      case TakeSnapshot(n) =>
        if node.phase.Watching? then
          s.(nodes := s.nodes[n := Node(node.index + Fold(map[], s.log),
                                        Ready(node.phase.w, |s.log|, node.phase.w))])
        else s
      case Deliver(n, count) =>
        if node.phase.Ready? && node.phase.cursor + count <= |s.log| then
          var c := node.phase.cursor;
          s.(nodes := s.nodes[n := Node(ReplayForeign(node.index, s.log[c..c + count], n),
                                        node.phase.(cursor := c + count))])
        else s
  }

  /** What a node's memory is at each phase: on its own keys always the store itself, on the other
      keys nothing before the snapshot and the snapshot with the replayed events after it. */
  ghost predicate NodeInv(log: seq<Event>, n: InstanceId, node: Node) {
    && (forall k: Key :: k.inst == n ==> SameAt(node.index, Fold(map[], log), k))
    && match node.phase
       case Idle => forall k: Key :: k.inst != n ==> k !in node.index
       case Watching(w) => w <= |log| && forall k: Key :: k.inst != n ==> k !in node.index
       case Ready(w, t, c) =>
         && w <= t <= |log| && w <= c <= |log|
         && forall k: Key :: k.inst != n ==> SameAt(node.index, Fold(Fold(map[], log[..t]), log[w..c]), k)
  }

  ghost predicate Inv(s: Cluster) {
    forall n :: n in s.nodes ==> NodeInv(s.log, n, s.nodes[n])
  }

  ghost predicate Init(s: Cluster) {
    s.log == [] && forall n :: n in s.nodes ==> s.nodes[n] == Node(map[], Idle)
  }

  lemma {:induction false} ReplayForeignAt(m: Index, events: seq<Event>, me: InstanceId, k: Key)
    ensures k.inst == me ==> SameAt(ReplayForeign(m, events, me), m, k)
    ensures k.inst != me ==> SameAt(ReplayForeign(m, events, me), Fold(m, events), k)
  {
    if events != [] {
      ReplayForeignAt(m, events[..|events| - 1], me, k);
    }
  }

  /** An event appended by one node does not disturb what another node holds. */
  lemma AppendKeeps(log: seq<Event>, e: Event, n: InstanceId, node: Node)
    requires NodeInv(log, n, node) && EventKey(e).inst != n
    ensures NodeInv(log + [e], n, node)
  {
    assert (log + [e])[..|log|] == log;
    assert Fold(map[], log + [e]) == Apply(Fold(map[], log), e);
    if node.phase.Ready? {
      assert (log + [e])[..node.phase.t] == log[..node.phase.t];
      assert (log + [e])[node.phase.w..node.phase.cursor] == log[node.phase.w..node.phase.cursor];
    }
  }

  /** A node that writes its own key and its own memory at once stays a mirror. */
  lemma OwnWriteKeeps(log: seq<Event>, e: Event, n: InstanceId, node: Node)
    requires NodeInv(log, n, node) && EventKey(e).inst == n
    ensures NodeInv(log + [e], n, node.(index := Apply(node.index, e)))
  {
    assert (log + [e])[..|log|] == log;
    var node' := node.(index := Apply(node.index, e));
    assert Fold(map[], log + [e]) == Apply(Fold(map[], log), e);
    if node.phase.Ready? {
      assert (log + [e])[..node.phase.t] == log[..node.phase.t];
      assert (log + [e])[node.phase.w..node.phase.cursor] == log[node.phase.w..node.phase.cursor];
    }
    forall k: Key | k.inst != n ensures SameAt(node'.index, node.index, k) {}
  }

  lemma DeliverKeeps(log: seq<Event>, n: InstanceId, node: Node, count: nat)
    requires NodeInv(log, n, node) && node.phase.Ready? && node.phase.cursor + count <= |log|
    ensures var c := node.phase.cursor;
            NodeInv(log, n, Node(ReplayForeign(node.index, log[c..c + count], n), node.phase.(cursor := c + count)))
  {
    var c, w := node.phase.cursor, node.phase.w;
    var events := log[c..c + count];
    var snapshot := Fold(map[], log[..node.phase.t]);
    var index' := ReplayForeign(node.index, events, n);
    FoldConcat(snapshot, log[w..c], events);
    SliceConcat(log, w, c, c + count);
    forall k: Key
      ensures k.inst == n ==> SameAt(index', Fold(map[], log), k)
      ensures k.inst != n ==> SameAt(index', Fold(snapshot, log[w..c + count]), k)
    {
      ReplayForeignAt(node.index, events, n, k);
      FoldAt(node.index, Fold(snapshot, log[w..c]), events, k);
      FoldAt(Fold(snapshot, log[w..c]), node.index, events, k);
    }
  }

  lemma StepKeeps(s: Cluster, step: Step)
    requires Inv(s)
    ensures Inv(Next(s, step))
  {
    if step.n in s.nodes {
      var n, node, s' := step.n, s.nodes[step.n], Next(s, step);
      match step
      case LocalPut(_, user, resource, info) =>
        WriteKeeps(s, Put(Desc(user, resource, n, info)), n);
      case LocalDel(_, user, resource) =>
        WriteKeeps(s, Del(Key(user, resource, n)), n);
      case OpenWatch(_) =>
        OneNodeKeeps(s, n, node.(phase := Watching(|s.log|)));
      case TakeSnapshot(_) =>
        if node.phase.Watching? { SnapshotKeeps(s, n); }
      case Deliver(_, count) =>
        if node.phase.Ready? && node.phase.cursor + count <= |s.log| {
          DeliverKeeps(s.log, n, node, count);
        }
    }
  }

  lemma OneNodeKeeps(s: Cluster, n: InstanceId, node: Node)
    requires Inv(s) && n in s.nodes
    ensures NodeInv(s.log, n, node) ==> Inv(s.(nodes := s.nodes[n := node]))
  {
  }

  lemma SnapshotKeeps(s: Cluster, n: InstanceId)
    requires Inv(s) && n in s.nodes && s.nodes[n].phase.Watching?
    ensures Inv(Next(s, TakeSnapshot(n)))
  {
    var node, kv := s.nodes[n], Fold(map[], s.log);
    var node' := Node(node.index + kv, Ready(node.phase.w, |s.log|, node.phase.w));
    assert s.log[..|s.log|] == s.log && s.log[node.phase.w..node.phase.w] == [];
    forall k: Key ensures SameAt(node'.index, kv, k) {
      if k.inst == n { assert SameAt(node.index, kv, k); }
    }
    OneNodeKeeps(s, n, node');
  }

  lemma WriteKeeps(s: Cluster, e: Event, n: InstanceId)
    requires Inv(s) && n in s.nodes && EventKey(e).inst == n
    ensures Inv(Cluster(s.log + [e], s.nodes[n := s.nodes[n].(index := Apply(s.nodes[n].index, e))]))
  {
    forall m | m in s.nodes
      ensures m == n ==> NodeInv(s.log + [e], m, s.nodes[m].(index := Apply(s.nodes[m].index, e)))
      ensures m != n ==> NodeInv(s.log + [e], m, s.nodes[m])
    {
      if m == n { OwnWriteKeeps(s.log, e, n, s.nodes[n]); } else { AppendKeeps(s.log, e, m, s.nodes[m]); }
    }
  }

  function Run(s: Cluster, steps: seq<Step>): Cluster
    decreases |steps|
  {
    if steps == [] then s else Run(Next(s, steps[0]), steps[1..])
  }

  lemma {:induction false} RunKeeps(s: Cluster, steps: seq<Step>)
    requires Inv(s)
    ensures Inv(Run(s, steps))
    decreases |steps|
  {
    if steps != [] {
      StepKeeps(s, steps[0]);
      RunKeeps(Next(s, steps[0]), steps[1..]);
    }
  }

  lemma InitHolds(s: Cluster)
    requires Init(s)
    ensures Inv(s)
  {
  }

  /** In every run: a node's own entries are the store's; once its cursor has passed the snapshot
      its other entries are the store as of the cursor. */
  lemma NodeMirrorsLog(s0: Cluster, steps: seq<Step>, n: InstanceId, k: Key)
    requires Init(s0) && n in Run(s0, steps).nodes
    ensures var s := Run(s0, steps); var node := s.nodes[n];
            && (k.inst == n ==> SameAt(node.index, Fold(map[], s.log), k))
            && (k.inst != n && node.phase.Ready? && node.phase.t <= node.phase.cursor ==>
                  node.phase.cursor <= |s.log| && SameAt(node.index, Fold(map[], s.log[..node.phase.cursor]), k))
  {
    InitHolds(s0);
    RunKeeps(s0, steps);
    var s := Run(s0, steps);
    var node := s.nodes[n];
    if node.phase.Ready? && node.phase.t <= node.phase.cursor {
      OverlapReplay(s.log, node.phase.w, node.phase.t, node.phase.cursor);
    }
  }

  predicate Drained(s: Cluster, n: InstanceId) {
    n in s.nodes && s.nodes[n].phase.Ready? && s.nodes[n].phase.cursor == |s.log|
  }

  /** In every run a node that has drained the log holds exactly the store; so all such nodes agree. */
  lemma DrainedNodesAgree(s0: Cluster, steps: seq<Step>, n: InstanceId, n': InstanceId)
    requires Init(s0) && Drained(Run(s0, steps), n) && Drained(Run(s0, steps), n')
    ensures var s := Run(s0, steps);
            s.nodes[n].index == Fold(map[], s.log) == s.nodes[n'].index
  {
    DrainedIsFold(s0, steps, n);
    DrainedIsFold(s0, steps, n');
  }

  lemma DrainedIsFold(s0: Cluster, steps: seq<Step>, n: InstanceId)
    requires Init(s0) && Drained(Run(s0, steps), n)
    ensures Run(s0, steps).nodes[n].index == Fold(map[], Run(s0, steps).log)
  {
    InitHolds(s0);
    RunKeeps(s0, steps);
    DrainedHoldsStore(Run(s0, steps), n);
  }

  lemma DrainedHoldsStore(s: Cluster, n: InstanceId)
    requires Inv(s) && Drained(s, n)
    ensures s.nodes[n].index == Fold(map[], s.log)
  {
    var node := s.nodes[n];
    OverlapReplay(s.log, node.phase.w, node.phase.t, node.phase.cursor);
    assert s.log[..|s.log|] == s.log;
    forall k ensures SameAt(node.index, Fold(map[], s.log), k) {}
    SameEverywhere(node.index, Fold(map[], s.log));
  }

  /** The store keeps every resource under its own key. */
  lemma {:induction false} FoldKeyed(log: seq<Event>)
    ensures forall k :: k in Fold(map[], log) ==> KeyOf(Fold(map[], log)[k]) == k
  {
    if log != [] { FoldKeyed(log[..|log| - 1]); }
  }

  // ---------------------------------------------------------------------------------------------
  // What the mirrors hold is what was last published
  // ---------------------------------------------------------------------------------------------

  datatype Publication = Unpublished | Published(info: string)

  /** What the last step says that wrote this key. */
  function LastPublication(members: set<InstanceId>, steps: seq<Step>, k: Key): Publication {
    if steps == [] then Unpublished
    else
      match steps[|steps| - 1]
      case LocalPut(n, user, resource, info) =>
        if n in members && Key(user, resource, n) == k then Published(info)
        else LastPublication(members, steps[..|steps| - 1], k)
      case LocalDel(n, user, resource) =>
        if n in members && Key(user, resource, n) == k then Unpublished
        else LastPublication(members, steps[..|steps| - 1], k)
      case _ => LastPublication(members, steps[..|steps| - 1], k)
  }

  predicate HoldsPublication(kv: Index, k: Key, p: Publication) {
    match p
    case Unpublished => k !in kv
    case Published(info) => k in kv && kv[k] == Desc(k.user, k.resource, k.inst, info)
  }

  lemma {:induction false} RunAppend(s: Cluster, steps: seq<Step>, step: Step)
    ensures Run(s, steps + [step]) == Next(Run(s, steps), step)
    decreases |steps|
  {
    if steps == [] {
      assert ([] + [step])[1..] == [];
    } else {
      assert (steps + [step])[1..] == steps[1..] + [step];
      RunAppend(Next(s, steps[0]), steps[1..], step);
    }
  }

  lemma WriteIsPublication(s: Cluster, step: Step, k: Key, p: Publication)
    requires HoldsPublication(Fold(map[], s.log), k, p)
    ensures var s' := Next(s, step);
            && s'.nodes.Keys == s.nodes.Keys
            && HoldsPublication(Fold(map[], s'.log), k,
                 match step
                 case LocalPut(n, user, resource, info) =>
                   if n in s.nodes && Key(user, resource, n) == k then Published(info) else p
                 case LocalDel(n, user, resource) =>
                   if n in s.nodes && Key(user, resource, n) == k then Unpublished else p
                 case _ => p)
  {
    if step.n in s.nodes && step.LocalPut? {
      var e := Put(Desc(step.user, step.resource, step.n, step.info));
      assert (s.log + [e])[..|s.log|] == s.log;
    } else if step.n in s.nodes && step.LocalDel? {
      var e := Del(Key(step.user, step.resource, step.n));
      assert (s.log + [e])[..|s.log|] == s.log;
    }
  }

  lemma {:induction false} StoreIsLastPublication(s0: Cluster, steps: seq<Step>, k: Key)
    requires Init(s0)
    ensures Run(s0, steps).nodes.Keys == s0.nodes.Keys
    ensures HoldsPublication(Fold(map[], Run(s0, steps).log), k, LastPublication(s0.nodes.Keys, steps, k))
    decreases |steps|
  {
    if steps != [] {
      var front, last := steps[..|steps| - 1], steps[|steps| - 1];
      StoreIsLastPublication(s0, front, k);
      assert steps == front + [last];
      RunAppend(s0, front, last);
      WriteIsPublication(Run(s0, front), last, k, LastPublication(s0.nodes.Keys, front, k));
    }
  }

  /** In every run a node that has drained the log knows of each resource what its own node last published, and
      nothing of the resources that were last withdrawn or never published. */
  lemma DrainedHoldsLastPublication(s0: Cluster, steps: seq<Step>, n: InstanceId, k: Key)
    requires Init(s0) && Drained(Run(s0, steps), n)
    ensures HoldsPublication(Run(s0, steps).nodes[n].index, k, LastPublication(s0.nodes.Keys, steps, k))
  {
    DrainedIsFold(s0, steps, n);
    StoreIsLastPublication(s0, steps, k);
  }

  /** A listing of the store, in any order. */
  ghost predicate Listing(rss: seq<Desc>, kv: Index) {
    && (forall d :: d in rss ==> KeyOf(d) in kv && kv[KeyOf(d)] == d)
    && (forall k :: k in kv ==> KeyOf(kv[k]) == k && kv[k] in rss)
  }

  // ---------------------------------------------------------------------------------------------
  // The nested tables of one node
  // ---------------------------------------------------------------------------------------------

  ghost predicate ListOk(l: seq<Desc>, inst: InstanceId, user: string) {
    && (forall i :: 0 <= i < |l| ==> l[i].inst == inst && l[i].user == user)
    && (forall i, j :: 0 <= i < j < |l| ==> l[i].resource != l[j].resource)
  }

  /** kvResources.put on one user's list: the entry of the same resource is replaced, or one is added. */
  method PutInList(rss: seq<Desc>, d: Desc) returns (r: seq<Desc>)
    requires ListOk(rss, d.inst, d.user)
    ensures ListOk(r, d.inst, d.user)
    ensures forall x :: x in r <==> x == d || (x in rss && x.resource != d.resource)
  {
    for i := 0 to |rss|
      invariant forall k :: 0 <= k < i ==> rss[k].resource != d.resource
    {
      if rss[i].resource == d.resource {
        r := rss[i := d];
        forall x ensures x in r <==> x == d || (x in rss && x.resource != d.resource) {
          if x in rss && x.resource != d.resource {
            var k :| 0 <= k < |rss| && rss[k] == x;
            assert r[k] == x;
          }
          assert r[i] == d;
        }
        return;
      }
    }
    r := rss + [d];
  }

  /** kvResources.del on one user's list: the entry of that resource goes, and only that one. */
  method DelFromList(rss: seq<Desc>, inst: InstanceId, user: string, resource: string) returns (r: seq<Desc>)
    requires ListOk(rss, inst, user)
    ensures ListOk(r, inst, user)
    ensures forall x :: x in r <==> x in rss && x.resource != resource
  {
    for i := 0 to |rss|
      invariant forall k :: 0 <= k < i ==> rss[k].resource != resource
    {
      if rss[i].resource == resource {
        r := rss[..i] + rss[i + 1..];
        assert forall x :: x in rss <==> x in rss[..i] || x == rss[i] || x in rss[i + 1..] by {
          assert rss == rss[..i] + [rss[i]] + rss[i + 1..];
        }
        return;
      }
    }
    r := rss;
  }

  type Tables = map<InstanceId, map<string, seq<Desc>>>

  predicate Holds(t: Tables, d: Desc) {
    d.inst in t && d.user in t[d.inst] && d in t[d.inst][d.user]
  }

  ghost predicate TablesOk(t: Tables) {
    forall inst, user :: inst in t && user in t[inst] ==> ListOk(t[inst][user], inst, user)
  }

  /** The nested tables hold exactly the entries of the flat index. */
  ghost predicate Represents(t: Tables, index: Index) {
    && TablesOk(t)
    && (forall d :: Holds(t, d) <==> KeyOf(d) in index && index[KeyOf(d)] == d)
    && (forall k :: k in index ==> KeyOf(index[k]) == k)
  }

  function ListIn(t: Tables, inst: InstanceId, user: string): (rss: seq<Desc>) {
    if inst in t && user in t[inst] then t[inst][user] else []
  }

  function TableIn(t: Tables, inst: InstanceId): map<string, seq<Desc>> {
    if inst in t then t[inst] else map[]
  }

  lemma PutKeeps(t: Tables, index: Index, d: Desc, rss: seq<Desc>)
    requires Represents(t, index) && ListOk(rss, d.inst, d.user)
    requires forall x :: x in rss <==> x == d || (x in ListIn(t, d.inst, d.user) && x.resource != d.resource)
    ensures Represents(t[d.inst := TableIn(t, d.inst)[d.user := rss]], index[KeyOf(d) := d])
  {
    var t', index' := t[d.inst := TableIn(t, d.inst)[d.user := rss]], index[KeyOf(d) := d];
    forall x ensures Holds(t', x) <==> KeyOf(x) in index' && index'[KeyOf(x)] == x {
      assert Holds(t, x) <==> KeyOf(x) in index && index[KeyOf(x)] == x;
    }
  }

  lemma DelKeeps(t: Tables, t': Tables, index: Index, k: Key)
    requires Represents(t, index) && TablesOk(t')
    requires forall x :: Holds(t', x) <==> Holds(t, x) && KeyOf(x) != k
    ensures Represents(t', index - {k})
  {
  }

  function PutAll(m: Index, rss: seq<Desc>): Index {
    if rss == [] then m else PutAll(m, rss[..|rss| - 1])[KeyOf(rss[|rss| - 1]) := rss[|rss| - 1]]
  }

  /** Any listing of the store, put one by one, lays the whole store over the memory. */
  lemma {:induction false} SnapshotIsUnion(m: Index, rss: seq<Desc>, kv: Index)
    requires Listing(rss, kv)
    ensures PutAll(m, rss) == m + kv
  {
    forall k ensures SameAt(PutAll(m, rss), m + kv, k) {
      PutAllAt(m, rss, k);
    }
    SameEverywhere(PutAll(m, rss), m + kv);
  }

  lemma {:induction false} PutAllAt(m: Index, rss: seq<Desc>, k: Key)
    ensures k in PutAll(m, rss) <==> k in m || exists d :: d in rss && KeyOf(d) == k
    ensures (exists d :: d in rss && KeyOf(d) == k) ==> PutAll(m, rss)[k] in rss && KeyOf(PutAll(m, rss)[k]) == k
    ensures !(exists d :: d in rss && KeyOf(d) == k) && k in m ==> PutAll(m, rss)[k] == m[k]
  {
    if rss != [] {
      var front, last := rss[..|rss| - 1], rss[|rss| - 1];
      assert rss == front + [last];
      PutAllAt(m, front, k);
    }
  }

  /** The shared store, as the log of what was written to it. */
  class KvStore {
    var log: seq<Event>

    constructor ()
      ensures log == []
    {
      log := [];
    }

    /** All resources in the store, each under its own key. */
    method GetAll() returns (rss: seq<Desc>)
      ensures Listing(rss, Fold(map[], log))
    {
      FoldKeyed(log);
      var kv := Fold(map[], log);
      rss := [];
      var left := kv.Keys;
      while left != {}
        invariant left <= kv.Keys
        invariant forall d :: d in rss ==> KeyOf(d) in kv && kv[KeyOf(d)] == d
        invariant forall k :: k in kv && k !in left ==> kv[k] in rss
        decreases |left|
      {
        var k :| k in left;
        rss, left := rss + [kv[k]], left - {k};
      }
    }
  }

  class KvManager {
    const me: InstanceId
    var instRes: Tables
    ghost var index: Index

    ghost predicate Valid()
      reads this
    {
      Represents(instRes, index)
    }

    constructor (me: InstanceId)
      ensures Valid() && index == map[] && this.me == me
    {
      this.me := me;
      instRes, index := map[], map[];
    }

    method InMemPut(d: Desc)
      requires Valid()
      modifies this
      ensures Valid() && index == old(index)[KeyOf(d) := d]
    {
      var table := if d.inst in instRes then instRes[d.inst] else map[];
      var rss := if d.user in table then table[d.user] else [];
      var rss' := PutInList(rss, d);
      PutKeeps(instRes, index, d, rss');
      instRes := instRes[d.inst := table[d.user := rss']];
      index := index[KeyOf(d) := d];
    }

    method InMemDel(user: string, resource: string, inst: InstanceId)
      requires Valid()
      modifies this
      ensures Valid() && index == old(index) - {Key(user, resource, inst)}
    {
      ghost var was := instRes;
      if inst in instRes && user in instRes[inst] {
        var rss := DelFromList(instRes[inst][user], inst, user, resource);
        if |rss| > 0 {
          instRes := instRes[inst := instRes[inst][user := rss]];
        } else {
          instRes := instRes[inst := instRes[inst] - {user}];
        }
      }
      DelKeeps(was, instRes, index, Key(user, resource, inst));
      index := index - {Key(user, resource, inst)};
    }

    /** A resource of this node: written to the store and to memory. */
    method PutResource(kv: KvStore, user: string, resource: string, info: string)
      requires Valid()
      modifies this, kv
      ensures Valid() && index == Apply(old(index), Put(Desc(user, resource, me, info)))
      ensures kv.log == old(kv.log) + [Put(Desc(user, resource, me, info))]
    {
      var d := Desc(user, resource, me, info);
      kv.log := kv.log + [Put(d)];
      InMemPut(d);
    }

    method DelResource(kv: KvStore, user: string, resource: string)
      requires Valid()
      modifies this, kv
      ensures Valid() && index == Apply(old(index), Del(Key(user, resource, me)))
      ensures kv.log == old(kv.log) + [Del(Key(user, resource, me))]
    {
      kv.log := kv.log + [Del(Key(user, resource, me))];
      InMemDel(user, resource, me);
    }

    /** The snapshot: every stored resource is put into memory, in whatever order the store lists them; the
        memory then is the store, over what the node had put itself. */
    method TakeSnapshot(kv: KvStore)
      requires Valid()
      modifies this
      ensures Valid() && index == old(index) + Fold(map[], kv.log)
    {
      var rss := kv.GetAll();
      for i := 0 to |rss|
        invariant Valid() && index == PutAll(old(index), rss[..i])
      {
        assert rss[..i + 1][..i] == rss[..i];
        InMemPut(rss[i]);
      }
      assert rss[..|rss|] == rss;
      SnapshotIsUnion(old(index), rss, Fold(map[], kv.log));
    }

    /** A batch of watch events: the node's own keys are skipped, the others applied in order. */
    method ProcessKVEvents(events: seq<Event>)
      requires Valid()
      modifies this
      ensures Valid() && index == ReplayForeign(old(index), events, me)
    {
      for i := 0 to |events|
        invariant Valid() && index == ReplayForeign(old(index), events[..i], me)
      {
        assert events[..i + 1][..i] == events[..i];
        if EventKey(events[i]).inst != me {
          match events[i] {
            case Put(d) => InMemPut(d);
            case Del(k) => InMemDel(k.user, k.resource, k.inst);
          }
        }
      }
      assert events[..|events|] == events;
    }

    /** One resource of a user: some published entry if there is any, none otherwise. */
    method GetResource(user: string, resource: string) returns (found: bool, d: Desc)
      requires Valid()
      ensures found ==> d.user == user && d.resource == resource && KeyOf(d) in index && index[KeyOf(d)] == d
      ensures !found ==> forall inst :: Key(user, resource, inst) !in index
    {
      found, d := false, Desc("", "", "", "");
      var left := instRes.Keys;
      while left != {}
        invariant left <= instRes.Keys
        invariant forall x :: Holds(instRes, x) && x.user == user && x.resource == resource ==> x.inst in left
        decreases |left|
      {
        var inst :| inst in left;
        var rss := if user in instRes[inst] then instRes[inst][user] else [];
        for i := 0 to |rss|
          invariant forall k :: 0 <= k < i ==> rss[k].resource != resource
        {
          if rss[i].resource == resource {
            assert Holds(instRes, rss[i]);
            return true, rss[i];
          }
        }
        left := left - {inst};
      }
      assert forall k :: k in index ==> Holds(instRes, index[k]);
    }

    /** All resources of a user: exactly the index entries of that user, each once. */
    method GetResources(user: string) returns (rss: seq<Desc>)
      requires Valid()
      ensures forall d :: d in rss <==> d.user == user && KeyOf(d) in index && index[KeyOf(d)] == d
      ensures forall i, j :: 0 <= i < j < |rss| ==> KeyOf(rss[i]) != KeyOf(rss[j])
    {
      rss := [];
      var left := instRes.Keys;
      while left != {}
        invariant left <= instRes.Keys
        invariant forall d :: d in rss <==> d.user == user && Holds(instRes, d) && d.inst !in left
        invariant forall i, j :: 0 <= i < j < |rss| ==> KeyOf(rss[i]) != KeyOf(rss[j])
        decreases |left|
      {
        var inst :| inst in left;
        ghost var done := rss;
        if user in instRes[inst] {
          var more := instRes[inst][user];
          assert ListOk(more, inst, user);
          assert forall i :: 0 <= i < |done| ==> done[i] in done && done[i].inst != inst;
          rss := rss + more;
        }
        left := left - {inst};
      }
    }
  }

  // ---------------------------------------------------------------------------------------------
  // N managers over one store
  // ---------------------------------------------------------------------------------------------

  function Delivered(s: Cluster, n: InstanceId, events: seq<Event>): Cluster
    requires n in s.nodes && s.nodes[n].phase.Ready?
  {
    var node := s.nodes[n];
    var phase := node.phase.(cursor := node.phase.cursor + |events|);
    s.(nodes := s.nodes[n := Node(ReplayForeign(node.index, events, n), phase)])
  }

  lemma DeliverIs(s: Cluster, n: InstanceId, count: nat, events: seq<Event>)
    requires n in s.nodes && s.nodes[n].phase.Ready? && s.nodes[n].phase.cursor + count <= |s.log|
    requires events == s.log[s.nodes[n].phase.cursor..s.nodes[n].phase.cursor + count]
    ensures Next(s, Deliver(n, count)) == Delivered(s, n, events)
  {
  }

  class Deployment {
    const kv: KvStore
    const managers: map<InstanceId, KvManager>
    var phases: map<InstanceId, Phase>

    ghost predicate Wired()
      reads this
    {
      phases.Keys == managers.Keys && forall n :: n in managers ==> managers[n].me == n
    }

    ghost function Abs(): Cluster
      requires Wired()
      reads this, kv, managers.Values
    {
      Cluster(kv.log, map n | n in managers :: Node(managers[n].index, phases[n]))
    }

    ghost predicate Valid()
      reads this, kv, managers.Values
    {
      Wired() && (forall n :: n in managers ==> managers[n].Valid()) && Inv(Abs())
    }

    constructor (kv: KvStore, managers: map<InstanceId, KvManager>)
      requires kv.log == []
      requires forall n :: n in managers ==> managers[n].me == n && managers[n].Valid() && managers[n].index == map[]
      ensures this.kv == kv && this.managers == managers && Valid() && Init(Abs())
    {
      this.kv, this.managers := kv, managers;
      phases := map n | n in managers :: Idle;
      new;
      InitHolds(Abs());
    }

    ghost predicate Sound()
      reads this, kv, managers.Values
    {
      Wired() && forall n :: n in managers ==> managers[n].Valid()
    }

    // Everything but one node is as it was.
    twostate predicate OthersKept(n: InstanceId)
      reads this, kv, managers.Values
    {
      && phases.Keys == old(phases).Keys
      && (forall m :: m in managers && m != n && m in phases && m in old(phases) ==> phases[m] == old(phases[m]))
      && (forall m :: m in managers && m != n ==> managers[m].index == old(managers[m].index))
    }

    twostate lemma OneNodeMoved(n: InstanceId)
      requires old(Wired()) && Wired() && n in managers && OthersKept(n)
      ensures Abs() == Cluster(kv.log, old(Abs()).nodes[n := Node(managers[n].index, phases[n])])
    {
      var s := Abs();
      assert s.nodes.Keys == old(Abs()).nodes.Keys + {n};
    }

    method Publish(n: InstanceId, user: string, resource: string, info: string)
      requires Sound() && n in managers
      modifies this, kv, managers.Values
      ensures Sound() && Abs() == Next(old(Abs()), LocalPut(n, user, resource, info))
    {
      OthersDiffer(n);
      managers[n].PutResource(kv, user, resource, info);
      OneNodeMoved(n);
    }

    method Withdraw(n: InstanceId, user: string, resource: string)
      requires Sound() && n in managers
      modifies this, kv, managers.Values
      ensures Sound() && Abs() == Next(old(Abs()), LocalDel(n, user, resource))
    {
      OthersDiffer(n);
      managers[n].DelResource(kv, user, resource);
      OneNodeMoved(n);
    }

    lemma OthersDiffer(n: InstanceId)
      requires Wired() && n in managers
      ensures forall m :: m in managers && m != n ==> managers[m] != managers[n]
    {
    }

    method Watch(n: InstanceId)
      requires Sound() && n in managers
      modifies this, kv, managers.Values
      ensures Sound() && Abs() == Next(old(Abs()), OpenWatch(n))
    {
      if !phases[n].Idle? {
        return;
      }
      phases := phases[n := Watching(|kv.log|)];
      OneNodeMoved(n);
    }

    method Snapshot(n: InstanceId)
      requires Sound() && n in managers
      modifies this, kv, managers.Values
      ensures Sound() && Abs() == Next(old(Abs()), TakeSnapshot(n))
    {
      var phase := phases[n];
      if !phase.Watching? {
        return;
      }
      OthersDiffer(n);
      managers[n].TakeSnapshot(kv);
      phases := phases[n := Ready(phase.w, |kv.log|, phase.w)];
      OneNodeMoved(n);
    }

    method CatchUpWith(n: InstanceId, events: seq<Event>, phase': Phase, ghost index': Index)
      requires Sound() && n in managers && index' == ReplayForeign(managers[n].index, events, n)
      modifies this, kv, managers.Values
      ensures Sound() && Abs() == Cluster(old(kv.log), old(Abs()).nodes[n := Node(index', phase')])
    {
      OthersDiffer(n);
      ReplayAt(n, events, index');
      phases := phases[n := phase'];
      OneNodeMoved(n);
    }

    method ReplayAt(n: InstanceId, events: seq<Event>, ghost index': Index)
      requires Sound() && n in managers && index' == ReplayForeign(managers[n].index, events, n)
      modifies managers[n]
      ensures Sound() && managers[n].index == index'
    {
      OthersDiffer(n);
      managers[n].ProcessKVEvents(events);
    }

    method CatchUp(n: InstanceId, count: nat)
      requires Sound() && n in managers
      modifies this, kv, managers.Values
      ensures Sound() && Abs() == Next(old(Abs()), Deliver(n, count))
    {
      var phase := phases[n];
      if !phase.Ready? || phase.cursor + count > |kv.log| {
        return;
      }
      var events := kv.log[phase.cursor..phase.cursor + count];
      DeliverIs(Abs(), n, count, events);
      CatchUpWith(n, events, phase.(cursor := phase.cursor + count), ReplayForeign(managers[n].index, events, n));
    }

    /** The managers together refine the cluster, step by step, and so keep its invariant. */
    method Do(step: Step)
      requires Valid()
      modifies this, kv, managers.Values
      ensures Valid() && Abs() == Next(old(Abs()), step)
    {
      StepKeeps(Abs(), step);
      if step.n in managers {
        match step {
          case LocalPut(n, user, resource, info) => Publish(n, user, resource, info);
          case LocalDel(n, user, resource) => Withdraw(n, user, resource);
          case OpenWatch(n) => Watch(n);
          case TakeSnapshot(n) => Snapshot(n);
          case Deliver(n, count) => CatchUp(n, count);
        }
      }
    }

    /** So a run of the managers is a run of the cluster. */
    method Perform(steps: seq<Step>)
      requires Valid()
      modifies this, kv, managers.Values
      ensures Valid() && Abs() == Run(old(Abs()), steps)
      decreases |steps|
    {
      if |steps| > 0 {
        Do(steps[0]);
        Perform(steps[1..]);
      }
    }
  }

  /** In every reachable state, nodes that have drained the log return the same resources of a user: exactly
      those in the store, each once. */
  method DrainedAnswersAgree(d: Deployment, n: InstanceId, n': InstanceId, user: string)
    returns (ra: seq<Desc>, rb: seq<Desc>)
    requires d.Valid() && Drained(d.Abs(), n) && Drained(d.Abs(), n')
    ensures multiset(ra) == multiset(rb)
    ensures forall i, j :: 0 <= i < j < |ra| ==> KeyOf(ra[i]) != KeyOf(ra[j])
    ensures var kv := Fold(map[], d.kv.log);
            forall x :: x in ra <==> x.user == user && KeyOf(x) in kv && kv[KeyOf(x)] == x
  {
    DrainedHoldsStore(d.Abs(), n);
    DrainedHoldsStore(d.Abs(), n');
    ra := d.managers[n].GetResources(user);
    rb := d.managers[n'].GetResources(user);
    OnceEach(ra);
    OnceEach(rb);
  }

  lemma {:induction false} OnceEach(s: seq<Desc>)
    requires forall i, j :: 0 <= i < j < |s| ==> KeyOf(s[i]) != KeyOf(s[j])
    ensures forall d :: multiset(s)[d] == if d in s then 1 else 0
  {
    if s != [] {
      var front, last := s[..|s| - 1], s[|s| - 1];
      OnceEach(front);
      assert s == front + [last];
    }
  }
}
