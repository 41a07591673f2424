/** Roster subscriptions between the users of one local domain.

  Every directed subscription is stored twice: "u is subscribed to c" is the `to` half of u's
  item for c and the `from` half of c's item for u. Every pending request is stored twice too:
  as the `ask` mark of u's item and as a notification kept for c. The handlers fetch and rewrite
  the two items one after the other; this module proves that the copies never drift apart, and
  says exactly which inputs make them drift.
 */
module Roster {

  // A bare JID of the local domain.
  type User = string

  datatype Subscription = None | To | From | Both {
    predicate HasTo() { To? || Both? }
    predicate HasFrom() { From? || Both? }
  }

  datatype Label = Label(name: string, groups: seq<string>)

  datatype Item = Item(subscription: Subscription, ask: bool, lbl: Label)

  // `items[(u, c)]` is u's item for c; `(c, u) in notes` says that a subscribe request of u is
  // kept for c.
  datatype State = State(items: map<(User, User), Item>, notes: set<(User, User)>)

  const EMPTY := State(map[], {})

  datatype PresenceType = Subscribe | Subscribed | Unsubscribe | Unsubscribed | Available | Unavailable

  // An address; an empty resource is the bare address.
  datatype Address = Address(user: User, resource: string)

  datatype Presence = Presence(typ: PresenceType, from: Address, to: Address)

  datatype Resource = Resource(name: string, available: bool)

  // ---------------------------------------------------------------------------------------------
  // The two stored halves
  // ---------------------------------------------------------------------------------------------

  function SubscriptionOf(st: State, u: User, c: User): Subscription {
    if (u, c) in st.items then st.items[(u, c)].subscription else None
  }

  predicate Asks(st: State, u: User, c: User) {
    (u, c) in st.items && st.items[(u, c)].ask
  }

  function Halves(to: bool, from: bool): Subscription {
    if to then (if from then Both else To) else (if from then From else None)
  }

  /** The copies agree: for all users, themselves included. */
  ghost predicate InStep(st: State) {
    && (forall u: User, c: User :: SubscriptionOf(st, u, c).HasTo() <==> SubscriptionOf(st, c, u).HasFrom())
    && (forall u: User, c: User :: (c, u) in st.notes <==> Asks(st, u, c))
    && (forall u: User, c: User :: Asks(st, u, c) ==> !SubscriptionOf(st, u, c).HasTo())
  }

  // ---------------------------------------------------------------------------------------------
  // What each handler does to the stored state
  // ---------------------------------------------------------------------------------------------

  datatype Step =
    | DoSubscribe(u: User, c: User)                     // u asks for c's presence
    | DoSubscribed(c: User, u: User)                    // c approves u
    | DoUnsubscribe(u: User, c: User)                   // u gives up c's presence
    | DoUnsubscribed(c: User, u: User)                  // c refuses or cancels u
    | DoUpdate(u: User, c: User, lbl: Label, ask: bool) // roster set
    | DoRemove(u: User, c: User)                        // roster set, subscription='remove'

  function SetSubscription(st: State, u: User, c: User, s: Subscription): State {
    if (u, c) in st.items then st.(items := st.items[(u, c) := st.items[(u, c)].(subscription := s)]) else st
  }

  function ClearAsk(st: State, u: User, c: User): State {
    if (u, c) in st.items then st.(items := st.items[(u, c) := st.items[(u, c)].(ask := false)]) else st
  }

  // What the source keeps of an item once its `to` half goes: the `from` half only when both were on.
  function DropTo(s: Subscription): Subscription { if s.Both? then From else None }

  function DropFrom(s: Subscription): Subscription { if s.Both? then To else None }

  function Next(st: State, step: Step): State {
    match step
    case DoSubscribe(u, c) =>
      if SubscriptionOf(st, u, c).HasTo() || Asks(st, u, c) then st
      else
        var prev := if (u, c) in st.items then st.items[(u, c)] else Item(None, false, Label("", []));
        State(st.items[(u, c) := prev.(ask := true)], st.notes + {(c, u)})
    case DoSubscribed(c, u) =>
      var prev := if (c, u) in st.items then st.items[(c, u)] else Item(None, false, Label("", []));
      var st1 := State(st.items[(c, u) := prev.(subscription := Halves(prev.subscription.HasTo(), true))],
                       st.notes - {(c, u)});
      var s := SubscriptionOf(st1, u, c);
      if s.HasTo() then st1 else ClearAsk(SetSubscription(st1, u, c, Halves(true, s.HasFrom())), u, c)
    case DoUnsubscribe(u, c) =>
      var st1 := SetSubscription(st, u, c, DropTo(SubscriptionOf(st, u, c)));
      SetSubscription(st1, c, u, DropFrom(SubscriptionOf(st1, c, u)))
    case DoUnsubscribed(c, u) =>
      var st0 := st.(notes := st.notes - {(c, u)});
      var st1 := if (c, u) in st.notes then st0
                 else SetSubscription(st0, c, u, DropFrom(SubscriptionOf(st0, c, u)));
      var st2 := if Asks(st1, u, c) then st1
                 else SetSubscription(st1, u, c, DropTo(SubscriptionOf(st1, u, c)));
      ClearAsk(st2, u, c)
    case DoUpdate(u, c, lbl, ask) =>
      var item :=
        if (u, c) in st.items then
          var prev := st.items[(u, c)];
          prev.(lbl := Label(if |lbl.name| > 0 then lbl.name else prev.lbl.name, lbl.groups))
        else Item(None, ask, lbl);
      st.(items := st.items[(u, c) := item])
    case DoRemove(u, c) =>
      var st1 := if (u, c) in st.items then State(st.items - {(u, c)}, st.notes - {(c, u)}) else st;
      SetSubscription(st1, c, u, None)
  }

  /** Exactly the inputs under which a step keeps the copies together: an approval needs the
      approved user to hold an item, and a roster set must not create an item that carries `ask`. */
  predicate Keeps(st: State, step: Step) {
    match step
    case DoSubscribed(c, u) => (u, c) in st.items || u == c
    case DoUpdate(u, c, _, ask) => (u, c) in st.items || !ask
    case _ => true
  }

  // ---------------------------------------------------------------------------------------------
  // The paired copies are one relation
  // ---------------------------------------------------------------------------------------------

  /** `(u, c) in subs`: u receives c's presence. `(u, c) in pending`: u's request awaits c. */
  datatype Relation = Relation(subs: set<(User, User)>, pending: set<(User, User)>)

  function Swap(k: (User, User)): (User, User) { (k.1, k.0) }

  function Abs(st: State): Relation {
    Relation(set k | k in st.items && st.items[k].subscription.HasTo(),
             set k | k in st.items && st.items[k].ask)
  }

  function Labels(st: State): map<(User, User), Label> {
    map k | k in st.items :: st.items[k].lbl
  }

  /** The only stored state that a relation and a set of labelled items can have. */
  function Stored(r: Relation, labels: map<(User, User), Label>): State {
    State(map k | k in labels :: Item(Halves(k in r.subs, Swap(k) in r.subs), k in r.pending, labels[k]),
          set k | k in r.pending :: Swap(k))
  }

  /** States in step are exactly the stored forms of relations: nothing but the relation and the
      labels is free. */
  lemma InStepIsStored(st: State)
    ensures InStep(st) <==>
            st == Stored(Abs(st), Labels(st)) && Abs(st).pending !! Abs(st).subs &&
            (forall k :: k in Abs(st).subs ==> Swap(k) in st.items)
  {
    var r, s := Abs(st), Stored(Abs(st), Labels(st));
    assert forall u: User, c: User :: (u, c) in r.subs <==> SubscriptionOf(st, u, c).HasTo();
    assert forall u: User, c: User :: (u, c) in r.pending <==> Asks(st, u, c);
    if InStep(st) {
      forall k | k in st.items ensures st.items[k] == s.items[k] {
        assert SubscriptionOf(st, k.0, k.1).HasFrom() <==> SubscriptionOf(st, k.1, k.0).HasTo();
      }
      assert st.items == s.items;
      forall k: (User, User) ensures k in st.notes <==> k in s.notes {
        assert k in st.notes <==> Asks(st, k.1, k.0);
        assert Swap(Swap(k)) == k;
      }
      assert st.notes == s.notes;
      forall k | k in r.subs ensures Swap(k) in st.items && k !in r.pending {
        assert SubscriptionOf(st, k.0, k.1).HasTo() && SubscriptionOf(st, k.1, k.0).HasFrom();
      }
    } else if st == s && r.pending !! r.subs && (forall k :: k in r.subs ==> Swap(k) in st.items) {
      forall u: User, c: User
        ensures SubscriptionOf(st, u, c).HasTo() <==> SubscriptionOf(st, c, u).HasFrom()
        ensures (c, u) in st.notes <==> Asks(st, u, c)
        ensures Asks(st, u, c) ==> !SubscriptionOf(st, u, c).HasTo()
      {
        assert Swap((u, c)) == (c, u);
        if (u, c) in r.subs { assert Swap((u, c)) in st.items; }
      }
    }
  }

  /** What each handler means on the relation. Giving up or cancelling one direction keeps the other
      only when both directions were on. */
  function RelationNext(r: Relation, step: Step): Relation {
    match step
    case DoSubscribe(u, c) => if (u, c) in r.subs then r else r.(pending := r.pending + {(u, c)})
    case DoSubscribed(c, u) => Relation(r.subs + {(u, c)}, r.pending - {(u, c)})
    case DoUnsubscribe(u, c) => r.(subs := Cancel(r.subs, u, c))
    case DoUnsubscribed(c, u) =>
      if (u, c) in r.pending then r.(pending := r.pending - {(u, c)}) else r.(subs := Cancel(r.subs, u, c))
    case DoUpdate(_, _, _, _) => r
    case DoRemove(u, c) => Relation(r.subs - {(u, c), (c, u)}, r.pending - {(u, c)})
  }

  function Cancel(subs: set<(User, User)>, u: User, c: User): set<(User, User)> {
    if (u, c) in subs && (c, u) in subs then subs - {(u, c)} else subs - {(u, c), (c, u)}
  }

  lemma AbsIs(st: State, r: Relation)
    requires forall u: User, c: User :: (u, c) in r.subs <==> SubscriptionOf(st, u, c).HasTo()
    requires forall u: User, c: User :: (u, c) in r.pending <==> Asks(st, u, c)
    ensures Abs(st) == r
  {
    forall k: (User, User)
      ensures k in Abs(st).subs <==> k in r.subs
      ensures k in Abs(st).pending <==> k in r.pending
    {
      assert k == (k.0, k.1);
      assert k in r.subs <==> SubscriptionOf(st, k.0, k.1).HasTo();
      assert k in r.pending <==> Asks(st, k.0, k.1);
    }
    assert Abs(st).subs == r.subs && Abs(st).pending == r.pending;
  }

  /** The pair (u, c) is the only pair whose stored halves a step may touch. */
  ghost predicate OnlyPair(st: State, st': State, u: User, c: User) {
    && (forall x: User, y: User {:trigger SubscriptionOf(st', x, y)} ::
          (x, y) != (u, c) && (x, y) != (c, u) ==> SubscriptionOf(st', x, y) == SubscriptionOf(st, x, y))
    && (forall x: User, y: User {:trigger Asks(st', x, y)} ::
          (x, y) != (u, c) ==> Asks(st', x, y) == Asks(st, x, y))
    && (forall k {:trigger k in st'.notes} :: k != (c, u) ==> (k in st'.notes <==> k in st.notes))
  }

  /** One step is judged on the four halves, the mark and the notification of its own pair. */
  lemma PairDecides(st: State, st': State, u: User, c: User, r': Relation)
    requires InStep(st) && OnlyPair(st, st', u, c)
    requires forall k {:trigger k in r'.subs} :: k != (u, c) && k != (c, u) ==> (k in r'.subs <==> k in Abs(st).subs)
    requires forall k {:trigger k in r'.pending} :: k != (u, c) ==> (k in r'.pending <==> k in Abs(st).pending)
    requires (u, c) in r'.subs <==> SubscriptionOf(st', u, c).HasTo()
    requires (c, u) in r'.subs <==> SubscriptionOf(st', c, u).HasTo()
    requires (u, c) in r'.pending <==> Asks(st', u, c)
    requires SubscriptionOf(st', u, c).HasTo() <==> SubscriptionOf(st', c, u).HasFrom()
    requires SubscriptionOf(st', c, u).HasTo() <==> SubscriptionOf(st', u, c).HasFrom()
    requires (c, u) in st'.notes <==> Asks(st', u, c)
    requires Asks(st', u, c) ==> !SubscriptionOf(st', u, c).HasTo()
    requires Asks(st', c, u) ==> !SubscriptionOf(st', c, u).HasTo()
    ensures InStep(st') && Abs(st') == r'
  {
    assert forall x: User, y: User :: (x, y) in Abs(st).subs <==> SubscriptionOf(st, x, y).HasTo();
    assert forall x: User, y: User :: (x, y) in Abs(st).pending <==> Asks(st, x, y);
    AbsIs(st', r');
  }

  /** A step keeps the copies in step if and only if `Keeps`, and then it is a function of the
      relation alone. */
  lemma StepInStep(st: State, step: Step)
    requires InStep(st)
    ensures InStep(Next(st, step)) <==> Keeps(st, step)
    ensures Keeps(st, step) ==> Abs(Next(st, step)) == RelationNext(Abs(st), step)
  {
    match step
    case DoSubscribe(u, c) => SubscribeInStep(st, u, c);
    case DoSubscribed(c, u) => SubscribedInStep(st, c, u);
    case DoUnsubscribe(u, c) => UnsubscribeInStep(st, u, c);
    case DoUnsubscribed(c, u) => UnsubscribedInStep(st, c, u);
    case DoUpdate(u, c, lbl, ask) => UpdateInStep(st, u, c, lbl, ask);
    case DoRemove(u, c) => RemoveInStep(st, u, c);
  }

  lemma SubscribeInStep(st: State, u: User, c: User)
    requires InStep(st)
    ensures InStep(Next(st, DoSubscribe(u, c)))
    ensures Abs(Next(st, DoSubscribe(u, c))) == RelationNext(Abs(st), DoSubscribe(u, c))
  {
    PairFacts(st, u, c);
    var r' := RelationNext(Abs(st), DoSubscribe(u, c));
    if Asks(st, u, c) {
      assert r'.pending == Abs(st).pending;
    } else {
      PairDecides(st, Next(st, DoSubscribe(u, c)), u, c, r');
    }
  }

  lemma PairFacts(st: State, u: User, c: User)
    requires InStep(st)
    ensures SubscriptionOf(st, u, c).HasTo() <==> SubscriptionOf(st, c, u).HasFrom()
    ensures SubscriptionOf(st, c, u).HasTo() <==> SubscriptionOf(st, u, c).HasFrom()
    ensures (c, u) in st.notes <==> Asks(st, u, c)
    ensures Asks(st, u, c) ==> !SubscriptionOf(st, u, c).HasTo()
    ensures Asks(st, c, u) ==> !SubscriptionOf(st, c, u).HasTo()
    ensures (u, c) in Abs(st).subs <==> SubscriptionOf(st, u, c).HasTo()
    ensures (c, u) in Abs(st).subs <==> SubscriptionOf(st, c, u).HasTo()
    ensures (u, c) in Abs(st).pending <==> Asks(st, u, c)
  {
  }

  lemma SubscribedInStep(st: State, c: User, u: User)
    requires InStep(st)
    ensures InStep(Next(st, DoSubscribed(c, u))) <==> (u, c) in st.items || u == c
    ensures (u, c) in st.items || u == c ==>
              Abs(Next(st, DoSubscribed(c, u))) == RelationNext(Abs(st), DoSubscribed(c, u))
  {
    var st' := Next(st, DoSubscribed(c, u));
    PairFacts(st, u, c);
    if (u, c) in st.items || u == c {
      PairDecides(st, st', u, c, RelationNext(Abs(st), DoSubscribed(c, u)));
    } else {
      assert SubscriptionOf(st', c, u).HasFrom() && !SubscriptionOf(st', u, c).HasTo();
    }
  }

  lemma UnsubscribeInStep(st: State, u: User, c: User)
    requires InStep(st)
    ensures InStep(Next(st, DoUnsubscribe(u, c)))
    ensures Abs(Next(st, DoUnsubscribe(u, c))) == RelationNext(Abs(st), DoUnsubscribe(u, c))
  {
    PairFacts(st, u, c);
    PairDecides(st, Next(st, DoUnsubscribe(u, c)), u, c, RelationNext(Abs(st), DoUnsubscribe(u, c)));
  }

  lemma UnsubscribedInStep(st: State, c: User, u: User)
    requires InStep(st)
    ensures InStep(Next(st, DoUnsubscribed(c, u)))
    ensures Abs(Next(st, DoUnsubscribed(c, u))) == RelationNext(Abs(st), DoUnsubscribed(c, u))
  {
    PairFacts(st, u, c);
    PairDecides(st, Next(st, DoUnsubscribed(c, u)), u, c, RelationNext(Abs(st), DoUnsubscribed(c, u)));
  }

  lemma UpdateInStep(st: State, u: User, c: User, lbl: Label, ask: bool)
    requires InStep(st)
    ensures InStep(Next(st, DoUpdate(u, c, lbl, ask))) <==> (u, c) in st.items || !ask
    ensures (u, c) in st.items || !ask ==> Abs(Next(st, DoUpdate(u, c, lbl, ask))) == Abs(st)
  {
    var st' := Next(st, DoUpdate(u, c, lbl, ask));
    PairFacts(st, u, c);
    if (u, c) in st.items || !ask {
      PairDecides(st, st', u, c, Abs(st));
    } else {
      assert Asks(st', u, c) && (c, u) !in st'.notes;
    }
  }

  lemma RemoveInStep(st: State, u: User, c: User)
    requires InStep(st)
    ensures InStep(Next(st, DoRemove(u, c)))
    ensures Abs(Next(st, DoRemove(u, c))) == RelationNext(Abs(st), DoRemove(u, c))
  {
    PairFacts(st, u, c);
    PairDecides(st, Next(st, DoRemove(u, c)), u, c, RelationNext(Abs(st), DoRemove(u, c)));
  }

  // ---------------------------------------------------------------------------------------------
  // Whole runs
  // ---------------------------------------------------------------------------------------------

  function Run(st: State, steps: seq<Step>): State
    decreases |steps|
  {
    if steps == [] then st else Run(Next(st, steps[0]), steps[1..])
  }

  predicate AllKeep(st: State, steps: seq<Step>)
    decreases |steps|
  {
    steps == [] || (Keeps(st, steps[0]) && AllKeep(Next(st, steps[0]), steps[1..]))
  }

  function RelationRun(r: Relation, steps: seq<Step>): Relation
    decreases |steps|
  {
    if steps == [] then r else RelationRun(RelationNext(r, steps[0]), steps[1..])
  }

  /** In every run the copies stay together and the run is a run of the relation. */
  lemma {:induction false} RunInStep(st: State, steps: seq<Step>)
    requires InStep(st) && AllKeep(st, steps)
    ensures InStep(Run(st, steps))
    ensures Abs(Run(st, steps)) == RelationRun(Abs(st), steps)
    decreases |steps|
  {
    if steps != [] {
      StepInStep(st, steps[0]);
      RunInStep(Next(st, steps[0]), steps[1..]);
    }
  }

  /** The reading of a run from the empty server, spelled out on the stored copies. */
  lemma ReachableInStep(steps: seq<Step>, u: User, c: User)
    requires AllKeep(EMPTY, steps)
    ensures var st := Run(EMPTY, steps);
            && (SubscriptionOf(st, u, c).HasTo() <==> SubscriptionOf(st, c, u).HasFrom())
            && ((c, u) in st.notes <==> Asks(st, u, c))
            && (Asks(st, u, c) ==> SubscriptionOf(st, u, c) in {None, From})
            && ((u, c) in RelationRun(Relation({}, {}), steps).subs <==> SubscriptionOf(st, u, c).HasTo())
  {
    assert Abs(EMPTY) == Relation({}, {});
    RunInStep(EMPTY, steps);
  }

  // ---------------------------------------------------------------------------------------------
  // Names and groups
  // ---------------------------------------------------------------------------------------------

  /** Nobody's name or groups change but at one key. */
  lemma UpdateLabels(st: State, u: User, c: User, lbl: Label, ask: bool)
    ensures var before, after := Labels(st), Labels(Next(st, DoUpdate(u, c, lbl, ask)));
            && after.Keys == before.Keys + {(u, c)} && after - {(u, c)} == before - {(u, c)}
            && after[(u, c)].groups == lbl.groups
            && (lbl.name != "" ==> after[(u, c)].name == lbl.name)
            && (lbl.name == "" ==> after[(u, c)].name == if (u, c) in before then before[(u, c)].name else "")
  {
  }

  /** Changing a subscription or an ask mark changes no label. */
  lemma MarksKeepLabels(st: State, u: User, c: User, s: Subscription)
    ensures Labels(SetSubscription(st, u, c, s)) == Labels(st) && Labels(ClearAsk(st, u, c)) == Labels(st)
  {
  }

  lemma SubscribedLabels(st: State, c: User, u: User)
    ensures Labels(Next(st, DoSubscribed(c, u))) ==
            if (c, u) in Labels(st) then Labels(st) else Labels(st)[(c, u) := Label("", [])]
  {
    var prev := if (c, u) in st.items then st.items[(c, u)] else Item(None, false, Label("", []));
    var st1 := State(st.items[(c, u) := prev.(subscription := Halves(prev.subscription.HasTo(), true))],
                     st.notes - {(c, u)});
    var s := Halves(true, SubscriptionOf(st1, u, c).HasFrom());
    MarksKeepLabels(st1, u, c, s);
    MarksKeepLabels(SetSubscription(st1, u, c, s), u, c, s);
    assert Labels(st1) == Labels(st)[(c, u) := prev.lbl];
  }

  lemma RemoveLabels(st: State, u: User, c: User)
    ensures Labels(Next(st, DoRemove(u, c))) == Labels(st) - {(u, c)}
  {
    var st1 := if (u, c) in st.items then State(st.items - {(u, c)}, st.notes - {(c, u)}) else st;
    MarksKeepLabels(st1, c, u, None);
    assert Labels(st1) == Labels(st) - {(u, c)};
  }

  lemma CancelKeepsLabels(st: State, u: User, c: User)
    ensures Labels(Next(st, DoUnsubscribe(u, c))) == Labels(st)
    ensures Labels(Next(st, DoUnsubscribed(c, u))) == Labels(st)
  {
    var st1 := SetSubscription(st, u, c, DropTo(SubscriptionOf(st, u, c)));
    MarksKeepLabels(st, u, c, DropTo(SubscriptionOf(st, u, c)));
    MarksKeepLabels(st1, c, u, DropFrom(SubscriptionOf(st1, c, u)));
    var t0 := st.(notes := st.notes - {(c, u)});
    var t1 := if (c, u) in st.notes then t0 else SetSubscription(t0, c, u, DropFrom(SubscriptionOf(t0, c, u)));
    var t2 := if Asks(t1, u, c) then t1 else SetSubscription(t1, u, c, DropTo(SubscriptionOf(t1, u, c)));
    MarksKeepLabels(t0, c, u, DropFrom(SubscriptionOf(t0, c, u)));
    MarksKeepLabels(t1, u, c, DropTo(SubscriptionOf(t1, u, c)));
    MarksKeepLabels(t2, u, c, None);
  }

  /** A roster set replaces the groups, and the name unless it gives none; whoever asks or approves gets an
      item without name and groups if there was none; a removal takes one item away. No step touches any
      other name or group. */
  lemma StepLabels(st: State, step: Step)
    ensures var before, after := Labels(st), Labels(Next(st, step));
            match step
            case DoUpdate(u, c, lbl, _) =>
              && after.Keys == before.Keys + {(u, c)} && after - {(u, c)} == before - {(u, c)}
              && after[(u, c)].groups == lbl.groups
              && (lbl.name != "" ==> after[(u, c)].name == lbl.name)
              && (lbl.name == "" ==> after[(u, c)].name == if (u, c) in before then before[(u, c)].name else "")
            case DoRemove(u, c) => after == before - {(u, c)}
            case DoSubscribe(u, c) => after == if (u, c) in before then before else before[(u, c) := Label("", [])]
            case DoSubscribed(c, u) => after == if (c, u) in before then before else before[(c, u) := Label("", [])]
            case _ => after == before
  {
    match step
    case DoUpdate(u, c, lbl, ask) => UpdateLabels(st, u, c, lbl, ask);
    case DoRemove(u, c) => RemoveLabels(st, u, c);
    case DoSubscribe(u, c) =>
    case DoSubscribed(c, u) => SubscribedLabels(st, c, u);
    case DoUnsubscribe(u, c) => CancelKeepsLabels(st, u, c);
    case DoUnsubscribed(c, u) => CancelKeepsLabels(st, u, c);
  }

  /** Whether u lists c after a run: what the last step says that sets, requests, approves or removes. */
  predicate Listed(steps: seq<Step>, u: User, c: User) {
    steps != [] &&
    var earlier := steps[..|steps| - 1];
    match steps[|steps| - 1]
    case DoUpdate(x, y, _, _) => (x, y) == (u, c) || Listed(earlier, u, c)
    case DoSubscribe(x, y) => (x, y) == (u, c) || Listed(earlier, u, c)
    case DoSubscribed(x, y) => (x, y) == (u, c) || Listed(earlier, u, c)
    case DoRemove(x, y) => (x, y) != (u, c) && Listed(earlier, u, c)
    case _ => Listed(earlier, u, c)
  }

  /** The groups of u's last roster set for c since c was last removed. */
  function LastGroups(steps: seq<Step>, u: User, c: User): seq<string> {
    if steps == [] then []
    else
      var last, earlier := steps[|steps| - 1], steps[..|steps| - 1];
      if last.DoUpdate? && (last.u, last.c) == (u, c) then last.lbl.groups
      else if last == DoRemove(u, c) then []
      else LastGroups(earlier, u, c)
  }

  /** The name in u's last roster set for c that gave one, since c was last removed. */
  function LastName(steps: seq<Step>, u: User, c: User): string {
    if steps == [] then ""
    else
      var last, earlier := steps[|steps| - 1], steps[..|steps| - 1];
      if last.DoUpdate? && (last.u, last.c) == (u, c) && last.lbl.name != "" then last.lbl.name
      else if last == DoRemove(u, c) then ""
      else LastName(earlier, u, c)
  }

  predicate LabelledAs(st: State, steps: seq<Step>, u: User, c: User) {
    var labels := Labels(st);
    && ((u, c) in labels <==> Listed(steps, u, c))
    && (!Listed(steps, u, c) ==> LastName(steps, u, c) == "" && LastGroups(steps, u, c) == [])
    && (Listed(steps, u, c) ==> labels[(u, c)] == Label(LastName(steps, u, c), LastGroups(steps, u, c)))
  }

  lemma LabelledNext(st: State, steps: seq<Step>, step: Step, u: User, c: User)
    requires LabelledAs(st, steps, u, c)
    ensures LabelledAs(Next(st, step), steps + [step], u, c)
  {
    StepLabels(st, step);
    assert (steps + [step])[..|steps|] == steps;
  }

  /** In every run from the empty server, whether its copies agree or not: u lists exactly the contacts that were
      last set, requested or approved rather than removed, under the last name and the last groups given. */
  lemma {:induction false} ReachableLabels(steps: seq<Step>, u: User, c: User)
    ensures var labels := Labels(Run(EMPTY, steps));
            && ((u, c) in labels <==> Listed(steps, u, c))
            && (Listed(steps, u, c) ==> labels[(u, c)] == Label(LastName(steps, u, c), LastGroups(steps, u, c)))
    ensures LabelledAs(Run(EMPTY, steps), steps, u, c)
    decreases |steps|
  {
    if steps != [] {
      var last, earlier := steps[|steps| - 1], steps[..|steps| - 1];
      ReachableLabels(earlier, u, c);
      LabelledNext(Run(EMPTY, earlier), earlier, last, u, c);
      assert steps == earlier + [last];
      RunAppend(EMPTY, earlier, last);
    }
  }

  lemma {:induction false} RunAppend(st: State, steps: seq<Step>, step: Step)
    ensures Run(st, steps + [step]) == Next(Run(st, steps), step)
    decreases |steps|
  {
    if steps == [] {
      assert ([] + [step])[1..] == [];
    } else {
      assert (steps + [step])[1..] == steps[1..] + [step];
      RunAppend(Next(st, steps[0]), steps[1..], step);
    }
  }

  /** Both exclusions of `Keeps` are needed: one approval out of nowhere, or one client-set `ask`,
      leaves a half that has no counterpart. */
  lemma WithoutKeepsCopiesDrift(u: User, c: User, lbl: Label)
    requires u != c
    ensures var st := Run(EMPTY, [DoSubscribed(c, u)]);
            SubscriptionOf(st, c, u).HasFrom() && !SubscriptionOf(st, u, c).HasTo()
    ensures var st := Run(EMPTY, [DoUpdate(u, c, lbl, true)]);
            Asks(st, u, c) && (c, u) !in st.notes
  {
    assert Run(EMPTY, [DoSubscribed(c, u)]) == Next(EMPTY, DoSubscribed(c, u));
    assert Run(EMPTY, [DoUpdate(u, c, lbl, true)]) == Next(EMPTY, DoUpdate(u, c, lbl, true));
  }

  /** Section 3.3 of RFC 6121 lets an unsubscribe end u's subscription only. The handler meets that
      exactly when c is not subscribed to u alone; otherwise c's own subscription is lost too. */
  lemma UnsubscribeIsOneWay(st: State, u: User, c: User)
    requires InStep(st)
    ensures Abs(Next(st, DoUnsubscribe(u, c))).subs == Abs(st).subs - {(u, c)} <==>
            !(SubscriptionOf(st, c, u).HasTo() && !SubscriptionOf(st, u, c).HasTo())
  {
    UnsubscribeInStep(st, u, c);
    var subs := Abs(st).subs;
    assert (u, c) in subs <==> SubscriptionOf(st, u, c).HasTo();
    assert (c, u) in subs <==> SubscriptionOf(st, c, u).HasTo();
    assert Cancel(subs, u, c) == subs - {(u, c)} <==>
           !((c, u) in subs - {(u, c)} && (u, c) !in subs) by {
      if (c, u) in subs - {(u, c)} && (u, c) !in subs {
        assert (c, u) !in Cancel(subs, u, c);
      }
    }
  }

  /** The same of a cancellation by c: it ends u's subscription alone exactly when it refuses a pending
      request or c is not subscribed to u alone. */
  lemma UnsubscribedIsOneWay(st: State, c: User, u: User)
    requires InStep(st)
    ensures Abs(Next(st, DoUnsubscribed(c, u))).subs == Abs(st).subs - {(u, c)} <==>
            Asks(st, u, c) || !(SubscriptionOf(st, c, u).HasTo() && !SubscriptionOf(st, u, c).HasTo())
  {
    UnsubscribedInStep(st, c, u);
    UnsubscribeInStep(st, u, c);
    UnsubscribeIsOneWay(st, u, c);
    var r := Abs(st);
    assert (u, c) in r.pending <==> Asks(st, u, c);
    if Asks(st, u, c) {
      assert (u, c) !in r.subs by { PairFacts(st, u, c); }
      assert r.subs - {(u, c)} == r.subs;
    }
  }

  /** It happens: c asks for u's presence and u approves; then an unsubscribe by u, or a cancellation by c, of
      a subscription that never was ends c's. */
  lemma OppositeIsLost(u: User, c: User)
    requires u != c
    ensures var steps := [DoSubscribe(c, u), DoSubscribed(u, c)];
            && AllKeep(EMPTY, steps)
            && Abs(Run(EMPTY, steps)).subs == {(c, u)}
            && Abs(Next(Run(EMPTY, steps), DoUnsubscribe(u, c))).subs == {}
            && Abs(Next(Run(EMPTY, steps), DoUnsubscribed(c, u))).subs == {}
  {
    var steps := [DoSubscribe(c, u), DoSubscribed(u, c)];
    var st1 := Next(EMPTY, steps[0]);
    var st := Next(st1, steps[1]);
    assert steps[1..] == [steps[1]] && steps[1..][1..] == [];
    assert Run(st1, steps[1..]) == Run(st, []) == st;
    assert AllKeep(st1, steps[1..]);
    ReachableInStep(steps, u, c);
    RunInStep(EMPTY, steps);
    assert Abs(EMPTY) == Relation({}, {});
    assert RelationRun(Relation({}, {}), steps) == RelationNext(RelationNext(Relation({}, {}), steps[0]), steps[1]);
    assert Abs(st) == Relation({(c, u)}, {});
    UnsubscribeInStep(st, u, c);
    UnsubscribedInStep(st, c, u);
  }

  // ---------------------------------------------------------------------------------------------
  // Who may see whom: two modules read opposite halves
  // ---------------------------------------------------------------------------------------------

  /** Last activity reads the contact's item for the user. */
  predicate LastActivityAllows(st: State, contact: User, user: User) {
    contact == user || SubscriptionOf(st, contact, user).HasFrom()
  }

  /** Service discovery reads the user's item for the contact. */
  predicate DiscoAllows(st: State, contact: User, user: User) {
    contact == user || SubscriptionOf(st, user, contact).HasTo()
  }

  /** In every run the two checks give the same answer. */
  lemma ChecksAgree(steps: seq<Step>, contact: User, user: User)
    requires AllKeep(EMPTY, steps)
    ensures LastActivityAllows(Run(EMPTY, steps), contact, user) <==> DiscoAllows(Run(EMPTY, steps), contact, user)
  {
    ReachableInStep(steps, user, contact);
  }

  // ---------------------------------------------------------------------------------------------
  // The module itself
  // ---------------------------------------------------------------------------------------------

  function PresencesFrom(user: User, rss: seq<Resource>, to: Address, typ: PresenceType): seq<Presence> {
    seq(|rss|, i requires 0 <= i < |rss| => Presence(typ, Address(user, rss[i].name), to))
  }

  function Forward(typ: PresenceType, from: User, to: User): Presence {
    Presence(typ, Address(from, ""), Address(to, ""))
  }

  function ResourcesIn(resources: map<User, seq<Resource>>, u: User): seq<Resource> {
    if u in resources then resources[u] else []
  }

  /** The stanzas that a step routes, in order. */
  function Routed(st: State, step: Step, rss: map<User, seq<Resource>>): seq<Presence> {
    match step
    case DoSubscribe(u, c) =>
      if SubscriptionOf(st, u, c).HasTo() || Asks(st, u, c) then [] else [Forward(Subscribe, u, c)]
    case DoSubscribed(c, u) =>
      if SubscriptionOf(st, u, c).HasTo() then []
      else [Forward(Subscribed, c, u)] + PresencesFrom(c, ResourcesIn(rss, c), Address(u, ""), Available)
    case DoUnsubscribe(u, c) =>
      [Forward(Unsubscribe, u, c)] +
      (if SubscriptionOf(st, u, c).HasTo()
       then PresencesFrom(c, ResourcesIn(rss, c), Address(u, ""), Unavailable) else [])
    case DoUnsubscribed(c, u) =>
      [Forward(Unsubscribed, c, u)] +
      (if (c, u) !in st.notes && SubscriptionOf(st, c, u).HasFrom()
       then PresencesFrom(c, ResourcesIn(rss, c), Address(u, ""), Unavailable) else [])
    case DoUpdate(_, _, _, _) => []
    case DoRemove(u, c) =>
      RemovalPresences(SubscriptionOf(st, u, c), u, c, u != c && SubscriptionOf(st, c, u).HasFrom(),
                       ResourcesIn(rss, u), ResourcesIn(rss, c))
  }

  /** The roster handlers. Every handler returns the presence stanzas it routes, in order. */
  class RosterModule {
    var items: map<(User, User), Item>
    var notes: set<(User, User)>
    var resources: map<User, seq<Resource>>

    function St(): State
      reads this
    {
      State(items, notes)
    }

    function ResourcesOf(u: User): seq<Resource>
      reads this
    {
      ResourcesIn(resources, u)
    }

    constructor ()
      ensures St() == EMPTY && InStep(St())
      ensures resources == map[]
    {
      items, notes, resources := map[], {}, map[];
    }

    method RoutePresencesFrom(user: User, to: Address, typ: PresenceType) returns (sent: seq<Presence>)
      ensures sent == PresencesFrom(user, ResourcesOf(user), to, typ)
    {
      sent := [];
      var rss := ResourcesOf(user);
      for i := 0 to |rss|
        invariant sent == PresencesFrom(user, rss[..i], to, typ)
      {
        sent := sent + [Presence(typ, Address(user, rss[i].name), to)];
      }
      assert rss[..|rss|] == rss;
    }

    method DeleteNotification(contact: User, user: User) returns (deleted: bool)
      modifies this`notes
      ensures deleted == ((contact, user) in old(notes))
      ensures notes == old(notes) - {(contact, user)}
    {
      deleted := (contact, user) in notes;
      if deleted {
        notes := notes - {(contact, user)};
      }
    }

    method ProcessSubscribe(u: User, c: User) returns (sent: seq<Presence>)
      modifies this`items, this`notes
      ensures St() == Next(old(St()), DoSubscribe(u, c))
      ensures sent == Routed(old(St()), DoSubscribe(u, c), resources)
    {
      var item := Item(None, true, Label("", []));
      if (u, c) in items {
        item := items[(u, c)];
        match item.subscription {
          case To => return [];
          case Both => return [];
          case _ =>
            if item.ask { return []; }
            item := item.(ask := true);
        }
      }
      items := items[(u, c) := item];
      notes := notes + {(c, u)};
      sent := [Forward(Subscribe, u, c)];
    }

    method GrantItemFrom(c: User, u: User)
      modifies this`items
      ensures var prev := if (c, u) in old(items) then old(items)[(c, u)] else Item(None, false, Label("", []));
              items == old(items)[(c, u) := prev.(subscription := Halves(prev.subscription.HasTo(), true))]
    {
      var cnt := Item(From, false, Label("", []));
      if (c, u) in items {
        cnt := items[(c, u)];
        match cnt.subscription {
          case To => cnt := cnt.(subscription := Both);
          case None => cnt := cnt.(subscription := From);
          case _ =>
        }
      }
      items := items[(c, u) := cnt];
    }

    method ProcessSubscribed(c: User, u: User) returns (sent: seq<Presence>)
      modifies this`items, this`notes
      ensures St() == Next(old(St()), DoSubscribed(c, u))
      ensures sent == Routed(old(St()), DoSubscribed(c, u), resources)
    {
      var _ := DeleteNotification(c, u);
      GrantItemFrom(c, u);
      if (u, c) in items {
        var usr := items[(u, c)];
        match usr.subscription {
          case From => usr := usr.(subscription := Both);
          case None => usr := usr.(subscription := To);
          case _ => return [];
        }
        items := items[(u, c) := usr.(ask := false)];
      }
      var rest := RoutePresencesFrom(c, Address(u, ""), Available);
      sent := [Forward(Subscribed, c, u)] + rest;
    }

    // Both cancelling handlers write an item back this way.
    method DropItemFrom(c: User, u: User) returns (was: Subscription)
      modifies this`items
      ensures was == SubscriptionOf(old(St()), c, u)
      ensures St() == SetSubscription(old(St()), c, u, DropFrom(was))
    {
      was := None;
      if (c, u) in items {
        var cnt := items[(c, u)];
        was := cnt.subscription;
        match was {
          case Both => cnt := cnt.(subscription := To);
          case _ => cnt := cnt.(subscription := None);
        }
        items := items[(c, u) := cnt];
      }
    }

    method DropItemTo(u: User, c: User) returns (was: Subscription)
      modifies this`items
      ensures was == SubscriptionOf(old(St()), u, c)
      ensures St() == SetSubscription(old(St()), u, c, DropTo(was))
    {
      was := None;
      if (u, c) in items {
        var usr := items[(u, c)];
        was := usr.subscription;
        match was {
          case Both => usr := usr.(subscription := From);
          case _ => usr := usr.(subscription := None);
        }
        items := items[(u, c) := usr];
      }
    }

    method ProcessUnsubscribe(u: User, c: User) returns (sent: seq<Presence>)
      modifies this`items
      ensures St() == Next(old(St()), DoUnsubscribe(u, c))
      ensures sent == Routed(old(St()), DoUnsubscribe(u, c), resources)
    {
      var usrSub := DropItemTo(u, c);
      var _ := DropItemFrom(c, u);
      sent := [Forward(Unsubscribe, u, c)];
      if usrSub.To? || usrSub.Both? {
        var rest := RoutePresencesFrom(c, Address(u, ""), Unavailable);
        sent := sent + rest;
      }
    }

    method ProcessUnsubscribed(c: User, u: User) returns (sent: seq<Presence>)
      modifies this`items, this`notes
      ensures St() == Next(old(St()), DoUnsubscribed(c, u))
      ensures sent == Routed(old(St()), DoUnsubscribed(c, u), resources)
    {
      var cntSub := None;
      var deleted := DeleteNotification(c, u);
      if !deleted {
        cntSub := DropItemFrom(c, u);
      }
      if (u, c) in items {
        if items[(u, c)].ask {
          items := items[(u, c) := items[(u, c)].(ask := false)];
        } else {
          var _ := DropItemTo(u, c);
        }
      }
      sent := [Forward(Unsubscribed, c, u)];
      if cntSub.From? || cntSub.Both? {
        var rest := RoutePresencesFrom(c, Address(u, ""), Unavailable);
        sent := sent + rest;
      }
    }

    method UpdateItem(u: User, c: User, lbl: Label, ask: bool)
      modifies this`items
      ensures St() == Next(old(St()), DoUpdate(u, c, lbl, ask))
      ensures (u, c) in items && items - {(u, c)} == old(items) - {(u, c)}
      ensures items[(u, c)].lbl.groups == lbl.groups
      ensures lbl.name != "" || (u, c) !in old(items) ==> items[(u, c)].lbl.name == lbl.name
      ensures lbl.name == "" && (u, c) in old(items) ==> items[(u, c)].lbl.name == old(items)[(u, c)].lbl.name
      ensures (u, c) in old(items) ==> items[(u, c)].subscription == old(items)[(u, c)].subscription &&
                                       items[(u, c)].ask == old(items)[(u, c)].ask
      ensures (u, c) !in old(items) ==> items[(u, c)].subscription == None && items[(u, c)].ask == ask
    {
      var usr := Item(None, ask, lbl);
      if (u, c) in items {
        usr := items[(u, c)];
        if |lbl.name| > 0 {
          usr := usr.(lbl := usr.lbl.(name := lbl.name));
        }
        usr := usr.(lbl := usr.lbl.(groups := lbl.groups));
      }
      items := items[(u, c) := usr];
    }

    // The contact's item, when the user's is removed.
    method ClearContact(c: User, u: User) returns (was: Subscription)
      modifies this`items
      ensures was == SubscriptionOf(old(St()), c, u)
      ensures St() == SetSubscription(old(St()), c, u, None)
    {
      was := None;
      if (c, u) in items {
        var cnt := items[(c, u)];
        was := cnt.subscription;
        if was.Both? {
          // written once as `to`, then, falling through, as `none`
          cnt := cnt.(subscription := To);
          items := items[(c, u) := cnt];
        }
        cnt := cnt.(subscription := None);
        items := items[(c, u) := cnt];
      }
    }

    method RemoveItem(u: User, c: User) returns (sent: seq<Presence>)
      modifies this`items, this`notes
      ensures St() == Next(old(St()), DoRemove(u, c))
      ensures sent == Routed(old(St()), DoRemove(u, c), resources)
    {
      var unsubscribe, unsubscribed := [], [];
      var usrSub := None;
      if (u, c) in items {
        usrSub := items[(u, c)].subscription;
        match usrSub {
          case To => unsubscribe := [Forward(Unsubscribe, u, c)];
          case From => unsubscribed := [Forward(Unsubscribed, u, c)];
          case Both =>
            unsubscribe := [Forward(Unsubscribe, u, c)];
            unsubscribed := [Forward(Unsubscribed, u, c)];
          case None =>
        }
        var _ := DeleteNotification(c, u);
        items := items - {(u, c)};
      }
      var cntSub := ClearContact(c, u);
      sent := [];
      if cntSub.From? || cntSub.Both? {
        sent := RoutePresencesFrom(c, Address(u, ""), Unavailable);
      }
      sent := sent + unsubscribe + unsubscribed;
      if usrSub.From? || usrSub.Both? {
        var rest := RoutePresencesFrom(u, Address(c, ""), Unavailable);
        sent := sent + rest;
      }
    }

    /** One request of a client. */
    method Handle(step: Step) returns (sent: seq<Presence>)
      modifies this`items, this`notes
      ensures St() == Next(old(St()), step) && sent == Routed(old(St()), step, resources)
      ensures old(InStep(St()) && Keeps(St(), step)) ==>
                && InStep(St()) && Abs(St()) == RelationNext(old(Abs(St())), step)
                && NewsFollows(old(Abs(St())), Abs(St()), step, resources, sent)
    {
      if InStep(St()) && Keeps(St(), step) {
        StepInStep(St(), step);
        StepNews(St(), step, resources);
      }
      sent := [];
      match step {
        case DoSubscribe(u, c) => sent := ProcessSubscribe(u, c);
        case DoSubscribed(c, u) => sent := ProcessSubscribed(c, u);
        case DoUnsubscribe(u, c) => sent := ProcessUnsubscribe(u, c);
        case DoUnsubscribed(c, u) => sent := ProcessUnsubscribed(c, u);
        case DoUpdate(u, c, lbl, ask) => UpdateItem(u, c, lbl, ask);
        case DoRemove(u, c) => sent := RemoveItem(u, c);
      }
    }

    /** A probe of u is answered by c's available resources only to those u who are subscribed by c's item. */
    method ProcessProbe(u: User, c: User) returns (sent: seq<Presence>)
      ensures forall p :: p in sent <==>
                (SubscriptionOf(St(), c, u).HasFrom() &&
                 exists r :: r in ResourcesOf(c) && r.available &&
                     p == Presence(Available, Address(c, r.name), Address(u, "")))
    {
      sent := [];
      if (c, u) !in items || (!items[(c, u)].subscription.Both? && !items[(c, u)].subscription.From?) {
        return;
      }
      var rss := ResourcesOf(c);
      for i := 0 to |rss|
        invariant forall p :: p in sent <==>
                    exists r :: r in rss[..i] && r.available &&
                        p == Presence(Available, Address(c, r.name), Address(u, ""))
      {
        assert rss[..i + 1] == rss[..i] + [rss[i]];
        if rss[i].available {
          sent := sent + [Presence(Available, Address(c, rss[i].name), Address(u, ""))];
        }
      }
      assert rss[..|rss|] == rss;
    }

    /** The contacts of u in the order in which the store lists them: any order, each once. */
    method FetchContacts(u: User) returns (contacts: seq<User>)
      ensures forall c :: c in contacts <==> (u, c) in items
      ensures forall i, j :: 0 <= i < j < |contacts| ==> contacts[i] != contacts[j]
    {
      contacts := [];
      var left := set k | k in items && k.0 == u :: k.1;
      assert forall c :: c in left <==> (u, c) in items by {
        forall c | (u, c) in items ensures c in left { assert (u, c).0 == u && (u, c).1 == c; }
      }
      while left != {}
        invariant forall c :: (u, c) in items <==> c in left || c in contacts
        invariant forall c :: c in left ==> c !in contacts
        invariant forall i, j :: 0 <= i < j < |contacts| ==> contacts[i] != contacts[j]
        decreases |left|
      {
        var c :| c in left;
        contacts, left := contacts + [c], left - {c};
      }
    }

    /** The broadcast half of an availability change of u: one presence to every contact whose item
        in u's roster is from/both, and to nobody else. */
    method Broadcast(u: User, resource: string, typ: PresenceType) returns (sent: seq<Presence>)
      ensures forall c :: Presence(typ, Address(u, resource), Address(c, "")) in sent <==>
              SubscriptionOf(St(), u, c).HasFrom()
      ensures forall p :: p in sent ==> p == Presence(typ, Address(u, resource), Address(p.to.user, ""))
      ensures forall i, j :: 0 <= i < j < |sent| ==> sent[i] != sent[j]
    {
      sent := [];
      var contacts := FetchContacts(u);
      for k := 0 to |contacts|
        invariant forall c :: Presence(typ, Address(u, resource), Address(c, "")) in sent <==>
                    c in contacts[..k] && SubscriptionOf(St(), u, c).HasFrom()
        invariant forall p :: p in sent ==> p == Presence(typ, Address(u, resource), Address(p.to.user, ""))
        invariant forall i, j :: 0 <= i < j < |sent| ==> sent[i] != sent[j]
      {
        var c := contacts[k];
        assert contacts[..k + 1] == contacts[..k] + [c];
        var s := items[(u, c)].subscription;
        if s.From? || s.Both? {
          sent := sent + [Presence(typ, Address(u, resource), Address(c, ""))];
        }
      }
      assert contacts[..|contacts|] == contacts;
    }

    /** On going available for the first time, u is sent the presence of every resource of every
        contact that u's own roster marks to/both. */
    method ContactPresences(u: User, resource: string) returns (sent: seq<Presence>)
      ensures forall p :: p in sent <==>
                exists c, r :: SubscriptionOf(St(), u, c).HasTo() && r in ResourcesOf(c) &&
                  p == Presence(Available, Address(c, r.name), Address(u, resource))
    {
      sent := [];
      var contacts := FetchContacts(u);
      for k := 0 to |contacts|
        invariant forall p :: p in sent <==>
                    exists c, r :: c in contacts[..k] && SubscriptionOf(St(), u, c).HasTo() && r in ResourcesOf(c) &&
                      p == Presence(Available, Address(c, r.name), Address(u, resource))
      {
        var c := contacts[k];
        assert contacts[..k + 1] == contacts[..k] + [c];
        var s := items[(u, c)].subscription;
        if s.To? || s.Both? {
          var more := RoutePresencesFrom(c, Address(u, resource), Available);
          PresencesFromHas(c, ResourcesOf(c), Address(u, resource), Available);
          sent := sent + more;
        }
      }
      assert contacts[..|contacts|] == contacts;
    }

    /** The handler of an availability change that u, at `resource`, sends to its own account. */
    method ProcessAvailability(u: User, resource: string, available: bool, first: bool)
      returns (own: seq<Presence>, notified: set<User>, contacts: seq<Presence>, broadcast: seq<Presence>)
      ensures !(available && first) ==> own == [] && notified == {} && contacts == []
      ensures available && first ==>
                && |own| == |ResourcesOf(u)|
                && (forall i :: 0 <= i < |own| ==>
                      own[i] == Presence(Available, Address(u, resource), Address(u, ResourcesOf(u)[i].name)))
                && (forall x :: x in notified <==> (u, x) in notes)
                && (forall p :: p in contacts <==>
                      exists c, r :: SubscriptionOf(St(), u, c).HasTo() && r in ResourcesOf(c) &&
                        p == Presence(Available, Address(c, r.name), Address(u, resource)))
      ensures forall c :: Presence(if available then Available else Unavailable, Address(u, resource),
              Address(c, "")) in broadcast
                <==> SubscriptionOf(St(), u, c).HasFrom()
      ensures forall i, j :: 0 <= i < j < |broadcast| ==> broadcast[i] != broadcast[j]
    {
      own, notified, contacts := [], {}, [];
      if available && first {
        var rss := ResourcesOf(u);
        for i := 0 to |rss|
          invariant |own| == i
          invariant forall k :: 0 <= k < i ==>
                  own[k] == Presence(Available, Address(u, resource), Address(u, rss[k].name))
        {
          own := own + [Presence(Available, Address(u, resource), Address(u, rss[i].name))];
        }
        notified := set k | k in notes && k.0 == u :: k.1;
        forall x | (u, x) in notes ensures x in notified { assert (u, x).0 == u && (u, x).1 == x; }
        contacts := ContactPresences(u, resource);
      }
      broadcast := Broadcast(u, resource, if available then Available else Unavailable);
    }
  }

  function RemovalPresences(usrSub: Subscription, u: User, c: User, cntFrom: bool,
                            uRes: seq<Resource>, cRes: seq<Resource>): seq<Presence> {
    (if cntFrom then PresencesFrom(c, cRes, Address(u, ""), Unavailable) else []) +
    (if usrSub.HasTo() then [Forward(Unsubscribe, u, c)] else []) +
    (if usrSub.HasFrom() then [Forward(Unsubscribed, u, c)] else []) +
    (if usrSub.HasFrom() then PresencesFrom(u, uRes, Address(c, ""), Unavailable) else [])
  }

  // ---------------------------------------------------------------------------------------------
  // The stanzas say what happens to the relation
  // ---------------------------------------------------------------------------------------------

  /** The subscription of the other user, lost when one that is subscribed to nobody unsubscribes or cancels. */
  predicate Collateral(before: Relation, step: Step, x: User, y: User) {
    match step
    case DoUnsubscribe(u, c) => (x, y) == (c, u) && (u, c) !in before.subs
    case DoUnsubscribed(c, u) => (x, y) == (c, u) && (u, c) !in before.subs
    case _ => false
  }

  /** Of every pair: x is sent y's presence from each resource of y when x becomes subscribed to y, told that
      they are unavailable when x loses its subscription other than by collateral, and told that y approves
      in the first case; and y is sent x's request when it becomes pending. Giving up and cancelling are
      forwarded always, and on a removal when there is something to give up or to cancel. */
  ghost predicate PairNews(before: Relation, after: Relation, step: Step, rss: map<User, seq<Resource>>,
                           sent: seq<Presence>, x: User, y: User)
  {
    var gained := (x, y) !in before.subs && (x, y) in after.subs;
    var lost := (x, y) in before.subs && (x, y) !in after.subs;
    && (forall r :: r in ResourcesIn(rss, y) ==>
          (Presence(Available, Address(y, r.name), Address(x, "")) in sent <==> gained))
    && (forall r :: r in ResourcesIn(rss, y) ==>
          (Presence(Unavailable, Address(y, r.name), Address(x, "")) in sent <==>
           lost && !Collateral(before, step, x, y)))
    && (Presence(Subscribed, Address(y, ""), Address(x, "")) in sent <==> gained)
    && (Presence(Subscribe, Address(x, ""), Address(y, "")) in sent <==>
          (x, y) !in before.pending && (x, y) in after.pending)
    && (Presence(Unsubscribe, Address(x, ""), Address(y, "")) in sent <==>
          step == DoUnsubscribe(x, y) || (step == DoRemove(x, y) && (x, y) in before.subs))
    && (Presence(Unsubscribed, Address(y, ""), Address(x, "")) in sent <==>
          step == DoUnsubscribed(y, x) || (step == DoRemove(y, x) && (x, y) in before.subs))
  }

  ghost predicate NewsFollows(before: Relation, after: Relation, step: Step, rss: map<User, seq<Resource>>,
                              sent: seq<Presence>)
  {
    forall x: User, y: User :: PairNews(before, after, step, rss, sent, x, y)
  }

  /** In a state in step, what is routed is exactly the news that the step makes. */
  lemma StepNews(st: State, step: Step, rss: map<User, seq<Resource>>)
    requires InStep(st) && Keeps(st, step)
    ensures NewsFollows(Abs(st), Abs(Next(st, step)), step, rss, Routed(st, step, rss))
  {
    StepInStep(st, step);
    forall x: User, y: User ensures PairNews(Abs(st), Abs(Next(st, step)), step, rss, Routed(st, step, rss), x, y) {
      match step
      case DoSubscribe(u, c) => PairFacts(st, u, c);
      case DoSubscribed(c, u) => SubscribedNews(st, c, u, rss, x, y);
      case DoUnsubscribe(u, c) => UnsubscribeNews(st, u, c, rss, x, y);
      case DoUnsubscribed(c, u) => UnsubscribedNews(st, c, u, rss, x, y);
      case DoUpdate(_, _, _, _) =>
      case DoRemove(u, c) => RemoveNews(st, u, c, rss, x, y);
    }
  }

  lemma SubscribedNews(st: State, c: User, u: User, rss: map<User, seq<Resource>>, x: User, y: User)
    requires InStep(st) && Keeps(st, DoSubscribed(c, u))
    ensures var step := DoSubscribed(c, u);
            PairNews(Abs(st), RelationNext(Abs(st), step), step, rss, Routed(st, step, rss), x, y)
  {
    PairFacts(st, u, c);
    PresencesFromHas(c, ResourcesIn(rss, c), Address(u, ""), Available);
  }

  lemma UnsubscribeNews(st: State, u: User, c: User, rss: map<User, seq<Resource>>, x: User, y: User)
    requires InStep(st)
    ensures var step := DoUnsubscribe(u, c);
            PairNews(Abs(st), RelationNext(Abs(st), step), step, rss, Routed(st, step, rss), x, y)
  {
    PairFacts(st, u, c);
    PresencesFromHas(c, ResourcesIn(rss, c), Address(u, ""), Unavailable);
  }

  lemma UnsubscribedNews(st: State, c: User, u: User, rss: map<User, seq<Resource>>, x: User, y: User)
    requires InStep(st)
    ensures var step := DoUnsubscribed(c, u);
            PairNews(Abs(st), RelationNext(Abs(st), step), step, rss, Routed(st, step, rss), x, y)
  {
    PairFacts(st, u, c);
    PresencesFromHas(c, ResourcesIn(rss, c), Address(u, ""), Unavailable);
  }

  lemma RemoveNews(st: State, u: User, c: User, rss: map<User, seq<Resource>>, x: User, y: User)
    requires InStep(st)
    ensures var step := DoRemove(u, c);
            PairNews(Abs(st), RelationNext(Abs(st), step), step, rss, Routed(st, step, rss), x, y)
  {
    PairFacts(st, u, c);
    RemovalHas(SubscriptionOf(st, u, c), u, c, u != c && SubscriptionOf(st, c, u).HasFrom(),
               ResourcesIn(rss, u), ResourcesIn(rss, c));
    RemovalNews(Abs(st), u, c, SubscriptionOf(st, u, c), u != c && SubscriptionOf(st, c, u).HasFrom(), rss,
                Routed(st, DoRemove(u, c), rss), x, y);
  }

  ghost predicate InRemoval(usrSub: Subscription, u: User, c: User, cntFrom: bool, uRes: seq<Resource>,
                            cRes: seq<Resource>, p: Presence)
  {
    || (cntFrom && exists r :: r in cRes && p == Presence(Unavailable, Address(c, r.name), Address(u, "")))
    || (usrSub.HasTo() && p == Forward(Unsubscribe, u, c))
    || (usrSub.HasFrom() && p == Forward(Unsubscribed, u, c))
    || (usrSub.HasFrom() && exists r :: r in uRes && p == Presence(Unavailable, Address(u, r.name), Address(c, "")))
  }

  lemma RemovalHas(usrSub: Subscription, u: User, c: User, cntFrom: bool, uRes: seq<Resource>, cRes: seq<Resource>)
    ensures forall p :: p in RemovalPresences(usrSub, u, c, cntFrom, uRes, cRes) <==>
                        InRemoval(usrSub, u, c, cntFrom, uRes, cRes, p)
  {
    PresencesFromHas(c, cRes, Address(u, ""), Unavailable);
    PresencesFromHas(u, uRes, Address(c, ""), Unavailable);
  }

  lemma RemovalNews(before: Relation, u: User, c: User, usrSub: Subscription, cntFrom: bool,
                    rss: map<User, seq<Resource>>, sent: seq<Presence>, x: User, y: User)
    requires usrSub.HasTo() <==> (u, c) in before.subs
    requires usrSub.HasFrom() <==> (c, u) in before.subs
    requires cntFrom <==> u != c && (u, c) in before.subs
    requires forall p :: p in sent <==> InRemoval(usrSub, u, c, cntFrom, ResourcesIn(rss, u), ResourcesIn(rss, c), p)
    ensures PairNews(before, RelationNext(before, DoRemove(u, c)), DoRemove(u, c), rss, sent, x, y)
  {
  }

  lemma PresencesFromHas(user: User, rss: seq<Resource>, to: Address, typ: PresenceType)
    ensures forall p :: p in PresencesFrom(user, rss, to, typ) <==>
              exists r :: r in rss && p == Presence(typ, Address(user, r.name), to)
  {
    var ps := PresencesFrom(user, rss, to, typ);
    forall r | r in rss ensures Presence(typ, Address(user, r.name), to) in ps {
      var i :| 0 <= i < |rss| && rss[i] == r;
      assert ps[i] == Presence(typ, Address(user, r.name), to);
    }
  }

  /** In a state in step, an availability change of u reaches exactly the users whose own roster says
      that they are subscribed to u, and on the first availability u hears exactly from the contacts
      whose own roster lists u as a subscriber, and of exactly the users that are asking for u. */
  method AvailabilityReachesSubscribers(m: RosterModule, u: User, resource: string, available: bool, first: bool)
    returns (own: seq<Presence>, notified: set<User>, contacts: seq<Presence>, broadcast: seq<Presence>)
    requires InStep(m.St())
    ensures forall c :: Presence(if available then Available else Unavailable, Address(u, resource),
            Address(c, "")) in broadcast
              <==> SubscriptionOf(m.St(), c, u).HasTo()
    ensures available && first ==> forall x :: x in notified <==> Asks(m.St(), x, u)
    ensures available && first ==> forall p :: p in contacts <==>
              exists c, r :: SubscriptionOf(m.St(), c, u).HasFrom() && r in m.ResourcesOf(c) &&
                p == Presence(Available, Address(c, r.name), Address(u, resource))
  {
    own, notified, contacts, broadcast := m.ProcessAvailability(u, resource, available, first);
    assert forall c: User :: SubscriptionOf(m.St(), c, u).HasTo() <==> SubscriptionOf(m.St(), u, c).HasFrom();
    assert forall c: User :: SubscriptionOf(m.St(), u, c).HasTo() <==> SubscriptionOf(m.St(), c, u).HasFrom();
  }
}
