/** The cluster index over the keys as they are stored. Every event carries its user, resource and instance in
    one key; a node that cannot take a key apart gives up the batch that holds it, or the whole snapshot. This
    module says what the mirror of ClusterIndex then loses. */
module ClusterKeys {
  import opened Options
  import opened Sequences
  import opened ClusterIndex
  import KeyCodec

  /** A watch event as it comes: the key, and for a put the value, which repeats the instance. */
  datatype RawEvent = RawPut(key: string, inst: InstanceId, info: string) | RawDel(key: string)

  function KeyText(k: Key): string { KeyCodec.ResourceKey(k.user, k.resource, k.inst) }

  function Encode(e: Event): RawEvent {
    match e
    case Put(d) => RawPut(KeyText(KeyOf(d)), d.inst, d.info)
    case Del(k) => RawDel(KeyText(k))
  }

  function Decode(r: RawEvent): Option<Event> {
    match KeyCodec.ExtractKeyInfo(r.key)
    case None => None
    case Some((user, resource, inst)) =>
      match r
      case RawPut(_, valueInst, info) => Some(Put(Desc(user, resource, valueInst, info)))
      case RawDel(_) => Some(Del(Key(user, resource, inst)))
  }

  /** No part of the key holds a separator. */
  predicate Readable(k: Key) {
    '@' !in k.user && '@' !in k.resource && '@' !in k.inst && '/' !in k.resource && '/' !in k.inst
  }

  lemma DecodeInverts(e: Event)
    ensures Decode(Encode(e)) == if Readable(EventKey(e)) then Some(e) else None
  {
    var k := EventKey(e);
    KeyCodec.ExtractInvertsKey(k.user, k.resource, k.inst);
  }

  /** An event that stops node `me`: a foreign one whose key cannot be taken apart. */
  predicate Stops(e: Event, me: InstanceId) { EventKey(e).inst != me && !Readable(EventKey(e)) }

  /** The part of a batch in front of the first event that stops the node. */
  function Readables(events: seq<Event>, me: InstanceId): seq<Event> {
    if events == [] || Stops(events[0], me) then [] else [events[0]] + Readables(events[1..], me)
  }

  lemma {:induction false} ReadablesAll(events: seq<Event>, me: InstanceId)
    ensures Readables(events, me) <= events
    ensures Readables(events, me) == events <==> forall e :: e in events ==> !Stops(e, me)
  {
    if events != [] {
      ReadablesAll(events[1..], me);
      assert events == [events[0]] + events[1..];
    }
  }

  lemma {:induction false} ReplayConcat(m: Index, a: seq<Event>, b: seq<Event>, me: InstanceId)
    ensures ReplayForeign(m, a + b, me) == ReplayForeign(ReplayForeign(m, a, me), b, me)
  {
    if b == [] {
      assert a + b == a;
    } else {
      assert (a + b)[..|a + b| - 1] == a + b[..|b| - 1];
      ReplayConcat(m, a, b[..|b| - 1], me);
    }
  }

  lemma ReplayOne(m: Index, e: Event, me: InstanceId)
    ensures ReplayForeign(m, [e], me) == if EventKey(e).inst == me then m else Apply(m, e)
  {
    assert [e][..0] == [];
  }

  lemma LocalIsOwn(e: Event, me: InstanceId)
    requires '/' !in EventKey(e).inst && '/' !in me
    ensures KeyCodec.IsLocalKey(Encode(e).key, me) <==> EventKey(e).inst == me
  {
    var k := EventKey(e);
    KeyCodec.LocalKeyIsOwn(k.user, k.resource, k.inst, me);
  }

  lemma ReadablesStep(events: seq<Event>, i: nat, me: InstanceId)
    requires i < |events|
    ensures Readables(events[i..], me) == if Stops(events[i], me) then []
            else [events[i]] + Readables(events[i + 1..], me)
  {
    assert events[i..][1..] == events[i + 1..];
  }

  /** A batch of stored events: the node applies what stands in front of the first foreign key that it cannot
      take apart, and reports success if and only if there is none. What it loses is exactly the rest. */
  method ProcessRawEvents(m: KvManager, raws: seq<RawEvent>, ghost events: seq<Event>) returns (ok: bool)
    requires m.Valid() && raws == Map(Encode, events)
    requires '/' !in m.me && forall e :: e in events ==> '/' !in EventKey(e).inst
    modifies m
    ensures m.Valid() && m.index == ReplayForeign(old(m.index), Readables(events, m.me), m.me)
    ensures ok <==> forall e :: e in events ==> !Stops(e, m.me)
    ensures ok ==> m.index == ReplayForeign(old(m.index), events, m.me)
  {
    ghost var goal := ReplayForeign(m.index, Readables(events, m.me), m.me);
    ReadablesAll(events, m.me);
    assert events[0..] == events;
    for i := 0 to |raws|
      invariant m.Valid()
      invariant goal == ReplayForeign(m.index, Readables(events[i..], m.me), m.me)
      invariant forall j :: 0 <= j < i ==> !Stops(events[j], m.me)
    {
      ghost var e, rest := events[i], Readables(events[i + 1..], m.me);
      assert e in events;
      LocalIsOwn(e, m.me);
      DecodeInverts(e);
      ReadablesStep(events, i, m.me);
      ReplayConcat(m.index, [e], rest, m.me);
      ReplayOne(m.index, e, m.me);
      if !KeyCodec.IsLocalKey(raws[i].key, m.me) {
        match Decode(raws[i]) {
          case None => return false;
          case Some(Put(d)) => m.InMemPut(d);
          case Some(Del(k)) => m.InMemDel(k.user, k.resource, k.inst);
        }
      }
    }
    assert events[|events|..] == [];
    ok := true;
  }

  /** The snapshot reads every stored key, the node's own among them: it succeeds if and only if all can be
      taken apart, and then it is the listing of the store. */
  method ReadSnapshot(raws: seq<RawEvent>, ghost rss: seq<Desc>) returns (r: Option<seq<Event>>)
    requires raws == Map(d => Encode(Put(d)), rss)
    ensures r.Some? <==> forall d :: d in rss ==> Readable(KeyOf(d))
    ensures r.Some? ==> r.value == Map(d => Put(d), rss)
  {
    var events := [];
    for i := 0 to |raws|
      invariant |events| == i && forall j :: 0 <= j < i ==> Readable(KeyOf(rss[j])) && events[j] == Put(rss[j])
    {
      DecodeInverts(Put(rss[i]));
      match Decode(raws[i]) {
        case None =>
          assert rss[i] in rss;
          return None;
        case Some(e) => events := events + [e];
      }
    }
    r := Some(events);
  }
}
