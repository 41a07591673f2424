/** Hook handlers with priorities: higher priorities run first, and a handler may stop the chain. */
module Hooks {
  import opened Sequences

  datatype Handler = Handler(id: nat, priority: int)

  datatype Reply = Continue | Stop | Fail

  predicate Before(a: Handler, b: Handler) { a.priority >= b.priority }

  class HookSet {
    var handlers: map<string, seq<Handler>>

    ghost predicate Valid()
      reads this
    {
      forall h :: h in handlers ==> Sorted(handlers[h], Before)
    }

    function Of(hook: string): seq<Handler>
      reads this
    {
      if hook in handlers then handlers[hook] else []
    }

    constructor ()
      ensures Valid() && handlers == map[]
    {
      handlers := map[];
    }

    /** One handler more, in priority order; every other hook keeps its chain. */
    method AddHook(hook: string, h: Handler)
      requires Valid()
      modifies this
      ensures Valid()
      ensures Rearranged(Of(hook), old(Of(hook)) + [h])
      ensures forall k :: k != hook ==> Of(k) == old(Of(k))
    {
      var sorted := SortBy(Of(hook) + [h], Before);
      handlers := handlers[hook := sorted];
    }

    /** The first handler with that identity goes; the others keep their order. */
    method RemoveHook(hook: string, id: nat)
      requires Valid()
      modifies this
      ensures Valid()
      ensures forall k :: k != hook ==> Of(k) == old(Of(k))
      ensures (forall i :: 0 <= i < |old(Of(hook))| ==> old(Of(hook))[i].id != id) ==> Of(hook) == old(Of(hook))
      ensures forall i | 0 <= i < |old(Of(hook))| && FirstWhere(old(Of(hook)), (h: Handler) => h.id == id, i) ::
                Of(hook) == old(Of(hook))[..i] + old(Of(hook))[i + 1..]
    {
      var l := Of(hook);
      for i := 0 to |l|
        invariant handlers == old(handlers)
        invariant forall j :: 0 <= j < i ==> l[j].id != id
      {
        if l[i].id == id {
          var rest := l[..i] + l[i + 1..];
          assert forall j :: 0 <= j < |rest| ==> rest[j] == l[if j < i then j else j + 1];
          handlers := handlers[hook := rest];
          return;
        }
      }
    }

    /** Runs the chain: `ran` is the part of the chain that was invoked, all of which said to go on
        except possibly the last, whose answer decides the outcome. */
    method Run(hook: string, answer: Handler -> Reply) returns (outcome: Reply, ran: seq<Handler>)
      requires Valid()
      ensures ran <= Of(hook)
      ensures forall i :: 0 <= i < |ran| - 1 ==> answer(ran[i]) == Continue
      ensures outcome == Continue ==> ran == Of(hook) && forall i :: 0 <= i < |ran| ==> answer(ran[i]) == Continue
      ensures outcome != Continue ==> ran != [] && answer(ran[|ran| - 1]) == outcome
    {
      var l := Of(hook);
      for i := 0 to |l|
        invariant forall j :: 0 <= j < i ==> answer(l[j]) == Continue
      {
        var r := answer(l[i]);
        if r != Continue {
          return r, l[..i + 1];
        }
      }
      return Continue, l;
    }
  }

  /** The chain has that handler once, and every other one has a higher priority. */
  ghost predicate Alone(chain: seq<Handler>, h: Handler) {
    multiset(chain)[h] == 1 && forall x :: x in chain && x != h ==> x.priority > h.priority
  }

  /** In priority order a handler that is alone at the lowest priority is the last. */
  lemma LowestIsLast(chain: seq<Handler>, h: Handler)
    requires Sorted(chain, Before) && Alone(chain, h)
    ensures chain != [] && chain[|chain| - 1] == h
    ensures forall i :: 0 <= i < |chain| - 1 ==> chain[i] != h
  {
    assert h in multiset(chain);
    var k :| 0 <= k < |chain| && chain[k] == h;
    var n := |chain| - 1;
    assert chain[n] in chain && (k < n ==> Before(chain[k], chain[n]));
    var front := chain[..n];
    assert chain == front + [h];
    assert h !in multiset(front);
    assert forall i :: 0 <= i < n ==> chain[i] == front[i] && front[i] in front;
  }

  /** A handler of higher priority does not displace it, in whatever order the two are added. */
  lemma StaysAlone(chain: seq<Handler>, h: Handler, other: Handler, chain': seq<Handler>)
    requires Rearranged(chain', chain + [other])
    ensures Alone(chain, h) && other.priority > h.priority ==> Alone(chain', h)
    ensures other == h && (forall x :: x in chain ==> x.priority > h.priority) ==> Alone(chain', h)
  {
    RearrangedMembers(chain', chain + [other]);
    assert h in multiset(chain) <==> h in chain;
  }
}
