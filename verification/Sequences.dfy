/** Sequences: distinct elements, first occurrences, images, and sorting as the library's sort.Slice promises
    it: some sorted rearrangement, ties in any order. */
module Sequences {

  ghost predicate DistinctBy<T, K>(s: seq<T>, key: T -> K) {
    forall i, j :: 0 <= i < j < |s| ==> key(s[i]) != key(s[j])
  }

  /** Position i is the first that meets the condition. */
  predicate FirstWhere<T>(s: seq<T>, p: T -> bool, i: nat)
    requires i < |s|
  {
    p(s[i]) && forall j :: 0 <= j < i ==> !p(s[j])
  }

  ghost predicate TotalPreorder<T(!new)>(le: (T, T) -> bool) {
    && (forall a, b :: le(a, b) || le(b, a))
    && (forall a, b, c :: le(a, b) && le(b, c) ==> le(a, c))
  }

  ghost predicate Sorted<T>(s: seq<T>, le: (T, T) -> bool) {
    forall i, j :: 0 <= i < j < |s| ==> le(s[i], s[j])
  }

  ghost predicate Rearranged<T>(a: seq<T>, b: seq<T>) {
    multiset(a) == multiset(b)
  }

  lemma RearrangedMembers<T>(a: seq<T>, b: seq<T>)
    requires Rearranged(a, b)
    ensures |a| == |b|
    ensures forall x :: x in a <==> x in b
  {
    assert |multiset(a)| == |a| && |multiset(b)| == |b|;
    assert forall x :: x in a <==> x in multiset(a);
  }

  lemma InsertSorted<T>(s: seq<T>, x: T, i: nat, le: (T, T) -> bool)
    requires Sorted(s, le) && i <= |s|
    requires forall k :: 0 <= k < i ==> le(s[k], x)
    requires forall k :: i <= k < |s| ==> le(x, s[k])
    ensures Sorted(s[..i] + [x] + s[i..], le)
  {
    var r := s[..i] + [x] + s[i..];
    forall a, b | 0 <= a < b < |r| ensures le(r[a], r[b]) {
      assert r[a] == if a < i then s[a] else if a == i then x else s[a - 1];
      assert r[b] == if b < i then s[b] else if b == i then x else s[b - 1];
    }
  }

  lemma InsertRearranged<T>(s: seq<T>, x: T, i: nat)
    requires i <= |s|
    ensures Rearranged(s[..i] + [x] + s[i..], s + [x])
  {
    assert s == s[..i] + s[i..];
  }

  method Insert<T(!new)>(s: seq<T>, x: T, le: (T, T) -> bool) returns (r: seq<T>)
    requires TotalPreorder(le) && Sorted(s, le)
    ensures Sorted(r, le) && Rearranged(r, s + [x])
  {
    var i := |s|;
    while i > 0 && !le(s[i - 1], x)
      invariant 0 <= i <= |s|
      invariant forall k :: i <= k < |s| ==> le(x, s[k])
    {
      i := i - 1;
    }
    r := s[..i] + [x] + s[i..];
    forall k | 0 <= k < i ensures le(s[k], x) {
      if k < i - 1 { assert le(s[k], s[i - 1]); }
    }
    InsertSorted(s, x, i, le);
    InsertRearranged(s, x, i);
  }

  method SortBy<T(!new)>(s: seq<T>, le: (T, T) -> bool) returns (r: seq<T>)
    requires TotalPreorder(le)
    ensures Sorted(r, le) && Rearranged(r, s)
  {
    r := [];
    for i := 0 to |s|
      invariant Sorted(r, le) && Rearranged(r, s[..i])
    {
      r := Insert(r, s[i], le);
      assert s[..i + 1] == s[..i] + [s[i]];
    }
    assert s[..|s|] == s;
  }

  lemma TailRearranged<T>(a: seq<T>, b: seq<T>)
    requires Rearranged(a, b) && a != [] && b != [] && a[0] == b[0]
    ensures Rearranged(a[1..], b[1..])
  {
    assert a == [a[0]] + a[1..] && b == [b[0]] + b[1..];
    assert multiset(a[1..]) == multiset(a) - multiset{a[0]};
    assert multiset(b[1..]) == multiset(b) - multiset{b[0]};
  }

  /** Two sorted rearrangements are equal when elements of equal rank are equal. */
  lemma {:induction false} SortedUnique<T(!new)>(a: seq<T>, b: seq<T>, le: (T, T) -> bool)
    requires Sorted(a, le) && Sorted(b, le) && Rearranged(a, b)
    requires forall x, y :: x in a && y in a && le(x, y) && le(y, x) ==> x == y
    ensures a == b
  {
    RearrangedMembers(a, b);
    if a != [] {
      var x, y := a[0], b[0];
      assert x in b && y in a;
      var j :| 0 <= j < |b| && b[j] == x;
      var k :| 0 <= k < |a| && a[k] == y;
      assert (j > 0 ==> le(b[0], b[j])) && (k > 0 ==> le(a[0], a[k]));
      TailRearranged(a, b);
      forall p, q | p in a[1..] && q in a[1..] && le(p, q) && le(q, p) ensures p == q {
        assert p in a && q in a;
      }
      SortedUnique(a[1..], b[1..], le);
      assert a == [x] + a[1..] && b == [x] + b[1..];
    }
  }

  function Map<T, U>(f: T -> U, s: seq<T>): (r: seq<U>)
    ensures |r| == |s| && forall i :: 0 <= i < |s| ==> r[i] == f(s[i])
  {
    seq(|s|, i requires 0 <= i < |s| => f(s[i]))
  }

  lemma RemoveAt<T>(b: seq<T>, j: nat)
    requires j < |b|
    ensures multiset(b[..j] + b[j + 1..]) == multiset(b) - multiset{b[j]}
  {
    assert b == b[..j] + [b[j]] + b[j + 1..];
  }

  lemma IndexOf<T>(b: seq<T>, x: T) returns (j: nat)
    requires x in multiset(b)
    ensures j < |b| && b[j] == x
  {
    j :| 0 <= j < |b| && b[j] == x;
  }

  lemma MapWithout<T, U>(f: T -> U, b: seq<T>, j: nat)
    requires j < |b|
    ensures multiset(Map(f, b)) == multiset(Map(f, b[..j] + b[j + 1..])) + multiset{f(b[j])}
  {
    var m := Map(f, b);
    assert m == m[..j] + [f(b[j])] + m[j + 1..];
    assert m[..j] + m[j + 1..] == Map(f, b[..j] + b[j + 1..]);
  }

  lemma MapStep<T, U>(f: T -> U, a: seq<T>, i: nat, b: seq<T>, j: nat)
    requires i < |a| && j < |b| && a[i] == b[j]
    requires Rearranged(Map(f, a[..i] + a[i + 1..]), Map(f, b[..j] + b[j + 1..]))
    ensures Rearranged(Map(f, a), Map(f, b))
  {
    MapWithout(f, a, i);
    MapWithout(f, b, j);
  }

  lemma WithoutBoth<T>(a: seq<T>, i: nat, b: seq<T>, j: nat)
    requires i < |a| && j < |b| && a[i] == b[j] && Rearranged(a, b)
    ensures Rearranged(a[..i] + a[i + 1..], b[..j] + b[j + 1..])
  {
    RemoveAt(a, i);
    RemoveAt(b, j);
  }

  /** A rearranged sequence has rearranged images. */
  lemma {:induction false} MapRearranged<T, U>(f: T -> U, a: seq<T>, b: seq<T>)
    requires Rearranged(a, b)
    ensures Rearranged(Map(f, a), Map(f, b))
    decreases |a|
  {
    RearrangedMembers(a, b);
    if |a| > 0 {
      assert a[0] in multiset(a);
      var j := IndexOf(b, a[0]);
      WithoutBoth(a, 0, b, j);
      MapRearranged(f, a[..0] + a[1..], b[..j] + b[j + 1..]);
      MapStep(f, a, 0, b, j);
    }
  }
}
