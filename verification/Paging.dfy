/** Result set management (XEP-0059): cutting a result set into pages, by index, after an id and before
    an id. The source panics on some requests; a panic is an outcome of the model. */
module Paging {
  import opened Sequences

  datatype Request = Request(after: string, before: string, index: int, max: int, lastPage: bool)

  datatype Result = Result(index: int, first: string, last: string, count: int, complete: bool)

  datatype Outcome<T> = Page(items: seq<T>, res: Result) | PageNotFound | Panic

  // ---------------------------------------------------------------------------------------------
  // Which stretch of the result set a request is for
  // ---------------------------------------------------------------------------------------------

  function Min(a: int, b: int): int { if a < b then a else b }

  /** The page of at most `max` items from position `start`, if it has any item. */
  function PageFrom<T>(rs: seq<T>, getID: T -> string, start: nat, max: int, index: int): Outcome<T> {
    if start >= |rs| || max <= 0 then Panic // the first id of an empty page is asked for
    else
      var stop := Min(start + max, |rs|);
      Page(rs[start..stop], Result(index, getID(rs[start]), getID(rs[stop - 1]), stop - start, stop == |rs|))
  }

  /** Position of the first item with that id, or -1. */
  function IndexOf<T>(rs: seq<T>, getID: T -> string, id: string): int {
    if rs == [] then -1
    else if getID(rs[0]) == id then 0
    else var k := IndexOf(rs[1..], getID, id); if k == -1 then -1 else k + 1
  }

  lemma {:induction false} IndexOfIs<T>(rs: seq<T>, getID: T -> string, id: string)
    ensures var k := IndexOf(rs, getID, id);
            && -1 <= k < |rs|
            && (k >= 0 ==> getID(rs[k]) == id)
            && (forall j :: 0 <= j < |rs| && (k == -1 || j < k) ==> getID(rs[j]) != id)
  {
    if rs != [] && getID(rs[0]) != id {
      IndexOfIs(rs[1..], getID, id);
      assert forall j :: 1 <= j < |rs| ==> rs[j] == rs[1..][j - 1];
    }
  }

  lemma IndexOfAt<T>(rs: seq<T>, getID: T -> string, k: nat)
    requires DistinctBy(rs, getID) && k < |rs|
    ensures IndexOf(rs, getID, getID(rs[k])) == k
  {
    IndexOfIs(rs, getID, getID(rs[k]));
  }

  // Division as the source's language does it, for a dividend that is not negative.
  function GoDiv(a: nat, b: int): int
    requires b != 0
  {
    if b > 0 then a / b else -(a / -b)
  }

  function GoMod(a: nat, b: int): int
    requires b != 0
  {
    if b > 0 then a % b else a % -b
  }

  function LastIndex(len: nat, max: int): int
    requires max != 0
  {
    GoDiv(len, max) - 1 + if GoMod(len, max) > 0 then 1 else 0
  }

  function ByIndex<T>(rs: seq<T>, getID: T -> string, idx: int, max: int): Outcome<T> {
    var i := idx * max;
    if i > |rs| - 1 then PageNotFound
    else if i < 0 then Panic
    else PageFrom(rs, getID, i, max, idx)
  }

  function AfterID<T>(rs: seq<T>, getID: T -> string, id: string, max: int): Outcome<T> {
    IndexOfIs(rs, getID, id);
    var k := IndexOf(rs, getID, id);
    if k == -1 then PageNotFound
    else if max == 0 then Panic
    else PageFrom(rs, getID, k + 1, max, GoDiv(k + 1, max))
  }

  function BeforeID<T>(rs: seq<T>, getID: T -> string, id: string, max: int): Outcome<T> {
    IndexOfIs(rs, getID, id);
    var k := IndexOf(rs, getID, id);
    if k == -1 then PageNotFound
    else if max == 0 then Panic
    else
      var start := if k - max < 0 then 0 else k - max;
      PageFrom(rs, getID, start, max, GoDiv(start, max))
  }

  function Answer<T>(rs: seq<T>, req: Request, getID: T -> string): Outcome<T> {
    if |rs| == 0 && req.index == 0 then Page([], Result(0, "", "", 0, true))
    else if req.lastPage then
      if req.max == 0 then Panic else ByIndex(rs, getID, LastIndex(|rs|, req.max), req.max)
    else if req.index > 0 then ByIndex(rs, getID, req.index, req.max)
    else if |req.after| > 0 then AfterID(rs, getID, req.after, req.max)
    else if |req.before| > 0 then BeforeID(rs, getID, req.before, req.max)
    else if req.max == 0 then Page([], Result(0, "", "", |rs|, false))
    else ByIndex(rs, getID, 0, req.max)
  }

  // ---------------------------------------------------------------------------------------------
  // The loops of the source
  // ---------------------------------------------------------------------------------------------

  datatype Cut<T> = Cut(page: seq<T>, count: int, complete: bool)

  /** The loop that all three page functions share. */
  method CollectPage<T>(rs: seq<T>, start: nat, max: int) returns (c: Cut<T>)
    ensures start >= |rs| || max <= 0 ==> c == Cut([], 0, false)
    ensures start < |rs| && max > 0 ==>
              c == Cut(rs[start..Min(start + max, |rs|)], Min(start + max, |rs|) - start,
                  Min(start + max, |rs|) == |rs|)
  {
    var page, count, complete := [], 0, false;
    var lastIdx := |rs| - 1;
    var i := start;
    while i < |rs| && count < max
      invariant start <= i && count == i - start && (count > 0 ==> i <= |rs| && count <= max)
      invariant count > 0 ==> page == rs[start..i] && complete == (i == |rs|)
      invariant count == 0 ==> page == [] && !complete
      decreases |rs| - i
    {
      if i >= lastIdx {
        complete := true;
      }
      page := page + [rs[i]];
      count := count + 1;
      i := i + 1;
    }
    c := Cut(page, count, complete);
  }

  method GetIDIndex<T>(rs: seq<T>, getID: T -> string, id: string) returns (k: int)
    ensures k == IndexOf(rs, getID, id)
  {
    IndexOfIs(rs, getID, id);
    for i := 0 to |rs|
      invariant forall j :: 0 <= j < i ==> getID(rs[j]) != id
    {
      if getID(rs[i]) == id {
        return i;
      }
    }
    k := -1;
  }

  /** The last lines of GetResultSetPage: the ids at both ends of the page. */
  method Finish<T>(c: Cut<T>, index: int, getID: T -> string) returns (r: Outcome<T>)
    ensures r == if c.page == [] then Panic
                 else Page(c.page, Result(index, getID(c.page[0]), getID(c.page[|c.page| - 1]), c.count, c.complete))
  {
    if |c.page| == 0 {
      return Panic;
    }
    r := Page(c.page, Result(index, getID(c.page[0]), getID(c.page[|c.page| - 1]), c.count, c.complete));
  }

  method GetPageByIndex<T>(rs: seq<T>, getID: T -> string, idx: int, max: int) returns (r: Outcome<T>)
    ensures r == ByIndex(rs, getID, idx, max)
  {
    var i := idx * max;
    if i > |rs| - 1 {
      return PageNotFound;
    }
    if i < 0 {
      return Panic; // an empty page, or an item before the first
    }
    var c := CollectPage(rs, i, max);
    r := Finish(c, idx, getID);
  }

  method GetPageAfterID<T>(rs: seq<T>, getID: T -> string, id: string, max: int) returns (r: Outcome<T>)
    ensures r == AfterID(rs, getID, id, max)
  {
    IndexOfIs(rs, getID, id);
    var idIdx := GetIDIndex(rs, getID, id);
    if idIdx == -1 {
      return PageNotFound;
    }
    var c := CollectPage(rs, idIdx + 1, max);
    if max == 0 {
      return Panic; // division by zero
    }
    r := Finish(c, GoDiv(idIdx + 1, max), getID);
  }

  method GetPageBeforeID<T>(rs: seq<T>, getID: T -> string, id: string, max: int) returns (r: Outcome<T>)
    ensures r == BeforeID(rs, getID, id, max)
  {
    IndexOfIs(rs, getID, id);
    var idIdx := GetIDIndex(rs, getID, id);
    if idIdx == -1 {
      return PageNotFound;
    }
    var startIdx := idIdx - max;
    if startIdx < 0 {
      startIdx := 0;
    }
    var c := CollectPage(rs, startIdx, max);
    if max == 0 {
      return Panic; // division by zero
    }
    r := Finish(c, GoDiv(startIdx, max), getID);
  }

  method GetResultSetPage<T>(rs: seq<T>, req: Request, getID: T -> string) returns (r: Outcome<T>)
    ensures r == Answer(rs, req, getID)
  {
    if |rs| == 0 && req.index == 0 {
      return Page([], Result(0, "", "", 0, true));
    }
    if req.lastPage {
      if req.max == 0 {
        return Panic; // division by zero
      }
      r := GetPageByIndex(rs, getID, LastIndex(|rs|, req.max), req.max);
    } else if req.index > 0 {
      r := GetPageByIndex(rs, getID, req.index, req.max);
    } else if |req.after| > 0 {
      r := GetPageAfterID(rs, getID, req.after, req.max);
    } else if |req.before| > 0 {
      r := GetPageBeforeID(rs, getID, req.before, req.max);
    } else if req.max == 0 {
      r := Page([], Result(0, "", "", |rs|, false));
    } else {
      r := GetPageByIndex(rs, getID, 0, req.max);
    }
  }

  // ---------------------------------------------------------------------------------------------
  // Walking through the pages
  // ---------------------------------------------------------------------------------------------

  lemma {:induction false} MulMonotone(a: nat, b: nat, c: nat)
    requires a <= b
    ensures a * c <= b * c
  {
    if a < b {
      MulMonotone(a, b - 1, c);
      assert b * c == (b - 1) * c + c;
    }
  }

  lemma DivUnique(a: nat, b: nat, q: nat)
    requires b > 0 && q * b <= a < q * b + b
    ensures a / b == q
  {
    assert a == (a / b) * b + a % b;
    if a / b != q {
      MulMonotone(Min(a / b, q) + 1, Max(a / b, q), b);
    }
  }

  function Max(a: int, b: int): int { if a < b then b else a }

  /** The request for the page at an index. */
  function AskIndex<T>(rs: seq<T>, getID: T -> string, k: nat, max: int): Outcome<T> {
    Answer(rs, Request("", "", k, max, false), getID)
  }

  lemma AskIndexIs<T>(rs: seq<T>, getID: T -> string, k: nat, max: int)
    requires max > 0 && (rs != [] || k > 0)
    ensures AskIndex(rs, getID, k, max) == ByIndex(rs, getID, k, max)
  {
  }

  /** The pages from index k on, until one says that it is the last. */
  function WalkByIndex<T>(rs: seq<T>, getID: T -> string, k: nat, max: int): seq<Outcome<T>>
    requires max > 0
    decreases |rs| - k * max
  {
    var p := AskIndex(rs, getID, k, max);
    if !p.Page? || p.res.complete then [p]
    else
      assert (k + 1) * max == k * max + max;
      AskIndexIs(rs, getID, k, max);
      [p] + WalkByIndex(rs, getID, k + 1, max)
  }

  /** The request for what comes after an id. An empty id is no id, and asks for the first page. */
  function AskAfter<T>(rs: seq<T>, getID: T -> string, id: string, max: int): Outcome<T> {
    Answer(rs, Request(id, "", 0, max, false), getID)
  }

  ghost predicate NamedIds<T>(rs: seq<T>, getID: T -> string) {
    forall i :: 0 <= i < |rs| ==> getID(rs[i]) != ""
  }

  /** The request for what comes before an id. */
  function AskBefore<T>(rs: seq<T>, getID: T -> string, id: string, max: int): Outcome<T> {
    Answer(rs, Request("", id, 0, max, false), getID)
  }

  // The product of an index and the page size stays in this lemma.
  lemma PageAt<T>(rs: seq<T>, getID: T -> string, k: nat, max: int, start: nat)
    requires max > 0 && start == k * max && start < |rs|
    ensures ByIndex(rs, getID, k, max) == PageFrom(rs, getID, start, max, k)
  {
  }

  lemma FirstPage<T>(rs: seq<T>, getID: T -> string, max: int)
    requires max > 0 && rs != []
    ensures ByIndex(rs, getID, 0, max) == PageFrom(rs, getID, 0, max, 0)
    ensures AskAfter(rs, getID, "", max) == AskBefore(rs, getID, "", max) == PageFrom(rs, getID, 0, max, 0)
  {
    PageAt(rs, getID, 0, max, 0);
  }

  lemma AfterAt<T>(rs: seq<T>, getID: T -> string, k: nat, max: int)
    requires max > 0 && DistinctBy(rs, getID) && k < |rs| && getID(rs[k]) != ""
    ensures AskAfter(rs, getID, getID(rs[k]), max) == PageFrom(rs, getID, k + 1, max, (k + 1) / max)
  {
    IndexOfAt(rs, getID, k);
  }

  lemma BeforeAt<T>(rs: seq<T>, getID: T -> string, k: nat, max: int)
    requires max > 0 && DistinctBy(rs, getID) && k < |rs| && getID(rs[k]) != ""
    ensures var start := if k < max then 0 else k - max;
            AskBefore(rs, getID, getID(rs[k]), max) == PageFrom(rs, getID, start, max, start / max)
  {
    IndexOfAt(rs, getID, k);
  }

  /** Of several things that a request names, the last page comes first, then the index, then the id to start
      after. */
  lemma OneThingIsAsked<T>(rs: seq<T>, req: Request, getID: T -> string)
    requires rs != [] && !req.lastPage
    ensures req.index > 0 ==> Answer(rs, req, getID) == AskIndex(rs, getID, req.index, req.max)
    ensures req.index <= 0 && req.after != "" ==> Answer(rs, req, getID) == AskAfter(rs, getID, req.after, req.max)
    ensures req.index <= 0 && req.after == "" && req.before != "" ==>
              Answer(rs, req, getID) == AskBefore(rs, getID, req.before, req.max)
    ensures req.index <= 0 && req.after == "" && req.before == "" ==>
              Answer(rs, req, getID) == AskIndex(rs, getID, 0, req.max)
  {
  }

  /** Items i..j of the result set, described as they are: the ids at both ends, how many, whether they are
      the last ones, and the index of the page in which they begin. */
  ghost predicate Describes<T>(rs: seq<T>, getID: T -> string, max: int, p: Outcome<T>, i: nat, j: nat)
    requires max > 0 && i < j <= |rs| && p.Page?
  {
    && p.items == rs[i..j] && j - i <= max
    && p.res == Result(i / max, getID(rs[i]), getID(rs[j - 1]), j - i, j == |rs|)
    && (j - i == max || j == |rs|)
  }

  ghost predicate Described<T>(rs: seq<T>, getID: T -> string, max: int, p: Outcome<T>)
    requires max > 0
  {
    p.Page? ==> exists i: nat, j: nat :: i < j <= |rs| && Describes(rs, getID, max, p, i, j)
  }

  lemma StretchDescribed<T>(rs: seq<T>, getID: T -> string, i: nat, max: int)
    requires max > 0
    ensures Described(rs, getID, max, PageFrom(rs, getID, i, max, i / max))
  {
    if i < |rs| { assert Describes(rs, getID, max, PageFrom(rs, getID, i, max, i / max), i, Min(i + max, |rs|)); }
  }

  lemma IndexDescribed<T>(rs: seq<T>, getID: T -> string, k: nat, max: int)
    requires max > 0
    ensures Described(rs, getID, max, ByIndex(rs, getID, k, max))
  {
    if ByIndex(rs, getID, k, max).Page? {
      PageAt(rs, getID, k, max, k * max);
      DivUnique(k * max, max, k);
      StretchDescribed(rs, getID, k * max, max);
    }
  }

  lemma AnchorDescribed<T>(rs: seq<T>, getID: T -> string, id: string, max: int)
    requires max > 0
    ensures Described(rs, getID, max, AfterID(rs, getID, id, max))
    ensures Described(rs, getID, max, BeforeID(rs, getID, id, max))
  {
    IndexOfIs(rs, getID, id);
    var k := IndexOf(rs, getID, id);
    if k >= 0 {
      StretchDescribed(rs, getID, k + 1, max);
      StretchDescribed(rs, getID, Max(k - max, 0), max);
    }
  }

  lemma LastDescribed<T>(rs: seq<T>, req: Request, getID: T -> string)
    requires req.max > 0 && rs != [] && req.lastPage
    ensures Described(rs, getID, req.max, Answer(rs, req, getID))
  {
    LastIndexIs(|rs|, req.max);
    IndexDescribed(rs, getID, LastIndex(|rs|, req.max), req.max);
  }

  /** Every page of a non-empty set, however it is asked for, is a stretch of the set and describes itself. */
  lemma PageDescribesItself<T>(rs: seq<T>, req: Request, getID: T -> string)
    requires req.max > 0 && rs != []
    ensures Described(rs, getID, req.max, Answer(rs, req, getID))
  {
    if req.lastPage {
      LastDescribed(rs, req, getID);
    } else if req.index > 0 {
      IndexDescribed(rs, getID, req.index, req.max);
    } else {
      AnchorDescribed(rs, getID, req.after, req.max);
      AnchorDescribed(rs, getID, req.before, req.max);
      IndexDescribed(rs, getID, 0, req.max);
    }
  }

  lemma PageEnds<T>(rs: seq<T>, getID: T -> string, start: nat, max: int, index: int)
    requires max > 0 && start < |rs|
    ensures var p := PageFrom(rs, getID, start, max, index);
            p.Page? && start < Min(start + max, |rs|) && p.res.last == getID(rs[Min(start + max, |rs|) - 1])
  {
  }

  /** A page after an id ends behind that id. */
  lemma AfterAdvances<T>(rs: seq<T>, getID: T -> string, id: string, max: int)
    requires max > 0 && rs != [] && DistinctBy(rs, getID) && NamedIds(rs, getID)
    ensures -1 <= IndexOf(rs, getID, id) < |rs|
    ensures var next := AskAfter(rs, getID, id, max);
            next.Page? ==> IndexOf(rs, getID, id) < IndexOf(rs, getID, next.res.last) < |rs|
  {
    IndexOfIs(rs, getID, id);
    var k := IndexOf(rs, getID, id);
    if id == "" {
      FirstPage(rs, getID, max);
      AdvancesFrom(rs, getID, 0, max, 0);
    } else if k >= 0 {
      AfterAt(rs, getID, k, max);
      if k + 1 < |rs| { AdvancesFrom(rs, getID, k + 1, max, (k + 1) / max); }
    }
  }

  lemma AdvancesFrom<T>(rs: seq<T>, getID: T -> string, start: nat, max: int, index: int)
    requires max > 0 && start < |rs| && DistinctBy(rs, getID)
    ensures var p := PageFrom(rs, getID, start, max, index);
            p.Page? && start <= IndexOf(rs, getID, p.res.last) < |rs|
  {
    PageEnds(rs, getID, start, max, index);
    IndexOfAt(rs, getID, Min(start + max, |rs|) - 1);
  }

  /** The pages after page `p`, each asked for by the last id of the one before. */
  ghost function WalkAfter<T>(rs: seq<T>, getID: T -> string, p: Outcome<T>, max: int): seq<Outcome<T>>
    requires max > 0 && rs != [] && DistinctBy(rs, getID) && NamedIds(rs, getID)
    decreases if p.Page? then |rs| - IndexOf(rs, getID, p.res.last) else 0
  {
    if !p.Page? || p.res.complete then []
    else
      AfterAdvances(rs, getID, p.res.last, max);
      var next := AskAfter(rs, getID, p.res.last, max);
      [next] + WalkAfter(rs, getID, next, max)
  }

  function Items<T>(ps: seq<Outcome<T>>): seq<T> {
    if ps == [] then [] else (if ps[0].Page? then ps[0].items else []) + Items(ps[1..])
  }

  /** Asking for what comes after the last id of page k gives page k + 1, index and all, if and only if that
      id is not empty. */
  lemma AfterIsNextIndex<T>(rs: seq<T>, getID: T -> string, k: nat, max: int)
    requires max > 0 && DistinctBy(rs, getID) && (k + 1) * max < |rs|
    ensures k * max + max == (k + 1) * max
    ensures AskIndex(rs, getID, k, max).Page? && !AskIndex(rs, getID, k, max).res.complete
    ensures var last := AskIndex(rs, getID, k, max).res.last;
            AskAfter(rs, getID, last, max) == AskIndex(rs, getID, k + 1, max) <==> last != ""
  {
    var start, stop := k * max, (k + 1) * max;
    assert start + max == stop;
    DivUnique(stop, max, k + 1);
    AskIndexIs(rs, getID, k, max);
    AskIndexIs(rs, getID, k + 1, max);
    PageAt(rs, getID, k, max, start);
    PageAt(rs, getID, k + 1, max, stop);
    NextPage(rs, getID, start, stop, max, k);
  }

  lemma NextPage<T>(rs: seq<T>, getID: T -> string, start: nat, stop: nat, max: int, k: nat)
    requires max > 0 && DistinctBy(rs, getID) && start + max == stop < |rs| && stop / max == k + 1
    ensures var p := PageFrom(rs, getID, start, max, k);
            && p.Page? && !p.res.complete && p.res.last == getID(rs[stop - 1])
            && (AskAfter(rs, getID, p.res.last, max) == PageFrom(rs, getID, stop, max, k + 1) <==> p.res.last != "")
  {
    if getID(rs[stop - 1]) == "" {
      FirstPage(rs, getID, max);
    } else {
      AfterAt(rs, getID, stop - 1, max);
    }
  }

  /** Walking by index from page k concatenates to exactly the rest of the result set. */
  lemma {:induction false} WalkByIndexCovers<T>(rs: seq<T>, getID: T -> string, k: nat, max: int)
    requires max > 0 && k * max < |rs|
    ensures Items(WalkByIndex(rs, getID, k, max)) == rs[k * max..]
    ensures forall p :: p in WalkByIndex(rs, getID, k, max) ==> p.Page?
    decreases |rs| - k * max
  {
    var p := AskIndex(rs, getID, k, max);
    var walk := WalkByIndex(rs, getID, k, max);
    AskIndexIs(rs, getID, k, max);
    assert (k + 1) * max == k * max + max;
    if p.res.complete {
      assert walk == [p] && walk[1..] == [];
      assert p.items == rs[k * max..];
    } else {
      WalkByIndexCovers(rs, getID, k + 1, max);
      assert walk[1..] == WalkByIndex(rs, getID, k + 1, max);
      assert rs[k * max..] == rs[k * max..k * max + max] + rs[k * max + max..];
    }
  }

  /** Walking by "after the last id" gives the same pages as walking by index. */
  lemma {:induction false} WalksAgree<T>(rs: seq<T>, getID: T -> string, k: nat, max: int)
    requires max > 0 && DistinctBy(rs, getID) && NamedIds(rs, getID) && k * max < |rs|
    ensures [AskIndex(rs, getID, k, max)] + WalkAfter(rs, getID, AskIndex(rs, getID, k, max), max) ==
            WalkByIndex(rs, getID, k, max)
    decreases |rs| - k * max
  {
    var p := AskIndex(rs, getID, k, max);
    AskIndexIs(rs, getID, k, max);
    assert (k + 1) * max == k * max + max;
    if !p.res.complete {
      AfterIsNextIndex(rs, getID, k, max);
      WalksAgree(rs, getID, k + 1, max);
    }
  }

  /** Both walks over a result set: the same pages, and together exactly the set. */
  lemma WholeWalk<T>(rs: seq<T>, getID: T -> string, max: int)
    requires max > 0 && DistinctBy(rs, getID) && NamedIds(rs, getID) && rs != []
    ensures var first := Answer(rs, Request("", "", 0, max, false), getID);
            var walk := [first] + WalkAfter(rs, getID, first, max);
            walk == WalkByIndex(rs, getID, 0, max) && Items(walk) == rs
  {
    assert 0 * max == 0;
    WalksAgree(rs, getID, 0, max);
    WalkByIndexCovers(rs, getID, 0, max);
    assert rs[0..] == rs;
  }

  lemma LastIndexIs(len: nat, max: int)
    requires max > 0 && len > 0
    ensures var li := LastIndex(len, max); li >= 0 && li * max < len <= (li + 1) * max
  {
    var q, m := len / max, len % max;
    assert len == q * max + m;
    var li := LastIndex(len, max);
    if m > 0 {
      assert li == q;
      assert (li + 1) * max == q * max + max;
    } else {
      assert li == q - 1;
      assert q * max == (q - 1) * max + max;
    }
  }

  /** The last page request, whatever else it says, gives the last page that an index can ask for. */
  lemma LastPageIsLast<T>(rs: seq<T>, req: Request, getID: T -> string)
    requires req.max > 0 && req.lastPage && rs != []
    ensures var p := Answer(rs, req, getID);
            && p.Page? && p.res.complete && p.res.index >= 0
            && p == AskIndex(rs, getID, p.res.index, req.max)
            && AskIndex(rs, getID, p.res.index + 1, req.max) == PageNotFound
  {
    var li := LastIndex(|rs|, req.max);
    LastIndexIs(|rs|, req.max);
    AskIndexIs(rs, getID, li, req.max);
    AskIndexIs(rs, getID, li + 1, req.max);
    PageAt(rs, getID, li, req.max, li * req.max);
    assert li * req.max + req.max == (li + 1) * req.max;
  }

  /** It is the page with which every walk by index ends. */
  lemma {:induction false} WalkEndsWithLast<T>(rs: seq<T>, req: Request, getID: T -> string, k: nat)
    requires req.max > 0 && req.lastPage && k * req.max < |rs|
    ensures var walk := WalkByIndex(rs, getID, k, req.max); walk != [] && walk[|walk| - 1] == Answer(rs, req, getID)
    decreases |rs| - k * req.max
  {
    var max := req.max;
    var p := AskIndex(rs, getID, k, max);
    AskIndexIs(rs, getID, k, max);
    PageAt(rs, getID, k, max, k * max);
    assert (k + 1) * max == k * max + max;
    if p.res.complete {
      LastIndexIs(|rs|, max);
      OnlyLast(|rs|, max, k, LastIndex(|rs|, max));
    } else {
      WalkEndsWithLast(rs, req, getID, k + 1);
    }
  }

  lemma OnlyLast(len: nat, max: int, k: nat, li: nat)
    requires max > 0 && k * max < len <= (k + 1) * max && li * max < len <= (li + 1) * max
    ensures k == li
  {
    if k < li { MulMonotone(k + 1, li, max); }
    if li < k { MulMonotone(li + 1, k, max); }
  }

  /** A page asked for before an id ends just before it exactly when at least `max` items precede it;
      otherwise the page holds the anchor itself. An empty id asks for the first page. */
  lemma BeforeExcludesAnchor<T>(rs: seq<T>, getID: T -> string, k: nat, max: int)
    requires max > 0 && DistinctBy(rs, getID) && k < |rs|
    ensures var p := AskBefore(rs, getID, getID(rs[k]), max);
            && p.Page? && (rs[k] in p.items <==> k < max)
            && (k >= max && getID(rs[k]) != "" ==> p.items == rs[k - max..k])
            && (getID(rs[k]) == "" ==> p.items == rs[..Min(max, |rs|)])
  {
    if getID(rs[k]) == "" {
      FirstPage(rs, getID, max);
      InStretch(rs, getID, k, 0, Min(max, |rs|));
    } else {
      BeforeAt(rs, getID, k, max);
      var start := if k < max then 0 else k - max;
      InStretch(rs, getID, k, start, Min(start + max, |rs|));
    }
  }

  lemma InStretch<T>(rs: seq<T>, getID: T -> string, k: nat, from: nat, to: nat)
    requires DistinctBy(rs, getID) && k < |rs| && from <= to <= |rs|
    ensures rs[k] in rs[from..to] <==> from <= k < to
  {
    if from <= k < to {
      assert rs[from..to][k - from] == rs[k];
    } else {
      forall i | 0 <= i < to - from ensures getID(rs[from..to][i]) != getID(rs[k]) {
        assert rs[from..to][i] == rs[from + i];
      }
    }
  }

  /** Going back one page and forth again: after the last id of the page before an anchor comes the page that
      starts at the anchor, if and only if that id is not empty, or the anchor's is and a page precedes it. */
  lemma AfterUndoesBefore<T>(rs: seq<T>, getID: T -> string, k: nat, max: int)
    requires max > 0 && DistinctBy(rs, getID) && max <= k < |rs|
    ensures var back := AskBefore(rs, getID, getID(rs[k]), max);
            && back.Page?
            && (AskAfter(rs, getID, back.res.last, max) == PageFrom(rs, getID, k, max, k / max) <==>
                if getID(rs[k]) == "" then k == max else back.res.last != "")
  {
    if getID(rs[k]) == "" { ForthFromFirst(rs, getID, k, max); } else { ForthFromAnchor(rs, getID, k, max); }
  }

  lemma OnePlaceEach<T>(rs: seq<T>, getID: T -> string, a: nat, b: nat, max: int, i: int, j: int)
    requires max > 0 && DistinctBy(rs, getID) && a < |rs| && b < |rs|
    ensures PageFrom(rs, getID, a, max, i) == PageFrom(rs, getID, b, max, j) <==> a == b && i == j
  {
  }

  lemma ForthFromFirst<T>(rs: seq<T>, getID: T -> string, k: nat, max: int)
    requires max > 0 && DistinctBy(rs, getID) && max <= k < |rs| && getID(rs[k]) == ""
    ensures var back := AskBefore(rs, getID, getID(rs[k]), max);
            && back.Page?
            && (AskAfter(rs, getID, back.res.last, max) == PageFrom(rs, getID, k, max, k / max) <==> k == max)
  {
    FirstPage(rs, getID, max);
    PageEnds(rs, getID, 0, max, 0);
    AfterAt(rs, getID, max - 1, max);
    OnePlaceEach(rs, getID, max, k, max, max / max, k / max);
  }

  lemma ForthFromAnchor<T>(rs: seq<T>, getID: T -> string, k: nat, max: int)
    requires max > 0 && DistinctBy(rs, getID) && max <= k < |rs| && getID(rs[k]) != ""
    ensures var back := AskBefore(rs, getID, getID(rs[k]), max);
            && back.Page?
            && (AskAfter(rs, getID, back.res.last, max) == PageFrom(rs, getID, k, max, k / max) <==>
                back.res.last != "")
  {
    BackPage(rs, getID, k, max);
    ForthPage(rs, getID, k, max, k / max);
  }

  lemma BackPage<T>(rs: seq<T>, getID: T -> string, k: nat, max: int)
    requires max > 0 && DistinctBy(rs, getID) && max <= k < |rs| && getID(rs[k]) != ""
    ensures var back := AskBefore(rs, getID, getID(rs[k]), max); back.Page? && back.res.last == getID(rs[k - 1])
  {
    BeforeAt(rs, getID, k, max);
    PageEnds(rs, getID, k - max, max, (k - max) / max);
  }

  lemma ForthPage<T>(rs: seq<T>, getID: T -> string, k: nat, max: int, index: int)
    requires max > 0 && DistinctBy(rs, getID) && 0 < k < |rs| && index == k / max
    ensures AskAfter(rs, getID, getID(rs[k - 1]), max) == PageFrom(rs, getID, k, max, index) <==> getID(rs[k - 1]) != ""
  {
    if getID(rs[k - 1]) == "" {
      FirstPage(rs, getID, max);
      OnePlaceEach(rs, getID, 0, k, max, 0, index);
    } else {
      AfterAt(rs, getID, k - 1, max);
    }
  }

  /** With a positive page size, exactly two kinds of request panic: the page after the last item, and
      the last page of an empty set asked for together with an index. */
  lemma PanicsExactly<T>(rs: seq<T>, req: Request, getID: T -> string)
    requires req.max > 0
    ensures Answer(rs, req, getID) == Panic <==>
            || (req.lastPage && rs == [] && req.index != 0)
            || (!req.lastPage && req.index <= 0 && req.after != "" && rs != [] &&
                IndexOf(rs, getID, req.after) == |rs| - 1)
  {
    IndexOfIs(rs, getID, req.after);
    IndexOfIs(rs, getID, req.before);
    if rs == [] {
      if req.index > 0 { PositiveTimes(req.index, req.max); }
      PositiveTimes(1, req.max);
      assert LastIndex(0, req.max) == -1;
      assert -1 * req.max == -req.max;
    } else if req.lastPage {
      LastPageIsLast(rs, req, getID);
    } else if req.index > 0 {
      PositiveTimes(req.index, req.max);
    } else {
      assert 0 * req.max == 0;
    }
  }

  lemma PositiveTimes(a: int, b: int)
    requires a > 0 && b > 0
    ensures a * b > 0
  {
  }

  /** Without a page size, every request that names a page of a non-empty set panics or finds nothing. */
  lemma NoSizeNoPage<T>(rs: seq<T>, req: Request, getID: T -> string)
    requires req.max == 0 && rs != []
    ensures req.lastPage || req.index > 0 || req.after != "" || req.before != "" ==> !Answer(rs, req, getID).Page?
    ensures !req.lastPage && req.index <= 0 && req.after == "" && req.before == "" ==>
              Answer(rs, req, getID) == Page([], Result(0, "", "", |rs|, false))
  {
    assert req.index * req.max == 0;
  }
}
