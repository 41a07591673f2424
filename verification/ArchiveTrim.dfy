/** The size-limited archive of the Bolt storage. Messages are stored under decimal sequence numbers and
    the cursor walks the keys in byte order; every insertion is followed by deleting, from the front of
    that order, what exceeds the limit. */
module ArchiveTrim {
  import opened Text
  import Sequences

  datatype Entry = Entry(seqNo: nat, message: string)

  function Key(e: Entry): string { Decimal(e.seqNo) }

  /** Entries in cursor order, and the bucket's sequence counter. */
  datatype Archive = Archive(entries: seq<Entry>, sequence: nat)

  const EMPTY := Archive([], 0)

  ghost predicate CursorOrder(es: seq<Entry>) {
    forall i, j :: 0 <= i < j < |es| ==> Less(Key(es[i]), Key(es[j]))
  }

  ghost predicate Valid(a: Archive) {
    && CursorOrder(a.entries)
    && forall i :: 0 <= i < |a.entries| ==> 1 <= a.entries[i].seqNo <= a.sequence
  }

  // ---------------------------------------------------------------------------------------------
  // Insertion
  // ---------------------------------------------------------------------------------------------

  function Place(es: seq<Entry>, key: string): nat {
    if es == [] || Less(key, Key(es[0])) then 0 else 1 + Place(es[1..], key)
  }

  lemma {:induction false} PlaceIs(es: seq<Entry>, key: string)
    ensures Place(es, key) <= |es|
    ensures forall i :: 0 <= i < Place(es, key) ==> !Less(key, Key(es[i]))
    ensures Place(es, key) < |es| ==> Less(key, Key(es[Place(es, key)]))
  {
    if es != [] && !Less(key, Key(es[0])) {
      PlaceIs(es[1..], key);
      assert forall i :: 1 <= i < |es| ==> es[i] == es[1..][i - 1];
    }
  }

  function Insert(a: Archive, message: string): Archive {
    var e := Entry(a.sequence + 1, message);
    PlaceIs(a.entries, Key(e));
    var k := Place(a.entries, Key(e));
    Archive(a.entries[..k] + [e] + a.entries[k..], a.sequence + 1)
  }

  lemma DifferentKeys(a: nat, b: nat)
    requires a != b
    ensures Decimal(a) != Decimal(b)
  {
    if Decimal(a) == Decimal(b) { DecimalOrder(a, b); }
  }

  /** The new key is above the keys in front of its place and below the others. */
  lemma PlaceSeparates(a: Archive, e: Entry)
    requires Valid(a) && e.seqNo == a.sequence + 1
    ensures var k := Place(a.entries, Key(e));
            && k <= |a.entries|
            && (forall i :: 0 <= i < k ==> Less(Key(a.entries[i]), Key(e)))
            && (forall i :: k <= i < |a.entries| ==> Less(Key(e), Key(a.entries[i])))
  {
    PlaceIs(a.entries, Key(e));
    var k, es := Place(a.entries, Key(e)), a.entries;
    forall i | 0 <= i < k ensures Less(Key(es[i]), Key(e)) {
      DifferentKeys(es[i].seqNo, e.seqNo);
      LessTotal(Key(es[i]), Key(e));
    }
    forall i | k <= i < |es| ensures Less(Key(e), Key(es[i])) {
      if i > k { LessTrans(Key(e), Key(es[k]), Key(es[i])); }
    }
  }

  lemma InsertOrder(es: seq<Entry>, e: Entry, k: nat)
    requires CursorOrder(es) && k <= |es|
    requires forall i :: 0 <= i < k ==> Less(Key(es[i]), Key(e))
    requires forall i :: k <= i < |es| ==> Less(Key(e), Key(es[i]))
    ensures CursorOrder(es[..k] + [e] + es[k..])
  {
    var r := es[..k] + [e] + es[k..];
    forall i, j | 0 <= i < j < |r| ensures Less(Key(r[i]), Key(r[j])) {
      assert r[i] == if i < k then es[i] else if i == k then e else es[i - 1];
      assert r[j] == if j < k then es[j] else if j == k then e else es[j - 1];
    }
  }

  lemma InsertBag(es: seq<Entry>, e: Entry, k: nat)
    requires k <= |es|
    ensures multiset(es[..k] + [e] + es[k..]) == multiset(es) + multiset{e}
  {
    assert es == es[..k] + es[k..];
  }

  lemma InsertBound(es: seq<Entry>, e: Entry, k: nat, bound: nat)
    requires k <= |es| && 1 <= e.seqNo <= bound && forall i :: 0 <= i < |es| ==> 1 <= es[i].seqNo <= bound
    ensures forall i :: 0 <= i < |es| + 1 ==> 1 <= (es[..k] + [e] + es[k..])[i].seqNo <= bound
  {
    var r := es[..k] + [e] + es[k..];
    forall i | 0 <= i < |r| ensures 1 <= r[i].seqNo <= bound {
      assert r[i] == if i < k then es[i] else if i == k then e else es[i - 1];
    }
  }

  lemma InsertKeepsValid(a: Archive, message: string)
    requires Valid(a)
    ensures Valid(Insert(a, message))
    ensures multiset(Insert(a, message).entries) == multiset(a.entries) + multiset{Entry(a.sequence + 1, message)}
  {
    var e := Entry(a.sequence + 1, message);
    PlaceSeparates(a, e);
    var k := Place(a.entries, Key(e));
    InsertOrder(a.entries, e, k);
    InsertBag(a.entries, e, k);
    InsertBound(a.entries, e, k, a.sequence + 1);
  }

  // ---------------------------------------------------------------------------------------------
  // Trimming
  // ---------------------------------------------------------------------------------------------

  /** How many entries exceed the limit. */
  function Excess(n: nat, max: int): nat {
    if n <= max then 0 else if max < 0 then n else n - max
  }

  function Trim(a: Archive, max: int): Archive {
    a.(entries := a.entries[Excess(|a.entries|, max)..])
  }

  function Store(a: Archive, message: string, max: int): Archive { Trim(Insert(a, message), max) }

  function Run(a: Archive, messages: seq<string>, max: int): Archive
    decreases |messages|
  {
    if messages == [] then a else Run(Store(a, messages[0], max), messages[1..], max)
  }

  lemma StoreKeepsValid(a: Archive, message: string, max: int)
    requires Valid(a)
    ensures Valid(Store(a, message, max)) && |Store(a, message, max).entries| <= if max < 0 then 0 else max
  {
    InsertKeepsValid(a, message);
  }

  // ---------------------------------------------------------------------------------------------
  // Who survives a run
  // ---------------------------------------------------------------------------------------------

  /** Everything inserted and nothing trimmed. */
  function Full(a: Archive, messages: seq<string>): Archive
    decreases |messages|
  {
    if messages == [] then a else Full(Insert(a, messages[0]), messages[1..])
  }

  /** A key's place among what is left once the first d entries are gone. */
  lemma PlaceInRest(a: Archive, e: Entry, d: nat)
    requires Valid(a) && e.seqNo == a.sequence + 1 && d <= |a.entries|
    ensures var k := Place(a.entries, Key(e));
            Place(a.entries[d..], Key(e)) == if k >= d then k - d else 0
  {
    PlaceSeparates(a, e);
    PlaceIs(a.entries, Key(e));
    var es, rest := a.entries, a.entries[d..];
    PlaceIs(rest, Key(e));
    var k, r := Place(es, Key(e)), Place(rest, Key(e));
    assert forall i :: 0 <= i < |rest| ==> rest[i] == es[d + i];
  }

  lemma CutThenInsert(es: seq<Entry>, e: Entry, k: nat, d: nat)
    requires k <= |es| && d <= |es|
    ensures var r, all := if k >= d then k - d else 0, es[..k] + [e] + es[k..];
            var cut := es[d..][..r] + [e] + es[d..][r..];
            |cut| == |all| - d && (if k >= d then cut == all[d..] else cut[1..] == all[d + 1..])
  {
    if k < d { assert es[d..][..0] == [] && ([] + [e] + es[d..])[1..] == es[d..]; }
  }

  lemma TrimAfterCut(all: seq<Entry>, cut: seq<Entry>, d: nat, max: int)
    requires |all| > 0 && d == Excess(|all| - 1, max)
    requires cut == all[d..] || (d > 0 && |cut| == |all| - d && cut[1..] == all[d + 1..])
    ensures cut[Excess(|cut|, max)..] == all[Excess(|all|, max)..]
  {
    var m := Excess(|cut|, max);
    assert d + m == Excess(|all|, max);
    if cut == all[d..] {
      assert all[d..][m..] == all[d + m..];
    } else {
      assert m == 1;
    }
  }

  lemma CutInsertTrim(es: seq<Entry>, e: Entry, k: nat, max: int)
    requires k <= |es|
    ensures var d := Excess(|es|, max);
            var r, all := if k >= d then k - d else 0, es[..k] + [e] + es[k..];
            var cut := es[d..][..r] + [e] + es[d..][r..];
            cut[Excess(|cut|, max)..] == all[Excess(|all|, max)..]
  {
    var d := Excess(|es|, max);
    var r, all := if k >= d then k - d else 0, es[..k] + [e] + es[k..];
    CutThenInsert(es, e, k, d);
    TrimAfterCut(all, es[d..][..r] + [e] + es[d..][r..], d, max);
  }

  /** Trimming before a store makes no difference after it. */
  lemma TrimThenStore(a: Archive, message: string, max: int)
    requires Valid(a)
    ensures Store(Trim(a, max), message, max) == Trim(Insert(a, message), max)
  {
    var e := Entry(a.sequence + 1, message);
    PlaceIs(a.entries, Key(e));
    PlaceInRest(a, e, Excess(|a.entries|, max));
    CutInsertTrim(a.entries, e, Place(a.entries, Key(e)), max);
  }

  /** Over every run the survivors are exactly the end, in cursor order, of all that was ever inserted:
      trimming after each message is trimming once at the end. */
  lemma {:induction false} RunIsTrimmedFull(a: Archive, messages: seq<string>, max: int)
    requires Valid(a)
    ensures Run(Trim(a, max), messages, max) == Trim(Full(a, messages), max)
    decreases |messages|
  {
    if messages != [] {
      TrimThenStore(a, messages[0], max);
      InsertKeepsValid(a, messages[0]);
      RunIsTrimmedFull(Insert(a, messages[0]), messages[1..], max);
    }
  }

  /** The same for an archive within its limit: after every run it is within its limit and in cursor order, and
      holds the end, in that order, of all it held before and all that was inserted. */
  lemma SurvivorsOfRun(a: Archive, messages: seq<string>, max: int)
    requires Valid(a) && |a.entries| <= (if max < 0 then 0 else max)
    ensures Run(a, messages, max) == Trim(Full(a, messages), max)
    ensures multiset(Full(a, messages).entries) == multiset(a.entries) + multiset(Numbered(messages, a.sequence))
    ensures CursorOrder(Full(a, messages).entries)
    ensures Valid(Run(a, messages, max)) && |Run(a, messages, max).entries| <= if max < 0 then 0 else max
  {
    assert Trim(a, max) == a;
    RunIsTrimmedFull(a, messages, max);
    FullKeepsValid(a, messages);
    FullHoldsAll(a, messages);
    TrimKeepsValid(Full(a, messages), max);
  }

  lemma TrimKeepsValid(a: Archive, max: int)
    requires Valid(a)
    ensures Valid(Trim(a, max)) && |Trim(a, max).entries| <= if max < 0 then 0 else max
  {
    var d := Excess(|a.entries|, max);
    assert forall i :: 0 <= i < |a.entries| - d ==> Trim(a, max).entries[i] == a.entries[d + i];
  }

  lemma {:induction false} FullKeepsValid(a: Archive, messages: seq<string>)
    requires Valid(a)
    ensures Valid(Full(a, messages))
    decreases |messages|
  {
    if messages != [] {
      InsertKeepsValid(a, messages[0]);
      FullKeepsValid(Insert(a, messages[0]), messages[1..]);
    }
  }

  lemma InsertedBag(a: Archive, message: string)
    ensures multiset(Insert(a, message).entries) == multiset(a.entries) + multiset{Entry(a.sequence + 1, message)}
  {
    var e := Entry(a.sequence + 1, message);
    PlaceIs(a.entries, Key(e));
    InsertBag(a.entries, e, Place(a.entries, Key(e)));
  }

  lemma {:induction false} FullHoldsAll(a: Archive, messages: seq<string>)
    ensures multiset(Full(a, messages).entries) == multiset(a.entries) + multiset(Numbered(messages, a.sequence))
    decreases |messages|, 1
  {
    if messages == [] {
      assert multiset(Numbered(messages, a.sequence)) == multiset{};
    } else {
      InsertedBag(a, messages[0]);
      FullHoldsNext(a, Insert(a, messages[0]), messages);
    }
  }

  lemma {:induction false} FullHoldsNext(a: Archive, next: Archive, messages: seq<string>)
    requires messages != [] && next.sequence == a.sequence + 1
    requires multiset(next.entries) == multiset(a.entries) + multiset{Entry(a.sequence + 1, messages[0])}
    ensures multiset(Full(next, messages[1..]).entries) ==
            multiset(a.entries) + multiset(Numbered(messages, a.sequence))
    decreases |messages|, 0
  {
    var e, rest := Entry(a.sequence + 1, messages[0]), Numbered(messages[1..], next.sequence);
    FullHoldsAll(next, messages[1..]);
    NumberedBag(messages, a.sequence);
    OneMovesOver(multiset(a.entries), multiset{e}, multiset(rest));
  }

  lemma OneMovesOver(a: multiset<Entry>, e: multiset<Entry>, b: multiset<Entry>)
    ensures a + e + b == a + (e + b)
  {
  }

  lemma NumberedBag(messages: seq<string>, last: nat)
    requires messages != []
    ensures multiset(Numbered(messages, last)) ==
            multiset{Entry(last + 1, messages[0])} + multiset(Numbered(messages[1..], last + 1))
  {
  }

  /** The entries that messages become when they are numbered on from `last`. */
  function Numbered(messages: seq<string>, last: nat): seq<Entry> {
    if messages == [] then [] else [Entry(last + 1, messages[0])] + Numbered(messages[1..], last + 1)
  }

  /** All sequence numbers in the list have the same number of digits. */
  ghost predicate SameDigits(es: seq<Entry>) {
    forall i, j :: 0 <= i < j < |es| ==> |Key(es[i])| == |Key(es[j])|
  }

  /** The oldest go: every dropped entry was inserted before every kept one. */
  ghost predicate DropsOldest(before: seq<Entry>, after: seq<Entry>) {
    exists k :: 0 <= k <= |before| && after == before[k..] &&
      forall i, j :: 0 <= i < k <= j < |before| ==> before[i].seqNo < before[j].seqNo
  }

  /** While the live sequence numbers have one length, cursor order is insertion order, and a store drops
      exactly the oldest. */
  lemma StoreDropsOldest(a: Archive, message: string, max: int)
    requires Valid(a) && SameDigits(Insert(a, message).entries)
    ensures forall i, j :: 0 <= i < j < |Insert(a, message).entries| ==>
              Insert(a, message).entries[i].seqNo < Insert(a, message).entries[j].seqNo
    ensures Insert(a, message).entries == a.entries + [Entry(a.sequence + 1, message)]
    ensures DropsOldest(Insert(a, message).entries, Store(a, message, max).entries)
  {
    NewestLast(a, message);
    InsertKeepsValid(a, message);
    var es := Insert(a, message).entries;
    forall i, j | 0 <= i < j < |es| ensures es[i].seqNo < es[j].seqNo {
      DecimalOrder(es[i].seqNo, es[j].seqNo);
    }
    var d := Excess(|es|, max);
    assert Store(a, message, max).entries == es[d..];
  }

  lemma NewestLast(a: Archive, message: string)
    requires Valid(a) && SameDigits(Insert(a, message).entries)
    ensures Insert(a, message).entries == a.entries + [Entry(a.sequence + 1, message)]
  {
    var e := Entry(a.sequence + 1, message);
    PlaceSeparates(a, e);
    var k, es := Place(a.entries, Key(e)), Insert(a, message).entries;
    assert es[k] == e;
    forall i | 0 <= i < |a.entries| ensures !Less(Key(e), Key(a.entries[i])) {
      assert a.entries[i] == es[if i < k then i else i + 1];
      DecimalOrder(e.seqNo, a.entries[i].seqNo);
    }
  }

  // ---------------------------------------------------------------------------------------------
  // Exactly when cursor order stays insertion order
  // ---------------------------------------------------------------------------------------------

  ghost predicate InsertionOrder(es: seq<Entry>) {
    forall i, j :: 0 <= i < j < |es| ==> es[i].seqNo < es[j].seqNo
  }

  function Pow10(k: nat): nat { if k == 0 then 1 else 10 * Pow10(k - 1) }

  /** A number brought to the number of digits of a larger one. */
  function Scaled(n: nat, to: nat): nat
    requires n <= to
  {
    DecimalLonger(n, to);
    n * Pow10(|Decimal(to)| - |Decimal(n)|)
  }

  lemma {:induction false} LessLonger(a: string, b: string, c: char)
    requires |a| <= |b|
    ensures Less(a, b + [c]) <==> LessEq(a, b)
  {
    if a != "" {
      assert (b + [c])[1..] == b[1..] + [c];
      LessLonger(a[1..], b[1..], c);
    }
  }

  lemma ScaleStep(n: nat, to: nat, k: nat)
    ensures n * Pow10(k + 1) <= to <==> n * Pow10(k) <= to / 10
  {
    var x := n * Pow10(k);
    assert n * Pow10(k + 1) == 10 * x;
    assert 10 * x <= to <==> x <= to / 10;
  }

  /** Byte order of numerals, as arithmetic. */
  lemma {:induction false} DecimalLess(n: nat, to: nat)
    requires n < to
    ensures Less(Decimal(n), Decimal(to)) <==> Scaled(n, to) <= to
  {
    DecimalLonger(n, to);
    if |Decimal(n)| == |Decimal(to)| {
      DecimalOrder(n, to);
    } else {
      var front := to / 10;
      var k := |Decimal(to)| - |Decimal(n)| - 1;
      LessLonger(Decimal(n), Decimal(front), Digit(to % 10));
      ScaleStep(n, to, k);
      if n >= front {
        DecimalLonger(front, n);
        DecimalOrder(front, n);
        assert k == 0 && n * Pow10(k) == n;
      } else {
        DecimalLess(n, front);
        LessTotal(Decimal(n), Decimal(front));
        DifferentKeys(n, front);
      }
    }
  }

  lemma LastWhenAboveAll(a: Archive, message: string)
    requires Valid(a)
    ensures var e := Entry(a.sequence + 1, message);
            Insert(a, message).entries == a.entries + [e] <==>
                forall i :: 0 <= i < |a.entries| ==> Less(Key(a.entries[i]), Key(e))
  {
    var e := Entry(a.sequence + 1, message);
    PlaceSeparates(a, e);
    var k := Place(a.entries, Key(e));
    if k == |a.entries| {
      assert a.entries[..k] + [e] + a.entries[k..] == a.entries + [e];
    } else {
      LessTotal(Key(a.entries[k]), Key(e));
      assert Insert(a, message).entries[k] == e;
      assert (a.entries + [e])[k].seqNo != e.seqNo;
    }
  }

  /** An archive in insertion order stays so with one more message if and only if no live number, brought
      to the length of the new number, exceeds it; and then trimming to any size drops the oldest. */
  lemma OrderKeptExactly(a: Archive, message: string, max: int)
    requires Valid(a) && InsertionOrder(a.entries)
    ensures InsertionOrder(Insert(a, message).entries) <==>
            forall i :: 0 <= i < |a.entries| ==> Scaled(a.entries[i].seqNo, a.sequence + 1) <= a.sequence + 1
    ensures InsertionOrder(Insert(a, message).entries) ==>
            DropsOldest(Insert(a, message).entries, Store(a, message, max).entries)
  {
    var e, es := Entry(a.sequence + 1, message), Insert(a, message).entries;
    LastWhenAboveAll(a, message);
    forall i | 0 <= i < |a.entries|
      ensures Less(Key(a.entries[i]), Key(e)) <==> Scaled(a.entries[i].seqNo, e.seqNo) <= e.seqNo
    {
      DecimalLess(a.entries[i].seqNo, e.seqNo);
    }
    OrderedWhenLast(a, message);
    assert Store(a, message, max).entries == es[Excess(|es|, max)..];
  }

  lemma OrderedWhenLast(a: Archive, message: string)
    requires Valid(a) && InsertionOrder(a.entries)
    ensures InsertionOrder(Insert(a, message).entries) <==>
            Insert(a, message).entries == a.entries + [Entry(a.sequence + 1, message)]
  {
    var e, es := Entry(a.sequence + 1, message), Insert(a, message).entries;
    PlaceIs(a.entries, Key(e));
    var k := Place(a.entries, Key(e));
    assert es[k] == e;
    if k < |a.entries| {
      assert es[k + 1] == a.entries[k] && es[k].seqNo > es[k + 1].seqNo;
      assert (a.entries + [e])[k] == a.entries[k];
    } else {
      assert es == a.entries + [e];
    }
  }

  /** The oldest goes exactly when there is room, or no room at all, or the entry in front of the cursor is
      the oldest and its number, brought to the length of the new one, does not exceed it. */
  lemma DropsOldestExactly(a: Archive, message: string, max: int)
    requires Valid(a) && |a.entries| <= (if max < 0 then 0 else max)
    ensures DropsOldest(Insert(a, message).entries, Store(a, message, max).entries) <==>
            || |a.entries| < max || a.entries == []
            || (Scaled(a.entries[0].seqNo, a.sequence + 1) <= a.sequence + 1 &&
                forall i :: 0 < i < |a.entries| ==> a.entries[0].seqNo < a.entries[i].seqNo)
  {
    var es, after := Insert(a, message).entries, Store(a, message, max).entries;
    PlaceIs(a.entries, Key(Entry(a.sequence + 1, message)));
    if |a.entries| < max {
      assert after == es[0..];
    } else if a.entries == [] {
      assert |es| == 1 && after == es[1..];
    } else {
      assert after == es[1..];
      FrontGoes(a, message);
    }
  }

  lemma FrontGoes(a: Archive, message: string)
    requires Valid(a) && a.entries != []
    ensures |Insert(a, message).entries| > 0
    ensures DropsOldest(Insert(a, message).entries, Insert(a, message).entries[1..]) <==>
            (Scaled(a.entries[0].seqNo, a.sequence + 1) <= a.sequence + 1 &&
             forall i :: 0 < i < |a.entries| ==> a.entries[0].seqNo < a.entries[i].seqNo)
  {
    var e := Entry(a.sequence + 1, message);
    FrontPlace(a, e);
    FrontIsOldest(a.entries, e, Place(a.entries, Key(e)));
  }

  lemma FrontPlace(a: Archive, e: Entry)
    requires Valid(a) && e.seqNo == a.sequence + 1 && a.entries != []
    ensures Place(a.entries, Key(e)) <= |a.entries|
    ensures Place(a.entries, Key(e)) > 0 <==> Scaled(a.entries[0].seqNo, e.seqNo) <= e.seqNo
  {
    PlaceSeparates(a, e);
    DecimalLess(a.entries[0].seqNo, e.seqNo);
    LessTotal(Key(a.entries[0]), Key(e));
  }

  lemma OneDropped(es: seq<Entry>)
    requires |es| >= 1
    ensures DropsOldest(es, es[1..]) <==> FrontBelow(es)
  {
    forall k | 0 <= k <= |es| && es[1..] == es[k..] ensures k == 1 { assert |es[1..]| == |es[k..]|; }
    if DropsOldest(es, es[1..]) {
      forall i | 0 < i < |es| ensures es[0].seqNo < es[i].seqNo {}
    }
  }

  ghost predicate FrontBelow(es: seq<Entry>) {
    forall i :: 0 < i < |es| ==> es[0].seqNo < es[i].seqNo
  }

  lemma FrontIsOldest(es: seq<Entry>, e: Entry, p: nat)
    requires p <= |es| && es != [] && es[0].seqNo < e.seqNo
    ensures var r := es[..p] + [e] + es[p..];
            DropsOldest(r, r[1..]) <==> p > 0 && forall i :: 0 < i < |es| ==> es[0].seqNo < es[i].seqNo
  {
    OneDropped(es[..p] + [e] + es[p..]);
    StillInFront(es, e, p);
  }

  lemma StillInFront(es: seq<Entry>, e: Entry, p: nat)
    requires p <= |es| && es != [] && es[0].seqNo < e.seqNo
    ensures FrontBelow(es[..p] + [e] + es[p..]) <==> p > 0 && FrontBelow(es)
  {
    var r := es[..p] + [e] + es[p..];
    if p == 0 {
      assert r[0] == e && r[1] == es[0];
    } else {
      forall i | 0 < i < |r| ensures i == p || r[i] == es[if i < p then i else i - 1] {}
      forall i | 0 < i < |es| ensures es[i] == r[if i < p then i else i + 1] {}
    }
  }

  function Newest(es: seq<Entry>, max: int): seq<Entry> { es[Excess(|es|, max)..] }

  lemma {:induction false} FullIsAppended(a: Archive, messages: seq<string>)
    requires Valid(a) && SameDigits(a.entries + Numbered(messages, a.sequence))
    ensures Full(a, messages).entries == a.entries + Numbered(messages, a.sequence)
    decreases |messages|
  {
    if messages == [] {
      assert a.entries + [] == a.entries;
    } else {
      var e, later := Entry(a.sequence + 1, messages[0]), Numbered(messages[1..], a.sequence + 1);
      var now := a.entries + [e];
      assert a.entries + Numbered(messages, a.sequence) == now + later;
      FrontDigits(now, later);
      InsertedDigits(a, messages[0]);
      NewestLast(a, messages[0]);
      InsertKeepsValid(a, messages[0]);
      FullIsAppended(Insert(a, messages[0]), messages[1..]);
    }
  }

  lemma FrontDigits(front: seq<Entry>, rest: seq<Entry>)
    requires SameDigits(front + rest)
    ensures SameDigits(front)
  {
    assert forall i :: 0 <= i < |front| ==> front[i] == (front + rest)[i];
  }

  /** Over any run in which the sequence numbers keep their length, the archive is exactly the newest
      messages, as many as the limit allows, in the order of their arrival. */
  lemma RunKeepsNewest(a: Archive, messages: seq<string>, max: int)
    requires Valid(a) && |a.entries| <= (if max < 0 then 0 else max)
    requires SameDigits(a.entries + Numbered(messages, a.sequence))
    ensures Run(a, messages, max).entries == Newest(a.entries + Numbered(messages, a.sequence), max)
  {
    SurvivorsOfRun(a, messages, max);
    FullIsAppended(a, messages);
  }

  lemma InsertedDigits(a: Archive, message: string)
    requires SameDigits(a.entries + [Entry(a.sequence + 1, message)])
    ensures SameDigits(Insert(a, message).entries)
  {
    var e := Entry(a.sequence + 1, message);
    var all, es := a.entries + [e], Insert(a, message).entries;
    PlaceIs(a.entries, Key(e));
    var k := Place(a.entries, Key(e));
    forall i | 0 <= i < |es| ensures |Key(es[i])| == |Key(e)| {
      var j := if i < k then i else if i == k then |a.entries| else i - 1;
      assert es[i] == all[j];
      assert all[|a.entries|] == e;
    }
  }

  lemma {:induction false} NumberedAt(messages: seq<string>, last: nat, i: nat)
    requires i < |messages|
    ensures |Numbered(messages, last)| == |messages| && Numbered(messages, last)[i] == Entry(last + 1 + i, messages[i])
  {
    if i > 0 {
      NumberedAt(messages[1..], last + 1, i - 1);
    } else if |messages| > 1 {
      NumberedAt(messages[1..], last + 1, 0);
    }
  }

  lemma {:induction false} SequenceCounts(a: Archive, messages: seq<string>, max: int)
    ensures Run(a, messages, max).sequence == a.sequence + |messages|
    decreases |messages|
  {
    if messages != [] { SequenceCounts(Store(a, messages[0], max), messages[1..], max); }
  }

  lemma OneDigit(messages: seq<string>)
    requires |messages| <= 9
    ensures SameDigits(Numbered(messages, 0))
  {
    var es := Numbered(messages, 0);
    forall i, j | 0 <= i < j < |es| ensures |Key(es[i])| == |Key(es[j])| {
      NumberedLength(messages, 0);
      NumberedAt(messages, 0, i);
      NumberedAt(messages, 0, j);
    }
  }

  lemma {:induction false} NumberedLength(messages: seq<string>, last: nat)
    ensures |Numbered(messages, last)| == |messages|
  {
    if messages != [] { NumberedLength(messages[1..], last + 1); }
  }

  /** Up to nine messages in an archive with room for one: the last is there. */
  lemma LastStays(a: Archive, messages: seq<string>, max: nat)
    requires a.entries == [] && a.sequence == 0 && max == 1 && 1 <= |messages| <= 9
    ensures Run(a, messages, max) == Archive([Entry(|messages|, messages[|messages| - 1])], |messages|)
  {
    NumberedLength(messages, 0);
    NumberedAt(messages, 0, |messages| - 1);
    OneDigit(messages);
    FromEmpty(a, messages, max);
    NewestOne(Numbered(messages, 0));
    SequenceCounts(a, messages, max);
  }

  lemma NewestOne(es: seq<Entry>)
    requires es != []
    ensures Newest(es, 1) == [es[|es| - 1]]
  {
  }

  lemma FromEmpty(a: Archive, messages: seq<string>, max: nat)
    requires a.entries == [] && a.sequence == 0 && SameDigits(Numbered(messages, 0))
    ensures Run(a, messages, max).entries == Newest(Numbered(messages, 0), max)
  {
    assert a.entries + Numbered(messages, 0) == Numbered(messages, 0);
    RunKeepsNewest(a, messages, max);
  }

  /** Across a change of length the newest message may be the one that goes: after nine messages in an archive
      with room for one, the tenth is dropped and the ninth stays. */
  lemma TenthIsDropped(messages: seq<string>, m10: string)
    requires |messages| == 9
    ensures var a := Run(EMPTY, messages, 1);
            && a == Archive([Entry(9, messages[8])], 9) && Valid(a)
            && Store(a, m10, 1) == Archive([Entry(9, messages[8])], 10)
            && !DropsOldest(Insert(a, m10).entries, Store(a, m10, 1).entries)
  {
    LastStays(EMPTY, messages, 1);
    TenthBeforeNinth(messages[8], m10);
  }

  lemma TenthBeforeNinth(m9: string, m10: string)
    ensures var a := Archive([Entry(9, m9)], 9);
            && Valid(a) && Store(a, m10, 1) == Archive([Entry(9, m9)], 10)
            && !DropsOldest(Insert(a, m10).entries, Store(a, m10, 1).entries)
  {
    var a, e9, e10 := Archive([Entry(9, m9)], 9), Entry(9, m9), Entry(10, m10);
    assert Decimal(10) == Decimal(1) + [Digit(0)] == ['1', '0'] && Decimal(9) == ['9'];
    assert Less(Key(e10), Key(e9));
    assert Place(a.entries, Key(e10)) == 0;
    assert Insert(a, m10).entries == [e10, e9];
    assert [e10, e9][1..] == [e9];
    forall k | 0 <= k <= 2 && [e9] == [e10, e9][k..]
      ensures !(forall i, j :: 0 <= i < k <= j < 2 ==> [e10, e9][i].seqNo < [e10, e9][j].seqNo)
    {
      assert k == 1 by { assert |[e10, e9][k..]| == 1; }
      assert [e10, e9][0].seqNo == 10 && [e10, e9][1].seqNo == 9;
    }
  }

  // ---------------------------------------------------------------------------------------------
  // The bucket
  // ---------------------------------------------------------------------------------------------

  class Bucket {
    var entries: seq<Entry>
    var sequence: nat

    ghost function St(): Archive
      reads this
    {
      Archive(entries, sequence)
    }

    constructor ()
      ensures St() == EMPTY && Valid(St())
    {
      entries, sequence := [], 0;
    }

    /** insertSeqOp: the next sequence number, put at its place in key order. */
    method InsertSeq(message: string)
      modifies this
      ensures St() == Insert(old(St()), message)
    {
      sequence := sequence + 1;
      var e := Entry(sequence, message);
      PlaceIs(entries, Key(e));
      var k := 0;
      while k < |entries| && !Less(Key(e), Key(entries[k]))
        invariant 0 <= k <= |entries|
        invariant forall i :: 0 <= i < k ==> !Less(Key(e), Key(entries[i]))
        invariant k <= Place(entries, Key(e))
      {
        k := k + 1;
      }
      entries := entries[..k] + [e] + entries[k..];
    }

    method CountKeys() returns (n: nat)
      ensures n == |entries|
    {
      n := 0;
      var cursor := 0;
      while cursor < |entries|
        invariant n == cursor <= |entries|
      {
        n, cursor := n + 1, cursor + 1;
      }
    }

    method Delete(key: string)
      modifies this`entries
      ensures (forall i :: 0 <= i < |old(entries)| ==> Key(old(entries)[i]) != key) ==> entries == old(entries)
      ensures forall i | 0 <= i < |old(entries)| &&
              Sequences.FirstWhere(old(entries), (e: Entry) => Key(e) == key, i) ::
                entries == old(entries)[..i] + old(entries)[i + 1..]
    {
      for i := 0 to |entries|
        invariant entries == old(entries)
        invariant forall j :: 0 <= j < i ==> Key(entries[j]) != key
      {
        if Key(entries[i]) == key {
          entries := entries[..i] + entries[i + 1..];
          return;
        }
      }
    }

    /** The keys in front of the cursor are collected while the count exceeds the limit, then deleted. */
    method DeleteOldest(max: int)
      modifies this`entries
      ensures St() == Trim(old(St()), max)
    {
      var count := CountKeys();
      if count < max {
        return;
      }
      var oldKeys, cursor := [], 0;
      while cursor < |entries| && count > max
        invariant 0 <= cursor <= |entries| && count == |entries| - cursor && cursor <= Excess(|entries|, max)
        invariant |oldKeys| == cursor && forall i :: 0 <= i < cursor ==> oldKeys[i] == Key(entries[i])
      {
        oldKeys := oldKeys + [Key(entries[cursor])];
        count, cursor := count - 1, cursor + 1;
      }
      assert cursor == Excess(|entries|, max);
      for i := 0 to |oldKeys|
        invariant entries == old(entries)[i..]
      {
        assert Sequences.FirstWhere(entries, (e: Entry) => Key(e) == oldKeys[i], 0);
        Delete(oldKeys[i]);
        assert entries == old(entries)[i..][..0] + old(entries)[i..][1..];
      }
    }

    /** What archiving one message does. */
    method ArchiveMessage(message: string, max: int)
      requires Valid(St())
      modifies this
      ensures St() == Store(old(St()), message, max)
      ensures Valid(St()) && |entries| <= if max < 0 then 0 else max
    {
      StoreKeepsValid(St(), message, max);
      InsertSeq(message);
      DeleteOldest(max);
    }
  }
}
