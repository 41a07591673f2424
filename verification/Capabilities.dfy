/** Entity capabilities: the text that is hashed into a verification string (section 5.1 of
    XEP-0115), and the validation of extended information forms. */
module Capabilities {
  import opened Options
  import opened Text
  import opened Sequences

  const FORM_TYPE := "FORM_TYPE"

  datatype Identity = Identity(category: string, kind: string, lang: string, name: string)

  datatype Field = Field(fvar: string, hidden: bool, values: seq<string>)

  datatype Form = Form(fields: seq<Field>)

  // ---------------------------------------------------------------------------------------------
  // Orders
  // ---------------------------------------------------------------------------------------------

  predicate IdentityLess(a: Identity, b: Identity) {
    if a.category != b.category then Less(a.category, b.category)
    else if a.kind != b.kind then Less(a.kind, b.kind)
    else Less(a.lang, b.lang)
  }

  predicate IdentityLe(a: Identity, b: Identity) { !IdentityLess(b, a) }

  predicate FieldLe(a: Field, b: Field) { LessEq(a.fvar, b.fvar) }

  predicate FormLe(a: Form, b: Form) { LessEq(FormTypeValue(a), FormTypeValue(b)) }

  function Triple(i: Identity): (string, string, string) { (i.category, i.kind, i.lang) }

  lemma IdentityLeTrans(a: Identity, b: Identity, c: Identity)
    requires IdentityLe(a, b) && IdentityLe(b, c)
    ensures IdentityLe(a, c)
  {
    LessTotal(a.category, b.category); LessTotal(b.category, c.category); LessTotal(a.category, c.category);
    LessTotal(a.kind, b.kind); LessTotal(b.kind, c.kind); LessTotal(a.kind, c.kind);
    if Less(a.category, b.category) && Less(b.category, c.category) { LessTrans(a.category, b.category, c.category); }
    if Less(a.kind, b.kind) && Less(b.kind, c.kind) { LessTrans(a.kind, b.kind, c.kind); }
    if Triple(a).0 == Triple(b).0 == Triple(c).0 && a.kind == b.kind == c.kind { LessEqTrans(a.lang, b.lang, c.lang); }
  }

  lemma IdentityLeTotal(a: Identity, b: Identity)
    ensures IdentityLe(a, b) || IdentityLe(b, a)
    ensures IdentityLe(a, b) && IdentityLe(b, a) ==> Triple(a) == Triple(b)
  {
    LessTotal(a.category, b.category);
    LessTotal(a.kind, b.kind);
    LessTotal(a.lang, b.lang);
  }

  lemma IdentityOrder()
    ensures TotalPreorder(IdentityLe)
  {
    forall a, b ensures IdentityLe(a, b) || IdentityLe(b, a) { IdentityLeTotal(a, b); }
    forall a, b, c | IdentityLe(a, b) && IdentityLe(b, c) ensures IdentityLe(a, c) { IdentityLeTrans(a, b, c); }
  }

  lemma StringOrder()
    ensures TotalPreorder(LessEq)
  {
    forall a, b ensures LessEq(a, b) || LessEq(b, a) { LessEqConnected(a, b); }
    forall a, b, c | LessEq(a, b) && LessEq(b, c) ensures LessEq(a, c) { LessEqTrans(a, b, c); }
  }

  lemma FieldOrder()
    ensures TotalPreorder(FieldLe)
  {
    forall a: Field, b: Field ensures FieldLe(a, b) || FieldLe(b, a) { LessEqConnected(a.fvar, b.fvar); }
    forall a: Field, b: Field, c: Field | FieldLe(a, b) && FieldLe(b, c) ensures FieldLe(a, c) {
      LessEqTrans(a.fvar, b.fvar, c.fvar);
    }
  }

  lemma FormOrder()
    ensures TotalPreorder(FormLe)
  {
    forall a, b ensures FormLe(a, b) || FormLe(b, a) { LessEqConnected(FormTypeValue(a), FormTypeValue(b)); }
    forall a, b, c | FormLe(a, b) && FormLe(b, c) ensures FormLe(a, c) {
      LessEqTrans(FormTypeValue(a), FormTypeValue(b), FormTypeValue(c));
    }
  }

  // ---------------------------------------------------------------------------------------------
  // The text
  // ---------------------------------------------------------------------------------------------

  function IdentityText(i: Identity): string {
    i.category + "/" + i.kind + "/" + i.lang + "/" + i.name + "<"
  }

  function Flatten(ts: seq<string>): string {
    if ts == [] then "" else Flatten(ts[..|ts| - 1]) + ts[|ts| - 1]
  }

  function Line(s: string): string { s + "<" }

  function FirstFormType(fields: seq<Field>): Option<Field> {
    if fields == [] then None
    else if fields[0].fvar == FORM_TYPE then Some(fields[0])
    else FirstFormType(fields[1..])
  }

  // The source reads the first value without looking whether there is one; callers validate first.
  function FormTypeValue(form: Form): string {
    match FirstFormType(form.fields)
    case Some(f) => if |f.values| > 0 then f.values[0] else ""
    case None => ""
  }

  function Others(fields: seq<Field>): seq<Field> {
    if fields == [] then []
    else if fields[|fields| - 1].fvar == FORM_TYPE then Others(fields[..|fields| - 1])
    else Others(fields[..|fields| - 1]) + [fields[|fields| - 1]]
  }

  /** Some way of sorting a field's values gives this text. */
  ghost predicate IsFieldText(f: Field, t: string) {
    exists vs :: Rearranged(vs, f.values) && Sorted(vs, LessEq) && t == Line(f.fvar) + Flatten(Map(Line, vs))
  }

  ghost predicate AreFieldTexts(fs: seq<Field>, ts: seq<string>) {
    |ts| == |fs| && forall i :: 0 <= i < |fs| ==> IsFieldText(fs[i], ts[i])
  }

  ghost predicate IsFormText(form: Form, t: string) {
    exists fs, ts :: Rearranged(fs, Others(form.fields)) && Sorted(fs, FieldLe) && AreFieldTexts(fs, ts) &&
      t == Line(FormTypeValue(form)) + Flatten(ts)
  }

  ghost predicate AreFormTexts(fs: seq<Form>, ts: seq<string>) {
    |ts| == |fs| && forall i :: 0 <= i < |fs| ==> IsFormText(fs[i], ts[i])
  }

  ghost predicate IsFormsText(forms: seq<Form>, t: string) {
    exists fs, ts :: Rearranged(fs, forms) && Sorted(fs, FormLe) && AreFormTexts(fs, ts) && t == Flatten(ts)
  }

  ghost predicate IsIdentitiesText(ids: seq<Identity>, t: string) {
    exists s :: Rearranged(s, ids) && Sorted(s, IdentityLe) && t == Flatten(Map(IdentityText, s))
  }

  ghost predicate IsFeaturesText(features: seq<string>, t: string) {
    exists s :: Rearranged(s, features) && Sorted(s, LessEq) && t == Flatten(Map(Line, s))
  }

  /** The text is one that computeVer may hash: sorting leaves ties in any order. */
  ghost predicate IsVerText(ids: seq<Identity>, features: seq<string>, forms: seq<Form>, t: string) {
    exists a, b, c :: IsIdentitiesText(ids, a) && IsFeaturesText(features, b) && IsFormsText(forms, c) && t == a + b + c
  }

  // ---------------------------------------------------------------------------------------------
  // Computing it
  // ---------------------------------------------------------------------------------------------

  method FilterFormType(fields: seq<Field>) returns (r: seq<Field>)
    ensures r == Others(fields)
  {
    r := [];
    for i := 0 to |fields|
      invariant r == Others(fields[..i])
    {
      assert fields[..i + 1][..i] == fields[..i];
      if fields[i].fvar != FORM_TYPE {
        r := r + [fields[i]];
      }
    }
    assert fields[..|fields|] == fields;
  }

  method WriteLines(lines: seq<string>) returns (t: string)
    ensures t == Flatten(Map(Line, lines))
  {
    t := "";
    for i := 0 to |lines|
      invariant t == Flatten(Map(Line, lines[..i]))
    {
      assert Map(Line, lines[..i + 1])[..i] == Map(Line, lines[..i]);
      t := t + lines[i] + "<";
    }
    assert lines[..|lines|] == lines;
  }

  method WriteField(f: Field) returns (t: string)
    ensures IsFieldText(f, t)
  {
    StringOrder();
    var vs := SortBy(f.values, LessEq);
    var lines := WriteLines(vs);
    t := Line(f.fvar) + lines;
  }

  method SortFields(fs: seq<Field>) returns (r: seq<Field>)
    ensures Rearranged(r, fs) && Sorted(r, FieldLe)
  {
    FieldOrder();
    r := SortBy(fs, FieldLe);
  }

  method SortForms(fs: seq<Form>) returns (r: seq<Form>)
    ensures Rearranged(r, fs) && Sorted(r, FormLe)
  {
    FormOrder();
    r := SortBy(fs, FormLe);
  }

  method Concat(ts: seq<string>) returns (t: string)
    ensures t == Flatten(ts)
  {
    t := "";
    for i := 0 to |ts|
      invariant t == Flatten(ts[..i])
    {
      assert ts[..i + 1][..i] == ts[..i];
      t := t + ts[i];
    }
    assert ts[..|ts|] == ts;
  }

  method WriteFields(fs: seq<Field>) returns (ts: seq<string>)
    ensures AreFieldTexts(fs, ts)
  {
    ts := [];
    for i := 0 to |fs|
      invariant |ts| == i && forall k :: 0 <= k < i ==> IsFieldText(fs[k], ts[k])
    {
      var t := WriteField(fs[i]);
      ts := ts + [t];
    }
  }

  method WriteForm(form: Form) returns (t: string)
    ensures IsFormText(form, t)
  {
    var others := FilterFormType(form.fields);
    var fs := SortFields(others);
    var ts := WriteFields(fs);
    t := Concat(ts);
    t := Line(FormTypeValue(form)) + t;
  }

  method WriteSortedForms(fs: seq<Form>) returns (ts: seq<string>)
    ensures AreFormTexts(fs, ts)
  {
    ts := [];
    for i := 0 to |fs|
      invariant |ts| == i && forall k :: 0 <= k < i ==> IsFormText(fs[k], ts[k])
    {
      var t := WriteForm(fs[i]);
      ts := ts + [t];
    }
  }

  method WriteForms(forms: seq<Form>) returns (t: string)
    ensures IsFormsText(forms, t)
  {
    var fs := SortForms(forms);
    var ts := WriteSortedForms(fs);
    t := Concat(ts);
  }

  method WriteIdentities(ids: seq<Identity>) returns (t: string)
    ensures IsIdentitiesText(ids, t)
  {
    IdentityOrder();
    var s := SortBy(ids, IdentityLe);
    t := "";
    for i := 0 to |s|
      invariant t == Flatten(Map(IdentityText, s[..i]))
    {
      assert Map(IdentityText, s[..i + 1])[..i] == Map(IdentityText, s[..i]);
      t := t + IdentityText(s[i]);
    }
    assert s[..|s|] == s;
  }

  /** computeVer up to the hash. */
  method VerText(ids: seq<Identity>, features: seq<string>, forms: seq<Form>) returns (t: string)
    ensures IsVerText(ids, features, forms, t)
  {
    var a := WriteIdentities(ids);
    StringOrder();
    var fs := SortBy(features, LessEq);
    var b := WriteLines(fs);
    assert IsFeaturesText(features, b);
    var c := WriteForms(forms);
    t := a + b + c;
  }

  // ---------------------------------------------------------------------------------------------
  // The text does not depend on the order in which things are listed
  // ---------------------------------------------------------------------------------------------

  ghost predicate NoRepeats<T>(s: seq<T>) {
    forall i, j :: 0 <= i < j < |s| ==> s[i] != s[j]
  }

  lemma {:induction false} NoRepeatsCount<T>(s: seq<T>)
    ensures NoRepeats(s) <==> forall x :: multiset(s)[x] <= 1
  {
    if s != [] {
      var front, last := s[..|s| - 1], s[|s| - 1];
      NoRepeatsCount(front);
      assert s == front + [last];
      assert forall x :: multiset(s)[x] == multiset(front)[x] + if x == last then 1 else 0;
      if NoRepeats(s) {
        assert last !in front;
      }
      if forall x :: multiset(s)[x] <= 1 {
        assert forall x :: multiset(front)[x] <= 1;
        assert multiset(front)[last] == 0;
        assert forall i :: 0 <= i < |front| ==> front[i] in multiset(front);
      }
    }
  }

  function FieldKey(f: Field): (string, multiset<string>) { (f.fvar, multiset(f.values)) }

  predicate FieldKeyLe(a: (string, multiset<string>), b: (string, multiset<string>)) { LessEq(a.0, b.0) }

  /** What is left of a form when the order of its fields and of their values is forgotten. */
  function FormBag(form: Form): multiset<(string, multiset<string>)> {
    multiset(Map(FieldKey, form.fields))
  }

  type FormKeyT = (string, multiset<(string, multiset<string>)>)

  function FormKey(form: Form): FormKeyT {
    (FormTypeValue(form), multiset(Map(FieldKey, Others(form.fields))))
  }

  predicate FormKeyLe(a: FormKeyT, b: FormKeyT) { LessEq(a.0, b.0) }

  function VarOf(f: Field): string { f.fvar }

  /** One FORM_TYPE field with one value, and field names that differ. */
  ghost predicate ProperForm(form: Form) {
    && NoRepeats(Map(VarOf, form.fields))
    && exists i :: 0 <= i < |form.fields| && form.fields[i].fvar == FORM_TYPE && |form.fields[i].values| == 1
  }

  /** Identities that sorting may not tell apart are the same. */
  ghost predicate TiesAgree(ids: seq<Identity>) {
    forall i, j :: 0 <= i < j < |ids| && Triple(ids[i]) == Triple(ids[j]) ==> ids[i].name == ids[j].name
  }

  ghost predicate Proper(ids: seq<Identity>, forms: seq<Form>) {
    && TiesAgree(ids)
    && (forall i :: 0 <= i < |forms| ==> ProperForm(forms[i]))
    && NoRepeats(Map(FormTypeValue, forms))
  }

  lemma FieldTextUnique(f: Field, g: Field, t: string, t': string)
    requires IsFieldText(f, t) && IsFieldText(g, t') && FieldKey(f) == FieldKey(g)
    ensures t == t'
  {
    var vs :| Rearranged(vs, f.values) && Sorted(vs, LessEq) && t == Line(f.fvar) + Flatten(Map(Line, vs));
    var vs' :| Rearranged(vs', g.values) && Sorted(vs', LessEq) && t' == Line(g.fvar) + Flatten(Map(Line, vs'));
    SortedStringsUnique(vs, vs');
  }

  lemma SortedStringsUnique(a: seq<string>, b: seq<string>)
    requires Rearranged(a, b) && Sorted(a, LessEq) && Sorted(b, LessEq)
    ensures a == b
  {
    forall x, y | x in a && y in a && LessEq(x, y) && LessEq(y, x) ensures x == y { LessEqAntisymmetric(x, y); }
    SortedUnique(a, b, LessEq);
  }

  lemma MapLast<T, U>(f: T -> U, s: seq<T>, x: T)
    ensures Map(f, s + [x]) == Map(f, s) + [f(x)]
  {
  }

  lemma OthersLast(front: seq<Field>, last: Field)
    ensures Others(front + [last]) == Others(front) + if last.fvar == FORM_TYPE then [] else [last]
  {
    assert (front + [last])[..|front|] == front;
  }

  lemma {:induction false} OthersBag(fields: seq<Field>, k: (string, multiset<string>))
    ensures multiset(Map(FieldKey, Others(fields)))[k] ==
            if k.0 == FORM_TYPE then 0 else multiset(Map(FieldKey, fields))[k]
    decreases |fields|
  {
    if fields == [] {
      assert Others(fields) == [];
    } else {
      var front, last := fields[..|fields| - 1], fields[|fields| - 1];
      assert fields == front + [last];
      OthersBag(front, k);
      OthersLast(front, last);
      MapLast(FieldKey, front, last);
      MapLast(FieldKey, Others(front), last);
    }
  }

  lemma {:induction false} OthersWithin(fields: seq<Field>)
    ensures forall i :: 0 <= i < |Others(fields)| ==> Others(fields)[i] in fields
  {
    if fields != [] {
      var front, last := fields[..|fields| - 1], fields[|fields| - 1];
      assert fields == front + [last];
      OthersWithin(front);
      OthersLast(front, last);
    }
  }

  lemma {:induction false} FirstFormTypeIs(fields: seq<Field>)
    ensures match FirstFormType(fields)
            case Some(f) => f in fields && f.fvar == FORM_TYPE
            case None => forall f :: f in fields ==> f.fvar != FORM_TYPE
  {
    if fields != [] {
      FirstFormTypeIs(fields[1..]);
      assert fields == [fields[0]] + fields[1..];
    }
  }

  lemma InBag(fields: seq<Field>, k: (string, multiset<string>))
    ensures k in multiset(Map(FieldKey, fields)) <==> exists f :: f in fields && FieldKey(f) == k
  {
    var ks := Map(FieldKey, fields);
    assert k in multiset(ks) <==> k in ks;
    if k in ks {
      var i :| 0 <= i < |ks| && ks[i] == k;
      assert fields[i] in fields;
    }
    forall f | f in fields && FieldKey(f) == k ensures k in ks {
      var i :| 0 <= i < |fields| && fields[i] == f;
      assert ks[i] == k;
    }
  }

  /** Reordering the fields of a proper form, or their values, does not change its key. */
  lemma BagDecidesKey(f: Form, g: Form)
    requires ProperForm(f) && FormBag(f) == FormBag(g)
    ensures FormKey(f) == FormKey(g)
  {
    BagDecidesFormType(f, g);
    forall k ensures multiset(Map(FieldKey, Others(f.fields)))[k] == multiset(Map(FieldKey, Others(g.fields)))[k] {
      OthersBag(f.fields, k);
      OthersBag(g.fields, k);
    }
    assert multiset(Map(FieldKey, Others(f.fields))) == multiset(Map(FieldKey, Others(g.fields)));
  }

  lemma OneFormType(f: Form) returns (ft: Field)
    requires ProperForm(f)
    ensures ft in f.fields && ft.fvar == FORM_TYPE && |ft.values| == 1
    ensures forall x :: x in f.fields && x.fvar == FORM_TYPE ==> x == ft
    ensures FormTypeValue(f) == ft.values[0]
  {
    var i :| 0 <= i < |f.fields| && f.fields[i].fvar == FORM_TYPE && |f.fields[i].values| == 1;
    ft := f.fields[i];
    forall x | x in f.fields && x.fvar == FORM_TYPE ensures x == ft {
      var j :| 0 <= j < |f.fields| && f.fields[j] == x;
      assert Map(VarOf, f.fields)[i] == Map(VarOf, f.fields)[j];
    }
    FirstFormTypeIs(f.fields);
  }

  lemma BagDecidesFormType(f: Form, g: Form)
    requires ProperForm(f) && FormBag(f) == FormBag(g)
    ensures FormTypeValue(f) == FormTypeValue(g)
  {
    var ft := OneFormType(f);
    FirstFormTypeIs(g.fields);
    InBag(f.fields, FieldKey(ft));
    InBag(g.fields, FieldKey(ft));
    var gt :| gt in g.fields && FieldKey(gt) == FieldKey(ft);
    var first := FirstFormType(g.fields).value;
    InBag(g.fields, FieldKey(first));
    InBag(f.fields, FieldKey(first));
    SingletonValues(first.values, ft.values);
  }

  lemma SingletonValues(a: seq<string>, b: seq<string>)
    requires multiset(a) == multiset(b) && |b| == 1
    ensures a == b
  {
    assert |multiset(a)| == |a| && |multiset(b)| == |b|;
    assert b[0] in multiset(a);
  }

  /** Fields sorted by name have one order of keys. */
  lemma FieldKeysUnique(fs: seq<Field>, gs: seq<Field>)
    requires Sorted(fs, FieldLe) && Sorted(gs, FieldLe)
    requires Rearranged(Map(FieldKey, fs), Map(FieldKey, gs))
    requires NoRepeats(Map(VarOf, fs))
    ensures Map(FieldKey, fs) == Map(FieldKey, gs)
  {
    var ks, ls := Map(FieldKey, fs), Map(FieldKey, gs);
    forall x, y | x in ks && y in ks && FieldKeyLe(x, y) && FieldKeyLe(y, x) ensures x == y {
      LessEqAntisymmetric(x.0, y.0);
      var i :| 0 <= i < |ks| && ks[i] == x;
      var j :| 0 <= j < |ks| && ks[j] == y;
      assert Map(VarOf, fs)[i] == Map(VarOf, fs)[j];
    }
    assert Sorted(ks, FieldKeyLe) && Sorted(ls, FieldKeyLe);
    SortedUnique(ks, ls, FieldKeyLe);
  }

  lemma StillNoRepeats<T>(a: seq<T>, b: seq<T>)
    requires Rearranged(a, b) && NoRepeats(b)
    ensures NoRepeats(a)
  {
    NoRepeatsCount(a);
    NoRepeatsCount(b);
  }

  lemma FieldTextsUnique(fs: seq<Field>, ts: seq<string>, gs: seq<Field>, us: seq<string>)
    requires AreFieldTexts(fs, ts) && AreFieldTexts(gs, us) && Map(FieldKey, fs) == Map(FieldKey, gs)
    ensures ts == us
  {
    assert |fs| == |Map(FieldKey, fs)| == |gs|;
    forall i | 0 <= i < |ts| ensures ts[i] == us[i] {
      assert Map(FieldKey, fs)[i] == Map(FieldKey, gs)[i];
      FieldTextUnique(fs[i], gs[i], ts[i], us[i]);
    }
  }

  lemma FormTextUnique(f: Form, g: Form, t: string, t': string)
    requires IsFormText(f, t) && IsFormText(g, t') && FormKey(f) == FormKey(g) && ProperForm(f)
    ensures t == t'
  {
    var fs, ts :| Rearranged(fs, Others(f.fields)) && Sorted(fs, FieldLe) && AreFieldTexts(fs, ts) &&
      t == Line(FormTypeValue(f)) + Flatten(ts);
    var gs, us :| Rearranged(gs, Others(g.fields)) && Sorted(gs, FieldLe) && AreFieldTexts(gs, us) &&
      t' == Line(FormTypeValue(g)) + Flatten(us);
    MapRearranged(FieldKey, fs, Others(f.fields));
    MapRearranged(FieldKey, gs, Others(g.fields));
    OthersNoRepeats(f.fields);
    MapRearranged(VarOf, fs, Others(f.fields));
    StillNoRepeats(Map(VarOf, fs), Map(VarOf, Others(f.fields)));
    FieldKeysUnique(fs, gs);
    FieldTextsUnique(fs, ts, gs, us);
  }

  lemma {:induction false} OthersNoRepeats(fields: seq<Field>)
    requires NoRepeats(Map(VarOf, fields))
    ensures NoRepeats(Map(VarOf, Others(fields)))
  {
    if fields != [] {
      var front, last := fields[..|fields| - 1], fields[|fields| - 1];
      forall i, j | 0 <= i < j < |front| ensures Map(VarOf, front)[i] != Map(VarOf, front)[j] {
        assert Map(VarOf, fields)[i] != Map(VarOf, fields)[j];
      }
      OthersNoRepeats(front);
      OthersWithin(front);
      forall i | 0 <= i < |Others(front)| ensures Others(front)[i].fvar != last.fvar {
        var k :| 0 <= k < |front| && front[k] == Others(front)[i];
        assert Map(VarOf, fields)[k] != Map(VarOf, fields)[|front|];
      }
    }
  }

  /** The key of a form whose bag this is. */
  ghost function KeyOfBag(b: multiset<(string, multiset<string>)>): FormKeyT {
    if exists f :: ProperForm(f) && FormBag(f) == b
    then var f :| ProperForm(f) && FormBag(f) == b; FormKey(f)
    else ("", multiset{})
  }

  lemma BagKey(f: Form, g: Form)
    requires ProperForm(f) && FormBag(f) == FormBag(g)
    ensures KeyOfBag(FormBag(g)) == FormKey(g)
  {
    var h :| ProperForm(h) && FormBag(h) == FormBag(g) && KeyOfBag(FormBag(g)) == FormKey(h);
    BagDecidesKey(h, g);
  }

  lemma KeysRearranged(forms: seq<Form>, forms': seq<Form>)
    requires forall i :: 0 <= i < |forms| ==> ProperForm(forms[i])
    requires Rearranged(Map(FormBag, forms), Map(FormBag, forms'))
    ensures Rearranged(Map(FormKey, forms), Map(FormKey, forms'))
  {
    var bs, bs' := Map(FormBag, forms), Map(FormBag, forms');
    RearrangedMembers(bs, bs');
    forall i | 0 <= i < |forms| ensures Map(FormKey, forms)[i] == Map(KeyOfBag, bs)[i] {
      BagKey(forms[i], forms[i]);
    }
    forall i | 0 <= i < |forms'| ensures Map(FormKey, forms')[i] == Map(KeyOfBag, bs')[i] {
      assert bs'[i] in bs;
      var j :| 0 <= j < |bs| && bs[j] == bs'[i];
      BagKey(forms[j], forms'[i]);
    }
    assert Map(FormKey, forms) == Map(KeyOfBag, bs);
    assert Map(FormKey, forms') == Map(KeyOfBag, bs');
    MapRearranged(KeyOfBag, bs, bs');
  }

  lemma FormKeysSorted(fs: seq<Form>)
    requires Sorted(fs, FormLe)
    ensures Sorted(Map(FormKey, fs), FormKeyLe)
  {
    var ks := Map(FormKey, fs);
    forall i, j | 0 <= i < j < |ks| ensures FormKeyLe(ks[i], ks[j]) {
      assert FormLe(fs[i], fs[j]);
    }
  }

  lemma FormKeysDiffer(fs: seq<Form>, x: FormKeyT, y: FormKeyT)
    requires NoRepeats(Map(FormTypeValue, fs))
    requires x in Map(FormKey, fs) && y in Map(FormKey, fs) && FormKeyLe(x, y) && FormKeyLe(y, x)
    ensures x == y
  {
    LessEqAntisymmetric(x.0, y.0);
    var ks := Map(FormKey, fs);
    var i :| 0 <= i < |ks| && ks[i] == x;
    var j :| 0 <= j < |ks| && ks[j] == y;
    assert Map(FormTypeValue, fs)[i] == Map(FormTypeValue, fs)[j];
  }

  /** Forms sorted by FORM_TYPE have one order of keys. */
  lemma FormKeysUnique(fs: seq<Form>, gs: seq<Form>)
    requires Sorted(fs, FormLe) && Sorted(gs, FormLe)
    requires Rearranged(Map(FormKey, fs), Map(FormKey, gs))
    requires NoRepeats(Map(FormTypeValue, fs))
    ensures Map(FormKey, fs) == Map(FormKey, gs)
  {
    var ks, ls := Map(FormKey, fs), Map(FormKey, gs);
    FormKeysSorted(fs);
    FormKeysSorted(gs);
    forall x, y | x in ks && y in ks && FormKeyLe(x, y) && FormKeyLe(y, x) ensures x == y {
      FormKeysDiffer(fs, x, y);
    }
    SortedUnique(ks, ls, FormKeyLe);
  }

  lemma FormTextsUnique(fs: seq<Form>, ts: seq<string>, gs: seq<Form>, us: seq<string>)
    requires AreFormTexts(fs, ts) && AreFormTexts(gs, us) && Map(FormKey, fs) == Map(FormKey, gs)
    requires forall f :: f in fs ==> ProperForm(f)
    ensures ts == us
  {
    assert |fs| == |Map(FormKey, fs)| == |gs|;
    forall i | 0 <= i < |ts| ensures ts[i] == us[i] {
      assert Map(FormKey, fs)[i] == Map(FormKey, gs)[i];
      assert fs[i] in fs;
      FormTextUnique(fs[i], gs[i], ts[i], us[i]);
    }
  }

  lemma FormsTextUnique(forms: seq<Form>, forms': seq<Form>, t: string, t': string)
    requires IsFormsText(forms, t) && IsFormsText(forms', t')
    requires forall i :: 0 <= i < |forms| ==> ProperForm(forms[i])
    requires NoRepeats(Map(FormTypeValue, forms))
    requires Rearranged(Map(FormBag, forms), Map(FormBag, forms'))
    ensures t == t'
  {
    KeysRearranged(forms, forms');
    var fs, ts :| Rearranged(fs, forms) && Sorted(fs, FormLe) && AreFormTexts(fs, ts) && t == Flatten(ts);
    var gs, us :| Rearranged(gs, forms') && Sorted(gs, FormLe) && AreFormTexts(gs, us) && t' == Flatten(us);
    MapRearranged(FormKey, fs, forms);
    MapRearranged(FormKey, gs, forms');
    MapRearranged(FormTypeValue, fs, forms);
    StillNoRepeats(Map(FormTypeValue, fs), Map(FormTypeValue, forms));
    RearrangedMembers(fs, forms);
    FormKeysUnique(fs, gs);
    FormTextsUnique(fs, ts, gs, us);
  }

  lemma TiedAreEqual(ids: seq<Identity>, x: Identity, y: Identity)
    requires TiesAgree(ids) && x in ids && y in ids && IdentityLe(x, y) && IdentityLe(y, x)
    ensures x == y
  {
    IdentityLeTotal(x, y);
    var i :| 0 <= i < |ids| && ids[i] == x;
    var j :| 0 <= j < |ids| && ids[j] == y;
  }

  lemma SortedIdentitiesUnique(ids: seq<Identity>, a: seq<Identity>, b: seq<Identity>)
    requires Rearranged(a, ids) && Rearranged(b, ids) && TiesAgree(ids)
    requires Sorted(a, IdentityLe) && Sorted(b, IdentityLe)
    ensures a == b
  {
    RearrangedMembers(a, ids);
    forall x, y | x in a && y in a && IdentityLe(x, y) && IdentityLe(y, x) ensures x == y {
      TiedAreEqual(ids, x, y);
    }
    SortedUnique(a, b, IdentityLe);
  }

  lemma IdentitiesTextUnique(ids: seq<Identity>, ids': seq<Identity>, t: string, t': string)
    requires IsIdentitiesText(ids, t) && IsIdentitiesText(ids', t')
    requires Rearranged(ids, ids') && TiesAgree(ids)
    ensures t == t'
  {
    var a :| Rearranged(a, ids) && Sorted(a, IdentityLe) && t == Flatten(Map(IdentityText, a));
    var b :| Rearranged(b, ids') && Sorted(b, IdentityLe) && t' == Flatten(Map(IdentityText, b));
    SortedIdentitiesUnique(ids, a, b);
  }

  /** Whatever the order in which identities, features, forms, fields and values are listed, and
      whatever order sorting gives to ties, the hashed text is the same. */
  lemma VerTextIsCanonical(ids: seq<Identity>, features: seq<string>, forms: seq<Form>, t: string,
                           ids': seq<Identity>, features': seq<string>, forms': seq<Form>, t': string)
    requires IsVerText(ids, features, forms, t) && IsVerText(ids', features', forms', t')
    requires Proper(ids, forms)
    requires Rearranged(ids, ids') && Rearranged(features, features')
    requires Rearranged(Map(FormBag, forms), Map(FormBag, forms'))
    ensures t == t'
  {
    var a, b, c :| IsIdentitiesText(ids, a) && IsFeaturesText(features, b) && IsFormsText(forms, c) && t == a + b + c;
    var a', b', c' :| IsIdentitiesText(ids', a') && IsFeaturesText(features', b') && IsFormsText(forms', c') &&
      t' == a' + b' + c';
    IdentitiesTextUnique(ids, ids', a, a');
    var s :| Rearranged(s, features) && Sorted(s, LessEq) && b == Flatten(Map(Line, s));
    var s' :| Rearranged(s', features') && Sorted(s', LessEq) && b' == Flatten(Map(Line, s'));
    SortedStringsUnique(s, s');
    FormsTextUnique(forms, forms', c, c');
  }

  /** The text computed for two listings of the same capabilities. */
  method SameText(ids: seq<Identity>, features: seq<string>, forms: seq<Form>,
                  ids': seq<Identity>, features': seq<string>, forms': seq<Form>) returns (t: string, t': string)
    requires Proper(ids, forms)
    requires Rearranged(ids, ids') && Rearranged(features, features')
    requires Rearranged(Map(FormBag, forms), Map(FormBag, forms'))
    ensures IsVerText(ids, features, forms, t) && t == t'
  {
    t := VerText(ids, features, forms);
    t' := VerText(ids', features', forms');
    VerTextIsCanonical(ids, features, forms, t, ids', features', forms', t');
  }

  // ---------------------------------------------------------------------------------------------
  // Exactly when the text is determined
  // ---------------------------------------------------------------------------------------------

  lemma NamesDecide(p: string, a: string, b: string, r: string, q: string)
    requires '<' !in a && '<' !in b && a != b
    ensures p + (a + ['<'] + r) != p + (b + ['<'] + q)
  {
    SplitHead(a, r, '<');
    SplitHead(b, q, '<');
    assert (p + (a + ['<'] + r))[|p|..] == a + ['<'] + r && (p + (b + ['<'] + q))[|p|..] == b + ['<'] + q;
    assert ([a] + Split(r, '<'))[0] == a && ([b] + Split(q, '<'))[0] == b;
  }

  function TripleText(i: Identity): string { i.category + "/" + i.kind + "/" + i.lang + "/" }

  lemma TextInFront(i: Identity, rest: string)
    ensures IdentityText(i) + rest == TripleText(i) + (i.name + ['<'] + rest)
  {
  }

  lemma {:induction false} FlattenConcat(a: seq<string>, b: seq<string>)
    ensures Flatten(a + b) == Flatten(a) + Flatten(b)
  {
    if b == [] {
      assert a + b == a;
    } else {
      assert (a + b)[..|a + b| - 1] == a + b[..|b| - 1];
      FlattenConcat(a, b[..|b| - 1]);
    }
  }

  function TextOf(ids: seq<Identity>): string { Flatten(Map(IdentityText, ids)) }

  lemma TextOfConcat(a: seq<Identity>, b: seq<Identity>)
    ensures TextOf(a + b) == TextOf(a) + TextOf(b)
  {
    assert Map(IdentityText, a + b) == Map(IdentityText, a) + Map(IdentityText, b);
    FlattenConcat(Map(IdentityText, a), Map(IdentityText, b));
  }

  lemma TextOfOne(x: Identity)
    ensures TextOf([x]) == IdentityText(x)
  {
    var ts := Map(IdentityText, [x]);
    assert ts[..0] == [] && Flatten(ts[..0]) == "";
    assert "" + ts[0] == IdentityText(x);
  }

  lemma TextOfPair(front: seq<Identity>, x: Identity, y: Identity, rest: seq<Identity>)
    ensures TextOf(front + [x, y] + rest) == TextOf(front) + (IdentityText(x) + (IdentityText(y) + TextOf(rest)))
  {
    assert front + [x, y] + rest == front + ([x] + ([y] + rest));
    TextOfConcat(front, [x] + ([y] + rest));
    TextOfConcat([x], [y] + rest);
    TextOfConcat([y], rest);
    TextOfOne(x);
    TextOfOne(y);
  }

  /** Two neighbours that differ in their names alone may be written in either order, and the texts differ. */
  lemma SwappedTextDiffers(front: seq<Identity>, x: Identity, y: Identity, rest: seq<Identity>)
    requires Triple(x) == Triple(y) && x.name != y.name && '<' !in x.name && '<' !in y.name
    ensures TextOf(front + [x, y] + rest) != TextOf(front + [y, x] + rest)
  {
    var p, r := TextOf(front), TextOf(rest);
    var q, u := IdentityText(y) + r, IdentityText(x) + r;
    TextOfPair(front, x, y, rest);
    TextOfPair(front, y, x, rest);
    TextBehind(p, x, q);
    TextBehind(p, y, u);
    NamesDecide(p + TripleText(x), x.name, y.name, q, u);
  }

  lemma TextBehind(p: string, i: Identity, rest: string)
    ensures p + (IdentityText(i) + rest) == p + TripleText(i) + (i.name + ['<'] + rest)
  {
    TextInFront(i, rest);
    assert p + (TripleText(i) + (i.name + ['<'] + rest)) == p + TripleText(i) + (i.name + ['<'] + rest);
  }

  lemma SwappedStillSorted(front: seq<Identity>, x: Identity, y: Identity, rest: seq<Identity>)
    requires Triple(x) == Triple(y) && Sorted(front + [x, y] + rest, IdentityLe)
    ensures Sorted(front + [y, x] + rest, IdentityLe) && Rearranged(front + [y, x] + rest, front + [x, y] + rest)
  {
    var a, b, n := front + [x, y] + rest, front + [y, x] + rest, |front|;
    assert forall i :: 0 <= i < |b| ==> Triple(b[i]) == Triple(a[i]);
    LessTotal(x.lang, y.lang);
    assert multiset([x, y]) == multiset([y, x]);
  }

  /** In sorted order two tied identities of different names have two such neighbours between them. */
  lemma {:induction false} TiedNeighbours(a: seq<Identity>, i: nat, j: nat) returns (k: nat)
    requires Sorted(a, IdentityLe) && i < j < |a| && Triple(a[i]) == Triple(a[j]) && a[i].name != a[j].name
    ensures i <= k < j && Triple(a[k]) == Triple(a[k + 1]) && a[k].name != a[k + 1].name
    decreases j - i
  {
    assert IdentityLe(a[i], a[i + 1]) && (i + 1 < j ==> IdentityLe(a[i + 1], a[j]));
    IdentityLeTotal(a[i], a[i + 1]);
    if a[i].name != a[i + 1].name {
      k := i;
    } else {
      k := TiedNeighbours(a, i + 1, j);
    }
  }

  lemma TiesAgreeRearranged(a: seq<Identity>, ids: seq<Identity>)
    requires Rearranged(a, ids)
    ensures TiesAgree(ids) <==> forall x, y :: x in a && y in a && Triple(x) == Triple(y) ==> x.name == y.name
  {
    RearrangedMembers(a, ids);
    if TiesAgree(ids) {
      forall x, y | x in a && y in a && Triple(x) == Triple(y) ensures x.name == y.name {
        var i :| 0 <= i < |ids| && ids[i] == x;
        var j :| 0 <= j < |ids| && ids[j] == y;
      }
    } else {
      var i, j :| 0 <= i < j < |ids| && Triple(ids[i]) == Triple(ids[j]) && ids[i].name != ids[j].name;
      assert ids[i] in a && ids[j] in a;
    }
  }

  lemma TiedPair(ids: seq<Identity>, a: seq<Identity>) returns (k: nat)
    requires Rearranged(a, ids) && Sorted(a, IdentityLe) && !TiesAgree(ids)
    ensures k + 1 < |a| && Triple(a[k]) == Triple(a[k + 1]) && a[k].name != a[k + 1].name
  {
    TiesAgreeRearranged(a, ids);
    var x, y :| x in a && y in a && Triple(x) == Triple(y) && x.name != y.name;
    var i :| 0 <= i < |a| && a[i] == x;
    var j :| 0 <= j < |a| && a[j] == y;
    k := TiedNeighbours(a, if i < j then i else j, if i < j then j else i);
  }

  lemma Around(a: seq<Identity>, k: nat)
    requires k + 1 < |a|
    ensures a == a[..k] + [a[k], a[k + 1]] + a[k + 2..]
  {
  }

  lemma AnotherText(ids: seq<Identity>, a: seq<Identity>) returns (b: seq<Identity>)
    requires Rearranged(a, ids) && Sorted(a, IdentityLe) && !TiesAgree(ids)
    requires forall x :: x in ids ==> '<' !in x.name
    ensures Rearranged(b, ids) && Sorted(b, IdentityLe) && TextOf(b) != TextOf(a)
  {
    RearrangedMembers(a, ids);
    var k := TiedPair(ids, a);
    var x, y, front, rest := a[k], a[k + 1], a[..k], a[k + 2..];
    assert x in a && y in a;
    Around(a, k);
    b := front + [y, x] + rest;
    SwappedStillSorted(front, x, y, rest);
    SwappedTextDiffers(front, x, y, rest);
  }

  /** For names without the separator, the identity part is determined if and only if no two identities
      agree in all but their names. */
  lemma IdentitiesTextExact(ids: seq<Identity>, t: string)
    requires IsIdentitiesText(ids, t) && forall x :: x in ids ==> '<' !in x.name
    ensures (forall t' :: IsIdentitiesText(ids, t') ==> t' == t) <==> TiesAgree(ids)
  {
    if TiesAgree(ids) {
      forall t' | IsIdentitiesText(ids, t') ensures t' == t { IdentitiesTextUnique(ids, ids, t, t'); }
    } else {
      var a :| Rearranged(a, ids) && Sorted(a, IdentityLe) && t == TextOf(a);
      var b := AnotherText(ids, a);
      assert IsIdentitiesText(ids, TextOf(b));
    }
  }

  /** The same of the whole text: with proper forms, it is determined if and only if the ties agree. */
  lemma VerTextExact(ids: seq<Identity>, features: seq<string>, forms: seq<Form>, t: string)
    requires IsVerText(ids, features, forms, t) && Proper([], forms)
    requires forall x :: x in ids ==> '<' !in x.name
    ensures (forall t' :: IsVerText(ids, features, forms, t') ==> t' == t) <==> TiesAgree(ids)
  {
    if TiesAgree(ids) {
      forall t' | IsVerText(ids, features, forms, t') ensures t' == t {
        VerTextIsCanonical(ids, features, forms, t, ids, features, forms, t');
      }
    } else {
      var t' := AnotherVerText(ids, features, forms, t);
    }
  }

  lemma AnotherVerText(ids: seq<Identity>, features: seq<string>, forms: seq<Form>, t: string) returns (t': string)
    requires IsVerText(ids, features, forms, t) && !TiesAgree(ids)
    requires forall x :: x in ids ==> '<' !in x.name
    ensures IsVerText(ids, features, forms, t') && t' != t
  {
    var a, b, c :| IsIdentitiesText(ids, a) && IsFeaturesText(features, b) && IsFormsText(forms, c) && t == a + b + c;
    var a' := AnotherPart(ids, a);
    PartsMakeText(ids, features, forms, a', b, c);
    DifferentHeads(a, a', b, c);
    t' := a' + b + c;
  }

  lemma AnotherPart(ids: seq<Identity>, a: string) returns (a': string)
    requires IsIdentitiesText(ids, a) && !TiesAgree(ids) && forall x :: x in ids ==> '<' !in x.name
    ensures IsIdentitiesText(ids, a') && a' != a
  {
    IdentitiesTextExact(ids, a);
    a' :| IsIdentitiesText(ids, a') && a' != a;
  }

  lemma PartsMakeText(ids: seq<Identity>, features: seq<string>, forms: seq<Form>, a: string, b: string, c: string)
    requires IsIdentitiesText(ids, a) && IsFeaturesText(features, b) && IsFormsText(forms, c)
    ensures IsVerText(ids, features, forms, a + b + c)
  {
  }

  lemma DifferentHeads(a: string, a': string, b: string, c: string)
    requires a != a'
    ensures a + b + c != a' + b + c
  {
    SameTail(a, a', b + c);
    assert a + (b + c) == a + b + c && a' + (b + c) == a' + b + c;
  }

  lemma SameTail(a: string, b: string, c: string)
    ensures a + c == b + c ==> a == b
  {
    if a + c == b + c {
      assert |a| == |b|;
      assert (a + c)[..|a|] == a && (b + c)[..|b|] == b;
    }
  }

  // ---------------------------------------------------------------------------------------------
  // Validation of forms
  // ---------------------------------------------------------------------------------------------

  datatype Verdict = Valid | NotHidden | BadValue | NotFound | Repeated

  function FormTypeFields(fields: seq<Field>): seq<Field> {
    if fields == [] then []
    else FormTypeFields(fields[..|fields| - 1]) +
         if fields[|fields| - 1].fvar == FORM_TYPE then [fields[|fields| - 1]] else []
  }

  function AllFormTypes(forms: seq<Form>): seq<Field> {
    if forms == [] then [] else AllFormTypes(forms[..|forms| - 1]) + FormTypeFields(forms[|forms| - 1].fields)
  }

  predicate Hidden1(f: Field) { f.hidden && |f.values| == 1 }

  function FirstValue(f: Field): string { if |f.values| > 0 then f.values[0] else "" }

  /** `counts` holds how often each string of `xs` occurs there. */
  ghost predicate Tally(counts: map<string, nat>, xs: seq<string>) {
    && (forall x :: x in counts <==> x in xs)
    && (forall x :: x in counts ==> counts[x] == multiset(xs)[x])
  }

  lemma TallyOneMore(counts: map<string, nat>, xs: seq<string>, x: string)
    requires Tally(counts, xs)
    ensures Tally(counts[x := (if x in counts then counts[x] else 0) + 1], xs + [x])
  {
    assert x in xs <==> x in multiset(xs);
  }

  lemma {:induction false} KeysOfCounts(s: seq<string>, counts: map<string, nat>)
    requires Tally(counts, s)
    ensures |counts| <= |s|
    ensures |counts| == |s| <==> NoRepeats(s)
    ensures NoRepeats(s) <==> forall x :: x in counts ==> counts[x] <= 1
  {
    NoRepeatsCount(s);
    assert forall x :: x in s <==> multiset(s)[x] > 0;
    assert counts.Keys == (set x | x in s);
    SetOfSeq(s);
    assert |counts| == |counts.Keys|;
  }

  lemma {:induction false} SetOfSeq(s: seq<string>)
    ensures |set x | x in s| <= |s|
    ensures |set x | x in s| == |s| <==> NoRepeats(s)
  {
    if s != [] {
      var front, last := s[..|s| - 1], s[|s| - 1];
      SetOfSeq(front);
      assert s == front + [last];
      var a, b := set x | x in front, set x | x in s;
      assert b == a + {last};
      if last in front {
        assert b == a;
        var i :| 0 <= i < |front| && front[i] == last;
        assert s[i] == s[|s| - 1];
      } else {
        assert |b| == |a| + 1;
        assert forall i :: 0 <= i < |front| ==> s[i] in front;
        assert NoRepeats(front) <==> NoRepeats(s) by {
          if NoRepeats(s) {
            forall i, j | 0 <= i < j < |front| ensures front[i] != front[j] { assert s[i] != s[j]; }
          }
        }
      }
    }
  }

  // The scan of one form: stops at a FORM_TYPE field that is not hidden or has not exactly one value.
  method CountFormTypes(fields: seq<Field>, counts0: map<string, nat>, ghost seen: seq<Field>)
    returns (v: Verdict, counts: map<string, nat>, ghost found: seq<Field>)
    requires Tally(counts0, Map(FirstValue, seen)) && forall f :: f in seen ==> Hidden1(f)
    ensures v.Valid? ==> found == seen + FormTypeFields(fields) && Tally(counts, Map(FirstValue, found))
    ensures v.Valid? ==> forall f :: f in found ==> Hidden1(f)
    ensures !v.Valid? ==> exists j :: 0 <= j < |fields| && fields[j].fvar == FORM_TYPE && !Hidden1(fields[j])
  {
    counts, found := counts0, seen;
    for j := 0 to |fields|
      invariant found == seen + FormTypeFields(fields[..j])
      invariant forall f :: f in found ==> Hidden1(f)
      invariant Tally(counts, Map(FirstValue, found))
    {
      var f := fields[j];
      assert fields[..j + 1][..j] == fields[..j];
      if f.fvar == FORM_TYPE {
        if !f.hidden { return NotHidden, counts, found; }
        if |f.values| != 1 { return BadValue, counts, found; }
        TallyOneMore(counts, Map(FirstValue, found), f.values[0]);
        assert Map(FirstValue, found + [f]) == Map(FirstValue, found) + [f.values[0]];
        counts := counts[f.values[0] := (if f.values[0] in counts then counts[f.values[0]] else 0) + 1];
        found := found + [f];
      }
    }
    assert fields[..|fields|] == fields;
    v := Valid;
  }

  ghost predicate FormsPass(forms: seq<Form>) {
    && (forall f :: f in AllFormTypes(forms) ==> Hidden1(f))
    && |AllFormTypes(forms)| == |forms|
    && NoRepeats(Map(FirstValue, AllFormTypes(forms)))
  }

  /** Forms pass exactly when every FORM_TYPE field is hidden with one value, there are as many of
      them as forms, and their values differ. (Nothing ties them to one per form.) */
  method ValidateForms(forms: seq<Form>) returns (v: Verdict)
    ensures v.Valid? <==> FormsPass(forms)
  {
    var counts: map<string, nat> := map[];
    ghost var seen: seq<Field> := [];
    for i := 0 to |forms|
      invariant seen == AllFormTypes(forms[..i])
      invariant forall f :: f in seen ==> Hidden1(f)
      invariant Tally(counts, Map(FirstValue, seen))
    {
      ghost var found;
      v, counts, found := CountFormTypes(forms[i].fields, counts, seen);
      assert forms[..i + 1][..i] == forms[..i];
      if !v.Valid? {
        var j :| 0 <= j < |forms[i].fields| && forms[i].fields[j].fvar == FORM_TYPE && !Hidden1(forms[i].fields[j]);
        FoundBad(forms, i, j);
        return;
      }
      seen := found;
    }
    assert forms[..|forms|] == forms;
    KeysOfCounts(Map(FirstValue, seen), counts);
    if |counts| != |forms| {
      return NotFound;
    }
    if exists x :: x in counts && counts[x] > 1 {
      return Repeated;
    }
    v := Valid;
  }

  lemma {:induction false} FormTypeFieldsHas(fields: seq<Field>, f: Field)
    requires f in fields && f.fvar == FORM_TYPE
    ensures f in FormTypeFields(fields)
  {
    var front, last := fields[..|fields| - 1], fields[|fields| - 1];
    assert fields == front + [last];
    if f != last { FormTypeFieldsHas(front, f); }
  }

  lemma {:induction false} FoundBad(forms: seq<Form>, i: nat, j: nat)
    requires i < |forms| && j < |forms[i].fields| && forms[i].fields[j].fvar == FORM_TYPE
    ensures forms[i].fields[j] in AllFormTypes(forms)
  {
    if i == |forms| - 1 {
      FormTypeFieldsHas(forms[i].fields, forms[i].fields[j]);
    } else {
      FoundBad(forms[..|forms| - 1], i, j);
    }
  }

  /** Passing validation does not give each form its own FORM_TYPE: one form may hold two, another none. */
  lemma ValidatedFormWithoutType()
    ensures var two := Form([Field(FORM_TYPE, true, ["a"]), Field(FORM_TYPE, true, ["b"])]);
            var forms := [two, Form([])];
            FormsPass(forms) && FirstFormType(forms[1].fields) == None
  {
    var p, q := Field(FORM_TYPE, true, ["a"]), Field(FORM_TYPE, true, ["b"]);
    FormTypesOfTwo(Form([p, q]), Form([]));
    TwoFormTypes(p, q);
    assert Map(FirstValue, [p, q]) == ["a", "b"];
    assert "a" != "b" by { assert "a"[0] == 'a' && "b"[0] == 'b'; }
  }

  ghost predicate OneEach(forms: seq<Form>) {
    forall i :: 0 <= i < |forms| ==> |FormTypeFields(forms[i].fields)| == 1
  }

  ghost predicate NoneTwice(forms: seq<Form>) {
    forall i :: 0 <= i < |forms| ==> |FormTypeFields(forms[i].fields)| <= 1
  }

  lemma {:induction false} FewTypes(forms: seq<Form>)
    requires NoneTwice(forms)
    ensures |AllFormTypes(forms)| <= |forms|
    ensures |AllFormTypes(forms)| == |forms| <==> OneEach(forms)
  {
    if forms != [] {
      var front, last := forms[..|forms| - 1], forms[|forms| - 1];
      FewTypes(front);
      assert forms == front + [last];
    }
  }

  /** With as many FORM_TYPE fields as forms, which validation tests, each form has exactly one if and only
      if none has two. */
  lemma OneTypeEach(forms: seq<Form>)
    requires |AllFormTypes(forms)| == |forms|
    ensures OneEach(forms) <==> NoneTwice(forms)
  {
    if NoneTwice(forms) { FewTypes(forms); }
  }

  lemma {:induction false} TypesInOrder(forms: seq<Form>, i: nat)
    requires OneEach(forms) && i < |forms|
    ensures |AllFormTypes(forms)| == |forms| && AllFormTypes(forms)[i] == FormTypeFields(forms[i].fields)[0]
  {
    FewTypes(forms);
    var front, last := forms[..|forms| - 1], forms[|forms| - 1];
    FewTypes(front);
    if i < |front| { TypesInOrder(front, i); }
  }

  lemma {:induction false} FormTypeFieldsAre(fields: seq<Field>)
    ensures forall f :: f in FormTypeFields(fields) ==> f in fields && f.fvar == FORM_TYPE
  {
    if fields != [] {
      FormTypeFieldsAre(fields[..|fields| - 1]);
      assert fields == fields[..|fields| - 1] + [fields[|fields| - 1]];
    }
  }

  /** Distinct names leave room for one FORM_TYPE only. */
  lemma {:induction false} DistinctNamesOneType(fields: seq<Field>)
    requires NoRepeats(Map(VarOf, fields))
    ensures |FormTypeFields(fields)| <= 1
  {
    if fields != [] {
      var front, last := fields[..|fields| - 1], fields[|fields| - 1];
      forall i, j | 0 <= i < j < |front| ensures Map(VarOf, front)[i] != Map(VarOf, front)[j] {
        assert Map(VarOf, fields)[i] != Map(VarOf, fields)[j];
      }
      DistinctNamesOneType(front);
      FormTypeFieldsAre(front);
      forall i | 0 <= i < |front| ensures front[i].fvar != last.fvar {
        assert Map(VarOf, fields)[i] != Map(VarOf, fields)[|front|];
      }
      assert FormTypeFields(front) != [] ==> FormTypeFields(front)[0] in FormTypeFields(front);
    }
  }

  lemma FormIsProper(form: Form)
    requires NoRepeats(Map(VarOf, form.fields)) && |FormTypeFields(form.fields)| == 1
    requires Hidden1(FormTypeFields(form.fields)[0])
    ensures ProperForm(form) && FormTypeValue(form) == FirstValue(FormTypeFields(form.fields)[0])
  {
    var f := FormTypeFields(form.fields)[0];
    FormTypeFieldsAre(form.fields);
    assert f in FormTypeFields(form.fields);
    var i :| 0 <= i < |form.fields| && form.fields[i] == f;
    assert ProperForm(form);
    var ft := OneFormType(form);
  }

  lemma ValidatedForm(forms: seq<Form>, i: nat)
    requires FormsPass(forms) && OneEach(forms) && i < |forms| && NoRepeats(Map(VarOf, forms[i].fields))
    ensures ProperForm(forms[i]) && FormTypeValue(forms[i]) == Map(FirstValue, AllFormTypes(forms))[i]
  {
    TypesInOrder(forms, i);
    assert AllFormTypes(forms)[i] in AllFormTypes(forms);
    FormIsProper(forms[i]);
  }

  /** Forms that pass validation meet what the text needs if and only if the fields of each have distinct
      names and tied identities agree. */
  lemma ValidatedIsProper(ids: seq<Identity>, forms: seq<Form>)
    requires FormsPass(forms)
    ensures Proper(ids, forms) <==>
            TiesAgree(ids) && forall i :: 0 <= i < |forms| ==> NoRepeats(Map(VarOf, forms[i].fields))
  {
    if forall i :: 0 <= i < |forms| ==> NoRepeats(Map(VarOf, forms[i].fields)) {
      forall i | 0 <= i < |forms| ensures |FormTypeFields(forms[i].fields)| <= 1 {
        DistinctNamesOneType(forms[i].fields);
      }
      OneTypeEach(forms);
      forall i | 0 <= i < |forms|
        ensures ProperForm(forms[i]) && FormTypeValue(forms[i]) == Map(FirstValue, AllFormTypes(forms))[i]
      {
        ValidatedForm(forms, i);
      }
      assert Map(FormTypeValue, forms) == Map(FirstValue, AllFormTypes(forms));
    }
  }

  /** So validated listings with distinct field names have one text, in whatever order they are listed. */
  method ValidatedText(ids: seq<Identity>, features: seq<string>, forms: seq<Form>,
                       ids': seq<Identity>, features': seq<string>, forms': seq<Form>)
    returns (v: Verdict, t: string, t': string)
    requires TiesAgree(ids) && forall i :: 0 <= i < |forms| ==> NoRepeats(Map(VarOf, forms[i].fields))
    requires Rearranged(ids, ids') && Rearranged(features, features')
    requires Rearranged(Map(FormBag, forms), Map(FormBag, forms'))
    ensures v.Valid? <==> FormsPass(forms)
    ensures v.Valid? ==> IsVerText(ids, features, forms, t) && t == t'
  {
    t, t' := "", "";
    v := ValidateForms(forms);
    if v.Valid? {
      ValidatedIsProper(ids, forms);
      t, t' := SameText(ids, features, forms, ids', features', forms');
    }
  }

  lemma TwoFormTypes(p: Field, q: Field)
    requires p.fvar == FORM_TYPE && q.fvar == FORM_TYPE
    ensures FormTypeFields([p, q]) == [p, q]
  {
    assert [p, q][..1] == [p] && [p][..0] == [];
    assert FormTypeFields([p]) == [p];
  }

  lemma FormTypesOfTwo(f: Form, g: Form)
    ensures AllFormTypes([f, g]) == FormTypeFields(f.fields) + FormTypeFields(g.fields)
  {
    assert [f, g][..1] == [f] && [f][..0] == [];
    assert AllFormTypes([f]) == FormTypeFields(f.fields);
  }
}
