/** The text of entity capabilities spelled out: which of two identities comes first, and the two listings
    that sections 5.2 and 5.3 of XEP-0115 work through. */
module CapabilityListings {
  import opened Options
  import opened Text
  import opened Sequences
  import opened Capabilities

  // ---------------------------------------------------------------------------------------------
  // Two identities
  // ---------------------------------------------------------------------------------------------

  /** By category, then by type, then by language. */
  predicate ComesFirst(a: Identity, b: Identity) {
    || Less(a.category, b.category)
    || (a.category == b.category && Less(a.kind, b.kind))
    || (a.category == b.category && a.kind == b.kind && Less(a.lang, b.lang))
  }

  /** However two identities are listed, the text has the one that comes first in front, and of each identity
      the category, type, language and name. */
  lemma TwoIdentities(a: Identity, b: Identity, t: string)
    requires ComesFirst(a, b) && (IsIdentitiesText([a, b], t) || IsIdentitiesText([b, a], t))
    ensures t == Join([a.category, a.kind, a.lang, a.name], '/') + "<" +
                 Join([b.category, b.kind, b.lang, b.name], '/') + "<"
  {
    SlashedIs(a);
    SlashedIs(b);
    FirstIsLess(a, b);
    TwoRearranged(a, b);
    var ids := if IsIdentitiesText([a, b], t) then [a, b] else [b, a];
    IdentitiesTextIs(ids, a, b, t);
    assert Map(IdentityText, [a, b]) == [IdentityText(a), IdentityText(b)];
    FlattenTwo(IdentityText(a), IdentityText(b));
  }

  lemma IdentitiesTextIs(ids: seq<Identity>, a: Identity, b: Identity, t: string)
    requires IsIdentitiesText(ids, t) && Rearranged([a, b], ids) && IdentityLe(a, b) && !IdentityLe(b, a)
    ensures t == Flatten(Map(IdentityText, [a, b]))
  {
    var s :| Rearranged(s, ids) && Sorted(s, IdentityLe) && t == Flatten(Map(IdentityText, s));
    RearrangedMembers([a, b], s);
    SortedUnique([a, b], s, IdentityLe);
  }

  lemma FirstIsLess(a: Identity, b: Identity)
    requires ComesFirst(a, b)
    ensures IdentityLe(a, b) && !IdentityLe(b, a)
  {
    LessTotal(a.category, b.category);
    LessTotal(a.kind, b.kind);
    LessTotal(a.lang, b.lang);
  }

  lemma FlattenOne(x: string)
    ensures Flatten([x]) == x
  {
    assert [x][..0] == [] && "" + x == x;
  }

  lemma FlattenTwo(x: string, y: string)
    ensures Flatten([x, y]) == x + y
  {
    assert [x, y][..1] == [x];
    FlattenOne(x);
  }

  lemma SlashedIs(i: Identity)
    ensures Join([i.category, i.kind, i.lang, i.name], '/') + "<" == IdentityText(i)
  {
    var parts := [i.category, i.kind, i.lang, i.name];
    assert parts[1..] == [i.kind, i.lang, i.name] && parts[1..][1..] == [i.lang, i.name];
    assert parts[1..][1..][1..] == [i.name];
    assert Join(parts[1..][1..], '/') == i.lang + "/" + i.name;
    assert Join(parts[1..], '/') == i.kind + "/" + (i.lang + "/" + i.name);
  }

  // ---------------------------------------------------------------------------------------------
  // The simple listing
  // ---------------------------------------------------------------------------------------------

  /** The four features of both listings; p is "http://jabber.org/protocol/" there. */
  function Features(p: string): seq<string> { [p + "disco#info", p + "disco#items", p + "muc", p + "caps"] }

  function FeaturesWritten(p: string): string {
    (p + "caps") + "<" + (p + "disco#info") + "<" + (p + "disco#items") + "<" + (p + "muc") + "<"
  }

  lemma {:induction false} LessBehind(p: string, a: string, b: string)
    ensures Less(p + a, p + b) <==> Less(a, b)
  {
    if p == "" {
      assert "" + a == a && "" + b == b;
    } else {
      assert (p + a)[1..] == p[1..] + a && (p + b)[1..] == p[1..] + b;
      LessBehind(p[1..], a, b);
    }
  }

  lemma LinesOfFour(a: string, b: string, c: string, d: string)
    ensures Flatten(Map(Line, [a, b, c, d])) == a + "<" + b + "<" + c + "<" + d + "<"
  {
    var ts := Map(Line, [a, b, c, d]);
    assert ts == [a + "<", b + "<", c + "<", d + "<"];
    assert ts[..3] == [a + "<", b + "<", c + "<"] && ts[..3][..2] == [a + "<", b + "<"];
    FlattenTwo(a + "<", b + "<");
    assert Flatten(ts[..3]) == Flatten(ts[..3][..2]) + ts[2];
  }

  lemma NamesInOrder()
    ensures Less("caps", "disco#info") && Less("disco#info", "disco#items") && Less("disco#items", "muc")
  {
    assert "disco#i" + "nfo" == "disco#info" && "disco#i" + "tems" == "disco#items";
    LessBehind("disco#i", "nfo", "tems");
  }

  lemma FeaturesText(p: string, t: string)
    requires IsFeaturesText(Features(p), t)
    ensures t == FeaturesWritten(p)
  {
    var a, b, c, d := p + "caps", p + "disco#info", p + "disco#items", p + "muc";
    NamesInOrder();
    LessBehind(p, "caps", "disco#info");
    LessBehind(p, "disco#info", "disco#items");
    LessBehind(p, "disco#items", "muc");
    FourFeatures(a, b, c, d, t);
  }

  lemma FourFeatures(a: string, b: string, c: string, d: string, t: string)
    requires Less(a, b) && Less(b, c) && Less(c, d) && IsFeaturesText([b, c, d, a], t)
    ensures t == a + "<" + b + "<" + c + "<" + d + "<"
  {
    FourInOrder(a, b, c, d);
    FourRearranged(a, b, c, d);
    FeaturesTextIs([b, c, d, a], [a, b, c, d], t);
    LinesOfFour(a, b, c, d);
  }

  lemma FourRearranged<T>(a: T, b: T, c: T, d: T)
    ensures Rearranged([a, b, c, d], [b, c, d, a])
  {
    assert [a] + [b, c, d] == [a, b, c, d] && [b, c, d] + [a] == [b, c, d, a];
  }

  lemma FeaturesTextIs(features: seq<string>, sorted: seq<string>, t: string)
    requires IsFeaturesText(features, t) && Rearranged(sorted, features) && Sorted(sorted, LessEq)
    ensures t == Flatten(Map(Line, sorted))
  {
    var s :| Rearranged(s, features) && Sorted(s, LessEq) && t == Flatten(Map(Line, s));
    SortedStringsUnique(s, sorted);
  }

  lemma FourInOrder(a: string, b: string, c: string, d: string)
    requires Less(a, b) && Less(b, c) && Less(c, d)
    ensures Sorted([a, b, c, d], LessEq)
  {
    LessTrans(a, b, c);
    LessTrans(b, c, d);
    LessTrans(a, b, d);
    LessTotal(a, b);
    LessTotal(a, c);
    LessTotal(a, d);
    LessTotal(b, c);
    LessTotal(b, d);
    LessTotal(c, d);
  }

  /** Section 5.2: one identity without a language, four features, no forms. */
  lemma SimpleListing(p: string, client: string, t: string)
    requires IsVerText([Identity("client", "pc", "", client)], Features(p), [], t)
    ensures t == "client/pc//" + client + "<" + FeaturesWritten(p)
  {
    var i := Identity("client", "pc", "", client);
    var a, b, c :| IsIdentitiesText([i], a) && IsFeaturesText(Features(p), b) && IsFormsText([], c) && t == a + b + c;
    FeaturesText(p, b);
    OneIdentity(i, a);
    ClientText(client);
    NoForms(c);
    assert a + b + "" == a + b;
  }

  lemma ClientText(client: string)
    ensures IdentityText(Identity("client", "pc", "", client)) == "client/pc//" + client + "<"
  {
    assert "client" + "/" + "pc" + "/" + "" + "/" == "client/pc//";
  }

  lemma OneIdentity(i: Identity, t: string)
    requires IsIdentitiesText([i], t)
    ensures t == IdentityText(i)
  {
    var s :| Rearranged(s, [i]) && Sorted(s, IdentityLe) && t == Flatten(Map(IdentityText, s));
    OnlyOne(s, i);
    assert Map(IdentityText, s) == [IdentityText(i)];
    FlattenOne(IdentityText(i));
  }

  lemma NoForms(t: string)
    requires IsFormsText([], t)
    ensures t == ""
  {
    var fs, ts :| Rearranged(fs, []) && Sorted(fs, FormLe) && AreFormTexts(fs, ts) && t == Flatten(ts);
    assert |multiset(fs)| == 0;
  }

  lemma OnlyOne<T>(s: seq<T>, x: T)
    requires Rearranged(s, [x])
    ensures s == [x]
  {
    assert |multiset(s)| == |s| == 1;
    assert s[0] in multiset(s);
  }

  // ---------------------------------------------------------------------------------------------
  // The listing with a form
  // ---------------------------------------------------------------------------------------------

  /** A form in the manner of section 5.3: its type, a field with two values and one with a single value, listed
      from back to front. */
  function Reversed(typ: string, x: string, v: string, w: string, y: string, u: string): Form {
    Form([Field(y, false, [u]), Field(x, false, [w, v]), Field(FORM_TYPE, true, [typ])])
  }

  lemma TwoFieldsText(typ: string, x: string, v: string, w: string, y: string, u: string, t: string)
    requires Less(x, y) && Less(v, w) && x != FORM_TYPE && y != FORM_TYPE
    requires IsFormText(Reversed(typ, x, v, w, y, u), t)
    ensures t == typ + "<" + ((x + "<" + (v + "<" + w + "<")) + (y + "<" + (u + "<")))
  {
    var form := Reversed(typ, x, v, w, y, u);
    var f, g := Field(x, false, [w, v]), Field(y, false, [u]);
    LessTotal(x, y);
    ReversedIs(form, g, f, Field(FORM_TYPE, true, [typ]));
    TwoValues(x, v, w);
    OneValue(y, u);
    FormOfTwo(form, f, g, x + "<" + (v + "<" + w + "<"), y + "<" + (u + "<"), t);
  }

  lemma FormOfTwo(form: Form, f: Field, g: Field, tf: string, tg: string, t: string)
    requires Others(form.fields) == [g, f] && ProperForm(form) && LessEq(f.fvar, g.fvar)
    requires IsFieldText(f, tf) && IsFieldText(g, tg) && IsFormText(form, t)
    ensures t == FormTypeValue(form) + "<" + (tf + tg)
  {
    TwoRearranged(f, g);
    TwoTexts(f, g, tf, tg);
    FlattenTwo(tf, tg);
    var t' := Line(FormTypeValue(form)) + (tf + tg);
    WrittenInOrder(form, [f, g], [tf, tg]);
    FormTextUnique(form, form, t, t');
  }

  lemma TwoRearranged<T>(x: T, y: T)
    ensures Rearranged([x, y], [y, x])
  {
    assert multiset([x, y]) == multiset([y, x]);
  }

  lemma TwoTexts(f: Field, g: Field, tf: string, tg: string)
    requires LessEq(f.fvar, g.fvar) && IsFieldText(f, tf) && IsFieldText(g, tg)
    ensures Sorted([f, g], FieldLe) && AreFieldTexts([f, g], [tf, tg])
  {
  }

  lemma WrittenInOrder(form: Form, fs: seq<Field>, ts: seq<string>)
    requires Rearranged(fs, Others(form.fields)) && Sorted(fs, FieldLe) && AreFieldTexts(fs, ts)
    ensures IsFormText(form, Line(FormTypeValue(form)) + Flatten(ts))
  {
  }

  lemma ReversedIs(form: Form, a: Field, b: Field, c: Field)
    requires form.fields == [a, b, c] && c.fvar == FORM_TYPE && |c.values| == 1
    requires a.fvar != FORM_TYPE && b.fvar != FORM_TYPE && a.fvar != b.fvar
    ensures Others(form.fields) == [a, b] && FormTypeValue(form) == c.values[0] && ProperForm(form)
  {
    assert [a, b, c][..2] == [a, b] && [a, b][..1] == [a] && [a][..0] == [];
    assert Others([a]) == [a];
    assert Others([a, b]) == [a, b];
    assert [a, b, c][1..] == [b, c] && [b, c][1..] == [c];
    assert FirstFormType([b, c]) == FirstFormType([c]) == Some(c);
    assert Map(VarOf, form.fields) == [a.fvar, b.fvar, FORM_TYPE];
    assert form.fields[2].fvar == FORM_TYPE;
  }

  lemma TwoValues(x: string, v: string, w: string)
    requires Less(v, w)
    ensures IsFieldText(Field(x, false, [w, v]), x + "<" + (v + "<" + w + "<"))
  {
    LessTotal(v, w);
    TwoRearranged(v, w);
    assert Map(Line, [v, w]) == [v + "<", w + "<"];
    FlattenTwo(v + "<", w + "<");
    assert Sorted([v, w], LessEq);
    assert v + "<" + (w + "<") == v + "<" + w + "<";
    assert x + "<" + (v + "<" + w + "<") == Line(x) + Flatten(Map(Line, [v, w]));
  }

  lemma OneValue(y: string, u: string)
    ensures IsFieldText(Field(y, false, [u]), y + "<" + (u + "<"))
  {
    assert Map(Line, [u]) == [u + "<"];
    FlattenOne(u + "<");
    assert Sorted([u], LessEq);
    assert Rearranged([u], Field(y, false, [u]).values);
  }
}
