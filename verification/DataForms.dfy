/** Data forms (XEP-0004) and their XML representation, with field validation (XEP-0122). */
module DataForms {
  import opened Options
  import opened Sequences

  /** Element names; the ones of a form, and any other. */
  datatype Tag = TX | TTitle | TInstructions | TReported | TItem | TField | TRequired | TDesc | TValue | TOption |
                 TValidate | TOpen | TBasic | TRange | TRegex | TOther(text: string)

  datatype Elem = Elem(name: Tag, attrs: map<string, string>, text: string, children: seq<Elem>)

  const XMLNS := "xmlns"
  const FORM_NS := "jabber:x:data"
  const VALIDATE_NS := "http://jabber.org/protocol/xdata-validate"

  function Attr(e: Elem, label_: string): string { if label_ in e.attrs then e.attrs[label_] else "" }

  function Named(es: seq<Elem>, name: Tag): seq<Elem> {
    if es == [] then []
    else Named(es[..|es| - 1], name) + if es[|es| - 1].name == name then [es[|es| - 1]] else []
  }

  function Child(e: Elem, name: Tag): Option<Elem> {
    var es := Named(e.children, name);
    if es == [] then None else Some(es[0])
  }

  // ---------------------------------------------------------------------------------------------
  // Forms
  // ---------------------------------------------------------------------------------------------

  datatype Validator = NoValidator | Open | Basic | Range(min: string, max: string) | RegEx(re: string)

  datatype Validate = Validate(dataType: string, validator: Validator)

  datatype Opt = Opt(label_: string, value: string)

  datatype Field = Field(fvar: string, required: bool, typ: string, label_: string, description: string,
                         values: seq<string>, options: seq<Opt>, validate: Option<Validate>)

  datatype Form = Form(typ: string, title: string, instructions: string, fields: seq<Field>,
                       reported: seq<Field>, items: seq<seq<Field>>)

  predicate IsValidFormType(t: string) { t in {"form", "submit", "cancel", "result"} }

  predicate IsValidFieldType(t: string) {
    t in {"boolean", "fixed", "hidden", "jid-multi", "jid-single", "list-multi", "list-single",
          "text-multi", "text-private", "text-single"}
  }

  predicate FieldOk(f: Field) { f.typ == "" || IsValidFieldType(f.typ) }

  predicate FieldsOk(fs: seq<Field>) { forall i :: 0 <= i < |fs| ==> FieldOk(fs[i]) }

  predicate FormOk(f: Form) {
    && IsValidFormType(f.typ) && FieldsOk(f.fields) && FieldsOk(f.reported)
    && ItemsOk(f.items)
  }

  // ---------------------------------------------------------------------------------------------
  // Encoding
  // ---------------------------------------------------------------------------------------------

  function Leaf(name: Tag, text: string): Elem { Elem(name, map[], text, []) }

  /** An attribute that is left out when empty. */
  function With(attrs: map<string, string>, label_: string, v: string): map<string, string> {
    if v == "" then attrs else attrs[label_ := v]
  }

  function When(b: bool, e: Elem): seq<Elem> { if b then [e] else [] }

  function ValidatorElems(v: Validator): seq<Elem> {
    match v
    case NoValidator => []
    case Open => [Leaf(TOpen, "")]
    case Basic => [Leaf(TBasic, "")]
    case Range(lo, hi) => [Elem(TRange, With(With(map[], "min", lo), "max", hi), "", [])]
    case RegEx(re) => [Leaf(TRegex, re)]
  }

  function ValidateElem(v: Validate): Elem {
    Elem(TValidate, map[XMLNS := VALIDATE_NS, "datatype" := v.dataType], "", ValidatorElems(v.validator))
  }

  function ValueElem(v: string): Elem { Leaf(TValue, v) }

  function OptionElem(o: Opt): Elem { Elem(TOption, With(map[], "label", o.label_), "", [Leaf(TValue, o.value)]) }

  function FieldHead(f: Field): seq<Elem> {
    When(f.required, Leaf(TRequired, "")) + When(f.description != "", Leaf(TDesc, f.description))
  }

  function FieldTail(f: Field): seq<Elem> {
    match f.validate
    case None => []
    case Some(v) => [ValidateElem(v)]
  }

  function FieldElem(f: Field): Elem {
    Elem(TField, With(With(With(map[], "type", f.typ), "label", f.label_), "var", f.fvar), "",
         FieldHead(f) + Map(ValueElem, f.values) + Map(OptionElem, f.options) + FieldTail(f))
  }

  function ItemElem(fs: seq<Field>): Elem { Elem(TItem, map[], "", Map(FieldElem, fs)) }

  function ReportedElem(fs: seq<Field>): Elem { Elem(TReported, map[], "", Map(FieldElem, fs)) }

  function FormHead(f: Form): seq<Elem> {
    When(f.title != "", Leaf(TTitle, f.title)) + When(f.instructions != "", Leaf(TInstructions, f.instructions)) +
    When(f.reported != [], ReportedElem(f.reported))
  }

  function FormElem(f: Form): Elem {
    Elem(TX, With(map[XMLNS := FORM_NS], "type", f.typ), "",
         FormHead(f) + Map(ItemElem, f.items) + Map(FieldElem, f.fields))
  }

  // ---------------------------------------------------------------------------------------------
  // Decoding
  // ---------------------------------------------------------------------------------------------

  function TextOf(e: Elem): string { e.text }

  function ChildText(e: Elem, name: Tag): string {
    match Child(e, name)
    case None => ""
    case Some(c) => c.text
  }

  function DecodeOption(e: Elem): Opt { Opt(Attr(e, "label"), ChildText(e, TValue)) }

  function DecodeValidator(e: Elem): Validator {
    if Child(e, TOpen).Some? then Open
    else if Child(e, TBasic).Some? then Basic
    else match Child(e, TRange)
      case Some(r) => Range(Attr(r, "min"), Attr(r, "max"))
      case None =>
        match Child(e, TRegex)
        case Some(r) => RegEx(r.text)
        case None => NoValidator
  }

  function FirstValidate(es: seq<Elem>): Option<Elem> {
    if es == [] then None
    else if es[0].name == TValidate && Attr(es[0], XMLNS) == VALIDATE_NS then Some(es[0])
    else FirstValidate(es[1..])
  }

  function DecodeValidate(e: Elem): Option<Validate> {
    match FirstValidate(e.children)
    case None => None
    case Some(v) => Some(Validate(Attr(v, "datatype"), DecodeValidator(v)))
  }

  function DecodeField(e: Elem): Option<Field> {
    if e.name != TField then None
    else if Attr(e, "type") != "" && !IsValidFieldType(Attr(e, "type")) then None
    else Some(Field(Attr(e, "var"), Child(e, TRequired).Some?, Attr(e, "type"), Attr(e, "label"), ChildText(e, TDesc),
                    Map(TextOf, Named(e.children, TValue)), Map(DecodeOption, Named(e.children, TOption)),
                        DecodeValidate(e)))
  }

  function DecodeAll(es: seq<Elem>): Option<seq<Field>> {
    if es == [] then Some([])
    else
      match DecodeAll(es[..|es| - 1])
      case None => None
      case Some(fs) =>
        match DecodeField(es[|es| - 1])
        case None => None
        case Some(f) => Some(fs + [f])
  }

  function DecodeFields(e: Elem): Option<seq<Field>> { DecodeAll(Named(e.children, TField)) }

  function DecodeItems(es: seq<Elem>): Option<seq<seq<Field>>> {
    if es == [] then Some([])
    else
      match DecodeItems(es[..|es| - 1])
      case None => None
      case Some(items) =>
        match DecodeFields(es[|es| - 1])
        case None => None
        case Some(fs) => Some(items + [fs])
  }

  function DecodeForm(e: Elem): Option<Form> {
    if e.name != TX || Attr(e, XMLNS) != FORM_NS || !IsValidFormType(Attr(e, "type")) then None
    else
      var reported := match Child(e, TReported) case None => Some([]) case Some(r) => DecodeFields(r);
      var items := DecodeItems(Named(e.children, TItem));
      var fields := DecodeFields(e);
      if reported.None? || items.None? || fields.None? then None
      else Some(Form(Attr(e, "type"), ChildText(e, TTitle), ChildText(e, TInstructions), fields.value,
          reported.value, items.value))
  }

  // ---------------------------------------------------------------------------------------------
  // The types of section 3.1 and section 3.3 of XEP-0004
  // ---------------------------------------------------------------------------------------------

  datatype FieldType = Boolean | Fixed | Hidden | JidMulti | JidSingle | ListMulti | ListSingle | TextMulti |
                       TextPrivate | TextSingle

  function FieldTypeName(t: FieldType): string {
    match t
    case Boolean => "boolean"
    case Fixed => "fixed"
    case Hidden => "hidden"
    case JidMulti => "jid-multi"
    case JidSingle => "jid-single"
    case ListMulti => "list-multi"
    case ListSingle => "list-single"
    case TextMulti => "text-multi"
    case TextPrivate => "text-private"
    case TextSingle => "text-single"
  }

  /** A field element is read if and only if it names no type or one of the ten. */
  lemma FieldReadExactly(e: Elem)
    requires e.name == TField
    ensures DecodeField(e).Some? <==> Attr(e, "type") == "" || exists t :: Attr(e, "type") == FieldTypeName(t)
  {
    var typ := Attr(e, "type");
    if IsValidFieldType(typ) {
      assert typ == FieldTypeName(Boolean) || typ == FieldTypeName(Fixed) || typ == FieldTypeName(Hidden) ||
             typ == FieldTypeName(JidMulti) || typ == FieldTypeName(JidSingle) || typ == FieldTypeName(ListMulti) ||
             typ == FieldTypeName(ListSingle) || typ == FieldTypeName(TextMulti) || typ == FieldTypeName(TextPrivate) ||
             typ == FieldTypeName(TextSingle);
    }
  }

  /** A form without parts is read if and only if it has one of the four types, and then as that form. */
  lemma FormTypesExactly(typ: string)
    ensures var bare := Form(typ, "", "", [], [], []);
            DecodeForm(Elem(TX, map[XMLNS := FORM_NS, "type" := typ], "", [])) ==
            if typ == "form" || typ == "submit" || typ == "cancel" || typ == "result" then Some(bare) else None
  {
    assert "type" != XMLNS by { assert |"type"| != |XMLNS|; }
  }

  // ---------------------------------------------------------------------------------------------
  // Children by name
  // ---------------------------------------------------------------------------------------------

  lemma {:induction false} NamedConcat(a: seq<Elem>, b: seq<Elem>, name: Tag)
    ensures Named(a + b, name) == Named(a, name) + Named(b, name)
  {
    if b == [] {
      assert a + b == a;
    } else {
      assert (a + b)[..|a + b| - 1] == a + b[..|b| - 1];
      NamedConcat(a, b[..|b| - 1], name);
    }
  }

  lemma {:induction false} NamedAll(es: seq<Elem>, name: Tag)
    requires forall i :: 0 <= i < |es| ==> es[i].name == name
    ensures Named(es, name) == es
  {
    if es != [] { NamedAll(es[..|es| - 1], name); }
  }

  lemma {:induction false} NamedNone(es: seq<Elem>, name: Tag)
    requires forall i :: 0 <= i < |es| ==> es[i].name != name
    ensures Named(es, name) == []
  {
    if es != [] { NamedNone(es[..|es| - 1], name); }
  }

  // Four stretches of children in a row.
  lemma NamedFour(a: seq<Elem>, b: seq<Elem>, c: seq<Elem>, d: seq<Elem>, name: Tag)
    ensures Named(a + b + c + d, name) == Named(a, name) + Named(b, name) + Named(c, name) + Named(d, name)
  {
    NamedConcat(a + b + c, d, name);
    NamedConcat(a + b, c, name);
    NamedConcat(a, b, name);
  }

  lemma NamedWhen(b: bool, e: Elem, name: Tag)
    ensures Named(When(b, e), name) == if b && e.name == name then [e] else []
  {
    if b && e.name == name { NamedAll([e], name); } else { NamedNone(When(b, e), name); }
  }

  lemma NamedHead(f: Field, name: Tag)
    ensures Named(FieldHead(f), name) ==
            if name == TRequired && f.required then [Leaf(TRequired, "")]
            else if name == TDesc && f.description != "" then [Leaf(TDesc, f.description)]
            else []
  {
    var a, b := When(f.required, Leaf(TRequired, "")), When(f.description != "", Leaf(TDesc, f.description));
    NamedConcat(a, b, name);
    NamedWhen(f.required, Leaf(TRequired, ""), name);
    NamedWhen(f.description != "", Leaf(TDesc, f.description), name);
  }

  // ---------------------------------------------------------------------------------------------
  // Round trip of a field
  // ---------------------------------------------------------------------------------------------

  lemma ValuesNamed(vs: seq<string>, name: Tag)
    ensures Named(Map(ValueElem, vs), name) == if name == TValue then Map(ValueElem, vs) else []
  {
    if name == TValue { NamedAll(Map(ValueElem, vs), name); } else { NamedNone(Map(ValueElem, vs), name); }
  }

  lemma OptionsNamed(os: seq<Opt>, name: Tag)
    ensures Named(Map(OptionElem, os), name) == if name == TOption then Map(OptionElem, os) else []
  {
    if name == TOption { NamedAll(Map(OptionElem, os), name); } else { NamedNone(Map(OptionElem, os), name); }
  }

  lemma TailNamed(f: Field, name: Tag)
    requires name != TValidate
    ensures Named(FieldTail(f), name) == []
  {
    NamedNone(FieldTail(f), name);
  }

  /** If only one of four stretches has children of a name, they are all there are. */
  lemma OnlyStretch(a: seq<Elem>, b: seq<Elem>, c: seq<Elem>, d: seq<Elem>, name: Tag)
    ensures Named(b, name) == [] && Named(c, name) == [] && Named(d, name) == [] ==>
            Named(a + b + c + d, name) == Named(a, name)
    ensures Named(a, name) == [] && Named(c, name) == [] && Named(d, name) == [] ==>
            Named(a + b + c + d, name) == Named(b, name)
    ensures Named(a, name) == [] && Named(b, name) == [] && Named(d, name) == [] ==>
            Named(a + b + c + d, name) == Named(c, name)
  {
    NamedFour(a, b, c, d, name);
  }

  /** The children of a field's element by name; values of options are one level below. */
  lemma FieldChildren(f: Field, name: Tag)
    requires name != TValidate
    ensures name == TValue ==> Named(FieldElem(f).children, name) == Map(ValueElem, f.values)
    ensures name == TOption ==> Named(FieldElem(f).children, name) == Map(OptionElem, f.options)
    ensures name != TValue && name != TOption ==> Named(FieldElem(f).children, name) == Named(FieldHead(f), name)
  {
    HeadOther(f, name);
    ValuesNamed(f.values, name);
    OptionsNamed(f.options, name);
    TailNamed(f, name);
    OnlyStretch(FieldHead(f), Map(ValueElem, f.values), Map(OptionElem, f.options), FieldTail(f), name);
  }

  lemma HeadOther(f: Field, name: Tag)
    ensures name == TValue || name == TOption ==> Named(FieldHead(f), name) == []
  {
    if name == TValue || name == TOption { NamedNone(FieldHead(f), name); }
  }

  lemma ValuesBack(vs: seq<string>)
    ensures Map(TextOf, Map(ValueElem, vs)) == vs
  {
  }

  lemma OptionBack(o: Opt)
    ensures DecodeOption(OptionElem(o)) == o
  {
    OnlyChild(Leaf(TValue, o.value), TValue);
  }

  lemma OptionsBack(os: seq<Opt>)
    ensures Map(DecodeOption, Map(OptionElem, os)) == os
  {
    forall i | 0 <= i < |os| ensures Map(DecodeOption, Map(OptionElem, os))[i] == os[i] {
      OptionBack(os[i]);
    }
  }

  lemma OnlyChild(e: Elem, name: Tag)
    ensures Named([e], name) == if e.name == name then [e] else []
  {
    assert [e][..0] == [];
  }

  lemma SoleChild(e: Elem, name: Tag)
    requires |e.children| <= 1
    ensures Child(e, name) == if |e.children| == 1 && e.children[0].name == name then Some(e.children[0]) else None
  {
    if |e.children| == 1 {
      OnlyChild(e.children[0], name);
      assert e.children == [e.children[0]];
    }
  }

  lemma ValidatorBack(v: Validate)
    ensures DecodeValidator(ValidateElem(v)) == v.validator
  {
    var e := ValidateElem(v);
    SoleChild(e, TOpen);
    SoleChild(e, TBasic);
    SoleChild(e, TRange);
    SoleChild(e, TRegex);
  }

  /** A validation element as section 3 of XEP-0122 has it. */
  lemma ValidateWritten(v: Validate)
    ensures var e := ValidateElem(v);
            && Attr(e, "xmlns") == "http://jabber.org/protocol/xdata-validate" && Attr(e, "datatype") == v.dataType
            && match v.validator
               case NoValidator => e.children == []
               case Open => Child(e, TOpen).Some?
               case Basic => Child(e, TBasic).Some?
               case Range(lo, hi) =>
                 && Child(e, TRange).Some?
                 && Attr(Child(e, TRange).value, "min") == lo && Attr(Child(e, TRange).value, "max") == hi
               case RegEx(re) => Child(e, TRegex).Some? && Child(e, TRegex).value.text == re
  {
    var e := ValidateElem(v);
    SoleChild(e, TOpen);
    SoleChild(e, TBasic);
    SoleChild(e, TRange);
    SoleChild(e, TRegex);
  }

  lemma {:induction false} FirstValidateSkips(a: seq<Elem>, b: seq<Elem>)
    requires forall i :: 0 <= i < |a| ==> a[i].name != TValidate
    ensures FirstValidate(a + b) == FirstValidate(b)
  {
    if a == [] {
      assert a + b == b;
    } else {
      assert (a + b)[1..] == a[1..] + b;
      FirstValidateSkips(a[1..], b);
    }
  }

  lemma ValidateBack(f: Field)
    ensures DecodeValidate(FieldElem(f)) == f.validate
  {
    var front := FieldHead(f) + Map(ValueElem, f.values) + Map(OptionElem, f.options);
    FirstValidateSkips(front, FieldTail(f));
    if f.validate.Some? {
      var v := ValidateElem(f.validate.value);
      assert Attr(v, XMLNS) == VALIDATE_NS && FieldTail(f)[0] == v;
      ValidatorBack(f.validate.value);
    }
  }

  lemma FieldAttrsBack(f: Field)
    ensures Attr(FieldElem(f), "type") == f.typ && Attr(FieldElem(f), "label") == f.label_ &&
            Attr(FieldElem(f), "var") == f.fvar
  {
  }

  lemma RequiredBack(f: Field)
    ensures Child(FieldElem(f), TRequired).Some? == f.required
  {
    FieldChildren(f, TRequired);
    NamedHead(f, TRequired);
  }

  lemma DescriptionBack(f: Field)
    ensures ChildText(FieldElem(f), TDesc) == f.description
  {
    FieldChildren(f, TDesc);
    NamedHead(f, TDesc);
  }

  lemma FieldListsBack(f: Field)
    ensures Map(TextOf, Named(FieldElem(f).children, TValue)) == f.values
    ensures Map(DecodeOption, Named(FieldElem(f).children, TOption)) == f.options
  {
    FieldChildren(f, TValue);
    FieldChildren(f, TOption);
    ValuesBack(f.values);
    OptionsBack(f.options);
  }

  /** A field comes back from its element exactly when its type is valid or empty; otherwise decoding fails. */
  lemma FieldBack(f: Field)
    ensures DecodeField(FieldElem(f)) == if FieldOk(f) then Some(f) else None
  {
    FieldAttrsBack(f);
    RequiredBack(f);
    DescriptionBack(f);
    FieldListsBack(f);
    ValidateBack(f);
  }

  // ---------------------------------------------------------------------------------------------
  // Round trip of a form
  // ---------------------------------------------------------------------------------------------

  lemma {:induction false} DecodeAllBack(fs: seq<Field>, es: seq<Elem>)
    requires |es| == |fs|
    requires forall i :: 0 <= i < |es| ==> DecodeField(es[i]) == if FieldOk(fs[i]) then Some(fs[i]) else None
    ensures DecodeAll(es) == if FieldsOk(fs) then Some(fs) else None
  {
    if fs != [] {
      var front, last := fs[..|fs| - 1], fs[|fs| - 1];
      DecodeAllBack(front, es[..|es| - 1]);
      assert fs == front + [last];
      assert FieldsOk(fs) <==> FieldsOk(front) && FieldOk(last);
    }
  }

  lemma FieldsBack(fs: seq<Field>)
    ensures DecodeAll(Map(FieldElem, fs)) == if FieldsOk(fs) then Some(fs) else None
  {
    var es := Map(FieldElem, fs);
    forall i | 0 <= i < |es| ensures DecodeField(es[i]) == if FieldOk(fs[i]) then Some(fs[i]) else None {
      FieldBack(fs[i]);
    }
    DecodeAllBack(fs, es);
  }

  lemma FieldsNamed(fs: seq<Field>, name: Tag)
    ensures Named(Map(FieldElem, fs), name) == if name == TField then Map(FieldElem, fs) else []
  {
    if name == TField { NamedAll(Map(FieldElem, fs), name); } else { NamedNone(Map(FieldElem, fs), name); }
  }

  lemma ItemBack(fs: seq<Field>)
    ensures DecodeFields(ItemElem(fs)) == if FieldsOk(fs) then Some(fs) else None
  {
    FieldsNamed(fs, TField);
    FieldsBack(fs);
  }

  predicate ItemsOk(items: seq<seq<Field>>) { forall i :: 0 <= i < |items| ==> FieldsOk(items[i]) }

  lemma {:induction false} DecodeItemsBack(items: seq<seq<Field>>, es: seq<Elem>)
    requires |es| == |items|
    requires forall i :: 0 <= i < |es| ==> DecodeFields(es[i]) == if FieldsOk(items[i]) then Some(items[i]) else None
    ensures DecodeItems(es) == if ItemsOk(items) then Some(items) else None
  {
    if items != [] {
      var front, last := items[..|items| - 1], items[|items| - 1];
      DecodeItemsBack(front, es[..|es| - 1]);
      assert items == front + [last];
      assert ItemsOk(items) <==> ItemsOk(front) && FieldsOk(last);
    }
  }

  lemma ItemsBack(items: seq<seq<Field>>)
    ensures DecodeItems(Map(ItemElem, items)) == if ItemsOk(items) then Some(items) else None
  {
    var es := Map(ItemElem, items);
    forall i | 0 <= i < |es| ensures DecodeFields(es[i]) == if FieldsOk(items[i]) then Some(items[i]) else None {
      ItemBack(items[i]);
    }
    DecodeItemsBack(items, es);
  }

  lemma ItemsNamed(items: seq<seq<Field>>, name: Tag)
    ensures Named(Map(ItemElem, items), name) == if name == TItem then Map(ItemElem, items) else []
  {
    if name == TItem { NamedAll(Map(ItemElem, items), name); } else { NamedNone(Map(ItemElem, items), name); }
  }

  lemma NamedThree(a: seq<Elem>, b: seq<Elem>, c: seq<Elem>, name: Tag)
    ensures Named(a + b + c, name) == Named(a, name) + Named(b, name) + Named(c, name)
  {
    NamedConcat(a + b, c, name);
    NamedConcat(a, b, name);
  }

  /** Of three stretches at most one has children of a name. */
  lemma PickOne(a: seq<Elem>, b: seq<Elem>, c: seq<Elem>, name: Tag)
    ensures Named(b, name) == [] && Named(c, name) == [] ==> Named(a + b + c, name) == Named(a, name)
    ensures Named(a, name) == [] && Named(c, name) == [] ==> Named(a + b + c, name) == Named(b, name)
    ensures Named(a, name) == [] && Named(b, name) == [] ==> Named(a + b + c, name) == Named(c, name)
  {
    NamedThree(a, b, c, name);
  }

  lemma ThreeMaybe(p: bool, q: bool, r: bool, x: Elem, y: Elem, z: Elem, name: Tag)
    requires x.name != y.name && y.name != z.name && x.name != z.name
    ensures Named(When(p, x) + When(q, y) + When(r, z), name) ==
            if p && name == x.name then [x]
            else if q && name == y.name then [y]
            else if r && name == z.name then [z]
            else []
  {
    var a, b, c := When(p, x), When(q, y), When(r, z);
    NamedWhen(p, x, name);
    NamedWhen(q, y, name);
    NamedWhen(r, z, name);
    PickOne(a, b, c, name);
  }

  lemma NamedFormHead(f: Form, name: Tag)
    ensures Named(FormHead(f), name) ==
            if f.title != "" && name == TTitle then [Leaf(TTitle, f.title)]
            else if f.instructions != "" && name == TInstructions then [Leaf(TInstructions, f.instructions)]
            else if f.reported != [] && name == TReported then [ReportedElem(f.reported)]
            else []
  {
    ThreeMaybe(f.title != "", f.instructions != "", f.reported != [],
               Leaf(TTitle, f.title), Leaf(TInstructions, f.instructions), ReportedElem(f.reported), name);
  }

  /** The fields of items and of the reported header do not leak to the form's own level. */
  lemma FormChildren(f: Form, name: Tag)
    ensures name == TItem ==> Named(FormElem(f).children, name) == Map(ItemElem, f.items)
    ensures name == TField ==> Named(FormElem(f).children, name) == Map(FieldElem, f.fields)
    ensures name != TItem && name != TField ==> Named(FormElem(f).children, name) == Named(FormHead(f), name)
  {
    NamedFormHead(f, name);
    ItemsNamed(f.items, name);
    FieldsNamed(f.fields, name);
    PickOne(FormHead(f), Map(ItemElem, f.items), Map(FieldElem, f.fields), name);
  }

  lemma ReportedBack(f: Form)
    ensures (match Child(FormElem(f), TReported) case None => Some([]) case Some(r) => DecodeFields(r)) ==
            if FieldsOk(f.reported) then Some(f.reported) else None
  {
    FormChildren(f, TReported);
    NamedFormHead(f, TReported);
    if f.reported != [] {
      FieldsNamed(f.reported, TField);
      FieldsBack(f.reported);
    }
  }

  lemma TitleBack(f: Form)
    ensures ChildText(FormElem(f), TTitle) == f.title
  {
    FormChildren(f, TTitle);
    NamedFormHead(f, TTitle);
  }

  lemma InstructionsBack(f: Form)
    ensures ChildText(FormElem(f), TInstructions) == f.instructions
  {
    FormChildren(f, TInstructions);
    NamedFormHead(f, TInstructions);
  }

  /** Decoding an encoded form gives the same form exactly when its type is valid and the type of every
      field, at every level, is valid or empty; otherwise decoding fails. */
  lemma FormBack(f: Form)
    ensures DecodeForm(FormElem(f)) == if FormOk(f) then Some(f) else None
  {
    assert Attr(FormElem(f), XMLNS) == FORM_NS && Attr(FormElem(f), "type") == f.typ;
    TitleBack(f);
    InstructionsBack(f);
    ReportedBack(f);
    FormChildren(f, TItem);
    ItemsBack(f.items);
    FormChildren(f, TField);
    FieldsBack(f.fields);
  }

  // ---------------------------------------------------------------------------------------------
  // The builders and readers of the source
  // ---------------------------------------------------------------------------------------------

  method ValueElements(vs: seq<string>) returns (es: seq<Elem>)
    ensures es == Map(ValueElem, vs)
  {
    es := [];
    for i := 0 to |vs|
      invariant es == Map(ValueElem, vs[..i])
    {
      es := es + [Leaf(TValue, vs[i])];
    }
    assert vs[..|vs|] == vs;
  }

  method OptionElements(os: seq<Opt>) returns (es: seq<Elem>)
    ensures es == Map(OptionElem, os)
  {
    es := [];
    for i := 0 to |os|
      invariant es == Map(OptionElem, os[..i])
    {
      var attrs: map<string, string> := map[];
      if |os[i].label_| > 0 { attrs := attrs["label" := os[i].label_]; }
      es := es + [Elem(TOption, attrs, "", [Leaf(TValue, os[i].value)])];
      assert Map(OptionElem, os[..i + 1]) == Map(OptionElem, os[..i]) + [OptionElem(os[i])];
    }
    assert os[..|os|] == os;
  }

  method FieldElement(f: Field) returns (e: Elem)
    ensures e == FieldElem(f)
  {
    var attrs: map<string, string> := map[];
    if |f.typ| > 0 { attrs := attrs["type" := f.typ]; }
    if |f.label_| > 0 { attrs := attrs["label" := f.label_]; }
    if |f.fvar| > 0 { attrs := attrs["var" := f.fvar]; }
    var children := [];
    if f.required { children := children + [Leaf(TRequired, "")]; }
    if |f.description| > 0 { children := children + [Leaf(TDesc, f.description)]; }
    assert children == FieldHead(f);
    var values := ValueElements(f.values);
    var options := OptionElements(f.options);
    children := children + values + options;
    if f.validate.Some? { children := children + [ValidateElem(f.validate.value)]; }
    e := Elem(TField, attrs, "", children);
  }

  method FieldElements(fs: seq<Field>) returns (es: seq<Elem>)
    ensures es == Map(FieldElem, fs)
  {
    es := [];
    for i := 0 to |fs|
      invariant es == Map(FieldElem, fs[..i])
    {
      var e := FieldElement(fs[i]);
      es := es + [e];
      assert Map(FieldElem, fs[..i + 1]) == Map(FieldElem, fs[..i]) + [e];
    }
    assert fs[..|fs|] == fs;
  }

  method FormElement(f: Form) returns (e: Elem)
    ensures e == FormElem(f)
  {
    var attrs := map[XMLNS := FORM_NS];
    var children := [];
    if |f.title| > 0 { children := children + [Leaf(TTitle, f.title)]; }
    if |f.typ| > 0 { attrs := attrs["type" := f.typ]; }
    if |f.instructions| > 0 { children := children + [Leaf(TInstructions, f.instructions)]; }
    if |f.reported| > 0 {
      var rs := FieldElements(f.reported);
      children := children + [Elem(TReported, map[], "", rs)];
    }
    assert children == FormHead(f);
    for i := 0 to |f.items|
      invariant children == FormHead(f) + Map(ItemElem, f.items[..i])
    {
      var fs := FieldElements(f.items[i]);
      children := children + [Elem(TItem, map[], "", fs)];
      assert Map(ItemElem, f.items[..i + 1]) == Map(ItemElem, f.items[..i]) + [ItemElem(f.items[i])];
    }
    assert f.items[..|f.items|] == f.items;
    var own := FieldElements(f.fields);
    e := Elem(TX, attrs, "", children + own);
  }

  method FieldsFromElement(e: Elem) returns (r: Option<seq<Field>>)
    ensures r == DecodeFields(e)
  {
    var es, fields := Named(e.children, TField), [];
    for i := 0 to |es|
      invariant DecodeAll(es[..i]) == Some(fields)
    {
      assert es[..i + 1][..i] == es[..i];
      var f := DecodeField(es[i]);
      if f.None? {
        DecodeAllFails(es, i + 1);
        return None;
      }
      fields := fields + [f.value];
    }
    assert es[..|es|] == es;
    r := Some(fields);
  }

  lemma {:induction false} DecodeAllFails(es: seq<Elem>, i: nat)
    requires i <= |es| && DecodeAll(es[..i]).None?
    ensures DecodeAll(es).None?
    decreases |es| - i
  {
    if i == |es| {
      assert es[..i] == es;
    } else {
      assert es[..i + 1][..i] == es[..i];
      DecodeAllFails(es, i + 1);
    }
  }

  lemma {:induction false} DecodeItemsFails(es: seq<Elem>, i: nat)
    requires i <= |es| && DecodeItems(es[..i]).None?
    ensures DecodeItems(es).None?
    decreases |es| - i
  {
    if i == |es| {
      assert es[..i] == es;
    } else {
      assert es[..i + 1][..i] == es[..i];
      DecodeItemsFails(es, i + 1);
    }
  }

  method NewFormFromElement(e: Elem) returns (r: Option<Form>)
    ensures r == DecodeForm(e)
  {
    if e.name != TX || Attr(e, XMLNS) != FORM_NS || !IsValidFormType(Attr(e, "type")) {
      return None;
    }
    var reported := [];
    var reportedElem := Child(e, TReported);
    if reportedElem.Some? {
      var fs := FieldsFromElement(reportedElem.value);
      if fs.None? { return None; }
      reported := fs.value;
    }
    var items := ItemsFromElements(Named(e.children, TItem));
    if items.None? { return None; }
    var fields := FieldsFromElement(e);
    if fields.None? { return None; }
    r := Some(Form(Attr(e, "type"), ChildText(e, TTitle), ChildText(e, TInstructions), fields.value, reported,
                   items.value));
  }

  method ItemsFromElements(es: seq<Elem>) returns (r: Option<seq<seq<Field>>>)
    ensures r == DecodeItems(es)
  {
    var items := [];
    for i := 0 to |es|
      invariant DecodeItems(es[..i]) == Some(items)
    {
      assert es[..i + 1][..i] == es[..i];
      var fs := FieldsFromElement(es[i]);
      if fs.None? {
        DecodeItemsFails(es, i + 1);
        return None;
      }
      items := items + [fs.value];
    }
    assert es[..|es|] == es;
    r := Some(items);
  }
}
