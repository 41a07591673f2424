/** The stanza parser: a loop over XML tokens that keeps a stack of unfinished elements and returns one
    top-level element per call. It is proved against the recursive reading of nested tags. */
module XmlParser {
  import opened Options

  datatype Attribute = Attribute(label_: string, value: string)

  datatype Element = Element(name: string, attrs: seq<Attribute>, text: string, children: seq<Element>)

  /** A raw token; comments, directives and processing instructions are `Other`. */
  datatype Token =
    | StartTag(name: string, attrs: seq<Attribute>)
    | CharData(text: string)
    | EndTag(name: string)
    | Other

  const STREAM := "stream:stream"

  datatype Failure = EndOfInput | TooLarge | ClosedByPeer | UnexpectedEnd

  // A nil element comes out when a stream tag is opened inside another element.
  datatype Outcome = Returned(at: nat, elem: Option<Element>) | Failed(why: Failure)

  /** The input: tokens with the number of bytes each takes, whether it comes from a socket, and the
      size limit (none if not positive). */
  datatype Input = Input(toks: seq<Token>, sizes: seq<nat>, socket: bool, maxSize: int)

  predicate WellFormed(inp: Input) { |inp.sizes| == |inp.toks| }

  /** The decoder's offset after its first i tokens. */
  function Offset(sizes: seq<nat>, i: nat): nat
    requires i <= |sizes|
  {
    if i == 0 then 0 else Offset(sizes, i - 1) + sizes[i - 1]
  }

  predicate IsStreamTag(inp: Input, name: string) { inp.socket && name == STREAM }

  predicate Fits(inp: Input, last: nat, i: nat)
    requires WellFormed(inp) && i <= |inp.toks|
  {
    inp.maxSize <= 0 || Offset(inp.sizes, i) - last <= inp.maxSize
  }

  function AddChild(e: Element, c: Element): Element { e.(children := e.children + [c]) }

  function SetTop(stack: seq<Element>, e: Element): seq<Element>
    requires stack != []
  {
    stack[..|stack| - 1] + [e]
  }

  function Top(stack: seq<Element>): Element
    requires stack != []
  {
    stack[|stack| - 1]
  }

  /** What one token does to the unfinished stack. */
  datatype Effect = Ends(outcome: Outcome) | GoesOn(stack: seq<Element>, inElement: bool)

  function TokenEffect(inp: Input, i: nat, stack: seq<Element>, inElement: bool): (r: Effect)
    requires i < |inp.toks| && (inElement ==> stack != [])
    ensures r.GoesOn? && r.inElement ==> r.stack != []
  {
    match inp.toks[i]
    case StartTag(name, attrs) =>
      if IsStreamTag(inp, name) then Ends(Returned(i + 1, if stack == [] then Some(Element(name, attrs, "", []))
          else None))
      else GoesOn(stack + [Element(name, attrs, "", [])], true)
    case CharData(text) =>
      GoesOn(if inElement then SetTop(stack, Top(stack).(text := text)) else stack, inElement)
    case EndTag(name) =>
      if IsStreamTag(inp, name) then Ends(Failed(ClosedByPeer))
      else if stack == [] || Top(stack).name != name then Ends(Failed(UnexpectedEnd))
      else if |stack| == 1 then Ends(Returned(i + 1, Some(Top(stack))))
      else
        var rest := stack[..|stack| - 1];
        GoesOn(SetTop(rest, AddChild(Top(rest), Top(stack))), false)
    case Other => GoesOn(stack, inElement)
  }

  /** One call of Parse from token i, with an unfinished stack. */
  function ParseFrom(inp: Input, i: nat, stack: seq<Element>, inElement: bool, last: nat): Outcome
    requires WellFormed(inp) && i <= |inp.toks| && (inElement ==> stack != [])
    decreases |inp.toks| - i
  {
    if i == |inp.toks| then Failed(EndOfInput)
    else if !Fits(inp, last, i + 1) then Failed(TooLarge)
    else
      match TokenEffect(inp, i, stack, inElement)
      case Ends(outcome) => outcome
      case GoesOn(stack', inElement') => ParseFrom(inp, i + 1, stack', inElement', last)
  }

  // ---------------------------------------------------------------------------------------------
  // Well-nested input
  // ---------------------------------------------------------------------------------------------

  datatype Node = Node(name: string, attrs: seq<Attribute>, content: Content)

  datatype Content = Empty | Text(text: string, rest: Content) | Child(node: Node, rest: Content) | Noise(rest: Content)

  function NodeTokens(n: Node): seq<Token> {
    [StartTag(n.name, n.attrs)] + ContentTokens(n.content) + [EndTag(n.name)]
  }

  function ContentTokens(c: Content): seq<Token> {
    match c
    case Empty => []
    case Text(t, rest) => [CharData(t)] + ContentTokens(rest)
    case Child(n, rest) => NodeTokens(n) + ContentTokens(rest)
    case Noise(rest) => [Other] + ContentTokens(rest)
  }

  /** The last text before the first child; the texts after it are dropped. */
  function LeadingText(c: Content, sofar: string): string {
    match c
    case Empty => sofar
    case Text(t, rest) => LeadingText(rest, t)
    case Child(_, _) => sofar
    case Noise(rest) => LeadingText(rest, sofar)
  }

  function Children(c: Content): seq<Element> {
    match c
    case Empty => []
    case Text(_, rest) => Children(rest)
    case Child(n, rest) => [Value(n)] + Children(rest)
    case Noise(rest) => Children(rest)
  }

  /** The element that a nest of tags stands for. */
  function Value(n: Node): Element {
    Element(n.name, n.attrs, LeadingText(n.content, ""), Children(n.content))
  }

  /** On a socket the stream tag may not be nested; in the other mode it is a tag like any other. */
  predicate NoStreamTag(n: Node, socket: bool) { (socket ==> n.name != STREAM) && NoStreamTagIn(n.content, socket) }

  predicate NoStreamTagIn(c: Content, socket: bool) {
    match c
    case Empty => true
    case Text(_, rest) => NoStreamTagIn(rest, socket)
    case Child(n, rest) => NoStreamTag(n, socket) && NoStreamTagIn(rest, socket)
    case Noise(rest) => NoStreamTagIn(rest, socket)
  }

  /** The tokens of `s` stand in the input at i. */
  predicate At(inp: Input, i: nat, s: seq<Token>) {
    i + |s| <= |inp.toks| && forall j :: 0 <= j < |s| ==> inp.toks[i + j] == s[j]
  }

  lemma AtSplit(inp: Input, i: nat, a: seq<Token>, b: seq<Token>)
    requires At(inp, i, a + b)
    ensures At(inp, i, a) && At(inp, i + |a|, b)
  {
    forall j | 0 <= j < |a| ensures inp.toks[i + j] == a[j] { assert (a + b)[j] == a[j]; }
    forall j | 0 <= j < |b| ensures inp.toks[i + |a| + j] == b[j] { assert (a + b)[|a| + j] == b[j]; }
  }

  lemma {:induction false} OffsetGrows(sizes: seq<nat>, i: nat, j: nat)
    requires i <= j <= |sizes|
    ensures Offset(sizes, i) <= Offset(sizes, j)
  {
    if i < j { OffsetGrows(sizes, i, j - 1); }
  }

  /** What a content does to the element at the top of the stack. */
  function Filled(top: Element, c: Content, inElement: bool): Element {
    Element(top.name, top.attrs, if inElement then LeadingText(c, top.text) else top.text, top.children + Children(c))
  }

  predicate StillIn(c: Content, inElement: bool) {
    match c
    case Empty => inElement
    case Text(_, rest) => StillIn(rest, inElement)
    case Child(_, _) => false
    case Noise(rest) => StillIn(rest, inElement)
  }

  // ---------------------------------------------------------------------------------------------
  // Where a content stands in the input
  // ---------------------------------------------------------------------------------------------

  /** The tokens from i up to k are those of the content. */
  ghost predicate Spans(inp: Input, i: nat, k: nat, c: Content)
    decreases c, 0
  {
    && i <= k <= |inp.toks|
    && match c
       case Empty => i == k
       case Text(t, rest) => i < k && inp.toks[i] == CharData(t) && Spans(inp, i + 1, k, rest)
       case Noise(rest) => i < k && inp.toks[i] == Other && Spans(inp, i + 1, k, rest)
       case Child(n, rest) => exists j :: i < j <= k && SpansNode(inp, i, j, n) && Spans(inp, j, k, rest)
  }

  ghost predicate SpansNode(inp: Input, i: nat, k: nat, n: Node)
    decreases n, 1
  {
    && i + 1 < k <= |inp.toks|
    && inp.toks[i] == StartTag(n.name, n.attrs) && inp.toks[k - 1] == EndTag(n.name)
    && Spans(inp, i + 1, k - 1, n.content)
  }

  lemma AtOne(inp: Input, i: nat, t: Token, rest: seq<Token>)
    requires At(inp, i, [t] + rest)
    ensures i < |inp.toks| && inp.toks[i] == t && At(inp, i + 1, rest)
  {
    AtSplit(inp, i, [t], rest);
    assert inp.toks[i + 0] == [t][0];
  }

  lemma {:induction false} ContentSpans(inp: Input, i: nat, c: Content)
    requires At(inp, i, ContentTokens(c))
    ensures Spans(inp, i, i + |ContentTokens(c)|, c)
    decreases c, 0
  {
    match c
    case Empty =>
    case Text(t, rest) =>
      AtOne(inp, i, CharData(t), ContentTokens(rest));
      ContentSpans(inp, i + 1, rest);
    case Noise(rest) =>
      AtOne(inp, i, Other, ContentTokens(rest));
      ContentSpans(inp, i + 1, rest);
    case Child(n, rest) =>
      AtSplit(inp, i, NodeTokens(n), ContentTokens(rest));
      NodeSpans(inp, i, n);
      ContentSpans(inp, i + |NodeTokens(n)|, rest);
  }

  lemma {:induction false} NodeSpans(inp: Input, i: nat, n: Node)
    requires At(inp, i, NodeTokens(n))
    ensures SpansNode(inp, i, i + |NodeTokens(n)|, n)
    decreases n, 1
  {
    var body := ContentTokens(n.content);
    assert NodeTokens(n) == [StartTag(n.name, n.attrs)] + (body + [EndTag(n.name)]);
    AtOne(inp, i, StartTag(n.name, n.attrs), body + [EndTag(n.name)]);
    AtSplit(inp, i + 1, body, [EndTag(n.name)]);
    assert inp.toks[i + 1 + |body| + 0] == [EndTag(n.name)][0];
    ContentSpans(inp, i + 1, n.content);
  }

  // ---------------------------------------------------------------------------------------------
  // Reading it
  // ---------------------------------------------------------------------------------------------

  lemma FitsEarlier(inp: Input, last: nat, i: nat, k: nat)
    requires WellFormed(inp) && i <= k <= |inp.toks| && Fits(inp, last, k)
    ensures Fits(inp, last, i)
  {
    OffsetGrows(inp.sizes, i, k);
  }

  /** Reading a content, of whatever nesting, only fills the top of the stack: with the children, and with the
      last text before the first of them. */
  lemma {:induction false} ReadContent(inp: Input, i: nat, k: nat, under: seq<Element>, top: Element, inElement: bool,
                                       last: nat, c: Content)
    requires WellFormed(inp) && Spans(inp, i, k, c) && NoStreamTagIn(c, inp.socket) && Fits(inp, last, k)
    ensures ParseFrom(inp, i, under + [top], inElement, last) ==
            ParseFrom(inp, k, under + [Filled(top, c, inElement)], StillIn(c, inElement), last)
    decreases c, 1
  {
    match c
    case Empty => FilledEmpty(top, inElement);
    case Text(t, rest) => ReadContentText(inp, i, k, under, top, inElement, last, t, rest);
    case Noise(rest) => ReadContentNoise(inp, i, k, under, top, inElement, last, rest);
    case Child(n, rest) =>
      var j :| i < j <= k && SpansNode(inp, i, j, n) && Spans(inp, j, k, rest);
      ReadContentChild(inp, i, j, k, under, top, inElement, last, n, rest);
  }

  lemma FilledEmpty(top: Element, inElement: bool)
    ensures Filled(top, Empty, inElement) == top && StillIn(Empty, inElement) == inElement
  {
    assert top.children + [] == top.children;
  }

  lemma {:induction false} ReadContentText(inp: Input, i: nat, k: nat, under: seq<Element>, top: Element,
      inElement: bool,
                                           last: nat, t: string, rest: Content)
    requires WellFormed(inp) && i < k <= |inp.toks| && inp.toks[i] == CharData(t) && Spans(inp, i + 1, k, rest)
    requires NoStreamTagIn(rest, inp.socket) && Fits(inp, last, k)
    ensures ParseFrom(inp, i, under + [top], inElement, last) ==
            ParseFrom(inp, k, under + [Filled(top, Text(t, rest), inElement)], StillIn(rest, inElement), last)
    decreases Text(t, rest), 0
  {
    FitsEarlier(inp, last, i + 1, k);
    ReadText(inp, i, under, top, inElement, last, t);
    var top' := if inElement then top.(text := t) else top;
    ReadContent(inp, i + 1, k, under, top', inElement, last, rest);
    assert Filled(top', rest, inElement) == Filled(top, Text(t, rest), inElement);
  }

  lemma {:induction false} ReadContentNoise(inp: Input, i: nat, k: nat, under: seq<Element>, top: Element,
      inElement: bool,
                                            last: nat, rest: Content)
    requires WellFormed(inp) && i < k <= |inp.toks| && inp.toks[i] == Other && Spans(inp, i + 1, k, rest)
    requires NoStreamTagIn(rest, inp.socket) && Fits(inp, last, k)
    ensures ParseFrom(inp, i, under + [top], inElement, last) ==
            ParseFrom(inp, k, under + [Filled(top, Noise(rest), inElement)], StillIn(rest, inElement), last)
    decreases Noise(rest), 0
  {
    FitsEarlier(inp, last, i + 1, k);
    ReadOther(inp, i, under + [top], inElement, last);
    ReadContent(inp, i + 1, k, under, top, inElement, last, rest);
    assert Filled(top, rest, inElement) == Filled(top, Noise(rest), inElement);
  }

  lemma {:induction false} ReadContentChild(inp: Input, i: nat, j: nat, k: nat, under: seq<Element>, top: Element,
                                            inElement: bool, last: nat, n: Node, rest: Content)
    requires WellFormed(inp) && i < j <= k <= |inp.toks| && SpansNode(inp, i, j, n) && Spans(inp, j, k, rest)
    requires NoStreamTag(n, inp.socket) && NoStreamTagIn(rest, inp.socket) && Fits(inp, last, k)
    ensures ParseFrom(inp, i, under + [top], inElement, last) ==
            ParseFrom(inp, k, under + [Filled(top, Child(n, rest), inElement)], false, last)
    decreases Child(n, rest), 0
  {
    FitsEarlier(inp, last, j, k);
    ReadChild(inp, i, j, under, top, inElement, last, n);
    ReadContent(inp, j, k, under, AddChild(top, Value(n)), false, last, rest);
    FilledAfterChild(top, n, rest, inElement);
    NeverBackIn(rest);
  }

  lemma {:induction false} ReadChild(inp: Input, i: nat, j: nat, under: seq<Element>, top: Element, inElement: bool,
                                     last: nat, n: Node)
    requires WellFormed(inp) && SpansNode(inp, i, j, n) && NoStreamTag(n, inp.socket) && Fits(inp, last, j)
    ensures ParseFrom(inp, i, under + [top], inElement, last) ==
            ParseFrom(inp, j, under + [AddChild(top, Value(n))], false, last)
    decreases n, 2
  {
    ReadNode(inp, i, j, under + [top], inElement, last, n);
    assert SetTop(under + [top], AddChild(top, Value(n))) == under + [AddChild(top, Value(n))];
  }

  lemma ReadText(inp: Input, i: nat, under: seq<Element>, top: Element, inElement: bool, last: nat, t: string)
    requires WellFormed(inp) && i < |inp.toks| && inp.toks[i] == CharData(t) && Fits(inp, last, i + 1)
    ensures ParseFrom(inp, i, under + [top], inElement, last) ==
            ParseFrom(inp, i + 1, under + [if inElement then top.(text := t) else top], inElement, last)
  {
    assert SetTop(under + [top], top.(text := t)) == under + [top.(text := t)];
  }

  lemma ReadOther(inp: Input, i: nat, stack: seq<Element>, inElement: bool, last: nat)
    requires WellFormed(inp) && i < |inp.toks| && inp.toks[i] == Other && Fits(inp, last, i + 1)
    requires inElement ==> stack != []
    ensures ParseFrom(inp, i, stack, inElement, last) == ParseFrom(inp, i + 1, stack, inElement, last)
  {
  }

  lemma FilledAfterChild(top: Element, n: Node, rest: Content, inElement: bool)
    ensures Filled(AddChild(top, Value(n)), rest, false) == Filled(top, Child(n, rest), inElement)
  {
    assert top.children + [Value(n)] + Children(rest) == top.children + ([Value(n)] + Children(rest));
  }

  lemma {:induction false} NeverBackIn(c: Content)
    ensures !StillIn(c, false)
  {
    match c
    case Text(_, rest) => NeverBackIn(rest);
    case Noise(rest) => NeverBackIn(rest);
    case _ =>
  }

  lemma ReadStart(inp: Input, i: nat, stack: seq<Element>, inElement: bool, last: nat, name: string,
      attrs: seq<Attribute>)
    requires WellFormed(inp) && i < |inp.toks| && inp.toks[i] == StartTag(name, attrs) && !IsStreamTag(inp, name)
    requires Fits(inp, last, i + 1) && (inElement ==> stack != [])
    ensures ParseFrom(inp, i, stack, inElement, last) ==
            ParseFrom(inp, i + 1, stack + [Element(name, attrs, "", [])], true, last)
  {
  }

  lemma ReadEnd(inp: Input, i: nat, stack: seq<Element>, e: Element, inElement: bool, last: nat)
    requires WellFormed(inp) && i < |inp.toks| && inp.toks[i] == EndTag(e.name) && !IsStreamTag(inp, e.name)
    requires Fits(inp, last, i + 1)
    ensures ParseFrom(inp, i, stack + [e], inElement, last) ==
            if stack == [] then Returned(i + 1, Some(e))
            else ParseFrom(inp, i + 1, SetTop(stack, AddChild(Top(stack), e)), false, last)
  {
    assert (stack + [e])[..|stack|] == stack && Top(stack + [e]) == e;
  }

  /** Reading a nest of tags returns its element, or hands it to the element it is inside of. */
  lemma {:induction false} ReadNode(inp: Input, i: nat, k: nat, stack: seq<Element>, inElement: bool, last: nat,
      n: Node)
    requires WellFormed(inp) && SpansNode(inp, i, k, n) && NoStreamTag(n, inp.socket) && Fits(inp, last, k)
    requires inElement ==> stack != []
    ensures ParseFrom(inp, i, stack, inElement, last) ==
            if stack == [] then Returned(k, Some(Value(n)))
            else ParseFrom(inp, k, SetTop(stack, AddChild(Top(stack), Value(n))), false, last)
    decreases n, 1
  {
    var e := Element(n.name, n.attrs, "", []);
    FitsEarlier(inp, last, i + 1, k);
    FitsEarlier(inp, last, k - 1, k);
    ReadStart(inp, i, stack, inElement, last, n.name, n.attrs);
    ReadContent(inp, i + 1, k - 1, stack, e, true, last, n.content);
    FilledIsValue(n);
    ReadEnd(inp, k - 1, stack, Value(n), StillIn(n.content, true), last);
  }

  lemma FilledIsValue(n: Node)
    ensures Filled(Element(n.name, n.attrs, "", []), n.content, true) == Value(n)
  {
  }

  /** Top-level tokens that Parse passes over between elements. */
  predicate Gap(s: seq<Token>) {
    forall i :: 0 <= i < |s| ==> s[i].CharData? || s[i].Other?
  }

  lemma {:induction false} SkipGap(inp: Input, i: nat, gap: seq<Token>, last: nat)
    requires WellFormed(inp) && At(inp, i, gap) && Gap(gap) && Fits(inp, last, i + |gap|)
    ensures ParseFrom(inp, i, [], false, last) == ParseFrom(inp, i + |gap|, [], false, last)
    decreases |gap|
  {
    if gap != [] {
      assert gap == [gap[0]] + gap[1..];
      AtSplit(inp, i, [gap[0]], gap[1..]);
      assert inp.toks[i + 0] == [gap[0]][0];
      OffsetGrows(inp.sizes, i + 1, i + |gap|);
      SkipGap(inp, i + 1, gap[1..], last);
    }
  }

  /** A call of Parse between elements returns the next one and stops right behind it. */
  lemma ParseNext(inp: Input, i: nat, gap: seq<Token>, n: Node, last: nat)
    requires WellFormed(inp) && At(inp, i, gap + NodeTokens(n)) && Gap(gap) && NoStreamTag(n, inp.socket)
    requires Fits(inp, last, i + |gap| + |NodeTokens(n)|)
    ensures ParseFrom(inp, i, [], false, last) == Returned(i + |gap| + |NodeTokens(n)|, Some(Value(n)))
  {
    AtSplit(inp, i, gap, NodeTokens(n));
    OffsetGrows(inp.sizes, i + |gap|, i + |gap| + |NodeTokens(n)|);
    SkipGap(inp, i, gap, last);
    NodeSpans(inp, i + |gap|, n);
    ReadNode(inp, i + |gap|, i + |gap| + |NodeTokens(n)|, [], false, last, n);
  }

  // ---------------------------------------------------------------------------------------------
  // Unfinished input
  // ---------------------------------------------------------------------------------------------

  /** An element that was opened and not closed yet, with what has been read inside it. */
  datatype Opened = Opened(name: string, attrs: seq<Attribute>, content: Content)

  function OpenedTokens(os: seq<Opened>): seq<Token> {
    if os == [] then []
    else
      var o := os[|os| - 1];
      OpenedTokens(os[..|os| - 1]) + ([StartTag(o.name, o.attrs)] + ContentTokens(o.content))
  }

  function OpenedStack(os: seq<Opened>): (stack: seq<Element>)
    ensures |stack| == |os| && (os != [] ==> stack[|stack| - 1].name == os[|os| - 1].name)
  {
    if os == [] then []
    else
      var o := os[|os| - 1];
      OpenedStack(os[..|os| - 1]) + [Filled(Element(o.name, o.attrs, "", []), o.content, true)]
  }

  predicate InsideOf(os: seq<Opened>) { os != [] && StillIn(os[|os| - 1].content, true) }

  predicate NoStreamTagOpened(os: seq<Opened>, socket: bool) {
    forall i :: 0 <= i < |os| ==> (socket ==> os[i].name != STREAM) && NoStreamTagIn(os[i].content, socket)
  }

  /** The tokens from i up to k are those of the unfinished elements. */
  ghost predicate SpansOpened(inp: Input, i: nat, k: nat, os: seq<Opened>) {
    if os == [] then i == k <= |inp.toks|
    else
      var outer, o := os[..|os| - 1], os[|os| - 1];
      exists j :: i <= j < k && SpansOpened(inp, i, j, outer) && SpansOne(inp, j, k, o)
  }

  ghost predicate SpansOne(inp: Input, j: nat, k: nat, o: Opened) {
    j < k <= |inp.toks| && inp.toks[j] == StartTag(o.name, o.attrs) && Spans(inp, j + 1, k, o.content)
  }

  lemma {:induction false} OpenedSpans(inp: Input, i: nat, os: seq<Opened>)
    requires At(inp, i, OpenedTokens(os))
    ensures SpansOpened(inp, i, i + |OpenedTokens(os)|, os)
  {
    if os != [] {
      var outer, o := os[..|os| - 1], os[|os| - 1];
      var j := i + |OpenedTokens(outer)|;
      AtSplit(inp, i, OpenedTokens(outer), [StartTag(o.name, o.attrs)] + ContentTokens(o.content));
      OpenedSpans(inp, i, outer);
      AtOne(inp, j, StartTag(o.name, o.attrs), ContentTokens(o.content));
      ContentSpans(inp, j + 1, o.content);
      assert SpansOne(inp, j, i + |OpenedTokens(os)|, o);
    }
  }

  /** Reading unfinished elements, of whatever content, leaves them on the stack. */
  lemma {:induction false} ReadOpened(inp: Input, i: nat, k: nat, os: seq<Opened>, last: nat)
    requires WellFormed(inp) && k <= |inp.toks| && SpansOpened(inp, i, k, os) && Fits(inp, last, k)
    requires NoStreamTagOpened(os, inp.socket)
    ensures i <= k
    ensures ParseFrom(inp, i, [], false, last) == ParseFrom(inp, k, OpenedStack(os), InsideOf(os), last)
    decreases |os|
  {
    if os != [] {
      var outer, o := os[..|os| - 1], os[|os| - 1];
      var j :| i <= j < k && SpansOpened(inp, i, j, outer) && SpansOne(inp, j, k, o);
      FitsEarlier(inp, last, j, k);
      ReadOpened(inp, i, j, outer, last);
      ReadOneOpened(inp, j, k, OpenedStack(outer), InsideOf(outer), o, last);
    }
  }

  lemma ReadOneOpened(inp: Input, j: nat, k: nat, stack: seq<Element>, inElement: bool, o: Opened, last: nat)
    requires WellFormed(inp) && SpansOne(inp, j, k, o) && Fits(inp, last, k) && (inElement ==> stack != [])
    requires (inp.socket ==> o.name != STREAM) && NoStreamTagIn(o.content, inp.socket)
    ensures ParseFrom(inp, j, stack, inElement, last) ==
            ParseFrom(inp, k, stack + [Filled(Element(o.name, o.attrs, "", []), o.content, true)],
                      StillIn(o.content, true), last)
  {
    FitsEarlier(inp, last, j + 1, k);
    ReadStart(inp, j, stack, inElement, last, o.name, o.attrs);
    ReadContent(inp, j + 1, k, stack, Element(o.name, o.attrs, "", []), true, last, o.content);
  }

  /** The last token that a call reads, if it is not the end of an element. */
  predicate EndsCall(inp: Input, k: nat, depth: nat, innermost: string, last: nat, r: Outcome)
    requires WellFormed(inp) && k <= |inp.toks|
  {
    if k == |inp.toks| then r == Failed(EndOfInput)
    else if inp.maxSize > 0 && Offset(inp.sizes, k + 1) - last > inp.maxSize then r == Failed(TooLarge)
    else
      match inp.toks[k]
      case EndTag(name) =>
        if inp.socket && name == "stream:stream" then r == Failed(ClosedByPeer)
        else depth == 0 || innermost != name ==> r == Failed(UnexpectedEnd)
      case StartTag(name, attrs) =>
        inp.socket && name == "stream:stream" ==>
          r == Returned(k + 1, if depth == 0 then Some(Element(name, attrs, "", [])) else None)
      case _ => true
  }

  lemma LastToken(inp: Input, k: nat, stack: seq<Element>, inElement: bool, last: nat)
    requires WellFormed(inp) && k <= |inp.toks| && (inElement ==> stack != [])
    ensures EndsCall(inp, k, |stack|, if stack == [] then "" else Top(stack).name, last,
                     ParseFrom(inp, k, stack, inElement, last))
  {
  }

  /** How a call of Parse ends that does not get to the end of an element, after any elements that were opened:
      the input ends, the next token passes the limit, the peer closes the stream, a tag is closed that is not the
      last one opened, or the stream is opened, again or for the first time. */
  lemma ParseEnds(inp: Input, i: nat, gap: seq<Token>, os: seq<Opened>, last: nat)
    requires WellFormed(inp) && At(inp, i, gap + OpenedTokens(os)) && Gap(gap) && NoStreamTagOpened(os, inp.socket)
    requires Fits(inp, last, i + |gap| + |OpenedTokens(os)|)
    ensures EndsCall(inp, i + |gap| + |OpenedTokens(os)|, |os|, if os == [] then "" else os[|os| - 1].name, last,
                     ParseFrom(inp, i, [], false, last))
  {
    AtSplit(inp, i, gap, OpenedTokens(os));
    FitsEarlier(inp, last, i + |gap|, i + |gap| + |OpenedTokens(os)|);
    SkipGap(inp, i, gap, last);
    OpenedSpans(inp, i + |gap|, os);
    OpenedEnds(inp, i + |gap|, i + |gap| + |OpenedTokens(os)|, os, last);
  }

  lemma OpenedEnds(inp: Input, i: nat, k: nat, os: seq<Opened>, last: nat)
    requires WellFormed(inp) && k <= |inp.toks| && SpansOpened(inp, i, k, os) && Fits(inp, last, k)
    requires NoStreamTagOpened(os, inp.socket)
    ensures i <= k && EndsCall(inp, k, |os|, if os == [] then "" else os[|os| - 1].name, last,
                               ParseFrom(inp, i, [], false, last))
  {
    ReadOpened(inp, i, k, os, last);
    LastToken(inp, k, OpenedStack(os), InsideOf(os), last);
  }

  // ---------------------------------------------------------------------------------------------
  // Trees and back
  // ---------------------------------------------------------------------------------------------

  /** A tree written out as tags: its text first, then its children. */
  function NodeOf(e: Element): Node
    decreases e, 1
  {
    Node(e.name, e.attrs,
         if e.text == "" then ContentOf(e.children) else Text(e.text, ContentOf(e.children)))
  }

  function ContentOf(es: seq<Element>): Content
    decreases es, 0
  {
    if es == [] then Empty else Child(NodeOf(es[0]), ContentOf(es[1..]))
  }

  lemma {:induction false} TreeBack(e: Element)
    ensures Value(NodeOf(e)) == e
    decreases e, 1
  {
    ChildrenBack(e.children);
    var c := ContentOf(e.children);
    if e.text == "" {
      assert NodeOf(e).content == c;
    } else {
      assert NodeOf(e).content == Text(e.text, c);
      assert LeadingText(Text(e.text, c), "") == LeadingText(c, e.text);
      assert Children(Text(e.text, c)) == Children(c);
    }
  }

  lemma {:induction false} ChildrenBack(es: seq<Element>)
    ensures Children(ContentOf(es)) == es
    ensures forall t :: LeadingText(ContentOf(es), t) == t
    decreases es, 0
  {
    if es != [] {
      TreeBack(es[0]);
      ChildrenBack(es[1..]);
    }
  }

  // ---------------------------------------------------------------------------------------------
  // The size limit
  // ---------------------------------------------------------------------------------------------

  /** Whatever the input, a returned element spans no more than a positive limit. */
  lemma {:induction false} ReturnedFits(inp: Input, i: nat, stack: seq<Element>, inElement: bool, last: nat)
    requires WellFormed(inp) && i <= |inp.toks| && (inElement ==> stack != [])
    ensures var r := ParseFrom(inp, i, stack, inElement, last);
            r.Returned? ==> i < r.at <= |inp.toks| && Fits(inp, last, r.at)
    decreases |inp.toks| - i
  {
    if i < |inp.toks| && Fits(inp, last, i + 1) {
      match TokenEffect(inp, i, stack, inElement)
      case Ends(_) =>
      case GoesOn(stack', inElement') => ReturnedFits(inp, i + 1, stack', inElement', last);
    }
  }

  // ---------------------------------------------------------------------------------------------
  // The parser object
  // ---------------------------------------------------------------------------------------------

  class Parser {
    const inp: Input
    var pos: nat
    var stack: seq<Element>
    var pIndex: int
    var inElement: bool
    var nextElement: Option<Element>
    var lastOffset: nat

    ghost predicate Valid()
      reads this
    {
      && WellFormed(inp) && pos <= |inp.toks| && pIndex == |stack| - 1 && (inElement ==> stack != [])
      && nextElement == None
    }

    constructor (inp: Input)
      requires WellFormed(inp)
      ensures Valid() && this.inp == inp && pos == 0 && stack == [] && !inElement && lastOffset == 0
    {
      this.inp, pos, stack, pIndex := inp, 0, [], -1;
      inElement, nextElement, lastOffset := false, None, 0;
    }

    method StartElement(name: string, attrs: seq<Attribute>)
      modifies this
      ensures stack == old(stack) + [Element(name, attrs, "", [])] && pIndex == |stack| - 1 && inElement
      ensures pos == old(pos) && lastOffset == old(lastOffset) && nextElement == old(nextElement)
    {
      stack := stack + [Element(name, attrs, "", [])];
      pIndex, inElement := |stack| - 1, true;
    }

    method CloseElement(name: string) returns (ok: bool)
      requires pIndex == |stack| - 1
      modifies this
      ensures ok <==> old(stack) != [] && Top(old(stack)).name == name
      ensures ok ==> pIndex == |stack| - 1 && !inElement
      ensures ok && |old(stack)| == 1 ==> stack == [] && nextElement == Some(Top(old(stack)))
      ensures ok && |old(stack)| > 1 ==>
                && stack == SetTop(old(stack)[..|old(stack)| - 1],
                    AddChild(Top(old(stack)[..|old(stack)| - 1]), Top(old(stack))))
                && nextElement == old(nextElement)
      ensures pos == old(pos) && lastOffset == old(lastOffset)
    {
      if pIndex == -1 {
        return false;
      }
      var element := stack[pIndex];
      stack := stack[..pIndex];
      if name != element.name {
        return false;
      }
      pIndex := |stack| - 1;
      if pIndex == -1 {
        nextElement := Some(element);
      } else {
        stack := stack[..pIndex] + [AddChild(stack[pIndex], element)];
      }
      inElement := false;
      ok := true;
    }

    method HandleStart(name: string, attrs: seq<Attribute>) returns (done: bool)
      requires pIndex == |stack| - 1 && nextElement == None
      modifies this
      ensures pos == old(pos) && lastOffset == old(lastOffset) && pIndex == |stack| - 1 && (inElement ==> stack != [])
      ensures done <==> IsStreamTag(inp, name)
      ensures done ==>
                && !inElement && (nextElement.Some? <==> old(stack) == []) && (nextElement.Some? ==> stack == [])
                && (old(stack) == [] ==> nextElement == Some(Element(name, attrs, "", [])))
      ensures !done ==> nextElement == None && inElement && stack == old(stack) + [Element(name, attrs, "", [])]
    {
      StartElement(name, attrs);
      done := inp.socket && name == STREAM;
      if done {
        var _ := CloseElement(name);
      }
    }

    method HandleEnd(name: string) returns (done: bool, failure: Option<Failure>)
      requires pIndex == |stack| - 1 && nextElement == None
      modifies this
      ensures pos == old(pos) && lastOffset == old(lastOffset)
      ensures failure == if IsStreamTag(inp, name) then Some(ClosedByPeer)
                         else if old(stack) == [] || Top(old(stack)).name != name then Some(UnexpectedEnd)
                         else None
      ensures failure.None? ==> pIndex == |stack| - 1 && !inElement && (done <==> |old(stack)| == 1)
      ensures failure.None? && done ==> stack == [] && nextElement == Some(Top(old(stack)))
      ensures failure.None? && !done ==>
                && nextElement == None
                && stack == SetTop(old(stack)[..|old(stack)| - 1],
                                   AddChild(Top(old(stack)[..|old(stack)| - 1]), Top(old(stack))))
    {
      if inp.socket && name == STREAM {
        return false, Some(ClosedByPeer);
      }
      var ok := CloseElement(name);
      if !ok {
        return false, Some(UnexpectedEnd);
      }
      done, failure := pIndex == -1, None;
    }

    /** The loop body of Parse: one token. An element, or none, is ready once `done` is set. */
    method HandleToken(t: Token) returns (done: bool, failure: Option<Failure>)
      requires Valid() && pos < |inp.toks| && t == inp.toks[pos]
      modifies this
      ensures var e := TokenEffect(inp, old(pos), old(stack), old(inElement));
              && (failure.Some? ==> e == Ends(Failed(failure.value)))
              && (failure.None? && done ==> e == Ends(Returned(pos, nextElement)) && !inElement)
              && (failure.None? && done && nextElement.Some? ==> stack == [])
              && (failure.None? && !done ==> e == GoesOn(stack, inElement) && nextElement == None)
      ensures failure.None? ==> pIndex == |stack| - 1 && (inElement ==> stack != [])
      ensures pos == old(pos) + 1 && lastOffset == old(lastOffset)
    {
      pos, done, failure := pos + 1, false, None;
      match t {
        case StartTag(name, attrs) => done := HandleStart(name, attrs);
        case CharData(text) =>
          if inElement {
            stack := stack[..pIndex] + [stack[pIndex].(text := text)];
          }
        case EndTag(name) => done, failure := HandleEnd(name);
        case Other =>
      }
    }

    /** One call of Parse. A failed call leaves the parser unusable, as the stream is then closed. */
    method Parse() returns (r: Outcome)
      requires Valid()
      modifies this
      ensures r == ParseFrom(inp, old(pos), old(stack), old(inElement), old(lastOffset))
      ensures r.Returned? ==> Valid() && pos == r.at && lastOffset == Offset(inp.sizes, pos) && !inElement
      ensures r.Returned? && r.elem.Some? ==> stack == []
    {
      ghost var goal := ParseFrom(inp, pos, stack, inElement, lastOffset);
      while true
        invariant Valid() && lastOffset == old(lastOffset)
        invariant ParseFrom(inp, pos, stack, inElement, lastOffset) == goal
        decreases |inp.toks| - pos
      {
        if pos == |inp.toks| {
          return Failed(EndOfInput);
        }
        if inp.maxSize > 0 && Offset(inp.sizes, pos + 1) - lastOffset > inp.maxSize {
          return Failed(TooLarge);
        }
        var done, failure := HandleToken(inp.toks[pos]);
        if failure.Some? {
          return Failed(failure.value);
        }
        if done {
          break;
        }
      }
      lastOffset := Offset(inp.sizes, pos);
      r := Returned(pos, nextElement);
      nextElement := None;
    }
  }

  // ---------------------------------------------------------------------------------------------
  // Repeated calls
  // ---------------------------------------------------------------------------------------------

  /** What stands at top level: whole elements and, on a socket, the opening tag of the stream, which is
      returned at once. */
  datatype Piece = Whole(node: Node) | Opening(attrs: seq<Attribute>)

  function PieceTokens(p: Piece): seq<Token> {
    match p
    case Whole(n) => NodeTokens(n)
    case Opening(attrs) => [StartTag(STREAM, attrs)]
  }

  function PieceValue(p: Piece): Element {
    match p
    case Whole(n) => Value(n)
    case Opening(attrs) => Element(STREAM, attrs, "", [])
  }

  predicate PieceOk(inp: Input, p: Piece) {
    match p
    case Whole(n) => NoStreamTag(n, inp.socket)
    case Opening(_) => inp.socket
  }

  lemma ParsePiece(inp: Input, i: nat, gap: seq<Token>, p: Piece, last: nat)
    requires WellFormed(inp) && At(inp, i, gap + PieceTokens(p)) && Gap(gap) && PieceOk(inp, p)
    requires Fits(inp, last, i + |gap| + |PieceTokens(p)|)
    ensures ParseFrom(inp, i, [], false, last) == Returned(i + |gap| + |PieceTokens(p)|, Some(PieceValue(p)))
  {
    match p
    case Whole(n) => ParseNext(inp, i, gap, n, last);
    case Opening(attrs) => ParseOpening(inp, i, gap, attrs, last);
  }

  /** The stream header is an element of its own, returned before anything inside it is read. */
  lemma ParseOpening(inp: Input, i: nat, gap: seq<Token>, attrs: seq<Attribute>, last: nat)
    requires WellFormed(inp) && At(inp, i, gap + [StartTag(STREAM, attrs)]) && Gap(gap) && inp.socket
    requires Fits(inp, last, i + |gap| + 1)
    ensures ParseFrom(inp, i, [], false, last) == Returned(i + |gap| + 1, Some(Element(STREAM, attrs, "", [])))
  {
    AtSplit(inp, i, gap, [StartTag(STREAM, attrs)]);
    OffsetGrows(inp.sizes, i + |gap|, i + |gap| + 1);
    SkipGap(inp, i, gap, last);
    assert inp.toks[i + |gap| + 0] == [StartTag(STREAM, attrs)][0];
  }

  /** A stream of top-level pieces, each after a gap. */
  function DocTokens(items: seq<(seq<Token>, Piece)>): seq<Token> {
    if items == [] then [] else items[0].0 + PieceTokens(items[0].1) + DocTokens(items[1..])
  }

  predicate DocOk(inp: Input, i: nat, items: seq<(seq<Token>, Piece)>)
    requires WellFormed(inp) && At(inp, i, DocTokens(items))
    decreases |items|
  {
    if items == [] then true
    else
      var here := items[0].0 + PieceTokens(items[0].1);
      AtSplit(inp, i, here, DocTokens(items[1..]));
      && Gap(items[0].0) && PieceOk(inp, items[0].1)
      && Fits(inp, Offset(inp.sizes, i), i + |here|)
      && DocOk(inp, i + |here|, items[1..])
  }

  function Values(items: seq<(seq<Token>, Piece)>): seq<Element> {
    if items == [] then [] else [PieceValue(items[0].1)] + Values(items[1..])
  }

  /** The first piece is what the next call returns, and the others stand behind it. */
  lemma DocStep(inp: Input, i: nat, items: seq<(seq<Token>, Piece)>)
    requires WellFormed(inp) && items != [] && At(inp, i, DocTokens(items)) && DocOk(inp, i, items)
    ensures var k := i + |items[0].0| + |PieceTokens(items[0].1)|;
            && ParseFrom(inp, i, [], false, Offset(inp.sizes, i)) == Returned(k, Some(PieceValue(items[0].1)))
            && At(inp, k, DocTokens(items[1..])) && DocOk(inp, k, items[1..])
  {
    AtSplit(inp, i, items[0].0 + PieceTokens(items[0].1), DocTokens(items[1..]));
    ParsePiece(inp, i, items[0].0, items[0].1, Offset(inp.sizes, i));
  }

  /** Called repeatedly, Parse returns the elements of the stream one by one. */
  method ReadAll(p: Parser, count: nat, ghost items: seq<(seq<Token>, Piece)>) returns (es: seq<Element>)
    requires p.Valid() && p.stack == [] && !p.inElement && p.lastOffset == Offset(p.inp.sizes, p.pos)
    requires |items| == count && At(p.inp, p.pos, DocTokens(items)) && DocOk(p.inp, p.pos, items)
    modifies p
    ensures es == Values(items)
    decreases count
  {
    if count == 0 {
      return [];
    }
    DocStep(p.inp, p.pos, items);
    var r := p.Parse();
    var rest := ReadAll(p, count - 1, items[1..]);
    es := [r.elem.value] + rest;
  }

  /** Writing a tree out as tags and parsing them gives the tree back. */
  lemma ParseInvertsNodeOf(inp: Input, i: nat, e: Element, last: nat)
    requires WellFormed(inp) && At(inp, i, NodeTokens(NodeOf(e))) && NoStreamTag(NodeOf(e), inp.socket)
    requires Fits(inp, last, i + |NodeTokens(NodeOf(e))|)
    ensures ParseFrom(inp, i, [], false, last) == Returned(i + |NodeTokens(NodeOf(e))|, Some(e))
  {
    TreeBack(e);
    NodeSpans(inp, i, NodeOf(e));
    ReadNode(inp, i, i + |NodeTokens(NodeOf(e))|, [], false, last, NodeOf(e));
  }
}
