/** The indented text of a value, and the round trip through the parser. */
module JsonPrinters {
  import opened Basics
  import opened JsonTexts
  import opened JsonSyntax
  import opened JsonParsers
  import opened JsonReaders
  import opened JsonUnique

  const INPUT_BYTES: nat := 10 * 1024 * 1024

  /** How numbers are written. */
  type NumberPrinter = real -> Number

  ghost predicate Faithful(show: NumberPrinter, x: real) {
    WellFormed(show(x)) && NumberValue(show(x)) == x
  }

  function Spaces(n: nat): (s: Text)
    ensures AllSpace(s)
  {
    seq(n, _ => SPACE)
  }

  function Line(indent: nat): (s: Text)
    ensures AllSpace(s)
  {
    [NEWLINE] + Spaces(indent)
  }

  /** The tree whose text `JSON.stringify` writes with two units of indent. */
  function Layout(show: NumberPrinter, value: Value, indent: nat): Node
    decreases value, 0
  {
    match value
    case VNull => Literal(Null)
    case VBool(b) => Literal(if b then True else False)
    case VNumber(x) => Numeral(show(x))
    case VString(text) => Quoted(Quote(text))
    case VArray(items) => Block(false, [], LayoutItems(show, items, indent))
    case VObject(names, items) => Block(true, [], LayoutMembers(show, names, items, indent))
  }

  function LayoutItems(show: NumberPrinter, items: seq<Value>, indent: nat): Elements
    decreases items, 1
  {
    if items == [] then Empty
    else
      More(Line(indent + 2), [], [], [], Layout(show, items[0], indent + 2),
           if |items| == 1 then Line(indent) else [], LayoutItems(show, items[1..], indent))
  }

  function LayoutMembers(show: NumberPrinter, names: seq<Text>, items: seq<Value>, indent: nat): Elements
    decreases items, 1
  {
    if names == [] || items == [] then Empty
    else
      More(Line(indent + 2), Quote(names[0]), [], [SPACE], Layout(show, items[0], indent + 2),
           if |items| == 1 || |names| == 1 then Line(indent) else [],
           LayoutMembers(show, names[1..], items[1..], indent))
  }

  function Print(show: NumberPrinter, value: Value): Text {
    Render(Layout(show, value, 0)) + [NEWLINE]
  }

  // ----- values that the browser can hold -----

  function Size(value: Value): (n: nat)
    ensures n >= 1
  {
    match value
    case VArray(items) => 1 + Sizes(items)
    case VObject(_, items) => 1 + Sizes(items)
    case _ => 1
  }

  function Sizes(items: seq<Value>): nat {
    if items == [] then 0 else Size(items[0]) + Sizes(items[1..])
  }

  function Nesting(value: Value): nat {
    match value
    case VArray(items) => Nestings(items)
    case VObject(_, items) => Nestings(items)
    case _ => 0
  }

  function Nestings(items: seq<Value>): nat {
    if items == [] then 0 else Max(1 + Nesting(items[0]), Nestings(items[1..]))
  }

  /** Objects have one value for each of their distinct names. */
  ghost predicate Formed(value: Value) {
    match value
    case VArray(items) => AllFormed(items)
    case VObject(names, items) => |names| == |items| && NoRepeats(names) && AllFormed(items)
    case _ => true
  }

  ghost predicate AllFormed(items: seq<Value>) {
    items != [] ==> Formed(items[0]) && AllFormed(items[1..])
  }

  /** Every number in the value has the property. */
  ghost predicate Numbers(value: Value, holds: real -> bool) {
    match value
    case VNumber(x) => holds(x)
    case VArray(items) => AllNumbers(items, holds)
    case VObject(_, items) => AllNumbers(items, holds)
    case _ => true
  }

  ghost predicate AllNumbers(items: seq<Value>, holds: real -> bool) {
    items != [] ==> Numbers(items[0], holds) && AllNumbers(items[1..], holds)
  }

  lemma {:induction false} NumbersImply(value: Value, holds: real -> bool, holds': real -> bool)
    requires Numbers(value, holds) && forall x :: holds(x) ==> holds'(x)
    ensures Numbers(value, holds')
    decreases value, 0
  {
    match value
    case VArray(items) => AllNumbersImply(items, holds, holds');
    case VObject(_, items) => AllNumbersImply(items, holds, holds');
    case _ =>
  }

  lemma {:induction false} AllNumbersImply(items: seq<Value>, holds: real -> bool, holds': real -> bool)
    requires AllNumbers(items, holds) && forall x :: holds(x) ==> holds'(x)
    ensures AllNumbers(items, holds')
    decreases items, 1
  {
    if items != [] {
      NumbersImply(items[0], holds, holds');
      AllNumbersImply(items[1..], holds, holds');
    }
  }

  ghost function Faithfully(show: NumberPrinter): real -> bool {
    x => Faithful(show, x)
  }

  ghost function Safely(): real -> bool {
    x => SafeNumber(x)
  }

  /** A value whose numbers the printer writes faithfully. */
  ghost predicate Plain(show: NumberPrinter, value: Value) {
    Formed(value) && Numbers(value, Faithfully(show))
  }

  /** What the layout of a value has to be. */
  ghost predicate LaidOut(value: Value, node: Node) {
    && Valid(node) && DistinctNames(node) && (SafeNumbers(node) <==> Numbers(value, Safely()))
    && Meaning(node) == value && Count(node) == Size(value) && Depth(node) == Nesting(value)
  }

  ghost predicate LaidOutAll(isObject: bool, items: seq<Value>, elements: Elements) {
    && ValidElements(isObject, elements) && DistinctInside(elements)
    && (SafeInside(isObject, elements) <==> AllNumbers(items, Safely())) && Meanings(elements) == items
    && CountElements(elements) == Sizes(items) && DepthElements(elements) == Nestings(items)
  }

  lemma {:induction false} LayoutGood(show: NumberPrinter, value: Value, indent: nat)
    requires Plain(show, value)
    ensures LaidOut(value, Layout(show, value, indent))
    decreases value, 0
  {
    match value
    case VNull =>
    case VBool(b) =>
    case VNumber(x) =>
    case VString(text) =>
      QuoteRoundTrip(text);
    case VArray(items) =>
      ItemsGood(show, items, indent);
    case VObject(names, items) =>
      MembersGood(show, names, items, indent);
  }

  lemma {:induction false} ItemsGood(show: NumberPrinter, items: seq<Value>, indent: nat)
    requires AllFormed(items) && AllNumbers(items, Faithfully(show))
    ensures LaidOutAll(false, items, LayoutItems(show, items, indent))
    decreases items, 1
  {
    if items != [] {
      LayoutGood(show, items[0], indent + 2);
      ItemsGood(show, items[1..], indent);
    }
  }

  lemma {:induction false} MembersGood(show: NumberPrinter, names: seq<Text>, items: seq<Value>, indent: nat)
    requires AllFormed(items) && AllNumbers(items, Faithfully(show)) && |names| == |items|
    ensures LaidOutAll(true, items, LayoutMembers(show, names, items, indent))
    ensures Names(LayoutMembers(show, names, items, indent)) == names
    decreases items, 1
  {
    if items != [] {
      QuoteRoundTrip(names[0]);
      LayoutGood(show, items[0], indent + 2);
      MembersGood(show, names[1..], items[1..], indent);
    }
  }

  // ----- the round trip -----

  lemma PrintIsDocument(show: NumberPrinter, value: Value)
    ensures IsDocument(Print(show, value), Layout(show, value, 0))
  {
    var node := Layout(show, value, 0);
    assert [] + (Render(node) + [NEWLINE]) == Print(show, value);
    assert AllSpace([]) && AllSpace([NEWLINE]);
  }

  /** The value has only numbers that are exact in the browser, and it and its text are within the limits. */
  ghost predicate WithinLimits(show: NumberPrinter, value: Value, limit: nat) {
    && Numbers(value, Safely()) && Size(value) <= MAX_NODES && Nesting(value) <= MAX_DEPTH
    && Bytes(Print(show, value)) <= limit
  }

  /** Parsing undoes printing for the values within the limits. The parser refuses the texts of all others. */
  lemma PrintThenParse(show: NumberPrinter, value: Value, limit: nat)
    requires Plain(show, value)
    ensures ParseText(Print(show, value), limit).Parsed? <==> WithinLimits(show, value, limit)
    ensures ParseText(Print(show, value), limit) == Parsed(value) <==> WithinLimits(show, value, limit)
  {
    LayoutGood(show, value, 0);
    PrintIsDocument(show, value);
    TakenExactly(Print(show, value), Layout(show, value, 0), limit);
  }

  /** Writes a file: the size first, then the check that the parser takes the text.
      A value with an unsafe number, or beyond the limits, gives no text. */
  method Encode(show: NumberPrinter, value: Value) returns (text: Option<Text>)
    ensures text.Some? ==> text.value == Print(show, value)
    ensures Plain(show, value) ==> (text.Some? <==> WithinLimits(show, value, INPUT_BYTES))
    ensures Plain(show, value) && !Numbers(value, Safely()) ==> text == None
    ensures Plain(show, value) && text.Some? ==> ParseText(text.value, INPUT_BYTES) == Parsed(value)
  {
    var printed := Print(show, value);
    if Plain(show, value) {
      PrintThenParse(show, value, INPUT_BYTES);
    }
    if Bytes(printed) > INPUT_BYTES {
      return None;
    }
    var parsed := Parse(printed, INPUT_BYTES);
    text := if parsed.Parsed? then Some(printed) else None;
  }
}
