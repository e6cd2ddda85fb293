/** JSON texts as syntax trees that keep every unit, and the values that they denote. */
module JsonSyntax {
  import opened Basics
  import opened JsonTexts

  datatype Word = True | False | Null

  /** One element is an array item, or an object member with its name between quotes. */
  datatype Node =
    | Literal(word: Word)
    | Numeral(number: Number)
    | Quoted(body: Text)
    | Block(isObject: bool, gap: Text, elements: Elements)

  datatype Elements =
    | Empty
    | More(before: Text, name: Text, beforeColon: Text, gap: Text, node: Node, after: Text, rest: Elements)

  datatype Value =
    | VNull
    | VBool(b: bool)
    | VNumber(x: real)
    | VString(text: Text)
    | VArray(items: seq<Value>)
    | VObject(names: seq<Text>, items: seq<Value>)

  const MAX_NODES: nat := 300000
  const MAX_DEPTH: nat := 32

  // ----- the text of a tree -----

  function WordText(word: Word): (s: Text)
    ensures |s| >= 4
  {
    match word
    case True => [116, 114, 117, 101]
    case False => [102, 97, 108, 115, 101]
    case Null => [110, 117, 108, 108]
  }

  function Open(isObject: bool): Unit { if isObject then 123 else 91 }
  function Close(isObject: bool): Unit { if isObject then 125 else 93 }

  function Render(node: Node): Text
    decreases node
  {
    match node
    case Literal(word) => WordText(word)
    case Numeral(number) => NumberText(number)
    case Quoted(body) => [QUOTE] + (body + [QUOTE])
    case Block(isObject, gap, elements) =>
      [Open(isObject)] + (gap + (RenderElements(isObject, elements) + [Close(isObject)]))
  }

  /** The name of a member and its colon. */
  function NamePart(isObject: bool, name: Text, beforeColon: Text): Text {
    if isObject then [QUOTE] + (name + ([QUOTE] + (beforeColon + [COLON]))) else []
  }

  function RenderElements(isObject: bool, elements: Elements): Text
    decreases elements
  {
    match elements
    case Empty => []
    case More(before, name, beforeColon, gap, node, after, rest) =>
      before + (NamePart(isObject, name, beforeColon) + (gap + (Render(node) + (after +
        (if rest.Empty? then [] else [COMMA] + RenderElements(isObject, rest))))))
  }

  /** Every token is well formed, and white space stands only where the grammar has it. Section 2 of RFC 8259. */
  predicate Valid(node: Node)
    decreases node
  {
    match node
    case Literal(_) => true
    case Numeral(number) => WellFormed(number)
    case Quoted(body) => Unquote(body).Some?
    case Block(isObject, gap, elements) =>
      AllSpace(gap) && (elements.Empty? || gap == []) && ValidElements(isObject, elements)
  }

  predicate ValidElements(isObject: bool, elements: Elements)
    decreases elements
  {
    match elements
    case Empty => true
    case More(before, name, beforeColon, gap, node, after, rest) =>
      && AllSpace(before) && AllSpace(beforeColon) && AllSpace(gap) && AllSpace(after)
      && (if isObject then Unquote(name).Some? else name == [] && beforeColon == [] && gap == [])
      && Valid(node) && ValidElements(isObject, rest)
  }

  // ----- the value of a tree -----

  function Decode(body: Text): Text {
    match Unquote(body) case Some(text) => text case None => []
  }

  function DigitsValue(digits: Text): nat
    requires AllDigits(digits)
  {
    if digits == [] then 0
    else
      assert forall k :: 0 <= k < |digits| - 1 ==> digits[..|digits| - 1][k] == digits[k];
      10 * DigitsValue(digits[..|digits| - 1]) + (digits[|digits| - 1] - ZERO)
  }

  function Power10(n: nat): (p: nat)
    ensures p > 0
  {
    if n == 0 then 1 else 10 * Power10(n - 1)
  }

  /** The exact number that a token denotes. */
  function NumberValue(n: Number): real
    requires WellFormed(n)
  {
    var scaled := if MINUS in n.mark then Ratio(Mantissa(n), Scale(n)) else Product(Mantissa(n), Scale(n));
    if n.negative then -scaled else scaled
  }

  /** The number without its sign and its exponent. */
  function Mantissa(n: Number): real
    requires WellFormed(n)
  {
    DigitsValue(n.whole) as real + Ratio(DigitsValue(n.fraction) as real, Power10(|n.fraction|) as real)
  }

  function Scale(n: Number): (scale: real)
    requires WellFormed(n)
    ensures scale > 0.0
  {
    Power10(DigitsValue(n.exponent)) as real
  }

  function Product(a: real, b: real): real { a * b }

  function Ratio(a: real, b: real): real
    requires b > 0.0
  {
    a / b
  }

  /** The nearest float64 is not an integer above 2^53 - 1, and is finite. The tie at half a unit rounds up to 2^53. */
  predicate SafeNumber(x: real) {
    -9007199254740991.5 < x < 9007199254740991.5
  }

  function Names(elements: Elements): (names: seq<Text>) {
    match elements
    case Empty => []
    case More(_, name, _, _, _, _, rest) => [Decode(name)] + Names(rest)
  }

  function Meaning(node: Node): Value
    decreases node
  {
    match node
    case Literal(word) => (match word case True => VBool(true) case False => VBool(false) case Null => VNull)
    case Numeral(number) => VNumber(if WellFormed(number) then NumberValue(number) else 0.0)
    case Quoted(body) => VString(Decode(body))
    case Block(isObject, _, elements) =>
      Assembled(isObject, Names(elements), Meanings(elements))
  }

  function Assembled(isObject: bool, names: seq<Text>, items: seq<Value>): Value {
    if isObject then VObject(names, items) else VArray(items)
  }

  function Meanings(elements: Elements): (values: seq<Value>)
    decreases elements
  {
    match elements
    case Empty => []
    case More(_, _, _, _, node, _, rest) => [Meaning(node)] + Meanings(rest)
  }

  // ----- the limits -----

  /** The number of values in the tree. */
  function Count(node: Node): (n: nat)
    ensures n >= 1
  {
    if node.Block? then 1 + CountElements(node.elements) else 1
  }

  function CountElements(elements: Elements): nat {
    match elements
    case Empty => 0
    case More(_, _, _, _, node, _, rest) => Count(node) + CountElements(rest)
  }

  function Max(a: nat, b: nat): nat { if a < b then b else a }

  /** The number of blocks around the deepest value. */
  function Depth(node: Node): nat {
    if node.Block? then DepthElements(node.elements) else 0
  }

  function DepthElements(elements: Elements): nat {
    match elements
    case Empty => 0
    case More(_, _, _, _, node, _, rest) => Max(1 + Depth(node), DepthElements(rest))
  }

  ghost predicate NoRepeats(names: seq<Text>) {
    forall i, j :: 0 <= i < j < |names| ==> names[i] != names[j]
  }

  /** No object repeats a member name. */
  ghost predicate DistinctNames(node: Node) {
    node.Block? ==> (node.isObject ==> NoRepeats(Names(node.elements))) && DistinctInside(node.elements)
  }

  ghost predicate DistinctInside(elements: Elements) {
    elements.More? ==> DistinctNames(elements.node) && DistinctInside(elements.rest)
  }

  /** Every number is exact in the browser. */
  predicate SafeNumbers(node: Node)
    requires Valid(node)
    decreases node
  {
    match node
    case Numeral(number) => SafeNumber(NumberValue(number))
    case Block(isObject, _, elements) => SafeInside(isObject, elements)
    case _ => true
  }

  predicate SafeInside(isObject: bool, elements: Elements)
    requires ValidElements(isObject, elements)
    decreases elements
  {
    elements.More? ==> SafeNumbers(elements.node) && SafeInside(isObject, elements.rest)
  }

  /** A tree that the browser accepts inside `depth` blocks after `nodes` values. */
  ghost predicate Acceptable(node: Node, nodes: nat, depth: nat) {
    Valid(node) && SafeNumbers(node) && DistinctNames(node) && nodes + Count(node) <= MAX_NODES &&
      depth + Depth(node) <= MAX_DEPTH
  }

  ghost predicate Fresh(names: seq<Text>, seen: set<Text>) {
    forall k :: 0 <= k < |names| ==> names[k] !in seen
  }

  ghost predicate AcceptableElements(isObject: bool, elements: Elements, nodes: nat, depth: nat, seen: set<Text>) {
    && ValidElements(isObject, elements) && SafeInside(isObject, elements) && DistinctInside(elements)
    && (isObject ==> NoRepeats(Names(elements)) && Fresh(Names(elements), seen))
    && nodes + CountElements(elements) <= MAX_NODES && depth + DepthElements(elements) <= MAX_DEPTH
  }

  lemma FreshSplit(name: Text, names: seq<Text>, seen: set<Text>)
    ensures NoRepeats([name] + names) && Fresh([name] + names, seen) <==>
      name !in seen && NoRepeats(names) && Fresh(names, seen + {name})
  {
    var all := [name] + names;
    NoRepeatsSplit(name, names);
    assert forall k :: 0 <= k < |names| ==> all[k + 1] == names[k];
    assert all[0] == name;
    if name in names {
      var k :| 0 <= k < |names| && names[k] == name;
    }
  }

  lemma NoRepeatsSplit(name: Text, names: seq<Text>)
    ensures NoRepeats([name] + names) <==> name !in names && NoRepeats(names)
  {
    var all := [name] + names;
    if NoRepeats(all) {
      forall i, j | 0 <= i < j < |names| ensures names[i] != names[j] {
        assert all[i + 1] == names[i] && all[j + 1] == names[j];
      }
      forall j | 0 <= j < |names| ensures names[j] != name {
        assert all[0] == name && all[j + 1] == names[j];
      }
    }
    if name !in names && NoRepeats(names) {
      forall i, j | 0 <= i < j < |all| ensures all[i] != all[j] {
        assert all[j] == names[j - 1];
        if i > 0 { assert all[i] == names[i - 1]; }
      }
    }
  }
}
