/** What numbers, escapes, literals and byte counts mean, in terms that no function of the parser defines. */
module JsonLaws {
  import opened Basics
  import opened JsonTexts
  import opened JsonSyntax
  import opened JsonParsers
  import opened JsonPrinters

  // ----- numbers -----

  lemma {:induction false} DigitsJoin(a: Text, b: Text)
    requires AllDigits(a) && AllDigits(b)
    ensures AllDigits(a + b) && DigitsValue(a + b) == DigitsValue(a) * Power10(|b|) + DigitsValue(b)
  {
    if b == [] {
      assert a + b == a;
    } else {
      var rest, last := b[..|b| - 1], b[|b| - 1];
      assert (a + b)[..|a + b| - 1] == a + rest && (a + b)[|a + b| - 1] == last;
      assert AllDigits(rest);
      DigitsJoin(a, rest);
      TenTimes(DigitsValue(a), Power10(|rest|), DigitsValue(rest));
    }
  }

  lemma TenTimes(a: nat, unit: nat, b: nat)
    ensures 10 * (a * unit + b) == a * (10 * unit) + 10 * b
  {
  }

  /** One digit more is ten times the number and the digit. */
  lemma DigitMeans(digits: Text, digit: Unit)
    requires AllDigits(digits) && IsDigit(digit)
    ensures AllDigits(digits + [digit]) && DigitsValue(digits + [digit]) == 10 * DigitsValue(digits) + (digit - ZERO)
    ensures DigitsValue([]) == 0
  {
    assert (digits + [digit])[..|digits|] == digits;
  }

  lemma SizeTimes(n: Number)
    requires WellFormed(n)
    ensures Product(Mantissa(n), Power10(|n.fraction|) as real) ==
            (DigitsValue(n.whole) * Power10(|n.fraction|) + DigitsValue(n.fraction)) as real
  {
    RatioTimes(DigitsValue(n.whole), DigitsValue(n.fraction), Power10(|n.fraction|));
  }

  lemma RatioTimes(w: nat, f: nat, unit: nat)
    requires unit > 0
    ensures Product(w as real + Ratio(f as real, unit as real), unit as real) == (w * unit + f) as real
  {
    var u, q := unit as real, Ratio(f as real, unit as real);
    assert q * u == f as real;
    assert (w as real + q) * u == w as real * u + q * u;
    assert (w * unit) as real == w as real * u;
  }

  lemma ScaledUp(size: real, scale: real, unit: real, digits: real)
    requires Product(size, unit) == digits
    ensures Product(Product(size, scale), unit) == Product(digits, scale)
  {
    assert size * scale * unit == size * unit * scale;
  }

  lemma ScaledDown(size: real, scale: real)
    requires scale > 0.0
    ensures Product(Ratio(size, scale), scale) == size
  {
  }

  /** The digits of a token without their dot. */
  function AllOf(n: Number): Text {
    n.whole + n.fraction
  }

  /** A token denotes the number of all its digits, times ten for each unit of a positive exponent, and divided by ten
      for each decimal place and each unit of a negative exponent. A minus sign negates it. */
  lemma NumberMeans(n: Number)
    requires WellFormed(n)
    ensures AllDigits(AllOf(n))
    ensures var digits := DigitsValue(AllOf(n)) as real;
            var places, scale := Power10(|n.fraction|) as real, Power10(DigitsValue(n.exponent)) as real;
            var size := if n.negative then -NumberValue(n) else NumberValue(n);
            if MINUS in n.mark then Product(Product(size, scale), places) == digits
            else Product(size, places) == Product(digits, scale)
  {
    DigitsJoin(n.whole, n.fraction);
    SizeTimes(n);
    if MINUS in n.mark {
      ScaledDown(Mantissa(n), Scale(n));
    } else {
      ScaledUp(Mantissa(n), Scale(n), Power10(|n.fraction|) as real, DigitsValue(AllOf(n)) as real);
    }
  }

  /** The exponent of a token only scales it: by a power of ten, up or down. */
  lemma ExponentScales(n: Number)
    requires WellFormed(n)
    ensures var plain := n.(mark := [], exponent := []);
            var scale := Power10(DigitsValue(n.exponent)) as real;
            WellFormed(plain) &&
            if MINUS in n.mark then Product(NumberValue(n), scale) == NumberValue(plain)
            else NumberValue(n) == Product(NumberValue(plain), scale)
  {
    var plain := n.(mark := [], exponent := []);
    assert DigitsValue([]) == 0 && Power10(0) == 1 && Mantissa(plain) == Mantissa(n);
    TimesOne(Mantissa(n));
    if MINUS in n.mark {
      ScaledDown(Mantissa(n), Scale(n));
      Negated(Ratio(Mantissa(n), Scale(n)), Scale(n));
    } else {
      Negated(Mantissa(n), Scale(n));
    }
  }

  lemma Negated(x: real, scale: real)
    ensures Product(-x, scale) == -Product(x, scale)
  {
  }

  lemma TimesOne(x: real)
    ensures Product(x, 1.0) == x
  {
  }

  // ----- escapes -----

  /** The escapes of one letter, and those of a solidus, a quote and a backslash. Section 7 of RFC 8259. */
  const ESCAPES: map<Unit, Unit> :=
    map[34 := 34, 92 := 92, 47 := 47, 98 := 8, 102 := 12, 110 := 10, 114 := 13, 116 := 9]

  /** An escape of one letter denotes its unit, and a backslash before any other unit but `u` is malformed. */
  lemma EscapeMeans(c: Unit, rest: Text)
    requires c != 117
    ensures Unquote([92, c] + rest) ==
            if c in ESCAPES && Unquote(rest).Some? then Some([ESCAPES[c]] + Unquote(rest).value) else None
  {
    var s := [92, c] + rest;
    assert s[2..] == rest && s[0] == 92 && s[1] == c;
  }

  /** The value of a hexadecimal digit in either case. */
  function HexValue(c: Unit): Option<nat> {
    if 48 <= c <= 57 then Some(c - 48)
    else if 65 <= c <= 70 then Some(c - 65 + 10)
    else if 97 <= c <= 102 then Some(c - 97 + 10)
    else None
  }

  /** The unit that four digits name, or nothing when one of them is no digit. */
  function FourDigits(a: Unit, b: Unit, c: Unit, d: Unit): Option<nat> {
    var w, x, y, z := HexValue(a), HexValue(b), HexValue(c), HexValue(d);
    if w.Some? && x.Some? && y.Some? && z.Some?
    then Some(4096 * w.value + 256 * x.value + 16 * y.value + z.value) else None
  }

  lemma HexUnitMeans(a: Unit, b: Unit, c: Unit, d: Unit)
    ensures HexUnit(a, b, c, d).Some? <==> FourDigits(a, b, c, d).Some?
    ensures HexUnit(a, b, c, d).Some? ==> HexUnit(a, b, c, d).value == FourDigits(a, b, c, d).value
  {
  }

  /** `\u` and four hexadecimal digits denote one unit; with fewer digits the escape is malformed. */
  lemma HexEscapeMeans(a: Unit, b: Unit, c: Unit, d: Unit, rest: Text)
    ensures var unit, text := FourDigits(a, b, c, d), Unquote(rest);
            Unquote([92, 117, a, b, c, d] + rest) ==
            if unit.Some? && text.Some? then Some([unit.value] + text.value) else None
  {
    var first: Text := [92, 117, a, b, c, d];
    var s := first + rest;
    assert s[6..] == rest;
    assert forall k :: 0 <= k < 6 ==> s[k] == first[k];
    HexUnitMeans(a, b, c, d);
    assert FirstLength(s) == 6 && FirstUnit(s) == HexUnit(a, b, c, d);
  }

  /** Every other unit denotes itself, except that a quote and a control unit end or break the string. */
  lemma PlainMeans(c: Unit, rest: Text)
    requires c != 92
    ensures Unquote([c] + rest) == if c >= 32 && c != 34 && Unquote(rest).Some? then Some([c] + Unquote(rest).value)
            else None
    ensures Unquote([]) == Some([]) && Unquote([92]) == None
  {
    assert ([c] + rest)[1..] == rest;
  }

  // ----- values -----

  /** A string denotes the text of its body, a literal its value, an array its items and an object its names and items.
      */
  lemma NodesMean(node: Node)
    requires Valid(node)
    ensures match node
            case Literal(word) => Meaning(node) == if word.Null? then VNull else VBool(word.True?)
            case Numeral(number) => Meaning(node) == VNumber(NumberValue(number))
            case Quoted(body) => Unquote(body).Some? && Meaning(node) == VString(Unquote(body).value)
            case Block(isObject, _, elements) =>
              Meaning(node) == if isObject then VObject(Names(elements), Meanings(elements))
                               else VArray(Meanings(elements))
  {
  }

  /** The values and the names of a block come in the order of the text. */
  lemma ElementsMean(isObject: bool, e: Elements)
    requires e.More? && ValidElements(isObject, e)
    ensures Meanings(Empty) == [] && Names(Empty) == []
    ensures Meanings(e) != [] && Meanings(e)[0] == Meaning(e.node) && Meanings(e)[1..] == Meanings(e.rest)
    ensures Names(e) != [] && Names(e)[1..] == Names(e.rest)
    ensures isObject ==> Unquote(e.name) == Some(Names(e)[0])
  {
  }

  // ----- literals and byte counts -----

  /** The three literals are read as their values. */
  lemma LiteralsRead(limit: nat)
    requires limit >= 5
    ensures ParseText([116, 114, 117, 101], limit) == Parsed(VBool(true))
    ensures ParseText([102, 97, 108, 115, 101], limit) == Parsed(VBool(false))
    ensures ParseText([110, 117, 108, 108], limit) == Parsed(VNull)
  {
    LiteralRead(True, limit);
    LiteralRead(False, limit);
    LiteralRead(Null, limit);
  }

  lemma LiteralRead(word: Word, limit: nat)
    requires limit >= 5
    ensures ParseText(WordText(word), limit) == Parsed(Meaning(Literal(word)))
  {
    LiteralDocument(word);
    WordBytes(word);
    ParserAccepts(WordText(word), limit, Meaning(Literal(word)));
  }

  lemma LiteralDocument(word: Word)
    ensures IsDocument(WordText(word), Literal(word)) && Acceptable(Literal(word), 0, 0)
  {
    var none: Text := [];
    assert AllSpace(none) && WordText(word) == none + (Render(Literal(word)) + none);
  }

  lemma WordBytes(word: Word)
    ensures Bytes(WordText(word)) <= 5
  {
    AsciiBytes(WordText(word));
  }

  /** The UTF-8 form of a text, as RFC 3629 has it. A lone surrogate becomes U+FFFD. */
  function Utf8(text: Text): seq<nat> {
    if text == [] then []
    else if |text| > 1 && HighSurrogate(text[0]) && LowSurrogate(text[1]) then
      var high: int, low: int := text[0], text[1];
      var point := 0x10000 + (high - 0xD800) * 0x400 + (low - 0xDC00);
      [0xF0 + point / 0x40000, 0x80 + point / 0x1000 % 0x40, 0x80 + point / 0x40 % 0x40, 0x80 + point % 0x40]
      + Utf8(text[2..])
    else UnitBytes(if HighSurrogate(text[0]) || LowSurrogate(text[0]) then 0xFFFD else text[0]) + Utf8(text[1..])
  }

  function UnitBytes(c: nat): seq<nat> {
    if c < 0x80 then [c]
    else if c < 0x800 then [0xC0 + c / 0x40, 0x80 + c % 0x40]
    else [0xE0 + c / 0x1000, 0x80 + c / 0x40 % 0x40, 0x80 + c % 0x40]
  }

  /** The byte limit counts the UTF-8 form. */
  lemma {:induction false} BytesCountUtf8(text: Text)
    ensures Bytes(text) == |Utf8(text)|
  {
    if text == [] {
    } else if |text| > 1 && HighSurrogate(text[0]) && LowSurrogate(text[1]) {
      BytesCountUtf8(text[2..]);
    } else {
      BytesCountUtf8(text[1..]);
    }
  }

  lemma {:induction false} AsciiBytes(text: Text)
    requires forall k :: 0 <= k < |text| ==> text[k] < 0x80
    ensures Bytes(text) == |text|
  {
    if text != [] {
      AsciiBytes(text[1..]);
    }
  }

  // ----- the printed form -----

  ghost predicate OwnLine(s: Text, depth: nat) {
    |s| == 1 + 2 * depth && s[0] == 10 && forall k :: 1 <= k < |s| ==> s[k] == 32
  }

  /** Each element of a block stands on its own line, two spaces in for each block around it, and the closing bracket
      on a line of its own. A member has one space after its colon. An empty block has no space. */
  ghost predicate Indented(node: Node, depth: nat)
    decreases node
  {
    node.Block? ==> node.gap == [] && IndentedInside(node.isObject, node.elements, depth)
  }

  ghost predicate IndentedInside(isObject: bool, elements: Elements, depth: nat)
    decreases elements
  {
    elements.More? ==>
      && OwnLine(elements.before, depth + 1) && elements.beforeColon == []
      && elements.gap == (if isObject then [32] else []) && Indented(elements.node, depth + 1)
      && (if elements.rest.More? then elements.after == [] else OwnLine(elements.after, depth))
      && IndentedInside(isObject, elements.rest, depth)
  }

  /** The printer indents by two spaces for each level, as `JSON.stringify` does. */
  lemma {:induction false} LayoutIndented(show: NumberPrinter, value: Value, depth: nat)
    ensures Indented(Layout(show, value, 2 * depth), depth)
    decreases value, 0
  {
    match value
    case VArray(items) => ItemsIndented(show, items, depth);
    case VObject(names, items) => MembersIndented(show, names, items, depth);
    case _ =>
  }

  lemma {:induction false} ItemsIndented(show: NumberPrinter, items: seq<Value>, depth: nat)
    ensures IndentedInside(false, LayoutItems(show, items, 2 * depth), depth)
    decreases items, 1
  {
    if items != [] {
      LayoutIndented(show, items[0], depth + 1);
      ItemsIndented(show, items[1..], depth);
    }
  }

  lemma {:induction false} MembersIndented(show: NumberPrinter, names: seq<Text>, items: seq<Value>, depth: nat)
    ensures IndentedInside(true, LayoutMembers(show, names, items, 2 * depth), depth)
    decreases items, 1
  {
    if names != [] && items != [] {
      LayoutIndented(show, items[0], depth + 1);
      MembersIndented(show, names[1..], items[1..], depth);
    }
  }
}
