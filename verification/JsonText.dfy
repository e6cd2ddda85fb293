/** JSON tokens over UTF-16 code units: white space, strings and numbers. */
module JsonTexts {
  import opened Basics

  /** A UTF-16 code unit. */
  type Unit = x: int | 0 <= x < 0x10000

  type Text = seq<Unit>

  const QUOTE: Unit := 34
  const BACKSLASH: Unit := 92
  const COMMA: Unit := 44
  const COLON: Unit := 58
  const MINUS: Unit := 45
  const PLUS: Unit := 43
  const DOT: Unit := 46
  const ZERO: Unit := 48
  const NINE: Unit := 57
  const LOWER_E: Unit := 101
  const UPPER_E: Unit := 69
  const SPACE: Unit := 32
  const NEWLINE: Unit := 10
  const LOWER_U: Unit := 117

  // ----- white space -----

  predicate IsSpace(c: Unit) {
    c == 9 || c == 10 || c == 13 || c == 32
  }

  predicate AllSpace(s: Text) {
    forall k :: 0 <= k < |s| ==> IsSpace(s[k])
  }

  /** The number of white-space units at the start. */
  function Lead(s: Text): (n: nat)
    ensures n <= |s|
  {
    if s == [] || !IsSpace(s[0]) then 0 else 1 + Lead(s[1..])
  }

  function AfterSpace(s: Text): (rest: Text)
    ensures |rest| <= |s|
  {
    s[Lead(s)..]
  }

  lemma {:induction false} SpaceSplits(s: Text)
    ensures s == s[..Lead(s)] + AfterSpace(s) && AllSpace(s[..Lead(s)])
    ensures AfterSpace(s) != [] ==> !IsSpace(AfterSpace(s)[0])
  {
    if s != [] && IsSpace(s[0]) {
      SpaceSplits(s[1..]);
      assert AfterSpace(s) == AfterSpace(s[1..]);
      assert s[..Lead(s)] == [s[0]] + s[1..][..Lead(s[1..])];
    }
  }

  lemma {:induction false} LeadUnique(s: Text, n: nat)
    requires n <= |s| && AllSpace(s[..n]) && (n < |s| ==> !IsSpace(s[n]))
    ensures Lead(s) == n
  {
    if n > 0 {
      assert s[..n][0] == s[0] && s[1..][..n - 1] == s[..n][1..];
      LeadUnique(s[1..], n - 1);
    }
  }

  lemma SpaceThen(space: Text, rest: Text)
    requires AllSpace(space) && (rest == [] || !IsSpace(rest[0]))
    ensures Lead(space + rest) == |space| && AfterSpace(space + rest) == rest
  {
    assert (space + rest)[..|space|] == space;
    LeadUnique(space + rest, |space|);
  }

  // ----- strings -----

  /** The length of a string body up to its closing quote: an escape hides the unit after it. */
  function BodyLength(s: Text): (n: Option<nat>)
    ensures n.Some? ==> n.value < |s| && s[n.value] == QUOTE
  {
    if s == [] then None
    else if s[0] == QUOTE then Some(0)
    else if s[0] == BACKSLASH then
      if |s| < 2 then None
      else match BodyLength(s[2..]) case None => None case Some(n) => Some(n + 2)
    else match BodyLength(s[1..]) case None => None case Some(n) => Some(n + 1)
  }

  function HexDigit(c: Unit): (digit: Option<nat>)
    ensures digit.Some? ==> digit.value < 16
  {
    if 48 <= c <= 57 then Some(c - 48)
    else if 97 <= c <= 102 then Some(c - 87)
    else if 65 <= c <= 70 then Some(c - 55)
    else None
  }

  /** The unit that four hexadecimal digits name. */
  function HexUnit(s0: Unit, s1: Unit, s2: Unit, s3: Unit): (unit: Option<Unit>) {
    var a, b, c, d := HexDigit(s0), HexDigit(s1), HexDigit(s2), HexDigit(s3);
    if a.Some? && b.Some? && c.Some? && d.Some?
    then Some(((a.value * 16 + b.value) * 16 + c.value) * 16 + d.value)
    else None
  }

  /** The unit that a one-letter escape names. */
  function SimpleEscape(c: Unit): Option<Unit> {
    if c == QUOTE || c == BACKSLASH || c == 47 then Some(c)
    else if c == 98 then Some(8)
    else if c == 102 then Some(12)
    else if c == 110 then Some(10)
    else if c == 114 then Some(13)
    else if c == 116 then Some(9)
    else None
  }

  function Prepend(c: Unit, rest: Option<Text>): Option<Text> {
    if rest.Some? then Some([c] + rest.value) else None
  }

  /** The length of the first character of a well-formed body. */
  function FirstLength(body: Text): (n: nat)
    requires body != []
    ensures n > 0
  {
    if body[0] != BACKSLASH then 1 else if |body| > 1 && body[1] == LOWER_U then 6 else 2
  }

  /** The unit that the first character of a body denotes: a plain unit or an escape. */
  function FirstUnit(body: Text): (unit: Option<Unit>)
    requires body != []
    ensures unit.Some? ==> FirstLength(body) <= |body|
  {
    if body[0] == QUOTE || body[0] < 32 then None
    else if body[0] != BACKSLASH then Some(body[0])
    else if |body| < FirstLength(body) then None
    else if body[1] == LOWER_U then HexUnit(body[2], body[3], body[4], body[5])
    else SimpleEscape(body[1])
  }

  /** The text that a string body denotes. Section 7 of RFC 8259. */
  function Unquote(body: Text): Option<Text> {
    if body == [] then Some([])
    else match FirstUnit(body)
      case None => None
      case Some(unit) => Prepend(unit, Unquote(body[FirstLength(body)..]))
  }

  /** The scan that skips escapes passes a plain unit, or an escape of six units without a quote. */
  lemma PassHex(s: Text)
    requires |s| >= 6 && s[0] == BACKSLASH && s[1] == LOWER_U && HexUnit(s[2], s[3], s[4], s[5]).Some?
    ensures BodyLength(s) == match BodyLength(s[6..]) case None => None case Some(n) => Some(n + 6)
  {
    var t := s[2..];
    assert forall k :: 0 <= k < 4 ==> s[k + 2] == t[k];
    assert t[1..][1..] == t[2..] && t[2..][1..] == t[3..] && t[3..][1..] == t[4..] && t[4..] == s[6..];
    assert BodyLength(s) == match BodyLength(t) case None => None case Some(n) => Some(n + 2);
    assert BodyLength(t) == match BodyLength(t[1..]) case None => None case Some(n) => Some(n + 1);
    assert BodyLength(t[1..]) == match BodyLength(t[2..]) case None => None case Some(n) => Some(n + 1);
    assert BodyLength(t[2..]) == match BodyLength(t[3..]) case None => None case Some(n) => Some(n + 1);
    assert BodyLength(t[3..]) == match BodyLength(t[4..]) case None => None case Some(n) => Some(n + 1);
  }

  /** A well-formed body ends exactly at the quote after it. */
  lemma {:induction false} BodyEnds(body: Text, rest: Text)
    requires Unquote(body).Some?
    ensures BodyLength(body + [QUOTE] + rest) == Some(|body|)
  {
    var s := body + [QUOTE] + rest;
    if body == [] {
      assert s[0] == QUOTE;
    } else {
      var n := FirstLength(body);
      BodyEnds(body[n..], rest);
      assert s[n..] == body[n..] + [QUOTE] + rest;
      if n == 6 {
        PassHex(s);
      }
    }
  }

  // ----- quoting -----

  function HexLetter(digit: nat): Unit
    requires digit < 16
  {
    if digit < 10 then 48 + digit else 87 + digit
  }

  function HexEscape(c: Unit): (s: Text)
    ensures |s| == 6
  {
    [BACKSLASH, LOWER_U, HexLetter(c / 4096), HexLetter(c / 256 % 16), HexLetter(c / 16 % 16), HexLetter(c % 16)]
  }

  predicate HighSurrogate(c: Unit) { 0xD800 <= c < 0xDC00 }
  predicate LowSurrogate(c: Unit) { 0xDC00 <= c < 0xE000 }

  function EscapeUnit(c: Unit): (s: Text)
    ensures s != []
  {
    if c == QUOTE || c == BACKSLASH then [BACKSLASH, c]
    else if c == 8 then [BACKSLASH, 98]
    else if c == 12 then [BACKSLASH, 102]
    else if c == 10 then [BACKSLASH, 110]
    else if c == 13 then [BACKSLASH, 114]
    else if c == 9 then [BACKSLASH, 116]
    else if c < 32 then HexEscape(c)
    else [c]
  }

  function QuoteUnit(c: Unit): (s: Text)
    ensures s != []
  {
    if HighSurrogate(c) || LowSurrogate(c) then HexEscape(c) else EscapeUnit(c)
  }

  /** The string body that `JSON.stringify` writes: it also escapes lone surrogates. */
  function Quote(text: Text): Text {
    if text == [] then []
    else if |text| > 1 && HighSurrogate(text[0]) && LowSurrogate(text[1]) then text[..2] + Quote(text[2..])
    else QuoteUnit(text[0]) + Quote(text[1..])
  }

  lemma HexLetterDigit(digit: nat)
    requires digit < 16
    ensures HexDigit(HexLetter(digit)) == Some(digit)
  {
  }

  lemma HexParts(c: nat)
    ensures ((c / 4096 * 16 + c / 256 % 16) * 16 + c / 16 % 16) * 16 + c % 16 == c
  {
    var a := c / 16;
    var b := a / 16;
    assert c / 256 == b && c / 4096 == b / 16;
    assert c == 16 * a + c % 16 && a == 16 * b + a % 16 && b == 16 * (b / 16) + b % 16;
  }

  lemma HexUnitRoundTrip(c: Unit)
    ensures HexUnit(HexLetter(c / 4096), HexLetter(c / 256 % 16), HexLetter(c / 16 % 16), HexLetter(c % 16)) == Some(c)
  {
    HexParts(c);
    HexLetterDigit(c / 4096);
    HexLetterDigit(c / 256 % 16);
    HexLetterDigit(c / 16 % 16);
    HexLetterDigit(c % 16);
  }

  lemma UnquoteFirst(first: Text, c: Unit, rest: Text)
    requires first != [] && FirstUnit(first) == Some(c) && FirstLength(first) == |first|
    ensures Unquote(first + rest) == Prepend(c, Unquote(rest))
  {
    var s := first + rest;
    assert s[|first|..] == rest;
    assert forall k :: 0 <= k < |first| ==> s[k] == first[k];
  }

  lemma UnquoteHex(c: Unit, rest: Text)
    ensures Unquote(HexEscape(c) + rest) == Prepend(c, Unquote(rest))
  {
    HexUnitRoundTrip(c);
    UnquoteFirst(HexEscape(c), c, rest);
  }

  lemma UnquoteEscape(c: Unit, rest: Text)
    ensures Unquote(EscapeUnit(c) + rest) == Prepend(c, Unquote(rest))
  {
    if |EscapeUnit(c)| == 6 {
      UnquoteHex(c, rest);
    } else {
      UnquoteFirst(EscapeUnit(c), c, rest);
    }
  }

  lemma UnquotePlain(c: Unit, rest: Text)
    requires c != QUOTE && c != BACKSLASH && c >= 32
    ensures Unquote([c] + rest) == Prepend(c, Unquote(rest))
  {
    UnquoteFirst([c], c, rest);
  }

  lemma UnquotePair(a: Unit, b: Unit, rest: Text)
    requires HighSurrogate(a) && LowSurrogate(b)
    ensures Unquote([a, b] + rest) == Prepend(a, Prepend(b, Unquote(rest)))
  {
    assert [a, b] + rest == [a] + ([b] + rest);
    UnquotePlain(a, [b] + rest);
    UnquotePlain(b, rest);
  }

  lemma UnquoteUnit(c: Unit, rest: Text)
    ensures Unquote(QuoteUnit(c) + rest) == Prepend(c, Unquote(rest))
  {
    if HighSurrogate(c) || LowSurrogate(c) {
      UnquoteHex(c, rest);
    } else {
      UnquoteEscape(c, rest);
    }
  }

  lemma FirstTwo(text: Text)
    requires |text| > 1
    ensures text[..2] == [text[0], text[1]] && text == [text[0]] + ([text[1]] + text[2..])
  {
  }

  /** Unquoting undoes quoting. */
  lemma {:induction false} QuoteRoundTrip(text: Text)
    ensures Unquote(Quote(text)) == Some(text)
  {
    if text == [] {
    } else if |text| > 1 && HighSurrogate(text[0]) && LowSurrogate(text[1]) {
      var rest := Quote(text[2..]);
      QuoteRoundTrip(text[2..]);
      assert Unquote(rest) == Some(text[2..]);
      UnquotePair(text[0], text[1], rest);
      FirstTwo(text);
    } else {
      var rest := Quote(text[1..]);
      QuoteRoundTrip(text[1..]);
      assert Unquote(rest) == Some(text[1..]);
      UnquoteUnit(text[0], rest);
      assert text == [text[0]] + text[1..];
    }
  }

  // ----- numbers -----

  predicate IsDigit(c: Unit) { ZERO <= c <= NINE }

  predicate AllDigits(s: Text) {
    forall k :: 0 <= k < |s| ==> IsDigit(s[k])
  }

  /** The number of digits at the start. */
  function Digits(s: Text): (n: nat)
    ensures n <= |s| && AllDigits(s[..n]) && (n < |s| ==> !IsDigit(s[n]))
  {
    if s == [] || !IsDigit(s[0]) then 0
    else
      var n := 1 + Digits(s[1..]);
      assert forall k :: 1 <= k < n ==> s[..n][k] == s[1..][..n - 1][k - 1];
      n
  }

  lemma {:induction false} DigitsThen(digits: Text, rest: Text)
    requires AllDigits(digits) && (rest == [] || !IsDigit(rest[0]))
    ensures Digits(digits + rest) == |digits|
  {
    if digits == [] {
      assert digits + rest == rest;
    } else {
      assert (digits + rest)[1..] == digits[1..] + rest;
      DigitsThen(digits[1..], rest);
    }
  }

  /** The parts of a number token. An empty fraction or exponent is absent. Section 6 of RFC 8259. */
  datatype Number = Number(negative: bool, whole: Text, fraction: Text, mark: Text, exponent: Text)

  predicate IsMark(mark: Text) {
    && 1 <= |mark| <= 2 && (mark[0] == LOWER_E || mark[0] == UPPER_E)
    && (|mark| == 2 ==> mark[1] == PLUS || mark[1] == MINUS)
  }

  predicate WellFormed(n: Number) {
    && AllDigits(n.whole) && n.whole != [] && (n.whole[0] == ZERO ==> |n.whole| == 1)
    && AllDigits(n.fraction) && AllDigits(n.exponent)
    && if n.exponent == [] then n.mark == [] else IsMark(n.mark)
  }

  function FractionText(n: Number): Text {
    if n.fraction == [] then [] else [DOT] + n.fraction
  }

  /** The length of the whole part of an unsigned number. */
  function WholeLength(s: Text): (n: nat)
    ensures n <= |s| && AllDigits(s[..n]) && (n > 1 ==> s[0] != ZERO)
  {
    if s == [] || !IsDigit(s[0]) then 0 else if s[0] == ZERO then 1 else Digits(s)
  }

  /** The fraction digits after a dot. */
  function ReadFraction(s: Text): (r: (Text, Text))
    ensures AllDigits(r.0) && s == (if r.0 == [] then [] else [DOT] + r.0) + r.1
  {
    var n := if s != [] && s[0] == DOT then Digits(s[1..]) else 0;
    if n > 0 then (s[1..][..n], s[1..][n..]) else ([], s)
  }

  /** The length of an exponent's mark and sign. */
  function MarkLength(s: Text): (n: nat)
    ensures n <= |s| && (n > 0 ==> IsMark(s[..n]))
  {
    if s == [] || (s[0] != LOWER_E && s[0] != UPPER_E) then 0
    else if |s| > 1 && (s[1] == PLUS || s[1] == MINUS) then 2
    else 1
  }

  /** The mark, the digits and the rest. */
  function ReadExponent(s: Text): (r: (Text, Text, Text))
    ensures AllDigits(r.1) && s == r.0 + r.1 + r.2 && if r.1 == [] then r.0 == [] else IsMark(r.0)
  {
    var m := MarkLength(s);
    var n := if m > 0 then Digits(s[m..]) else 0;
    if n > 0 then (s[..m], s[m..][..n], s[m..][n..]) else ([], [], s)
  }

  function UnsignedText(n: Number): Text {
    n.whole + (FractionText(n) + (n.mark + n.exponent))
  }

  function NumberText(n: Number): Text {
    (if n.negative then [MINUS] else []) + UnsignedText(n)
  }

  function ReadUnsigned(negative: bool, s: Text): (r: Option<(Number, Text)>)
    ensures r.Some? ==> r.value.0.negative == negative && WellFormed(r.value.0)
    ensures r.Some? ==> s == UnsignedText(r.value.0) + r.value.1 && |r.value.1| < |s|
  {
    var w := WholeLength(s);
    if w == 0 then None
    else
      var f := ReadFraction(s[w..]);
      var e := ReadExponent(f.1);
      NumberParts(negative, s, w, f, e);
      Some((Number(negative, s[..w], f.0, e.0, e.1), e.2))
  }

  lemma NumberParts(negative: bool, s: Text, w: nat, f: (Text, Text), e: (Text, Text, Text))
    requires w == WholeLength(s) > 0 && f == ReadFraction(s[w..]) && e == ReadExponent(f.1)
    ensures var n := Number(negative, s[..w], f.0, e.0, e.1);
            WellFormed(n) && s == UnsignedText(n) + e.2 && |e.2| < |s|
  {
    var n := Number(negative, s[..w], f.0, e.0, e.1);
    WholeRead(s);
    NumberSplits(s, n, s[w..], f.1, e.2);
  }

  lemma WholeRead(s: Text)
    requires WholeLength(s) > 0
    ensures var whole := s[..WholeLength(s)];
            whole != [] && (whole[0] == ZERO ==> |whole| == 1) && s == whole + s[WholeLength(s)..]
  {
  }

  lemma NumberSplits(s: Text, n: Number, afterWhole: Text, afterFraction: Text, rest: Text)
    requires s == n.whole + afterWhole && n.whole != []
    requires afterWhole == FractionText(n) + afterFraction && afterFraction == n.mark + n.exponent + rest
    ensures s == UnsignedText(n) + rest && |rest| < |s|
  {
  }

  /** The longest number at the start of the text, and the text after it. */
  function ReadNumber(s: Text): (r: Option<(Number, Text)>)
    ensures r.Some? ==> WellFormed(r.value.0) && s == NumberText(r.value.0) + r.value.1 && |r.value.1| < |s|
  {
    var negative := s != [] && s[0] == MINUS;
    var r := ReadUnsigned(negative, if negative then s[1..] else s);
    SignRead(s, negative, r);
    r
  }

  lemma SignRead(s: Text, negative: bool, r: Option<(Number, Text)>)
    requires negative <==> s != [] && s[0] == MINUS
    requires r == ReadUnsigned(negative, if negative then s[1..] else s)
    ensures r.Some? ==> s == NumberText(r.value.0) + r.value.1 && |r.value.1| < |s|
  {
    if r.Some? {
      var unsigned := UnsignedText(r.value.0);
      assert s == (if negative then [MINUS] else []) + (unsigned + r.value.1);
      Associate(if negative then [MINUS] else [], unsigned, r.value.1);
    }
  }

  lemma Associate(a: Text, b: Text, c: Text)
    ensures a + (b + c) == (a + b) + c
  {
  }

  /** No number goes on with this unit. */
  predicate Delimited(rest: Text) {
    rest == [] || !(IsDigit(rest[0]) || rest[0] in {DOT, LOWER_E, UPPER_E})
  }

  lemma ReadExponentOf(n: Number, rest: Text)
    requires WellFormed(n) && Delimited(rest)
    ensures ReadExponent(n.mark + n.exponent + rest) == (n.mark, n.exponent, rest)
  {
    var s := n.mark + n.exponent + rest;
    if n.exponent == [] {
      assert s == rest;
    } else {
      var m, tail := |n.mark|, n.exponent + rest;
      assert s == n.mark + tail;
      assert MarkLength(s) == m && s[..m] == n.mark && s[m..] == tail;
      DigitsThen(n.exponent, rest);
      assert tail[..|n.exponent|] == n.exponent && tail[|n.exponent|..] == rest;
    }
  }

  lemma ReadFractionOf(n: Number, tail: Text)
    requires WellFormed(n) && (tail == [] || !(IsDigit(tail[0]) || tail[0] == DOT))
    ensures ReadFraction(FractionText(n) + tail) == (n.fraction, tail)
  {
    var s := FractionText(n) + tail;
    if n.fraction == [] {
      assert s == tail;
    } else {
      assert s[1..] == n.fraction + tail;
      DigitsThen(n.fraction, tail);
    }
  }

  lemma WholeLengthOf(n: Number, tail: Text)
    requires WellFormed(n) && (tail == [] || !IsDigit(tail[0]))
    ensures WholeLength(n.whole + tail) == |n.whole|
  {
    DigitsThen(n.whole, tail);
  }

  lemma ReadUnsignedOf(n: Number, rest: Text)
    requires WellFormed(n) && Delimited(rest)
    ensures ReadUnsigned(n.negative, UnsignedText(n) + rest) == Some((n, rest))
  {
    var last := n.mark + n.exponent + rest;
    var tail := FractionText(n) + last;
    assert UnsignedText(n) + rest == n.whole + tail;
    assert last == [] || !(IsDigit(last[0]) || last[0] == DOT);
    WholeLengthOf(n, tail);
    assert (n.whole + tail)[..|n.whole|] == n.whole && (n.whole + tail)[|n.whole|..] == tail;
    ReadFractionOf(n, last);
    ReadExponentOf(n, rest);
  }

  lemma StartsWithDigit(n: Number, rest: Text)
    requires WellFormed(n)
    ensures var s := UnsignedText(n) + rest; s != [] && IsDigit(s[0])
  {
    assert (UnsignedText(n) + rest)[0] == n.whole[0];
  }

  lemma SignThen(negative: bool, unsigned: Text)
    requires unsigned != [] && IsDigit(unsigned[0])
    ensures var s := (if negative then [MINUS] else []) + unsigned;
            s != [] && (s[0] == MINUS <==> negative) && (if negative then s[1..] else s) == unsigned
  {
  }

  /** A number that no unit continues is read back whole. */
  lemma ReadNumberOf(n: Number, rest: Text)
    requires WellFormed(n) && Delimited(rest)
    ensures ReadNumber(NumberText(n) + rest) == Some((n, rest))
  {
    ReadUnsignedOf(n, rest);
    StartsWithDigit(n, rest);
    SignThen(n.negative, UnsignedText(n) + rest);
    Associate(if n.negative then [MINUS] else [], UnsignedText(n), rest);
  }
}
