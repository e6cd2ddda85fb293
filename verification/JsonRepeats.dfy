/** The scan of a JSON text for a repeated member name. */
module JsonRepeats {
  import opened Basics
  import opened JsonTexts
  import opened JsonSyntax
  import opened JsonParsers

  // ----- the end of a string by the parity of backslashes -----

  /** The number of backslashes directly before a position. */
  function Slashes(text: Text, end: nat): (n: nat)
    requires end <= |text|
    ensures n <= end
  {
    if end > 0 && text[end - 1] == BACKSLASH then 1 + Slashes(text, end - 1) else 0
  }

  function NextQuote(text: Text, from: nat): (at: Option<nat>)
    requires from <= |text|
    ensures at.Some? ==> from <= at.value < |text| && text[at.value] == QUOTE
    decreases |text| - from
  {
    if from == |text| then None else if text[from] == QUOTE then Some(from) else NextQuote(text, from + 1)
  }

  /** The first quote with an even number of backslashes before it. */
  function EvenQuote(text: Text, from: nat): (at: Option<nat>)
    requires from <= |text|
    ensures at.Some? ==> from <= at.value < |text|
    decreases |text| - from
  {
    match NextQuote(text, from)
    case None => None
    case Some(at) => if Slashes(text, at) % 2 == 0 then Some(at) else EvenQuote(text, at + 1)
  }

  ghost function Shift(n: Option<nat>, places: nat): Option<nat> {
    match n case None => None case Some(m) => Some(m + places)
  }

  lemma SkipUnit(text: Text, from: nat)
    requires from < |text| && text[from] != QUOTE
    ensures EvenQuote(text, from) == EvenQuote(text, from + 1)
  {
  }

  /** The backward parity search agrees with the forward scan that skips escapes, for every text. */
  lemma {:induction false} ParityAgrees(text: Text, from: nat)
    requires from <= |text| && Slashes(text, from) % 2 == 0
    ensures EvenQuote(text, from) == Shift(BodyLength(text[from..]), from)
    decreases |text| - from
  {
    if from + 1 < |text| && text[from] == BACKSLASH {
      SkipEscaped(text, from);
      EscapeLength(text, from);
      ParityAgrees(text, from + 2);
    } else if from < |text| && text[from] != QUOTE && text[from] != BACKSLASH {
      SkipUnit(text, from);
      PlainLength(text, from);
      ParityAgrees(text, from + 1);
    } else {
      SearchStops(text, from);
    }
  }

  /** Both searches stop at a quote, at the end, and at a last backslash. */
  lemma SearchStops(text: Text, from: nat)
    requires from <= |text| && Slashes(text, from) % 2 == 0
    requires from < |text| ==> text[from] == QUOTE || (text[from] == BACKSLASH && from + 1 == |text|)
    ensures EvenQuote(text, from) == Shift(BodyLength(text[from..]), from)
  {
    if from < |text| && text[from] == BACKSLASH {
      SkipUnit(text, from);
    }
  }

  lemma PlainLength(text: Text, from: nat)
    requires from < |text| && text[from] != BACKSLASH && text[from] != QUOTE
    ensures Shift(BodyLength(text[from..]), from) == Shift(BodyLength(text[from + 1..]), from + 1)
    ensures Slashes(text, from + 1) == 0
  {
    assert text[from..][1..] == text[from + 1..];
  }

  lemma EscapeLength(text: Text, from: nat)
    requires from + 1 < |text| && text[from] == BACKSLASH
    ensures Shift(BodyLength(text[from..]), from) == Shift(BodyLength(text[from + 2..]), from + 2)
  {
    assert text[from..][2..] == text[from + 2..];
  }

  /** After an even run of backslashes one more backslash hides the next unit from the parity search. */
  lemma SkipEscaped(text: Text, from: nat)
    requires from + 1 < |text| && text[from] == BACKSLASH && Slashes(text, from) % 2 == 0
    ensures EvenQuote(text, from) == EvenQuote(text, from + 2) && Slashes(text, from + 2) % 2 == 0
  {
    SkipUnit(text, from);
    assert Slashes(text, from + 1) == Slashes(text, from) + 1;
    if text[from + 1] != QUOTE {
      SkipUnit(text, from + 1);
    }
  }

  // ----- the repeats of a tree, in the order of the text -----

  function Repeats(node: Node): seq<Text>
    decreases node
  {
    if node.Block? then RepeatsIn(node.isObject, node.elements, {}) else []
  }

  /** Each member whose name the same object has had before. */
  function RepeatsIn(isObject: bool, elements: Elements, seen: set<Text>): seq<Text>
    decreases elements
  {
    match elements
    case Empty => []
    case More(_, name, _, _, node, _, rest) =>
      (if isObject && Decode(name) in seen then [Decode(name)] else []) +
      (Repeats(node) + RepeatsIn(isObject, rest, SeenWith(isObject, seen, name)))
  }

  ghost predicate Twice(names: seq<Text>, name: Text) {
    exists i, j :: 0 <= i < j < |names| && names[i] == names[j] == name
  }

  /** Some object of the tree has two members with the name. */
  ghost predicate Repeated(node: Node, name: Text)
    decreases node
  {
    node.Block? && ((node.isObject && Twice(Names(node.elements), name)) || RepeatedInside(node.elements, name))
  }

  ghost predicate RepeatedInside(elements: Elements, name: Text)
    decreases elements
  {
    elements.More? && (Repeated(elements.node, name) || RepeatedInside(elements.rest, name))
  }

  lemma TwiceSplits(first: Text, names: seq<Text>, name: Text)
    ensures Twice([first] + names, name) <==> (first == name && name in names) || Twice(names, name)
  {
    var all := [first] + names;
    if i, j :| 0 <= i < j < |all| && all[i] == all[j] == name {
      assert all[j] == names[j - 1];
      if i > 0 { assert all[i] == names[i - 1]; }
    }
    if i, j :| 0 <= i < j < |names| && names[i] == names[j] == name {
      assert all[i + 1] == names[i] && all[j + 1] == names[j];
    }
    if first == name && name in names {
      var j :| 0 <= j < |names| && names[j] == name;
      assert all[0] == name && all[j + 1] == name;
    }
  }

  /** The repeats of a tree are exactly the names that some object of it has twice. */
  lemma {:induction false} RepeatsMean(node: Node, name: Text)
    ensures name in Repeats(node) <==> Repeated(node, name)
    decreases node
  {
    if node.Block? {
      RepeatsInMean(node.isObject, node.elements, {}, name);
    }
  }

  lemma {:induction false} RepeatsInMean(isObject: bool, elements: Elements, seen: set<Text>, name: Text)
    ensures name in RepeatsIn(isObject, elements, seen) <==>
      || (isObject && ((name in seen && name in Names(elements)) || Twice(Names(elements), name)))
      || RepeatedInside(elements, name)
    decreases elements
  {
    if elements.More? {
      RepeatsMean(elements.node, name);
      RepeatsInMean(isObject, elements.rest, SeenWith(isObject, seen, elements.name), name);
      TwiceSplits(Decode(elements.name), Names(elements.rest), name);
    }
  }

  /** In an object without nested blocks the first repeat is the first name that stands twice up to its place. */
  lemma {:induction false} FirstRepeat(elements: Elements, seen: set<Text>, place: nat)
    requires Flat(elements) && place < |Names(elements)|
    requires Names(elements)[place] in seen || Names(elements)[place] in Names(elements)[..place]
    requires forall k :: 0 <= k < place ==> Names(elements)[k] !in seen && Names(elements)[k] !in Names(elements)[..k]
    ensures RepeatsIn(true, elements, seen) != [] && RepeatsIn(true, elements, seen)[0] == Names(elements)[place]
    decreases elements
  {
    var names, rest := Names(elements), Names(elements.rest);
    if place > 0 {
      forall k: nat | k < |rest| ensures rest[k] == names[k + 1] && names[..k + 1] == [names[0]] + rest[..k] {}
      assert names[0] !in seen;
      FirstRepeat(elements.rest, seen + {names[0]}, place - 1);
    }
  }

  predicate Flat(elements: Elements) {
    elements.More? ==> !elements.node.Block? && Flat(elements.rest)
  }

  lemma {:induction false} NoRepeatsMeans(node: Node)
    ensures Repeats(node) == [] <==> DistinctNames(node)
    decreases node
  {
    if node.Block? {
      NoRepeatsInMeans(node.isObject, node.elements, {});
    }
  }

  lemma {:induction false} NoRepeatsInMeans(isObject: bool, elements: Elements, seen: set<Text>)
    ensures RepeatsIn(isObject, elements, seen) == [] <==>
      (isObject ==> NoRepeats(Names(elements)) && Fresh(Names(elements), seen)) && DistinctInside(elements)
    decreases elements
  {
    if elements.More? {
      NoRepeatsMeans(elements.node);
      NoRepeatsInMeans(isObject, elements.rest, SeenWith(isObject, seen, elements.name));
      FreshSplit(Decode(elements.name), Names(elements.rest), seen);
    }
  }

  // ----- the scan -----

  datatype Frame = ListFrame | ObjectFrame(keys: set<Text>, expectKey: bool)

  type Stack = seq<Frame>

  predicate ExpectsKey(stack: Stack) {
    stack != [] && stack[|stack| - 1].ObjectFrame? && stack[|stack| - 1].expectKey
  }

  function Pop(stack: Stack): Stack {
    if stack == [] then [] else stack[..|stack| - 1]
  }

  function ExpectKey(stack: Stack): Stack {
    if stack != [] && stack[|stack| - 1].ObjectFrame? then Pop(stack) + [stack[|stack| - 1].(expectKey := true)]
    else stack
  }

  /** The stack after a unit outside strings. */
  function After(c: Unit, stack: Stack): Stack {
    if c == Open(true) then stack + [ObjectFrame({}, true)]
    else if c == Open(false) then stack + [ListFrame]
    else if c == Close(true) || c == Close(false) then Pop(stack)
    else if c == COMMA then ExpectKey(stack)
    else stack
  }

  function NameRead(stack: Stack, name: Text): Stack
    requires ExpectsKey(stack)
  {
    Pop(stack) + [ObjectFrame(stack[|stack| - 1].keys + {name}, false)]
  }

  /** The first name that the scan of a remaining text finds repeated. */
  function Scan(s: Text, stack: Stack): Option<Text>
    decreases |s|, 0
  {
    if s == [] then None
    else if s[0] != QUOTE then Scan(s[1..], After(s[0], stack))
    else match BodyLength(s[1..])
      case None => None
      case Some(n) => ScanPast(s[1..][..n], s[1..][n + 1..], stack)
  }

  /** The scan from the end of a string. Only an expected key is decoded. */
  function ScanPast(body: Text, rest: Text, stack: Stack): Option<Text>
    decreases |rest|, 1
  {
    if !ExpectsKey(stack) then Scan(rest, stack)
    else if Decode(body) in stack[|stack| - 1].keys then Some(Decode(body))
    else Scan(rest, NameRead(stack, Decode(body)))
  }

  ghost function FirstOr(repeats: seq<Text>, rest: Option<Text>): Option<Text> {
    if repeats == [] then rest else Some(repeats[0])
  }

  predicate Plain(c: Unit) {
    c != QUOTE && c != COMMA && c != Open(true) && c != Open(false) && c != Close(true) && c != Close(false)
  }

  predicate AllPlain(s: Text) {
    forall k :: 0 <= k < |s| ==> Plain(s[k])
  }

  lemma {:induction false} ScanPlain(s: Text, rest: Text, stack: Stack)
    requires AllPlain(s)
    ensures Scan(s + rest, stack) == Scan(rest, stack)
  {
    if s == [] {
      assert s + rest == rest;
    } else {
      assert (s + rest)[1..] == s[1..] + rest;
      ScanPlain(s[1..], rest, stack);
    }
  }

  lemma NumberPlain(n: Number)
    requires WellFormed(n)
    ensures AllPlain(NumberText(n))
  {
    var fraction := FractionText(n);
    assert AllPlain(n.whole) && AllPlain(fraction) && AllPlain(n.mark) && AllPlain(n.exponent);
    var tail := n.mark + n.exponent;
    assert AllPlain(tail);
    assert AllPlain(fraction + tail);
    assert AllPlain(UnsignedText(n));
  }

  /** A string where no key is expected is passed over. */
  lemma ScanQuoted(body: Text, rest: Text, stack: Stack)
    requires Unquote(body).Some? && !ExpectsKey(stack)
    ensures Scan([QUOTE] + (body + ([QUOTE] + rest)), stack) == Scan(rest, stack)
  {
    StringUnits(body, rest);
  }

  lemma StringUnits(body: Text, rest: Text)
    requires Unquote(body).Some?
    ensures var s := [QUOTE] + (body + ([QUOTE] + rest));
            s[0] == QUOTE && BodyLength(s[1..]) == Some(|body|) && s[1..][..|body|] == body &&
              s[1..][|body| + 1..] == rest
  {
    var inside := body + ([QUOTE] + rest);
    HeadOf(QUOTE, inside);
    Regroup(body, [QUOTE], rest);
    BodyEnds(body, rest);
    Around(body, rest);
  }

  lemma Around(body: Text, rest: Text)
    ensures var s := body + ([QUOTE] + rest); s[..|body|] == body && s[|body| + 1..] == rest
  {
  }

  /** A key is compared with the earlier keys of its object. */
  lemma ScanKey(name: Text, rest: Text, stack: Stack)
    requires Unquote(name).Some? && ExpectsKey(stack)
    ensures Scan([QUOTE] + (name + ([QUOTE] + rest)), stack) ==
      if Decode(name) in stack[|stack| - 1].keys then Some(Decode(name)) else Scan(rest, NameRead(stack, Decode(name)))
  {
    StringUnits(name, rest);
  }

  lemma {:induction false} ScanNode(node: Node, rest: Text, stack: Stack)
    requires Valid(node) && !ExpectsKey(stack)
    ensures Scan(Render(node) + rest, stack) == FirstOr(Repeats(node), Scan(rest, stack))
    decreases node, 0
  {
    match node
    case Literal(word) => ScanPlain(WordText(word), rest, stack);
    case Numeral(number) =>
      NumberPlain(number);
      ScanPlain(NumberText(number), rest, stack);
    case Quoted(body) =>
      assert Render(node) + rest == [QUOTE] + (body + ([QUOTE] + rest));
      ScanQuoted(body, rest, stack);
    case Block(isObject, gap, elements) =>
      var frame := if isObject then ObjectFrame({}, true) else ListFrame;
      var inside := RenderElements(isObject, elements) + ([Close(isObject)] + rest);
      BlockStart(isObject, gap, elements, Render(node) + rest, rest);
      HeadOf(Open(isObject), gap + inside);
      ScanPlain(gap, inside, stack + [frame]);
      ScanElements(isObject, elements, {}, rest, stack);
  }

  function FrameOf(isObject: bool, seen: set<Text>, expectKey: bool): Frame {
    if isObject then ObjectFrame(seen, expectKey) else ListFrame
  }

  lemma ScanClose(isObject: bool, rest: Text, stack: Stack, frame: Frame)
    ensures Scan([Close(isObject)] + rest, stack + [frame]) == Scan(rest, stack)
  {
    HeadOf(Close(isObject), rest);
    assert Pop(stack + [frame]) == stack;
  }

  lemma ScanComma(isObject: bool, rest: Text, stack: Stack, seen: set<Text>)
    ensures Scan([COMMA] + rest, stack + [FrameOf(isObject, seen, false)])
      == Scan(rest, stack + [FrameOf(isObject, seen, true)])
  {
    HeadOf(COMMA, rest);
    assert Pop(stack + [FrameOf(isObject, seen, false)]) == stack;
  }

  lemma NamePartText(name: Text, beforeColon: Text, rest: Text)
    ensures NamePart(true, name, beforeColon) + rest == [QUOTE] + (name + ([QUOTE] + ((beforeColon + [COLON]) + rest)))
  {
  }

  lemma ScanMember(name: Text, beforeColon: Text, seen: set<Text>, rest: Text, stack: Stack)
    requires Unquote(name).Some? && AllSpace(beforeColon)
    ensures Scan(NamePart(true, name, beforeColon) + rest, stack + [FrameOf(true, seen, true)]) ==
      if Decode(name) in seen then Some(Decode(name))
      else Scan(rest, stack + [FrameOf(true, SeenWith(true, seen, name), false)])
  {
    var frames := stack + [FrameOf(true, seen, true)];
    var afterName := beforeColon + [COLON];
    NamePartText(name, beforeColon, rest);
    ScanKey(name, afterName + rest, frames);
    assert Pop(frames) == stack;
    ScanPlain(afterName, rest, stack + [FrameOf(true, SeenWith(true, seen, name), false)]);
  }

  /** The name part of an element. */
  lemma ScanName(isObject: bool, e: Elements, seen: set<Text>, rest: Text, stack: Stack)
    requires e.More? && ValidElements(isObject, e)
    ensures Scan(e.before + (NamePart(isObject, e.name, e.beforeColon) + rest),
                 stack + [FrameOf(isObject, seen, true)]) ==
      if isObject && Decode(e.name) in seen then Some(Decode(e.name))
      else Scan(rest, stack + [FrameOf(isObject, SeenWith(isObject, seen, e.name), false)])
  {
    var frames := stack + [FrameOf(isObject, seen, true)];
    ScanPlain(e.before, NamePart(isObject, e.name, e.beforeColon) + rest, frames);
    if isObject {
      ScanMember(e.name, e.beforeColon, seen, rest, stack);
    } else {
      assert NamePart(isObject, e.name, e.beforeColon) + rest == rest;
    }
  }

  lemma {:induction false} ScanElements(isObject: bool, elements: Elements, seen: set<Text>, rest: Text, stack: Stack)
    requires ValidElements(isObject, elements)
    ensures Scan(RenderElements(isObject, elements) + ([Close(isObject)] + rest),
                 stack + [FrameOf(isObject, seen, true)]) ==
      FirstOr(RepeatsIn(isObject, elements, seen), Scan(rest, stack))
    decreases elements, 1
  {
    var end := [Close(isObject)] + rest;
    if elements.Empty? {
      EmptyLeft(end);
      ScanClose(isObject, rest, stack, FrameOf(isObject, seen, true));
    } else {
      var e := elements;
      var tail := TailText(isObject, e.rest) + end;
      ElementsText(isObject, e, RenderElements(isObject, e) + end, end);
      ScanName(isObject, e, seen, e.gap + (Render(e.node) + (e.after + tail)), stack);
      if !(isObject && Decode(e.name) in seen) {
        var more := SeenWith(isObject, seen, e.name);
        var frames := stack + [FrameOf(isObject, more, false)];
        ScanItem(e, tail, frames);
        ScanTail(isObject, e.rest, more, rest, stack);
      }
    }
  }

  lemma {:induction false} ScanItem(e: Elements, tail: Text, stack: Stack)
    requires e.More? && AllSpace(e.gap) && AllSpace(e.after) && Valid(e.node) && !ExpectsKey(stack)
    ensures Scan(e.gap + (Render(e.node) + (e.after + tail)), stack) == FirstOr(Repeats(e.node), Scan(tail, stack))
    decreases e, 0
  {
    ScanPlain(e.gap, Render(e.node) + (e.after + tail), stack);
    ScanNode(e.node, e.after + tail, stack);
    ScanPlain(e.after, tail, stack);
  }

  lemma {:induction false} ScanTail(isObject: bool, elements: Elements, seen: set<Text>, rest: Text, stack: Stack)
    requires ValidElements(isObject, elements)
    ensures Scan(TailText(isObject, elements) + ([Close(isObject)] + rest), stack + [FrameOf(isObject, seen, false)]) ==
      FirstOr(RepeatsIn(isObject, elements, seen), Scan(rest, stack))
    decreases elements, 2
  {
    var end := [Close(isObject)] + rest;
    if elements.Empty? {
      EmptyLeft(end);
      ScanClose(isObject, rest, stack, FrameOf(isObject, seen, false));
    } else {
      Regroup([COMMA], RenderElements(isObject, elements), end);
      ScanComma(isObject, RenderElements(isObject, elements) + end, stack, seen);
      ScanElements(isObject, elements, seen, rest, stack);
    }
  }

  /** For the text of any valid tree the scan gives the earliest repeat, and nothing exactly when no object repeats a
      name. */
  lemma ScanFindsFirst(text: Text, node: Node)
    requires IsDocument(text, node) && Valid(node)
    ensures Scan(text, []) == FirstOr(Repeats(node), None)
    ensures Scan(text, []) == None <==> DistinctNames(node)
  {
    var before, after :| AllSpace(before) && AllSpace(after) && text == before + (Render(node) + after);
    ScanPlain(before, Render(node) + after, []);
    ScanNode(node, after, []);
    assert after + [] == after;
    ScanPlain(after, [], []);
    NoRepeatsMeans(node);
  }

  // ----- the scan with an index and a stack -----

  method CountSlashes(text: Text, end: nat) returns (slashes: nat)
    requires end <= |text|
    ensures slashes == Slashes(text, end)
  {
    slashes := 0;
    while slashes < end && text[end - 1 - slashes] == BACKSLASH
      invariant slashes <= end && Slashes(text, end) == slashes + Slashes(text, end - slashes)
    {
      slashes := slashes + 1;
    }
  }

  method IndexOfQuote(text: Text, from: nat) returns (at: Option<nat>)
    requires from <= |text|
    ensures at == NextQuote(text, from)
  {
    var k := from;
    while k < |text| && text[k] != QUOTE
      invariant from <= k <= |text| && NextQuote(text, from) == NextQuote(text, k)
    {
      k := k + 1;
    }
    at := if k < |text| then Some(k) else None;
  }

  ghost function EvenFrom(text: Text, at: Option<nat>): Option<nat>
    requires at.Some? ==> at.value < |text|
  {
    if at.None? then None else if Slashes(text, at.value) % 2 == 0 then at else EvenQuote(text, at.value + 1)
  }

  /** The quote that closes the string at `index`. A text without one is no JSON text. */
  method ClosingQuote(text: Text, index: nat) returns (end: Option<nat>)
    requires index < |text| && text[index] == QUOTE
    ensures end == Shift(BodyLength(text[index + 1..]), index + 1) && (end.Some? ==> index < end.value < |text|)
  {
    end := FirstEvenQuote(text, index);
    ParityAgrees(text, index + 1);
  }

  method FirstEvenQuote(text: Text, index: nat) returns (end: Option<nat>)
    requires index < |text|
    ensures end == EvenQuote(text, index + 1)
  {
    end := IndexOfQuote(text, index + 1);
    while end.Some?
      invariant end.Some? ==> index < end.value < |text|
      invariant EvenQuote(text, index + 1) == EvenFrom(text, end)
      decreases if end.Some? then |text| - end.value else 0
    {
      var slashes := CountSlashes(text, end.value);
      if slashes % 2 == 0 {
        return;
      }
      end := IndexOfQuote(text, end.value + 1);
    }
  }

  lemma UnitStep(text: Text, index: nat, stack: Stack)
    requires index < |text| && text[index] != QUOTE
    ensures Scan(text[index..], stack) == Scan(text[index + 1..], After(text[index], stack))
  {
    assert text[index..][1..] == text[index + 1..];
  }

  /** The string from the quote at `index` to the one at `end`. */
  lemma StringStep(text: Text, index: nat, end: nat, stack: Stack)
    requires index < end < |text| && text[index] == QUOTE && BodyLength(text[index + 1..]) == Some(end - index - 1)
    ensures Scan(text[index..], stack) == ScanPast(text[index + 1..end], text[end + 1..], stack)
  {
    assert text[index..][1..] == text[index + 1..];
    Offset(text, index + 1, end - index - 1);
    ScanQuote(text[index..], text[index + 1..], end - index - 1, stack);
  }

  lemma OpenStep(text: Text, index: nat, stack: Stack)
    requires index < |text| && text[index] == QUOTE && BodyLength(text[index + 1..]) == None
    ensures Scan(text[index..], stack) == None
  {
    assert text[index..][1..] == text[index + 1..];
  }

  lemma ScanQuote(s: Text, inside: Text, n: nat, stack: Stack)
    requires s != [] && s[0] == QUOTE && s[1..] == inside && BodyLength(inside) == Some(n)
    ensures Scan(s, stack) == ScanPast(inside[..n], inside[n + 1..], stack)
  {
  }

  lemma Offset(text: Text, start: nat, n: nat)
    requires start + n < |text|
    ensures text[start..][..n] == text[start..start + n] && text[start..][n + 1..] == text[start + n + 1..]
  {
  }

  /** Adds an expected key to its object, or finds it there. Other strings change nothing. */
  method ReadName(stack: Stack, body: Text, ghost rest: Text) returns (seen: Option<Text>, stack': Stack)
    ensures ScanPast(body, rest, stack) == if seen.Some? then seen else Scan(rest, stack')
  {
    seen, stack' := None, stack;
    if ExpectsKey(stack) {
      var name := Decode(body);
      if name in stack[|stack| - 1].keys {
        seen := Some(name);
      } else {
        stack' := NameRead(stack, name);
      }
    }
  }

  /** Passes the string at `index`. The scan is done when it has no end or its key is repeated. */
  method PassString(text: Text, index: nat, stack: Stack)
    returns (done: bool, repeated: Option<Text>, next: nat, stack': Stack)
    requires index < |text| && text[index] == QUOTE
    ensures done ==> Scan(text[index..], stack) == repeated
    ensures !done ==> index < next <= |text| && Scan(text[index..], stack) == Scan(text[next..], stack')
  {
    ghost var want := Scan(text[index..], stack);
    var end := ClosingQuote(text, index);
    if end.None? {
      OpenStep(text, index, stack);
      return true, None, index, stack;
    }
    var body := text[index + 1..end.value];
    ghost var rest := text[end.value + 1..];
    StringStep(text, index, end.value, stack);
    assert want == ScanPast(body, rest, stack);
    repeated, stack' := ReadName(stack, body, rest);
    done, next := repeated.Some?, end.value + 1;
    assert want == if done then repeated else Scan(rest, stack');
  }

  method RepeatedMember(text: Text) returns (repeated: Option<Text>)
    ensures repeated == Scan(text, [])
  {
    var stack: Stack := [];
    var index := 0;
    assert text[0..] == text;
    while index < |text|
      invariant index <= |text| && Scan(text, []) == Scan(text[index..], stack)
    {
      if text[index] == QUOTE {
        var done;
        done, repeated, index, stack := PassString(text, index, stack);
        if done {
          return;
        }
      } else {
        UnitStep(text, index, stack);
        stack := After(text[index], stack);
        index := index + 1;
      }
    }
    repeated := None;
  }
}
