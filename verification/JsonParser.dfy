/** The bounded parser. It accepts exactly the texts of trees within its limits. */
module JsonParsers {
  import opened Basics
  import opened JsonTexts
  import opened JsonSyntax

  datatype Failure =
    | TooLarge | TooComplex | Unclosed | BadString | ExpectedName | Duplicate(name: Text) | ExpectedColon | ExpectedEnd
    | BadValue | Inexact | Trailing

  datatype Read<T> = Got(value: T, rest: Text, nodes: nat) | Failed(failure: Failure)

  datatype Parsed = Parsed(value: Value) | Refused(failure: Failure)

  // ----- the grammar as reads of a remaining text -----

  /** Reads a string after its opening quote. */
  function ReadString(s: Text, nodes: nat): (r: Read<Text>)
    ensures r.Got? ==> |r.rest| < |s| && r.nodes == nodes
  {
    match BodyLength(s)
    case None => Failed(Unclosed)
    case Some(n) => if Unquote(s[..n]).None? then Failed(BadString) else Got(s[..n], s[n + 1..], nodes)
  }

  lemma ReadStringSplits(s: Text, nodes: nat)
    requires ReadString(s, nodes).Got?
    ensures var r := ReadString(s, nodes); Unquote(r.value).Some? && s == r.value + ([QUOTE] + r.rest)
  {
  }

  predicate StartsWith(s: Text, word: Word) {
    WordText(word) <= s
  }

  /** Reads a number or a literal. */
  function ReadWord(s: Text, nodes: nat): (r: Read<Node>)
    ensures r.Got? ==> |r.rest| < |s| && r.nodes == nodes
  {
    var n := ReadNumber(s);
    if n.Some? then
      if SafeNumber(NumberValue(n.value.0)) then Got(Numeral(n.value.0), n.value.1, nodes) else Failed(Inexact)
    else if StartsWith(s, True) then Got(Literal(True), s[4..], nodes)
    else if StartsWith(s, False) then Got(Literal(False), s[5..], nodes)
    else if StartsWith(s, Null) then Got(Literal(Null), s[4..], nodes)
    else Failed(BadValue)
  }

  lemma ReadWordSplits(s: Text, nodes: nat)
    requires ReadWord(s, nodes).Got?
    ensures var r := ReadWord(s, nodes);
            !r.value.Block? && Valid(r.value) && SafeNumbers(r.value) && s == Render(r.value) + r.rest
  {
  }

  ghost function ReadValue(s: Text, nodes: nat, depth: nat): (r: Read<Node>)
    ensures r.Got? ==> |r.rest| < |s|
    decreases |s|, 1
  {
    var t := AfterSpace(s);
    if depth > MAX_DEPTH || nodes + 1 > MAX_NODES then Failed(TooComplex)
    else if t != [] && t[0] == QUOTE then
      match ReadString(t[1..], nodes + 1)
      case Failed(failure) => Failed(failure)
      case Got(body, rest, n) => Got(Quoted(body), rest, n)
    else if t != [] && (t[0] == Open(true) || t[0] == Open(false)) then ReadBlock(t, nodes + 1, depth)
    else ReadWord(t, nodes + 1)
  }

  ghost function ReadBlock(t: Text, nodes: nat, depth: nat): (r: Read<Node>)
    requires t != []
    ensures r.Got? ==> |r.rest| < |t|
    decreases |t|, 0
  {
    var isObject := t[0] == Open(true);
    var inner := AfterSpace(t[1..]);
    if inner != [] && inner[0] == Close(isObject) then
      Got(Block(isObject, t[1..][..Lead(t[1..])], Empty), inner[1..], nodes)
    else match ReadElements(t[1..], nodes, depth, isObject, {})
      case Failed(failure) => Failed(failure)
      case Got(elements, rest, n) => Got(Block(isObject, [], elements), rest, n)
  }

  /** The name of an element between quotes, and the white space around it. */
  datatype Label = Label(before: Text, name: Text, beforeColon: Text)

  /** Reads what stands before the value of an element: nothing in an array, a new name and a colon in an object. */
  ghost function ReadLabel(s: Text, nodes: nat, isObject: bool, seen: set<Text>): (r: Read<Label>)
    ensures r.Got? ==> |r.rest| <= |s| && r.nodes == nodes
  {
    var before, t := s[..Lead(s)], AfterSpace(s);
    if !isObject then Got(Label(before, [], []), t, nodes)
    else if t == [] || t[0] != QUOTE then Failed(ExpectedName)
    else match ReadString(t[1..], nodes)
      case Failed(failure) => Failed(failure)
      case Got(name, afterName, _) =>
        var u := AfterSpace(afterName);
        if Decode(name) in seen then Failed(Duplicate(Decode(name)))
        else if u == [] || u[0] != COLON then Failed(ExpectedColon)
        else Got(Label(before, name, afterName[..Lead(afterName)]), u[1..], nodes)
  }

  /** The names that count as seen once the element's own name is read. */
  function SeenWith(isObject: bool, seen: set<Text>, name: Text): set<Text> {
    if isObject then seen + {Decode(name)} else seen
  }

  /** Reads the elements up to the closing bracket, with the names that came before. */
  ghost function ReadElements(s: Text, nodes: nat, depth: nat, isObject: bool, seen: set<Text>): (r: Read<Elements>)
    ensures r.Got? ==> |r.rest| < |s|
    decreases |s|, 3
  {
    match ReadLabel(s, nodes, isObject, seen)
    case Failed(failure) => Failed(failure)
    case Got(tag, t, _) =>
      ReadItem(t, nodes, depth, isObject, SeenWith(isObject, seen, tag.name), tag.before, tag.name, tag.beforeColon)
  }

  /** Reads what stands after a value: a comma, or the closing bracket. */
  function ReadEnd(s: Text, nodes: nat, isObject: bool): (r: Read<bool>)
    ensures r.Got? ==> |r.rest| < |s| && r.nodes == nodes
  {
    var t := AfterSpace(s);
    if t != [] && t[0] == Close(isObject) then Got(true, t[1..], nodes)
    else if t == [] || t[0] != COMMA then Failed(ExpectedEnd)
    else Got(false, t[1..], nodes)
  }

  ghost function ReadItem(s: Text, nodes: nat, depth: nat, isObject: bool, seen: set<Text>, before: Text, name: Text,
                          beforeColon: Text)
    : (r: Read<Elements>)
    ensures r.Got? ==> |r.rest| < |s|
    decreases |s|, 2
  {
    match ReadValue(s, nodes, depth + 1)
    case Failed(failure) => Failed(failure)
    case Got(node, afterNode, n) =>
      var gap, after := s[..Lead(s)], afterNode[..Lead(afterNode)];
      match ReadEnd(afterNode, n, isObject)
      case Failed(failure) => Failed(failure)
      case Got(closes, rest, _) =>
        if closes then Got(More(before, name, beforeColon, gap, node, after, Empty), rest, n)
        else match ReadElements(rest, n, depth, isObject, seen)
          case Failed(failure) => Failed(failure)
          case Got(elements, end, m) => Got(More(before, name, beforeColon, gap, node, after, elements), end, m)
  }

  // ----- what is read is the text of an acceptable tree -----

  /** What a read of a value has to give. */
  ghost predicate ValueRead(t: Text, r: Read<Node>, nodes: nat, depth: nat)
    requires r.Got?
  {
    t == Render(r.value) + r.rest && Acceptable(r.value, nodes, depth) && r.nodes == nodes + Count(r.value)
  }

  lemma {:induction false} ValueSound(s: Text, nodes: nat, depth: nat)
    requires ReadValue(s, nodes, depth).Got?
    ensures ValueRead(AfterSpace(s), ReadValue(s, nodes, depth), nodes, depth)
    decreases |s|, 1
  {
    var t := AfterSpace(s);
    var r := ReadValue(s, nodes, depth);
    if t != [] && t[0] == QUOTE {
      var body := ReadString(t[1..], nodes + 1);
      assert r == Got(Quoted(body.value), body.rest, body.nodes);
      StringSound(t, nodes, depth);
    } else if t != [] && (t[0] == Open(true) || t[0] == Open(false)) {
      assert r == ReadBlock(t, nodes + 1, depth);
      BlockSound(t, nodes + 1, depth);
    } else {
      assert r == ReadWord(t, nodes + 1);
      WordSound(t, nodes, depth);
    }
  }

  lemma WordSound(t: Text, nodes: nat, depth: nat)
    requires ReadWord(t, nodes + 1).Got? && nodes + 1 <= MAX_NODES && depth <= MAX_DEPTH
    ensures ValueRead(t, ReadWord(t, nodes + 1), nodes, depth)
  {
    ReadWordSplits(t, nodes + 1);
    AcceptLeaf(ReadWord(t, nodes + 1).value, nodes, depth);
  }

  lemma AcceptLeaf(node: Node, nodes: nat, depth: nat)
    requires !node.Block? && Valid(node) && SafeNumbers(node) && nodes + 1 <= MAX_NODES && depth <= MAX_DEPTH
    ensures Acceptable(node, nodes, depth) && Count(node) == 1
  {
  }

  lemma StringSound(t: Text, nodes: nat, depth: nat)
    requires t != [] && t[0] == QUOTE && ReadString(t[1..], nodes + 1).Got? && nodes + 1 <= MAX_NODES &&
             depth <= MAX_DEPTH
    ensures var r := ReadString(t[1..], nodes + 1);
            ValueRead(t, Got(Quoted(r.value), r.rest, r.nodes), nodes, depth)
  {
    var r := ReadString(t[1..], nodes + 1);
    ReadStringSplits(t[1..], nodes + 1);
    assert t == [QUOTE] + t[1..];
    Regroup(r.value, [QUOTE], r.rest);
    Regroup([QUOTE], r.value + [QUOTE], r.rest);
    AcceptLeaf(Quoted(r.value), nodes, depth);
  }

  lemma Regroup(a: Text, b: Text, c: Text)
    ensures a + (b + c) == (a + b) + c
  {
  }

  lemma BlockText(t: Text, open: Text, gap: Text, inside: Text, close: Text, rest: Text)
    requires t == open + (gap + (inside + (close + rest)))
    ensures t == (open + (gap + (inside + close))) + rest
  {
  }

  lemma ItemText(s: Text, before: Text, namePart: Text, gap: Text, value: Text, after: Text, tail: Text, end: Text)
    requires s == gap + (value + (after + (tail + end)))
    ensures before + (namePart + s) == (before + (namePart + (gap + (value + (after + tail))))) + end
  {
  }

  lemma NameText(s: Text, before: Text, quoted: Text, name: Text, afterName: Text, beforeColon: Text, rest: Text)
    requires s == before + ([QUOTE] + quoted) && quoted == name + ([QUOTE] + afterName) &&
             afterName == beforeColon + ([COLON] + rest)
    ensures s == before + (NamePart(true, name, beforeColon) + rest)
  {
  }

  lemma {:induction false} BlockSound(t: Text, nodes: nat, depth: nat)
    requires t != [] && (t[0] == Open(true) || t[0] == Open(false)) && ReadBlock(t, nodes, depth).Got?
    requires 0 < nodes <= MAX_NODES && depth <= MAX_DEPTH
    ensures ValueRead(t, ReadBlock(t, nodes, depth), nodes - 1, depth)
    decreases |t|, 0
  {
    var isObject := t[0] == Open(true);
    var gap, inner := t[1..][..Lead(t[1..])], AfterSpace(t[1..]);
    assert t == [Open(isObject)] + t[1..];
    SpaceSplits(t[1..]);
    if inner != [] && inner[0] == Close(isObject) {
      EmptySound(t, isObject, gap, inner, nodes, depth);
    } else {
      ElementsSound(t[1..], nodes, depth, isObject, {});
      FullSound(t, isObject, ReadElements(t[1..], nodes, depth, isObject, {}), nodes, depth);
    }
  }

  lemma EmptySound(t: Text, isObject: bool, gap: Text, inner: Text, nodes: nat, depth: nat)
    requires t == [Open(isObject)] + (gap + inner) && AllSpace(gap) && inner != [] && inner[0] == Close(isObject)
    requires 0 < nodes <= MAX_NODES && depth <= MAX_DEPTH
    ensures ValueRead(t, Got(Block(isObject, gap, Empty), inner[1..], nodes), nodes - 1, depth)
  {
    assert inner == [Close(isObject)] + inner[1..];
    BlockText(t, [Open(isObject)], gap, [], [Close(isObject)], inner[1..]);
    AcceptBlock(isObject, gap, Empty, nodes, depth);
  }

  lemma FullSound(t: Text, isObject: bool, r: Read<Elements>, nodes: nat, depth: nat)
    requires r.Got? && 0 < nodes && t != [] && t[0] == Open(isObject) &&
             ElementsRead(t[1..], isObject, r, nodes, depth, {})
    ensures ValueRead(t, Got(Block(isObject, [], r.value), r.rest, r.nodes), nodes - 1, depth)
  {
    assert t == [Open(isObject)] + t[1..];
    BlockText(t, [Open(isObject)], [], RenderElements(isObject, r.value), [Close(isObject)], r.rest);
    AcceptBlock(isObject, [], r.value, nodes, depth);
  }

  /** What a read of elements has to give. */
  ghost predicate ElementsRead(s: Text, isObject: bool, r: Read<Elements>, nodes: nat, depth: nat, seen: set<Text>)
    requires r.Got?
  {
    && r.value.More? && s == RenderElements(isObject, r.value) + ([Close(isObject)] + r.rest)
    && AcceptableElements(isObject, r.value, nodes, depth, seen) && r.nodes == nodes + CountElements(r.value)
  }

  lemma {:induction false} ElementsSound(s: Text, nodes: nat, depth: nat, isObject: bool, seen: set<Text>)
    requires ReadElements(s, nodes, depth, isObject, seen).Got? && nodes <= MAX_NODES && depth <= MAX_DEPTH
    ensures ElementsRead(s, isObject, ReadElements(s, nodes, depth, isObject, seen), nodes, depth, seen)
    decreases |s|, 3
  {
    var before, t := s[..Lead(s)], AfterSpace(s);
    SpaceSplits(s);
    if !isObject {
      assert ReadElements(s, nodes, depth, isObject, seen) == ReadItem(t, nodes, depth, isObject, seen, before, [], []);
      ItemSound(t, nodes, depth, isObject, seen, before, [], []);
      assert NamePart(isObject, [], []) + t == t;
    } else {
      var name := ReadString(t[1..], nodes);
      var beforeColon, u := name.rest[..Lead(name.rest)], AfterSpace(name.rest);
      NameSound(s, t, name);
      assert ReadElements(s, nodes, depth, isObject, seen) ==
        ReadItem(u[1..], nodes, depth, isObject, seen + {Decode(name.value)}, before, name.value, beforeColon);
      ItemSound(u[1..], nodes, depth, isObject, seen, before, name.value, beforeColon);
    }
  }

  lemma NameSound(s: Text, t: Text, name: Read<Text>)
    requires t == AfterSpace(s) && t != [] && t[0] == QUOTE && name.Got? && name == ReadString(t[1..], name.nodes)
    requires var u := AfterSpace(name.rest); u != [] && u[0] == COLON
    ensures var beforeColon, u := name.rest[..Lead(name.rest)], AfterSpace(name.rest);
            s == s[..Lead(s)] + (NamePart(true, name.value, beforeColon) + u[1..]) && Unquote(name.value).Some? &&
              AllSpace(beforeColon)
  {
    var before, quoted, afterName := s[..Lead(s)], t[1..], name.rest;
    var beforeColon, u := afterName[..Lead(afterName)], AfterSpace(afterName);
    SpaceSplits(s);
    HeadSplits(t, QUOTE);
    ReadStringSplits(quoted, name.nodes);
    SpaceSplits(afterName);
    HeadSplits(u, COLON);
    NameText(s, before, quoted, name.value, afterName, beforeColon, u[1..]);
  }

  lemma HeadSplits(s: Text, c: Unit)
    requires s != [] && s[0] == c
    ensures s == [c] + s[1..]
  {
  }

  ghost predicate Ready(isObject: bool, seen: set<Text>, before: Text, name: Text, beforeColon: Text) {
    && AllSpace(before) && AllSpace(beforeColon)
    && if isObject then Unquote(name).Some? && Decode(name) !in seen else name == [] && beforeColon == []
  }

  lemma {:induction false} ItemSound(s: Text, nodes: nat, depth: nat, isObject: bool, seen: set<Text>, before: Text,
                                     name: Text, beforeColon: Text)
    requires ReadItem(s, nodes, depth, isObject, SeenWith(isObject, seen, name), before, name, beforeColon).Got?
    requires nodes <= MAX_NODES && depth <= MAX_DEPTH && Ready(isObject, seen, before, name, beforeColon) &&
             (isObject || Lead(s) == 0)
    ensures ElementsRead(before + (NamePart(isObject, name, beforeColon) + s), isObject,
                         ReadItem(s, nodes, depth, isObject, SeenWith(isObject, seen, name), before, name, beforeColon),
                           nodes, depth, seen)
    decreases |s|, 2
  {
    var v := ReadValue(s, nodes, depth + 1);
    ValueSound(s, nodes, depth + 1);
    assert ValueRead(AfterSpace(s), v, nodes, depth + 1);
    var gap, after, t := s[..Lead(s)], v.rest[..Lead(v.rest)], AfterSpace(v.rest);
    var more := SeenWith(isObject, seen, name);
    if t[0] == Close(isObject) {
      LastSound(s, nodes, depth, isObject, seen, before, name, beforeColon, v);
      ItemIsLast(s, nodes, depth, isObject, more, before, name, beforeColon, v);
    } else {
      var r := ReadElements(t[1..], v.nodes, depth, isObject, more);
      ElementsSound(t[1..], v.nodes, depth, isObject, more);
      assert ElementsRead(t[1..], isObject, r, v.nodes, depth, more);
      MoreSound(s, nodes, depth, isObject, seen, before, name, beforeColon, v, r);
      ItemHasMore(s, nodes, depth, isObject, more, before, name, beforeColon, v, r);
    }
  }

  lemma ItemIsLast(s: Text, nodes: nat, depth: nat, isObject: bool, seen: set<Text>, before: Text, name: Text,
                   beforeColon: Text, v: Read<Node>)
    requires v == ReadValue(s, nodes, depth + 1) && v.Got?
    requires var t := AfterSpace(v.rest); t != [] && t[0] == Close(isObject)
    ensures ReadItem(s, nodes, depth, isObject, seen, before, name, beforeColon) ==
      Got(More(before, name, beforeColon, s[..Lead(s)], v.value, v.rest[..Lead(v.rest)], Empty),
          AfterSpace(v.rest)[1..], v.nodes)
  {
  }

  lemma ItemHasMore(s: Text, nodes: nat, depth: nat, isObject: bool, seen: set<Text>, before: Text, name: Text,
                    beforeColon: Text, v: Read<Node>, r: Read<Elements>)
    requires v == ReadValue(s, nodes, depth + 1) && v.Got?
    requires var t := AfterSpace(v.rest);
             t != [] && t[0] == COMMA && r == ReadElements(t[1..], v.nodes, depth, isObject, seen) && r.Got?
    ensures ReadItem(s, nodes, depth, isObject, seen, before, name, beforeColon) ==
      Got(More(before, name, beforeColon, s[..Lead(s)], v.value, v.rest[..Lead(v.rest)], r.value), r.rest, r.nodes)
  {
  }

  lemma LastText(s: Text, gap: Text, spaced: Text, value: Text, afterValue: Text, after: Text, end: Text)
    requires s == gap + spaced && spaced == value + afterValue && afterValue == after + end
    ensures s == gap + (value + (after + ([] + end)))
  {
    assert [] + end == end;
  }

  lemma MoreText(s: Text, gap: Text, spaced: Text, value: Text, afterValue: Text, after: Text, more: Text, inside: Text,
                 end: Text)
    requires s == gap + spaced && spaced == value + afterValue && afterValue == after + ([COMMA] + more) &&
             more == inside + end
    ensures s == gap + (value + (after + (([COMMA] + inside) + end)))
  {
    Regroup([COMMA], inside, end);
  }

  lemma LastSound(s: Text, nodes: nat, depth: nat, isObject: bool, seen: set<Text>, before: Text, name: Text,
                  beforeColon: Text, v: Read<Node>)
    requires v.Got? && ValueRead(AfterSpace(s), v, nodes, depth + 1)
    requires Ready(isObject, seen, before, name, beforeColon) && (isObject || Lead(s) == 0)
    requires var t := AfterSpace(v.rest); t != [] && t[0] == Close(isObject)
    ensures var gap, after, t := s[..Lead(s)], v.rest[..Lead(v.rest)], AfterSpace(v.rest);
            ElementsRead(before + (NamePart(isObject, name, beforeColon) + s), isObject,
                         Got(More(before, name, beforeColon, gap, v.value, after, Empty), t[1..], v.nodes), nodes,
                           depth, seen)
  {
    var gap, after, t := s[..Lead(s)], v.rest[..Lead(v.rest)], AfterSpace(v.rest);
    SpaceSplits(s);
    SpaceSplits(v.rest);
    assert t == [t[0]] + t[1..];
    AcceptOne(isObject, before, name, beforeColon, gap, v.value, after, nodes, depth, seen);
    LastText(s, gap, AfterSpace(s), Render(v.value), v.rest, after, t);
    ItemText(s, before, NamePart(isObject, name, beforeColon), gap, Render(v.value), after, [], t);
  }

  lemma MoreSound(s: Text, nodes: nat, depth: nat, isObject: bool, seen: set<Text>, before: Text, name: Text,
                  beforeColon: Text, v: Read<Node>, r: Read<Elements>)
    requires v.Got? && ValueRead(AfterSpace(s), v, nodes, depth + 1) && r.Got?
    requires Ready(isObject, seen, before, name, beforeColon) && (isObject || Lead(s) == 0)
    requires var t := AfterSpace(v.rest);
             t != [] && t[0] == COMMA &&
               ElementsRead(t[1..], isObject, r, v.nodes, depth, SeenWith(isObject, seen, name))
    ensures var gap, after := s[..Lead(s)], v.rest[..Lead(v.rest)];
            ElementsRead(before + (NamePart(isObject, name, beforeColon) + s), isObject,
                         Got(More(before, name, beforeColon, gap, v.value, after, r.value), r.rest, r.nodes), nodes,
                           depth, seen)
  {
    var gap, after := s[..Lead(s)], v.rest[..Lead(v.rest)];
    SpaceSplits(s);
    SpaceSplits(v.rest);
    AcceptMore(isObject, before, name, beforeColon, gap, v.value, after, r.value, nodes, depth, seen);
    MoreRendered(s, before, NamePart(isObject, name, beforeColon), Render(v.value), v.rest,
                 RenderElements(isObject, r.value), [Close(isObject)] + r.rest);
  }

  /** The text of an element with more after it. */
  lemma MoreRendered(s: Text, before: Text, namePart: Text, value: Text, afterValue: Text, inside: Text, end: Text)
    requires AfterSpace(s) == value + afterValue
    requires var t := AfterSpace(afterValue); t != [] && t[0] == COMMA && t[1..] == inside + end
    ensures before + (namePart + s) ==
      (before + (namePart + (s[..Lead(s)] + (value + (afterValue[..Lead(afterValue)] + ([COMMA] + inside)))))) + end
  {
    var t := AfterSpace(afterValue);
    SpaceSplits(s);
    SpaceSplits(afterValue);
    HeadSplits(t, COMMA);
    MoreText(s, s[..Lead(s)], AfterSpace(s), value, afterValue, afterValue[..Lead(afterValue)], t[1..], inside, end);
    ItemText(s, before, namePart, s[..Lead(s)], value, afterValue[..Lead(afterValue)], [COMMA] + inside, end);
  }

  lemma AcceptBlock(isObject: bool, gap: Text, elements: Elements, nodes: nat, depth: nat)
    requires 0 < nodes && AcceptableElements(isObject, elements, nodes, depth, {})
    requires AllSpace(gap) && (elements.Empty? || gap == [])
    ensures Acceptable(Block(isObject, gap, elements), nodes - 1, depth)
  {
  }

  lemma AcceptOne(isObject: bool, before: Text, name: Text, beforeColon: Text, gap: Text, node: Node, after: Text,
                  nodes: nat, depth: nat, seen: set<Text>)
    requires AllSpace(gap) && AllSpace(after) && Acceptable(node, nodes, depth + 1) &&
             Ready(isObject, seen, before, name, beforeColon)
    requires !isObject ==> gap == []
    ensures AcceptableElements(isObject, More(before, name, beforeColon, gap, node, after, Empty), nodes, depth, seen)
  {
    FreshSplit(Decode(name), [], seen);
    assert Names(More(before, name, beforeColon, gap, node, after, Empty)) == [Decode(name)] + [];
  }

  lemma AcceptMore(isObject: bool, before: Text, name: Text, beforeColon: Text, gap: Text, node: Node, after: Text,
                   elements: Elements, nodes: nat, depth: nat, seen: set<Text>)
    requires AllSpace(gap) && AllSpace(after) && Acceptable(node, nodes, depth + 1) &&
             Ready(isObject, seen, before, name, beforeColon)
    requires !isObject ==> gap == []
    requires AcceptableElements(isObject, elements, nodes + Count(node), depth, SeenWith(isObject, seen, name))
    ensures AcceptableElements(isObject, More(before, name, beforeColon, gap, node, after, elements), nodes, depth,
                               seen)
  {
    FreshSplit(Decode(name), Names(elements), seen);
    var all := More(before, name, beforeColon, gap, node, after, elements);
    assert ValidElements(isObject, all);
    assert SafeInside(isObject, all) && DistinctInside(all);
    assert Names(all) == [Decode(name)] + Names(elements);
  }

  // ----- the text of an acceptable tree is read back as that tree -----

  /** The first unit of a value is no white space, comma or closing bracket. */
  lemma NodeStart(node: Node, rest: Text)
    requires Valid(node)
    ensures var s := Render(node) + rest;
            s != [] && !IsSpace(s[0]) && s[0] != Close(false) && s[0] != Close(true) && s[0] != COMMA
  {
    match node
    case Literal(word) => assert (Render(node) + rest)[0] == WordText(word)[0];
    case Numeral(number) => NumberStart(number, rest);
    case Quoted(body) =>
    case Block(_, _, _) =>
  }

  lemma NumberStart(n: Number, rest: Text)
    requires WellFormed(n)
    ensures var s := NumberText(n) + rest; s != [] && (s[0] == MINUS || IsDigit(s[0]))
  {
    StartsWithDigit(n, rest);
    var unsigned := UnsignedText(n);
    assert unsigned[0] == (unsigned + rest)[0];
    if n.negative {
      assert (NumberText(n) + rest)[0] == MINUS;
    } else {
      assert NumberText(n) == unsigned;
    }
  }

  lemma WordComplete(word: Word, rest: Text, nodes: nat)
    ensures ReadWord(WordText(word) + rest, nodes) == Got(Literal(word), rest, nodes)
  {
    var s := WordText(word) + rest;
    assert s[0] == WordText(word)[0];
    assert ReadNumber(s).None?;
    assert StartsWith(s, word) && s[|WordText(word)|..] == rest;
  }

  lemma NumeralComplete(n: Number, rest: Text, nodes: nat)
    requires WellFormed(n) && SafeNumber(NumberValue(n)) && Delimited(rest)
    ensures ReadWord(NumberText(n) + rest, nodes) == Got(Numeral(n), rest, nodes)
  {
    ReadNumberOf(n, rest);
  }

  lemma LeafValue(s: Text, nodes: nat, depth: nat)
    requires depth <= MAX_DEPTH && nodes + 1 <= MAX_NODES
    requires var t := AfterSpace(s); t != [] && t[0] != QUOTE && t[0] != Open(true) && t[0] != Open(false)
    ensures ReadValue(s, nodes, depth) == ReadWord(AfterSpace(s), nodes + 1)
  {
  }

  lemma BlockValue(s: Text, nodes: nat, depth: nat)
    requires depth <= MAX_DEPTH && nodes + 1 <= MAX_NODES
    requires var t := AfterSpace(s); t != [] && (t[0] == Open(true) || t[0] == Open(false))
    ensures ReadValue(s, nodes, depth) == ReadBlock(AfterSpace(s), nodes + 1, depth)
  {
  }

  lemma QuotedValue(s: Text, body: Text, rest: Text, nodes: nat, depth: nat)
    requires depth <= MAX_DEPTH && nodes + 1 <= MAX_NODES && Unquote(body).Some?
    requires AfterSpace(s) == Render(Quoted(body)) + rest
    ensures ReadValue(s, nodes, depth) == Got(Quoted(body), rest, nodes + 1)
  {
    StringComplete(AfterSpace(s), body, rest, nodes + 1);
  }

  lemma LiteralValue(s: Text, word: Word, rest: Text, nodes: nat, depth: nat)
    requires depth <= MAX_DEPTH && nodes + 1 <= MAX_NODES && AfterSpace(s) == WordText(word) + rest
    ensures ReadValue(s, nodes, depth) == Got(Literal(word), rest, nodes + 1)
  {
    WordComplete(word, rest, nodes + 1);
    assert AfterSpace(s)[0] == WordText(word)[0];
    LeafValue(s, nodes, depth);
  }

  lemma NumeralValue(s: Text, n: Number, rest: Text, nodes: nat, depth: nat)
    requires depth <= MAX_DEPTH && nodes + 1 <= MAX_NODES && AfterSpace(s) == NumberText(n) + rest
    requires WellFormed(n) && SafeNumber(NumberValue(n)) && Delimited(rest)
    ensures ReadValue(s, nodes, depth) == Got(Numeral(n), rest, nodes + 1)
  {
    NumeralComplete(n, rest, nodes + 1);
    NumberStart(n, rest);
    LeafValue(s, nodes, depth);
  }

  lemma {:induction false} ValueComplete(node: Node, s: Text, nodes: nat, depth: nat, rest: Text)
    requires Acceptable(node, nodes, depth) && AfterSpace(s) == Render(node) + rest && Delimited(rest)
    ensures ReadValue(s, nodes, depth) == Got(node, rest, nodes + Count(node))
    decreases node, 1
  {
    if node.Block? {
      var t := AfterSpace(s);
      BlockStart(node.isObject, node.gap, node.elements, t, rest);
      BlockValue(s, nodes, depth);
      var r := ReadBlock(t, nodes + 1, depth);
      assert ReadValue(s, nodes, depth) == r;
      BlockComplete(node, t, nodes, depth, rest);
    } else {
      LeafComplete(node, s, nodes, depth, rest);
    }
  }

  lemma LeafComplete(node: Node, s: Text, nodes: nat, depth: nat, rest: Text)
    requires !node.Block? && Acceptable(node, nodes, depth) && AfterSpace(s) == Render(node) + rest && Delimited(rest)
    ensures ReadValue(s, nodes, depth) == Got(node, rest, nodes + Count(node))
  {
    assert Count(node) == 1 && Depth(node) == 0;
    match node
    case Literal(word) => LiteralValue(s, word, rest, nodes, depth);
    case Numeral(number) => NumeralValue(s, number, rest, nodes, depth);
    case Quoted(body) => QuotedValue(s, body, rest, nodes, depth);
  }

  lemma BlockStart(isObject: bool, gap: Text, elements: Elements, t: Text, rest: Text)
    requires t == Render(Block(isObject, gap, elements)) + rest
    ensures t == [Open(isObject)] + (gap + (RenderElements(isObject, elements) + ([Close(isObject)] + rest)))
    ensures t[0] == Open(isObject) && t[0] != QUOTE
  {
    ConcatBlock([Open(isObject)], gap, RenderElements(isObject, elements), [Close(isObject)], rest);
  }

  lemma ConcatBlock(a: Text, b: Text, c: Text, d: Text, end: Text)
    ensures (a + (b + (c + d))) + end == a + (b + (c + (d + end)))
  {
  }

  lemma StringComplete(t: Text, body: Text, rest: Text, nodes: nat)
    requires t == ([QUOTE] + (body + [QUOTE])) + rest && Unquote(body).Some?
    ensures t[0] == QUOTE && ReadString(t[1..], nodes) == Got(body, rest, nodes)
  {
    assert t[1..] == body + [QUOTE] + rest;
    BodyEnds(body, rest);
    assert t[1..][..|body|] == body && t[1..][|body| + 1..] == rest;
  }

  lemma {:induction false} BlockComplete(node: Node, t: Text, nodes: nat, depth: nat, rest: Text)
    requires node.Block? && Acceptable(node, nodes, depth) && t == Render(node) + rest
    ensures ReadBlock(t, nodes + 1, depth) == Got(node, rest, nodes + Count(node))
    decreases node, 0
  {
    var isObject, gap, elements := node.isObject, node.gap, node.elements;
    if elements.Empty? {
      EmptyComplete(node, t, nodes, depth, rest);
    } else {
      var inside := RenderElements(isObject, elements) + ([Close(isObject)] + rest);
      FullStart(node, t, inside, nodes, depth, rest);
      var r := ReadBlock(t, nodes + 1, depth);
      FullComplete(isObject, elements, t, inside, nodes + 1, depth, rest);
      assert r == Got(Block(isObject, [], elements), rest, nodes + 1 + CountElements(elements));
    }
  }

  lemma {:induction false} FullComplete(isObject: bool, elements: Elements, t: Text, inside: Text, nodes: nat,
                                        depth: nat, rest: Text)
    requires elements.More? && AcceptableElements(isObject, elements, nodes, depth, {})
    requires t == [Open(isObject)] + inside && AfterSpace(inside) != [] && AfterSpace(inside)[0] != Close(isObject)
    requires inside == RenderElements(isObject, elements) + ([Close(isObject)] + rest)
    ensures ReadBlock(t, nodes, depth) == Got(Block(isObject, [], elements), rest, nodes + CountElements(elements))
    decreases elements, 3
  {
    var r := ReadElements(inside, nodes, depth, isObject, {});
    ElementsComplete(isObject, elements, inside, nodes, depth, {}, rest);
    assert r == Got(elements, rest, nodes + CountElements(elements));
    FullBlock(isObject, t, inside, nodes, depth, r);
  }

  lemma FullStart(node: Node, t: Text, inside: Text, nodes: nat, depth: nat, rest: Text)
    requires node.Block? && node.elements.More? && Acceptable(node, nodes, depth) && t == Render(node) + rest
    requires inside == RenderElements(node.isObject, node.elements) + ([Close(node.isObject)] + rest)
    ensures t == [Open(node.isObject)] + inside && node.gap == []
    ensures AfterSpace(inside) != [] && AfterSpace(inside)[0] != Close(node.isObject)
    ensures AcceptableElements(node.isObject, node.elements, nodes + 1, depth, {})
  {
    BlockStart(node.isObject, node.gap, node.elements, t, rest);
    EmptyLeft(inside);
    ElementsStart(node.isObject, node.elements, inside, rest);
  }

  lemma FullBlock(isObject: bool, t: Text, inside: Text, nodes: nat, depth: nat, r: Read<Elements>)
    requires t == [Open(isObject)] + inside && AfterSpace(inside) != [] && AfterSpace(inside)[0] != Close(isObject)
    requires r == ReadElements(inside, nodes, depth, isObject, {}) && r.Got?
    ensures ReadBlock(t, nodes, depth) == Got(Block(isObject, [], r.value), r.rest, r.nodes)
  {
    HeadOf(Open(isObject), inside);
  }

  lemma HeadOf(c: Unit, s: Text)
    ensures ([c] + s)[0] == c && ([c] + s)[1..] == s
  {
  }

  lemma EmptyComplete(node: Node, t: Text, nodes: nat, depth: nat, rest: Text)
    requires node.Block? && node.elements.Empty? && Acceptable(node, nodes, depth) && t == Render(node) + rest
    ensures ReadBlock(t, nodes + 1, depth) == Got(node, rest, nodes + Count(node))
  {
    BlockStart(node.isObject, node.gap, Empty, t, rest);
    EmptyLeft([Close(node.isObject)] + rest);
    EmptyBlock(node.isObject, node.gap, t, nodes + 1, depth, rest);
  }

  lemma EmptyBlock(isObject: bool, gap: Text, t: Text, nodes: nat, depth: nat, rest: Text)
    requires AllSpace(gap) && t == [Open(isObject)] + (gap + ([Close(isObject)] + rest))
    ensures ReadBlock(t, nodes, depth) == Got(Block(isObject, gap, Empty), rest, nodes)
  {
    var end := [Close(isObject)] + rest;
    HeadOf(Open(isObject), gap + end);
    HeadOf(Close(isObject), rest);
    SpaceThen(gap, end);
    FirstPart(gap, end);
  }

  /** The text of elements does not start with the closing bracket. */
  lemma ElementsStart(isObject: bool, elements: Elements, s: Text, rest: Text)
    requires elements.More? && ValidElements(isObject, elements)
    requires s == RenderElements(isObject, elements) + ([Close(isObject)] + rest)
    ensures AfterSpace(s) != [] && AfterSpace(s)[0] != Close(isObject)
  {
    var e := elements;
    var end := TailText(isObject, e.rest) + ([Close(isObject)] + rest);
    ElementsText(isObject, e, s, [Close(isObject)] + rest);
    NodeStart(e.node, e.after + end);
    SpaceThen(e.before, NamePart(isObject, e.name, e.beforeColon) + (e.gap + (Render(e.node) + (e.after + end))));
  }

  function TailText(isObject: bool, rest: Elements): Text {
    if rest.Empty? then [] else [COMMA] + RenderElements(isObject, rest)
  }

  lemma ElementsText(isObject: bool, e: Elements, s: Text, end: Text)
    requires e.More? && s == RenderElements(isObject, e) + end
    ensures s == e.before + (NamePart(isObject, e.name, e.beforeColon)
                             + (e.gap + (Render(e.node) + (e.after + (TailText(isObject, e.rest) + end)))))
  {
    ConcatElements(e.before, NamePart(isObject, e.name, e.beforeColon), e.gap, Render(e.node), e.after,
                   TailText(isObject, e.rest), end);
  }

  lemma ConcatElements(a: Text, b: Text, c: Text, d: Text, e: Text, f: Text, end: Text)
    ensures (a + (b + (c + (d + (e + f))))) + end == a + (b + (c + (d + (e + (f + end)))))
  {
  }

  /** The parts of the text of element `e` after its colon, and of the text after it. */
  ghost predicate ItemAt(isObject: bool, e: Elements, s: Text, afterNode: Text, rest: Text)
    requires e.More?
  {
    && s[..Lead(s)] == e.gap && AfterSpace(s) == Render(e.node) + afterNode && Delimited(afterNode)
    && afterNode[..Lead(afterNode)] == e.after
    && AfterSpace(afterNode) == if e.rest.Empty? then [Close(isObject)] + rest
                                else [COMMA] + (RenderElements(isObject, e.rest) + ([Close(isObject)] + rest))
  }

  lemma ItemParts(isObject: bool, e: Elements, s: Text, rest: Text)
    requires e.More? && ValidElements(isObject, e)
    requires s == e.gap + (Render(e.node) + (e.after + (TailText(isObject, e.rest) + ([Close(isObject)] + rest))))
    ensures ItemAt(isObject, e, s, e.after + (TailText(isObject, e.rest) + ([Close(isObject)] + rest)), rest)
  {
    EndStart(isObject, e.rest, rest);
    ItemSpaces(e.gap, e.node, e.after, s, TailText(isObject, e.rest) + ([Close(isObject)] + rest));
    if e.rest.Empty? {
      EmptyLeft([Close(isObject)] + rest);
    } else {
      Regroup([COMMA], RenderElements(isObject, e.rest), [Close(isObject)] + rest);
    }
  }

  lemma {:induction false} ElementsComplete(isObject: bool, e: Elements, s: Text, nodes: nat, depth: nat,
                                            seen: set<Text>, rest: Text)
    requires e.More? && AcceptableElements(isObject, e, nodes, depth, seen)
    requires s == RenderElements(isObject, e) + ([Close(isObject)] + rest)
    ensures ReadElements(s, nodes, depth, isObject, seen) == Got(e, rest, nodes + CountElements(e))
    decreases e, 2
  {
    var end := [Close(isObject)] + rest;
    var afterNode := e.after + (TailText(isObject, e.rest) + end);
    var item := e.gap + (Render(e.node) + afterNode);
    ElementsText(isObject, e, s, end);
    NodeStart(e.node, afterNode);
    if !isObject { EmptyLeft(Render(e.node) + afterNode); }
    FreshSplit(Decode(e.name), Names(e.rest), seen);
    LabelComplete(isObject, e, s, item, nodes, seen);
    ItemParts(isObject, e, item, rest);
    ItemComplete(isObject, e, item, afterNode, nodes, depth, seen, rest);
    LabelThenItem(s, nodes, depth, isObject, seen, Label(e.before, e.name, e.beforeColon), item);
  }

  lemma LabelThenItem(s: Text, nodes: nat, depth: nat, isObject: bool, seen: set<Text>, tag: Label, t: Text)
    requires ReadLabel(s, nodes, isObject, seen) == Got(tag, t, nodes)
    ensures ReadElements(s, nodes, depth, isObject, seen) ==
            ReadItem(t, nodes, depth, isObject, SeenWith(isObject, seen, tag.name), tag.before, tag.name,
                     tag.beforeColon)
  {
  }

  /** What stands before the value of an element is read back. */
  lemma LabelComplete(isObject: bool, e: Elements, s: Text, item: Text, nodes: nat, seen: set<Text>)
    requires e.More? && AllSpace(e.before) && s == e.before + (NamePart(isObject, e.name, e.beforeColon) + item)
    requires if isObject then Unquote(e.name).Some? && AllSpace(e.beforeColon) && Decode(e.name) !in seen
             else e.name == [] && e.beforeColon == [] && item != [] && !IsSpace(item[0])
    ensures ReadLabel(s, nodes, isObject, seen) == Got(Label(e.before, e.name, e.beforeColon), item, nodes)
  {
    var t := NamePart(isObject, e.name, e.beforeColon) + item;
    FirstPart(e.before, t);
    if isObject {
      NameComplete(t, e.name, e.beforeColon, item, nodes);
      HeadOf(COLON, item);
    } else {
      EmptyLeft(item);
    }
    SpaceThen(e.before, t);
  }

  lemma NameComplete(t: Text, name: Text, beforeColon: Text, item: Text, nodes: nat)
    requires t == NamePart(true, name, beforeColon) + item && Unquote(name).Some? && AllSpace(beforeColon)
    ensures t[0] == QUOTE
    ensures var r := ReadString(t[1..], nodes);
            r.Got? && r.value == name && r.rest[..Lead(r.rest)] == beforeColon && AfterSpace(r.rest) == [COLON] + item
  {
    var afterName := beforeColon + ([COLON] + item);
    ConcatName([QUOTE], name, beforeColon, [COLON], item);
    StringComplete(t, name, afterName, nodes);
    SpaceThen(beforeColon, [COLON] + item);
    FirstPart(beforeColon, [COLON] + item);
  }

  lemma ConcatName(quote: Text, name: Text, beforeColon: Text, colon: Text, item: Text)
    ensures (quote + (name + (quote + (beforeColon + colon)))) + item ==
            (quote + (name + quote)) + (beforeColon + (colon + item))
  {
  }

  lemma FirstPart(a: Text, b: Text)
    ensures (a + b)[..|a|] == a
  {
  }

  lemma AcceptRest(isObject: bool, e: Elements, nodes: nat, depth: nat, seen: set<Text>)
    requires e.More? && AcceptableElements(isObject, e, nodes, depth, seen)
    ensures Acceptable(e.node, nodes, depth + 1)
    ensures AcceptableElements(isObject, e.rest, nodes + Count(e.node), depth, SeenWith(isObject, seen, e.name))
  {
    FreshSplit(Decode(e.name), Names(e.rest), seen);
  }

  lemma {:induction false} ItemComplete(isObject: bool, e: Elements, s: Text, afterNode: Text, nodes: nat, depth: nat,
                                        seen: set<Text>, rest: Text)
    requires e.More? && AcceptableElements(isObject, e, nodes, depth, seen) && ItemAt(isObject, e, s, afterNode, rest)
    ensures ReadItem(s, nodes, depth, isObject, SeenWith(isObject, seen, e.name), e.before, e.name, e.beforeColon)
         == Got(e, rest, nodes + CountElements(e))
    decreases e, 1
  {
    AcceptRest(isObject, e, nodes, depth, seen);
    var v := ReadValue(s, nodes, depth + 1);
    ValueComplete(e.node, s, nodes, depth + 1, afterNode);
    assert v == Got(e.node, afterNode, nodes + Count(e.node));
    RestComplete(isObject, e, s, afterNode, nodes, depth, SeenWith(isObject, seen, e.name), rest, v);
  }

  /** What follows the value of an element. */
  lemma {:induction false} RestComplete(isObject: bool, e: Elements, s: Text, afterNode: Text, nodes: nat, depth: nat,
                                        seen: set<Text>, rest: Text, v: Read<Node>)
    requires e.More? && ItemAt(isObject, e, s, afterNode, rest) &&
             AcceptableElements(isObject, e.rest, nodes + Count(e.node), depth, seen)
    requires v == ReadValue(s, nodes, depth + 1) && v == Got(e.node, afterNode, nodes + Count(e.node))
    ensures ReadItem(s, nodes, depth, isObject, seen, e.before, e.name, e.beforeColon)
      == Got(e, rest, nodes + CountElements(e))
    decreases e, 0
  {
    if e.rest.Empty? {
      LastComplete(isObject, e, s, afterNode, nodes, depth, seen, rest, v);
    } else {
      var inside := RenderElements(isObject, e.rest) + ([Close(isObject)] + rest);
      var r := ReadElements(inside, v.nodes, depth, isObject, seen);
      ElementsComplete(isObject, e.rest, inside, v.nodes, depth, seen, rest);
      assert r == Got(e.rest, rest, v.nodes + CountElements(e.rest));
      MoreComplete(isObject, e, s, afterNode, inside, nodes, depth, seen, rest, v, r);
    }
  }

  lemma LastComplete(isObject: bool, e: Elements, s: Text, afterNode: Text, nodes: nat, depth: nat, seen: set<Text>,
                     rest: Text, v: Read<Node>)
    requires e.More? && e.rest.Empty? && ItemAt(isObject, e, s, afterNode, rest)
    requires v == ReadValue(s, nodes, depth + 1) && v == Got(e.node, afterNode, nodes + Count(e.node))
    ensures ReadItem(s, nodes, depth, isObject, seen, e.before, e.name, e.beforeColon)
      == Got(e, rest, nodes + CountElements(e))
  {
    HeadOf(Close(isObject), rest);
    ItemIsLast(s, nodes, depth, isObject, seen, e.before, e.name, e.beforeColon, v);
  }

  lemma MoreComplete(isObject: bool, e: Elements, s: Text, afterNode: Text, inside: Text, nodes: nat, depth: nat,
                     seen: set<Text>, rest: Text, v: Read<Node>, r: Read<Elements>)
    requires e.More? && v == ReadValue(s, nodes, depth + 1) && v == Got(e.node, afterNode, nodes + Count(e.node))
    requires e.rest.More? && ItemAt(isObject, e, s, afterNode, rest)
    requires inside == RenderElements(isObject, e.rest) + ([Close(isObject)] + rest)
    requires r == ReadElements(inside, v.nodes, depth, isObject, seen) &&
             r == Got(e.rest, rest, v.nodes + CountElements(e.rest))
    ensures ReadItem(s, nodes, depth, isObject, seen, e.before, e.name, e.beforeColon)
      == Got(e, rest, nodes + CountElements(e))
  {
    HeadOf(COMMA, inside);
    assert CountElements(e) == Count(e.node) + CountElements(e.rest);
    ItemHasMore(s, nodes, depth, isObject, seen, e.before, e.name, e.beforeColon, v, r);
  }

  lemma EmptyLeft(s: Text)
    ensures [] + s == s
  {
  }

  lemma EndStart(isObject: bool, elements: Elements, rest: Text)
    ensures var end := TailText(isObject, elements) + ([Close(isObject)] + rest);
            end != [] && (end[0] == COMMA || end[0] == Close(isObject))
  {
  }

  /** The spaces around the value of an item. */
  lemma ItemSpaces(gap: Text, node: Node, after: Text, s: Text, end: Text)
    requires AllSpace(gap) && AllSpace(after) && Valid(node) && s == gap + (Render(node) + (after + end))
    requires end != [] && (end[0] == COMMA || end[0] == Close(true) || end[0] == Close(false))
    ensures s[..Lead(s)] == gap && AfterSpace(s) == Render(node) + (after + end)
    ensures Delimited(after + end)
    ensures var afterNode := after + end; afterNode[..Lead(afterNode)] == after && AfterSpace(afterNode) == end
  {
    NodeStart(node, after + end);
    SpaceThen(gap, Render(node) + (after + end));
    SpaceThen(after, end);
    assert (after + end)[0] == if after == [] then end[0] else after[0];
  }

  // ----- whole texts -----

  /** The text is the tree with white space around it. */
  ghost predicate IsDocument(text: Text, node: Node) {
    exists before, after :: AllSpace(before) && AllSpace(after) && text == before + (Render(node) + after)
  }

  /** The length of the UTF-8 form. A lone surrogate becomes the replacement character of three bytes. */
  function Bytes(text: Text): (n: nat)
    ensures n >= |text|
  {
    if text == [] then 0
    else if |text| > 1 && HighSurrogate(text[0]) && LowSurrogate(text[1]) then 4 + Bytes(text[2..])
    else (if text[0] < 0x80 then 1 else if text[0] < 0x800 then 2 else 3) + Bytes(text[1..])
  }

  ghost function ParseText(text: Text, limit: nat): Parsed {
    if |text| > limit || Bytes(text) > limit then Refused(TooLarge)
    else match ReadValue(text, 0, 0)
      case Failed(failure) => Refused(failure)
      case Got(node, rest, _) => if AfterSpace(rest) == [] then Parsed(Meaning(node)) else Refused(Trailing)
  }

  lemma AllSpaceEnds(s: Text)
    ensures AfterSpace(s) == [] <==> AllSpace(s)
  {
    SpaceSplits(s);
    if AllSpace(s) {
      assert s + [] == s;
      SpaceThen(s, []);
    }
    if AfterSpace(s) == [] {
      assert s == s[..Lead(s)];
    }
  }

  lemma SpaceDelimits(s: Text)
    requires AllSpace(s)
    ensures Delimited(s)
  {
  }

  /** An accepted text is the text of an acceptable tree. */
  lemma AcceptedIsDocument(text: Text, limit: nat)
    requires ParseText(text, limit).Parsed?
    ensures Bytes(text) <= limit
    ensures exists node ::
      IsDocument(text, node) && Acceptable(node, 0, 0) && ParseText(text, limit) == Parsed(Meaning(node))
  {
    var r := ReadValue(text, 0, 0);
    ValueSound(text, 0, 0);
    SpaceSplits(text);
    AllSpaceEnds(r.rest);
    assert text == text[..Lead(text)] + (Render(r.value) + r.rest);
    assert IsDocument(text, r.value);
  }

  lemma DocumentIsRead(text: Text, node: Node)
    requires IsDocument(text, node) && Acceptable(node, 0, 0)
    ensures var r := ReadValue(text, 0, 0); r.Got? && r.value == node && AfterSpace(r.rest) == []
  {
    var after := DocumentParts(text, node);
    var r := ReadValue(text, 0, 0);
    ValueComplete(node, text, 0, 0, after);
    assert r == Got(node, after, Count(node));
  }

  lemma DocumentParts(text: Text, node: Node) returns (after: Text)
    requires IsDocument(text, node) && Valid(node)
    ensures AfterSpace(text) == Render(node) + after && Delimited(after) && AfterSpace(after) == []
  {
    var before, rest :| AllSpace(before) && AllSpace(rest) && text == before + (Render(node) + rest);
    after := rest;
    NodeStart(node, after);
    SpaceThen(before, Render(node) + after);
    SpaceDelimits(after);
    AllSpaceEnds(after);
  }

  /** The parser accepts a text, with a value, exactly when it is the text of an acceptable tree with that value. */
  lemma ParserAccepts(text: Text, limit: nat, value: Value)
    ensures ParseText(text, limit) == Parsed(value) <==>
      Bytes(text) <= limit && exists node :: IsDocument(text, node) && Acceptable(node, 0, 0) && Meaning(node) == value
  {
    if ParseText(text, limit) == Parsed(value) {
      AcceptedIsDocument(text, limit);
    }
    if Bytes(text) <= limit {
      forall node | IsDocument(text, node) && Acceptable(node, 0, 0) && Meaning(node) == value
        ensures ParseText(text, limit) == Parsed(value)
      {
        DocumentIsRead(text, node);
      }
    }
  }
}
