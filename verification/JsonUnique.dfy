/** A text has at most one valid tree, whatever its size, depth, names and numbers. */
module JsonUnique {
  import opened Basics
  import opened JsonTexts
  import opened JsonSyntax
  import opened JsonParsers

  lemma LeafStart(node: Node, t: Text, rest: Text)
    requires Valid(node) && t == Render(node) + rest
    ensures t != [] && (node.Quoted? <==> t[0] == QUOTE)
    ensures node.Block? <==> t[0] == Open(true) || t[0] == Open(false)
    ensures node.Block? ==> t[0] == Open(node.isObject)
  {
    NodeStart(node, rest);
    match node
    case Literal(word) => assert t[0] == WordText(word)[0];
    case Numeral(number) => NumberStart(number, rest);
    case Quoted(body) => assert t[0] == QUOTE;
    case Block(isObject, gap, elements) => BlockStart(isObject, gap, elements, t, rest);
  }

  /** Two words at the start of one text are one word. */
  lemma SameWord(a: Node, b: Node, t: Text, ra: Text, rb: Text)
    requires Valid(a) && Valid(b) && (a.Literal? || a.Numeral?) && (b.Literal? || b.Numeral?)
    requires t == Render(a) + ra && t == Render(b) + rb && Delimited(ra) && Delimited(rb)
    ensures a == b && ra == rb
  {
    WordRead(a, t, ra);
    WordRead(b, t, rb);
  }

  /** The first word of a text: its number if it starts with one, or else the literal that it starts with. */
  ghost function FirstWord(t: Text): Option<(Node, Text)> {
    var n := ReadNumber(t);
    if n.Some? then Some((Numeral(n.value.0), n.value.1))
    else if StartsWith(t, True) then Some((Literal(True), t[4..]))
    else if StartsWith(t, False) then Some((Literal(False), t[5..]))
    else if StartsWith(t, Null) then Some((Literal(Null), t[4..]))
    else None
  }

  lemma WordRead(node: Node, t: Text, rest: Text)
    requires Valid(node) && (node.Literal? || node.Numeral?) && t == Render(node) + rest && Delimited(rest)
    ensures FirstWord(t) == Some((node, rest))
  {
    if node.Numeral? {
      ReadNumberOf(node.number, rest);
    } else {
      LiteralRead(node.word, t, rest);
    }
  }

  lemma LiteralRead(word: Word, t: Text, rest: Text)
    requires t == WordText(word) + rest
    ensures FirstWord(t) == Some((Literal(word), rest))
  {
    assert t[0] == WordText(word)[0];
    assert ReadNumber(t).None?;
    assert StartsWith(t, word) && t[|WordText(word)|..] == rest;
  }

  lemma SameString(a: Text, b: Text, t: Text, ra: Text, rb: Text)
    requires Unquote(a).Some? && Unquote(b).Some?
    requires t == ([QUOTE] + (a + [QUOTE])) + ra && t == ([QUOTE] + (b + [QUOTE])) + rb
    ensures a == b && ra == rb
  {
    StringComplete(t, a, ra, 0);
    StringComplete(t, b, rb, 0);
  }

  lemma SameSpace(a: Text, b: Text, s: Text, ra: Text, rb: Text)
    requires AllSpace(a) && AllSpace(b) && s == a + ra && s == b + rb
    requires (ra == [] || !IsSpace(ra[0])) && (rb == [] || !IsSpace(rb[0]))
    ensures a == b && ra == rb
  {
    SpaceThen(a, ra);
    SpaceThen(b, rb);
    assert s[..|a|] == a && s[..|b|] == b;
  }

  /** Two values at the start of one text are one value. */
  lemma {:induction false} SameTree(a: Node, b: Node, t: Text, ra: Text, rb: Text)
    requires Valid(a) && Valid(b) && t == Render(a) + ra && t == Render(b) + rb && Delimited(ra) && Delimited(rb)
    ensures a == b && ra == rb
    decreases a, 1
  {
    LeafStart(a, t, ra);
    LeafStart(b, t, rb);
    if a.Block? {
      SameBlock(a, b, t, ra, rb);
    } else if a.Quoted? {
      SameString(a.body, b.body, t, ra, rb);
    } else {
      SameWord(a, b, t, ra, rb);
    }
  }

  lemma {:induction false} SameBlock(a: Node, b: Node, t: Text, ra: Text, rb: Text)
    requires Valid(a) && Valid(b) && a.Block? && b.Block? && a.isObject == b.isObject
    requires t == Render(a) + ra && t == Render(b) + rb
    ensures a == b && ra == rb
    decreases a, 0
  {
    var isObject := a.isObject;
    var insideA := RenderElements(isObject, a.elements) + ([Close(isObject)] + ra);
    var insideB := RenderElements(isObject, b.elements) + ([Close(isObject)] + rb);
    BlockInside(a, t, ra, insideA);
    BlockInside(b, t, rb, insideB);
    if a.elements.Empty? && b.elements.Empty? {
      SameSpace(a.gap, b.gap, t[1..], [Close(isObject)] + ra, [Close(isObject)] + rb);
      HeadOf(Close(isObject), ra);
      HeadOf(Close(isObject), rb);
    } else if a.elements.More? && b.elements.More? {
      SameElements(isObject, a.elements, b.elements, t[1..], ra, rb);
    } else {
      assert false;
    }
  }

  /** What follows the opening bracket: the closing one at once, or elements that do not start with it. */
  lemma BlockInside(node: Node, t: Text, rest: Text, inside: Text)
    requires Valid(node) && node.Block? && t == Render(node) + rest
    requires inside == RenderElements(node.isObject, node.elements) + ([Close(node.isObject)] + rest)
    ensures t != [] && t[1..] == node.gap + inside
    ensures node.elements.Empty? ==> inside == [Close(node.isObject)] + rest && AfterSpace(t[1..]) == inside
    ensures node.elements.More? ==> t[1..] == inside
    ensures AfterSpace(t[1..]) != [] && (AfterSpace(t[1..])[0] == Close(node.isObject) <==> node.elements.Empty?)
  {
    BlockStart(node.isObject, node.gap, node.elements, t, rest);
    HeadOf(Open(node.isObject), node.gap + inside);
    if node.elements.Empty? {
      EmptyLeft([Close(node.isObject)] + rest);
      SpaceThen(node.gap, inside);
    } else {
      EmptyLeft(inside);
      ElementsStart(node.isObject, node.elements, inside, rest);
    }
  }

  lemma {:induction false} SameElements(isObject: bool, a: Elements, b: Elements, s: Text, ra: Text, rb: Text)
    requires a.More? && b.More? && ValidElements(isObject, a) && ValidElements(isObject, b)
    requires s == RenderElements(isObject, a) + ([Close(isObject)] + ra) &&
             s == RenderElements(isObject, b) + ([Close(isObject)] + rb)
    ensures a == b && ra == rb
    decreases a, 2
  {
    var afterA := a.after + (TailText(isObject, a.rest) + ([Close(isObject)] + ra));
    var afterB := b.after + (TailText(isObject, b.rest) + ([Close(isObject)] + rb));
    var itemA, itemB := a.gap + (Render(a.node) + afterA), b.gap + (Render(b.node) + afterB);
    ElementsText(isObject, a, s, [Close(isObject)] + ra);
    ElementsText(isObject, b, s, [Close(isObject)] + rb);
    SameNames(isObject, a, b, s, itemA, itemB);
    ItemParts(isObject, a, itemA, ra);
    ItemParts(isObject, b, itemB, rb);
    SameTree(a.node, b.node, AfterSpace(itemA), afterA, afterB);
    SameTail(isObject, a.rest, b.rest, AfterSpace(afterA), ra, rb);
  }

  /** The white space and the name before the values agree. */
  lemma SameNames(isObject: bool, a: Elements, b: Elements, s: Text, itemA: Text, itemB: Text)
    requires a.More? && b.More? && ValidElements(isObject, a) && ValidElements(isObject, b)
    requires s == a.before + (NamePart(isObject, a.name, a.beforeColon) + itemA)
    requires s == b.before + (NamePart(isObject, b.name, b.beforeColon) + itemB)
    requires !isObject ==> itemA != [] && itemB != [] && !IsSpace(itemA[0]) && !IsSpace(itemB[0])
    ensures a.before == b.before && a.name == b.name && a.beforeColon == b.beforeColon && itemA == itemB
  {
    var ta, tb := NamePart(isObject, a.name, a.beforeColon) + itemA, NamePart(isObject, b.name, b.beforeColon) + itemB;
    if isObject {
      NameComplete(ta, a.name, a.beforeColon, itemA, 0);
      NameComplete(tb, b.name, b.beforeColon, itemB, 0);
      SameSpace(a.before, b.before, s, ta, tb);
      HeadOf(COLON, itemA);
      HeadOf(COLON, itemB);
    } else {
      EmptyLeft(itemA);
      EmptyLeft(itemB);
      SameSpace(a.before, b.before, s, itemA, itemB);
    }
  }

  lemma {:induction false} SameTail(isObject: bool, a: Elements, b: Elements, s: Text, ra: Text, rb: Text)
    requires ValidElements(isObject, a) && ValidElements(isObject, b)
    requires s == (if a.Empty? then [Close(isObject)] + ra
                   else [COMMA] + (RenderElements(isObject, a) + ([Close(isObject)] + ra)))
    requires s == (if b.Empty? then [Close(isObject)] + rb
                   else [COMMA] + (RenderElements(isObject, b) + ([Close(isObject)] + rb)))
    ensures a == b && ra == rb
    decreases a, 3
  {
    assert s[0] == if a.Empty? then Close(isObject) else COMMA;
    assert s[0] == if b.Empty? then Close(isObject) else COMMA;
    if a.Empty? {
      HeadOf(Close(isObject), ra);
      HeadOf(Close(isObject), rb);
    } else {
      HeadOf(COMMA, RenderElements(isObject, a) + ([Close(isObject)] + ra));
      HeadOf(COMMA, RenderElements(isObject, b) + ([Close(isObject)] + rb));
      SameElements(isObject, a, b, s[1..], ra, rb);
    }
  }

  /** The grammar is unambiguous. */
  lemma OneValidTree(text: Text, a: Node, b: Node)
    requires IsDocument(text, a) && Valid(a) && IsDocument(text, b) && Valid(b)
    ensures a == b
  {
    var beforeA, afterA :| AllSpace(beforeA) && AllSpace(afterA) && text == beforeA + (Render(a) + afterA);
    var beforeB, afterB :| AllSpace(beforeB) && AllSpace(afterB) && text == beforeB + (Render(b) + afterB);
    NodeStart(a, afterA);
    NodeStart(b, afterB);
    SameSpace(beforeA, beforeB, text, Render(a) + afterA, Render(b) + afterB);
    SpaceDelimits(afterA);
    SpaceDelimits(afterB);
    SameTree(a, b, Render(a) + afterA, afterA, afterB);
  }

  /** The parser takes the text of a valid tree exactly when the tree is within its limits. */
  lemma TakenExactly(text: Text, node: Node, limit: nat)
    requires IsDocument(text, node) && Valid(node)
    ensures ParseText(text, limit).Parsed? <==> Bytes(text) <= limit && Acceptable(node, 0, 0)
    ensures ParseText(text, limit).Parsed? ==> ParseText(text, limit) == Parsed(Meaning(node))
  {
    if ParseText(text, limit).Parsed? {
      AcceptedIsDocument(text, limit);
      var other :| IsDocument(text, other) && Acceptable(other, 0, 0) &&
        ParseText(text, limit) == Parsed(Meaning(other));
      OneValidTree(text, node, other);
    }
    if Bytes(text) <= limit && Acceptable(node, 0, 0) {
      ParserAccepts(text, limit, Meaning(node));
    }
  }
}
