/** The parser of the browser: one index and one counter of values that all its steps share. */
module JsonReaders {
  import opened Basics
  import opened JsonTexts
  import opened JsonSyntax
  import opened JsonParsers

  // ----- the parser with its index and its counter -----

  datatype Outcome<T> = Ok(value: T) | Fail(failure: Failure)

  /** The result that the read of elements gives after the names and items so far. */
  ghost function Collected(isObject: bool, names: seq<Text>, items: seq<Value>, r: Read<Elements>): Read<Value> {
    match r
    case Failed(failure) => Failed(failure)
    case Got(elements, rest, nodes) =>
      Got(Assembled(isObject, names + Names(elements), items + Meanings(elements)), rest, nodes)
  }

  ghost function NameSet(isObject: bool, names: seq<Text>): set<Text> {
    if isObject then set name | name in names else {}
  }

  /** The length of the body that starts at `start`, from a scan that has come to `index`. */
  ghost function EndAfter(text: Text, start: nat, index: nat): Option<nat>
    requires start <= index
  {
    if index > |text| then None
    else match BodyLength(text[index..]) case None => None case Some(n) => Some(n + index - start)
  }

  lemma EndStep(text: Text, start: nat, index: nat)
    requires start <= index < |text|
    ensures EndAfter(text, start, index) ==
      if text[index] == QUOTE then Some(index - start)
      else if text[index] == BACKSLASH then EndAfter(text, start, index + 2)
      else EndAfter(text, start, index + 1)
  {
    var s := text[index..];
    assert s[1..] == text[index + 1..];
    if index + 2 <= |text| {
      assert s[2..] == text[index + 2..];
    }
  }

  lemma SpaceTwice(s: Text)
    ensures AfterSpace(AfterSpace(s)) == AfterSpace(s)
  {
    SpaceSplits(s);
    assert [] + AfterSpace(s) == AfterSpace(s);
    SpaceThen([], AfterSpace(s));
  }

  /** A text that has been read from `index` on ends with what is left. */
  lemma EndOf(text: Text, index: nat, value: Text, rest: Text)
    requires index <= |text| && text[index..] == value + rest
    ensures |rest| <= |text| - index && text[|text| - |rest|..] == rest
  {
    assert text == text[..index] + (value + rest);
  }

  lemma NamesAssociate(names: seq<Text>, name: Text, more: seq<Text>)
    ensures names + ([name] + more) == (names + [name]) + more
  {
  }

  lemma ValuesAssociate(items: seq<Value>, item: Value, more: seq<Value>)
    ensures items + ([item] + more) == (items + [item]) + more
  {
  }

  lemma LastCollected(isObject: bool, names: seq<Text>, items: seq<Value>, s: Text, nodes: nat, depth: nat,
                      seen: set<Text>, before: Text, name: Text, beforeColon: Text, v: Read<Node>, end: Read<bool>)
    requires v == ReadValue(s, nodes, depth + 1) && v.Got? && end == ReadEnd(v.rest, v.nodes, isObject) && end.Got? &&
             end.value
    ensures Collected(isObject, names, items, ReadItem(s, nodes, depth, isObject, seen, before, name, beforeColon))
         == Got(Assembled(isObject, names + [Decode(name)], items + [Meaning(v.value)]), end.rest, v.nodes)
  {
    ItemIsLast(s, nodes, depth, isObject, seen, before, name, beforeColon, v);
    var last := ReadItem(s, nodes, depth, isObject, seen, before, name, beforeColon).value;
    assert Names(last) == [Decode(name)] + [] == [Decode(name)];
    assert Meanings(last) == [Meaning(v.value)] + [] == [Meaning(v.value)];
  }

  lemma MoreCollected(isObject: bool, names: seq<Text>, items: seq<Value>, s: Text, nodes: nat, depth: nat,
                      seen: set<Text>, before: Text, name: Text, beforeColon: Text, v: Read<Node>, end: Read<bool>)
    requires v == ReadValue(s, nodes, depth + 1) && v.Got? && end == ReadEnd(v.rest, v.nodes, isObject) && end.Got? &&
             !end.value
    ensures Collected(isObject, names, items, ReadItem(s, nodes, depth, isObject, seen, before, name, beforeColon))
         == Collected(isObject, names + [Decode(name)], items + [Meaning(v.value)],
                      ReadElements(end.rest, v.nodes, depth, isObject, seen))
  {
    var r := ReadElements(end.rest, v.nodes, depth, isObject, seen);
    if r.Got? {
      ItemHasMore(s, nodes, depth, isObject, seen, before, name, beforeColon, v, r);
      NamesAssociate(names, Decode(name), Names(r.value));
      ValuesAssociate(items, Meaning(v.value), Meanings(r.value));
    }
  }

  /** The loop over elements, from the text `at`. */
  ghost function LoopResult(isObject: bool, names: seq<Text>, items: seq<Value>, at: Text, nodes: nat, depth: nat)
    : Read<Value> {
    Collected(isObject, names, items, ReadElements(at, nodes, depth, isObject, NameSet(isObject, names)))
  }

  lemma NameSetMore(isObject: bool, names: seq<Text>, name: Text)
    ensures NameSet(isObject, names + [Decode(name)]) == SeenWith(isObject, NameSet(isObject, names), name)
  {
  }

  /** One pass of the loop. */
  lemma LoopStep(isObject: bool, names: seq<Text>, items: seq<Value>, at: Text, nodes: nat, depth: nat,
                 tag: Read<Label>, v: Read<Node>, end: Read<bool>)
    requires tag == ReadLabel(at, nodes, isObject, NameSet(isObject, names)) && tag.Got?
    requires v == ReadValue(tag.rest, nodes, depth + 1) && v.Got? && end == ReadEnd(v.rest, v.nodes, isObject) &&
             end.Got?
    ensures var names', items' := names + [Decode(tag.value.name)], items + [Meaning(v.value)];
            LoopResult(isObject, names, items, at, nodes, depth) ==
              if end.value then Got(Assembled(isObject, names', items'), end.rest, v.nodes)
              else LoopResult(isObject, names', items', end.rest, v.nodes, depth)
  {
    var seen := SeenWith(isObject, NameSet(isObject, names), tag.value.name);
    NameSetMore(isObject, names, tag.value.name);
    if end.value {
      LastCollected(isObject, names, items, tag.rest, nodes, depth, seen, tag.value.before, tag.value.name,
                    tag.value.beforeColon, v, end);
    } else {
      MoreCollected(isObject, names, items, tag.rest, nodes, depth, seen, tag.value.before, tag.value.name,
                    tag.value.beforeColon, v, end);
    }
  }

  lemma LabelFails(isObject: bool, names: seq<Text>, items: seq<Value>, at: Text, nodes: nat, depth: nat,
                   failure: Failure)
    requires ReadLabel(at, nodes, isObject, NameSet(isObject, names)) == Failed(failure)
    ensures LoopResult(isObject, names, items, at, nodes, depth) == Failed(failure)
  {
  }

  lemma ItemFails(isObject: bool, names: seq<Text>, items: seq<Value>, at: Text, nodes: nat, depth: nat,
                  tag: Read<Label>, v: Read<Node>, failure: Failure)
    requires tag == ReadLabel(at, nodes, isObject, NameSet(isObject, names)) && tag.Got? &&
             v == ReadValue(tag.rest, nodes, depth + 1)
    requires v == Failed(failure) || (v.Got? && ReadEnd(v.rest, v.nodes, isObject) == Failed(failure))
    ensures LoopResult(isObject, names, items, at, nodes, depth) == Failed(failure)
  {
    var seen := SeenWith(isObject, NameSet(isObject, names), tag.value.name);
    var item := ReadItem(tag.rest, nodes, depth, isObject, seen, tag.value.before, tag.value.name,
                         tag.value.beforeColon);
    assert item == Failed(failure);
    assert ReadElements(at, nodes, depth, isObject, NameSet(isObject, names)) == item;
  }

  ghost function MeaningOf(r: Read<Node>): Read<Value> {
    match r case Failed(failure) => Failed(failure) case Got(node, rest, nodes) => Got(Meaning(node), rest, nodes)
  }

  ghost function Decoded(r: Read<Text>): Read<Text> {
    match r case Failed(failure) => Failed(failure) case Got(body, rest, nodes) => Got(Decode(body), rest, nodes)
  }

  ghost function NameOf(r: Read<Label>): Read<Text> {
    match r case Failed(failure) => Failed(failure) case Got(tag, rest, nodes) => Got(Decode(tag.name), rest, nodes)
  }

  /** The outcome of a step, and the state after it, are what the grammar reads. */
  ghost predicate Shows<V>(r: Read<V>, outcome: Outcome<V>, rest: Text, nodes: nat) {
    match r case Failed(failure) => outcome == Fail(failure)
      case Got(value, rest', nodes') => outcome == Ok(value) && rest' == rest && nodes' == nodes
  }

  /** A string whose closing quote is found, from its text without escapes. */
  ghost function Unquoted(body: Option<Text>, rest: Text, nodes: nat): Read<Text> {
    if body.None? then Failed(BadString) else Got(body.value, rest, nodes)
  }

  lemma StringCloses(text: Text, start: nat, end: nat, nodes: nat)
    requires start < end <= |text| && BodyLength(text[start..]) == Some(end - 1 - start)
    ensures Decoded(ReadString(text[start..], nodes)) == Unquoted(Unquote(text[start..end - 1]), text[end..], nodes)
  {
    var s := text[start..];
    assert s[..end - 1 - start] == text[start..end - 1] && s[end - start..] == text[end..];
  }

  lemma StringOpen(s: Text, nodes: nat)
    requires BodyLength(s) == None
    ensures Decoded(ReadString(s, nodes)) == Failed(Unclosed)
  {
  }

  lemma Next(text: Text, index: nat)
    requires index < |text|
    ensures text[index..] != [] && text[index..][0] == text[index] && text[index..][1..] == text[index + 1..]
  {
  }

  /** A bracket that does not close at once, by the loop over its elements. */
  lemma BlockLoop(isObject: bool, t: Text, nodes: nat, depth: nat)
    requires t != [] && isObject == (t[0] == Open(true))
    requires var inner := AfterSpace(t[1..]); inner == [] || inner[0] != Close(isObject)
    ensures MeaningOf(ReadBlock(t, nodes, depth)) == LoopResult(isObject, [], [], t[1..], nodes, depth)
  {
    assert NameSet(isObject, []) == {};
    var r := ReadElements(t[1..], nodes, depth, isObject, {});
    if r.Got? {
      assert [] + Names(r.value) == Names(r.value) && [] + Meanings(r.value) == Meanings(r.value);
    }
  }

  lemma EmptyLoop(isObject: bool, t: Text, nodes: nat, depth: nat)
    requires t != [] && isObject == (t[0] == Open(true))
    requires var inner := AfterSpace(t[1..]); inner != [] && inner[0] == Close(isObject)
    ensures MeaningOf(ReadBlock(t, nodes, depth)) == Got(Assembled(isObject, [], []), AfterSpace(t[1..])[1..], nodes)
  {
    var node := Block(isObject, t[1..][..Lead(t[1..])], Empty);
    assert ReadBlock(t, nodes, depth) == Got(node, AfterSpace(t[1..])[1..], nodes);
    assert Meaning(node) == Assembled(isObject, Names(Empty), Meanings(Empty));
  }

  lemma ItemLabel(at: Text, nodes: nat, names: seq<Text>)
    ensures NameOf(ReadLabel(at, nodes, false, NameSet(false, names))) == Got([], AfterSpace(at), nodes)
  {
  }

  /** What follows the name of a member. */
  ghost function AfterName(name: Text, rest: Text, nodes: nat, names: seq<Text>): Read<Text> {
    var u := AfterSpace(rest);
    if name in names then Failed(Duplicate(name))
    else if u == [] || u[0] != COLON then Failed(ExpectedColon)
    else Got(name, u[1..], nodes)
  }

  lemma NoName(at: Text, nodes: nat, names: seq<Text>)
    requires var t := AfterSpace(at); t == [] || t[0] != QUOTE
    ensures NameOf(ReadLabel(at, nodes, true, NameSet(true, names))) == Failed(ExpectedName)
  {
  }

  lemma NameThen(at: Text, nodes: nat, names: seq<Text>)
    requires var t := AfterSpace(at); t != [] && t[0] == QUOTE
    ensures NameOf(ReadLabel(at, nodes, true, NameSet(true, names))) ==
      match Decoded(ReadString(AfterSpace(at)[1..], nodes))
      case Failed(failure) => Failed(failure)
      case Got(name, rest, _) => AfterName(name, rest, nodes, names)
  {
  }

  ghost function StringValue(r: Read<Text>): Read<Value> {
    match r case Failed(failure) => Failed(failure) case Got(value, rest, nodes) => Got(VString(value), rest, nodes)
  }

  lemma TooDeep(s: Text, nodes: nat, depth: nat)
    requires depth > MAX_DEPTH || nodes + 1 > MAX_NODES
    ensures MeaningOf(ReadValue(s, nodes, depth)) == Failed(TooComplex)
  {
  }

  lemma StringCase(s: Text, t: Text, nodes: nat, depth: nat)
    requires depth <= MAX_DEPTH && nodes <= MAX_NODES && 0 < nodes && t == AfterSpace(s) && t != [] && t[0] == QUOTE
    ensures MeaningOf(ReadValue(s, nodes - 1, depth)) == StringValue(Decoded(ReadString(t[1..], nodes)))
  {
  }

  lemma BlockCase(s: Text, t: Text, nodes: nat, depth: nat)
    requires depth <= MAX_DEPTH && nodes <= MAX_NODES && 0 < nodes && t == AfterSpace(s)
    requires t != [] && (t[0] == Open(true) || t[0] == Open(false))
    ensures MeaningOf(ReadValue(s, nodes - 1, depth)) == MeaningOf(ReadBlock(t, nodes, depth))
  {
  }

  lemma WordCase(s: Text, t: Text, nodes: nat, depth: nat)
    requires depth <= MAX_DEPTH && nodes <= MAX_NODES && 0 < nodes && t == AfterSpace(s)
    requires t == [] || (t[0] != QUOTE && t[0] != Open(true) && t[0] != Open(false))
    ensures ReadValue(s, nodes - 1, depth) == ReadWord(t, nodes)
  {
  }

  class Parser {
    const text: Text
    var index: nat
    var nodes: nat

    constructor (text: Text)
      ensures this.text == text && index == 0 && nodes == 0
    {
      this.text := text;
      index, nodes := 0, 0;
    }

    ghost predicate Valid()
      reads this
    {
      index <= |text|
    }

    ghost function Rest(): Text
      reads this
    {
      if index <= |text| then text[index..] else []
    }

    method Space()
      requires Valid()
      modifies this`index
      ensures Valid() && index >= old(index) && Rest() == AfterSpace(old(Rest()))
    {
      while index < |text| && IsSpace(text[index])
        invariant Valid() && index >= old(index) && AfterSpace(Rest()) == AfterSpace(old(Rest()))
        decreases |text| - index
      {
        assert Rest()[1..] == text[index + 1..];
        index := index + 1;
      }
    }

    /** Moves past the closing quote, and skips the unit after each backslash. */
    method SkipString() returns (closed: bool)
      requires Valid()
      modifies this`index
      ensures closed ==> old(index) < index <= |text| && BodyLength(text[old(index)..]) == Some(index - 1 - old(index))
      ensures !closed ==> BodyLength(text[old(index)..]) == None
    {
      var start := index;
      while index < |text|
        invariant start <= index <= |text| + 1 && BodyLength(text[start..]) == EndAfter(text, start, index)
        decreases |text| - index
      {
        EndStep(text, start, index);
        var c := text[index];
        index := index + 1;
        if c == QUOTE {
          return true;
        }
        if c == BACKSLASH {
          index := index + 1;
        }
      }
      closed := false;
    }

    method TokenString() returns (r: Outcome<Text>)
      requires Valid() && Rest() != [] && Rest()[0] == QUOTE
      modifies this`index
      ensures Shows(Decoded(ReadString(old(Rest()[1..]), nodes)), r, Rest(), nodes)
      ensures r.Ok? ==> Valid() && index >= old(index)
    {
      Next(text, index);
      index := index + 1;
      r := TokenBody();
    }

    /** Reads a string after its opening quote. */
    method TokenBody() returns (r: Outcome<Text>)
      requires Valid()
      modifies this`index
      ensures Shows(Decoded(ReadString(old(Rest()), nodes)), r, Rest(), nodes)
      ensures r.Ok? ==> Valid() && index >= old(index)
    {
      var start := index;
      var closed := SkipString();
      if !closed {
        StringOpen(text[start..], nodes);
        return Fail(Unclosed);
      }
      StringCloses(text, start, index, nodes);
      r := Body(start);
    }

    /** The string between `start` and the closing quote, which was just passed. */
    method Body(start: nat) returns (r: Outcome<Text>)
      requires start < index <= |text|
      ensures Shows(Unquoted(Unquote(text[start..index - 1]), Rest(), nodes), r, Rest(), nodes)
    {
      var body := Unquote(text[start..index - 1]);
      r := if body.Some? then Ok(body.value) else Fail(BadString);
    }

    method Value(depth: nat) returns (r: Outcome<Value>)
      requires Valid()
      modifies this`index, this`nodes
      ensures Shows(MeaningOf(ReadValue(old(Rest()), old(nodes), depth)), r, Rest(), nodes)
      ensures r.Ok? ==> Valid() && index >= old(index)
      decreases |text| - index, 2
    {
      ghost var s, before := Rest(), nodes;
      ghost var all := MeaningOf(ReadValue(s, before, depth));
      Space();
      if depth > MAX_DEPTH || nodes + 1 > MAX_NODES {
        TooDeep(s, before, depth);
        return Fail(TooComplex);
      }
      nodes := nodes + 1;
      r := Dispatch(s, depth, all);
    }

    method Dispatch(ghost s: Text, depth: nat, ghost all: Read<Value>) returns (r: Outcome<Value>)
      requires Valid() && Rest() == AfterSpace(s) && depth <= MAX_DEPTH && 0 < nodes <= MAX_NODES
      requires all == MeaningOf(ReadValue(s, nodes - 1, depth))
      modifies this`index, this`nodes
      ensures Shows(all, r, Rest(), nodes)
      ensures r.Ok? ==> Valid() && index >= old(index)
      decreases |text| - index, 1
    {
      ghost var t := Rest();
      if index < |text| && text[index] == QUOTE {
        StringCase(s, t, nodes, depth);
        r := StringToken();
      } else if index < |text| && (text[index] == Open(true) || text[index] == Open(false)) {
        BlockCase(s, t, nodes, depth);
        r := Bracket(depth);
      } else {
        WordCase(s, t, nodes, depth);
        r := Word();
      }
    }

    method StringToken() returns (r: Outcome<Value>)
      requires Valid() && Rest() != [] && Rest()[0] == QUOTE
      modifies this`index
      ensures Shows(StringValue(Decoded(ReadString(old(Rest()[1..]), nodes))), r, Rest(), nodes)
      ensures r.Ok? ==> Valid() && index >= old(index)
    {
      var quoted := TokenString();
      r := match quoted case Ok(value) => Ok(VString(value)) case Fail(failure) => Fail(failure);
    }

    /** Reads a number or a literal. */
    method Word() returns (r: Outcome<Value>)
      requires Valid()
      modifies this`index
      ensures Shows(MeaningOf(ReadWord(old(Rest()), nodes)), r, Rest(), nodes)
      ensures r.Ok? ==> Valid() && index >= old(index)
    {
      var word := ReadWord(text[index..], nodes);
      if word.Got? {
        ReadWordSplits(Rest(), nodes);
      }
      r := Take(word);
    }

    /** Moves past a number or a literal. */
    method Take(word: Read<Node>) returns (r: Outcome<Value>)
      requires Valid() && (word.Got? ==> Rest() == Render(word.value) + word.rest && word.nodes == nodes)
      modifies this`index
      ensures Shows(MeaningOf(word), r, Rest(), nodes)
      ensures r.Ok? ==> Valid() && index >= old(index)
    {
      if word.Failed? {
        return Fail(word.failure);
      }
      EndOf(text, index, Render(word.value), word.rest);
      index := |text| - |word.rest|;
      assert Rest() == word.rest;
      r := Ok(Meaning(word.value));
    }

    method Bracket(depth: nat) returns (r: Outcome<Value>)
      requires Valid() && Rest() != []
      modifies this`index, this`nodes
      ensures Shows(MeaningOf(ReadBlock(old(Rest()), old(nodes), depth)), r, Rest(), nodes)
      ensures r.Ok? ==> Valid() && index >= old(index)
      decreases |text| - index, 0
    {
      var isObject := text[index] == Open(true);
      ghost var t := Rest();
      index := index + 1;
      assert Rest() == t[1..];
      Space();
      if index < |text| && text[index] == Close(isObject) {
        EmptyLoop(isObject, t, nodes, depth);
        index := index + 1;
        return Ok(Assembled(isObject, [], []));
      }
      BlockLoop(isObject, t, nodes, depth);
      SpaceTwice(t[1..]);
      r := Items(isObject, depth, t[1..]);
    }

    /** Reads what stands before the value of an element. */
    method Label(isObject: bool, ghost at: Text, names: seq<Text>) returns (r: Outcome<Text>)
      requires Valid() && AfterSpace(Rest()) == AfterSpace(at)
      modifies this`index
      ensures Shows(NameOf(ReadLabel(at, nodes, isObject, NameSet(isObject, names))), r, Rest(), nodes)
      ensures r.Ok? ==> Valid() && index >= old(index)
    {
      Space();
      if isObject {
        r := MemberName(at, names);
      } else {
        ItemLabel(at, nodes, names);
        r := Ok([]);
      }
    }

    /** Reads a new name and a colon. */
    method MemberName(ghost at: Text, names: seq<Text>) returns (r: Outcome<Text>)
      requires Valid() && Rest() == AfterSpace(at)
      modifies this`index
      ensures Shows(NameOf(ReadLabel(at, nodes, true, NameSet(true, names))), r, Rest(), nodes)
      ensures r.Ok? ==> Valid() && index >= old(index)
    {
      if index == |text| || text[index] != QUOTE {
        NoName(at, nodes, names);
        return Fail(ExpectedName);
      }
      NameThen(at, nodes, names);
      r := TokenString();
      if r.Ok? {
        r := NewName(r.value, names);
      }
    }

    method NewName(name: Text, names: seq<Text>) returns (r: Outcome<Text>)
      requires Valid()
      modifies this`index
      ensures Shows(AfterName(name, old(Rest()), nodes, names), r, Rest(), nodes)
      ensures r.Ok? ==> Valid() && index >= old(index)
    {
      Space();
      if name in names {
        return Fail(Duplicate(name));
      }
      if index == |text| || text[index] != COLON {
        return Fail(ExpectedColon);
      }
      index := index + 1;
      r := Ok(name);
    }

    /** Reads the comma or the closing bracket after a value. */
    method Closes(isObject: bool) returns (r: Outcome<bool>)
      requires Valid()
      modifies this`index
      ensures Shows(ReadEnd(old(Rest()), nodes, isObject), r, Rest(), nodes)
      ensures r.Ok? ==> Valid() && index > old(index)
    {
      Space();
      if index == |text| {
        return Fail(ExpectedEnd);
      }
      var end := text[index];
      index := index + 1;
      if end == Close(isObject) {
        return Ok(true);
      }
      r := if end == COMMA then Ok(false) else Fail(ExpectedEnd);
    }

    /** Reads elements up to the closing bracket. */
    method Items(isObject: bool, depth: nat, ghost inside: Text) returns (r: Outcome<Value>)
      requires Valid() && AfterSpace(Rest()) == AfterSpace(inside)
      modifies this`index, this`nodes
      ensures Shows(LoopResult(isObject, [], [], inside, old(nodes), depth), r, Rest(), nodes)
      ensures r.Ok? ==> Valid() && index >= old(index)
      decreases |text| - index, 3
    {
      var names: seq<Text>, items: seq<Value> := [], [];
      ghost var at := inside;
      ghost var all := LoopResult(isObject, [], [], inside, nodes, depth);
      while true
        invariant Valid() && index >= old(index) && AfterSpace(Rest()) == AfterSpace(at)
        invariant all == LoopResult(isObject, names, items, at, nodes, depth)
        decreases |text| - index
      {
        ghost var before := nodes;
        ghost var tag := ReadLabel(at, nodes, isObject, NameSet(isObject, names));
        var name := Label(isObject, at, names);
        if name.Fail? {
          LabelFails(isObject, names, items, at, before, depth, name.failure);
          return Fail(name.failure);
        }
        ghost var v := ReadValue(tag.rest, nodes, depth + 1);
        var next := Value(depth + 1);
        if next.Fail? {
          ItemFails(isObject, names, items, at, before, depth, tag, v, next.failure);
          return Fail(next.failure);
        }
        ghost var end := ReadEnd(v.rest, v.nodes, isObject);
        var closes := Closes(isObject);
        if closes.Fail? {
          ItemFails(isObject, names, items, at, before, depth, tag, v, closes.failure);
          return Fail(closes.failure);
        }
        LoopStep(isObject, names, items, at, before, depth, tag, v, end);
        names, items := names + [name.value], items + [next.value];
        if closes.value {
          return Ok(Assembled(isObject, names, items));
        }
        at := Rest();
      }
    }
  }

  /** Parses a whole text. */
  method Parse(text: Text, limit: nat) returns (r: Parsed)
    ensures r == ParseText(text, limit)
  {
    if |text| > limit || Bytes(text) > limit {
      return Refused(TooLarge);
    }
    var parser := new Parser(text);
    var value := parser.Value(0);
    if value.Fail? {
      return Refused(value.failure);
    }
    parser.Space();
    r := if parser.index != |text| then Refused(Trailing) else Parsed(value.value);
  }
}
