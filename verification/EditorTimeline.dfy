/** The draft timeline that the Go editor engine owns: an undo list behind a
    two-step protocol. A prepare plans the next state, an accept installs it
    and a discard drops it. */
module EditorTimeline {
  import opened Basics

  /** The JSON text of each top-level branch of a project. */
  type Project = map<string, string>

  /** The largest value of the 64-bit counters. */
  const MAX_COUNTER: nat := 0xFFFF_FFFF_FFFF_FFFF

  datatype Entry = Entry(id: nat, project: Project, background: string, imageKey: string)

  datatype State = State(past: seq<Entry>, present: Option<Entry>, future: seq<Entry>)

  datatype Proposal = Proposal(state: State, token: nat, changed: bool)

  datatype Timeline = Timeline(state: State, pending: Option<Proposal>, revision: nat, nextID: nat, nextPlan: nat)

  /** The engine: the synchronized project, and the timeline. */
  datatype Engine = Engine(branches: Project, ready: bool, timeline: Timeline)

  datatype Kind = Reset | Replace | CommitFrom | Undo | Redo | DropOldest

  /** An absent starting snapshot and an absent trim count are 0. `record` is true when absent. */
  datatype Command =
    | Prepare(kind: Kind, revision: nat, before: nat, record: bool, trimOldest: nat, background: string,
              imageKey: string)
    | Accept(token: nat)
    | Discard(token: nat)

  datatype View = View(head: nat, revision: nat, proposal: Option<nat>, changed: bool, canUndo: bool, canRedo: bool,
                       retained: seq<nat>, imageKeys: seq<string>, background: string)

  datatype HistoryError =
    | StaleRevision | CounterExhausted | BadParameters | NotInitialized | NotSynchronized
    | StaleStart | UnchangedTrim | TrimTooLong | NoProposal

  datatype Reply = Shown(view: View) | Refused(error: HistoryError)

  const NEW_ENGINE: Engine := Engine(map[], false, Timeline(State([], None, []), None, 0, 0, 0))

  // ----- the retained entries -----

  function Entries(s: State): seq<Entry> {
    s.past + (if s.present.Some? then [s.present.value] else []) + s.future
  }

  /** The items of the list at their first places. */
  function Firsts<T(==,!new)>(items: seq<T>): (firsts: seq<T>)
    ensures forall x :: x in firsts <==> x in items
    ensures forall a, b :: 0 <= a < b < |firsts| ==> firsts[a] != firsts[b]
  {
    if items == [] then []
    else
      var last := items[|items| - 1];
      var before := Firsts(items[..|items| - 1]);
      if last in before then before else before + [last]
  }

  function IDs(entries: seq<Entry>): (ids: seq<nat>)
    ensures |ids| == |entries| && forall k :: 0 <= k < |ids| ==> ids[k] == entries[k].id
  {
    seq(|entries|, k requires 0 <= k < |entries| => entries[k].id)
  }

  /** The nonempty image keys, in entry order. */
  function Keys(entries: seq<Entry>): seq<string> {
    if entries == [] then []
    else
      var last := entries[|entries| - 1].imageKey;
      Keys(entries[..|entries| - 1]) + if last == "" then [] else [last]
  }

  lemma {:induction false} KeyOfEntry(entries: seq<Entry>, key: string)
    ensures key in Keys(entries) <==> key != "" && exists k :: 0 <= k < |entries| && entries[k].imageKey == key
  {
    if entries != [] {
      var rest := entries[..|entries| - 1];
      KeyOfEntry(rest, key);
      if k :| 0 <= k < |entries| && entries[k].imageKey == key {
        assert k < |rest| ==> rest[k].imageKey == key;
      }
    }
  }

  function Metadata(s: State, revision: nat, changed: bool): View {
    View(if s.present.Some? then s.present.value.id else 0, revision, None, changed, s.past != [], s.future != [],
         Firsts(IDs(Entries(s))), Firsts(Keys(Entries(s))),
         if s.present.Some? then s.present.value.background else "null")
  }

  // ----- transitions -----

  predicate Creates(kind: Kind) {
    kind.Reset? || kind.Replace? || kind.CommitFrom?
  }

  /** Entries with the same branches and background, up to the order of object members. */
  predicate SameEntry(canonical: string -> string, a: Entry, b: Entry) {
    && a.project.Keys == b.project.Keys
    && (forall key :: key in a.project ==> canonical(a.project[key]) == canonical(b.project[key]))
    && canonical(a.background) == canonical(b.background)
  }

  datatype Move = Next(state: State, changed: bool) | Stuck(error: HistoryError)

  /** The state after a command. `entry` is the captured entry of a command that creates one. */
  function Transition(canonical: string -> string, s: State, c: Command, entry: Entry): Move
    requires c.Prepare? && (s.present.Some? || c.kind.Reset?)
  {
    match c.kind
    case Reset => Next(State([], Some(entry), []), true)
    case Replace | CommitFrom =>
      if SameEntry(canonical, s.present.value, entry) then
        if c.trimOldest > 0 then Stuck(UnchangedTrim) else Next(s, false)
      else
        var past := if c.record then s.past + [s.present.value] else s.past;
        if c.trimOldest > |past| then Stuck(TrimTooLong)
        else Next(State(past[c.trimOldest..], Some(entry), []), true)
    case Undo =>
      if s.past == [] then Next(s, false)
      else Next(State(s.past[..|s.past| - 1], Some(s.past[|s.past| - 1]), s.future + [s.present.value]), true)
    case Redo =>
      if s.future == [] then Next(s, false)
      else Next(State(s.past + [s.present.value], Some(s.future[|s.future| - 1]), s.future[..|s.future| - 1]), true)
    case DropOldest =>
      if s.past == [] then Next(s, false) else Next(s.(past := s.past[1..]), true)
  }

  predicate ParametersFit(c: Command)
    requires c.Prepare?
  {
    (c.kind.CommitFrom? <==> c.before != 0) && (c.trimOldest > 0 ==> c.kind.Replace? && c.record) &&
      (!c.kind.Replace? ==> c.record)
  }

  function Captured(e: Engine, c: Command): Entry
    requires c.Prepare?
  {
    Entry(e.timeline.nextID + 1, e.branches, c.background, c.imageKey)
  }

  /** What makes a prepare fail before it captures an entry. */
  function Precheck(e: Engine, c: Command): Option<HistoryError>
    requires c.Prepare?
  {
    var t := e.timeline;
    if c.revision != t.revision then Some(StaleRevision)
    else if t.nextPlan == MAX_COUNTER || t.nextID == MAX_COUNTER || t.revision == MAX_COUNTER then
      Some(CounterExhausted)
    else if !ParametersFit(c) then Some(BadParameters)
    else if !c.kind.Reset? && t.state.present.None? then Some(NotInitialized)
    else if Creates(c.kind) && !e.ready then Some(NotSynchronized)
    else if c.kind.CommitFrom? && c.before != t.state.present.value.id then Some(StaleStart)
    else None
  }

  function AfterPrepare(canonical: string -> string, e: Engine, c: Command): (Engine, Reply)
    requires c.Prepare?
  {
    match Precheck(e, c)
    case Some(error) => (e, Refused(error))
    case None => Planned(e, Creates(c.kind), Transition(canonical, e.timeline.state, c, Captured(e, c)))
  }

  /** Keeps a move as the pending proposal. A captured entry uses up its ID even when the move is stuck. */
  function Planned(e: Engine, captured: bool, move: Move): (Engine, Reply) {
    var t := e.timeline.(nextID := e.timeline.nextID + if captured then 1 else 0);
    match move
    case Stuck(error) => (e.(timeline := t), Refused(error))
    case Next(state, changed) =>
      var token := t.nextPlan + 1;
      (e.(timeline := t.(pending := Some(Proposal(state, token, changed)), nextPlan := token)),
       Shown(Metadata(state, t.revision + 1, changed).(proposal := Some(token))))
  }

  /** An accept or a discard. Only the pending token completes. */
  function AfterComplete(e: Engine, c: Command): (Engine, Reply)
    requires !c.Prepare?
  {
    var t := e.timeline;
    if t.pending.None? || c.token != t.pending.value.token then (e, Refused(NoProposal))
    else if c.Discard? then (e.(timeline := t.(pending := None)), Shown(Metadata(t.state, t.revision, false)))
    else if t.revision == MAX_COUNTER then (e, Refused(CounterExhausted))
    else
      var state := t.pending.value.state;
      var installed := if state.present.Some? then state.present.value.project else e.branches;
      (Engine(installed, true, t.(state := state, pending := None, revision := t.revision + 1)),
       Shown(Metadata(state, t.revision + 1, t.pending.value.changed)))
  }

  function AfterHistory(canonical: string -> string, e: Engine, c: Command): (Engine, Reply) {
    if c.Prepare? then AfterPrepare(canonical, e, c) else AfterComplete(e, c)
  }

  // ----- what the timeline keeps -----

  /** The entries have distinct IDs among those given out. */
  ghost predicate Distinct(entries: seq<Entry>, nextID: nat) {
    && (forall k :: 0 <= k < |entries| ==> 1 <= entries[k].id <= nextID)
    && (forall j, k :: 0 <= j < k < |entries| ==> entries[j].id != entries[k].id)
  }

  ghost predicate Numbered(s: State, nextID: nat) {
    Distinct(Entries(s), nextID) && (s.present.None? ==> Entries(s) == [])
  }

  ghost predicate Pending(p: Option<Proposal>, nextID: nat, nextPlan: nat) {
    p.Some? ==> Numbered(p.value.state, nextID) && p.value.state.present.Some? && 1 <= p.value.token <= nextPlan
  }

  /** Every entry of the timeline has its own ID, given out before. A proposal has a present entry. */
  ghost predicate WellKept(e: Engine) {
    var t := e.timeline;
    && Numbered(t.state, t.nextID) && Pending(t.pending, t.nextID, t.nextPlan)
    && t.revision <= MAX_COUNTER && t.nextID <= MAX_COUNTER && t.nextPlan <= MAX_COUNTER
    && (t.pending.Some? ==> t.revision < MAX_COUNTER)
    && (t.state.present.None? <==> t.revision == 0)
  }

  /** A transition keeps entries of the state and adds only the captured one, as the new present. */
  lemma TransitionEntries(canonical: string -> string, s: State, c: Command, entry: Entry)
    requires c.Prepare? && (s.present.Some? || c.kind.Reset?)
    requires Transition(canonical, s, c, entry).Next?
    ensures var next := Transition(canonical, s, c, entry).state;
            && next.present.Some?
            && (forall x :: x in Entries(next) ==>
                  x in Entries(s) || (x == entry && Creates(c.kind) && next.present.value == entry))
            && (next.present.value in Entries(s) || (Creates(c.kind) && next.present.value == entry))
  {
    var next := Transition(canonical, s, c, entry).state;
    if s.present.Some? { assert s.present.value in Entries(s); }
    forall x | x in Entries(next)
      ensures x in Entries(s) || (x == entry && Creates(c.kind) && next.present.value == entry) {
      if x in next.past {
        var k :| 0 <= k < |next.past| && next.past[k] == x;
      } else if x in next.future {
        var k :| 0 <= k < |next.future| && next.future[k] == x;
      }
    }
  }

  lemma AppendDistinct(entries: seq<Entry>, low: nat, high: nat, entry: Entry, nextID: nat)
    requires Distinct(entries, nextID) && low <= high <= |entries| && entry.id == nextID + 1
    ensures Distinct(entries[low..high] + [entry], nextID + 1)
  {
  }

  lemma MoveDistinct(a: seq<Entry>, moved: Entry, b: seq<Entry>, nextID: nat)
    ensures Distinct(a + [moved] + b, nextID) <==> Distinct(a + b + [moved], nextID)
  {
    var left, right := a + [moved] + b, a + b + [moved];
    assert forall k :: 0 <= k < |a| ==> left[k] == right[k];
    assert left[|a|] == right[|a| + |b|];
    assert forall k :: |a| <= k < |a| + |b| ==> right[k] == left[k + 1];
    assert forall k :: |a| < k <= |a| + |b| ==> left[k] == right[k - 1];
  }

  lemma ReplaceNumbered(s: State, record: bool, trim: nat, entry: Entry, nextID: nat)
    requires s.present.Some? && Numbered(s, nextID) && entry.id == nextID + 1
    requires trim <= |s.past| + if record then 1 else 0
    ensures var past := if record then s.past + [s.present.value] else s.past;
            Numbered(State(past[trim..], Some(entry), []), nextID + 1)
  {
    var past := if record then s.past + [s.present.value] else s.past;
    AppendDistinct(Entries(s), trim, |past|, entry, nextID);
    assert past == Entries(s)[..|past|];
    assert Entries(State(past[trim..], Some(entry), [])) == Entries(s)[trim..|past|] + [entry];
  }

  lemma UndoNumbered(s: State, nextID: nat)
    requires s.present.Some? && Numbered(s, nextID) && s.past != []
    ensures Numbered(State(s.past[..|s.past| - 1], Some(s.past[|s.past| - 1]), s.future + [s.present.value]), nextID)
  {
    var next := State(s.past[..|s.past| - 1], Some(s.past[|s.past| - 1]), s.future + [s.present.value]);
    MoveDistinct(s.past, s.present.value, s.future, nextID);
    assert Entries(next) == s.past + s.future + [s.present.value];
  }

  lemma RedoNumbered(s: State, nextID: nat)
    requires s.present.Some? && Numbered(s, nextID) && s.future != []
    ensures Numbered(State(s.past + [s.present.value], Some(s.future[|s.future| - 1]), s.future[..|s.future| - 1]),
                     nextID)
  {
    var last := |s.future| - 1;
    var early := s.past + [s.present.value];
    var next := State(early, Some(s.future[last]), s.future[..last]);
    MoveDistinct(early, s.future[last], s.future[..last], nextID);
    assert Entries(next) == early + [s.future[last]] + s.future[..last];
    assert Entries(s) == early + s.future[..last] + [s.future[last]];
  }

  lemma TransitionNumbered(canonical: string -> string, s: State, c: Command, entry: Entry, nextID: nat)
    requires c.Prepare? && (s.present.Some? || c.kind.Reset?)
    requires Numbered(s, nextID) && entry.id == nextID + 1
    requires Transition(canonical, s, c, entry).Next?
    ensures Numbered(Transition(canonical, s, c, entry).state, nextID + if Creates(c.kind) then 1 else 0)
  {
    match c.kind
    case Reset =>
      assert Entries(State([], Some(entry), [])) == [entry];
    case Replace | CommitFrom =>
      if SameEntry(canonical, s.present.value, entry) {
        Widen(s, nextID, nextID + 1);
      } else {
        ReplaceNumbered(s, c.record, c.trimOldest, entry, nextID);
      }
    case Undo =>
      if s.past != [] { UndoNumbered(s, nextID); }
    case Redo =>
      if s.future != [] { RedoNumbered(s, nextID); }
    case DropOldest =>
      if s.past != [] { assert Entries(s.(past := s.past[1..])) == Entries(s)[1..]; }
  }

  lemma Widen(s: State, nextID: nat, more: nat)
    requires Numbered(s, nextID) && nextID <= more
    ensures Numbered(s, more)
  {
  }

  lemma PlannedKeeps(e: Engine, captured: bool, move: Move)
    requires WellKept(e)
    requires e.timeline.revision < MAX_COUNTER && e.timeline.nextID < MAX_COUNTER && e.timeline.nextPlan < MAX_COUNTER
    requires move.Next? ==>
               move.state.present.Some? && Numbered(move.state, e.timeline.nextID + if captured then 1 else 0)
    ensures WellKept(Planned(e, captured, move).0)
  {
    var t := e.timeline;
    var nextID := t.nextID + if captured then 1 else 0;
    Widen(t.state, t.nextID, nextID);
    if move.Stuck? && t.pending.Some? { Widen(t.pending.value.state, t.nextID, nextID); }
  }

  lemma PrepareKeeps(canonical: string -> string, e: Engine, c: Command)
    requires WellKept(e) && c.Prepare?
    ensures WellKept(AfterPrepare(canonical, e, c).0)
  {
    if Precheck(e, c).None? {
      var move := Transition(canonical, e.timeline.state, c, Captured(e, c));
      if move.Next? {
        TransitionEntries(canonical, e.timeline.state, c, Captured(e, c));
        TransitionNumbered(canonical, e.timeline.state, c, Captured(e, c), e.timeline.nextID);
      }
      PlannedKeeps(e, Creates(c.kind), move);
    }
  }

  /** No command can reach a timeline with a repeated ID or a proposal without a present entry. */
  lemma HistoryKeeps(canonical: string -> string, e: Engine, c: Command)
    requires WellKept(e)
    ensures WellKept(AfterHistory(canonical, e, c).0)
  {
    if c.Prepare? {
      PrepareKeeps(canonical, e, c);
    }
  }

  /** Redo takes an undo back, and undo takes a redo back. */
  lemma UndoRedoInverse(canonical: string -> string, s: State, undo: Command, redo: Command, entry: Entry)
    requires s.present.Some? && undo.Prepare? && undo.kind == Undo && redo.Prepare? && redo.kind == Redo
    ensures s.past != [] ==>
              var back := Transition(canonical, s, undo, entry);
              back.Next? && back.changed && Transition(canonical, back.state, redo, entry) == Next(s, true)
    ensures s.future != [] ==>
              var forth := Transition(canonical, s, redo, entry);
              forth.Next? && forth.changed && Transition(canonical, forth.state, undo, entry) == Next(s, true)
  {
    if s.past != [] {
      var back := Transition(canonical, s, undo, entry).state;
      assert back.past + [back.present.value] == s.past;
      assert back.future[..|back.future| - 1] == s.future;
    }
    if s.future != [] {
      var forth := Transition(canonical, s, redo, entry).state;
      assert forth.future + [forth.present.value] == s.future;
      assert forth.past[..|forth.past| - 1] == s.past;
    }
  }

  /** A shown prepare has kept a move. Its counters leave room for the next revision. */
  lemma ShownIsPlanned(canonical: string -> string, e: Engine, c: Command) returns (move: Move)
    requires c.Prepare? && AfterPrepare(canonical, e, c).1.Shown?
    ensures !c.kind.Reset? ==> e.timeline.state.present.Some?
    ensures move == Transition(canonical, e.timeline.state, c, Captured(e, c))
    ensures move.Next? && AfterPrepare(canonical, e, c) == Planned(e, Creates(c.kind), move)
    ensures e.timeline.revision != MAX_COUNTER
  {
    move := Transition(canonical, e.timeline.state, c, Captured(e, c));
  }

  lemma PlannedIsAccepted(e: Engine, captured: bool, move: Move)
    requires move.Next? && e.timeline.revision != MAX_COUNTER
    ensures var (planned, reply) := Planned(e, captured, move);
            && reply.Shown? && reply.view.proposal.Some?
            && AfterComplete(planned, Accept(reply.view.proposal.value)).1 == Shown(reply.view.(proposal := None))
  {
  }

  /** An accept answers with the very view of its prepare, without the proposal token. */
  lemma AcceptShowsProposal(canonical: string -> string, e: Engine, c: Command)
    requires WellKept(e) && c.Prepare? && AfterPrepare(canonical, e, c).1.Shown?
    ensures var (planned, reply) := AfterPrepare(canonical, e, c);
            && reply.view.proposal.Some?
            && AfterComplete(planned, Accept(reply.view.proposal.value)).1 == Shown(reply.view.(proposal := None))
  {
    var move := ShownIsPlanned(canonical, e, c);
    PlannedIsAccepted(e, Creates(c.kind), move);
  }

  /** The engine state that the Go code updates in place. */
  class EditorEngine {
    var branches: Project
    var ready: bool
    var state: State
    var pending: Option<Proposal>
    var revision: nat
    var nextID: nat
    var nextPlan: nat

    ghost function Contents(): Engine
      reads this
    {
      Engine(branches, ready, Timeline(state, pending, revision, nextID, nextPlan))
    }

    constructor ()
      ensures Contents() == NEW_ENGINE
    {
      branches, ready := map[], false;
      state, pending := State([], None, []), None;
      revision, nextID, nextPlan := 0, 0, 0;
    }

    method HistoryOperation(canonical: string -> string, c: Command) returns (reply: Reply)
      modifies this
      ensures (Contents(), reply) == AfterHistory(canonical, old(Contents()), c)
    {
      if c.Prepare? {
        reply := Plan(canonical, c);
      } else {
        reply := Complete(c);
      }
    }

    method Complete(c: Command) returns (reply: Reply)
      requires !c.Prepare?
      modifies this
      ensures (Contents(), reply) == AfterComplete(old(Contents()), c)
    {
      if pending.None? || c.token != pending.value.token {
        return Refused(NoProposal);
      }
      if c.Discard? {
        pending := None;
        return Shown(Metadata(state, revision, false));
      }
      if revision == MAX_COUNTER {
        return Refused(CounterExhausted);
      }
      reply := Shown(Metadata(pending.value.state, revision + 1, pending.value.changed));
      Install(pending.value.state);
    }

    /** Makes the state current, and its present entry the synchronized project. */
    method Install(next: State)
      modifies this
      ensures var e := old(Contents());
              Contents() == Engine(if next.present.Some? then next.present.value.project else e.branches, true,
                                   e.timeline.(state := next, pending := None, revision := e.timeline.revision + 1))
    {
      state, pending, revision := next, None, revision + 1;
      if state.present.Some? {
        branches := state.present.value.project;
      }
      ready := true;
    }

    method Plan(canonical: string -> string, c: Command) returns (reply: Reply)
      requires c.Prepare?
      modifies this`nextID, this`pending, this`nextPlan
      ensures (Contents(), reply) == AfterPrepare(canonical, old(Contents()), c)
    {
      if c.revision != revision {
        return Refused(StaleRevision);
      }
      if nextPlan == MAX_COUNTER || nextID == MAX_COUNTER || revision == MAX_COUNTER {
        return Refused(CounterExhausted);
      }
      if !ParametersFit(c) {
        return Refused(BadParameters);
      }
      if !c.kind.Reset? && state.present.None? {
        return Refused(NotInitialized);
      }
      var entry := Entry(nextID + 1, branches, c.background, c.imageKey);
      if Creates(c.kind) {
        if !ready {
          return Refused(NotSynchronized);
        }
        if c.kind.CommitFrom? && c.before != state.present.value.id {
          return Refused(StaleStart);
        }
      }
      reply := Keep(Creates(c.kind), Transition(canonical, state, c, entry));
    }

    method Keep(captured: bool, move: Move) returns (reply: Reply)
      modifies this`nextID, this`pending, this`nextPlan
      ensures (Contents(), reply) == Planned(old(Contents()), captured, move)
    {
      if captured {
        nextID := nextID + 1;
      }
      match move {
        case Stuck(error) => reply := Refused(error);
        case Next(next, changed) =>
          nextPlan := nextPlan + 1;
          pending := Some(Proposal(next, nextPlan, changed));
          reply := Shown(Metadata(next, revision + 1, changed).(proposal := Some(nextPlan)));
      }
    }
  }
}
