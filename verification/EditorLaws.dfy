/** What one, two and many history commands do together, in the terms of the states alone. */
module EditorLaws {
  import opened Basics
  import opened EditorTimeline

  ghost predicate IsEdit(s: State, c: Command) {
    c.Prepare? && (c.kind.Replace? || c.kind.CommitFrom?) && s.present.Some?
  }

  ghost predicate IsUndo(c: Command) {
    c.Prepare? && c.kind == Undo
  }

  // ----- one edit -----

  /** An edit changes the draft exactly when a branch or the background differs in more than member order. */
  lemma EditChangesExactly(canonical: string -> string, s: State, c: Command, entry: Entry)
    requires IsEdit(s, c) && c.trimOldest == 0
    ensures var was := s.present.value;
            Transition(canonical, s, c, entry) == Next(s, false) <==>
              && was.project.Keys == entry.project.Keys && canonical(was.background) == canonical(entry.background)
              && forall key :: key in was.project ==> canonical(was.project[key]) == canonical(entry.project[key])
    ensures Transition(canonical, s, c, entry).Next?
    ensures Transition(canonical, s, c, entry) != Next(s, false) ==> Transition(canonical, s, c, entry).changed
  {
  }

  /** A recorded edit is undone by one undo, which gives back the present entry and leaves the new one to redo. */
  lemma RecordedEdit(canonical: string -> string, s: State, c: Command, entry: Entry, undo: Command, other: Entry)
    requires IsEdit(s, c) && c.record && !SameEntry(canonical, s.present.value, entry) && IsUndo(undo)
    requires c.trimOldest <= |s.past|
    ensures var move := Transition(canonical, s, c, entry);
            && move.Next? && move.changed && move.state.present == Some(entry) && move.state.future == []
            && Transition(canonical, move.state, undo, other) ==
                 Next(State(s.past[c.trimOldest..], s.present, [entry]), true)
  {
    var past := (s.past + [s.present.value])[c.trimOldest..];
    assert past == s.past[c.trimOldest..] + [s.present.value];
  }

  /** An edit that trims the whole past cannot be undone. */
  lemma TrimmedEdit(canonical: string -> string, s: State, c: Command, entry: Entry, undo: Command, other: Entry)
    requires IsEdit(s, c) && c.record && !SameEntry(canonical, s.present.value, entry) && IsUndo(undo)
    requires c.trimOldest > |s.past|
    ensures var move := Transition(canonical, s, c, entry);
            if c.trimOldest == |s.past| + 1
            then move == Next(State([], Some(entry), []), true) &&
                 Transition(canonical, move.state, undo, other) == Next(move.state, false)
            else move == Stuck(TrimTooLong)
  {
  }

  /** An unrecorded edit replaces the present entry alone: an undo gives what it gave before the edit. */
  lemma UnrecordedEdit(canonical: string -> string, s: State, c: Command, entry: Entry, undo: Command, other: Entry)
    requires IsEdit(s, c) && !c.record && c.trimOldest == 0 && !SameEntry(canonical, s.present.value, entry)
    requires IsUndo(undo)
    ensures var move := Transition(canonical, s, c, entry);
            && move == Next(State(s.past, Some(entry), []), true)
            && var before := Transition(canonical, s, undo, other);
               var after := Transition(canonical, move.state, undo, other);
               && after.changed == before.changed
               && (before.changed ==>
                     after.state.present == before.state.present && after.state.past == before.state.past)
  {
  }

  /** A reset leaves one entry, and neither an undo nor a redo. */
  lemma ResetClears(canonical: string -> string, s: State, c: Command, entry: Entry, move: Command, other: Entry)
    requires c.Prepare? && c.kind == Reset && move.Prepare? && move.kind in {Undo, Redo, DropOldest}
    ensures var reset := Transition(canonical, s, c, entry);
            && reset.Next? && reset.changed && Entries(reset.state) == [entry]
            && Transition(canonical, reset.state, move, other) == Next(reset.state, false)
  {
  }

  /** Dropping removes the oldest entry of the past and nothing else. */
  lemma DropsOldest(canonical: string -> string, s: State, c: Command, entry: Entry)
    requires c.Prepare? && c.kind == DropOldest && s.present.Some?
    ensures var move := Transition(canonical, s, c, entry);
            && move.Next? && (move.changed <==> s.past != [])
            && (s.past == [] ==> move.state == s)
            && (s.past != [] ==> Entries(s) == [s.past[0]] + Entries(move.state) &&
                                 move.state.present == s.present && move.state.future == s.future)
  {
  }

  // ----- many edits -----

  /** The states under recorded edits that change the draft and trim nothing. */
  ghost predicate Edited(canonical: string -> string, states: seq<State>, edits: seq<Command>, entries: seq<Entry>) {
    && |states| == |edits| + 1 == |entries| + 1
    && forall k :: 0 <= k < |edits| ==>
         && IsEdit(states[k], edits[k]) && edits[k].record && edits[k].trimOldest == 0
         && Transition(canonical, states[k], edits[k], entries[k]) == Next(states[k + 1], true)
  }

  function Undone(canonical: string -> string, s: State, undo: Command, other: Entry, n: nat): State
    requires undo.Prepare? && undo.kind == Undo && s.present.Some?
    ensures Undone(canonical, s, undo, other, n).present.Some?
    decreases n
  {
    if n == 0 then s else Undone(canonical, Transition(canonical, s, undo, other).state, undo, other, n - 1)
  }

  function Reversed(entries: seq<Entry>): seq<Entry> {
    if entries == [] then [] else [entries[|entries| - 1]] + Reversed(entries[..|entries| - 1])
  }

  /** An undo takes one edit back, whatever was undone before. */
  lemma UndoOne(canonical: string -> string, s: State, c: Command, entry: Entry, future: seq<Entry>, undo: Command,
                other: Entry, next: State)
    requires IsEdit(s, c) && c.record && c.trimOldest == 0 && IsUndo(undo)
    requires Transition(canonical, s, c, entry) == Next(next, true)
    ensures Transition(canonical, next.(future := future), undo, other) ==
            Next(State(s.past, s.present, future + [entry]), true)
  {
    assert (s.past + [s.present.value])[0..] == s.past + [s.present.value];
  }

  /** As many undos as edits give the first state back, with the edits to redo, the first one on top. */
  lemma {:induction false} EditsUndone(canonical: string -> string, states: seq<State>, edits: seq<Command>,
                                       entries: seq<Entry>, n: nat, undo: Command, other: Entry, future: seq<Entry>)
    requires Edited(canonical, states, edits, entries) && n <= |edits| && IsUndo(undo) && states[0].present.Some?
    ensures states[n].present.Some?
    ensures Undone(canonical, states[n].(future := future), undo, other, n) ==
            State(states[0].past, states[0].present, future + Reversed(entries[..n]))
    decreases n
  {
    if n == 0 {
      assert future + Reversed(entries[..0]) == future;
    } else {
      var more := future + [entries[n - 1]];
      UndoOne(canonical, states[n - 1], edits[n - 1], entries[n - 1], future, undo, other, states[n]);
      EditsUndone(canonical, states, edits, entries, n - 1, undo, other, more);
      ReversedMore(entries, n, future);
    }
  }

  lemma ReversedMore(entries: seq<Entry>, n: nat, future: seq<Entry>)
    requires 0 < n <= |entries|
    ensures future + [entries[n - 1]] + Reversed(entries[..n - 1]) == future + Reversed(entries[..n])
  {
    assert entries[..n][..n - 1] == entries[..n - 1];
  }

  // ----- what a command of the engine does -----

  /** A prepare is shown exactly when its revision is current, no counter is exhausted, its parameters fit its kind,
      and it can move the timeline. */
  lemma PrepareShownExactly(canonical: string -> string, e: Engine, c: Command)
    requires c.Prepare?
    ensures var t := e.timeline;
            var capturing := c.kind in {Reset, Replace, CommitFrom};
            AfterPrepare(canonical, e, c).1.Shown? <==>
              && c.revision == t.revision && MAX_COUNTER !in {t.nextPlan, t.nextID, t.revision}
              && (c.kind == CommitFrom <==> c.before != 0) && (c.kind != Replace ==> c.record && c.trimOldest == 0)
              && (c.trimOldest > 0 ==> c.record) && (c.kind != Reset ==> t.state.present.Some?)
              && (capturing ==> e.ready) && (c.kind == CommitFrom ==> c.before == t.state.present.value.id)
              && (c.kind in {Replace, CommitFrom} ==>
                    var entry := Entry(t.nextID + 1, e.branches, c.background, c.imageKey);
                    if SameEntry(canonical, t.state.present.value, entry) then c.trimOldest == 0
                    else c.trimOldest <= |t.state.past| + if c.record then 1 else 0)
  {
  }

  /** A refused prepare changes nothing but the number of entries captured. */
  lemma RefusedPrepare(canonical: string -> string, e: Engine, c: Command)
    requires c.Prepare? && AfterPrepare(canonical, e, c).1.Refused?
    ensures var (e', reply) := AfterPrepare(canonical, e, c);
            && e'.branches == e.branches && e'.ready == e.ready
            && e'.timeline == e.timeline.(nextID := e'.timeline.nextID)
            && (e'.timeline.nextID == e.timeline.nextID + 1 <==> reply.error in {UnchangedTrim, TrimTooLong})
            && (e'.timeline.nextID == e.timeline.nextID <==> reply.error !in {UnchangedTrim, TrimTooLong})
            && (reply.error == StaleRevision <==> c.revision != e.timeline.revision)
            && (reply.error == NotInitialized ==> e.timeline.state.present.None? && c.kind != Reset)
            && (reply.error == NotSynchronized ==> !e.ready && Creates(c.kind))
            && (reply.error == StaleStart ==> c.kind == CommitFrom && c.before != e.timeline.state.present.value.id)
            && reply.error != NoProposal
  {
  }

  /** The engine after a move was proposed: it waits with a new token, and the timeline is as it was. Accepting the
      token installs the moved state and its project under the next revision. Discarding it leaves no trace but the
      used numbers. */
  ghost predicate Completes(e: Engine, captured: bool, move: Move, planned: Engine, reply: Reply)
    requires move.Next?
  {
    var t := e.timeline;
    var token := t.nextPlan + 1;
    var numbered := t.(nextPlan := token, nextID := if captured then t.nextID + 1 else t.nextID, pending := None);
    && reply.Shown? && reply.view.proposal == Some(token) && reply.view.changed == move.changed
    && planned == e.(timeline := numbered.(pending := Some(Proposal(move.state, token, move.changed))))
    && AfterComplete(planned, Discard(token)).0 == e.(timeline := numbered)
    && (move.state.present.Some? ==>
          AfterComplete(planned, Accept(token)).0 ==
          Engine(move.state.present.value.project, true, numbered.(state := move.state, revision := t.revision + 1)))
  }

  lemma PlannedThenComplete(e: Engine, captured: bool, move: Move)
    requires move.Next? && e.timeline.revision != MAX_COUNTER
    ensures Completes(e, captured, move, Planned(e, captured, move).0, Planned(e, captured, move).1)
  {
  }

  /** A shown prepare proposes the move of its command, with a capture of the synchronized project for an edit. */
  lemma PrepareThenComplete(canonical: string -> string, e: Engine, c: Command) returns (move: Move)
    requires c.Prepare? && AfterPrepare(canonical, e, c).1.Shown?
    ensures !c.kind.Reset? ==> e.timeline.state.present.Some?
    ensures move == Transition(canonical, e.timeline.state, c,
                               Entry(e.timeline.nextID + 1, e.branches, c.background, c.imageKey))
    ensures move.Next?
    ensures var (planned, reply) := AfterPrepare(canonical, e, c);
            Completes(e, c.kind in {Reset, Replace, CommitFrom}, move, planned, reply)
  {
    move := ShownIsPlanned(canonical, e, c);
    PlannedThenComplete(e, Creates(c.kind), move);
  }

  /** Only the token of the last shown prepare completes, and only once. */
  lemma CompletesOnce(e: Engine, c: Command)
    requires !c.Prepare?
    ensures AfterComplete(e, c).1 == Refused(NoProposal) <==>
              !(e.timeline.pending.Some? && e.timeline.pending.value.token == c.token)
    ensures AfterComplete(e, c).1.Refused? ==> AfterComplete(e, c).0 == e
    ensures AfterComplete(e, c).1.Shown? ==> AfterComplete(AfterComplete(e, c).0, c).1 == Refused(NoProposal)
  {
  }

  lemma {:induction false} FirstsDistinct<T(!new)>(items: seq<T>)
    requires forall a, b :: 0 <= a < b < |items| ==> items[a] != items[b]
    ensures Firsts(items) == items
  {
    if items != [] {
      FirstsDistinct(items[..|items| - 1]);
      assert items == items[..|items| - 1] + [items[|items| - 1]];
    }
  }

  /** A view tells whether an undo or a redo would change the draft, and it lists the entries in order, oldest first,
      and each image key that an entry has. */
  lemma ViewTells(canonical: string -> string, s: State, nextID: nat, revision: nat, changed: bool, undo: Command,
                  redo: Command, other: Entry, key: string)
    requires Numbered(s, nextID) && s.present.Some? && IsUndo(undo) && redo.Prepare? && redo.kind == Redo
    ensures var view := Metadata(s, revision, changed);
            && view.canUndo == Transition(canonical, s, undo, other).changed
            && view.canRedo == Transition(canonical, s, redo, other).changed
            && view.head == s.present.value.id && view.background == s.present.value.background
            && view.revision == revision && view.changed == changed
            && view.retained == IDs(s.past + [s.present.value] + s.future)
            && (key in view.imageKeys <==>
                  key != "" && exists k :: 0 <= k < |Entries(s)| && Entries(s)[k].imageKey == key)
  {
    RetainedInOrder(s, nextID);
    KeyListed(s, key);
  }

  lemma RetainedInOrder(s: State, nextID: nat)
    requires Numbered(s, nextID) && s.present.Some?
    ensures Firsts(IDs(Entries(s))) == IDs(s.past + [s.present.value] + s.future)
  {
    FirstsDistinct(IDs(Entries(s)));
  }

  lemma KeyListed(s: State, key: string)
    ensures key in Firsts(Keys(Entries(s))) <==>
            key != "" && exists k :: 0 <= k < |Entries(s)| && Entries(s)[k].imageKey == key
  {
    KeyOfEntry(Entries(s), key);
  }
}
