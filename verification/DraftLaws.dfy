/** Which calls of the draft keeper write, in every run, and what its timer, its change mark and its status mean. */
module DraftLaws {
  import opened Basics
  import opened DraftKeepers

  /** The call queued one write, of exactly this record. It replaced the waiting write, which settled uncommitted. */
  ghost predicate Writes(k: Keeper, k': Keeper, record: Option<Record>) {
    var text := if record.Some? then record.value.text else "";
    var write := Write(|k.queuedHooks|, text, record);
    && k'.queuedHooks == k.queuedHooks + [write] && k'.next == Some(write) && k'.running == k.running
    && k'.settledHooks == k.settledHooks + (if k.next.Some? then [Settled(k.next.value.id, false)] else [])
    && k'.queued == Some(text) && k'.stored == k.stored
  }

  ghost predicate WritesNothing(k: Keeper, k': Keeper) {
    && k'.queuedHooks == k.queuedHooks && k'.settledHooks == k.settledHooks
    && k'.next == k.next && k'.running == k.running && k'.queued == k.queued && k'.stored == k.stored
  }

  /** The keeper may write a snapshot with this text: it has changed, or it is armed and the text is not the baseline.
      */
  ghost predicate MayWrite(k: Keeper, text: string) {
    k.changed || (k.armed && text != k.baseline)
  }

  /** The store, the status, the arming, the change mark and the baseline stay. */
  ghost predicate SameMode(k: Keeper, k': Keeper) {
    && k'.store == k.store && k'.status == k.status && k'.armed == k.armed && k'.changed == k.changed
    && k'.baseline == k.baseline && k'.timer == k.timer
  }

  lemma AddWrites(k: Keeper, record: Option<Record>)
    ensures Writes(k, AddWrite(k, record), record) && SameMode(k, AddWrite(k, record))
  {
    WaitingDrops(Announce(k, record));
  }

  lemma WaitingDrops(k: Keeper)
    ensures var after := DropWaiting(k);
            && after.settledHooks == k.settledHooks + (if k.next.Some? then [Settled(k.next.value.id, false)] else [])
            && after.queuedHooks == k.queuedHooks && after.running == k.running && after.queued == k.queued
            && after.stored == k.stored && SameMode(k, after)
  {
  }

  lemma ReplaceStep(k: Keeper, snapshot: Option<Record>)
    ensures var after := AfterReplace(k, snapshot);
            && (k.store ==> Writes(k, after, snapshot)) && (!k.store ==> WritesNothing(k, after))
            && SameMode(k.(timer := false, armed := true, changed := true), after)
  {
    AddWrites(k.(timer := false, armed := true, changed := true), snapshot);
  }

  lemma FlushStep(k: Keeper, snapshot: Option<Record>)
    ensures var text, after := TextOf(snapshot), AfterFlush(k, snapshot);
            && (k.armed && k.store && MayWrite(k, text) && k.queued != Some(text) ==> Writes(k, after, snapshot))
            && (!(k.armed && k.store && MayWrite(k, text) && k.queued != Some(text)) ==> WritesNothing(k, after))
            && SameMode(k.(timer := false, changed := k.changed || (k.armed && k.store && text != k.baseline)), after)
  {
    AddWrites(NoteChange(k.(timer := false), TextOf(snapshot)), snapshot);
  }

  lemma ArmStep(k: Keeper, snapshot: Option<Record>)
    ensures var text, after := TextOf(snapshot), AfterArm(k, snapshot);
            && (k.store && MayWrite(k, text) && k.queued != Some(text) ==> Writes(k, after, snapshot))
            && (!(k.store && MayWrite(k, text) && k.queued != Some(text)) ==> WritesNothing(k, after))
            && SameMode(k.(timer := false, armed := true,
                           baseline := if k.armed || k.changed then k.baseline else text,
                           changed := k.changed || (k.armed && k.store && text != k.baseline)), after)
  {
    var based := if !k.armed && !k.changed then k.(baseline := TextOf(snapshot)) else k;
    FlushStep(based.(armed := true), snapshot);
  }

  lemma ScheduleStep(k: Keeper, snapshot: Option<Record>)
    ensures var text, after := TextOf(snapshot), AfterSchedule(k, snapshot);
            && WritesNothing(k, after)
            && SameMode(k.(timer := k.armed && k.store && MayWrite(k, text),
                           changed := k.changed || (k.armed && text != k.baseline)), after)
  {
  }

  lemma AskStep(k: Keeper, snapshot: Option<Record>)
    ensures var text, after := TextOf(snapshot), Unsaved(k, snapshot).0;
            && WritesNothing(k, after)
            && SameMode(k.(changed := k.changed || (k.hold && k.pending <= 0 && k.armed && text != k.baseline)), after)
  {
    UnsavedNotes(k, snapshot);
  }

  // ----- writes -----

  /** A replace always writes its record, whatever was queued, stored or armed before it. */
  lemma ReplaceWrites(run: seq<System>, events: seq<Event>, k: nat)
    requires IsRun(run, events) && k < |events| && events[k].Replace?
    ensures var before, after := run[k].keeper, run[k + 1].keeper;
            && (before.store ==> Writes(before, after, events[k].snapshot))
            && (!before.store ==> WritesNothing(before, after))
            && after.armed && after.changed && !after.timer && after.baseline == before.baseline
  {
    ReplaceStep(run[k].keeper, events[k].snapshot);
  }

  /** A flush writes its snapshot exactly when the keeper is armed, has a store and a change, and the text is not the
      one that it queued last. */
  lemma FlushWrites(run: seq<System>, events: seq<Event>, k: nat)
    requires IsRun(run, events) && k < |events| && events[k].Flush?
    ensures var before, after, snapshot := run[k].keeper, run[k + 1].keeper, events[k].snapshot;
            var text := if snapshot.Some? then snapshot.value.text else "";
            && (before.armed && before.store && MayWrite(before, text) && before.queued != Some(text) ==>
                  Writes(before, after, snapshot))
            && (!(before.armed && before.store && MayWrite(before, text) && before.queued != Some(text)) ==>
                  WritesNothing(before, after))
            && !after.timer
  {
    FlushStep(run[k].keeper, events[k].snapshot);
  }

  /** The first arm takes its text as the baseline, unless the draft has changed before. A changed draft is then written
      as by a flush. */
  lemma ArmWrites(run: seq<System>, events: seq<Event>, k: nat)
    requires IsRun(run, events) && k < |events| && events[k].Arm?
    ensures var before, after, snapshot := run[k].keeper, run[k + 1].keeper, events[k].snapshot;
            var text := if snapshot.Some? then snapshot.value.text else "";
            && (before.store && MayWrite(before, text) && before.queued != Some(text) ==>
                  Writes(before, after, snapshot))
            && (!(before.store && MayWrite(before, text) && before.queued != Some(text)) ==>
                  WritesNothing(before, after))
            && after.armed && !after.timer
            && after.baseline == if before.armed || before.changed then before.baseline else text
  {
    ArmStep(run[k].keeper, events[k].snapshot);
  }

  /** No other call of the page writes. */
  lemma OthersWriteNothing(run: seq<System>, events: seq<Event>, k: nat)
    requires IsRun(run, events) && k < |events| && (events[k].Schedule? || events[k].AskUnsaved?)
    ensures WritesNothing(run[k].keeper, run[k + 1].keeper)
  {
    if events[k].Schedule? {
      ScheduleStep(run[k].keeper, events[k].snapshot);
    } else {
      AskStep(run[k].keeper, events[k].snapshot);
    }
  }

  // ----- the timer -----

  /** A schedule leaves a timer exactly when there is something to save. */
  lemma ScheduleTimes(run: seq<System>, events: seq<Event>, k: nat)
    requires IsRun(run, events) && k < |events| && events[k].Schedule?
    ensures var before, after, snapshot := run[k].keeper, run[k + 1].keeper, events[k].snapshot;
            var text := if snapshot.Some? then snapshot.value.text else "";
            after.timer <==> before.armed && before.store && MayWrite(before, text)
  {
    ScheduleStep(run[k].keeper, events[k].snapshot);
  }

  ghost predicate TimerFits(s: System) {
    && (s.keeper.timer ==> s.keeper.armed && s.keeper.store && s.keeper.changed)
    && (s.keeper.armed ==> s.loaded)
  }

  /** A waiting timer always finds an armed keeper with a store and a change, so it writes every text not queued yet. */
  lemma {:induction false} TimerFindsChange(run: seq<System>, events: seq<Event>, k: nat)
    requires IsRun(run, events) && k < |run|
    ensures TimerFits(run[k])
  {
    if k > 0 {
      TimerFindsChange(run, events, k - 1);
      TimerStep(run[k - 1], events[k - 1]);
    }
  }

  lemma TimerStep(s: System, ev: Event)
    requires Enabled(s, ev) && TimerFits(s)
    ensures TimerFits(Step(s, ev))
  {
    match ev
    case Arm(snapshot) => ArmStep(s.keeper, snapshot);
    case Flush(snapshot) => FlushStep(s.keeper, snapshot);
    case Schedule(snapshot) => ScheduleStep(s.keeper, snapshot);
    case Replace(snapshot) => ReplaceStep(s.keeper, snapshot);
    case AskUnsaved(snapshot) => AskStep(s.keeper, snapshot);
    case _ =>
  }

  // ----- the change mark -----

  /** The change mark stays once it is set. Only a replace, or an armed call with a text that is not the baseline,
      sets it. */
  lemma ChangeMarked(run: seq<System>, events: seq<Event>, k: nat)
    requires IsRun(run, events) && k < |events|
    ensures var before, after := run[k].keeper, run[k + 1].keeper;
            after.changed == (before.changed || SetsChange(before, events[k]))
  {
    ModeStep(run[k], events[k]);
  }

  ghost predicate SetsChange(k: Keeper, ev: Event) {
    match ev
    case Replace(_) => true
    case Flush(snapshot) => k.armed && k.store && TextOf(snapshot) != k.baseline
    case Arm(snapshot) => k.armed && k.store && TextOf(snapshot) != k.baseline
    case Schedule(snapshot) => k.armed && TextOf(snapshot) != k.baseline
    case AskUnsaved(snapshot) => k.hold && k.pending <= 0 && k.armed && TextOf(snapshot) != k.baseline
    case _ => false
  }

  ghost function StatusAfter(k: Keeper, ev: Event): Status {
    match ev
    case StoreEnds(result) => (match result case Committed => Ok case Rejected => WriteFailed case OverQuota => Full)
    case Load(read) => if k.store && !read then Off else k.status
    case _ => k.status
  }

  lemma ModeStep(s: System, ev: Event)
    requires Enabled(s, ev)
    ensures var after := Step(s, ev).keeper;
            && after.changed == (s.keeper.changed || SetsChange(s.keeper, ev))
            && after.status == StatusAfter(s.keeper, ev)
            && after.store == (s.keeper.store && (ev.Load? ==> ev.read))
  {
    match ev
    case Arm(snapshot) => ArmStep(s.keeper, snapshot);
    case Flush(snapshot) => FlushStep(s.keeper, snapshot);
    case Schedule(snapshot) => ScheduleStep(s.keeper, snapshot);
    case Replace(snapshot) => ReplaceStep(s.keeper, snapshot);
    case AskUnsaved(snapshot) => AskStep(s.keeper, snapshot);
    case _ =>
  }

  // ----- the status -----

  /** The status tells how the last store call ended, and that there is no store. */
  lemma StatusTells(run: seq<System>, events: seq<Event>, k: nat)
    requires IsRun(run, events) && k < |events|
    ensures var before, after := run[k].keeper, run[k + 1].keeper;
            && after.status == StatusAfter(before, events[k])
            && after.store == (before.store && (events[k].Load? ==> events[k].read))
  {
    ModeStep(run[k], events[k]);
  }

  /** A read at the start remembers the record that the store has. */
  lemma LoadRemembers(run: seq<System>, events: seq<Event>, k: nat)
    requires IsRun(run, events) && k < |events| && events[k].Load? && run[k].keeper.store
    ensures run[k + 1].disk == run[k].disk
    ensures events[k].read ==>
              run[k + 1].keeper.stored == run[k + 1].keeper.queued ==
              Some(if run[k].disk.Some? then run[k].disk.value.text else "")
  {
  }
}
