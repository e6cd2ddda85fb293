/** The keeper that writes the editor's draft to a browser store, with at most
    one running and one waiting write. */
module DraftKeepers {
  import opened Basics

  /** A record with the text that the keeper compares. An empty text means no record. */
  datatype Record = Record(text: string, body: string)

  datatype Write = Write(id: nat, text: string, record: Option<Record>)

  datatype Settled = Settled(id: nat, committed: bool)

  datatype Status = Off | Ok | WriteFailed | Full

  datatype StoreResult = Committed | Rejected | OverQuota

  /** `queuedHooks` and `settledHooks` are the calls of the two hooks, in order. */
  datatype Keeper = Keeper(
    hold: bool, deletes: bool,
    store: bool, status: Status, armed: bool, timer: bool,
    stored: Option<string>, queued: Option<string>, pending: int,
    running: Option<Write>, next: Option<Write>, draining: bool,
    changed: bool, baseline: string,
    queuedHooks: seq<Write>, settledHooks: seq<Settled>)

  function TextOf(record: Option<Record>): string {
    if record.Some? then record.value.text else ""
  }

  function NewKeeper(hold: bool, deletes: bool, store: bool): Keeper {
    Keeper(hold, deletes, store, if store then Ok else Off, false, false,
           Some(""), Some(""), 0, None, None, false, !hold, "", [], [])
  }

  function NoteChange(k: Keeper, text: string): Keeper {
    if !k.changed && k.armed && text != k.baseline then k.(changed := true) else k
  }

  function Settle(k: Keeper, w: Write, committed: bool): Keeper {
    k.(pending := k.pending - 1, settledHooks := k.settledHooks + [Settled(w.id, committed)])
  }

  /** Queues a write. It replaces the waiting write, which settles at once without a store call. */
  function AddWrite(k: Keeper, record: Option<Record>): Keeper {
    DropWaiting(Announce(k, record)).(next := Some(NewWrite(k, record)), draining := true)
  }

  function NewWrite(k: Keeper, record: Option<Record>): Write {
    Write(|k.queuedHooks|, TextOf(record), record)
  }

  function Announce(k: Keeper, record: Option<Record>): Keeper {
    k.(queued := Some(TextOf(record)), pending := k.pending + 1, queuedHooks := k.queuedHooks + [NewWrite(k, record)])
  }

  function DropWaiting(k: Keeper): Keeper {
    if k.next.Some? then Settle(k.(next := None), k.next.value, false) else k
  }

  function AfterFlush(k: Keeper, snapshot: Option<Record>): Keeper {
    var quiet := k.(timer := false);
    if !k.armed || !k.store then quiet
    else
      var noted := NoteChange(quiet, TextOf(snapshot));
      if !noted.changed || noted.queued == Some(TextOf(snapshot)) then noted else AddWrite(noted, snapshot)
  }

  function AfterArm(k: Keeper, snapshot: Option<Record>): Keeper {
    var based := if !k.armed && !k.changed then k.(baseline := TextOf(snapshot)) else k;
    AfterFlush(based.(armed := true), snapshot)
  }

  function AfterSchedule(k: Keeper, snapshot: Option<Record>): Keeper {
    var quiet := k.(timer := false);
    if !k.armed then quiet
    else
      var noted := NoteChange(quiet, TextOf(snapshot));
      if noted.changed && noted.store then noted.(timer := true) else noted
  }

  function AfterReplace(k: Keeper, snapshot: Option<Record>): Keeper {
    var armed := k.(timer := false, armed := true, changed := true);
    if !k.store then armed else AddWrite(armed, snapshot)
  }

  function AfterLoad(k: Keeper, read: bool, disk: Option<Record>): Keeper {
    if !k.store then k
    else if read then k.(stored := Some(TextOf(disk)), queued := Some(TextOf(disk)))
    else k.(store := false, status := Off)
  }

  /** The drain takes the waiting write. */
  function AfterTake(k: Keeper): Keeper
    requires k.running.None? && k.next.Some?
  {
    k.(running := k.next, next := None)
  }

  /** The store call of the running write ends, and the drain goes on with the waiting write or stops. */
  function AfterStore(k: Keeper, result: StoreResult): Keeper
    requires k.running.Some?
  {
    Settle(NoteResult(k, result), k.running.value, result.Committed?).(running := k.next, next := None,
                                                                       draining := k.next.Some?)
  }

  /** A failed write with no newer one forgets the queued text, so that the next flush writes again. */
  function NoteResult(k: Keeper, result: StoreResult): Keeper
    requires k.running.Some?
  {
    if result.Committed? then k.(stored := Some(k.running.value.text), status := Ok)
    else k.(queued := if k.next.Some? then k.queued else None,
            status := if result.OverQuota? then Full else WriteFailed)
  }

  /** Whether a reload would lose something. The question can itself note the first change. */
  function Unsaved(k: Keeper, snapshot: Option<Record>): (Keeper, bool) {
    if k.pending > 0 then (k, true)
    else
      var noted := if k.hold then NoteChange(k, TextOf(snapshot)) else k;
      if k.hold && !noted.changed then (noted, false)
      else if snapshot.None? then (noted, k.deletes && k.armed && k.store && k.stored != Some(""))
      else (noted, !k.store || k.stored != Some(TextOf(snapshot)))
  }

  // ----- runs -----

  /** The keeper with the record that the store holds. `first` is the record from before. */
  datatype System = System(keeper: Keeper, disk: Option<Record>, first: Option<Record>, loaded: bool)

  datatype Event =
    | Load(read: bool)
    | Arm(snapshot: Option<Record>)
    | Flush(snapshot: Option<Record>)
    | Schedule(snapshot: Option<Record>)
    | Replace(snapshot: Option<Record>)
    | AskUnsaved(snapshot: Option<Record>)
    | Take
    | StoreEnds(result: StoreResult)

  predicate Real(record: Option<Record>) {
    record.Some? ==> record.value.text != ""
  }

  /** `load` finishes once, before the keeper is armed. */
  predicate Enabled(s: System, ev: Event) {
    match ev
    case Load(_) => !s.loaded && !s.keeper.armed
    case Arm(snapshot) => s.loaded && Real(snapshot)
    case Replace(snapshot) => s.loaded && Real(snapshot)
    case Flush(snapshot) => Real(snapshot)
    case Schedule(snapshot) => Real(snapshot)
    case AskUnsaved(snapshot) => Real(snapshot)
    case Take => s.keeper.running.None? && s.keeper.next.Some?
    case StoreEnds(_) => s.keeper.running.Some?
  }

  function Step(s: System, ev: Event): System
    requires Enabled(s, ev)
  {
    match ev
    case Load(read) => s.(keeper := AfterLoad(s.keeper, read, s.disk), loaded := true)
    case Arm(snapshot) => s.(keeper := AfterArm(s.keeper, snapshot))
    case Flush(snapshot) => s.(keeper := AfterFlush(s.keeper, snapshot))
    case Schedule(snapshot) => s.(keeper := AfterSchedule(s.keeper, snapshot))
    case Replace(snapshot) => s.(keeper := AfterReplace(s.keeper, snapshot))
    case AskUnsaved(snapshot) => s.(keeper := Unsaved(s.keeper, snapshot).0)
    case Take => s.(keeper := AfterTake(s.keeper))
    case StoreEnds(result) =>
      s.(keeper := AfterStore(s.keeper, result),
         disk := if result.Committed? then s.keeper.running.value.record else s.disk)
  }

  ghost predicate IsRun(run: seq<System>, events: seq<Event>) {
    && |run| == |events| + 1
    && IsFirst(run[0])
    && forall k :: 0 <= k < |events| ==> Enabled(run[k], events[k]) && run[k + 1] == Step(run[k], events[k])
  }

  ghost predicate IsFirst(s: System) {
    exists hold, deletes, store, disk :: Real(disk) && s == System(NewKeeper(hold, deletes, store), disk, disk, false)
  }

  // ----- the invariant -----

  function Commits(settled: seq<Settled>): seq<nat> {
    if settled == [] then []
    else
      var last := settled[|settled| - 1];
      Commits(settled[..|settled| - 1]) + if last.committed then [last.id] else []
  }

  ghost predicate SettledID(settled: seq<Settled>, id: nat) {
    exists j :: 0 <= j < |settled| && settled[j].id == id
  }

  ghost predicate Unique(settled: seq<Settled>) {
    forall i, j :: 0 <= i < j < |settled| ==> settled[i].id != settled[j].id
  }

  ghost predicate Increasing(ids: seq<nat>) {
    forall i, j :: 0 <= i < j < |ids| ==> ids[i] < ids[j]
  }

  predicate Is(w: Option<Write>, id: nat) {
    w.Some? && w.value.id == id
  }

  function Count(w: Option<Write>): nat {
    if w.Some? then 1 else 0
  }

  ghost predicate Calls(calls: seq<Write>) {
    forall id :: 0 <= id < |calls| ==>
      calls[id].id == id && Real(calls[id].record) && calls[id].text == TextOf(calls[id].record)
  }

  ghost predicate Called(calls: seq<Write>, w: Option<Write>) {
    w.Some? ==> w.value.id < |calls| && w.value == calls[w.value.id]
  }

  /** Each queued write has settled once, or it is the running or the waiting write. */
  ghost predicate Accounted(count: nat, settled: seq<Settled>, running: Option<Write>, next: Option<Write>) {
    && Unique(settled)
    && (forall id: nat :: id < count <==> SettledID(settled, id) || Is(running, id) || Is(next, id))
    && (forall id: nat :: SettledID(settled, id) ==> !Is(running, id) && !Is(next, id))
    && (next.Some? ==> next.value.id == count - 1)
    && (running.Some? && next.None? ==> running.value.id == count - 1)
    && (running.Some? && next.Some? ==> running.value.id < next.value.id)
  }

  ghost predicate AllBelow(ids: seq<nat>, bound: nat) {
    forall j :: 0 <= j < |ids| ==> ids[j] < bound
  }

  /** The writes commit in call order, each before the running one. */
  ghost predicate Ordered(commits: seq<nat>, count: nat, running: Option<Write>, next: Option<Write>) {
    && Increasing(commits) && AllBelow(commits, count)
    && (running.Some? ==> AllBelow(commits, running.value.id))
    && (next.Some? ==> AllBelow(commits, next.value.id))
  }

  /** The store holds the record of the last commit. */
  ghost predicate DiskFits(calls: seq<Write>, commits: seq<nat>, first: Option<Record>, disk: Option<Record>) {
    && Real(first)
    && (commits != [] ==> commits[|commits| - 1] < |calls|)
    && disk == if commits == [] then first else calls[commits[|commits| - 1]].record
  }

  /** What the two remembered texts mean: `stored` is on disk, and `queued` comes from the newest outstanding
      write. With no write outstanding, `queued` is `stored` or was forgotten after a failure. */
  ghost predicate TextsFit(s: System) {
    var k := s.keeper;
    && (s.loaded && k.store ==> k.stored == Some(TextOf(s.disk)))
    && (if k.next.Some? then k.queued == Some(k.next.value.text)
        else if k.running.Some? then k.queued == Some(k.running.value.text)
        else k.queued == None || k.queued == k.stored)
    && (!s.loaded ==> !k.armed)
    && (!s.loaded || !k.store || !k.changed ==> k.queuedHooks == [])
    && (!k.changed ==> k.hold)
    && k.pending == Count(k.running) + Count(k.next)
    && (k.draining <==> k.running.Some? || k.next.Some?)
  }

  ghost predicate Inv(s: System) {
    var k := s.keeper;
    && Calls(k.queuedHooks) && Called(k.queuedHooks, k.running) && Called(k.queuedHooks, k.next)
    && Accounted(|k.queuedHooks|, k.settledHooks, k.running, k.next)
    && Ordered(Commits(k.settledHooks), |k.queuedHooks|, k.running, k.next)
    && DiskFits(k.queuedHooks, Commits(k.settledHooks), s.first, s.disk)
    && TextsFit(s)
  }

  lemma SettledMore(settled: seq<Settled>, one: Settled)
    ensures Commits(settled + [one]) == Commits(settled) + if one.committed then [one.id] else []
    ensures forall id: nat :: SettledID(settled + [one], id) <==> SettledID(settled, id) || id == one.id
    ensures Unique(settled) && !SettledID(settled, one.id) ==> Unique(settled + [one])
  {
    var more := settled + [one];
    assert more[..|more| - 1] == settled;
    forall id: nat ensures SettledID(more, id) <==> SettledID(settled, id) || id == one.id {
      if j :| 0 <= j < |settled| && settled[j].id == id { assert more[j].id == id; }
      assert more[|settled|].id == one.id;
    }
    assert forall j :: 0 <= j < |settled| ==> SettledID(settled, settled[j].id);
  }

  lemma {:induction false} CommitSettled(settled: seq<Settled>, id: nat)
    requires id in Commits(settled)
    ensures SettledID(settled, id)
  {
    var rest, last := settled[..|settled| - 1], settled[|settled| - 1];
    assert settled == rest + [last];
    SettledMore(rest, last);
    if id in Commits(rest) { CommitSettled(rest, id); }
  }

  /** A new call settles the waiting write, if any, and waits in its place. */
  lemma AddAccounted(count: nat, settled: seq<Settled>, running: Option<Write>, next: Option<Write>, w: Write)
    requires Accounted(count, settled, running, next) && w.id == count
    ensures Accounted(count + 1, if next.Some? then settled + [Settled(next.value.id, false)] else settled, running,
                      Some(w))
  {
    assert !SettledID(settled, count) && !Is(running, count) && !Is(next, count);
    if next.Some? {
      assert Is(next, next.value.id);
      SettledMore(settled, Settled(next.value.id, false));
    }
    if running.Some? { assert Is(running, running.value.id); }
  }

  /** The running write settles, and the waiting one runs. */
  lemma EndAccounted(count: nat, settled: seq<Settled>, running: Option<Write>, next: Option<Write>, committed: bool)
    requires Accounted(count, settled, running, next) && running.Some?
    ensures Accounted(count, settled + [Settled(running.value.id, committed)], next, None)
  {
    var one := Settled(running.value.id, committed);
    assert Is(running, one.id) && !SettledID(settled, one.id) && !Is(next, one.id);
    SettledMore(settled, one);
    forall id: nat
      ensures id < count <==> SettledID(settled + [one], id) || Is(next, id)
      ensures SettledID(settled + [one], id) ==> !Is(next, id)
    {
      assert Is(running, id) <==> id == one.id;
    }
  }

  lemma AddKeeps(s: System, k: Keeper, record: Option<Record>)
    requires Inv(s.(keeper := k)) && s.loaded && k.store && k.changed && Real(record)
    ensures Inv(s.(keeper := AddWrite(k, record)))
  {
    var w := Write(|k.queuedHooks|, TextOf(record), record);
    AddAccounted(|k.queuedHooks|, k.settledHooks, k.running, k.next, w);
    var after := AddWrite(k, record);
    if k.next.Some? {
      SettledMore(k.settledHooks, Settled(k.next.value.id, false));
      assert Commits(after.settledHooks) == Commits(k.settledHooks) + [] == Commits(k.settledHooks);
    }
    CalledMore(k.queuedHooks, w, k.running);
    CalledMore(k.queuedHooks, w, None);
  }

  lemma CalledMore(calls: seq<Write>, w: Write, running: Option<Write>)
    requires Calls(calls) && Called(calls, running) && w.id == |calls| && Real(w.record) && w.text == TextOf(w.record)
    ensures Calls(calls + [w]) && Called(calls + [w], running) && Called(calls + [w], Some(w))
  {
  }

  lemma FlushKeeps(s: System, k: Keeper, snapshot: Option<Record>)
    requires Inv(s.(keeper := k)) && Real(snapshot) && (k.armed ==> s.loaded)
    ensures Inv(s.(keeper := AfterFlush(k, snapshot)))
  {
    if k.armed && k.store {
      var noted := NoteChange(k.(timer := false), TextOf(snapshot));
      QuietKeeps(s.(keeper := k), noted);
      if noted.changed && noted.queued != Some(TextOf(snapshot)) {
        AddKeeps(s, noted, snapshot);
      }
    }
  }

  /** A commit of the running write is the latest one, and the store then holds its record. */
  lemma CommitKeeps(calls: seq<Write>, commits: seq<nat>, running: Option<Write>, next: Option<Write>)
    requires Ordered(commits, |calls|, running, next) && Calls(calls) && Called(calls, running) && running.Some?
    requires next.Some? ==> running.value.id < next.value.id
    ensures Ordered(commits + [running.value.id], |calls|, next, None)
    ensures forall first :: Real(first) ==> DiskFits(calls, commits + [running.value.id], first, running.value.record)
  {
  }

  lemma StoreKeeps(s: System, result: StoreResult)
    requires Inv(s) && s.keeper.running.Some?
    ensures Inv(Step(s, StoreEnds(result)))
  {
    var k := s.keeper;
    var one := Settled(k.running.value.id, result.Committed?);
    EndAccounted(|k.queuedHooks|, k.settledHooks, k.running, k.next, result.Committed?);
    SettledMore(k.settledHooks, one);
    if result.Committed? {
      CommitKeeps(k.queuedHooks, Commits(k.settledHooks), k.running, k.next);
    } else {
      assert Commits(k.settledHooks + [one]) == Commits(k.settledHooks) + [] == Commits(k.settledHooks);
    }
  }

  lemma LoadKeeps(s: System, ev: Event)
    requires Inv(s) && Enabled(s, ev) && ev.Load?
    ensures Inv(Step(s, ev))
  {
  }

  /** Only the timer, the change mark and the arming differ. */
  lemma QuietKeeps(s: System, k: Keeper)
    requires Inv(s) && k == s.keeper.(timer := k.timer, changed := k.changed, armed := k.armed, baseline := k.baseline)
    requires (k.armed ==> s.loaded) && (s.keeper.changed ==> k.changed)
    ensures Inv(s.(keeper := k))
  {
  }

  lemma ArmKeeps(s: System, ev: Event)
    requires Inv(s) && Enabled(s, ev) && ev.Arm?
    ensures Inv(Step(s, ev))
  {
    var k := s.keeper;
    var based := if !k.armed && !k.changed then k.(baseline := TextOf(ev.snapshot)) else k;
    QuietKeeps(s, based.(armed := true));
    FlushKeeps(s, based.(armed := true), ev.snapshot);
  }

  lemma ScheduleKeeps(s: System, ev: Event)
    requires Inv(s) && Enabled(s, ev) && ev.Schedule?
    ensures Inv(Step(s, ev))
  {
    QuietKeeps(s, AfterSchedule(s.keeper, ev.snapshot));
  }

  /** Reading `unsaved` can note a change, and nothing else. */
  lemma UnsavedNotes(k: Keeper, snapshot: Option<Record>)
    ensures var noted := Unsaved(k, snapshot).0; noted == k.(changed := noted.changed) && (k.changed ==> noted.changed)
  {
  }

  lemma AskKeeps(s: System, ev: Event)
    requires Inv(s) && Enabled(s, ev) && ev.AskUnsaved?
    ensures Inv(Step(s, ev))
  {
    UnsavedNotes(s.keeper, ev.snapshot);
    QuietKeeps(s, Unsaved(s.keeper, ev.snapshot).0);
  }

  lemma ReplaceKeeps(s: System, ev: Event)
    requires Inv(s) && Enabled(s, ev) && ev.Replace?
    ensures Inv(Step(s, ev))
  {
    var armed := s.keeper.(timer := false, armed := true, changed := true);
    QuietKeeps(s, armed);
    if s.keeper.store { AddKeeps(s, armed, ev.snapshot); }
  }

  lemma TakeKeeps(s: System)
    requires Inv(s) && Enabled(s, Take)
    ensures Inv(Step(s, Take))
  {
  }

  lemma StepKeeps(s: System, ev: Event)
    requires Inv(s) && Enabled(s, ev)
    ensures Inv(Step(s, ev))
  {
    match ev
    case Load(_) => LoadKeeps(s, ev);
    case Arm(_) => ArmKeeps(s, ev);
    case Flush(snapshot) => FlushKeeps(s, s.keeper, snapshot);
    case Schedule(_) => ScheduleKeeps(s, ev);
    case Replace(_) => ReplaceKeeps(s, ev);
    case AskUnsaved(_) => AskKeeps(s, ev);
    case Take => TakeKeeps(s);
    case StoreEnds(result) => StoreKeeps(s, result);
  }

  lemma {:induction false} RunInv(run: seq<System>, events: seq<Event>, k: nat)
    requires IsRun(run, events) && k < |run|
    ensures Inv(run[k])
  {
    if k == 0 {
      assert Commits(run[0].keeper.settledHooks) == [];
    } else {
      RunInv(run, events, k - 1);
      StepKeeps(run[k - 1], events[k - 1]);
    }
  }

  // ----- what every run gives -----

  /** One write runs and one waits at most, `pending` counts them, and every other queued write
      has settled exactly once. The committed writes are a subsequence of the queued ones. */
  lemma WritesSettleOnce(run: seq<System>, events: seq<Event>, k: nat, id: nat)
    requires IsRun(run, events) && k < |run|
    ensures var keeper := run[k].keeper;
            && keeper.pending == Count(keeper.running) + Count(keeper.next)
            && Unique(keeper.settledHooks) && Increasing(Commits(keeper.settledHooks))
            && (id < |keeper.queuedHooks| <==>
                SettledID(keeper.settledHooks, id) || Is(keeper.running, id) || Is(keeper.next, id))
            && (SettledID(keeper.settledHooks, id) ==> !Is(keeper.running, id) && !Is(keeper.next, id))
  {
    RunInv(run, events, k);
  }

  /** The store holds the record of the last committed write, or the record from before the first one. */
  lemma StoreHoldsLastCommit(run: seq<System>, events: seq<Event>, k: nat)
    requires IsRun(run, events) && k < |run|
    ensures var commits := Commits(run[k].keeper.settledHooks);
            && (commits != [] ==> commits[|commits| - 1] < |run[k].keeper.queuedHooks|)
            && run[k].disk == if commits == [] then run[k].first
                              else run[k].keeper.queuedHooks[commits[|commits| - 1]].record
  {
    RunInv(run, events, k);
  }

  /** What a flush that queues no write tells of the queued and the stored text. */
  lemma FlushSkips(s: System, snapshot: Option<Record>)
    requires Inv(s) && s.keeper.armed && s.keeper.store
    requires var after := AfterFlush(s.keeper, snapshot); after.changed && after.queuedHooks == s.keeper.queuedHooks
    ensures s.keeper.queued == Some(TextOf(snapshot))
  {
    var noted := NoteChange(s.keeper.(timer := false), TextOf(snapshot));
    assert |AddWrite(noted, snapshot).queuedHooks| == |s.keeper.queuedHooks| + 1;
  }

  /** The queued text is that of the last queued write while one is outstanding, and else that of the store. */
  lemma QueuedMeans(s: System, text: string)
    requires Inv(s) && s.loaded && s.keeper.store && s.keeper.queued == Some(text)
    ensures var k := s.keeper;
      if k.pending > 0 then k.queuedHooks != [] && k.queuedHooks[|k.queuedHooks| - 1].text == text
      else TextOf(s.disk) == text
  {
  }

  /** A flush of an armed keeper with a changed draft queues no write only when the text is that
      of the last queued write, which is still outstanding, or of the stored record. */
  lemma FlushNeverSkips(run: seq<System>, events: seq<Event>, k: nat)
    requires IsRun(run, events) && k < |events| && events[k].Flush?
    requires run[k].keeper.armed && run[k].keeper.store
    ensures var before, after, text := run[k].keeper, run[k + 1].keeper, TextOf(events[k].snapshot);
            after.changed && after.queuedHooks == before.queuedHooks ==>
              if before.pending > 0 then before.queuedHooks != [] &&
                before.queuedHooks[|before.queuedHooks| - 1].text == text
              else TextOf(run[k].disk) == text
  {
    RunInv(run, events, k);
    var after := run[k + 1].keeper;
    if after.changed && after.queuedHooks == run[k].keeper.queuedHooks {
      FlushSkips(run[k], events[k].snapshot);
      QueuedMeans(run[k], TextOf(events[k].snapshot));
    }
  }

  /** A changed keeper is saved exactly when no write is outstanding and the store holds the snapshot. */
  lemma SavedMeansStored(run: seq<System>, events: seq<Event>, k: nat, record: Record)
    requires IsRun(run, events) && k < |events| && events[k] == AskUnsaved(Some(record))
    requires run[k].loaded && run[k + 1].keeper.changed
    ensures Unsaved(run[k].keeper, Some(record)).1 <==>
            !(run[k].keeper.pending == 0 && run[k].keeper.store && run[k].disk.Some? &&
              run[k].disk.value.text == record.text)
  {
    RunInv(run, events, k);
  }

  /** A removed record stays unsaved until the store has lost it, when the keeper deletes. */
  lemma RemovedMeansDeleted(run: seq<System>, events: seq<Event>, k: nat)
    requires IsRun(run, events) && k < |events| && events[k] == AskUnsaved(None)
    requires run[k].loaded && run[k + 1].keeper.changed && run[k].keeper.store && run[k].keeper.armed
    ensures !Unsaved(run[k].keeper, None).1 <==>
            run[k].keeper.pending == 0 && (run[k].keeper.deletes ==> run[k].disk.None?)
  {
    RunInv(run, events, k);
  }

  /** A keeper that holds until the first change leaves the store alone, and calls nothing unsaved. */
  lemma HoldsUntilChange(run: seq<System>, events: seq<Event>, k: nat, snapshot: Option<Record>)
    requires IsRun(run, events) && k < |run| && !run[k].keeper.changed
    ensures run[k].disk == run[k].first && run[k].keeper.queuedHooks == [] && run[k].keeper.pending == 0
    ensures !Unsaved(run[k].keeper, snapshot).0.changed ==> !Unsaved(run[k].keeper, snapshot).1
  {
    RunInv(run, events, k);
  }

  // ----- every write settles at last -----

  /** The number of store replies that settle a queued write at the latest. */
  ghost function Left(k: Keeper, id: nat): nat {
    if SettledID(k.settledHooks, id) then 0 else if Is(k.running, id) then 1 else 2
  }

  function Replies(events: seq<Event>): nat {
    if events == [] then 0 else Replies(events[..|events| - 1]) + if events[|events| - 1].StoreEnds? then 1 else 0
  }

  /** While a write is outstanding, the drain can take it or the store can answer. */
  lemma OutstandingMoves(run: seq<System>, events: seq<Event>, k: nat)
    requires IsRun(run, events) && k < |run| && run[k].keeper.pending > 0
    ensures Enabled(run[k], Take) || forall result :: Enabled(run[k], StoreEnds(result))
  {
    RunInv(run, events, k);
  }

  lemma SettledStays(settled: seq<Settled>, more: seq<Settled>, id: nat)
    requires settled <= more && SettledID(settled, id)
    ensures SettledID(more, id)
  {
    var j :| 0 <= j < |settled| && settled[j].id == id;
    assert more[j].id == id;
  }

  /** The running write stays, and both hooks are only called further. */
  ghost predicate CallsOn(k: Keeper, k': Keeper) {
    k'.running == k.running && k.settledHooks <= k'.settledHooks && k.queuedHooks <= k'.queuedHooks
  }

  lemma AddCallsOn(k: Keeper, record: Option<Record>)
    ensures CallsOn(k, AddWrite(k, record))
  {
    var announced := Announce(k, record);
    DropCallsOn(announced);
    assert CallsOn(k, announced);
  }

  lemma DropCallsOn(k: Keeper)
    ensures CallsOn(k, DropWaiting(k))
  {
  }

  lemma FlushCallsOn(k: Keeper, snapshot: Option<Record>)
    ensures CallsOn(k, AfterFlush(k, snapshot))
  {
    AddCallsOn(NoteChange(k.(timer := false), TextOf(snapshot)), snapshot);
  }

  lemma ArmCallsOn(k: Keeper, snapshot: Option<Record>)
    ensures CallsOn(k, AfterArm(k, snapshot))
  {
    var based := if !k.armed && !k.changed then k.(baseline := TextOf(snapshot)) else k;
    FlushCallsOn(based.(armed := true), snapshot);
  }

  lemma ReplaceCallsOn(k: Keeper, snapshot: Option<Record>)
    ensures CallsOn(k, AfterReplace(k, snapshot))
  {
    AddCallsOn(k.(timer := false, armed := true, changed := true), snapshot);
  }

  lemma QuietCallsOn(k: Keeper, snapshot: Option<Record>, read: bool, disk: Option<Record>)
    ensures CallsOn(k, AfterSchedule(k, snapshot)) && CallsOn(k, AfterLoad(k, read, disk))
  {
  }

  lemma AskCallsOn(k: Keeper, snapshot: Option<Record>)
    ensures CallsOn(k, Unsaved(k, snapshot).0)
  {
    UnsavedNotes(k, snapshot);
  }

  lemma CallCallsOn(s: System, ev: Event)
    requires Enabled(s, ev) && !ev.StoreEnds? && !ev.Take?
    ensures CallsOn(s.keeper, Step(s, ev).keeper)
  {
    if ev.Load? {
      QuietCallsOn(s.keeper, None, ev.read, s.disk);
    } else {
      ArmCallsOn(s.keeper, ev.snapshot);
      FlushCallsOn(s.keeper, ev.snapshot);
      ReplaceCallsOn(s.keeper, ev.snapshot);
      QuietCallsOn(s.keeper, ev.snapshot, true, None);
      AskCallsOn(s.keeper, ev.snapshot);
    }
  }

  /** Calls of the page leave the running write alone, and settle writes only. */
  lemma LeftByCall(k: Keeper, k': Keeper, id: nat)
    requires CallsOn(k, k')
    ensures Left(k', id) <= Left(k, id)
  {
    if SettledID(k.settledHooks, id) {
      SettledStays(k.settledHooks, k'.settledHooks, id);
    }
  }

  lemma LeftByTake(s: System, id: nat)
    requires Enabled(s, Take)
    ensures Left(Step(s, Take).keeper, id) <= Left(s.keeper, id)
  {
  }

  lemma LeftByStore(s: System, result: StoreResult, id: nat)
    requires Inv(s) && s.keeper.running.Some? && id < |s.keeper.queuedHooks|
    ensures var left := Left(Step(s, StoreEnds(result)).keeper, id);
      left <= Left(s.keeper, id) && (Left(s.keeper, id) > 0 ==> left < Left(s.keeper, id))
  {
    StoreLeaves(s.keeper, result);
    CallAccounted(s, id);
    LeftBySettling(s.keeper, Step(s, StoreEnds(result)).keeper, Settled(s.keeper.running.value.id, result.Committed?),
                   id);
  }

  lemma CallAccounted(s: System, id: nat)
    requires Inv(s) && id < |s.keeper.queuedHooks|
    ensures SettledID(s.keeper.settledHooks, id) || Is(s.keeper.running, id) || Is(s.keeper.next, id)
  {
  }

  lemma LeftBySettling(k: Keeper, k': Keeper, one: Settled, id: nat)
    requires SettledID(k.settledHooks, id) || Is(k.running, id) || Is(k.next, id)
    requires k'.settledHooks == k.settledHooks + [one] && k'.running == k.next && Is(k.running, one.id)
    ensures Left(k', id) <= Left(k, id) && (Left(k, id) > 0 ==> Left(k', id) < Left(k, id))
  {
    SettledMore(k.settledHooks, one);
  }

  lemma StoreLeaves(k: Keeper, result: StoreResult)
    requires k.running.Some?
    ensures var k', one := AfterStore(k, result), Settled(k.running.value.id, result.Committed?);
      k'.settledHooks == k.settledHooks + [one] && k'.running == k.next && k'.next.None?
  {
  }

  /** A queued write that `replies` store replies have not settled has few replies left. */
  ghost predicate Settling(k: Keeper, id: nat, replies: nat) {
    id < |k.queuedHooks| && (Left(k, id) == 0 || Left(k, id) + replies <= 2)
  }

  /** No call brings a write further from its end, and a store reply brings it closer. */
  lemma LeftFalls(s: System, ev: Event, s': System, id: nat, replies: nat)
    requires Stepped(s, ev, s') && Settling(s.keeper, id, replies)
    ensures Settling(s'.keeper, id, replies + if ev.StoreEnds? then 1 else 0)
  {
    if ev.StoreEnds? {
      LeftByStore(s, ev.result, id);
    } else if ev.Take? {
      LeftByTake(s, id);
    } else {
      CallCallsOn(s, ev);
      LeftByCall(s.keeper, s'.keeper, id);
    }
  }

  ghost predicate Stepped(s: System, ev: Event, s': System) {
    Inv(s) && Enabled(s, ev) && s' == Step(s, ev)
  }

  lemma RunStep(run: seq<System>, events: seq<Event>, k: nat)
    requires IsRun(run, events) && k < |events|
    ensures Stepped(run[k], events[k], run[k + 1])
  {
    RunInv(run, events, k);
  }

  lemma RepliesMore(events: seq<Event>, k: nat, m: nat)
    requires k < m <= |events|
    ensures Replies(events[k..m]) == Replies(events[k..m - 1]) + if events[m - 1].StoreEnds? then 1 else 0
  {
    assert events[k..m][..m - 1 - k] == events[k..m - 1];
  }

  lemma {:induction false} SettlingOn(run: seq<System>, events: seq<Event>, k: nat, m: nat, id: nat)
    requires IsRun(run, events) && k <= m < |run| && id < |run[k].keeper.queuedHooks|
    ensures Settling(run[m].keeper, id, Replies(events[k..m]))
    decreases m - k
  {
    if k < m {
      SettlingOn(run, events, k, m - 1, id);
      RunStep(run, events, m - 1);
      RepliesMore(events, k, m);
      LeftFalls(run[m - 1], events[m - 1], run[m], id, Replies(events[k..m - 1]));
    }
  }

  /** Whatever else the page does, two store replies settle every write that is queued by then. */
  lemma SettlesAtLast(run: seq<System>, events: seq<Event>, k: nat, m: nat, id: nat)
    requires IsRun(run, events) && k <= m < |run| && id < |run[k].keeper.queuedHooks|
    requires Replies(events[k..m]) >= 2
    ensures SettledID(run[m].keeper.settledHooks, id)
  {
    SettlingOn(run, events, k, m, id);
  }

  predicate Outstanding(s: System) {
    s.keeper.running.Some? || s.keeper.next.Some?
  }

  /** The drain takes the waiting write if none runs, and the store answers. */
  function Answered(s: System, result: StoreResult): System
    requires Outstanding(s)
  {
    var taken := if s.keeper.running.None? then Step(s, Take) else s;
    Step(taken, StoreEnds(result))
  }

  /** The drain alone, with the given store replies. */
  function Drained(s: System, results: seq<StoreResult>): System
    decreases |results|
  {
    if results == [] || !Outstanding(s) then s else Drained(Answered(s, results[0]), results[1..])
  }

  lemma AnsweredKeeps(s: System, result: StoreResult)
    requires Inv(s) && Outstanding(s)
    ensures var s' := Answered(s, result);
      Inv(s') && s'.keeper.pending == s.keeper.pending - 1 && s'.keeper.queuedHooks == s.keeper.queuedHooks
  {
    if s.keeper.running.None? {
      TakeKeeps(s);
      StoreKeeps(Step(s, Take), result);
    } else {
      StoreKeeps(s, result);
    }
  }

  lemma NothingOutstanding(s: System)
    requires Inv(s) && !Outstanding(s)
    ensures s.keeper.pending == 0 && !s.keeper.draining
    ensures forall id: nat :: id < |s.keeper.queuedHooks| ==> SettledID(s.keeper.settledHooks, id)
  {
  }

  lemma PendingCounts(s: System)
    requires Inv(s)
    ensures 0 <= s.keeper.pending && (s.keeper.pending > 0 <==> Outstanding(s))
  {
  }

  /** Store replies alone, commits or failures, bring `pending` to nothing, and then every queued write has settled. */
  lemma {:induction false} RepliesSettleAll(s: System, results: seq<StoreResult>)
    requires Inv(s) && s.keeper.pending <= |results|
    ensures var end := Drained(s, results);
      && Inv(end) && end.keeper.pending == 0 && !end.keeper.draining && end.keeper.queuedHooks == s.keeper.queuedHooks
      && forall id: nat :: id < |end.keeper.queuedHooks| ==> SettledID(end.keeper.settledHooks, id)
    decreases |results|
  {
    PendingCounts(s);
    if Outstanding(s) {
      AnsweredKeeps(s, results[0]);
      RepliesSettleAll(Answered(s, results[0]), results[1..]);
    } else {
      NothingOutstanding(s);
    }
  }

  // ----- the keeper object -----

  class DraftKeeper {
    const hold: bool
    const deletes: bool
    var store: bool
    var status: Status
    var armed: bool
    var timer: bool
    var stored: Option<string>
    var queued: Option<string>
    var pending: int
    var running: Option<Write>
    var next: Option<Write>
    var draining: bool
    var changed: bool
    var baseline: string
    var queuedHooks: seq<Write>
    var settledHooks: seq<Settled>

    ghost function Contents(): Keeper
      reads this
    {
      Keeper(hold, deletes, store, status, armed, timer, stored, queued, pending, running, next, draining,
             changed, baseline, queuedHooks, settledHooks)
    }

    constructor (hold: bool, deletes: bool, store: bool)
      ensures Contents() == NewKeeper(hold, deletes, store)
    {
      this.hold, this.deletes, this.store := hold, deletes, store;
      status := if store then Ok else Off;
      armed, timer, draining := false, false, false;
      stored, queued, pending := Some(""), Some(""), 0;
      running, next := None, None;
      changed, baseline := !hold, "";
      queuedHooks, settledHooks := [], [];
    }

    method SettleWrite(item: Write, committed: bool)
      modifies this`pending, this`settledHooks
      ensures Contents() == Settle(old(Contents()), item, committed)
    {
      pending := pending - 1;
      settledHooks := settledHooks + [Settled(item.id, committed)];
    }

    method QueueWrite(record: Option<Record>)
      modifies this
      ensures Contents() == AddWrite(old(Contents()), record)
    {
      var item := CountWrite(record);
      DropNext();
      next := Some(item);
      draining := true;
    }

    method CountWrite(record: Option<Record>) returns (item: Write)
      modifies this`queued, this`pending, this`queuedHooks
      ensures Contents() == Announce(old(Contents()), record) && item == NewWrite(old(Contents()), record)
    {
      item := Write(|queuedHooks|, TextOf(record), record);
      queued := Some(item.text);
      pending := pending + 1;
      queuedHooks := queuedHooks + [item];
    }

    method DropNext()
      modifies this`next, this`pending, this`settledHooks
      ensures Contents() == DropWaiting(old(Contents()))
    {
      if next.Some? {
        var replaced := next.value;
        next := None;
        SettleWrite(replaced, false);
      }
    }

    method MarkChange(text: string) returns (canWrite: bool)
      modifies this`changed
      ensures Contents() == NoteChange(old(Contents()), text) && canWrite == changed
    {
      if !changed && armed && text != baseline {
        changed := true;
      }
      canWrite := changed;
    }

    method Flush(snapshot: Option<Record>)
      modifies this
      ensures Contents() == AfterFlush(old(Contents()), snapshot)
    {
      timer := false;
      if !armed || !store {
        return;
      }
      var canWrite := MarkChange(TextOf(snapshot));
      if canWrite && queued != Some(TextOf(snapshot)) {
        QueueWrite(snapshot);
      }
    }

    method Arm(snapshot: Option<Record>)
      modifies this
      ensures Contents() == AfterArm(old(Contents()), snapshot)
    {
      if !armed && !changed {
        baseline := TextOf(snapshot);
      }
      armed := true;
      Flush(snapshot);
    }

    method Schedule(snapshot: Option<Record>)
      modifies this
      ensures Contents() == AfterSchedule(old(Contents()), snapshot)
    {
      timer := false;
      if !armed {
        return;
      }
      var canWrite := MarkChange(TextOf(snapshot));
      if canWrite && store {
        timer := true;
      }
    }

    method Replace(snapshot: Option<Record>)
      modifies this
      ensures Contents() == AfterReplace(old(Contents()), snapshot)
    {
      timer, armed, changed := false, true, true;
      if store {
        QueueWrite(snapshot);
      }
    }

    method Load(read: bool, disk: Option<Record>) returns (record: Option<Record>)
      modifies this
      ensures Contents() == AfterLoad(old(Contents()), read, disk)
      ensures record == if old(store) && read then disk else None
    {
      record := None;
      if store {
        if read {
          stored := Some(TextOf(disk));
          queued := stored;
          record := disk;
        } else {
          store, status := false, Off;
        }
      }
    }

    method TakeNext()
      requires running.None? && next.Some?
      modifies this`running, this`next
      ensures Contents() == AfterTake(old(Contents()))
    {
      running, next := next, None;
    }

    method EndWrite(result: StoreResult)
      requires running.Some?
      modifies this
      ensures Contents() == AfterStore(old(Contents()), result)
    {
      var item := running.value;
      Note(result);
      SettleWrite(item, result.Committed?);
      running, next := next, None;
      draining := running.Some?;
    }

    method Note(result: StoreResult)
      requires running.Some?
      modifies this`stored, this`queued, this`status
      ensures Contents() == NoteResult(old(Contents()), result)
    {
      if result.Committed? {
        stored, status := Some(running.value.text), Ok;
      } else {
        if next.None? {
          queued := None;
        }
        status := if result.OverQuota? then Full else WriteFailed;
      }
    }

    method IsUnsaved(snapshot: Option<Record>) returns (unsaved: bool)
      modifies this`changed
      ensures (Contents(), unsaved) == Unsaved(old(Contents()), snapshot)
    {
      if pending > 0 {
        return true;
      }
      if hold {
        var noted := MarkChange(TextOf(snapshot));
        if !noted {
          return false;
        }
      }
      if snapshot.None? {
        return deletes && armed && store && stored != Some("");
      }
      unsaved := !store || stored != Some(TextOf(snapshot));
    }
  }
}
