/** Every step of the editor system keeps its invariant, so every run does. */
module EditorSafety {
  import opened Basics
  import opened EditorTimeline
  import opened EditorTransport
  import opened EditorSystem

  // ----- the queue -----

  lemma {:induction false} HistoriesJoin(a: seq<Job>, b: seq<Job>)
    ensures Histories(a + b) == Histories(a) + Histories(b)
  {
    if b == [] {
      assert a + b == a;
    } else {
      var rest := b[..|b| - 1];
      HistoriesJoin(a, rest);
      assert (a + b)[..|a + b| - 1] == a + rest;
    }
  }

  lemma {:induction false} HistoriesWithout(queue: seq<Job>, dropped: Job -> bool)
    requires forall job :: job in queue && dropped(job) ==> !job.op.History?
    ensures Histories(Without(queue, dropped)) == Histories(queue)
  {
    if queue != [] {
      var rest, last := queue[..|queue| - 1], queue[|queue| - 1];
      HistoriesWithout(rest, dropped);
      if !dropped(last) {
        var left := Without(rest, dropped);
        assert (left + [last])[..|left|] == left;
      }
    }
  }

  lemma {:induction false} QueuedHistory(queue: seq<Job>, job: Job)
    requires job in queue && job.op.History?
    ensures job in Histories(queue)
  {
    var rest := queue[..|queue| - 1];
    assert queue == rest + [queue[|queue| - 1]];
    if job in rest { QueuedHistory(rest, job); }
  }

  lemma HistoriesInserted(queue: seq<Job>, job: Job)
    ensures !job.op.History? ==> Histories(Inserted(queue, job)) == Histories(queue)
    ensures job.op.History? && Histories(queue) == [] ==> Histories(Inserted(queue, job)) == [job]
  {
    var place := if job.background then |queue| else FirstBackground(queue);
    assert queue == queue[..place] + queue[place..];
    HistoriesBetween(queue[..place], job, queue[place..]);
  }

  lemma HistoriesBetween(a: seq<Job>, job: Job, b: seq<Job>)
    ensures Histories(a + [job] + b) == Histories(a) + (if job.op.History? then [job] else []) + Histories(b)
    ensures Histories(a + b) == Histories(a) + Histories(b)
  {
    HistoriesJoin(a + [job], b);
    HistoriesJoin(a, b);
    assert (a + [job])[..|a|] == a;
  }

  /** The history jobs of a client whose history jobs never run in the background. */
  ghost predicate Foreground(c: Client) {
    forall job :: job in HistoryJobs(c) ==> !job.background
  }

  lemma DroppedKeeps(c: Client, dropped: Job -> bool)
    requires Foreground(c) && forall job :: dropped(job) ==> job.background || !job.op.History?
    ensures HistoryJobs(c.(queue := Without(c.queue, dropped))) == HistoryJobs(c)
  {
    forall job | job in c.queue && dropped(job) ensures !job.op.History? {
      if job.op.History? { QueuedHistory(c.queue, job); }
    }
    HistoriesWithout(c.queue, dropped);
  }

  lemma TrimmedJobs(c: Client, op: Op, background: bool)
    requires Foreground(c)
    ensures HistoryJobs(c.(queue := Trimmed(c.queue, op, background))) == HistoryJobs(c)
  {
    if background { DroppedKeeps(c, IsBackground()); }
    var c1 := c.(queue := WithoutBackground(c.queue, background));
    if IsReplaced(op) { DroppedKeeps(c1, Requests(op.name)); }
  }

  /** Queueing an operation leaves the running action's job in place. Queueing a command adds it. */
  lemma EnqueueJobs(c: Client, config: Config, op: Op, background: bool)
    requires Foreground(c) && (op.History? ==> HistoryJobs(c) == [] && !background)
    ensures AfterEnqueue(c, config, op, background).0.active == c.active
    ensures AfterEnqueue(c, config, op, background).0.sent == c.sent
    ensures HistoryJobs(AfterEnqueue(c, config, op, background).0) ==
            if AfterEnqueue(c, config, op, background).1 && op.History? then [Job(c.nextID + 1, config, op, background)]
            else HistoryJobs(c)
  {
    TrimmedJobs(c, op, background);
    var trimmed := c.(queue := Trimmed(c.queue, op, background));
    var job := Job(c.nextID + 1, config, op, background);
    if |trimmed.queue| >= QUEUE_LIMIT {
      assert AfterEnqueue(c, config, op, background) == (trimmed, false);
    } else {
      InsertedJobs(trimmed, job);
      assert AfterEnqueue(c, config, op, background) ==
             (trimmed.(queue := Inserted(trimmed.queue, job), nextID := job.id), true);
    }
  }

  lemma InsertedJobs(c: Client, job: Job)
    requires job.op.History? ==> HistoryJobs(c) == []
    ensures HistoryJobs(c.(queue := Inserted(c.queue, job), nextID := job.id)) ==
            if job.op.History? then [job] else HistoryJobs(c)
  {
    HistoriesInserted(c.queue, job);
  }

  lemma AcceptJobs(c: Client, config: Config, token: nat)
    requires HistoryJobs(c) == []
    ensures AfterAccept(c, config, token).0.active == c.active
    ensures AfterAccept(c, config, token).0.sent == c.sent
    ensures HistoryJobs(AfterAccept(c, config, token).0) ==
            if AfterAccept(c, config, token).1 then [Job(c.nextID + 1, config, History(Accept(token)), false)] else []
  {
    var kept := c.(queue := Without(c.queue, OtherBackground(config)));
    DroppedKeeps(c, OtherBackground(config));
    assert HistoryJobs(kept) == [];
    EnqueueJobs(kept, config, History(Accept(token)), false);
    assert AfterAccept(c, config, token) == AfterEnqueue(kept, config, History(Accept(token)), false);
  }

  lemma AwaitedForeground(s: System)
    requires Awaited(s.page, HistoryJobs(s.client))
    ensures Foreground(s.client)
  {
  }

  // ----- views -----

  lemma RetainedIDs(s: State, id: nat)
    ensures id in Firsts(IDs(Entries(s))) <==> id in IDSet(s)
  {
    var entries := Entries(s);
    if id in IDs(entries) {
      var k :| 0 <= k < |entries| && IDs(entries)[k] == id;
      assert entries[k] in entries;
    }
    if id in IDSet(s) {
      var x :| x in entries && x.id == id;
      var k :| 0 <= k < |entries| && entries[k] == x;
      assert IDs(entries)[k] == id;
    }
  }

  /** The retained IDs and image keys of a view have the form that the page and the worker check. */
  lemma ListsChecked(s: State, nextID: nat)
    requires Numbered(s, nextID)
    ensures forall k :: 0 <= k < |Firsts(IDs(Entries(s)))| ==> Firsts(IDs(Entries(s)))[k] != 0
    ensures forall k :: 0 <= k < |Firsts(Keys(Entries(s)))| ==> Firsts(Keys(Entries(s)))[k] != ""
  {
    var retained, keys := Firsts(IDs(Entries(s))), Firsts(Keys(Entries(s)));
    forall k | 0 <= k < |retained| ensures retained[k] != 0 {
      RetainedIDs(s, retained[k]);
    }
    forall k | 0 <= k < |keys| ensures keys[k] != "" {
      KeyOfEntry(Entries(s), keys[k]);
    }
  }

  lemma HeadRetained(s: State, nextID: nat)
    requires Numbered(s, nextID) && s.present.Some?
    ensures s.present.value.id != 0 && s.present.value.id in Firsts(IDs(Entries(s)))
  {
    assert s.present.value in Entries(s);
    RetainedIDs(s, s.present.value.id);
  }

  /** The engine's views of a present entry have the form that the page and the worker check. */
  lemma ViewChecked(s: State, nextID: nat, revision: nat, changed: bool, token: Option<nat>)
    requires Numbered(s, nextID) && s.present.Some?
    ensures Checked(Metadata(s, revision + 1, changed).(proposal := token), token.Some?)
  {
    ListsChecked(s, nextID);
    HeadRetained(s, nextID);
  }

  // ----- page steps -----

  lemma AskKeeps(world: World, s: System, config: Config, command: Command, phase: Phase)
    requires s.fault.None? && WellKept(s.engine) && Joined(world, s.client, s.wire, s.worker.config) &&
             Synced(s.worker, s.engine)
    requires HistoryJobs(s.client) == [] && !phase.Resting?
    requires var page := s.page.(phase := phase, answer := None);
             && (forall id :: JobFits(page, Job(id, config, History(command), false)))
             && PhaseFits(world, page, s.worker, s.engine.timeline, None)
             && ViewFits(page, s.engine.timeline)
    ensures Inv(world, Ask(s, config, command, phase))
  {
    EnqueueJobs(s.client, config, History(command), false);
    var (c, queued) := AfterEnqueue(s.client, config, History(command), false);
    if queued {
      var page := s.page.(phase := phase, answer := None);
      QueuedKeeps(world, s, c, page, HistoryJobs(c)[0]);
      assert Ask(s, config, command, phase) == s.(client := c, page := page);
    }
  }

  /** A queued command is the only one of the page, and it has no answer yet. */
  lemma QueuedKeeps(world: World, s: System, c: Client, page: Page, job: Job)
    requires WellKept(s.engine) && Joined(world, s.client, s.wire, s.worker.config) && Synced(s.worker, s.engine)
    requires c.active == s.client.active && c.sent == s.client.sent && HistoryJobs(c) == [job]
    requires HistoryJobs(s.client) == [] && page.answer.None? && !page.phase.Resting? && JobFits(page, job)
    requires PhaseFits(world, page, s.worker, s.engine.timeline, None) && ViewFits(page, s.engine.timeline)
    ensures Sound(world, s.(client := c, page := page))
  {
    NoOutcome(s.(client := c, page := page));
  }

  /** A command that still waits in the queue has no answer. */
  lemma NoOutcome(s: System)
    requires s.page.answer.None?
    requires |HistoryJobs(s.client)| == 1 && s.client.queue != [] && Histories(s.client.queue) != []
    ensures Outcome(s.client, s.wire, s.page) == None
  {
  }

  lemma ClientKeeps(world: World, s: System, c: Client)
    requires s.fault.None? && Sound(world, s)
    requires c.active == s.client.active && c.sent == s.client.sent && HistoryJobs(c) == HistoryJobs(s.client)
    ensures Sound(world, s.(client := c))
  {
    assert Outcome(c, s.wire, s.page) == Outcome(s.client, s.wire, s.page);
  }

  lemma SubmitKeeps(world: World, s: System, ev: Event)
    requires Inv(world, s) && Enabled(s, ev) && ev.Submit?
    ensures Inv(world, Step(world, s, ev))
  {
    AwaitedForeground(s);
    EnqueueJobs(s.client, ev.config, ev.op, ev.background);
    ClientKeeps(world, s, AfterEnqueue(s.client, ev.config, ev.op, ev.background).0);
  }

  lemma PreviewKeeps(world: World, s: System, ev: Event)
    requires Inv(world, s) && Enabled(s, ev) && ev.Preview?
    ensures Inv(world, Step(world, s, ev))
  {
    var after := Step(world, s, ev);
    assert Outcome(after.client, after.wire, after.page) == Outcome(s.client, s.wire, s.page);
    forall job ensures JobFits(after.page, job) <==> JobFits(s.page, job) {}
  }

  lemma BeginKeeps(world: World, s: System, ev: Event)
    requires Inv(world, s) && Enabled(s, ev) && ev.Begin?
    ensures Inv(world, Step(world, s, ev))
  {
    var draft := if ev.candidate.Some? then ev.candidate.value else s.page.present;
    var command := Prepare(ev.kind, Revision(s.page), ev.before, ev.record, 0, draft.background, draft.imageKey);
    AskKeeps(world, s, draft.scenario, command, Preparing(Action(ev.candidate, command, s.page.present), None));
  }

  lemma PostKeeps(world: World, s: System, ev: Event)
    requires Inv(world, s) && Enabled(s, ev) && ev.PostNext?
    ensures Inv(world, Step(world, s, ev))
  {
    var after := Step(world, s, ev);
    var job := s.client.queue[0];
    DeltaRebuilds(world.content, job.config, s.client.sent);
    HistoriesJoin([job], s.client.queue[1..]);
    assert [job][..0] == [];
    assert s.client.queue == [job] + s.client.queue[1..];
    assert HistoryJobs(after.client) == HistoryJobs(s.client);
    assert Outcome(after.client, after.wire, after.page) == Outcome(s.client, s.wire, s.page);
  }

  lemma ReceiveKeeps(world: World, s: System, ev: Event)
    requires Inv(world, s) && Enabled(s, ev) && ev.ReceiveNext?
    ensures Inv(world, Step(world, s, ev))
  {
    var after := Step(world, s, ev);
    if s.client.active.value.op.History? {
      assert s.client.active.value in HistoryJobs(s.client);
      assert HistoryJobs(s.client) == [s.client.active.value] + Histories(s.client.queue);
    }
    assert Outcome(after.client, after.wire, after.page) == Outcome(s.client, s.wire, s.page);
  }

  // ----- what the page decides on an answer -----

  lemma DropKeeps(world: World, s: System, view: View)
    requires s.fault.None? && Sound(world, s) && s.page.phase.Preparing? && s.page.answer.Some?
    requires view.proposal.Some? && s.engine.timeline.pending.Some?
    requires view.proposal.value == s.engine.timeline.pending.value.token
    ensures Inv(world, Drop(s, view))
  {
    AskKeeps(world, s, s.page.present.scenario, Discard(view.proposal.value), Dropping(view));
  }

  lemma TrimKeeps(world: World, s: System, action: Action, view: View, count: nat)
    requires s.fault.None? && Sound(world, s) && s.page.phase == Preparing(action, None)
    requires s.page.answer == Some(Viewed(view)) && action.candidate.Some?
    ensures var again := action.(command := SetTrim(action.command, count));
            Inv(world, Ask(s, action.candidate.value.scenario, again.command, Preparing(again, Some(view))))
  {
    var again := action.(command := SetTrim(action.command, count));
    AskKeeps(world, s, action.candidate.value.scenario, again.command, Preparing(again, Some(view)));
  }

  /** The snapshot that a proposal names is in the render cache, or it is the action's own draft. */
  lemma SnapshotAtHand(world: World, s: System, action: Action, first: Option<View>, view: View)
    requires Sound(world, s) && s.page.phase == Preparing(action, first) && s.page.answer == Some(Viewed(view))
    ensures NextDraft(s.page, action, view).Some?
    ensures var next := NextDraft(s.page, action, view).value;
            && s.engine.timeline.pending.Some? && s.engine.timeline.pending.value.state.present.Some?
            && Fits(world, next, s.engine.timeline.pending.value.state.present.value)
  {
    var t := s.engine.timeline;
    var head := t.pending.value.state.present.value;
    assert Proposed(world, s.worker.proposal, t.state, t.pending, t.revision, view, action.candidate);
    if head in Entries(t.state) {
      assert Copied(world, s.page.cache, s.worker.snapshots, head);
    }
  }

  lemma SameID(s: State, nextID: nat, x: Entry, y: Entry)
    requires Numbered(s, nextID) && x in Entries(s) && y in Entries(s) && x.id == y.id
    ensures x == y
  {
    var j :| 0 <= j < |Entries(s)| && Entries(s)[j] == x;
    var k :| 0 <= k < |Entries(s)| && Entries(s)[k] == y;
  }

  /** The published draft joins the cache without changing the copies there. */
  lemma PublishedCopies(world: World, s: System, action: Action, first: Option<View>, view: View)
    requires Sound(world, s) && s.page.phase == Preparing(action, first) && s.page.answer == Some(Viewed(view))
    ensures NextDraft(s.page, action, view).Some?
    ensures var cache := s.page.cache[view.head := NextDraft(s.page, action, view).value];
            && AllCopied(world, cache, s.worker.snapshots, s.engine.timeline.state)
            && cache.Keys >= IDSet(s.engine.timeline.state)
            && Proposed(world, s.worker.proposal, s.engine.timeline.state, s.engine.timeline.pending,
                        s.engine.timeline.revision, view, Some(cache[view.head]))
  {
    var t := s.engine.timeline;
    SnapshotAtHand(world, s, action, first, view);
    var next := NextDraft(s.page, action, view).value;
    var cache := s.page.cache[view.head := next];
    forall x | x in Entries(t.state) ensures Copied(world, cache, s.worker.snapshots, x) {
      assert Copied(world, s.page.cache, s.worker.snapshots, x);
    }
  }

  lemma PublishedPage(world: World, s: System, action: Action, first: Option<View>, view: View, next: Draft)
    requires Sound(world, s) && s.page.phase == Preparing(action, first) && s.page.answer == Some(Viewed(view))
    requires NextDraft(s.page, action, view) == Some(next) && view.proposal.Some?
    ensures var page := Published(s.page, view, next);
            && PhaseFits(world, page, s.worker, s.engine.timeline, None) && ViewFits(page, s.engine.timeline)
            && forall id :: JobFits(page, Job(id, next.scenario, History(Accept(view.proposal.value)), false))
  {
    PublishedCopies(world, s, action, first, view);
  }

  /** The publication queues the acceptance; when the queue is full it drops the proposal. */
  lemma PublishAsks(s: System, action: Action, view: View, next: Draft) returns (c: Client, queued: bool)
    requires HistoryJobs(s.client) == [] && view.proposal.Some? && NextDraft(s.page, action, view) == Some(next)
    ensures c.active == s.client.active && c.sent == s.client.sent
    ensures HistoryJobs(c) ==
            if queued then [Job(s.client.nextID + 1, next.scenario, History(Accept(view.proposal.value)), false)]
            else []
    ensures PublishView(s, action, view) == if queued then s.(client := c, page := Published(s.page, view, next))
                                            else Drop(s.(client := c), view)
    ensures !queued ==> |c.queue| >= QUEUE_LIMIT
  {
    AcceptJobs(s.client, next.scenario, view.proposal.value);
    var accepted := AfterAccept(s.client, next.scenario, view.proposal.value);
    c, queued := accepted.0, accepted.1;
  }

  lemma PublishKeeps(world: World, s: System, action: Action, first: Option<View>, view: View)
    requires s.fault.None? && Sound(world, s) && s.page.phase == Preparing(action, first)
    requires s.page.answer == Some(Viewed(view)) && view.proposal.Some?
    ensures Inv(world, PublishView(s, action, view))
  {
    SnapshotAtHand(world, s, action, first, view);
    var next := NextDraft(s.page, action, view).value;
    var c, queued := PublishAsks(s, action, view, next);
    if queued {
      PublishedPage(world, s, action, first, view, next);
      QueuedKeeps(world, s, c, Published(s.page, view, next), HistoryJobs(c)[0]);
    } else {
      GivenUpKeeps(world, s, action, first, view, c);
    }
  }

  /** A full queue: the page drops the proposal instead. */
  lemma GivenUpKeeps(world: World, s: System, action: Action, first: Option<View>, view: View, c: Client)
    requires s.fault.None? && Sound(world, s) && s.page.phase == Preparing(action, first)
    requires s.page.answer == Some(Viewed(view)) && view.proposal.Some?
    requires c.active == s.client.active && c.sent == s.client.sent && HistoryJobs(c) == HistoryJobs(s.client)
    ensures Inv(world, Drop(s.(client := c), view))
  {
    ClientKeeps(world, s, c);
    PreparedFacts(world, s, action, first, view);
    DropKeeps(world, s.(client := c), view);
  }

  /** Pruning to the retained entries leaves exactly their copies. */
  lemma PrunedCopies(world: World, cache: map<nat, Draft>, w: Worker, s: State, retained: seq<nat>)
    requires AllCopied(world, cache, w.snapshots, s) && cache.Keys >= IDSet(s)
    requires retained == Firsts(IDs(Entries(s)))
    ensures AllCopied(world, Kept(cache, retained), w.snapshots, s) && Kept(cache, retained).Keys == IDSet(s)
  {
    forall id: nat ensures id in retained <==> id in IDSet(s) {
      RetainedIDs(s, id);
    }
    forall x | x in Entries(s) ensures Copied(world, Kept(cache, retained), w.snapshots, x) {
      assert Copied(world, cache, w.snapshots, x) && x.id in IDSet(s);
    }
  }

  /** The acknowledgment is the published view, which the engine now has. */
  lemma AcknowledgedView(world: World, page: Page, w: Worker, t: Timeline, view: View)
    requires page.phase == Acking(view) && page.answer.Some? && PhaseFits(world, page, w, t, page.answer)
    requires Numbered(t.state, t.nextID) && (t.state.present.None? <==> t.revision == 0)
    ensures page.answer == Some(Viewed(view.(proposal := None))) && Checked(view.(proposal := None), false)
  {
    ViewChecked(t.state, t.nextID, t.revision - 1, view.changed, None);
  }

  /** The page at rest again, with the copies of the retained entries alone. */
  lemma RestedPhase(world: World, page: Page, w: Worker, t: Timeline, view: View)
    requires page.phase == Acking(view) && page.answer.Some? && PhaseFits(world, page, w, t, page.answer)
    ensures PhaseFits(world, page.(cache := Kept(page.cache, view.retained), phase := Resting, answer := None), w, t,
                      None)
  {
    PrunedCopies(world, page.cache, w, t.state, view.retained);
  }

  lemma RestedView(world: World, page: Page, w: Worker, t: Timeline, view: View)
    requires page.phase == Acking(view) && page.answer.Some? && PhaseFits(world, page, w, t, page.answer)
    requires ViewFits(page, t)
    ensures ViewFits(page.(cache := Kept(page.cache, view.retained), phase := Resting, answer := None), t)
  {
    PrunedCopies(world, page.cache, w, t.state, view.retained);
    assert t.state.present.value in Entries(t.state) && view.head in IDSet(t.state);
  }

  lemma AcknowledgedKeeps(world: World, s: System, view: View)
    requires s.fault.None? && Sound(world, s) && s.page.phase == Acking(view) && s.page.answer.Some?
    ensures s.page.answer == Some(Viewed(view.(proposal := None))) && Checked(view.(proposal := None), false)
    ensures Sound(world, s.(page := s.page.(cache := Kept(s.page.cache, view.retained), phase := Resting,
                                            answer := None)))
  {
    var t := s.engine.timeline;
    AcknowledgedView(world, s.page, s.worker, t, view);
    RestedPhase(world, s.page, s.worker, t, view);
    RestedView(world, s.page, s.worker, t, view);
    var page := s.page.(cache := Kept(s.page.cache, view.retained), phase := Resting, answer := None);
    assert Outcome(s.client, s.wire, page).None?;
  }

  /** An answered preparation has a checked view of the proposal that the engine holds. */
  lemma PreparedFacts(world: World, s: System, action: Action, first: Option<View>, view: View)
    requires Sound(world, s) && s.page.phase == Preparing(action, first)
    requires s.page.answer == Some(Viewed(view)) || (s.page.answer == Some(Rejected) && first == Some(view))
    ensures s.engine.timeline.pending.Some? && view.proposal == Some(s.engine.timeline.pending.value.token)
    ensures Checked(view, true)
  {
    var t := s.engine.timeline;
    assert Proposed(world, s.worker.proposal, t.state, t.pending, t.revision, view, action.candidate);
    ViewChecked(t.pending.value.state, t.nextID, t.revision, t.pending.value.changed, Some(t.pending.value.token));
  }

  /** What the page does with a checked view of its proposal. */
  lemma PreparedContinue(s: System, choice: Choice, action: Action, first: Option<View>, view: View)
    requires s.page.phase == Preparing(action, first) && s.page.answer == Some(Viewed(view)) && Checked(view, true)
    ensures var again := action.(command := SetTrim(action.command, if choice.Trim? then choice.count else 0));
            Continue(s, choice) ==
            if s.page.present != action.source || choice.GiveUp? then Drop(s, view)
            else if choice.Trim? && choice.count > 0 && first.None? && action.candidate.Some? then
              Ask(s, action.candidate.value.scenario, again.command, Preparing(again, Some(view)))
            else PublishView(s, action, view)
  {
  }

  lemma PreparedKeeps(world: World, s: System, ev: Event)
    requires s.fault.None? && Sound(world, s) && ev.Decide? && s.page.phase.Preparing?
    requires s.page.answer.Some? && s.page.answer.value.Viewed?
    ensures Inv(world, Continue(s, ev.choice))
  {
    var action, first := s.page.phase.action, s.page.phase.first;
    var view := s.page.answer.value.view;
    PreparedFacts(world, s, action, first, view);
    PreparedContinue(s, ev.choice, action, first, view);
    if s.page.present != action.source || ev.choice.GiveUp? {
      DropKeeps(world, s, view);
    } else if ev.choice.Trim? && ev.choice.count > 0 && first.None? && action.candidate.Some? {
      TrimKeeps(world, s, action, view, ev.choice.count);
    } else {
      PublishKeeps(world, s, action, first, view);
    }
  }

  lemma RejectedKeeps(world: World, s: System, ev: Event)
    requires s.fault.None? && Sound(world, s) && ev.Decide? && s.page.phase.Preparing?
    requires s.page.answer.Some? && !s.page.answer.value.Viewed?
    ensures Inv(world, Continue(s, ev.choice))
  {
    var action, first := s.page.phase.action, s.page.phase.first;
    if first.Some? {
      PreparedFacts(world, s, action, first, first.value);
      DropKeeps(world, s, first.value);
    }
  }

  lemma DroppedProposal(world: World, s: System, ev: Event)
    requires s.fault.None? && Sound(world, s) && ev.Decide? && s.page.phase.Dropping? && s.page.answer.Some?
    ensures Inv(world, Continue(s, ev.choice))
  {
  }

  lemma DecideKeeps(world: World, s: System, ev: Event)
    requires Inv(world, s) && Enabled(s, ev) && ev.Decide?
    ensures Inv(world, Step(world, s, ev))
  {
    match s.page.phase
    case Preparing(_, _) =>
      if s.page.answer.value.Viewed? { PreparedKeeps(world, s, ev); } else { RejectedKeeps(world, s, ev); }
    case Dropping(_) => DroppedProposal(world, s, ev);
    case Acking(view) => AcknowledgedStep(world, s, ev.choice, view);
  }

  lemma AcknowledgedStep(world: World, s: System, choice: Choice, view: View)
    requires s.fault.None? && Sound(world, s) && s.page.phase == Acking(view) && s.page.answer.Some?
    ensures Inv(world, Continue(s, choice))
  {
    AcknowledgedKeeps(world, s, view);
    var page := s.page.(cache := Kept(s.page.cache, view.retained), phase := Resting, answer := None);
    assert Continue(s, choice) == s.(page := page);
  }

  // ----- what the worker does with a message -----

  /** The handled system, with the answer on the wire. */
  function Answered'(s: System, h: Handled): System {
    s.(worker := h.worker, engine := h.engine, wire := Back(h.answer))
  }

  lemma DeltaKeeps(world: World, s: System, verdict: Verdict)
    requires s.fault.None? && Sound(world, s) && s.wire.Sent? && !s.client.active.value.op.History?
    ensures Sound(world, Answered'(s, AfterHandle(world.canonical, s.worker, s.engine, s.wire.message, verdict)))
  {
    if s.wire.message.DeltaMessage? {
      SyncAgrees(s.worker, s.engine, s.wire.message.keys, s.wire.message.patch, verdict);
    }
  }

  /** An active command is the running action's, and it has no answer yet. */
  lemma ActiveCommand(s: System)
    requires Awaited(s.page, HistoryJobs(s.client)) && s.client.active.Some? && s.client.active.value.op.History?
    ensures s.page.answer.None? && !s.page.phase.Resting? && JobFits(s.page, s.client.active.value)
  {
    assert HistoryJobs(s.client) == [s.client.active.value] + Histories(s.client.queue);
  }

  lemma NewID(s: State, nextID: nat, id: nat)
    requires Numbered(s, nextID) && id > nextID
    ensures id !in IDSet(s)
  {
    forall x | x in Entries(s) ensures x.id != id {}
  }

  /** The entries of a planned state are those of the timeline, and perhaps a new present entry. */
  lemma PlannedEntries(world: World, w: Worker, e: Engine, action: Action, cache: map<nat, Draft>)
    requires WellKept(e) && ActionFits(action, e.timeline.revision)
    requires AllCopied(world, cache, w.snapshots, e.timeline.state) && w.snapshots.Keys == IDSet(e.timeline.state)
    requires action.candidate.Some? ==> e.branches == Texts(world.content, action.candidate.value.scenario)
    requires AfterPrepare(world.canonical, e, action.command).1.Shown?
    ensures var p := AfterPrepare(world.canonical, e, action.command).0.timeline.pending;
            && p.Some? && p.value.state.present.Some?
            && var head := p.value.state.present.value;
               && (forall x :: x in Entries(p.value.state) ==> x in Entries(e.timeline.state) || x == head)
               && (head in Entries(e.timeline.state) ||
                   (head.id !in IDSet(e.timeline.state) && action.candidate.Some? &&
                    Fits(world, action.candidate.value, head)))
               && (head.id in w.snapshots ==> w.snapshots[head.id] == head.project)
               && (head.id !in w.snapshots ==> action.candidate.Some? && head.project == e.branches)
  {
    var c, t := action.command, e.timeline;
    var entry := Captured(e, c);
    TransitionEntries(world.canonical, t.state, c, entry);
    NewID(t.state, t.nextID, entry.id);
    var head := Transition(world.canonical, t.state, c, entry).state.present.value;
    if head in Entries(t.state) {
      assert Copied(world, cache, w.snapshots, head);
    }
  }

  /** A shown prepare adds the proposal that its view shows. */
  lemma ShownProposes(world: World, w: Worker, e: Engine, action: Action, cache: map<nat, Draft>,
                      target: Option<Project>)
    requires WellKept(e) && ActionFits(action, e.timeline.revision)
    requires AllCopied(world, cache, w.snapshots, e.timeline.state) && w.snapshots.Keys == IDSet(e.timeline.state)
    requires action.candidate.Some? ==>
               e.branches == Texts(world.content, action.candidate.value.scenario) && target == Some(e.branches)
    requires AfterPrepare(world.canonical, e, action.command).1.Shown?
    ensures var h := HandleHistory(world.canonical, w, e, action.command, target);
            h.answer.Viewed? &&
              Proposed(world, h.worker.proposal, h.engine.timeline.state, h.engine.timeline.pending,
                       h.engine.timeline.revision, h.answer.view, action.candidate)
  {
    PlannedEntries(world, w, e, action, cache);
    PreparedView(world, e, action.command);
    var (e', reply) := AfterPrepare(world.canonical, e, action.command);
    var head := e'.timeline.pending.value.state.present.value;
    PreparedHandled(world.canonical, w, e, action.command, target, head.project);
    PrepareLeaves(world, w, e, action.command, target);
  }

  /** The worker holds a checked proposal with the snapshot of its head, or else with the sent project. */
  lemma PreparedHandled(canonical: string -> string, w: Worker, e: Engine, c: Command, target: Option<Project>,
                        copy: Project)
    requires c.Prepare? && AfterPrepare(canonical, e, c).1.Shown? && Checked(AfterPrepare(canonical, e, c).1.view, true)
    requires var head := AfterPrepare(canonical, e, c).1.view.head;
             Some(copy) == if head in w.snapshots then Some(w.snapshots[head]) else target
    ensures var (e', reply) := AfterPrepare(canonical, e, c);
            HandleHistory(canonical, w, e, c, target) ==
            Handled(w.(proposal := Some(Held(reply.view.proposal.value, reply.view.head, copy))), e',
                    Viewed(reply.view))
  {
  }

  /** A prepare changes neither the installed state nor the project. A refused one keeps the proposal. */
  lemma PrepareLeaves(world: World, w: Worker, e: Engine, c: Command, target: Option<Project>)
    requires c.Prepare?
    ensures var h := HandleHistory(world.canonical, w, e, c, target);
            && h.engine.timeline.state == e.timeline.state && h.engine.timeline.revision == e.timeline.revision
            && h.engine.branches == e.branches && h.worker == w.(proposal := h.worker.proposal)
            && (AfterPrepare(world.canonical, e, c).1.Refused? ==>
                  h.answer.Rejected? && h.worker == w && h.engine.timeline.pending == e.timeline.pending)
  {
  }

  lemma PreparedView(world: World, e: Engine, c: Command)
    requires WellKept(e) && c.Prepare? && AfterPrepare(world.canonical, e, c).1.Shown?
    ensures var (e', reply) := AfterPrepare(world.canonical, e, c);
            && e'.timeline.pending.Some? && Checked(reply.view, true)
            && reply.view == Metadata(e'.timeline.pending.value.state, e.timeline.revision + 1,
                                      e'.timeline.pending.value.changed)
                              .(proposal := Some(e'.timeline.pending.value.token))
  {
    PrepareKeeps(world.canonical, e, c);
    var t := AfterPrepare(world.canonical, e, c).0.timeline;
    ViewChecked(t.pending.value.state, t.nextID, e.timeline.revision, t.pending.value.changed,
                Some(t.pending.value.token));
  }

  /** What a prepare needs before the engine sees it. */
  ghost predicate Primed(world: World, w: Worker, e: Engine, action: Action, cache: map<nat, Draft>,
                         target: Option<Project>) {
    && WellKept(e) && ActionFits(action, e.timeline.revision)
    && AllCopied(world, cache, w.snapshots, e.timeline.state) && w.snapshots.Keys == IDSet(e.timeline.state)
    && (action.candidate.Some? ==>
          e.branches == Texts(world.content, action.candidate.value.scenario) && target == Some(e.branches))
  }

  /** The parts of the invariant after the worker has handled the running action's command. */
  lemma BackKeeps(world: World, s: System, h: Handled)
    requires s.fault.None? && s.client.active.Some? && s.client.active.value.op.History? && !h.answer.Broken?
    requires Awaited(s.page, HistoryJobs(s.client)) && s.page.answer.None?
    requires WellKept(h.engine) && Synced(h.worker, h.engine)
    requires Texts(world.content,
                   if Accepts(s.client.active.value.op) && h.answer.Viewed? then s.client.active.value.config
                                  else s.client.sent) == h.worker.config
    requires PhaseFits(world, s.page, h.worker, h.engine.timeline, Some(h.answer)) &&
             ViewFits(s.page, h.engine.timeline)
    ensures Sound(world, Answered'(s, h))
  {
    assert Outcome(s.client, Back(h.answer), s.page) == Some(h.answer);
  }

  lemma PhaseViewed(world: World, page: Page, w: Worker, t: Timeline, w': Worker, t': Timeline, view: View)
    requires page.phase.Preparing? && PhaseFits(world, page, w, t, None) && ViewFits(page, t)
    requires w'.snapshots == w.snapshots && t'.state == t.state && t'.revision == t.revision
    requires Proposed(world, w'.proposal, t'.state, t'.pending, t'.revision, view, page.phase.action.candidate)
    ensures PhaseFits(world, page, w', t', Some(Viewed(view))) && ViewFits(page, t')
  {
  }

  lemma PhaseRejected(world: World, page: Page, w: Worker, t: Timeline, t': Timeline)
    requires page.phase.Preparing? && PhaseFits(world, page, w, t, None) && ViewFits(page, t)
    requires t'.state == t.state && t'.revision == t.revision && t'.pending == t.pending
    ensures PhaseFits(world, page, w, t', Some(Rejected)) && ViewFits(page, t')
  {
  }

  lemma PreparePhase(world: World, s: System, w: Worker, e: Engine, target: Option<Project>)
    requires s.page.phase.Preparing? && Primed(world, w, e, s.page.phase.action, s.page.cache, target)
    requires PhaseFits(world, s.page, w, e.timeline, None) && ViewFits(s.page, e.timeline)
    ensures var h := HandleHistory(world.canonical, w, e, s.page.phase.action.command, target);
            && WellKept(h.engine) && !h.answer.Broken?
            && PhaseFits(world, s.page, h.worker, h.engine.timeline, Some(h.answer))
            && ViewFits(s.page, h.engine.timeline)
  {
    var action := s.page.phase.action;
    var h := HandleHistory(world.canonical, w, e, action.command, target);
    PrepareKeeps(world.canonical, e, action.command);
    PrepareLeaves(world, w, e, action.command, target);
    if AfterPrepare(world.canonical, e, action.command).1.Shown? {
      ShownProposes(world, w, e, action, s.page.cache, target);
      PhaseViewed(world, s.page, w, e.timeline, h.worker, h.engine.timeline, h.answer.view);
    } else {
      PhaseRejected(world, s.page, w, e.timeline, h.engine.timeline);
    }
  }

  /** The message of a creating command rebuilds the candidate's scenario at the worker. */
  lemma CreateFacts(world: World, s: System)
    requires s.fault.None? && Sound(world, s) && s.wire.Sent? && s.wire.message.CreateMessage?
    requires s.client.active.value.op.History?
    ensures var m := s.wire.message;
            && s.page.phase.Preparing? && s.page.phase.action.candidate.Some?
            && s.client.active.value.op == History(m.command) && m.command == s.page.phase.action.command
            && s.client.active.value.config == s.client.sent == s.page.phase.action.candidate.value.scenario
            && DeltaFits(world, s.client.active.value, m.keys, m.patch, s.worker.config)
            && SendsDelta(s.client.active.value.op)
    ensures s.page.answer.None?
  {
    ActiveCommand(s);
  }

  /** A command that creates an entry: first the synchronization, then the preparation. */
  lemma CreateKeeps(world: World, s: System, verdict: Verdict)
    requires s.fault.None? && Sound(world, s) && s.wire.Sent? && s.wire.message.CreateMessage?
    requires s.client.active.value.op.History?
    ensures var h := AfterHandle(world.canonical, s.worker, s.engine, s.wire.message, verdict);
            !h.answer.Broken? && Sound(world, Answered'(s, h))
  {
    CreateFacts(world, s);
    var m := s.wire.message;
    SyncAgrees(s.worker, s.engine, m.keys, m.patch, verdict);
    var (w, e, v) := HandleSync(s.worker, s.engine, m.keys, m.patch, verdict);
    if v == SyncRefused {
      RefusedSyncKeeps(world, s, w);
    } else {
      SyncedCreateKeeps(world, s, w, e);
    }
  }

  /** A refused synchronization leaves the engine alone. */
  lemma RefusedSyncKeeps(world: World, s: System, w: Worker)
    requires s.fault.None? && Sound(world, s) && s.wire.Sent? && s.wire.message.CreateMessage?
    requires s.client.active.value.op.History?
    requires w.proposal == s.worker.proposal && w.snapshots == s.worker.snapshots && w.needsFullSync
    requires w.config == Texts(world.content, s.client.sent)
    ensures Sound(world, Answered'(s, Handled(w, s.engine, Rejected)))
  {
    CreateFacts(world, s);
    BackKeeps(world, s, Handled(w, s.engine, Rejected));
  }

  lemma SyncedCreateKeeps(world: World, s: System, w: Worker, e: Engine)
    requires s.fault.None? && Sound(world, s) && s.wire.Sent? && s.wire.message.CreateMessage?
    requires s.client.active.value.op.History?
    requires w.proposal == s.worker.proposal && w.snapshots == s.worker.snapshots && e.timeline == s.engine.timeline
    requires w.config == e.branches == Texts(world.content, s.client.sent)
    ensures var h := HandleHistory(world.canonical, w, e, s.wire.message.command, Some(w.config));
            !h.answer.Broken? && Sound(world, Answered'(s, h))
  {
    CreateFacts(world, s);
    var command := s.wire.message.command;
    assert Primed(world, w, e, s.page.phase.action, s.page.cache, Some(w.config));
    PreparePhase(world, s, w, e, Some(w.config));
    PrepareLeaves(world, w, e, command, Some(w.config));
    BackKeeps(world, s, HandleHistory(world.canonical, w, e, command, Some(w.config)));
  }

  /** An undo, a redo or a drop: the preparation alone. */
  lemma MoveKeeps(world: World, s: System, verdict: Verdict)
    requires s.fault.None? && Sound(world, s) && s.wire.Sent? && s.wire.message.PlainMessage?
    requires s.client.active.value.op.History? && s.client.active.value.op.command.Prepare?
    ensures var h := AfterHandle(world.canonical, s.worker, s.engine, s.wire.message, verdict);
            !h.answer.Broken? && Sound(world, Answered'(s, h))
  {
    ActiveCommand(s);
    assert Primed(world, s.worker, s.engine, s.page.phase.action, s.page.cache, None);
    PreparePhase(world, s, s.worker, s.engine, None);
    PrepareLeaves(world, s.worker, s.engine, s.wire.message.command, None);
    BackKeeps(world, s, HandleHistory(world.canonical, s.worker, s.engine, s.wire.message.command, None));
  }

  lemma DiscardKeeps(world: World, s: System, verdict: Verdict)
    requires s.fault.None? && Sound(world, s) && s.wire.Sent?
    requires s.client.active.value.op.History? && s.client.active.value.op.command.Discard?
    ensures var h := AfterHandle(world.canonical, s.worker, s.engine, s.wire.message, verdict);
            !h.answer.Broken? && Sound(world, Answered'(s, h))
  {
    ActiveCommand(s);
  }

  /** The accepted copies: the worker's new snapshot is the page's published draft. */
  lemma AcceptedCopies(world: World, page: Page, w: Worker, t: Timeline, view: View)
    requires page.phase == Acking(view) && PhaseFits(world, page, w, t, None) && Numbered(t.state, t.nextID)
    ensures t.pending.Some? && t.pending.value.state.present.Some?
    ensures var state := t.pending.value.state;
            var snapshots := Kept(w.snapshots[view.head := state.present.value.project], view.retained);
            && view.head == state.present.value.id
            && AllCopied(world, page.cache, snapshots, state) && snapshots.Keys == IDSet(state)
            && page.cache.Keys >= IDSet(state)
            && view.head in page.cache
            && Texts(world.content, page.cache[view.head].scenario) == state.present.value.project
    ensures view.(proposal := None) == Metadata(t.pending.value.state, t.revision + 1, view.changed)
  {
    var state := t.pending.value.state;
    var head := state.present.value;
    var snapshots := Kept(w.snapshots[view.head := head.project], view.retained);
    AcceptedShown(world, page, w, t, view);
    AcceptedKeys(world, page, w, t, view);
    forall x | x in Entries(state) ensures Copied(world, page.cache, snapshots, x) {
      assert x.id in IDSet(state);
      AcceptedCopy(world, page, w, t, view, x);
    }
    assert head in Entries(state);
  }

  lemma AcceptedShown(world: World, page: Page, w: Worker, t: Timeline, view: View)
    requires page.phase == Acking(view) && PhaseFits(world, page, w, t, None)
    ensures t.pending.Some? && t.pending.value.state.present.Some? && view.head in page.cache
    ensures view.(proposal := None) == Metadata(t.pending.value.state, t.revision + 1, view.changed)
  {
  }

  /** The worker's snapshots after an acceptance are those of the retained entries. */
  lemma AcceptedKeys(world: World, page: Page, w: Worker, t: Timeline, view: View)
    requires page.phase == Acking(view) && PhaseFits(world, page, w, t, None)
    ensures t.pending.Some? && t.pending.value.state.present.Some?
    ensures var state := t.pending.value.state;
            var snapshots := Kept(w.snapshots[view.head := state.present.value.project], view.retained);
            view.head == state.present.value.id && snapshots.Keys == IDSet(state) && page.cache.Keys >= IDSet(state)
  {
    var state := t.pending.value.state;
    var head := state.present.value;
    var snapshots := Kept(w.snapshots[view.head := head.project], view.retained);
    forall id: nat ensures id in view.retained <==> id in IDSet(state) {
      RetainedIDs(state, id);
    }
    forall id | id in IDSet(state) ensures id == head.id || id in IDSet(t.state) {
      var x :| x in Entries(state) && x.id == id;
    }
    assert head in Entries(state);
    assert snapshots.Keys == IDSet(state);
  }

  lemma AcceptedCopy(world: World, page: Page, w: Worker, t: Timeline, view: View, x: Entry)
    requires page.phase == Acking(view) && PhaseFits(world, page, w, t, None) && Numbered(t.state, t.nextID)
    requires t.pending.Some? && t.pending.value.state.present.Some? && x in Entries(t.pending.value.state)
    ensures var snapshots := w.snapshots[view.head := t.pending.value.state.present.value.project];
            Copied(world, page.cache, snapshots, x)
  {
    var head := t.pending.value.state.present.value;
    if x in Entries(t.state) {
      assert Copied(world, page.cache, w.snapshots, x);
      assert x.id in IDSet(t.state);
      if x.id == head.id {
        SameID(t.state, t.nextID, x, head);
      }
    }
  }

  /** What the worker and the engine hold once both have taken the pending proposal. */
  function Installed(w: Worker, e: Engine, view: View): Handled
    requires e.timeline.pending.Some? && e.timeline.pending.value.state.present.Some?
  {
    var t := e.timeline;
    var project := t.pending.value.state.present.value.project;
    Handled(
      Worker(project, false, None, Kept(w.snapshots[view.head := project], view.retained)),
      Engine(project, true, t.(state := t.pending.value.state, pending := None, revision := t.revision + 1)),
      Viewed(view.(proposal := None)))
  }

  lemma AcceptKeeps(world: World, s: System, verdict: Verdict)
    requires s.fault.None? && Sound(world, s) && s.wire.Sent?
    requires s.client.active.value.op.History? && s.client.active.value.op.command.Accept?
    ensures var h := AfterHandle(world.canonical, s.worker, s.engine, s.wire.message, verdict);
            !h.answer.Broken? && Sound(world, Answered'(s, h))
  {
    ActiveCommand(s);
    var view := s.page.phase.view;
    var t := s.engine.timeline;
    AcceptFits(world, s.page, s.worker, s.engine, view);
    ViewChecked(t.pending.value.state, t.nextID, t.revision, t.pending.value.changed, None);
    AcceptAnswers(world, s, view, verdict);
    AcceptedBack(world, s, view);
  }

  /** The invariant with the worker's and the engine's state after the acceptance. */
  lemma AcceptedBack(world: World, s: System, view: View)
    requires s.fault.None? && Sound(world, s) && s.wire.Sent? && s.page.phase == Acking(view)
    requires view.proposal.Some? && s.client.active.Some?
    requires s.client.active.value.op == History(Accept(view.proposal.value))
    requires s.client.active.value.config == s.page.cache[view.head].scenario
    requires Outcome(s.client, s.wire, s.page).None?
    ensures s.engine.timeline.pending.Some? && s.engine.timeline.pending.value.state.present.Some?
    ensures Sound(world, Answered'(s, Installed(s.worker, s.engine, view)))
  {
    AcceptFits(world, s.page, s.worker, s.engine, view);
    AcceptedEngine(s.worker, s.engine, view);
    BackKeeps(world, s, Installed(s.worker, s.engine, view));
  }

  lemma AcceptFits(world: World, page: Page, w: Worker, e: Engine, view: View)
    requires page.phase == Acking(view) && PhaseFits(world, page, w, e.timeline, None) && ViewFits(page, e.timeline)
    requires Numbered(e.timeline.state, e.timeline.nextID)
    ensures e.timeline.pending.Some? && e.timeline.pending.value.state.present.Some?
    ensures var h := Installed(w, e, view);
            && PhaseFits(world, page, h.worker, h.engine.timeline, Some(h.answer)) && ViewFits(page, h.engine.timeline)
            && Texts(world.content, page.cache[view.head].scenario) == h.worker.config
  {
    AcceptedCopies(world, page, w, e.timeline, view);
    var h := Installed(w, e, view);
    AcceptedPhase(world, page, h.worker, e.timeline, h.engine.timeline, view);
  }

  /** The acknowledged page, given the new copies and the view of the new state. */
  lemma AcceptedPhase(world: World, page: Page, w: Worker, t: Timeline, t': Timeline, view: View)
    requires page.phase == Acking(view) && ViewFits(page, t) && view.head in page.cache
    requires AllCopied(world, page.cache, w.snapshots, t'.state) && w.snapshots.Keys == IDSet(t'.state)
    requires page.cache.Keys >= IDSet(t'.state) && EditorSystem.NoProposal(w.proposal, t'.pending) &&
             t'.state.present.Some?
    requires view.(proposal := None) == Metadata(t'.state, t'.revision, view.changed)
    ensures PhaseFits(world, page, w, t', Some(Viewed(view.(proposal := None)))) && ViewFits(page, t')
  {
  }

  /** The engine takes the proposal, and the worker takes the engine's answer. */
  lemma AcceptAnswers(world: World, s: System, view: View, verdict: Verdict)
    requires s.fault.None? && Sound(world, s) && s.wire.Sent? && s.page.phase == Acking(view)
    requires view.proposal.Some? && s.client.active.value.op == History(Accept(view.proposal.value))
    requires Outcome(s.client, s.wire, s.page).None?
    requires s.engine.timeline.pending.Some? && s.engine.timeline.pending.value.state.present.Some?
    requires Checked(view.(proposal := None), false)
    ensures AfterHandle(world.canonical, s.worker, s.engine, s.wire.message, verdict) ==
            Installed(s.worker, s.engine, view)
  {
    var t := s.engine.timeline;
    assert s.wire.message == PlainMessage(Accept(view.proposal.value));
    assert Proposed(world, s.worker.proposal, t.state, t.pending, t.revision, view, Some(s.page.cache[view.head]));
    AcceptedHandled(world.canonical, s.worker, s.engine, view);
  }

  lemma AcceptedEngine(w: Worker, e: Engine, view: View)
    requires WellKept(e) && e.timeline.pending.Some?
    ensures WellKept(Installed(w, e, view).engine)
  {
  }

  lemma AcceptedHandled(canonical: string -> string, w: Worker, e: Engine, view: View)
    requires WellKept(e) && e.timeline.pending.Some? && e.timeline.pending.value.state.present.Some?
    requires var p := e.timeline.pending.value;
             && view == Metadata(p.state, e.timeline.revision + 1, p.changed).(proposal := Some(p.token))
             && w.proposal == Some(Held(p.token, p.state.present.value.id, p.state.present.value.project))
    requires Checked(view.(proposal := None), false)
    ensures HandleHistory(canonical, w, e, Accept(view.proposal.value), None) == Installed(w, e, view)
  {
    var accepted := AfterComplete(e, Accept(view.proposal.value));
    assert accepted.1 == Shown(view.(proposal := None));
  }

  lemma HandleKeeps(world: World, s: System, ev: Event)
    requires Inv(world, s) && Enabled(s, ev) && ev.HandleNext?
    ensures Inv(world, Step(world, s, ev)) && !Step(world, s, ev).wire.answer.Broken?
  {
    var op := s.client.active.value.op;
    if !op.History? {
      DeltaKeeps(world, s, ev.verdict);
    } else if SendsDelta(op) {
      CreateKeeps(world, s, ev.verdict);
    } else if op.command.Prepare? {
      MoveKeeps(world, s, ev.verdict);
    } else if op.command.Discard? {
      DiscardKeeps(world, s, ev.verdict);
    } else {
      AcceptKeeps(world, s, ev.verdict);
    }
  }

  lemma StepKeeps(world: World, s: System, ev: Event)
    requires Inv(world, s) && Enabled(s, ev)
    ensures Inv(world, Step(world, s, ev))
  {
    match ev
    case Submit(_, _, _) => SubmitKeeps(world, s, ev);
    case Begin(_, _, _, _) => BeginKeeps(world, s, ev);
    case Decide(_) => DecideKeeps(world, s, ev);
    case Preview(_) => PreviewKeeps(world, s, ev);
    case PostNext => PostKeeps(world, s, ev);
    case HandleNext(_) => HandleKeeps(world, s, ev);
    case ReceiveNext => ReceiveKeeps(world, s, ev);
    case Crash =>
  }
}
