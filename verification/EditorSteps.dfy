/** What the page of the editor asks, publishes and gives up, in every run. */
module EditorSteps {
  import opened Basics
  import opened EditorTimeline
  import opened EditorTransport
  import opened EditorSystem
  import opened EditorSafety
  import opened EditorRuns
  import opened TransportLaws

  // ----- the queue -----

  lemma AskQueue(s: System, config: Config, command: Command, phase: Phase)
    requires BackgroundLast(s.client.queue)
    ensures BackgroundLast(Ask(s, config, command, phase).client.queue)
  {
    EnqueueInOrder(s.client, config, History(command), false);
  }

  lemma PublishQueue(s: System, action: Action, view: View)
    requires BackgroundLast(s.client.queue) && view.proposal.Some?
    ensures BackgroundLast(PublishView(s, action, view).client.queue)
  {
    if NextDraft(s.page, action, view).Some? {
      var config := NextDraft(s.page, action, view).value.scenario;
      AcceptInOrder(s.client, config, view.proposal.value);
      var c := AfterAccept(s.client, config, view.proposal.value).0;
      AskQueue(s.(client := c), s.page.present.scenario, Discard(view.proposal.value), Dropping(view));
    }
  }

  lemma DecideQueue(s: System, choice: Choice)
    requires BackgroundLast(s.client.queue) && s.page.answer.Some? && !s.page.phase.Resting?
    ensures BackgroundLast(Continue(s, choice).client.queue)
  {
    if s.page.phase.Preparing? {
      var action, first := s.page.phase.action, s.page.phase.first;
      if s.page.answer.value.Viewed? {
        var view := s.page.answer.value.view;
        if Checked(view, true) {
          PreparedContinue(s, choice, action, first, view);
          AskQueue(s, s.page.present.scenario, Discard(view.proposal.value), Dropping(view));
          PublishQueue(s, action, view);
          if choice.Trim? && action.candidate.Some? {
            var again := action.(command := SetTrim(action.command, choice.count));
            AskQueue(s, action.candidate.value.scenario, again.command, Preparing(again, Some(view)));
          }
        }
      } else if first.Some? && first.value.proposal.Some? {
        AskQueue(s, s.page.present.scenario, Discard(first.value.proposal.value), Dropping(first.value));
      }
    }
  }

  lemma StepQueue(world: World, s: System, ev: Event)
    requires Enabled(s, ev) && BackgroundLast(s.client.queue)
    ensures BackgroundLast(Step(world, s, ev).client.queue)
  {
    match ev
    case Submit(config, op, background) => EnqueueInOrder(s.client, config, op, background);
    case Begin(kind, candidate, before, record) =>
      var draft := if candidate.Some? then candidate.value else s.page.present;
      var command := Prepare(kind, Revision(s.page), before, record, 0, draft.background, draft.imageKey);
      AskQueue(s, draft.scenario, command, Preparing(Action(candidate, command, s.page.present), None));
    case Decide(choice) => DecideQueue(s, choice);
    case PostNext => TailLast(s.client.queue);
    case _ =>
  }

  lemma TailLast(queue: seq<Job>)
    requires BackgroundLast(queue) && queue != []
    ensures BackgroundLast(queue[1..])
  {
  }

  /** In every run the validations wait behind all other jobs. */
  lemma {:induction false} ValidationsLast(world: World, present: Draft, run: seq<System>, events: seq<Event>, k: nat)
    requires IsRun(world, present, run, events) && k < |run|
    ensures BackgroundLast(run[k].client.queue)
  {
    if k > 0 {
      ValidationsLast(world, present, run, events, k - 1);
      StepQueue(world, run[k - 1], events[k - 1]);
    }
  }

  // ----- what an action asks -----

  /** The only command of the page is this one, unanswered. */
  ghost predicate Asks(s: System, config: Config, command: Command) {
    && |HistoryJobs(s.client)| == 1 && s.page.answer.None?
    && var job := HistoryJobs(s.client)[0];
       job.config == config && job.op == History(command) && !job.background
  }

  lemma AskAsks(s: System, config: Config, command: Command, phase: Phase)
    requires s.fault.None? && HistoryJobs(s.client) == []
    ensures var s' := Ask(s, config, command, phase);
            && (s'.fault.None? ==> Asks(s', config, command) && s'.page == s.page.(phase := phase, answer := None))
            && (s'.fault.Some? <==> |s.client.queue| >= 8)
            && (s'.fault.Some? ==> s'.fault == Some(Busy) && s'.page == s.page)
  {
    EnqueueJobs(s.client, config, History(command), false);
  }

  /** A new action asks for its move from the shown revision, with the background and the image of its draft. */
  lemma BeginAsks(world: World, present: Draft, run: seq<System>, events: seq<Event>, k: nat)
    requires IsRun(world, present, run, events) && k < |events| && events[k].Begin? && run[k + 1].fault.None?
    ensures var s, s', ev := run[k], run[k + 1], events[k];
            var draft := if ev.candidate.Some? then ev.candidate.value else s.page.present;
            var revision := if s.page.view.Some? then s.page.view.value.revision else 0;
            var command := Prepare(ev.kind, revision, ev.before, ev.record, 0, draft.background, draft.imageKey);
            && Asks(s', draft.scenario, command)
            && s'.page == s.page.(phase := Preparing(Action(ev.candidate, command, s.page.present), None),
                                  answer := None)
  {
    RunInv(world, present, run, events, k);
    var ev, s := events[k], run[k];
    var draft := if ev.candidate.Some? then ev.candidate.value else s.page.present;
    var command := Prepare(ev.kind, Revision(s.page), ev.before, ev.record, 0, draft.background, draft.imageKey);
    AskAsks(s, draft.scenario, command, Preparing(Action(ev.candidate, command, s.page.present), None));
  }

  // ----- what an answer decides -----

  /** A prepared view is decided on in one of three ways. It is given up when the draft changed since the action began
      or when the page gives up, it is asked for again with a trim, once, and else it is published. */
  lemma PreparedDecides(world: World, present: Draft, run: seq<System>, events: seq<Event>, k: nat, action: Action,
                        first: Option<View>, view: View)
    requires IsRun(world, present, run, events) && k < |events| && events[k].Decide? && run[k + 1].fault.None?
    requires run[k].page.phase == Preparing(action, first) && run[k].page.answer == Some(Viewed(view))
    ensures view.proposal.Some? && action.command.Prepare?
    ensures var s, s', choice := run[k], run[k + 1], events[k].choice;
            if s.page.present != action.source || choice == GiveUp then
              GivesUp(s, s', view)
            else if choice.Trim? && choice.count > 0 && first == None && action.candidate.Some? then
              var command := action.command.(trimOldest := choice.count);
              && Asks(s', action.candidate.value.scenario, command)
              && s'.page == s.page.(phase := Preparing(action.(command := command), Some(view)), answer := None)
            else Publishes(s, s', action, view)
  {
    RunInv(world, present, run, events, k);
    var s, choice := run[k], events[k].choice;
    PreparedFacts(world, s, action, first, view);
    PreparedContinue(s, choice, action, first, view);
    if s.page.present != action.source || choice.GiveUp? {
      AskAsks(s, s.page.present.scenario, Discard(view.proposal.value), Dropping(view));
    } else if choice.Trim? && choice.count > 0 && first.None? && action.candidate.Some? {
      var again := action.(command := SetTrim(action.command, choice.count));
      AskAsks(s, action.candidate.value.scenario, again.command, Preparing(again, Some(view)));
    } else {
      PublishDecides(world, s, action, first, view);
    }
  }

  /** The page discards the proposal and shows what it showed. */
  ghost predicate GivesUp(s: System, s': System, view: View)
    requires view.proposal.Some?
  {
    && Asks(s', s.page.present.scenario, Discard(view.proposal.value))
    && s'.page == s.page.(phase := Dropping(view), answer := None)
  }

  /** The page queues the acceptance and shows the new head at once: the draft of the action, or an earlier snapshot. */
  ghost predicate Publishes(s: System, s': System, action: Action, view: View)
    requires view.proposal.Some?
  {
    && (view.head in s.page.cache || action.candidate.Some?)
    && var next := if view.head in s.page.cache then s.page.cache[view.head] else action.candidate.value;
       && Asks(s', next.scenario, Accept(view.proposal.value))
       && s'.page.present == next && !s'.page.previewed && s'.page.view == Some(view.(proposal := None))
       && s'.page.cache == s.page.cache[view.head := next] && s'.page.phase == Acking(view)
  }

  lemma PublishedAsks(s: System, action: Action, view: View, next: Draft, c: Client)
    requires view.proposal.Some? && NextDraft(s.page, action, view) == Some(next)
    requires HistoryJobs(c) == [Job(s.client.nextID + 1, next.scenario, History(Accept(view.proposal.value)), false)]
    ensures Publishes(s, s.(client := c, page := Published(s.page, view, next)), action, view)
  {
  }

  /** An acceptance that finds no room leaves none for the discard either, and then the history fails as busy. */
  lemma PublishDecides(world: World, s: System, action: Action, first: Option<View>, view: View)
    requires s.fault.None? && Sound(world, s) && s.page.phase == Preparing(action, first)
    requires s.page.answer == Some(Viewed(view)) && view.proposal.Some?
    ensures var s' := PublishView(s, action, view);
            s'.fault.None? ==> Publishes(s, s', action, view)
  {
    SnapshotAtHand(world, s, action, first, view);
    var next := NextDraft(s.page, action, view).value;
    var c, queued := PublishAsks(s, action, view, next);
    if queued {
      PublishedAsks(s, action, view, next, c);
    } else {
      AskAsks(s.(client := c), s.page.present.scenario, Discard(view.proposal.value), Dropping(view));
    }
  }

  /** A refused preparation ends the action where it began; after a first preparation its proposal is discarded. */
  lemma RejectedDecides(world: World, present: Draft, run: seq<System>, events: seq<Event>, k: nat, action: Action,
                        first: Option<View>)
    requires IsRun(world, present, run, events) && k < |events| && events[k].Decide? && run[k + 1].fault.None?
    requires run[k].page.phase == Preparing(action, first)
    requires run[k].page.answer.Some? && !run[k].page.answer.value.Viewed?
    ensures var s, s' := run[k], run[k + 1];
            if first.None? then s' == s.(page := s.page.(phase := Resting, answer := None))
            else first.value.proposal.Some? && GivesUp(s, s', first.value)
  {
    RunInv(world, present, run, events, k);
    var s := run[k];
    if first.Some? {
      PreparedFacts(world, s, action, first, first.value);
      AskAsks(s, s.page.present.scenario, Discard(first.value.proposal.value), Dropping(first.value));
    }
  }

  /** An answered discard or acceptance ends the action. The page shows what it showed, and after an acceptance it has
      let go of the snapshots that no entry needs. */
  lemma AnsweredRests(world: World, present: Draft, run: seq<System>, events: seq<Event>, k: nat)
    requires IsRun(world, present, run, events) && k < |events| && events[k].Decide? && run[k + 1].fault.None?
    requires run[k].page.phase.Dropping? || run[k].page.phase.Acking?
    ensures var s, s' := run[k], run[k + 1];
            && s' == s.(page := s.page.(phase := Resting, answer := None, cache := s'.page.cache))
            && (s.page.phase.Dropping? ==> s'.page.cache == s.page.cache)
            && (s.page.phase.Acking? ==>
                  forall id :: id in s'.page.cache <==> id in s.page.cache && id in s.page.phase.view.retained)
            && forall id :: id in s'.page.cache ==> id in s.page.cache && s'.page.cache[id] == s.page.cache[id]
  {
    RunInv(world, present, run, events, k);
    RestingStep(world, run[k], events[k].choice);
  }

  lemma RestingStep(world: World, s: System, choice: Choice)
    requires s.fault.None? && Sound(world, s) && s.page.answer.Some?
    requires s.page.phase.Dropping? || s.page.phase.Acking?
    ensures Continue(s, choice) ==
            s.(page := s.page.(phase := Resting, answer := None,
                               cache := if s.page.phase.Dropping? then s.page.cache
                                        else Kept(s.page.cache, s.page.phase.view.retained)))
  {
    if s.page.phase.Acking? {
      AcknowledgedKeeps(world, s, s.page.phase.view);
    }
  }
}
