/** The page's history, as the object whose fields its actions update. */
module EditorPage {
  import opened Basics
  import opened EditorTimeline
  import opened EditorTransport
  import opened EditorSystem

  class PageHistory {
    const client: EditorClient
    var cache: map<nat, Draft>
    var present: Draft
    var view: Option<View>
    var previewed: bool
    var phase: Phase
    var answer: Option<Answer>
    var fault: Option<Fault>

    ghost function Contents(): Page
      reads this
    {
      Page(cache, present, view, previewed, phase, answer)
    }

    /** The page and its client are those of the system. */
    ghost predicate Of(s: System)
      reads this, client
    {
      !client.failed && s.client == client.Contents() && s.page == Contents() && s.fault == fault
    }

    constructor (client: EditorClient, initial: Draft)
      ensures this.client == client && fault == None
      ensures Contents() == FirstSystem(initial).page
    {
      this.client := client;
      cache, present, view, previewed, phase, answer, fault := map[], initial, None, false, Resting, None, None;
    }

    method Request(ghost s: System, config: Config, command: Command, next: Phase)
      requires Of(s)
      modifies this, client
      ensures Of(Ask(s, config, command, next)) && present == old(present)
    {
      var queued, _ := client.Enqueue(config, History(command), false);
      if queued {
        phase, answer := next, None;
      } else {
        fault := Some(Busy);
      }
    }

    method DiscardProposal(ghost s: System, shown: View)
      requires Of(s) && shown.proposal.Some?
      modifies this, client
      ensures Of(Drop(s, shown))
    {
      Request(s, present.scenario, Discard(shown.proposal.value), Dropping(shown));
    }

    method Run(ghost s: System, kind: Kind, candidate: Option<Draft>, before: nat, record: bool)
      requires Of(s)
      modifies this, client
      ensures Of(StartAction(s, Begin(kind, candidate, before, record)))
    {
      var draft := if candidate.Some? then candidate.value else present;
      var revision := if view.Some? then view.value.revision else 0;
      var command := Prepare(kind, revision, before, record, 0, draft.background, draft.imageKey);
      Request(s, draft.scenario, command, Preparing(Action(candidate, command, present), None));
    }

    /** Accepts the proposal. The queued acceptance is irrevocable, so the draft publishes before its answer. */
    method PublishProposal(ghost s: System, action: Action, shown: View)
      requires Of(s) && shown.proposal.Some?
      modifies this, client
      ensures Of(PublishView(s, action, shown))
    {
      var next := if shown.head in cache then Some(cache[shown.head]) else action.candidate;
      if next.None? {
        fault := Some(MissingSnapshot);
        return;
      }
      var queued, _ := client.AcceptHistory(next.value.scenario, shown.proposal.value);
      if !queued {
        DiscardProposal(s.(client := client.Contents()), shown);
        return;
      }
      cache := cache[shown.head := next.value];
      present := next.value;
      view := Some(shown.(proposal := None));
      previewed, phase, answer := false, Acking(shown), None;
    }

    /** Goes on with the action after an answer. */
    method Proceed(ghost s: System, choice: Choice)
      requires Of(s) && answer.Some? && !phase.Resting?
      modifies this, client
      ensures Of(Continue(s, choice))
    {
      match phase {
        case Preparing(action, first) =>
          if !answer.value.Viewed? {
            if first.Some? && first.value.proposal.Some? {
              DiscardProposal(s, first.value);
            } else {
              phase, answer := Resting, None;
            }
            return;
          }
          var shown := answer.value.view;
          if !Checked(shown, true) {
            fault := Some(WorkerBroke);
          } else if present != action.source || choice.GiveUp? {
            DiscardProposal(s, shown);
          } else if choice.Trim? && choice.count > 0 && first.None? && action.candidate.Some? {
            var again := action.(command := SetTrim(action.command, choice.count));
            Request(s, action.candidate.value.scenario, again.command, Preparing(again, Some(shown)));
          } else {
            PublishProposal(s, action, shown);
          }
        case Dropping(_) =>
          if answer.value.Viewed? {
            phase, answer := Resting, None;
          } else {
            fault := Some(DiscardRefused);
          }
        case Acking(shown) =>
          if !answer.value.Viewed? || !Checked(answer.value.view, false) ||
            answer.value.view != shown.(proposal := None) {
            fault := Some(BadAcknowledgment);
          } else {
            cache := Kept(cache, answer.value.view.retained);
            phase, answer := Resting, None;
          }
      }
    }

    /** Replaces the shown draft without a history entry. */
    method ShowPreview(ghost s: System, draft: Draft)
      requires Of(s)
      modifies this
      ensures Of(s.(page := s.page.(present := draft, previewed := true)))
    {
      present, previewed := draft, true;
    }
  }
}
