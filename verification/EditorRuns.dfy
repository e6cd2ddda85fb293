/** What holds in every run of the editor system. */
module EditorRuns {
  import opened Basics
  import opened EditorTimeline
  import opened EditorTransport
  import opened EditorSystem
  import opened EditorSafety

  ghost predicate IsRun(world: World, present: Draft, run: seq<System>, events: seq<Event>) {
    && |run| == |events| + 1 && run[0] == FirstSystem(present)
    && forall k :: 0 <= k < |events| ==> Enabled(run[k], events[k]) && run[k + 1] == Step(world, run[k], events[k])
  }

  lemma {:induction false} RunInv(world: World, present: Draft, run: seq<System>, events: seq<Event>, k: nat)
    requires IsRun(world, present, run, events) && k < |run|
    ensures Inv(world, run[k])
  {
    if k == 0 {
      FirstInv(world, present);
    } else {
      RunInv(world, present, run, events, k - 1);
      StepKeeps(world, run[k - 1], events[k - 1]);
    }
  }

  /** Delta transport refines full transport: whatever the worker has handled before, it rebuilds
      from `keys` and `patch` exactly the project of the job that the client has sent. */
  lemma DeltaRefinesFull(world: World, present: Draft, run: seq<System>, events: seq<Event>, k: nat)
    requires IsRun(world, present, run, events) && k < |events| && events[k].HandleNext?
    requires run[k].wire.message.DeltaMessage? || run[k].wire.message.CreateMessage?
    ensures var m, job := run[k].wire.message, run[k].client.active;
            && job.Some? && SendsDelta(job.value.op)
            && Rebuilt(run[k].worker.config, m.keys, m.patch) == Texts(world.content, job.value.config)
    ensures run[k].wire.message.DeltaMessage? ==>
              run[k + 1].worker.config == Texts(world.content, run[k].client.active.value.config)
  {
    RunInv(world, present, run, events, k);
  }

  /** Between messages the client's copy of the sent project is the one that the worker holds,
      and the engine holds it too unless the next synchronization will send all of it. */
  lemma CopiesAgree(world: World, present: Draft, run: seq<System>, events: seq<Event>, k: nat)
    requires IsRun(world, present, run, events) && k < |run| && run[k].fault.None?
    ensures run[k].wire.Quiet? ==> Texts(world.content, run[k].client.sent) == run[k].worker.config
    ensures !run[k].worker.needsFullSync ==> run[k].engine.branches == run[k].worker.config
  {
    RunInv(world, present, run, events, k);
  }

  /** Every retained entry has the same scenario in the render cache, at the worker and in the engine.
      Between actions neither side keeps any other copy. */
  lemma RetainedCopies(world: World, present: Draft, run: seq<System>, events: seq<Event>, k: nat, x: Entry)
    requires IsRun(world, present, run, events) && k < |run| && run[k].fault.None?
    ensures x in Entries(run[k].engine.timeline.state) ==>
              && x.id in run[k].page.cache && x.id in run[k].worker.snapshots
              && Texts(world.content, run[k].page.cache[x.id].scenario) == run[k].worker.snapshots[x.id] == x.project
    ensures run[k].page.phase.Resting? ==>
              run[k].page.cache.Keys == run[k].worker.snapshots.Keys == IDSet(run[k].engine.timeline.state)
  {
    RunInv(world, present, run, events, k);
    if x in Entries(run[k].engine.timeline.state) {
      assert Copied(world, run[k].page.cache, run[k].worker.snapshots, x);
    }
  }

  /** A history fails only when the worker is lost or the queue is full: no proposal names a missing
      snapshot, no discard is refused, and each acknowledgment is the view of its proposal. */
  lemma OnlyTransportFails(world: World, present: Draft, run: seq<System>, events: seq<Event>, k: nat)
    requires IsRun(world, present, run, events) && k < |run|
    ensures run[k].fault in {None, Some(Lost), Some(Busy)}
    ensures run[k].fault.None? && run[k].wire.Back? ==> !run[k].wire.answer.Broken?
  {
    RunInv(world, present, run, events, k);
  }

  /** Between actions neither the worker nor the engine has a proposal. */
  lemma NoProposalAtRest(world: World, present: Draft, run: seq<System>, events: seq<Event>, k: nat)
    requires IsRun(world, present, run, events) && k < |run|
    requires run[k].fault.None? && run[k].page.phase.Resting?
    ensures run[k].worker.proposal.None? && run[k].engine.timeline.pending.None?
  {
    RunInv(world, present, run, events, k);
  }

  /** Outside a local preview the page shows the snapshot of its head, and between actions
      that head and its revision are the engine's. */
  lemma ShownDraft(world: World, present: Draft, run: seq<System>, events: seq<Event>, k: nat)
    requires IsRun(world, present, run, events) && k < |run| && run[k].fault.None?
    ensures var page := run[k].page;
            page.view.Some? && !page.previewed ==>
              page.view.value.head in page.cache && page.present == page.cache[page.view.value.head]
    ensures var page, t := run[k].page, run[k].engine.timeline;
            page.phase.Resting? && page.view.Some? ==>
              t.state.present.Some? && page.view.value.head == t.state.present.value.id &&
                page.view.value.revision == t.revision
  {
    RunInv(world, present, run, events, k);
  }
}
