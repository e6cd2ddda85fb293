/** The page, its worker and the Go engine as one system.

    The page runs one history action at a time: it prepares, may trim, and then
    publishes or gives up. Other operations share the client's queue, so their
    messages come between the messages of an action. */
module EditorSystem {
  import opened Basics
  import opened EditorTimeline
  import opened EditorTransport

  datatype Draft = Draft(scenario: Config, background: string, imageKey: string)

  /** A running action. `source` is the draft that it started from, `candidate` the one that it stores. */
  datatype Action = Action(candidate: Option<Draft>, command: Command, source: Draft)

  /** What the action waits for: its (second) preparation, its discard, or its acknowledgment. */
  datatype Phase =
    | Resting
    | Preparing(action: Action, first: Option<View>)
    | Dropping(view: View)
    | Acking(view: View)

  /** The render copies by entry ID, the shown draft and its view. `previewed` tells that
      a local preview replaced the draft after the last publication. */
  datatype Page = Page(
    cache: map<nat, Draft>, present: Draft, view: Option<View>, previewed: bool, phase: Phase, answer: Option<Answer>)

  datatype Wire = Quiet | Sent(message: Message) | Back(answer: Answer)

  /** How a history fails. Only `Lost` (the worker stopped) and `Busy` (the queue was full) ever happen. */
  datatype Fault = Lost | Busy | WorkerBroke | MissingSnapshot | DiscardRefused | BadAcknowledgment

  datatype System = System(client: Client, wire: Wire, worker: Worker, engine: Engine, page: Page, fault: Option<Fault>)

  datatype World = World(content: nat -> string, canonical: string -> string)

  datatype Choice = GiveUp | Trim(count: nat) | Publish

  datatype Event =
    | Submit(config: Config, op: Op, background: bool)
    | Begin(kind: Kind, candidate: Option<Draft>, before: nat, record: bool)
    | Decide(choice: Choice)
    | Preview(draft: Draft)
    | PostNext
    | HandleNext(verdict: Verdict)
    | ReceiveNext
    | Crash

  function FirstSystem(present: Draft): System {
    System(Client(None, [], map[], 0), Quiet, NEW_WORKER, NEW_ENGINE, Page(map[], present, None, false, Resting, None),
           None)
  }

  // ----- steps of the page -----

  function Revision(page: Page): nat {
    if page.view.Some? then page.view.value.revision else 0
  }

  function Ask(s: System, config: Config, command: Command, phase: Phase): System {
    var (client, queued) := AfterEnqueue(s.client, config, History(command), false);
    if queued then s.(client := client, page := s.page.(phase := phase, answer := None))
    else s.(client := client, fault := Some(Busy))
  }

  function Drop(s: System, view: View): System
    requires view.proposal.Some?
  {
    Ask(s, s.page.present.scenario, Discard(view.proposal.value), Dropping(view))
  }

  function StartAction(s: System, ev: Event): System
    requires ev.Begin?
  {
    var draft := if ev.candidate.Some? then ev.candidate.value else s.page.present;
    var command := Prepare(ev.kind, Revision(s.page), ev.before, ev.record, 0, draft.background, draft.imageKey);
    Ask(s, draft.scenario, command, Preparing(Action(ev.candidate, command, s.page.present), None))
  }

  function NextDraft(page: Page, action: Action, view: View): Option<Draft> {
    if view.head in page.cache then Some(page.cache[view.head]) else action.candidate
  }

  /** The page that has published a proposal waits for its acknowledgment. */
  function Published(page: Page, view: View, next: Draft): Page {
    Page(page.cache[view.head := next], next, Some(view.(proposal := None)), false, Acking(view), None)
  }

  /** Queues the acceptance and publishes at once. A full queue gives the proposal up. */
  function PublishView(s: System, action: Action, view: View): System
    requires view.proposal.Some?
  {
    match NextDraft(s.page, action, view)
    case None => s.(fault := Some(MissingSnapshot))
    case Some(next) =>
      var (client, queued) := AfterAccept(s.client, next.scenario, view.proposal.value);
      if !queued then Drop(s.(client := client), view)
      else s.(client := client, page := Published(s.page, view, next))
  }

  function Continue(s: System, choice: Choice): System
    requires s.page.answer.Some? && !s.page.phase.Resting?
  {
    var page := s.page;
    match page.phase
    case Preparing(action, first) =>
      (match page.answer.value
       case Viewed(view) =>
         if !Checked(view, true) then s.(fault := Some(WorkerBroke))
         else if page.present != action.source || choice.GiveUp? then Drop(s, view)
         else if choice.Trim? && choice.count > 0 && first.None? && action.candidate.Some? then
           var again := action.(command := SetTrim(action.command, choice.count));
           Ask(s, action.candidate.value.scenario, again.command, Preparing(again, Some(view)))
         else PublishView(s, action, view)
       case _ =>
         if first.Some? && first.value.proposal.Some? then Drop(s, first.value)
         else s.(page := page.(phase := Resting, answer := None)))
    case Dropping(_) =>
      if page.answer.value.Viewed? then s.(page := page.(phase := Resting, answer := None))
      else s.(fault := Some(DiscardRefused))
    case Acking(view) =>
      (match page.answer.value
       case Viewed(accepted) =>
         if !Checked(accepted, false) || accepted != view.(proposal := None) then s.(fault := Some(BadAcknowledgment))
         else s.(page := page.(cache := Kept(page.cache, accepted.retained), phase := Resting, answer := None))
       case _ => s.(fault := Some(BadAcknowledgment)))
  }

  function SetTrim(c: Command, count: nat): Command {
    match c
    case Prepare(kind, revision, before, record, _, background, imageKey) =>
      Prepare(kind, revision, before, record, count, background, imageKey)
    case _ => c
  }

  // ----- steps of the system -----

  predicate Enabled(s: System, ev: Event) {
    s.fault.None? &&
    match ev
    case Submit(_, op, _) => !op.History?
    case Begin(kind, candidate, _, _) => s.page.phase.Resting? && (candidate.Some? <==> Creates(kind))
    case Decide(_) => s.page.answer.Some? && !s.page.phase.Resting?
    case Preview(_) => true
    case PostNext => s.wire.Quiet? && CanPost(s.client)
    case HandleNext(_) => s.wire.Sent?
    case ReceiveNext => s.wire.Back? && s.client.active.Some?
    case Crash => true
  }

  function Step(world: World, s: System, ev: Event): System
    requires Enabled(s, ev)
  {
    match ev
    case Submit(config, op, background) => s.(client := AfterEnqueue(s.client, config, op, background).0)
    case Begin(_, _, _, _) => StartAction(s, ev)
    case Decide(choice) => Continue(s, choice)
    case Preview(draft) => s.(page := s.page.(present := draft, previewed := true))
    case PostNext => s.(client := AfterPost(s.client),
                        wire := Sent(MessageFor(world.content, s.client.queue[0], s.client.sent)))
    case HandleNext(verdict) =>
      var h := AfterHandle(world.canonical, s.worker, s.engine, s.wire.message, verdict);
      s.(worker := h.worker, engine := h.engine, wire := Back(h.answer))
    case ReceiveNext =>
      if s.wire.answer.Broken? then s.(fault := Some(WorkerBroke))
      else
        var page := if s.client.active.value.op.History? then s.page.(answer := Some(s.wire.answer)) else s.page;
        s.(client := AfterReceive(s.client, s.wire.answer), wire := Quiet, page := page)
    case Crash => s.(fault := Some(Lost))
  }

  // ----- the invariant -----

  ghost predicate MessageFits(world: World, job: Job, m: Message, held: Project) {
    match job.op
    case Delta(_, _) => m.DeltaMessage? && DeltaFits(world, job, m.keys, m.patch, held)
    case Aside(_, _, _) => m.AsideMessage?
    case History(command) =>
      if SendsDelta(job.op) then m.CreateMessage? && m.command == command &&
        DeltaFits(world, job, m.keys, m.patch, held)
      else m == PlainMessage(command)
  }

  ghost predicate DeltaFits(world: World, job: Job, keys: set<string>, patch: Project, held: Project) {
    && patch.Keys <= keys && (forall key :: key in keys ==> key in patch || key in held)
    && Rebuilt(held, keys, patch) == Texts(world.content, job.config)
  }

  predicate Accepts(op: Op) {
    op.History? && op.command.Accept?
  }

  /** The client's copy of the sent project is the project that the worker holds,
      or will hold once it has handled the message on the wire. */
  ghost predicate Joined(world: World, c: Client, wire: Wire, held: Project) {
    match wire
    case Quiet => c.active.None? && Texts(world.content, c.sent) == held
    case Sent(m) =>
      && c.active.Some? && MessageFits(world, c.active.value, m, held)
      && if SendsDelta(c.active.value.op) then c.sent == c.active.value.config else Texts(world.content, c.sent) == held
    case Back(answer) =>
      && c.active.Some? && !answer.Broken?
      && Texts(world.content, if Accepts(c.active.value.op) && answer.Viewed? then c.active.value.config else c.sent)
           == held
  }

  ghost predicate Synced(w: Worker, e: Engine) {
    !w.needsFullSync ==> e.branches == w.config
  }

  function Histories(queue: seq<Job>): seq<Job> {
    if queue == [] then []
    else
      var last := queue[|queue| - 1];
      Histories(queue[..|queue| - 1]) + if last.op.History? then [last] else []
  }

  function HistoryJobs(c: Client): seq<Job> {
    (if c.active.Some? && c.active.value.op.History? then [c.active.value] else []) + Histories(c.queue)
  }

  /** The command that the running action has sent, and the draft of a command that creates an entry. */
  ghost predicate JobFits(page: Page, job: Job) {
    !job.background &&
    match page.phase
    case Resting => false
    case Preparing(action, _) =>
      job.op == History(action.command) && (action.candidate.Some? ==> job.config == action.candidate.value.scenario)
    case Dropping(view) => view.proposal.Some? && job.op == History(Discard(view.proposal.value))
    case Acking(view) =>
      && view.proposal.Some? && view.head in page.cache
      && job.op == History(Accept(view.proposal.value)) && job.config == page.cache[view.head].scenario
  }

  ghost predicate Awaited(page: Page, jobs: seq<Job>) {
    if page.phase.Resting? || page.answer.Some? then jobs == [] else |jobs| == 1 && JobFits(page, jobs[0])
  }

  /** The answer to the action's command, once the worker has given it. */
  function Outcome(c: Client, wire: Wire, page: Page): Option<Answer> {
    if page.answer.Some? then page.answer
    else if wire.Back? && c.active.Some? && c.active.value.op.History? then Some(wire.answer)
    else None
  }

  ghost predicate Fits(world: World, draft: Draft, x: Entry) {
    Texts(world.content, draft.scenario) == x.project && draft.background == x.background &&
      draft.imageKey == x.imageKey
  }

  /** The page and the worker both hold the scenario of the entry. */
  ghost predicate Copied(world: World, cache: map<nat, Draft>, snapshots: map<nat, Project>, x: Entry) {
    x.id in cache && x.id in snapshots && snapshots[x.id] == x.project && Fits(world, cache[x.id], x)
  }

  ghost predicate AllCopied(world: World, cache: map<nat, Draft>, snapshots: map<nat, Project>, s: State) {
    forall x :: x in Entries(s) ==> Copied(world, cache, snapshots, x)
  }

  ghost function IDSet(s: State): set<nat> {
    set x | x in Entries(s) :: x.id
  }

  ghost predicate Exact(world: World, cache: map<nat, Draft>, snapshots: map<nat, Project>, s: State) {
    AllCopied(world, cache, snapshots, s) && cache.Keys == IDSet(s) == snapshots.Keys
  }

  ghost predicate NoProposal(held: Option<Held>, pending: Option<Proposal>) {
    held.None? && pending.None?
  }

  /** The engine and the worker hold the proposal that the view shows. Its entries are
      those of the timeline, and perhaps a new one that fits the candidate. */
  ghost predicate Proposed(world: World, held: Option<Held>, s: State, pending: Option<Proposal>, revision: nat,
                           view: View, candidate: Option<Draft>)
  {
    && pending.Some? && pending.value.state.present.Some?
    && var p := pending.value;
       var head := p.state.present.value;
       && view == Metadata(p.state, revision + 1, p.changed).(proposal := Some(p.token))
       && held == Some(Held(p.token, head.id, head.project))
       && (forall x :: x in Entries(p.state) ==> x in Entries(s) || x == head)
       && (head in Entries(s) ||
           (head.id !in IDSet(s) && candidate.Some? && Fits(world, candidate.value, head)))
  }

  ghost predicate ActionFits(action: Action, revision: nat) {
    && action.command.Prepare? && action.command.revision == revision
    && (action.candidate.Some? <==> Creates(action.command.kind))
    && (action.candidate.Some? ==>
          action.command.background == action.candidate.value.background &&
          action.command.imageKey == action.candidate.value.imageKey)
  }

  ghost predicate PhaseFits(world: World, page: Page, w: Worker, t: Timeline, outcome: Option<Answer>) {
    match page.phase
    case Resting => NoProposal(w.proposal, t.pending) && Exact(world, page.cache, w.snapshots, t.state) && outcome.None?
    case Preparing(action, first) =>
      && Exact(world, page.cache, w.snapshots, t.state) && ActionFits(action, t.revision)
      && (outcome.Some? ==> outcome.value.Viewed? || outcome.value.Rejected?)
      && if outcome.Some? && outcome.value.Viewed? then
         Proposed(world, w.proposal, t.state, t.pending, t.revision, outcome.value.view, action.candidate)
         else if first.Some? then Proposed(world, w.proposal, t.state, t.pending, t.revision, first.value,
                                           action.candidate)
         else NoProposal(w.proposal, t.pending)
    case Dropping(view) =>
      && Exact(world, page.cache, w.snapshots, t.state)
      && if outcome.Some? then outcome.value.Viewed? && NoProposal(w.proposal, t.pending)
         else t.pending.Some? && view.proposal == Some(t.pending.value.token)
    case Acking(view) =>
      && AllCopied(world, page.cache, w.snapshots, t.state) && w.snapshots.Keys == IDSet(t.state)
      && page.cache.Keys >= IDSet(t.state) && view.head in page.cache
      && if outcome.Some? then
           NoProposal(w.proposal, t.pending) && t.state.present.Some? &&
             outcome.value == Viewed(view.(proposal := None)) &&
           view.(proposal := None) == Metadata(t.state, t.revision, view.changed)
         else Proposed(world, w.proposal, t.state, t.pending, t.revision, view, Some(page.cache[view.head]))
  }

  /** What the page shows. Outside an acknowledgment its view is the timeline's state. */
  ghost predicate ViewFits(page: Page, t: Timeline) {
    && (if page.phase.Acking? then page.view == Some(page.phase.view.(proposal := None))
        else (page.view.Some? <==> t.state.present.Some?) &&
             (page.view.Some? ==>
                page.view.value.head == t.state.present.value.id && page.view.value.revision == t.revision))
    && (page.view.Some? && !page.previewed ==>
          page.view.value.head in page.cache && page.present == page.cache[page.view.value.head])
  }

  ghost predicate Sound(world: World, s: System) {
    && WellKept(s.engine)
    && Joined(world, s.client, s.wire, s.worker.config)
    && Synced(s.worker, s.engine)
    && Awaited(s.page, HistoryJobs(s.client))
    && PhaseFits(world, s.page, s.worker, s.engine.timeline, Outcome(s.client, s.wire, s.page))
    && ViewFits(s.page, s.engine.timeline)
  }

  ghost predicate Inv(world: World, s: System) {
    match s.fault
    case None => Sound(world, s)
    case Some(fault) => fault.Lost? || fault.Busy?
  }

  lemma FirstInv(world: World, present: Draft)
    ensures Inv(world, FirstSystem(present))
  {
    assert HistoryJobs(FirstSystem(present).client) == [];
    assert IDSet(NEW_ENGINE.timeline.state) == {};
  }
}
