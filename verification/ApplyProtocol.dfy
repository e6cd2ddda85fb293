/** One apply of a draft over a network that loses requests and replies. No other client acts, and the server does not
    restart. */
module ApplyProtocol {
  import opened Basics
  import opened ServerSession

  /** A request is lost, refused on the way without effect, or handled. The reply of a handled request can be lost. */
  datatype Fate = Lost | Refused(status: nat) | Handled(checks: Checks, replied: bool)

  datatype Reply = Accepted(revision: nat) | Rejected(status: nat) | NoReply

  /** The fates of the requests of one apply, in the order in which it sends them. */
  datatype Network = Network(snapshot: bool, pause: Fate, project: Fate, read: bool, resume: Fate)

  /** `epoch` is what the connection knows, or empty. `fits` tells if the project is within the size limits. */
  datatype Draft = Draft(project: Project, revision: nat, start: string, epoch: string, fits: bool)

  datatype Step = Check | PauseStep | ProjectStep

  datatype PauseValue = NotPaused | WasPaused | Resumed | LeftPaused | SimulationRestarted

  datatype Outcome = Done(revision: nat) | Failed(pause: PauseValue)

  const CONFLICT: nat := 409

  function Post(s: Server, command: Command, fate: Fate): (Server, Reply) {
    match fate
    case Lost => (s, NoReply)
    case Refused(status) => (s, Rejected(status))
    case Handled(checks, replied) =>
      var (s', rejection) := Handle(s, command, checks);
      (s', if !replied then NoReply else if rejection.None? then Accepted(s'.revision) else Rejected(CONFLICT))
  }

  predicate BeforeRestart(draftStart: string, liveStart: string) {
    draftStart != "" && liveStart != "" && draftStart != liveStart
  }

  /** The checks before the pause command. */
  predicate Passes(s: Server, draft: Draft, net: Network) {
    draft.fits && net.snapshot && !BeforeRestart(draft.start, s.start) && draft.revision == s.revision
  }

  function EpochOf(s: Server, draft: Draft): string {
    if draft.epoch == "" then s.epoch else draft.epoch
  }

  predicate SameSimulation(a: Server, b: Server) {
    a.epoch == b.epoch && a.generation == b.generation
  }

  function Resume(s: Server, epoch: string, was: Server, net: Network): (Server, PauseValue) {
    if !net.read then (s, LeftPaused)
    else if !SameSimulation(s, was) then (s, SimulationRestarted)
    else
      var (s', reply) := Post(s, Command(epoch, "", Pause(false)), net.resume);
      (s', if reply.Accepted? then Resumed else LeftPaused)
  }

  function PauseAfterFailure(s: Server, epoch: string, was: Server, step: Step, reply: Reply, net: Network)
    : (Server, PauseValue) {
    if step.Check? then (s, NotPaused)
    else if was.paused then (s, WasPaused)
    else if step.PauseStep? && reply.Rejected? && 400 <= reply.status < 500 then (s, NotPaused)
    else Resume(s, epoch, was, net)
  }

  function Fail(s: Server, epoch: string, was: Server, step: Step, reply: Reply, net: Network): (Server, Outcome) {
    var (s', pause) := PauseAfterFailure(s, epoch, was, step, reply, net);
    (s', Failed(pause))
  }

  function Apply(s: Server, draft: Draft, net: Network): (Server, Outcome) {
    var epoch := EpochOf(s, draft);
    if !Passes(s, draft, net) then Fail(s, epoch, s, Check, NoReply, net)
    else
      var (paused, first) := Post(s, Command(epoch, "", Pause(true)), net.pause);
      if !first.Accepted? then Fail(paused, epoch, s, PauseStep, first, net)
      else
        var (after, second) := Post(paused, Command(epoch, draft.start, ApplyProject(draft.revision, draft.project)),
                                    net.project);
        if second.Accepted? then (after, Done(second.revision)) else Fail(after, epoch, s, ProjectStep, second, net)
  }

  /** The apply as it runs, one request after the other. */
  class Connection {
    var epoch: string
    var server: Server

    constructor (epoch: string, server: Server)
      ensures this.epoch == epoch && this.server == server
    {
      this.epoch, this.server := epoch, server;
    }

    method PostCommand(start: string, action: Action, fate: Fate) returns (reply: Reply)
      modifies this`server
      ensures (server, reply) == Post(old(server), Command(epoch, start, action), fate)
    {
      match fate
      case Lost => reply := NoReply;
      case Refused(status) => reply := Rejected(status);
      case Handled(checks, replied) =>
        var (next, rejection) := Handle(server, Command(epoch, start, action), checks);
        server := next;
        reply := if !replied then NoReply else if rejection.None? then Accepted(next.revision) else Rejected(CONFLICT);
    }

    method ResumeSimulation(was: Server, net: Network) returns (pause: PauseValue)
      modifies this`server
      ensures (server, pause) == Resume(old(server), epoch, was, net)
    {
      if !net.read {
        return LeftPaused;
      }
      if !SameSimulation(server, was) {
        return SimulationRestarted;
      }
      var reply := PostCommand("", Pause(false), net.resume);
      pause := if reply.Accepted? then Resumed else LeftPaused;
    }

    method ApplyToServer(draft: Draft, net: Network) returns (outcome: Outcome)
      requires draft.epoch == epoch
      modifies this
      ensures (server, outcome) == Apply(old(server), draft, net)
    {
      var was := server;
      if !Passes(was, draft, net) {
        return Failed(NotPaused);
      }
      if epoch == "" {
        epoch := was.epoch;
      }
      var step := PauseStep;
      var reply := PostCommand("", Pause(true), net.pause);
      if reply.Accepted? {
        step := ProjectStep;
        reply := PostCommand(draft.start, ApplyProject(draft.revision, draft.project), net.project);
        if reply.Accepted? {
          return Done(reply.revision);
        }
      }
      if was.paused {
        return Failed(WasPaused);
      }
      if step.PauseStep? && reply.Rejected? && 400 <= reply.status < 500 {
        return Failed(NotPaused);
      }
      var pause := ResumeSimulation(was, net);
      outcome := Failed(pause);
    }
  }

  // ----- what the outcomes say about the server -----

  predicate Reached(fate: Fate) {
    fate.Handled?
  }

  /** The server runs the draft's project in a new, paused simulation. */
  ghost predicate Replaced(s: Server, s': Server, draft: Draft) {
    && s'.project == draft.project && s'.project != s.project && s'.paused
    && s'.revision == s.revision + 1 && s'.generation == s.generation + 1 && s'.start == s.start && s'.epoch == s.epoch
  }

  /** A successful apply leaves the draft's project on the server, paused, and tells its revision. */
  lemma DoneIsTrue(s: Server, draft: Draft, net: Network)
    requires Apply(s, draft, net).1.Done?
    ensures var (s', outcome) := Apply(s, draft, net);
      && s'.project == draft.project && s'.paused && outcome.revision == s'.revision
      && if draft.project == s.project then s' == s.(paused := true) else Replaced(s, s', draft)
  {
  }

  /** The outcomes other than left-paused are true of the pause flag and of the simulation at the end. */
  lemma OutcomesTrue(s: Server, draft: Draft, net: Network)
    ensures var (s', outcome) := Apply(s, draft, net);
      && (outcome == Failed(NotPaused) ==> s' == s)
      && (outcome == Failed(WasPaused) ==> s.paused && s'.paused && (s' == s || Replaced(s, s', draft)))
      && (outcome == Failed(Resumed) ==> !s.paused && s' == s)
      && (outcome == Failed(SimulationRestarted) ==> !s.paused && Replaced(s, s', draft))
  {
  }

  /** What follows a failure can only end the pause. */
  lemma FailureLeaves(s: Server, epoch: string, was: Server, step: Step, reply: Reply, net: Network)
    ensures PauseAfterFailure(s, epoch, was, step, reply, net).0 in {s, s.(paused := false)}
    ensures !SameSimulation(s, was) ==> PauseAfterFailure(s, epoch, was, step, reply, net).0 == s
  {
  }

  /** The draft's project is on the server after a failure only when the reply to its project command was lost. */
  lemma FailureAppliesOnlyUnheard(s: Server, draft: Draft, net: Network)
    requires Apply(s, draft, net).1.Failed? && Apply(s, draft, net).0.project != s.project
    ensures net.project.Handled? && !net.project.replied && Replaced(s, Apply(s, draft, net).0, draft)
  {
    var epoch := EpochOf(s, draft);
    FailureLeaves(s, epoch, s, Check, NoReply, net);
    var (paused, first) := Post(s, Command(epoch, "", Pause(true)), net.pause);
    assert paused in {s, s.(paused := true)};
    FailureLeaves(paused, epoch, s, PauseStep, first, net);
    var (after, second) := Post(paused, Command(epoch, draft.start, ApplyProject(draft.revision, draft.project)),
                                net.project);
    FailureLeaves(after, epoch, s, ProjectStep, second, net);
  }

  /** Left-paused is true exactly when the pause command took effect and the resume command did not. */
  lemma LeftPausedExact(s: Server, draft: Draft, net: Network)
    requires Apply(s, draft, net).1 == Failed(LeftPaused)
    ensures !s.paused
    ensures Apply(s, draft, net).0.paused <==>
      EpochOf(s, draft) == s.epoch && Reached(net.pause) && !(net.read && Reached(net.resume))
  {
  }

  /** It is false, for example, when only the reply to the resume command is lost. */
  lemma LeftPausedCanBeFalse()
    ensures exists s: Server, draft: Draft, net: Network ::
      Apply(s, draft, net).1 == Failed(LeftPaused) && !Apply(s, draft, net).0.paused && net.read && Reached(net.pause)
  {
    var fine := Checks(true, true);
    var s := Plain("s", "a").(paused := false);
    var draft := Draft("b", 1, "s", "e", true);
    var net := Network(true, Handled(fine, true), Lost, true, Handled(fine, false));
    assert Apply(s, draft, net).1 == Failed(LeftPaused);
  }

  /** An apply changes the project only of the revision and the process that the draft names. */
  lemma ApplyReplacesItsRevision(s: Server, draft: Draft, net: Network)
    requires Apply(s, draft, net).0.project != s.project
    ensures draft.revision == s.revision && draft.start in {"", s.start}
  {
  }

  /** A draft that has the revision and the start ID of an accepted snapshot replaces no other project,
      after any history of the server. */
  lemma ApplyReplacesItsBase(states: seq<Server>, moves: seq<Move>, pass: Pass, i: nat, j: nat, k: nat, n: nat,
                             draft: Draft, net: Network)
    requires IsHistory(states, moves) && FreshStarts(states, moves) && ReadAt(states, pass, i, j, k) && Consistent(pass)
    requires k <= n < |states| && draft.revision == pass.after.revision && draft.start == pass.after.start
    requires Apply(states[n], draft, net).0.project != states[n].project
    ensures states[n].project == pass.project.project
  {
    ApplyReplacesItsRevision(states[n], draft, net);
    AcceptedPairHeld(states, moves, pass, i, j, k);
    SameRevisionSameProject(states, moves, k, n);
  }

  // ----- what the editor sees -----

  /** The answers that reach the editor, one for each request. */
  datatype Answer =
    | SnapshotRead(pair: Option<(StateReply, ProjectReply)>)
    | CommandAnswered(reply: Reply)
    | StateRead(state: Option<StateReply>)

  function ResumeAnswers(s: Server, epoch: string, was: Server, step: Step, reply: Reply, net: Network): seq<Answer> {
    if was.paused || (step.PauseStep? && reply.Rejected? && 400 <= reply.status < 500) then []
    else if !net.read then [StateRead(None)]
    else if !SameSimulation(s, was) then [StateRead(Some(StateOf(s)))]
    else [StateRead(Some(StateOf(s))), CommandAnswered(Post(s, Command(epoch, "", Pause(false)), net.resume).1)]
  }

  function Answers(s: Server, draft: Draft, net: Network): seq<Answer> {
    var epoch := EpochOf(s, draft);
    var first := [SnapshotRead(if net.snapshot then Some((StateOf(s), ProjectOf(s))) else None)];
    if !draft.fits then []
    else if !Passes(s, draft, net) then first
    else
      var (paused, pause) := Post(s, Command(epoch, "", Pause(true)), net.pause);
      if !pause.Accepted? then first + [CommandAnswered(pause)] + ResumeAnswers(paused, epoch, s, PauseStep, pause, net)
      else
        var (after, reply) := Post(paused, Command(epoch, draft.start, ApplyProject(draft.revision, draft.project)),
                                   net.project);
        first + [CommandAnswered(pause), CommandAnswered(reply)]
        + if reply.Accepted? then [] else ResumeAnswers(after, epoch, s, ProjectStep, reply, net)
  }

  lemma ResumeIsSeen(s: Server, was: Server, net: Network, s': Server, was': Server, net': Network,
                     epoch: string, step: Step, reply: Reply)
    requires StateOf(was) == StateOf(was') && !step.Check?
    requires ResumeAnswers(s, epoch, was, step, reply, net) == ResumeAnswers(s', epoch, was', step, reply, net')
    ensures PauseAfterFailure(s, epoch, was, step, reply, net).1
      == PauseAfterFailure(s', epoch, was', step, reply, net').1
  {
    var seen, seen' := ResumeAnswers(s, epoch, was, step, reply, net),
      ResumeAnswers(s', epoch, was', step, reply, net');
    if seen != [] {
      assert seen[0] == StateRead(if net.read then Some(StateOf(s)) else None);
      assert seen'[0] == StateRead(if net'.read then Some(StateOf(s')) else None);
      if |seen| == 2 {
        assert seen[1] == CommandAnswered(Post(s, Command(epoch, "", Pause(false)), net.resume).1);
        assert seen'[1] == CommandAnswered(Post(s', Command(epoch, "", Pause(false)), net'.resume).1);
      }
    }
  }

  /** The outcome depends on the answers alone. */
  lemma OutcomeIsSeen(s: Server, net: Network, s': Server, net': Network, draft: Draft)
    requires Answers(s, draft, net) == Answers(s', draft, net')
    ensures Apply(s, draft, net).1 == Apply(s', draft, net').1
  {
    if draft.fits {
      var seen, seen' := Answers(s, draft, net), Answers(s', draft, net');
      assert seen[0] == SnapshotRead(if net.snapshot then Some((StateOf(s), ProjectOf(s))) else None);
      assert seen'[0] == SnapshotRead(if net'.snapshot then Some((StateOf(s'), ProjectOf(s'))) else None);
      if Passes(s, draft, net) {
        OutcomeAfterPause(s, net, s', net', draft);
      }
    }
  }

  lemma OutcomeAfterPause(s: Server, net: Network, s': Server, net': Network, draft: Draft)
    requires Answers(s, draft, net) == Answers(s', draft, net') && StateOf(s) == StateOf(s')
    requires Passes(s, draft, net) && Passes(s', draft, net')
    ensures Apply(s, draft, net).1 == Apply(s', draft, net').1
  {
    var epoch := EpochOf(s, draft);
    var seen, seen' := Answers(s, draft, net), Answers(s', draft, net');
    var (paused, pause) := Post(s, Command(epoch, "", Pause(true)), net.pause);
    var (paused', pause') := Post(s', Command(epoch, "", Pause(true)), net'.pause);
    assert seen[1] == CommandAnswered(pause) && seen'[1] == CommandAnswered(pause');
    if pause.Accepted? {
      var command := Command(epoch, draft.start, ApplyProject(draft.revision, draft.project));
      var (after, reply) := Post(paused, command, net.project);
      var (after', reply') := Post(paused', command, net'.project);
      assert seen[2] == CommandAnswered(reply) && seen'[2] == CommandAnswered(reply');
      if !reply.Accepted? {
        assert seen[3..] == ResumeAnswers(after, epoch, s, ProjectStep, reply, net);
        assert seen'[3..] == ResumeAnswers(after', epoch, s', ProjectStep, reply, net');
        ResumeIsSeen(after, s, net, after', s', net', epoch, ProjectStep, reply);
      }
    } else {
      assert seen[2..] == ResumeAnswers(paused, epoch, s, PauseStep, pause, net);
      assert seen'[2..] == ResumeAnswers(paused', epoch, s', PauseStep, pause, net');
      ResumeIsSeen(paused, s, net, paused', s', net', epoch, PauseStep, pause);
    }
  }

  /** Whether left-paused is true cannot be told from the answers: they can agree while the pause flags differ. */
  lemma LeftPausedHidden()
    ensures exists s: Server, draft: Draft, net: Network, net': Network ::
      && Apply(s, draft, net).1 == Failed(LeftPaused) && Answers(s, draft, net) == Answers(s, draft, net')
      && Apply(s, draft, net).0.paused && !Apply(s, draft, net').0.paused
  {
    var fine := Checks(true, true);
    var s := Plain("s", "a").(paused := false);
    var draft := Draft("b", 1, "s", "e", true);
    var lost := Network(true, Handled(fine, true), Lost, true, Lost);
    var unheard := Network(true, Handled(fine, true), Lost, true, Handled(fine, false));
    assert Apply(s, draft, lost).0.paused && !Apply(s, draft, unheard).0.paused;
    assert Answers(s, draft, lost) == Answers(s, draft, unheard);
  }
}
