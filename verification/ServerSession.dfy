/** The session of a server process as its project commands see it, and what two reads of it prove. */
module ServerSession {
  import opened Basics

  /** A project in its canonical form, so that equal projects are equal texts. */
  type Project = string

  datatype Checkpoint = Checkpoint(origin: nat, project: Project)

  /** `origin` is the revision that first installed the project. */
  datatype Server = Server(start: string, epoch: string, revision: nat, origin: nat, generation: nat, project: Project,
                           paused: bool, checkpoints: seq<Checkpoint>)

  datatype Action =
    | Pause(paused: bool)
    | ApplyProject(revision: nat, project: Project)
    | SetDemand(project: Project)
    | Capture
    | Rewind(index: nat)
    | Reset
    | StartDemo(paused: bool)
    | Other

  datatype Command = Command(epoch: string, start: string, action: Action)

  /** What the model leaves to the world: whether a project or a demand is valid, whether its file is saved. */
  datatype Checks = Checks(valid: bool, saved: bool)

  datatype Rejection = SessionChanged | MustPause | StaleProject | Invalid | NoCheckpoint

  const CHECKPOINT_LIMIT: nat := 8

  function Install(s: Server, project: Project): Server {
    s.(project := project, revision := s.revision + 1, origin := s.revision + 1)
  }

  function Applied(s: Server, revision: nat, project: Project, checks: Checks): (Server, Option<Rejection>) {
    if !s.paused then (s, Some(MustPause))
    else if revision != s.revision then (s, Some(StaleProject))
    else if !checks.valid then (s, Some(Invalid))
    else if project == s.project then (s, None)
    else if !checks.saved then (s, Some(Invalid))
    else (Install(s, project).(generation := s.generation + 1, paused := true), None)
  }

  function Captured(s: Server): seq<Checkpoint> {
    (if |s.checkpoints| >= CHECKPOINT_LIMIT then s.checkpoints[1..] else s.checkpoints)
      + [Checkpoint(s.origin, s.project)]
  }

  /** A rewind pauses. It installs the project of the save point when its origin differs. */
  function Rewound(s: Server, index: nat, checks: Checks): (Server, Option<Rejection>) {
    if index >= |s.checkpoints| then (s, Some(NoCheckpoint))
    else
      var entry := s.checkpoints[index];
      var next := s.(paused := true, generation := s.generation + 1);
      if entry.origin == s.origin then (next, None)
      else if !checks.saved then (s, Some(Invalid))
      else (next.(project := entry.project, origin := entry.origin, revision := s.revision + 1), None)
  }

  function Handle(s: Server, command: Command, checks: Checks): (Server, Option<Rejection>) {
    if command.epoch != s.epoch then (s, Some(SessionChanged))
    else if command.action.ApplyProject? && command.start != "" && command.start != s.start then
      (s, Some(SessionChanged))
    else match command.action
      case Pause(paused) => (s.(paused := paused), None)
      case ApplyProject(revision, project) => Applied(s, revision, project, checks)
      case SetDemand(project) => if checks.valid && checks.saved then (Install(s, project), None)
                                 else (s, Some(Invalid))
      case Capture => (s.(checkpoints := Captured(s)), None)
      case Rewind(index) => Rewound(s, index, checks)
      case Reset => (s.(generation := s.generation + 1), None)
      case StartDemo(paused) => if checks.valid then (s.(generation := s.generation + 1, paused := paused), None)
                                else (s, Some(Invalid))
      case Other => (s, None)
  }

  // ----- one process -----

  /** Revisions name projects by their origin: two holders of one origin hold one project. */
  ghost predicate OriginsAgree(s: Server) {
    && s.origin <= s.revision
    && (forall c :: c in s.checkpoints ==> c.origin <= s.revision && (c.origin == s.origin ==> c.project == s.project))
    && forall c, d :: c in s.checkpoints && d in s.checkpoints && c.origin == d.origin ==> c.project == d.project
  }

  lemma OriginsKept(s: Server, command: Command, checks: Checks)
    requires OriginsAgree(s)
    ensures OriginsAgree(Handle(s, command, checks).0)
  {
    var s' := Handle(s, command, checks).0;
    if s'.checkpoints != s.checkpoints {
      assert s'.checkpoints == Captured(s);
      assert forall c :: c in s'.checkpoints ==> c in s.checkpoints || c == Checkpoint(s.origin, s.project);
    }
  }

  /** An accepted rewind always gives the project of its save point, whether or not it installs it. */
  lemma RewindRestores(s: Server, command: Command, checks: Checks)
    requires OriginsAgree(s) && command.action.Rewind?
    requires Handle(s, command, checks).1 == None
    ensures var index := command.action.index;
      index < |s.checkpoints| && Handle(s, command, checks).0.project == s.checkpoints[index].project
      && Handle(s, command, checks).0.paused && Handle(s, command, checks).0.checkpoints == s.checkpoints
  {
    assert s.checkpoints[command.action.index] in s.checkpoints;
  }

  /** No command moves a revision back, and a different project has a different revision. */
  lemma RevisionNamesProject(s: Server, command: Command, checks: Checks)
    ensures var s' := Handle(s, command, checks).0;
      s'.start == s.start && s'.epoch == s.epoch && s'.revision >= s.revision &&
        (s'.revision == s.revision ==> s'.project == s.project)
  {
  }

  /** A project command replaces the project only of a paused session at its revision and, when it names one, of its
      process. */
  lemma ReplacesOnlyItsRevision(s: Server, command: Command, checks: Checks)
    requires command.action.ApplyProject? && Handle(s, command, checks).0.project != s.project
    ensures s.paused && command.action.revision == s.revision && command.epoch == s.epoch &&
            command.start in {"", s.start}
    ensures var s' := Handle(s, command, checks).0;
      s'.project == command.action.project && s'.revision == s.revision + 1 && s'.generation == s.generation + 1 &&
        s'.paused
  {
  }

  // ----- a server over its restarts -----

  /** A restart restores any saved session, under a start ID of its own. */
  datatype Move = Served(command: Command, checks: Checks) | Restarted(server: Server)

  function After(s: Server, move: Move): Server {
    match move case Served(command, checks) => Handle(s, command, checks).0 case Restarted(server) => server
  }

  ghost predicate IsHistory(states: seq<Server>, moves: seq<Move>) {
    |states| == |moves| + 1 && forall k :: 0 <= k < |moves| ==> states[k + 1] == After(states[k], moves[k])
  }

  /** Start IDs are not empty and never used again. */
  ghost predicate FreshStarts(states: seq<Server>, moves: seq<Move>) {
    && (forall k :: 0 <= k < |states| ==> states[k].start != "")
    && forall j, k :: 0 <= j <= k < |moves| && k < |states| && j < |states| && moves[k].Restarted? ==>
         moves[k].server.start != states[j].start
  }

  /** No restart leads to a start ID that a state already had. */
  lemma NoRestartBack(states: seq<Server>, moves: seq<Move>, j: nat, k: nat)
    requires IsHistory(states, moves) && FreshStarts(states, moves) && j < k < |states| &&
             states[j].start == states[k].start
    ensures moves[k - 1].Served? && states[k - 1].start == states[j].start
  {
    if moves[k - 1].Restarted? {
      assert false;
    }
    RevisionNamesProject(states[k - 1], moves[k - 1].command, moves[k - 1].checks);
  }

  /** Two states with one start ID are states of one process. */
  lemma {:induction false} OneProcess(states: seq<Server>, moves: seq<Move>, i: nat, j: nat, k: nat)
    requires IsHistory(states, moves) && FreshStarts(states, moves) && i <= j <= k < |states| &&
             states[i].start == states[k].start
    ensures states[j].start == states[i].start
    decreases k - j
  {
    if j < k {
      NoRestartBack(states, moves, i, k);
      OneProcess(states, moves, i, j, k - 1);
    }
  }

  /** In one process a revision comes back only with the same project. */
  lemma {:induction false} SameRevisionSameProject(states: seq<Server>, moves: seq<Move>, j: nat, k: nat)
    requires IsHistory(states, moves) && FreshStarts(states, moves) && j <= k < |states| &&
             states[j].start == states[k].start
    ensures states[j].epoch == states[k].epoch && states[j].revision <= states[k].revision
    ensures states[j].revision == states[k].revision ==> states[j].project == states[k].project
    decreases k - j
  {
    if j < k {
      NoRestartBack(states, moves, j, k);
      RevisionNamesProject(states[k - 1], moves[k - 1].command, moves[k - 1].checks);
      SameRevisionSameProject(states, moves, j, k - 1);
    }
  }

  // ----- the snapshot of a page -----

  datatype StateReply = StateReply(start: string, epoch: string, revision: nat, generation: nat, paused: bool)

  datatype ProjectReply = ProjectReply(revision: nat, project: Project)

  function StateOf(s: Server): StateReply {
    StateReply(s.start, s.epoch, s.revision, s.generation, s.paused)
  }

  function ProjectOf(s: Server): ProjectReply {
    ProjectReply(s.revision, s.project)
  }

  /** One pass reads the state, the project, and the state again. */
  datatype Pass = Pass(before: StateReply, project: ProjectReply, after: StateReply)

  predicate Consistent(pass: Pass) {
    pass.before.start == pass.after.start && pass.before.epoch == pass.after.epoch &&
      pass.project.revision == pass.after.revision
  }

  const SNAPSHOT_ATTEMPTS: nat := 3

  /** A read gives a reply, gives a reply without the awaited content, or fails. */
  datatype Read<T> = Got(value: T) | Empty | Broken

  /** The reads of one pass as they come. */
  datatype Reads = Reads(before: Read<StateReply>, project: Read<ProjectReply>, after: Read<StateReply>)

  datatype Snapshot = Taken(pass: Pass) | NoScenario | ReadFailed | Unstable

  /** A failed read, or a project reply without a scenario, ends the reading with an error. */
  predicate Aborts(read: Reads) {
    read.before.Broken? || read.project.Broken? || read.after.Broken? || read.project.Empty?
  }

  function ErrorOf(read: Reads): Snapshot
    requires Aborts(read)
  {
    if read.before.Broken? || read.project.Broken? || read.after.Broken? then ReadFailed else NoScenario
  }

  /** A state read without a state makes its pass inconsistent. */
  predicate Accepts(read: Reads) {
    && read.before.Got? && read.project.Got? && read.after.Got?
    && Consistent(Pass(read.before.value, read.project.value, read.after.value))
  }

  predicate GoesOn(read: Reads) {
    !Aborts(read) && !Accepts(read)
  }

  /** The pass that decides: all the passes before it go on. */
  ghost predicate Decides(passes: seq<Reads>, k: nat) {
    k < |passes| && !GoesOn(passes[k]) && forall j :: 0 <= j < k ==> GoesOn(passes[j])
  }

  function Result(read: Reads): Snapshot
    requires !GoesOn(read)
  {
    if Aborts(read) then ErrorOf(read) else Taken(Pass(read.before.value, read.project.value, read.after.value))
  }

  /** The first pass that is consistent or that fails decides. Without one the scenario changed during each read. */
  method ReadSnapshot(passes: seq<Reads>) returns (snapshot: Snapshot)
    requires |passes| == SNAPSHOT_ATTEMPTS
    ensures snapshot == Unstable <==> forall k :: 0 <= k < |passes| ==> GoesOn(passes[k])
    ensures forall k: nat :: Decides(passes, k) ==> snapshot == Result(passes[k])
  {
    for pass := 0 to SNAPSHOT_ATTEMPTS
      invariant forall j :: 0 <= j < pass ==> GoesOn(passes[j])
    {
      if !GoesOn(passes[pass]) {
        assert forall k: nat :: Decides(passes, k) ==> k == pass;
        return Result(passes[pass]);
      }
    }
    snapshot := Unstable;
  }

  /** An accepted snapshot has one start ID, one epoch and one revision in its three reads. */
  lemma TakenIsConsistent(passes: seq<Reads>, k: nat)
    requires Decides(passes, k) && !Aborts(passes[k])
    ensures var read := passes[k];
      && read.before.Got? && read.project.Got? && read.after.Got?
      && Result(read) == Taken(Pass(read.before.value, read.project.value, read.after.value))
      && read.before.value.start == read.after.value.start && read.before.value.epoch == read.after.value.epoch
      && read.project.value.revision == read.after.value.revision
  {
  }

  /** A pass is read again exactly when its three reads came, with a scenario, and they do not agree. */
  lemma GoesOnExactly(read: Reads)
    ensures GoesOn(read) <==>
      && read.before != Broken && read.project.Got? && read.after != Broken
      && (read.before == Empty || read.after == Empty || read.before.value.start != read.after.value.start
          || read.before.value.epoch != read.after.value.epoch
          || read.project.value.revision != read.after.value.revision)
  {
  }

  /** The reads of the pass were answered in states i, j and k. */
  ghost predicate ReadAt(states: seq<Server>, pass: Pass, i: nat, j: nat, k: nat) {
    && i <= j <= k < |states|
    && pass.before == StateOf(states[i]) && pass.project == ProjectOf(states[j]) && pass.after == StateOf(states[k])
  }

  /** An accepted pair was held by one server state, whatever happened between the reads. */
  lemma AcceptedPairHeld(states: seq<Server>, moves: seq<Move>, pass: Pass, i: nat, j: nat, k: nat)
    requires IsHistory(states, moves) && FreshStarts(states, moves) && ReadAt(states, pass, i, j, k) && Consistent(pass)
    ensures pass.project == ProjectOf(states[k]) && pass.after == StateOf(states[k])
  {
    OneProcess(states, moves, i, j, k);
    SameRevisionSameProject(states, moves, j, k);
  }

  /** When nothing changes during a pass, the pass is accepted. */
  lemma QuietPassAccepted(states: seq<Server>, pass: Pass, i: nat, j: nat, k: nat)
    requires ReadAt(states, pass, i, j, k) && ProjectOf(states[j]) == ProjectOf(states[k])
    requires states[i].start == states[k].start && states[i].epoch == states[k].epoch
    ensures Consistent(pass)
  {
  }

  /** A project command with the revision and the start ID of an accepted pair replaces no other project. */
  lemma ReplacesOnlyItsBase(states: seq<Server>, moves: seq<Move>, pass: Pass, i: nat, j: nat, k: nat, n: nat)
    requires IsHistory(states, moves) && FreshStarts(states, moves) && ReadAt(states, pass, i, j, k) && Consistent(pass)
    requires k <= n < |moves| && moves[n].Served? && moves[n].command.action.ApplyProject?
    requires moves[n].command.action.revision == pass.after.revision && moves[n].command.start == pass.after.start
    requires states[n + 1].project != states[n].project
    ensures states[n].project == pass.project.project
  {
    AcceptedPairHeld(states, moves, pass, i, j, k);
    ReplacesOnlyItsRevision(states[n], moves[n].command, moves[n].checks);
    SameRevisionSameProject(states, moves, k, n);
  }

  // ----- why the start ID is needed -----

  function Plain(start: string, project: Project): Server {
    Server(start, "e", 1, 1, 1, project, true, [])
  }

  /** Without start IDs a restart between the reads can go unseen: the accepted project is not that of the accepted
      state. */
  lemma MissingStartMixes()
    ensures exists states: seq<Server>, moves: seq<Move>, pass: Pass ::
      IsHistory(states, moves) && Named(states, moves, false) && ReadAt(states, pass, 0, 0, 1) && Consistent(pass)
      && pass.project != ProjectOf(states[1])
  {
    var states, moves := [Plain("", "a"), Plain("", "b")], [Restarted(Plain("", "b"))];
    var pass := Pass(StateOf(states[0]), ProjectOf(states[0]), StateOf(states[1]));
    assert IsHistory(states, moves) && Named(states, moves, false) && ReadAt(states, pass, 0, 0, 1);
  }

  /** A project command without a start ID can replace the project of another process, though all IDs are fresh. */
  lemma EmptyStartReplacesOther()
    ensures exists states: seq<Server>, moves: seq<Move>, pass: Pass ::
      && IsHistory(states, moves) && FreshStarts(states, moves) && |moves| == 2 && ReadAt(states, pass, 0, 0, 0)
      && Consistent(pass)
      && moves[1].Served? && moves[1].command.action == ApplyProject(pass.after.revision, "c")
      && moves[1].command.start == ""
      && states[2].project != states[1].project && states[1].project != pass.project.project
  {
    var states := [Plain("s", "a"), Plain("t", "b"),
                   After(Plain("t", "b"), Served(Command("e", "", ApplyProject(1, "c")), Checks(true, true)))];
    var moves := [Restarted(Plain("t", "b")), Served(Command("e", "", ApplyProject(1, "c")), Checks(true, true))];
    var pass := Pass(StateOf(states[0]), ProjectOf(states[0]), StateOf(states[0]));
    assert IsHistory(states, moves) && FreshStarts(states, moves) && ReadAt(states, pass, 0, 0, 0);
  }

  /** Without a start ID the guarantee lasts as long as the process that the draft was read from. */
  lemma EmptyStartInOneProcess(states: seq<Server>, moves: seq<Move>, pass: Pass, i: nat, j: nat, k: nat, n: nat)
    requires IsHistory(states, moves) && FreshStarts(states, moves) && ReadAt(states, pass, i, j, k) && Consistent(pass)
    requires k <= n < |moves| && moves[n].Served? && moves[n].command.action.ApplyProject?
    requires moves[n].command.action.revision == pass.after.revision && states[n + 1].project != states[n].project
    requires states[n].start == pass.after.start
    ensures states[n].project == pass.project.project
  {
    AcceptedPairHeld(states, moves, pass, i, j, k);
    ReplacesOnlyItsRevision(states[n], moves[n].command, moves[n].checks);
    SameRevisionSameProject(states, moves, k, n);
  }

  // ----- the exact guarantees -----

  /** A draft is based on an accepted pass, and later a project command with its revision replaces the project. */
  ghost predicate Replacement(states: seq<Server>, moves: seq<Move>, pass: Pass, i: nat, j: nat, k: nat, n: nat,
                              start: string) {
    && IsHistory(states, moves) && FreshStarts(states, moves) && ReadAt(states, pass, i, j, k) && Consistent(pass)
    && k <= n < |moves| && moves[n].Served? && moves[n].command.action.ApplyProject?
    && moves[n].command.action.revision == pass.after.revision && moves[n].command.start == start
    && states[n + 1].project != states[n].project
  }

  /** Whether a command replaces only its base, when it sends the start ID of its draft or when it sends none. */
  ghost predicate Guarded(sends: bool) {
    forall states: seq<Server>, moves: seq<Move>, pass: Pass, i: nat, j: nat, k: nat, n: nat, start: string ::
      Replacement(states, moves, pass, i, j, k, n, start) && start == (if sends then pass.after.start else "") ==>
        states[n].project == pass.project.project
  }

  /** The guarantee holds for every history exactly when the command sends a start ID. */
  lemma GuardedExactly(sends: bool)
    ensures Guarded(sends) <==> sends
  {
    if sends {
      forall states: seq<Server>, moves: seq<Move>, pass: Pass, i: nat, j: nat, k: nat, n: nat, start: string |
        Replacement(states, moves, pass, i, j, k, n, start) && start == pass.after.start
        ensures states[n].project == pass.project.project
      {
        ReplacesOnlyItsBase(states, moves, pass, i, j, k, n);
      }
    } else {
      EmptyStartReplacesOther();
      var states: seq<Server>, moves: seq<Move>, pass: Pass :|
        && IsHistory(states, moves) && FreshStarts(states, moves) && |moves| == 2 && ReadAt(states, pass, 0, 0, 0)
        && Consistent(pass)
        && moves[1].Served? && moves[1].command.action == ApplyProject(pass.after.revision, "c")
        && moves[1].command.start == ""
        && states[2].project != states[1].project && states[1].project != pass.project.project;
      assert Replacement(states, moves, pass, 0, 0, 0, 1, "");
    }
  }

  /** A server names its processes by fresh start IDs, or it has no start IDs. */
  ghost predicate Named(states: seq<Server>, moves: seq<Move>, ids: bool) {
    if ids then FreshStarts(states, moves) else forall k :: 0 <= k < |states| ==> states[k].start == ""
  }

  ghost predicate Exact(ids: bool) {
    forall states: seq<Server>, moves: seq<Move>, pass: Pass, i: nat, j: nat, k: nat ::
      IsHistory(states, moves) && Named(states, moves, ids) && ReadAt(states, pass, i, j, k) && Consistent(pass) ==>
        pass.project == ProjectOf(states[k])
  }

  /** Accepted pairs are single server states in every history exactly when the server has start IDs. */
  lemma ExactExactly(ids: bool)
    ensures Exact(ids) <==> ids
  {
    if ids {
      forall states: seq<Server>, moves: seq<Move>, pass: Pass, i: nat, j: nat, k: nat |
        IsHistory(states, moves) && Named(states, moves, ids) && ReadAt(states, pass, i, j, k) && Consistent(pass)
        ensures pass.project == ProjectOf(states[k])
      {
        AcceptedPairHeld(states, moves, pass, i, j, k);
      }
    } else {
      MissingStartMixes();
      var states: seq<Server>, moves: seq<Move>, pass: Pass :| IsHistory(states, moves) && Named(states, moves, false)
        && ReadAt(states, pass, 0, 0, 1) && Consistent(pass) && pass.project != ProjectOf(states[1]);
    }
  }
}
