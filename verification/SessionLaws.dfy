/** When the server accepts a command, and when an apply ends how, exactly. */
module SessionLaws {
  import opened Basics
  import opened ServerSession
  import opened ApplyProtocol

  // ----- one command -----

  /** A rejected command changes nothing. */
  lemma RejectedChangesNothing(s: Server, command: Command, checks: Checks)
    requires Handle(s, command, checks).1.Some?
    ensures Handle(s, command, checks).0 == s
  {
  }

  /** The server takes a project exactly in its epoch, in its process when the command names one, while it is paused, at
      the revision of the command, and when the project is valid and can be saved. */
  lemma ApplyAcceptedExactly(s: Server, epoch: string, start: string, revision: nat, project: Project, checks: Checks)
    ensures var (s', rejection) := Handle(s, Command(epoch, start, ApplyProject(revision, project)), checks);
            && (rejection == None <==>
                  && epoch == s.epoch && (start == "" || start == s.start) && s.paused && revision == s.revision
                  && checks.valid && (project == s.project || checks.saved))
            && (rejection == None ==>
                  s' == if project == s.project then s
                        else s.(project := project, revision := s.revision + 1, origin := s.revision + 1,
                                generation := s.generation + 1))
  {
  }

  /** A pause or a resume is refused in another epoch only, and changes only the flag. */
  lemma PauseAcceptedExactly(s: Server, epoch: string, start: string, paused: bool, checks: Checks)
    ensures var (s', rejection) := Handle(s, Command(epoch, start, Pause(paused)), checks);
            (rejection == None <==> epoch == s.epoch) && (rejection == None ==> s' == s.(paused := paused))
  {
  }

  /** A demand change installs its project under a new revision, without a pause or a restart, when it is valid and
      saved. A reset restarts the simulation alone, and a demo does so when it is valid, with its own pause flag. */
  lemma OthersAcceptedExactly(s: Server, start: string, project: Project, paused: bool, checks: Checks)
    ensures Handle(s, Command(s.epoch, start, SetDemand(project)), checks) ==
            if checks.valid && checks.saved
            then (s.(project := project, revision := s.revision + 1, origin := s.revision + 1), None)
            else (s, Some(Invalid))
    ensures Handle(s, Command(s.epoch, start, Reset), checks) == (s.(generation := s.generation + 1), None)
    ensures Handle(s, Command(s.epoch, start, StartDemo(paused)), checks) ==
            if checks.valid then (s.(generation := s.generation + 1, paused := paused), None) else (s, Some(Invalid))
  {
  }

  /** A capture saves the project as the newest save point, keeps the seven before it, and changes nothing else. */
  lemma CaptureSaves(s: Server, start: string, checks: Checks)
    requires |s.checkpoints| <= 8
    ensures var s' := Handle(s, Command(s.epoch, start, Capture), checks).0;
            var n := |s'.checkpoints|;
            && 1 <= n <= 8 && s'.checkpoints[n - 1] == Checkpoint(s.origin, s.project)
            && s'.checkpoints[..n - 1] == (if |s.checkpoints| == 8 then s.checkpoints[1..] else s.checkpoints)
            && s' == s.(checkpoints := s'.checkpoints)
  {
  }

  /** A rewind needs a save point, and a save of its project when that is another one. It pauses the session, and gives
      the project back under a new revision. */
  lemma RewindExactly(s: Server, start: string, index: nat, checks: Checks)
    ensures var (s', rejection) := Handle(s, Command(s.epoch, start, Rewind(index)), checks);
            && (rejection == None <==>
                  index < |s.checkpoints| && (s.checkpoints[index].origin == s.origin || checks.saved))
            && (rejection == None ==>
                  var entry := s.checkpoints[index];
                  if entry.origin == s.origin then s' == s.(paused := true, generation := s.generation + 1)
                  else s' == s.(paused := true, generation := s.generation + 1, project := entry.project,
                                origin := entry.origin, revision := s.revision + 1))
  {
  }

  /** What a capture saved, a rewind gives back, whatever projects were applied since. */
  lemma CaptureThenRewind(s: Server, t: Server, start: string, checks: Checks, later: Checks)
    requires |s.checkpoints| <= 8 && t.epoch == s.epoch && OriginsAgree(t)
    requires t.checkpoints == Handle(s, Command(s.epoch, start, Capture), checks).0.checkpoints
    requires Handle(t, Command(t.epoch, start, Rewind(|t.checkpoints| - 1)), later).1 == None
    ensures Handle(t, Command(t.epoch, start, Rewind(|t.checkpoints| - 1)), later).0.project == s.project
  {
    CaptureSaves(s, start, checks);
    RewindRestores(t, Command(t.epoch, start, Rewind(|t.checkpoints| - 1)), later);
  }

  // ----- one apply -----

  /** The checks of the editor pass: the size, the snapshot, the start ID and the revision. */
  ghost predicate Checked(s: Server, draft: Draft, net: Network) {
    && draft.fits && net.snapshot && draft.revision == s.revision
    && (draft.start == "" || s.start == "" || draft.start == s.start)
  }

  /** The connection knows the epoch of the server, or learns it from the snapshot. */
  ghost predicate InEpoch(s: Server, draft: Draft) {
    draft.epoch == "" || draft.epoch == s.epoch
  }

  ghost predicate Heard(fate: Fate) {
    fate.Handled? && fate.replied
  }

  ghost predicate PauseHeard(s: Server, draft: Draft, net: Network) {
    Heard(net.pause) && InEpoch(s, draft)
  }

  ghost predicate ProjectHeard(s: Server, draft: Draft, net: Network) {
    && Heard(net.project) && (draft.start == "" || draft.start == s.start)
    && net.project.checks.valid && (draft.project == s.project || net.project.checks.saved)
  }

  /** The pause command got a 4xx status, from the way or from the server. */
  ghost predicate PauseRefused(s: Server, draft: Draft, net: Network) {
    match net.pause
    case Lost => false
    case Refused(status) => 400 <= status < 500
    case Handled(_, replied) => replied && !InEpoch(s, draft)
  }

  lemma PausePost(s: Server, draft: Draft, net: Network)
    ensures var (paused, first) := Post(s, Command(EpochOf(s, draft), "", Pause(true)), net.pause);
            && (first.Accepted? <==> PauseHeard(s, draft, net))
            && ((first.Rejected? && 400 <= first.status < 500) <==> PauseRefused(s, draft, net))
            && paused == (if net.pause.Handled? && InEpoch(s, draft) then s.(paused := true) else s)
  {
  }

  lemma ProjectPost(s: Server, draft: Draft, net: Network)
    requires s.paused && draft.revision == s.revision && InEpoch(s, draft)
    ensures var (after, second) :=
              Post(s, Command(EpochOf(s, draft), draft.start, ApplyProject(draft.revision, draft.project)),
                   net.project);
            && (second.Accepted? <==> ProjectHeard(s, draft, net))
            && (second.Accepted? ==> second.revision == if draft.project == s.project then s.revision
                else s.revision + 1)
  {
  }

  /** An apply succeeds exactly when its checks pass and both commands are handled and heard: the pause in the epoch of
      the server, and the project in its process, valid and saved. It then tells the revision of the project. */
  lemma DoneExactly(s: Server, draft: Draft, net: Network)
    ensures Apply(s, draft, net).1.Done? <==>
              Checked(s, draft, net) && PauseHeard(s, draft, net) && ProjectHeard(s, draft, net)
    ensures Apply(s, draft, net).1.Done? ==>
              Apply(s, draft, net).1.revision == if draft.project == s.project then s.revision else s.revision + 1
  {
    PausePost(s, draft, net);
    var paused := Post(s, Command(EpochOf(s, draft), "", Pause(true)), net.pause).0;
    if Checked(s, draft, net) && PauseHeard(s, draft, net) {
      PausedProject(s, paused, draft, net);
    }
  }

  lemma PausedProject(s: Server, paused: Server, draft: Draft, net: Network)
    requires paused == s.(paused := true) && draft.revision == s.revision && InEpoch(s, draft)
    ensures EpochOf(paused, draft) == EpochOf(s, draft)
    ensures var (after, second) := Post(paused, Command(EpochOf(s, draft), draft.start,
                                                        ApplyProject(draft.revision, draft.project)), net.project);
            && (second.Accepted? <==> ProjectHeard(s, draft, net))
            && (second.Accepted? ==> second.revision == if draft.project == s.project then s.revision
                else s.revision + 1)
  {
    ProjectPost(paused, draft, net);
  }

  /** An apply ends before it paused exactly when a check fails, or when the pause command of a running simulation got a
      4xx status. */
  lemma NotPausedExactly(s: Server, draft: Draft, net: Network)
    ensures Apply(s, draft, net).1 == Failed(NotPaused) <==>
              !Checked(s, draft, net) || (!s.paused && PauseRefused(s, draft, net))
  {
    PausePost(s, draft, net);
  }

  /** A failure leaves a simulation that was paused before alone. */
  lemma WasPausedExactly(s: Server, draft: Draft, net: Network)
    ensures Apply(s, draft, net).1 == Failed(WasPaused) <==>
              Checked(s, draft, net) && s.paused && !(PauseHeard(s, draft, net) && ProjectHeard(s, draft, net))
  {
    DoneExactly(s, draft, net);
  }

  /** A failure after the pause of a running simulation has one of three ends: resumed when the editor reads the same
      simulation and hears the resume command, restarted when it reads another one, and else left paused. */
  lemma ResumeExactly(s: Server, draft: Draft, net: Network)
    requires Checked(s, draft, net) && !s.paused && !PauseRefused(s, draft, net)
    requires !(PauseHeard(s, draft, net) && ProjectHeard(s, draft, net))
    ensures var outcome := Apply(s, draft, net).1;
            var landed := PauseHeard(s, draft, net) && Landed(s, draft, net);
            outcome == Failed(if !net.read then LeftPaused else if landed then SimulationRestarted
                              else if Heard(net.resume) && InEpoch(s, draft) then Resumed else LeftPaused)
  {
    DoneExactly(s, draft, net);
    PausePost(s, draft, net);
    var paused := Post(s, Command(EpochOf(s, draft), "", Pause(true)), net.pause).0;
    if PauseHeard(s, draft, net) {
      LandedPost(s, paused, draft, net);
    }
  }

  /** The project command replaced the project, though the editor did not hear of it. */
  ghost predicate Landed(s: Server, draft: Draft, net: Network) {
    && net.project.Handled? && (draft.start == "" || draft.start == s.start) && draft.project != s.project
    && net.project.checks.valid && net.project.checks.saved
  }

  lemma LandedPost(s: Server, paused: Server, draft: Draft, net: Network)
    requires paused == s.(paused := true) && draft.revision == s.revision && InEpoch(s, draft)
    ensures var after := Post(paused, Command(EpochOf(s, draft), draft.start,
                                              ApplyProject(draft.revision, draft.project)), net.project).0;
            after.generation == (if Landed(s, draft, net) then s.generation + 1 else s.generation)
            && after.epoch == s.epoch && after.paused
  {
  }
}
