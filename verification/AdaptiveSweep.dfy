/** The adaptive sweep: the scheduler, the pool that it feeds, and what every run gives. */
module AdaptiveSweep {
  import opened Basics
  import opened RateGroups
  import opened ArmGrouping
  import opened ArmPool
  import opened ArmRuns

  // ----- runs -----

  ghost predicate IsRun(s: Sweep, workers: nat, run: seq<Pool>) {
    && run != [] && run[0] == Start(s, workers)
    && forall k :: 0 <= k < |run| - 1 ==> Step(s, run[k], run[k + 1])
  }

  lemma {:induction false} RunInv(s: Sweep, workers: nat, run: seq<Pool>, k: nat)
    requires ValidSweep(s) && IsRun(s, workers, run) && k < |run|
    ensures Inv(s, run[k])
  {
    if k == 0 {
      StartInv(s, workers);
    } else {
      RunInv(s, workers, run, k - 1);
      StepInv(s, run[k - 1], run[k]);
    }
  }

  /** An arm that is queued, with a worker, or finished. */
  ghost predicate InPool(p: Pool, i: nat) {
    i in p.jobs || Held(p.workers, i) || Ended(p.finished, i)
  }

  /** No run ever queues an arm that the sequential rule skips. */
  lemma NeverStartsSkipped(s: Sweep, workers: nat, run: seq<Pool>, k: nat, i: nat)
    requires ValidSweep(s) && IsRun(s, workers, run) && k < |run|
    requires InPool(run[k], i)
    ensures Runs(s, i)
  {
    RunInv(s, workers, run, k);
    var p := run[k];
    assert Released(s, p.groups, i);
    var g := s.places[i].group;
    assert Current(s, p.groups[g], s.groups[g], Done(p.finished));
    StartsOnlyRule(p.groups[g], s.groups[g], s.pastLimit, s.outcomes, Done(p.finished));
  }

  ghost function Result(s: Sweep, i: nat): Option<Outcome> {
    if Runs(s, i) && i < |s.outcomes| then Some(s.outcomes[i]) else None
  }

  /** When nothing runs, exactly the arms of the rule have finished, each with its own outcome. */
  lemma SettledResults(s: Sweep, p: Pool)
    requires Inv(s, p) && p.running == 0
    ensures |p.finished| == |s.places|
    ensures forall i :: 0 <= i < |p.finished| ==> p.finished[i] == Result(s, i)
  {
    forall i: nat | i < |p.finished| ensures p.finished[i] == Result(s, i) {
      SettledArm(s, p, i);
    }
  }

  lemma SettledArm(s: Sweep, p: Pool, i: nat)
    requires Inv(s, p) && p.running == 0 && i < |s.places|
    ensures p.finished[i] == Result(s, i)
  {
    GroupInRange(s);
    var g := s.places[i].group;
    assert Current(s, p.groups[g], s.groups[g], Done(p.finished));
    forall r, j | 0 <= r < ReleaseEnd(p.groups[g]) && j in s.groups[g][r] ensures j in Done(p.finished) {
      assert InRate(s.groups, g, r, j);
      assert Released(s, p.groups, j);
      NoneHeld(p.workers, j);
    }
    StartsWholeRule(p.groups[g], s.groups[g], s.pastLimit, s.outcomes, Done(p.finished));
    NoneHeld(p.workers, i);
    assert Released(s, p.groups, i) <==> Ended(p.finished, i);
  }

  lemma {:induction false} NoneHeld(workers: seq<Worker>, i: nat)
    requires Busy(workers) == 0
    ensures !Held(workers, i)
  {
    if workers != [] {
      var rest := workers[..|workers| - 1];
      NoneHeld(rest, i);
      forall w | 0 <= w < |workers| ensures !Holds(workers[w], i) {
        if w < |rest| { assert !Holds(rest[w], i); }
      }
    }
  }

  /** Two complete runs agree on every result, whatever the pool sizes and the orders in which arms finish. */
  lemma Confluence(s: Sweep, workers: nat, run: seq<Pool>, workers': nat, run': seq<Pool>)
    requires ValidSweep(s) && IsRun(s, workers, run) && IsRun(s, workers', run')
    requires run[|run| - 1].running == 0 && run'[|run'| - 1].running == 0
    ensures run[|run| - 1].finished == run'[|run'| - 1].finished
    ensures forall i :: 0 <= i < |s.places| ==>
              (Ended(run[|run| - 1].finished, i) <==> Runs(s, i))
  {
    RunInv(s, workers, run, |run| - 1);
    RunInv(s, workers', run', |run'| - 1);
    SettledResults(s, run[|run| - 1]);
    SettledResults(s, run'[|run'| - 1]);
  }

  // ----- no deadlock -----

  /** The queue never holds more arms than the inputs, so a send to its buffer does not block. */
  lemma JobsFit(s: Sweep, p: Pool)
    requires Inv(s, p)
    ensures |p.jobs| <= |s.places|
  {
    forall a | 0 <= a < |p.jobs| ensures p.jobs[a] < |s.places| {
      assert p.jobs[a] in p.jobs && Released(s, p.groups, p.jobs[a]);
    }
    DistinctFits(p.jobs, |s.places|);
  }

  lemma DistinctFits(indices: seq<nat>, bound: nat)
    requires Distinct(indices) && forall a :: 0 <= a < |indices| ==> indices[a] < bound
    ensures |indices| <= bound
  {
    DistinctCount(indices);
    SubsetSize(Elements(indices), Below(bound));
  }

  lemma {:induction false} DistinctCount(indices: seq<nat>)
    requires Distinct(indices)
    ensures |Elements(indices)| == |indices|
  {
    if indices == [] {
      assert Elements(indices) == {};
    } else {
      var rest, last := indices[..|indices| - 1], indices[|indices| - 1];
      DistinctCount(rest);
      assert indices == rest + [last] && last !in rest;
      assert Elements(indices) == Elements(rest) + {last};
    }
  }

  /** While an arm is outstanding, some worker can make its step. */
  lemma NoDeadlock(s: Sweep, p: Pool)
    requires Inv(s, p) && p.running > 0 && p.workers != []
    ensures exists q :: Step(s, p, q)
  {
    if w :| 0 <= w < |p.workers| && p.workers[w].Running? {
      assert StepOf(s, p, End(p, w), w) && Step(s, p, End(p, w));
    } else if w :| 0 <= w < |p.workers| && p.workers[w].Sending? {
      SendingCanReceive(s, p, w);
      assert StepOf(s, p, Receive(s, p, w), w) && Step(s, p, Receive(s, p, w));
    } else {
      forall w | 0 <= w < |p.workers| ensures p.workers[w].Idle? {
        assert !p.workers[w].Running? && !p.workers[w].Sending?;
      }
      BusyIdle(p.workers);
      assert StepOf(s, p, Take(p, 0), 0) && Step(s, p, Take(p, 0));
    }
  }

  lemma {:induction false} PoolSize(s: Sweep, workers: nat, run: seq<Pool>, k: nat)
    requires ValidSweep(s) && IsRun(s, workers, run) && k < |run|
    ensures |run[k].workers| == Min(workers, |s.places|)
  {
    if k > 0 {
      PoolSize(s, workers, run, k - 1);
      assert Step(s, run[k - 1], run[k]);
    }
  }

  /** Every run of a pool with a worker can go on until nothing is outstanding. */
  lemma RunGoesOn(s: Sweep, workers: nat, run: seq<Pool>)
    requires ValidSweep(s) && IsRun(s, workers, run) && workers > 0
    requires run[|run| - 1].running > 0
    ensures exists q :: IsRun(s, workers, run + [q])
  {
    var p := run[|run| - 1];
    RunInv(s, workers, run, |run| - 1);
    PoolSize(s, workers, run, |run| - 1);
    JobsFit(s, p);
    assert |s.places| == 0 ==> p.workers == [];
    NoDeadlock(s, p);
    var q :| Step(s, p, q);
    var longer := run + [q];
    forall k | 0 <= k < |longer| - 1 ensures Step(s, longer[k], longer[k + 1]) {
      if k < |run| - 1 { assert longer[k + 1] == run[k + 1]; }
    }
    assert IsRun(s, workers, longer);
  }

  function RunningCount(workers: seq<Worker>): nat {
    if workers == [] then 0
    else RunningCount(workers[..|workers| - 1]) + if workers[|workers| - 1].Running? then 1 else 0
  }

  lemma {:induction false} RunningUpdate(workers: seq<Worker>, w: nat, worker: Worker)
    requires w < |workers|
    ensures RunningCount(workers[w := worker]) ==
            RunningCount(workers) - (if workers[w].Running? then 1 else 0) + (if worker.Running? then 1 else 0)
  {
    var last := |workers| - 1;
    if w < last {
      RunningUpdate(workers[..last], w, worker);
      assert workers[w := worker][..last] == workers[..last][w := worker];
    } else {
      assert workers[w := worker][..last] == workers[..last];
    }
  }

  ghost function Unended(finished: seq<Option<Outcome>>): nat {
    |set i: nat | i < |finished| && !Ended(finished, i)|
  }

  lemma UnendedUpdate(finished: seq<Option<Outcome>>, i: nat, outcome: Outcome)
    requires i < |finished| && !Ended(finished, i)
    ensures Unended(finished[i := Some(outcome)]) < Unended(finished)
  {
    var later := finished[i := Some(outcome)];
    var before := set j: nat | j < |finished| && !Ended(finished, j);
    var after := set j: nat | j < |later| && !Ended(later, j);
    forall j: nat ensures Ended(later, j) <==> Ended(finished, j) || j == i {}
    assert after == before - {i} && i in before;
  }

  /** Each step brings the pool closer to its end: fewer arms without a result, then fewer
      queued arms, then fewer running arms. */
  ghost predicate Closer(q: Pool, p: Pool) {
    var left, right := Unended(q.finished), Unended(p.finished);
    || left < right
    || (left == right && |q.jobs| < |p.jobs|)
    || (left == right && |q.jobs| == |p.jobs| && RunningCount(q.workers) < RunningCount(p.workers))
  }

  lemma StepCloser(s: Sweep, p: Pool, q: Pool)
    requires Inv(s, p) && Step(s, p, q)
    ensures Closer(q, p)
  {
    var w: nat :| StepOf(s, p, q, w);
    if CanEnd(p, w) {
      RunningUpdate(p.workers, w, Sending(p.workers[w].index));
    } else if CanReceive(s, p, w) {
      SendingCanReceive(s, p, w);
      UnendedUpdate(p.finished, p.workers[w].index, s.outcomes[p.workers[w].index]);
    }
  }

  // ----- the report -----

  datatype Report = Rows(rows: seq<string>) | Error(error: string)

  predicate FailedArm(arm: Option<Outcome>) {
    arm.Some? && arm.value.Failed?
  }

  /** The arms below `end` that ran. */
  ghost function RanBelow(finished: seq<Option<Outcome>>, end: nat): set<nat> {
    set j: nat | j < end && j < |finished| && finished[j].Some?
  }

  /** One row for each of the first `end` arms that ran, drained or not: its place is the number of arms that ran
      before. */
  ghost predicate RowsFit(finished: seq<Option<Outcome>>, end: nat, rows: seq<string>) {
    && |rows| == |RanBelow(finished, end)|
    && forall i: nat :: i < end && i < |finished| && finished[i].Some? && finished[i].value.Finished? ==>
         |RanBelow(finished, i)| < |rows| && rows[|RanBelow(finished, i)|] == finished[i].value.row
  }

  lemma RowsMore(finished: seq<Option<Outcome>>, end: nat, rows: seq<string>)
    requires end < |finished| && RowsFit(finished, end, rows)
    ensures finished[end].None? ==> RowsFit(finished, end + 1, rows)
    ensures finished[end].Some? && finished[end].value.Finished? ==>
              RowsFit(finished, end + 1, rows + [finished[end].value.row])
  {
    if finished[end].Some? {
      assert RanBelow(finished, end + 1) == RanBelow(finished, end) + {end};
    } else {
      assert RanBelow(finished, end + 1) == RanBelow(finished, end);
    }
  }

  /** The report is the error of the first failed arm in input order, or else one row for each arm that ran. */
  ghost predicate Reports(finished: seq<Option<Outcome>>, report: Report) {
    match report
    case Rows(rows) =>
      RowsFit(finished, |finished|, rows) && forall i :: 0 <= i < |finished| ==> !FailedArm(finished[i])
    case Error(error) =>
      exists i :: 0 <= i < |finished| && FailedArm(finished[i]) && finished[i].value.error == error &&
                  forall j :: 0 <= j < i ==> !FailedArm(finished[j])
  }

  method FinishedResults(finished: seq<Option<Outcome>>) returns (report: Report)
    ensures Reports(finished, report)
  {
    var rows: seq<string> := [];
    for i := 0 to |finished|
      invariant RowsFit(finished, i, rows)
      invariant forall j :: 0 <= j < i ==> !FailedArm(finished[j])
    {
      RowsMore(finished, i, rows);
      match finished[i] {
        case None =>
        case Some(Failed(error)) => return Error(error);
        case Some(Finished(row, _)) => rows := rows + [row];
      }
    }
    report := Rows(rows);
  }

  /** What the sequential rule leaves for the report: the outcome of each arm that it does not skip. */
  ghost function RuleResults(inputs: seq<RunInput>, pastLimit: nat, outcomes: seq<Outcome>)
    : (results: seq<Option<Outcome>>)
    requires |outcomes| == |inputs|
    ensures |results| == |inputs|
  {
    seq(|inputs|, i requires 0 <= i < |inputs| =>
      if Skipped(inputs, pastLimit, outcomes, i) then None else Some(outcomes[i]))
  }

  // ----- the scheduler -----

  /** The groups when the first `count` of them have released their first rates. */
  ghost function StartedUpTo(groups: seq<Group>, count: nat): (now: seq<Group>)
    ensures |now| == |groups|
  {
    seq(|groups|, g requires 0 <= g < |groups| => if g < count then AfterRelease(groups[g]) else groups[g])
  }

  lemma StartedNext(groups: seq<Group>, count: nat)
    requires count < |groups|
    ensures StartedUpTo(groups, count)[count] == groups[count]
    ensures StartedUpTo(groups, count)[count := AfterRelease(groups[count])] == StartedUpTo(groups, count + 1)
  {
  }

  lemma StartedEnds(groups: seq<Group>)
    ensures StartedUpTo(groups, 0) == groups && StartedUpTo(groups, |groups|) == Started(groups)
  {
  }

  class ArmScheduler {
    const groups: seq<RateGroup>
    const places: seq<ArmPlace>

    ghost predicate Valid()
      reads this, groups
    {
      && (forall g, h :: 0 <= g < h < |groups| ==> groups[g] != groups[h])
      && (forall g :: 0 <= g < |groups| ==> Shaped(groups[g].Contents()))
    }

    ghost function Contents(): (contents: seq<Group>)
      reads this, groups
      ensures |contents| == |groups|
      ensures forall g :: 0 <= g < |groups| ==> contents[g] == groups[g].Contents()
    {
      seq(|groups|, g requires 0 <= g < |groups| reads this, groups => groups[g].Contents())
    }

    constructor (inputs: seq<RunInput>, pastLimit: nat)
      ensures Valid() && fresh(groups)
      ensures exists rates :: PlacedBy(inputs, places, rates) && Contents() == NewGroups(rates, pastLimit)
    {
      var place, rates := PlaceArms(inputs);
      var all: seq<RateGroup> := [];
      for g := 0 to |rates|
        invariant |all| == g
        invariant forall h :: 0 <= h < g ==> fresh(all[h]) && all[h].Contents() == NewGroup(rates[h], pastLimit)
        invariant forall h, k :: 0 <= h < k < g ==> all[h] != all[k]
      {
        var group := new RateGroup(rates[g], pastLimit);
        all := all + [group];
      }
      groups, places := all, place;
      new;
      assert Contents() == NewGroups(rates, pastLimit);
    }

    /** Releases the first rates of every group. */
    method Start() returns (indices: seq<nat>)
      requires Valid()
      modifies groups
      ensures Valid() && Contents() == Started(old(Contents()))
      ensures AllShaped(old(Contents())) && indices == StartArms(old(Contents()), |old(Contents())|)
    {
      indices := [];
      ghost var before := Contents();
      assert AllShaped(before);
      StartedEnds(before);
      for g := 0 to |groups|
        invariant Valid() && Contents() == StartedUpTo(before, g)
        invariant indices == StartArms(before, g)
      {
        StartedNext(before, g);
        var released := ReleaseGroup(g);
        indices := indices + released;
      }
    }

    method ReleaseGroup(g: nat) returns (indices: seq<nat>)
      requires Valid() && g < |groups|
      modifies groups[g]
      ensures Valid() && Contents() == old(Contents())[g := AfterRelease(old(Contents())[g])]
      ensures indices == ReleasedArms(old(Contents())[g])
    {
      indices := groups[g].Release();
    }

    /** Passes an outcome on to its group. `indices` has the inputs that the group releases then. */
    method Finish(index: nat, drained: bool) returns (indices: seq<nat>)
      requires Valid() && index < |places| && places[index].group < |groups|
      requires places[index].rate < |Contents()[places[index].group].rates|
      modifies groups
      ensures Valid()
      ensures var g := places[index].group;
              var noted := AfterFinish(old(Contents())[g], places[index].rate, drained);
              Contents() == old(Contents())[g := AfterRelease(noted)] && indices == ReleasedArms(noted)
    {
      var place := places[index];
      groups[place.group].Finish(place.rate, drained);
      indices := ReleaseGroup(place.group);
    }
  }

  /** Runs the arms that the scheduler selects. `outcomes[i]` is what running input `i` gives.
      Each iteration is a step of some worker, chosen freely. */
  method RunAdaptive(inputs: seq<RunInput>, workers: nat, pastLimit: nat, outcomes: seq<Outcome>)
    returns (report: Report)
    requires |outcomes| == |inputs| && workers > 0
    ensures Reports(RuleResults(inputs, pastLimit, outcomes), report)
  {
    var scheduler := new ArmScheduler(inputs, pastLimit);
    ghost var rates :| PlacedBy(inputs, scheduler.places, rates) && scheduler.Contents() == NewGroups(rates, pastLimit);
    ghost var s := Sweep(scheduler.places, rates, pastLimit, outcomes);
    var jobs := scheduler.Start();
    var pool: seq<Worker> := seq(Min(workers, |inputs|), _ => Idle);
    var finished: seq<Option<Outcome>> := seq(|inputs|, _ => None);
    var running: int := |jobs|;
    StartInv(s, workers);
    assert Pool(scheduler.Contents(), jobs, pool, finished, running) == ArmRuns.Start(s, workers);
    while running > 0
      invariant scheduler.Valid() && fresh(scheduler.groups)
      invariant Inv(s, Pool(scheduler.Contents(), jobs, pool, finished, running))
      invariant |pool| == Min(workers, |inputs|)
      decreases Unended(finished), |jobs|, RunningCount(pool)
    {
      JobsFit(s, Pool(scheduler.Contents(), jobs, pool, finished, running));
      assert |inputs| == 0 ==> pool == [];
      jobs, pool, finished, running := Advance(s, scheduler, outcomes, jobs, pool, finished, running);
    }
    SettledByRule(inputs, s, Pool(scheduler.Contents(), jobs, pool, finished, running));
    report := FinishedResults(finished);
  }

  /** The results of a settled pool are those of the rule on the inputs. */
  lemma SettledByRule(inputs: seq<RunInput>, s: Sweep, p: Pool)
    requires Inv(s, p) && p.running == 0 && PlacedBy(inputs, s.places, s.groups)
    ensures p.finished == RuleResults(inputs, s.pastLimit, s.outcomes)
  {
    SettledResults(s, p);
    forall i | 0 <= i < |inputs| ensures p.finished[i] == RuleResults(inputs, s.pastLimit, s.outcomes)[i] {
      RunsUnlessSkipped(inputs, s, i);
    }
  }

  ghost predicate Advances(s: Sweep, p: Pool, q: Pool) {
    Inv(s, q) && Step(s, p, q) && Closer(q, p)
  }

  lemma StepAdvances(s: Sweep, p: Pool, q: Pool, w: nat)
    requires Inv(s, p) && StepOf(s, p, q, w)
    ensures Advances(s, p, q)
  {
    assert Step(s, p, q);
    StepInv(s, p, q);
    StepCloser(s, p, q);
  }

  /** One step of some worker. A result goes to the scheduler, which may queue further arms. */
  method Advance(ghost s: Sweep, scheduler: ArmScheduler, outcomes: seq<Outcome>, jobs: seq<nat>, pool: seq<Worker>,
                 finished: seq<Option<Outcome>>, running: int)
    returns (jobs': seq<nat>, pool': seq<Worker>, finished': seq<Option<Outcome>>, running': int)
    requires scheduler.Valid() && s.places == scheduler.places && s.outcomes == outcomes
    requires Inv(s, Pool(scheduler.Contents(), jobs, pool, finished, running)) && running > 0 && pool != []
    modifies scheduler.groups
    ensures scheduler.Valid()
    ensures var p := Pool(old(scheduler.Contents()), jobs, pool, finished, running);
            var q := Pool(scheduler.Contents(), jobs', pool', finished', running');
            Advances(s, p, q) && |pool'| == |pool|
  {
    ghost var p := Pool(scheduler.Contents(), jobs, pool, finished, running);
    var w := ChooseWorker(s, p, jobs, pool);
    jobs', pool', finished', running' := StepWorker(s, scheduler, outcomes, jobs, pool, finished, running, w);
    StepAdvances(s, p, Pool(scheduler.Contents(), jobs', pool', finished', running'), w);
  }

  method StepWorker(ghost s: Sweep, scheduler: ArmScheduler, outcomes: seq<Outcome>, jobs: seq<nat>, pool: seq<Worker>,
                    finished: seq<Option<Outcome>>, running: int, w: nat)
    returns (jobs': seq<nat>, pool': seq<Worker>, finished': seq<Option<Outcome>>, running': int)
    requires scheduler.Valid() && s.places == scheduler.places && s.outcomes == outcomes && w < |pool|
    requires pool[w].Idle? ==> jobs != []
    requires pool[w].Sending? ==> CanReceive(s, Pool(scheduler.Contents(), jobs, pool, finished, running), w)
    modifies scheduler.groups
    ensures scheduler.Valid() && |pool'| == |pool|
    ensures StepOf(s, Pool(old(scheduler.Contents()), jobs, pool, finished, running),
                   Pool(scheduler.Contents(), jobs', pool', finished', running'), w)
  {
    jobs', finished', running' := jobs, finished, running;
    match pool[w] {
      case Idle =>
        pool', jobs' := pool[w := Running(jobs[0])], jobs[1..];
      case Running(index) =>
        pool' := pool[w := Sending(index)];
      case Sending(index) =>
        finished' := finished[index := Some(outcomes[index])];
        var released := scheduler.Finish(index, Drains(outcomes[index]));
        jobs', running', pool' := jobs + released, running - 1 + |released|, pool[w := Idle];
    }
  }

  /** Any worker that can make a step. */
  method ChooseWorker(ghost s: Sweep, ghost p: Pool, jobs: seq<nat>, pool: seq<Worker>) returns (w: nat)
    requires Inv(s, p) && p.running > 0 && p.jobs == jobs && p.workers == pool && pool != []
    ensures w < |pool| && (pool[w].Idle? ==> jobs != [])
    ensures pool[w].Sending? ==> CanReceive(s, p, w)
  {
    if jobs != [] {
      w :| w < |pool|;
    } else {
      assert exists v: nat :: v < |pool| && !pool[v].Idle? by {
        if forall v :: 0 <= v < |pool| ==> pool[v].Idle? { BusyIdle(pool); }
      }
      w :| w < |pool| && !pool[w].Idle?;
    }
    if pool[w].Sending? {
      SendingCanReceive(s, p, w);
    }
  }
}
