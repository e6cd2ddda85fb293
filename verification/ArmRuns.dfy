/** Runs of the adaptive pool: every order of worker steps gives the same arms and the same report. */
module ArmRuns {
  import opened Basics
  import opened RateGroups
  import opened ArmGrouping
  import opened ArmPool

  // ----- steps -----

  predicate CanTake(p: Pool, w: nat) {
    w < |p.workers| && p.workers[w].Idle? && p.jobs != []
  }

  function Take(p: Pool, w: nat): Pool
    requires CanTake(p, w)
  {
    p.(jobs := p.jobs[1..], workers := p.workers[w := Running(p.jobs[0])])
  }

  predicate CanEnd(p: Pool, w: nat) {
    w < |p.workers| && p.workers[w].Running?
  }

  function End(p: Pool, w: nat): Pool
    requires CanEnd(p, w)
  {
    p.(workers := p.workers[w := Sending(p.workers[w].index)])
  }

  ghost predicate CanReceive(s: Sweep, p: Pool, w: nat) {
    && w < |p.workers| && p.workers[w].Sending?
    && var i := p.workers[w].index;
       && i < |s.places| && |s.outcomes| == |s.places| && i < |p.finished|
       && s.places[i].group < |p.groups| && Shaped(p.groups[s.places[i].group])
       && s.places[i].rate < |p.groups[s.places[i].group].rates|
  }

  /** The group of arm `i` after its result, before the release. */
  ghost function Noted(s: Sweep, p: Pool, w: nat): (g: Group)
    requires CanReceive(s, p, w)
    ensures Shaped(g)
  {
    var i := p.workers[w].index;
    AfterFinish(p.groups[s.places[i].group], s.places[i].rate, Drains(s.outcomes[i]))
  }

  ghost function Receive(s: Sweep, p: Pool, w: nat): Pool
    requires CanReceive(s, p, w)
  {
    var i := p.workers[w].index;
    var g := Noted(s, p, w);
    var next := ReleasedArms(g);
    Pool(p.groups[s.places[i].group := AfterRelease(g)], p.jobs + next, p.workers[w := Idle],
         p.finished[i := Some(s.outcomes[i])], p.running - 1 + |next|)
  }

  ghost predicate Step(s: Sweep, p: Pool, q: Pool) {
    exists w: nat :: StepOf(s, p, q, w)
  }

  ghost predicate StepOf(s: Sweep, p: Pool, q: Pool, w: nat) {
    || (CanTake(p, w) && q == Take(p, w))
    || (CanEnd(p, w) && q == End(p, w))
    || (CanReceive(s, p, w) && q == Receive(s, p, w))
  }

  // ----- the first state -----

  function NewGroups(rates: seq<seq<seq<nat>>>, pastLimit: nat): (groups: seq<Group>)
    ensures |groups| == |rates| && AllShaped(groups)
    ensures forall g :: 0 <= g < |rates| ==> groups[g] == NewGroup(rates[g], pastLimit)
  {
    seq(|rates|, g requires 0 <= g < |rates| => NewGroup(rates[g], pastLimit))
  }

  ghost predicate AllShaped(groups: seq<Group>) {
    forall g :: 0 <= g < |groups| ==> Shaped(groups[g])
  }

  /** The arms that the groups before `count` release first, in group order. */
  ghost function StartArms(groups: seq<Group>, count: nat): seq<nat>
    requires AllShaped(groups) && count <= |groups|
  {
    if count == 0 then [] else StartArms(groups, count - 1) + ReleasedArms(groups[count - 1])
  }

  function Started(groups: seq<Group>): (after: seq<Group>)
    ensures |after| == |groups|
    ensures forall g :: 0 <= g < |groups| ==> after[g] == AfterRelease(groups[g])
  {
    seq(|groups|, g requires 0 <= g < |groups| => AfterRelease(groups[g]))
  }

  ghost function Start(s: Sweep, workers: nat): Pool {
    var groups := NewGroups(s.groups, s.pastLimit);
    var jobs := StartArms(groups, |groups|);
    Pool(Started(groups), jobs, seq(Min(workers, |s.places|), _ => Idle),
         seq(|s.places|, _ => None), |jobs|)
  }

  // ----- the invariant -----

  ghost predicate Distinct(indices: seq<nat>) {
    forall a, b :: 0 <= a < b < |indices| ==> indices[a] != indices[b]
  }

  predicate Holds(worker: Worker, i: nat) {
    !worker.Idle? && worker.index == i
  }

  ghost predicate Held(workers: seq<Worker>, i: nat) {
    exists w :: 0 <= w < |workers| && Holds(workers[w], i)
  }

  ghost predicate Exclusive(workers: seq<Worker>) {
    forall v, w :: 0 <= v < w < |workers| && !workers[v].Idle? ==> !Holds(workers[w], workers[v].index)
  }

  predicate Ended(finished: seq<Option<Outcome>>, i: nat) {
    i < |finished| && finished[i].Some?
  }

  ghost function Done(finished: seq<Option<Outcome>>): set<nat> {
    set i: nat | i < |finished| && Ended(finished, i)
  }

  ghost predicate Released(s: Sweep, groups: seq<Group>, i: nat) {
    i < |s.places| && s.places[i].group < |groups| && s.places[i].rate < groups[s.places[i].group].started
  }

  function Busy(workers: seq<Worker>): nat {
    if workers == [] then 0 else Busy(workers[..|workers| - 1]) + if workers[|workers| - 1].Idle? then 0 else 1
  }

  ghost predicate Current(s: Sweep, g: Group, rates: seq<seq<nat>>, done: set<nat>) {
    Recorded(g, rates, s.pastLimit, s.outcomes, done) && g.started == ReleaseEnd(g)
  }

  ghost predicate GroupsRecord(s: Sweep, groups: seq<Group>, done: set<nat>) {
    |groups| == |s.groups| && forall g :: 0 <= g < |s.groups| ==> Current(s, groups[g], s.groups[g], done)
  }

  /** Each released arm is in one place: in the queue, with one worker, or among the results. */
  ghost predicate Located(s: Sweep, p: Pool) {
    && Distinct(p.jobs) && Exclusive(p.workers)
    && (forall i: nat :: i in p.jobs ==> !Held(p.workers, i) && !Ended(p.finished, i))
    && (forall i: nat :: Held(p.workers, i) ==> !Ended(p.finished, i))
    && (forall i: nat :: Released(s, p.groups, i) <==> i in p.jobs || Held(p.workers, i) || Ended(p.finished, i))
  }

  ghost predicate Kept(s: Sweep, finished: seq<Option<Outcome>>) {
    |finished| == |s.places| == |s.outcomes| && forall i: nat :: Ended(finished, i) ==>
      finished[i].value == s.outcomes[i]
  }

  ghost predicate Inv(s: Sweep, p: Pool) {
    && ValidSweep(s) && Kept(s, p.finished)
    && GroupsRecord(s, p.groups, Done(p.finished)) && Located(s, p)
    && p.running == |p.jobs| + Busy(p.workers)
  }

  // ----- released arms -----

  ghost predicate InSlice(s: Sweep, i: nat, g: nat, low: nat, high: nat) {
    i < |s.places| && s.places[i].group == g && low <= s.places[i].rate < high
  }

  lemma {:induction false} ReleasedSlice(s: Sweep, g: nat, low: nat, high: nat)
    requires ValidSweep(s) && g < |s.groups| && low <= high <= |s.groups[g]|
    ensures forall i: nat :: i in Flatten(s.groups[g][low..high]) <==> InSlice(s, i, g, low, high)
    ensures Distinct(Flatten(s.groups[g][low..high]))
    decreases high - low
  {
    var slice := s.groups[g][low..high];
    if low < high {
      var first := s.groups[g][low];
      ReleasedSlice(s, g, low + 1, high);
      assert slice[0] == first && slice[1..] == s.groups[g][low + 1..high];
      forall i: nat ensures i in first <==> InSlice(s, i, g, low, low + 1) {
        if i in first { assert InRate(s.groups, g, low, i); }
        if InSlice(s, i, g, low, low + 1) { assert InRate(s.groups, s.places[i].group, s.places[i].rate, i); }
      }
      DistinctAppend(first, Flatten(slice[1..]));
    }
  }

  lemma DistinctAppend(first: seq<nat>, rest: seq<nat>)
    requires Distinct(first) && Distinct(rest)
    requires forall i: nat :: i in first ==> i !in rest
    ensures Distinct(first + rest)
  {
    assert forall a :: 0 <= a < |first| ==> first[a] in first;
    assert forall a :: 0 <= a < |rest| ==> rest[a] in rest;
  }

  lemma GroupInRange(s: Sweep)
    requires ValidSweep(s)
    ensures forall i :: 0 <= i < |s.places| ==>
              s.places[i].group < |s.groups| && s.places[i].rate < |s.groups[s.places[i].group]|
  {
    assert forall i :: 0 <= i < |s.places| ==> InRate(s.groups, s.places[i].group, s.places[i].rate, i);
  }

  ghost predicate StartsFirst(s: Sweep, i: nat, count: nat) {
    i < |s.places| && s.places[i].group < count <= |s.groups| &&
    s.places[i].rate < ReleaseEnd(NewGroup(s.groups[s.places[i].group], s.pastLimit))
  }

  lemma {:induction false} StartArmsReleased(s: Sweep, count: nat)
    requires ValidSweep(s) && count <= |s.groups|
    ensures forall i: nat :: i in StartArms(NewGroups(s.groups, s.pastLimit), count) <==> StartsFirst(s, i, count)
    ensures Distinct(StartArms(NewGroups(s.groups, s.pastLimit), count))
  {
    if count > 0 {
      StartArmsReleased(s, count - 1);
      var g := NewGroup(s.groups[count - 1], s.pastLimit);
      ReleasedSlice(s, count - 1, 0, ReleaseEnd(g));
      assert ReleasedArms(g) == Flatten(s.groups[count - 1][0..ReleaseEnd(g)]);
      DistinctAppend(StartArms(NewGroups(s.groups, s.pastLimit), count - 1), ReleasedArms(g));
    }
  }

  // ----- workers -----

  lemma {:induction false} BusyIdle(workers: seq<Worker>)
    requires forall w :: 0 <= w < |workers| ==> workers[w].Idle?
    ensures Busy(workers) == 0
  {
    if workers != [] { BusyIdle(workers[..|workers| - 1]); }
  }

  lemma {:induction false} BusyUpdate(workers: seq<Worker>, w: nat, worker: Worker)
    requires w < |workers|
    ensures Busy(workers[w := worker]) ==
            Busy(workers) - (if workers[w].Idle? then 0 else 1) + (if worker.Idle? then 0 else 1)
  {
    var last := |workers| - 1;
    if w < last {
      BusyUpdate(workers[..last], w, worker);
      assert workers[w := worker][..last] == workers[..last][w := worker];
    } else {
      assert workers[w := worker][..last] == workers[..last];
    }
  }

  lemma HeldUpdate(workers: seq<Worker>, w: nat, worker: Worker)
    requires w < |workers| && Exclusive(workers)
    requires !worker.Idle? ==> Holds(workers[w], worker.index) || !Held(workers, worker.index)
    ensures Exclusive(workers[w := worker])
    ensures forall j: nat :: Held(workers[w := worker], j) <==>
              Holds(worker, j) || (Held(workers, j) && !Holds(workers[w], j))
  {
    var after := workers[w := worker];
    forall j: nat ensures Held(after, j) <==> Holds(worker, j) || (Held(workers, j) && !Holds(workers[w], j)) {
      if v :| 0 <= v < |workers| && v != w && Holds(workers[v], j) { assert Holds(after[v], j); }
      if Holds(worker, j) { assert Holds(after[w], j); }
      if v :| 0 <= v < |after| && v != w && Holds(after[v], j) { assert Holds(workers[v], j); }
    }
    assert forall v, j: nat :: 0 <= v < |workers| && Holds(workers[v], j) ==> Held(workers, j);
  }

  // ----- every step keeps the invariant -----

  lemma StartInv(s: Sweep, workers: nat)
    requires ValidSweep(s)
    ensures Inv(s, Start(s, workers))
  {
    var p := Start(s, workers);
    StartArmsReleased(s, |s.groups|);
    GroupInRange(s);
    BusyIdle(p.workers);
    assert Done(p.finished) == {};
    forall g | 0 <= g < |s.groups| ensures Current(s, p.groups[g], s.groups[g], {}) {
      NewRecords(s.groups[g], s.pastLimit, s.outcomes);
      SameDrained(NewGroup(s.groups[g], s.pastLimit), p.groups[g], 0);
    }
    assert forall i: nat :: !Held(p.workers, i) && !Ended(p.finished, i);
  }

  lemma TakeInv(s: Sweep, p: Pool, w: nat)
    requires Inv(s, p) && CanTake(p, w)
    ensures Inv(s, Take(p, w))
  {
    BusyUpdate(p.workers, w, Running(p.jobs[0]));
    TakeLocated(s, p, w);
  }

  /** The first job moves from the queue to the worker. */
  lemma TakeLocated(s: Sweep, p: Pool, w: nat)
    requires Located(s, p) && CanTake(p, w)
    ensures Located(s, Take(p, w))
  {
    var i, rest := p.jobs[0], p.jobs[1..];
    var q := Take(p, w);
    assert p.jobs == [i] + rest && i in p.jobs;
    HeldUpdate(p.workers, w, Running(i));
    assert i !in rest && Distinct(rest);
    forall j: nat ensures Held(q.workers, j) <==> j == i || Held(p.workers, j) {
      assert Holds(Running(i), j) <==> j == i;
    }
    forall j: nat ensures j in p.jobs <==> j == i || j in rest {
    }
  }

  lemma EndInv(s: Sweep, p: Pool, w: nat)
    requires Inv(s, p) && CanEnd(p, w)
    ensures Inv(s, End(p, w))
  {
    HeldUpdate(p.workers, w, Sending(p.workers[w].index));
    BusyUpdate(p.workers, w, Sending(p.workers[w].index));
    assert forall j: nat :: Holds(p.workers[w], j) ==> Held(p.workers, j);
  }

  lemma SendingCanReceive(s: Sweep, p: Pool, w: nat)
    requires Inv(s, p) && w < |p.workers| && p.workers[w].Sending?
    ensures CanReceive(s, p, w) && !Ended(p.finished, p.workers[w].index)
    ensures InRate(s.groups, s.places[p.workers[w].index].group, s.places[p.workers[w].index].rate, p.workers[w].index)
  {
    var i := p.workers[w].index;
    assert Holds(p.workers[w], i) && Held(p.workers, i) && Released(s, p.groups, i);
    assert Current(s, p.groups[s.places[i].group], s.groups[s.places[i].group], Done(p.finished));
  }

  /** The group of the received arm records it. */
  lemma OwnGroupRecords(s: Sweep, p: Pool, w: nat)
    requires Inv(s, p) && CanReceive(s, p, w)
    ensures var i := p.workers[w].index;
            Current(s, AfterRelease(Noted(s, p, w)), s.groups[s.places[i].group], Done(p.finished) + {i})
    ensures Noted(s, p, w).started == p.groups[s.places[p.workers[w].index].group].started <= ReleaseEnd(Noted(s, p, w))
  {
    SendingCanReceive(s, p, w);
    var i, done := p.workers[w].index, Done(p.finished);
    var group, rate := s.places[i].group, s.places[i].rate;
    assert Current(s, p.groups[group], s.groups[group], done);
    forall r | 0 <= r < |s.groups[group]| && i in s.groups[group][r] ensures r == rate {
      assert InRate(s.groups, group, r, i);
    }
    FinishRecords(p.groups[group], s.groups[group], s.pastLimit, s.outcomes, done, rate, i);
    SameDrained(Noted(s, p, w), AfterRelease(Noted(s, p, w)), 0);
  }

  lemma ReceiveRecords(s: Sweep, p: Pool, w: nat)
    requires Inv(s, p) && CanReceive(s, p, w)
    ensures Done(Receive(s, p, w).finished) == Done(p.finished) + {p.workers[w].index}
    ensures GroupsRecord(s, Receive(s, p, w).groups, Done(Receive(s, p, w).finished))
  {
    var q := Receive(s, p, w);
    var i := p.workers[w].index;
    assert Done(q.finished) == Done(p.finished) + {i} by {
      assert forall j: nat :: Ended(q.finished, j) <==> Ended(p.finished, j) || j == i;
    }
    OwnGroupRecords(s, p, w);
    forall g | 0 <= g < |s.groups| ensures Current(s, q.groups[g], s.groups[g], Done(p.finished) + {i}) {
      if g != s.places[i].group {
        OtherGroupRecords(s, p, i, g);
      }
    }
  }

  lemma OtherGroupRecords(s: Sweep, p: Pool, i: nat, g: nat)
    requires Inv(s, p) && g < |s.groups| && i < |s.places| && s.places[i].group != g
    ensures Current(s, p.groups[g], s.groups[g], Done(p.finished) + {i})
  {
    assert Current(s, p.groups[g], s.groups[g], Done(p.finished));
    forall r | 0 <= r < |s.groups[g]| ensures i !in s.groups[g][r] {
      if i in s.groups[g][r] { assert InRate(s.groups, g, r, i); }
    }
    OtherRecords(p.groups[g], s.groups[g], s.pastLimit, s.outcomes, Done(p.finished), i);
  }

  /** The arms queued on a result are the rates between the old and the new end, never released before. */
  lemma ReceiveReleases(s: Sweep, p: Pool, w: nat)
    requires Inv(s, p) && CanReceive(s, p, w)
    ensures Distinct(ReleasedArms(Noted(s, p, w)))
    ensures forall j: nat :: j in ReleasedArms(Noted(s, p, w)) ==> !Released(s, p.groups, j)
    ensures forall j: nat :: Released(s, Receive(s, p, w).groups, j) <==>
              Released(s, p.groups, j) || j in ReleasedArms(Noted(s, p, w))
  {
    SendingCanReceive(s, p, w);
    OwnGroupRecords(s, p, w);
    var group := s.places[p.workers[w].index].group;
    var g := Noted(s, p, w);
    assert Current(s, p.groups[group], s.groups[group], Done(p.finished));
    ReleasedSlice(s, group, g.started, ReleaseEnd(g));
    assert ReleasedArms(g) == Flatten(s.groups[group][g.started..ReleaseEnd(g)]);
  }

  lemma ReceiveInv(s: Sweep, p: Pool, w: nat)
    requires Inv(s, p) && CanReceive(s, p, w)
    ensures Inv(s, Receive(s, p, w))
  {
    SendingCanReceive(s, p, w);
    ReceiveRecords(s, p, w);
    ReceiveReleases(s, p, w);
    var q := Receive(s, p, w);
    var i := p.workers[w].index;
    HeldUpdate(p.workers, w, Idle);
    BusyUpdate(p.workers, w, Idle);
    assert Holds(p.workers[w], i) && Held(p.workers, i);
    DistinctAppend(p.jobs, ReleasedArms(Noted(s, p, w)));
    assert forall j: nat :: Ended(q.finished, j) <==> Ended(p.finished, j) || j == i;
  }

  lemma StepInv(s: Sweep, p: Pool, q: Pool)
    requires Inv(s, p) && Step(s, p, q)
    ensures Inv(s, q)
  {
    var w: nat :| StepOf(s, p, q, w);
    if CanTake(p, w) { TakeInv(s, p, w); }
    if CanEnd(p, w) { EndInv(s, p, w); }
    if CanReceive(s, p, w) { ReceiveInv(s, p, w); }
  }
}
