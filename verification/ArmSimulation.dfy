/** One arm of a comparison: its ticks, and the cursor that offers each request at its own tick. */
module ArmSimulation {
  import opened Schedules

  /** What the simulation and the rail connections answer to an offer. A refusal is that of a service departure. */
  datatype Answer = Accepted | QueueFull | Refused | Failed

  /** The simulation seen from the arm: its answer to each offer, after each tick whether all trips are done and
      none can follow, and at which ticks the change of a daily band or the end of the tick fails. */
  datatype World = World(answers: nat -> Answer, drained: nat -> bool, bandFails: nat -> bool, fails: nat -> bool)

  datatype Settings = Settings(duration: nat, window: nat, service: bool, stopWhenDrained: bool)

  const TICKS_PER_SECOND: nat := 60

  datatype Offer = Offer(index: nat, tick: nat, accepted: bool)

  datatype Arm = Arm(next: nat, skipped: nat, clock: nat, midpoint: nat, arrival: nat, log: seq<Offer>)

  ghost predicate CanRun(schedule: Schedule, s: Settings) {
    Fits(schedule, s.window) && s.window <= s.duration
  }

  function Count(log: seq<Offer>, accepted: bool): nat {
    if log == [] then 0 else Count(log[..|log| - 1], accepted) + if log[|log| - 1].accepted == accepted then 1 else 0
  }

  /** The log has the requests below `next`, each once, in order, at its own tick and with its own answer. */
  ghost predicate Logged(schedule: Schedule, answers: nat -> Answer, arm: Arm) {
    && arm.next <= |schedule| && |arm.log| == arm.next && arm.skipped == Count(arm.log, false)
    && forall k :: 0 <= k < |arm.log| ==>
         answers(k) != Failed && arm.log[k] == Offer(k, schedule[k].tick, answers(k) == Accepted)
  }

  lemma LoggedMore(schedule: Schedule, answers: nat -> Answer, arm: Arm)
    requires Logged(schedule, answers, arm) && arm.next < |schedule| && answers(arm.next) != Failed
    ensures var accepted := answers(arm.next) == Accepted;
            var log := arm.log + [Offer(arm.next, schedule[arm.next].tick, accepted)];
            var skipped := if accepted then arm.skipped else arm.skipped + 1;
            Logged(schedule, answers, arm.(next := arm.next + 1, skipped := skipped, log := log))
  {
    var log := arm.log + [Offer(arm.next, schedule[arm.next].tick, answers(arm.next) == Accepted)];
    assert log[..|arm.log|] == arm.log;
  }

  /** The requests below `n` that the simulation did not accept. */
  ghost function Declined(answers: nat -> Answer, n: nat): set<nat> {
    set k: nat | k < n && answers(k) != Accepted
  }

  lemma {:induction false} CountDeclined(answers: nat -> Answer, log: seq<Offer>)
    requires forall k: nat :: k < |log| ==> log[k].accepted == (answers(k) == Accepted)
    ensures Count(log, false) == |Declined(answers, |log|)|
  {
    if log != [] {
      var before, n := log[..|log| - 1], |log| - 1;
      CountDeclined(answers, before);
      if answers(n) == Accepted {
        assert Declined(answers, n + 1) == Declined(answers, n);
      } else {
        assert Declined(answers, n + 1) == Declined(answers, n) + {n};
      }
    }
  }

  /** Offers and answers are conserved. */
  lemma {:induction false} CountSplits(log: seq<Offer>)
    ensures Count(log, true) + Count(log, false) == |log|
  {
    if log != [] {
      CountSplits(log[..|log| - 1]);
    }
  }

  /** The cursor has passed exactly the requests of earlier ticks. */
  ghost predicate CursorAt(schedule: Schedule, next: nat, tick: nat) {
    && next <= |schedule|
    && (forall k :: 0 <= k < next ==> schedule[k].tick < tick)
    && (next < |schedule| ==> schedule[next].tick >= tick)
  }

  /** The cursor is among the requests of the tick, or at their ends. */
  ghost predicate CursorWithin(schedule: Schedule, next: nat, tick: nat) {
    && next <= |schedule|
    && (forall k :: 0 <= k < next ==> schedule[k].tick <= tick)
    && (next < |schedule| ==> schedule[next].tick >= tick)
  }

  lemma CursorMore(schedule: Schedule, next: nat, tick: nat, window: nat)
    requires Fits(schedule, window) && CursorWithin(schedule, next, tick)
    requires next < |schedule| && schedule[next].tick == tick
    ensures CursorWithin(schedule, next + 1, tick)
  {
  }

  /** At the end of the window the cursor has passed every request. */
  lemma CursorDone(schedule: Schedule, next: nat, tick: nat, window: nat)
    requires Fits(schedule, window) && CursorAt(schedule, next, tick) && tick >= window
    ensures next == |schedule|
  {
    if next < |schedule| {
      assert false;
    }
  }

  /** The ticks at which the metrics are observed. */
  predicate Observed(s: Settings, tick: nat) {
    tick % TICKS_PER_SECOND == 0 || tick == s.window / 2 || tick == s.window
  }

  /** The ticks at which nothing is left to simulate, when the arm may stop early. */
  predicate StopsAt(s: Settings, world: World, tick: nat) {
    s.stopWhenDrained && Observed(s, tick) && tick >= s.window && world.drained(tick)
  }

  /** No band change and no tick up to the clock failed. */
  ghost predicate Smooth(world: World, clock: nat) {
    && (forall t: nat :: t < clock ==> !world.bandFails(t))
    && (forall t: nat :: 1 <= t <= clock ==> !world.fails(t))
  }

  /** The arm may stop at no tick up to the clock. */
  ghost predicate GoesOn(s: Settings, world: World, clock: nat) {
    forall t: nat :: 1 <= t <= clock ==> !StopsAt(s, world, t)
  }

  class ArmRun {
    const schedule: Schedule
    const settings: Settings
    const world: World
    var next: nat
    var skipped: nat
    var clock: nat
    var midpoint: nat
    var arrival: nat
    ghost var log: seq<Offer>

    ghost function Contents(): Arm
      reads this
    {
      Arm(next, skipped, clock, midpoint, arrival, log)
    }

    constructor (schedule: Schedule, settings: Settings, world: World)
      ensures this.schedule == schedule && this.settings == settings && this.world == world
      ensures Contents() == Arm(0, 0, 0, 0, 0, [])
    {
      this.schedule, this.settings, this.world := schedule, settings, world;
      next, skipped, clock, midpoint, arrival := 0, 0, 0, 0, 0;
      log := [];
    }

    /** Offers each request of the tick. */
    method SubmitDue(tick: nat) returns (ok: bool)
      requires Logged(schedule, world.answers, Contents()) && CursorAt(schedule, next, tick)
      requires Fits(schedule, settings.window)
      modifies this`next, this`skipped, this`log
      ensures Logged(schedule, world.answers, Contents()) && old(next) <= next
      ensures ok ==> CursorAt(schedule, next, tick + 1)
      ensures !ok ==> next < |schedule| && world.answers(next) == Failed && schedule[next].tick == tick
    {
      while next < |schedule| && schedule[next].tick == tick
        invariant Logged(schedule, world.answers, Contents()) && old(next) <= next
        invariant CursorWithin(schedule, next, tick)
        decreases |schedule| - next
      {
        var answer := world.answers(next);
        if answer == Failed {
          return false;
        }
        LoggedMore(schedule, world.answers, Contents());
        CursorMore(schedule, next, tick, settings.window);
        if answer != Accepted {
          skipped := skipped + 1;
        }
        log := log + [Offer(next, tick, answer == Accepted)];
        next := next + 1;
      }
      ok := true;
    }

    /** Keeps the snapshots of the arrival midpoint and end, and tells whether nothing is left to simulate. */
    method Sample() returns (stop: bool)
      requires settings.window >= 1
      modifies this`midpoint, this`arrival
      ensures midpoint == if clock == settings.window / 2 then clock else old(midpoint)
      ensures arrival == if clock == settings.window then clock else old(arrival)
      ensures stop <==> StopsAt(settings, world, clock) && next == |schedule|
    {
      if clock % TICKS_PER_SECOND != 0 && clock != settings.window / 2 && clock != settings.window {
        return false;
      }
      if clock == settings.window / 2 {
        midpoint := clock;
      }
      if clock == settings.window {
        arrival := clock;
      }
      stop := settings.stopWhenDrained && clock >= settings.window && next == |schedule| && world.drained(clock);
    }

    /** The state between ticks. A service run offers the requests of the tick that the step has reached. */
    ghost predicate Between()
      reads this
    {
      && CanRun(schedule, settings) && settings.window >= 1 && Logged(schedule, world.answers, Contents())
      && CursorAt(schedule, next, if settings.service then clock + 1 else clock)
      && (clock >= settings.window / 2 ==> midpoint == settings.window / 2)
      && (clock >= settings.window ==> arrival == settings.window)
    }

    /** One tick of the run. */
    method Step() returns (ok: bool, stop: bool)
      requires Between()
      modifies this
      ensures Logged(schedule, world.answers, Contents()) && clock <= old(clock) + 1
      ensures ok ==> Between() && clock == old(clock) + 1 && !world.bandFails(old(clock)) && !world.fails(clock)
      ensures ok ==> (stop <==> StopsAt(settings, world, clock))
      ensures ok && stop ==> next == |schedule|
      ensures !ok ==> Broken()
    {
      stop := false;
      if world.bandFails(clock) {
        return false, false;
      }
      if settings.service {
        clock := clock + 1;
      }
      ok := SubmitDue(clock);
      if !ok {
        return;
      }
      if !settings.service {
        clock := clock + 1;
      }
      if world.fails(clock) {
        return false, false;
      }
      stop := Sample();
      if clock >= settings.window {
        CursorDone(schedule, next, if settings.service then clock + 1 else clock, settings.window);
      }
    }

    /** What ends a run with an error: a failed band change, a failed offer or a failed tick. */
    ghost predicate Broken()
      reads this
    {
      world.bandFails(clock) || world.fails(clock) || (next < |schedule| && world.answers(next) == Failed)
    }

    lemma Tally()
      requires Logged(schedule, world.answers, Contents())
      ensures Count(log, true) + skipped == next && skipped == |Declined(world.answers, next)|
      ensures forall k: nat :: k < next ==> world.answers(k) != Failed
    {
      CountSplits(log);
      CountDeclined(world.answers, log);
      forall k: nat | k < next ensures world.answers(k) != Failed {
        assert log[k].index == k;
      }
    }

    /** Every run without an error offers every request exactly once, at its own tick, also when it stops early.
        Nothing failed in it, and no earlier tick allowed it to stop. */
    method Simulate() returns (ok: bool, stopped: bool)
      requires Contents() == Arm(0, 0, 0, 0, 0, []) && CanRun(schedule, settings) && settings.window >= 1
      modifies this
      ensures Logged(schedule, world.answers, Contents())
      ensures ok ==> next == |schedule| && Count(log, true) + skipped == |schedule|
      ensures ok ==> skipped == |Declined(world.answers, |schedule|)|
      ensures ok ==> forall k: nat :: k < |schedule| ==> world.answers(k) != Failed
      ensures ok ==> Smooth(world, clock)
      ensures ok ==> midpoint == settings.window / 2 && arrival == settings.window
      ensures ok ==> settings.window <= clock <= settings.duration
      ensures ok && stopped ==> StopsAt(settings, world, clock) && GoesOn(settings, world, clock - 1)
      ensures ok && !stopped ==> clock == settings.duration && GoesOn(settings, world, clock)
      ensures !ok ==> Broken()
    {
      ok, stopped := Ticks();
      Tally();
      if ok {
        CursorDone(schedule, next, if settings.service then clock + 1 else clock, settings.window);
      }
    }

    /** The loop over the ticks. */
    method Ticks() returns (ok: bool, stopped: bool)
      requires Between() && clock == 0
      modifies this
      ensures Logged(schedule, world.answers, Contents())
      ensures ok ==> Between() && clock <= settings.duration && Smooth(world, clock)
      ensures ok && stopped ==> StopsAt(settings, world, clock) && GoesOn(settings, world, clock - 1)
      ensures ok && !stopped ==> clock == settings.duration && GoesOn(settings, world, clock)
      ensures !ok ==> Broken()
    {
      for tick := 0 to settings.duration
        invariant Between() && clock == tick
        invariant Smooth(world, tick) && GoesOn(settings, world, tick)
      {
        ok, stopped := Step();
        if !ok || stopped {
          return;
        }
      }
      ok, stopped := true, false;
    }
  }
}
