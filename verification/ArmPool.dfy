/** The worker pool that runs the arms of an adaptive sweep.

    The pool is a transition system: an idle worker takes the first job, a
    worker finishes its arm and waits to hand over the result, and the
    scheduler receives one result and queues the arms that may now start. Any
    worker may make its step at any time. */
module ArmPool {
  import opened Basics
  import opened RateGroups
  import opened ArmGrouping

  datatype Sweep = Sweep(places: seq<ArmPlace>, groups: seq<seq<seq<nat>>>, pastLimit: nat, outcomes: seq<Outcome>)

  ghost predicate ValidSweep(s: Sweep) {
    Placed(s.places, s.groups) && |s.outcomes| == |s.places|
  }

  datatype Worker = Idle | Running(index: nat) | Sending(index: nat)

  datatype Pool = Pool(groups: seq<Group>, jobs: seq<nat>, workers: seq<Worker>, finished: seq<Option<Outcome>>,
                       running: int)

  // ----- the rule -----

  /** The sequential rule, on the rates of the group of arm `i`. */
  predicate Runs(s: Sweep, i: nat) {
    i < |s.places| && s.places[i].group < |s.groups| &&
    s.places[i].rate < SequentialCount(s.groups[s.places[i].group], s.pastLimit, s.outcomes)
  }

  /** The request intervals of the group of `i` strictly between those of `i` and of `f`. */
  ghost function IntervalsBetween(inputs: seq<RunInput>, i: nat, f: nat): set<int> {
    set j: nat | j < |inputs| && Key(inputs, j) == Key(inputs, i) &&
      Interval(inputs, i) < Interval(inputs, j) < Interval(inputs, f)
      :: Interval(inputs, j)
  }

  /** Arm `f` of the same group does not drain at a rate lower than the rate of `i`,
      and at least `pastLimit` other rates lie between the two. */
  ghost predicate FailsBelow(inputs: seq<RunInput>, pastLimit: nat, outcomes: seq<Outcome>, i: nat, f: nat) {
    && f < |inputs| && f < |outcomes| && Key(inputs, f) == Key(inputs, i) && !Drains(outcomes[f])
    && Interval(inputs, f) > Interval(inputs, i)
    && |IntervalsBetween(inputs, i, f)| >= pastLimit
  }

  /** The rule on the inputs alone: an arm is skipped when some arm fails far enough below it. */
  ghost predicate Skipped(inputs: seq<RunInput>, pastLimit: nat, outcomes: seq<Outcome>, i: nat) {
    exists f: nat :: FailsBelow(inputs, pastLimit, outcomes, i, f)
  }

  /** Two inputs are in one sweep when they differ in request interval and seed only. No consent is private consent. */
  ghost predicate SameSweep(a: RunInput, b: RunInput) {
    && a.dimensions == b.dimensions
    && (a.sharingConsent == b.sharingConsent
        || (a.sharingConsent in {"", "private"} && b.sharingConsent in {"", "private"}))
  }

  /** The request intervals of the sweep of `i` strictly between two intervals. */
  ghost function Between(inputs: seq<RunInput>, i: nat, low: int, high: int): set<int>
    requires i < |inputs|
  {
    set j: nat | j < |inputs| && SameSweep(inputs[j], inputs[i]) && low < inputs[j].requestEvery < high
      :: inputs[j].requestEvery
  }

  lemma KeyMeans(inputs: seq<RunInput>, i: nat, j: nat)
    requires i < |inputs| && j < |inputs|
    ensures Key(inputs, j) == Key(inputs, i) <==> SameSweep(inputs[j], inputs[i])
  {
  }

  lemma BetweenMeans(inputs: seq<RunInput>, i: nat, f: nat)
    requires i < |inputs| && f < |inputs|
    ensures IntervalsBetween(inputs, i, f) == Between(inputs, i, inputs[i].requestEvery, inputs[f].requestEvery)
  {
    forall j: nat | j < |inputs| ensures Key(inputs, j) == Key(inputs, i) <==> SameSweep(inputs[j], inputs[i]) {
      KeyMeans(inputs, i, j);
    }
  }

  /** An arm is skipped exactly when an arm of its sweep with a longer interval fails or does not drain, and at least
      `pastLimit` other intervals of the sweep lie between the two. */
  lemma SkippedMeans(inputs: seq<RunInput>, pastLimit: nat, outcomes: seq<Outcome>, i: nat)
    requires i < |inputs| == |outcomes|
    ensures Skipped(inputs, pastLimit, outcomes, i) <==>
      exists f: nat :: FailsSlower(inputs, pastLimit, outcomes, i, f)
  {
    forall f: nat
      ensures FailsBelow(inputs, pastLimit, outcomes, i, f) <==> FailsSlower(inputs, pastLimit, outcomes, i, f)
    {
      if f < |inputs| {
        KeyMeans(inputs, i, f);
        BetweenMeans(inputs, i, f);
      }
    }
  }

  ghost predicate FailsSlower(inputs: seq<RunInput>, pastLimit: nat, outcomes: seq<Outcome>, i: nat, f: nat)
    requires i < |inputs| == |outcomes|
  {
    && f < |inputs| && SameSweep(inputs[f], inputs[i]) && inputs[f].requestEvery > inputs[i].requestEvery
    && (match outcomes[f] case Finished(_, drained) => !drained case Failed(_) => true)
    && |Between(inputs, i, inputs[i].requestEvery, inputs[f].requestEvery)| >= pastLimit
  }

  ghost function IntervalsOf(inputs: seq<RunInput>, rates: seq<seq<nat>>, low: nat, high: nat): set<int>
    requires low <= high <= |rates| && forall r :: 0 <= r < |rates| ==> rates[r] != []
  {
    set r | low <= r < high :: Interval(inputs, rates[r][0])
  }

  lemma {:induction false} IntervalCount(inputs: seq<RunInput>, rates: seq<seq<nat>>, low: nat, high: nat)
    requires low <= high <= |rates| && forall r :: 0 <= r < |rates| ==> rates[r] != []
    requires forall r, t :: 0 <= r < t < |rates| ==> Interval(inputs, rates[r][0]) > Interval(inputs, rates[t][0])
    ensures |IntervalsOf(inputs, rates, low, high)| == high - low
    decreases high - low
  {
    if low < high {
      IntervalCount(inputs, rates, low + 1, high);
      var first := Interval(inputs, rates[low][0]);
      assert IntervalsOf(inputs, rates, low, high) == IntervalsOf(inputs, rates, low + 1, high) + {first};
      assert first !in IntervalsOf(inputs, rates, low + 1, high);
    }
  }

  lemma RateOrder(inputs: seq<RunInput>, s: Sweep, g: nat)
    requires PlacedBy(inputs, s.places, s.groups) && g < |s.groups|
    ensures forall r :: 0 <= r < |s.groups[g]| ==> s.groups[g][r] != []
    ensures forall r, t :: 0 <= r < t < |s.groups[g]| ==>
              Interval(inputs, s.groups[g][r][0]) > Interval(inputs, s.groups[g][t][0])
  {
    forall r, t | 0 <= r < t < |s.groups[g]|
      ensures Interval(inputs, s.groups[g][r][0]) > Interval(inputs, s.groups[g][t][0])
    {
      assert InRate(s.groups, g, r, s.groups[g][r][0]) && InRate(s.groups, g, t, s.groups[g][t][0]);
    }
  }

  /** Between two rates of a group lie the rates with the places between theirs. */
  lemma PlacesBetween(inputs: seq<RunInput>, s: Sweep, i: nat, f: nat)
    requires PlacedBy(inputs, s.places, s.groups) && i < |inputs| && f < |inputs|
    requires Key(inputs, f) == Key(inputs, i) && Interval(inputs, f) > Interval(inputs, i)
    ensures |IntervalsBetween(inputs, i, f)| == s.places[i].rate - s.places[f].rate - 1
  {
    var g, low, high := s.places[i].group, s.places[f].rate + 1, s.places[i].rate;
    var rates := s.groups[g];
    assert InRate(s.groups, g, s.places[f].rate, f) && InRate(s.groups, g, high, i);
    RateOrder(inputs, s, g);
    IntervalCount(inputs, rates, low, high);
    var between := IntervalsBetween(inputs, i, f);
    forall v | v in between ensures v in IntervalsOf(inputs, rates, low, high) {
      var j: nat :| j < |inputs| && Key(inputs, j) == Key(inputs, i) &&
        Interval(inputs, i) < Interval(inputs, j) < Interval(inputs, f) && v == Interval(inputs, j);
      assert s.places[j].group == g && InRate(s.groups, g, s.places[j].rate, j);
      SameRate(inputs, s, j);
    }
    forall v | v in IntervalsOf(inputs, rates, low, high) ensures v in between {
      var r :| low <= r < high && v == Interval(inputs, rates[r][0]);
      assert InRate(s.groups, g, r, rates[r][0]);
    }
    assert between == IntervalsOf(inputs, rates, low, high);
  }

  lemma SameRate(inputs: seq<RunInput>, s: Sweep, j: nat)
    requires PlacedBy(inputs, s.places, s.groups) && j < |inputs|
    ensures InRate(s.groups, s.places[j].group, s.places[j].rate, j)
    ensures s.groups[s.places[j].group][s.places[j].rate] != []
    ensures Interval(inputs, s.groups[s.places[j].group][s.places[j].rate][0]) == Interval(inputs, j)
  {
    var g, r := s.places[j].group, s.places[j].rate;
    assert InRate(s.groups, g, r, s.groups[g][r][0]);
  }

  /** The rule on groups and rates is the rule on the inputs. */
  lemma RunsUnlessSkipped(inputs: seq<RunInput>, s: Sweep, i: nat)
    requires PlacedBy(inputs, s.places, s.groups) && |s.outcomes| == |inputs| && i < |inputs|
    ensures Runs(s, i) <==> !Skipped(inputs, s.pastLimit, s.outcomes, i)
  {
    var g, rate := s.places[i].group, s.places[i].rate;
    var rates := s.groups[g];
    assert InRate(s.groups, g, rate, i);
    SkippedRate(rates, s.pastLimit, s.outcomes, rate);
    if !Runs(s, i) {
      var low: nat :| low < |rates| && low + s.pastLimit < rate && !RateDrains(rates[low], s.outcomes);
      var f :| f in rates[low] && f < |s.outcomes| && !Drains(s.outcomes[f]);
      assert InRate(s.groups, g, low, f);
      PlacesBetween(inputs, s, i, f);
      assert FailsBelow(inputs, s.pastLimit, s.outcomes, i, f);
    }
    if f: nat :| FailsBelow(inputs, s.pastLimit, s.outcomes, i, f) {
      PlacesBetween(inputs, s, i, f);
      var low := s.places[f].rate;
      assert InRate(s.groups, g, low, f);
      assert low + s.pastLimit < rate && !RateDrains(rates[low], s.outcomes);
    }
  }

  // ----- one group while its arms finish -----

  ghost function Unfinished(rate: seq<nat>, done: set<nat>): set<nat> {
    set i | i in rate && i !in done
  }

  ghost predicate HasFailed(rate: seq<nat>, outcomes: seq<Outcome>, done: set<nat>) {
    exists i :: i in rate && i in done && i < |outcomes| && !Drains(outcomes[i])
  }

  /** What the group has recorded when exactly the arms in `done` have finished. */
  ghost predicate Recorded(g: Group, rates: seq<seq<nat>>, pastLimit: nat, outcomes: seq<Outcome>, done: set<nat>) {
    && Shaped(g) && g.rates == rates && g.pastLimit == Min(pastLimit, |rates|)
    && (forall r :: 0 <= r < |rates| ==> g.waiting[r] == |Unfinished(rates[r], done)|)
    && (forall r :: 0 <= r < |rates| ==> (g.failed[r] <==> HasFailed(rates[r], outcomes, done)))
    && g.drained == DrainedFrom(g, 0)
  }

  lemma RecordedRates(g: Group, rates: seq<seq<nat>>, pastLimit: nat, outcomes: seq<Outcome>, done: set<nat>, r: nat)
    requires Recorded(g, rates, pastLimit, outcomes, done) && r < |rates|
    ensures g.waiting[r] == 0 <==> forall i :: i in rates[r] ==> i in done
    ensures g.waiting[r] == 0 && !g.failed[r] ==> RateDrains(rates[r], outcomes)
    ensures g.failed[r] ==> !RateDrains(rates[r], outcomes)
  {
    assert forall i :: i in rates[r] && i !in done ==> i in Unfinished(rates[r], done);
    if g.waiting[r] == 0 {
      assert Unfinished(rates[r], done) == {};
    }
    if forall i :: i in rates[r] ==> i in done {
      assert Unfinished(rates[r], done) == {};
    }
  }

  /** A group starts only rates that the rule runs. */
  lemma StartsOnlyRule(g: Group, rates: seq<seq<nat>>, pastLimit: nat, outcomes: seq<Outcome>, done: set<nat>)
    requires Recorded(g, rates, pastLimit, outcomes, done)
    ensures ReleaseEnd(g) <= SequentialCount(rates, pastLimit, outcomes)
  {
    forall r | 0 <= r < g.drained ensures RateDrains(rates[r], outcomes) {
      RecordedRates(g, rates, pastLimit, outcomes, done, r);
    }
    LeadingRatesRun(rates, pastLimit, outcomes, g.drained);
  }

  /** When every started arm has finished, the group has started every rate that the rule runs. */
  lemma StartsWholeRule(g: Group, rates: seq<seq<nat>>, pastLimit: nat, outcomes: seq<Outcome>, done: set<nat>)
    requires Recorded(g, rates, pastLimit, outcomes, done)
    requires forall r, i :: 0 <= r < ReleaseEnd(g) && i in rates[r] ==> i in done
    ensures ReleaseEnd(g) == SequentialCount(rates, pastLimit, outcomes)
  {
    forall r | 0 <= r < g.drained ensures RateDrains(rates[r], outcomes) {
      RecordedRates(g, rates, pastLimit, outcomes, done, r);
    }
    if g.drained < |rates| {
      RecordedRates(g, rates, pastLimit, outcomes, done, g.drained);
    }
    LeadingRatesRun(rates, pastLimit, outcomes, g.drained);
  }

  lemma {:induction false} DrainedFromHere(g: Group, from: nat, to: nat)
    requires Shaped(g) && from <= to <= |g.rates|
    requires forall r :: from <= r < to ==> g.waiting[r] == 0 && !g.failed[r]
    ensures DrainedFrom(g, from) == DrainedFrom(g, to)
    decreases |g.rates| - from
  {
    if from < to {
      DrainedFromHere(g, from + 1, to);
    }
  }

  lemma FinishRecords(g: Group, rates: seq<seq<nat>>, pastLimit: nat, outcomes: seq<Outcome>, done: set<nat>, rate: nat,
                      i: nat)
    requires Recorded(g, rates, pastLimit, outcomes, done)
    requires rate < |rates| && i in rates[rate] && i !in done && i < |outcomes|
    requires forall r :: 0 <= r < |rates| && i in rates[r] ==> r == rate
    ensures Recorded(AfterFinish(g, rate, Drains(outcomes[i])), rates, pastLimit, outcomes, done + {i})
    ensures AfterFinish(g, rate, Drains(outcomes[i])).drained >= g.drained
  {
    var g' := AfterFinish(g, rate, Drains(outcomes[i]));
    var later := done + {i};
    forall r | 0 <= r < |rates|
      ensures g'.waiting[r] == |Unfinished(rates[r], later)|
      ensures g'.failed[r] <==> HasFailed(rates[r], outcomes, later)
    {
      if r == rate {
        assert Unfinished(rates[r], later) == Unfinished(rates[r], done) - {i};
        assert i in Unfinished(rates[r], done);
      } else {
        assert Unfinished(rates[r], later) == Unfinished(rates[r], done);
      }
    }
    RecordedRates(g, rates, pastLimit, outcomes, done, rate);
    assert g.drained <= rate;
    var noted := g.(waiting := g'.waiting, failed := g'.failed);
    DrainedFromHere(noted, 0, g.drained);
    SameDrained(noted, g', 0);
  }

  lemma {:induction false} SameDrained(g: Group, h: Group, from: nat)
    requires Shaped(g) && Shaped(h) && g.rates == h.rates && g.waiting == h.waiting && g.failed == h.failed &&
             from <= |g.rates|
    ensures DrainedFrom(g, from) == DrainedFrom(h, from)
    decreases |g.rates| - from
  {
    if from < |g.rates| { SameDrained(g, h, from + 1); }
  }

  lemma OtherRecords(g: Group, rates: seq<seq<nat>>, pastLimit: nat, outcomes: seq<Outcome>, done: set<nat>, i: nat)
    requires Recorded(g, rates, pastLimit, outcomes, done)
    requires forall r :: 0 <= r < |rates| ==> i !in rates[r]
    ensures Recorded(g, rates, pastLimit, outcomes, done + {i})
  {
    forall r | 0 <= r < |rates|
      ensures g.waiting[r] == |Unfinished(rates[r], done + {i})|
      ensures g.failed[r] <==> HasFailed(rates[r], outcomes, done + {i})
    {
      assert Unfinished(rates[r], done + {i}) == Unfinished(rates[r], done);
    }
  }

  lemma NewRecords(rates: seq<seq<nat>>, pastLimit: nat, outcomes: seq<Outcome>)
    requires forall r :: 0 <= r < |rates| ==> rates[r] != [] && Ascending(rates[r])
    ensures Recorded(NewGroup(rates, pastLimit), rates, pastLimit, outcomes, {})
  {
    var g := NewGroup(rates, pastLimit);
    forall r | 0 <= r < |rates| ensures g.waiting[r] == |Unfinished(rates[r], {})| {
      AscendingCount(rates[r]);
    }
  }

  lemma {:induction false} AscendingCount(rate: seq<nat>)
    requires Ascending(rate)
    ensures |Unfinished(rate, {})| == |rate|
  {
    if rate == [] {
      assert Unfinished(rate, {}) == {};
    } else {
      var rest, last := rate[..|rate| - 1], rate[|rate| - 1];
      AscendingCount(rest);
      assert rate == rest + [last];
      assert last !in rest;
      assert Unfinished(rate, {}) == Unfinished(rest, {}) + {last};
    }
  }
}
