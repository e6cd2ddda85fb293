/** The rate group of the adaptive comparison: which rates of a sweep may start.

    `rates` lists the input indices of one sweep, one entry for each offered
    rate from low to high. The sequential rule is `SequentialCount`. The class
    `RateGroup` decides with less knowledge: outcomes come in any order, and it
    counts only how many rates at the low end are complete without a failure. */
module RateGroups {

  datatype Outcome = Finished(row: string, drained: bool) | Failed(error: string)

  predicate Drains(outcome: Outcome) {
    outcome.Finished? && outcome.drained
  }

  function Min(a: nat, b: nat): nat {
    if a <= b then a else b
  }

  // ----- the sequential rule -----

  predicate RateDrains(rate: seq<nat>, outcomes: seq<Outcome>) {
    forall i :: i in rate && i < |outcomes| ==> Drains(outcomes[i])
  }

  /** The number of leading rates that the rule runs when it takes one rate after the other. */
  function SequentialCount(rates: seq<seq<nat>>, pastLimit: nat, outcomes: seq<Outcome>): (count: nat)
    ensures count <= |rates|
  {
    if rates == [] then 0
    else if RateDrains(rates[0], outcomes) then 1 + SequentialCount(rates[1..], pastLimit, outcomes)
    else 1 + Min(pastLimit, |rates| - 1)
  }

  /** Good results of the lowest `drained` rates decide for `pastLimit + 1` further rates, and a failure next decides
      for all. */
  lemma {:induction false} LeadingRatesRun(rates: seq<seq<nat>>, pastLimit: nat, outcomes: seq<Outcome>, drained: nat)
    requires drained <= |rates|
    requires forall r :: 0 <= r < drained ==> RateDrains(rates[r], outcomes)
    ensures Min(|rates|, drained + 1 + pastLimit) <= SequentialCount(rates, pastLimit, outcomes)
    ensures drained == |rates| || !RateDrains(rates[drained], outcomes) ==>
              SequentialCount(rates, pastLimit, outcomes) == Min(|rates|, drained + 1 + pastLimit)
    decreases |rates|
  {
    if rates != [] {
      if drained > 0 {
        LeadingRatesRun(rates[1..], pastLimit, outcomes, drained - 1);
      } else if RateDrains(rates[0], outcomes) {
        LeadingRatesRun(rates[1..], pastLimit, outcomes, 0);
      }
    }
  }

  /** A rate is skipped exactly when some rate more than `pastLimit` places below it fails. */
  lemma {:induction false} SkippedRate(rates: seq<seq<nat>>, pastLimit: nat, outcomes: seq<Outcome>, rate: nat)
    requires rate < |rates|
    ensures rate >= SequentialCount(rates, pastLimit, outcomes) <==>
            exists low: nat :: low < |rates| && low + pastLimit < rate && !RateDrains(rates[low], outcomes)
  {
    if RateDrains(rates[0], outcomes) {
      if rate > 0 {
        SkippedRate(rates[1..], pastLimit, outcomes, rate - 1);
        if low: nat :| low < |rates| && low + pastLimit < rate && !RateDrains(rates[low], outcomes) {
          assert rates[1..][low - 1] == rates[low];
        }
        if low: nat :| low < |rates[1..]| && low + pastLimit < rate - 1 && !RateDrains(rates[1..][low], outcomes) {
          assert rates[low + 1] == rates[1..][low];
        }
      }
    }
  }

  // ----- the incremental group -----

  datatype Group = Group(
    rates: seq<seq<nat>>, pastLimit: nat,
    waiting: seq<int>, failed: seq<bool>,
    started: nat, drained: nat)

  predicate Shaped(g: Group) {
    |g.waiting| == |g.failed| == |g.rates| && g.started <= |g.rates| && g.drained <= |g.rates|
  }

  function NewGroup(rates: seq<seq<nat>>, pastLimit: nat): (g: Group)
    ensures Shaped(g)
  {
    Group(rates, Min(pastLimit, |rates|),
          seq(|rates|, r requires 0 <= r < |rates| => |rates[r]|), seq(|rates|, r => false), 0, 0)
  }

  function Flatten(rates: seq<seq<nat>>): seq<nat> {
    if rates == [] then [] else rates[0] + Flatten(rates[1..])
  }

  lemma {:induction false} FlattenAppend(rates: seq<seq<nat>>, rate: seq<nat>)
    ensures Flatten(rates + [rate]) == Flatten(rates) + rate
  {
    if rates == [] {
      assert rates + [rate] == [rate];
      assert Flatten([rate]) == rate + Flatten([rate][1..]);
    } else {
      assert (rates + [rate])[1..] == rates[1..] + [rate];
      FlattenAppend(rates[1..], rate);
    }
  }

  lemma {:induction false} FlattenMembers(rates: seq<seq<nat>>, i: nat)
    ensures i in Flatten(rates) <==> exists r :: 0 <= r < |rates| && i in rates[r]
  {
    if rates != [] {
      FlattenMembers(rates[1..], i);
      if i in Flatten(rates[1..]) {
        var r :| 0 <= r < |rates[1..]| && i in rates[1..][r];
        assert i in rates[r + 1];
      }
      if r :| 0 <= r < |rates| && i in rates[r] {
        if r > 0 { assert i in rates[1..][r - 1]; }
      }
    }
  }

  function ReleaseEnd(g: Group): nat {
    Min(|g.rates|, g.drained + 1 + g.pastLimit)
  }

  function AfterRelease(g: Group): Group {
    g.(started := if g.started < ReleaseEnd(g) then ReleaseEnd(g) else g.started)
  }

  function ReleasedArms(g: Group): seq<nat>
    requires Shaped(g)
  {
    Flatten(g.rates[g.started..AfterRelease(g).started])
  }

  /** The leading rates from `from` on whose seeds all finished and drained. */
  function DrainedFrom(g: Group, from: nat): (drained: nat)
    requires Shaped(g) && from <= |g.rates|
    ensures from <= drained <= |g.rates|
    ensures forall r :: from <= r < drained ==> g.waiting[r] == 0 && !g.failed[r]
    ensures drained < |g.rates| ==> g.waiting[drained] != 0 || g.failed[drained]
    decreases |g.rates| - from
  {
    if from < |g.rates| && g.waiting[from] == 0 && !g.failed[from] then DrainedFrom(g, from + 1) else from
  }

  function AfterFinish(g: Group, rate: nat, drained: bool): (g': Group)
    requires Shaped(g) && rate < |g.rates|
    ensures Shaped(g')
  {
    var noted := g.(waiting := g.waiting[rate := g.waiting[rate] - 1],
                    failed := g.failed[rate := g.failed[rate] || !drained]);
    noted.(drained := DrainedFrom(noted, g.drained))
  }

  class RateGroup {
    var rates: seq<seq<nat>>
    var pastLimit: nat
    var waiting: seq<int>
    var failed: seq<bool>
    var started: nat
    var drained: nat

    ghost function Contents(): Group
      reads this
    {
      Group(rates, pastLimit, waiting, failed, started, drained)
    }

    constructor (rates: seq<seq<nat>>, pastLimit: nat)
      ensures Contents() == NewGroup(rates, pastLimit)
    {
      var counts: seq<int> := [];
      for rate := 0 to |rates|
        invariant |counts| == rate
        invariant forall r :: 0 <= r < rate ==> counts[r] == |rates[r]|
      {
        counts := counts + [|rates[rate]|];
      }
      this.rates := rates;
      this.pastLimit := Min(pastLimit, |rates|);
      waiting := counts;
      failed := seq(|rates|, _ => false);
      started, drained := 0, 0;
    }

    /** Moves `started` up to the end that the drained rates allow, and gives the seeds in between. */
    method Release() returns (indices: seq<nat>)
      requires Shaped(Contents())
      modifies this`started
      ensures Shaped(Contents())
      ensures Contents() == AfterRelease(old(Contents()))
      ensures indices == ReleasedArms(old(Contents()))
    {
      var end := Min(|rates|, drained + 1 + pastLimit);
      ghost var first := started;
      indices := [];
      assert rates[first..started] == [];
      while started < end
        invariant first <= started <= |rates|
        invariant started <= end || started == first
        invariant indices == Flatten(rates[first..started])
        decreases end - started
      {
        FlattenAppend(rates[first..started], rates[started]);
        assert rates[first..started + 1] == rates[first..started] + [rates[started]];
        indices := indices + rates[started];
        started := started + 1;
      }
    }

    /** Counts one seed less to wait for, notes a failure, and extends the drained prefix when it can. */
    method Finish(rate: nat, armDrained: bool)
      requires Shaped(Contents()) && rate < |rates|
      modifies this`waiting, this`failed, this`drained
      ensures Shaped(Contents())
      ensures Contents() == AfterFinish(old(Contents()), rate, armDrained)
    {
      waiting := waiting[rate := waiting[rate] - 1];
      failed := failed[rate := failed[rate] || !armDrained];
      ghost var noted := Contents();
      while drained < |rates| && waiting[drained] == 0 && !failed[drained]
        invariant Shaped(Contents())
        invariant Contents() == noted.(drained := drained)
        invariant DrainedFrom(noted, drained) == DrainedFrom(noted, noted.drained)
        decreases |rates| - drained
      {
        drained := drained + 1;
      }
    }
  }
}
