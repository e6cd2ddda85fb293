/** How the adaptive comparison splits its arms into groups and rates.

    The key of an input has all its dimensions except the request interval and
    the seed, and one key makes one group. A rate holds the inputs of a group with the same
    request interval; the longest interval, so the lowest offered rate, is first. */
module ArmGrouping {
  import opened Basics
  import opened RateGroups

  /** `dimensions` lists the key dimensions other than the sharing consent. */
  datatype RunInput = RunInput(sharingConsent: string, dimensions: seq<string>, requestEvery: int, seed: int)

  datatype RateGroupKey = RateGroupKey(consent: string, dimensions: seq<string>)

  const PRIVATE_CONSENT: string := "private"

  function KeyOf(input: RunInput): RateGroupKey {
    RateGroupKey(if input.sharingConsent == "" then PRIVATE_CONSENT else input.sharingConsent, input.dimensions)
  }

  ghost predicate Indexed(inputs: seq<RunInput>, indices: seq<nat>) {
    forall a :: 0 <= a < |indices| ==> indices[a] < |inputs|
  }

  ghost predicate InSome(lists: seq<seq<nat>>, i: nat) {
    exists k :: 0 <= k < |lists| && i in lists[k]
  }

  /** The key and the request interval of input `i`, with a fixed value past the end. */
  function Key(inputs: seq<RunInput>, i: nat): RateGroupKey {
    if i < |inputs| then KeyOf(inputs[i]) else RateGroupKey("", [])
  }

  function Interval(inputs: seq<RunInput>, i: nat): int {
    if i < |inputs| then inputs[i].requestEvery else 0
  }

  // ----- groups -----

  /** The groups have ascending members of one key each, in the order of their first members. */
  ghost predicate Grouped(inputs: seq<RunInput>, groups: seq<seq<nat>>, count: nat) {
    && (forall g :: 0 <= g < |groups| ==> groups[g] != [] && Ascending(groups[g]))
    && (forall g, i :: 0 <= g < |groups| && i in groups[g] ==>
          i < count && Key(inputs, i) == Key(inputs, groups[g][0]))
    && (forall g, h :: 0 <= g < h < |groups| ==>
          groups[g][0] < groups[h][0] && Key(inputs, groups[g][0]) != Key(inputs, groups[h][0]))
    && (forall i: nat :: i < count ==> InSome(groups, i))
  }

  method GroupMembers(inputs: seq<RunInput>) returns (groups: seq<seq<nat>>)
    ensures Grouped(inputs, groups, |inputs|)
  {
    groups := [];
    var positions: map<RateGroupKey, nat> := map[];
    for index := 0 to |inputs|
      invariant Grouped(inputs, groups, index)
      invariant forall key :: key in positions ==>
                  positions[key] < |groups| && Key(inputs, groups[positions[key]][0]) == key
      invariant forall g :: 0 <= g < |groups| ==> Key(inputs, groups[g][0]) in positions
    {
      var key := KeyOf(inputs[index]);
      ghost var before := groups;
      if key !in positions {
        positions := positions[key := |groups|];
        groups := groups + [[]];
      }
      var position := positions[key];
      groups := groups[position := groups[position] + [index]];
      assert [] + [index] == [index];
      assert position == |before| ==> groups == before + [[index]];
      GroupGrows(inputs, before, groups, position, index);
    }
  }

  /** One step of the grouping: the next input opens a new group, or joins the group of its key. */
  lemma GroupGrows(inputs: seq<RunInput>, before: seq<seq<nat>>, groups: seq<seq<nat>>, position: nat, index: nat)
    requires Grouped(inputs, before, index) && index < |inputs|
    requires if position < |before|
             then Key(inputs, before[position][0]) == Key(inputs, index) &&
                  groups == before[position := before[position] + [index]]
             else position == |before| && groups == before + [[index]] &&
                  forall g :: 0 <= g < |before| ==> Key(inputs, before[g][0]) != Key(inputs, index)
    ensures Grouped(inputs, groups, index + 1)
  {
    assert index in groups[position];
    assert forall g :: 0 <= g < |before| ==> groups[g][0] == before[g][0] && before[g][0] in before[g];
    forall g | 0 <= g < |groups|
      ensures groups[g] != [] && Ascending(groups[g])
      ensures forall i :: i in groups[g] ==> i < index + 1 && Key(inputs, i) == Key(inputs, groups[g][0])
    {
      if g < |before| {
        assert forall a :: 0 <= a < |before[g]| ==> before[g][a] in before[g];
        assert forall i :: i in groups[g] ==> i in before[g] || (g == position && i == index);
      }
    }
    forall i: nat {:trigger InSome(groups, i)} | i < index + 1 ensures InSome(groups, i) {
      if i < index {
        assert InSome(before, i);
        var g :| 0 <= g < |before| && i in before[g];
        assert i in groups[g];
      }
    }
  }

  // ----- rates -----

  /** The order of the stable sort on ascending members: longer interval first, then input order. */
  predicate Before(inputs: seq<RunInput>, i: nat, j: nat) {
    Interval(inputs, i) > Interval(inputs, j) || (Interval(inputs, i) == Interval(inputs, j) && i < j)
  }

  ghost predicate Sorted(inputs: seq<RunInput>, members: seq<nat>) {
    forall a, b :: 0 <= a < b < |members| ==> Before(inputs, members[a], members[b])
  }

  /** Stands for the library's stable sort by descending request interval. */
  method StableSort(inputs: seq<RunInput>, members: seq<nat>) returns (sorted: seq<nat>)
    requires Indexed(inputs, members) && Ascending(members)
    ensures Sorted(inputs, sorted)
    ensures forall i :: i in sorted <==> i in members
    ensures |sorted| == |members|
  {
    sorted := [];
    for next := 0 to |members|
      invariant Sorted(inputs, sorted)
      invariant forall i :: i in sorted <==> i in members[..next]
      invariant |sorted| == next
    {
      var index := members[next];
      var at := |sorted|;
      while at > 0 && Interval(inputs, sorted[at - 1]) < Interval(inputs, index)
        invariant 0 <= at <= |sorted|
        invariant forall a :: at <= a < |sorted| ==> Interval(inputs, sorted[a]) < Interval(inputs, index)
      {
        at := at - 1;
      }
      assert members[..next + 1] == members[..next] + [index];
      forall a | 0 <= a < at ensures Before(inputs, sorted[a], index) {
        assert sorted[a] in members[..next] && sorted[at - 1] in members[..next];
        assert a < at - 1 ==> Before(inputs, sorted[a], sorted[at - 1]);
      }
      SortedInsert(inputs, sorted, at, index);
      sorted := sorted[..at] + [index] + sorted[at..];
    }
    assert members[..|members|] == members;
  }

  lemma SortedInsert(inputs: seq<RunInput>, sorted: seq<nat>, at: nat, index: nat)
    requires Sorted(inputs, sorted) && at <= |sorted|
    requires forall a :: 0 <= a < at ==> Before(inputs, sorted[a], index)
    requires forall a :: at <= a < |sorted| ==> Before(inputs, index, sorted[a])
    ensures Sorted(inputs, sorted[..at] + [index] + sorted[at..])
    ensures forall i :: i in sorted[..at] + [index] + sorted[at..] <==> i in sorted || i == index
  {
    var longer := sorted[..at] + [index] + sorted[at..];
    assert sorted == sorted[..at] + sorted[at..];
    forall a, b | 0 <= a < b < |longer| ensures Before(inputs, longer[a], longer[b]) {
      if a != at && b != at {
        var a', b' := if a < at then a else a - 1, if b < at then b else b - 1;
        assert longer[a] == sorted[a'] && longer[b] == sorted[b'];
      }
    }
  }

  /** The rates hold exactly the members, one request interval each, longest first, seeds in input order. */
  ghost predicate Rated(inputs: seq<RunInput>, members: seq<nat>, rates: seq<seq<nat>>) {
    && (forall r :: 0 <= r < |rates| ==> rates[r] != [] && Ascending(rates[r]))
    && (forall r, i :: 0 <= r < |rates| && i in rates[r] ==>
          i in members && Interval(inputs, i) == Interval(inputs, rates[r][0]))
    && (forall r, s :: 0 <= r < s < |rates| ==> Interval(inputs, rates[r][0]) > Interval(inputs, rates[s][0]))
    && (forall i :: i in members ==> InSome(rates, i))
  }

  /** The rates of the first `position` sorted indices, with the last of these at the end of the last rate. */
  ghost predicate Split(inputs: seq<RunInput>, sorted: seq<nat>, position: nat, rates: seq<seq<nat>>)
    requires position <= |sorted|
  {
    && Rated(inputs, sorted[..position], rates)
    && if position == 0 then rates == []
       else rates != [] && Last(rates) != [] && sorted[position - 1] == Last(Last(rates))
  }

  method SplitRates(inputs: seq<RunInput>, members: seq<nat>) returns (rates: seq<seq<nat>>)
    requires Indexed(inputs, members) && Ascending(members)
    ensures Rated(inputs, members, rates)
  {
    var sorted := StableSort(inputs, members);
    rates := [];
    for position := 0 to |sorted|
      invariant Split(inputs, sorted, position, rates)
    {
      rates := NextRates(inputs, sorted, position, rates);
    }
    assert sorted[..|sorted|] == sorted;
  }

  /** The body of the split loop. */
  method NextRates(inputs: seq<RunInput>, sorted: seq<nat>, position: nat, before: seq<seq<nat>>)
    returns (rates: seq<seq<nat>>)
    requires Sorted(inputs, sorted) && position < |sorted| && Split(inputs, sorted, position, before)
    ensures Split(inputs, sorted, position + 1, rates)
  {
    rates := before;
    if position == 0 || Interval(inputs, sorted[position]) != Interval(inputs, sorted[position - 1]) {
      rates := rates + [[]];
    }
    rates := rates[|rates| - 1 := rates[|rates| - 1] + [sorted[position]]];
    assert [] + [sorted[position]] == [sorted[position]];
    assert |rates| > |before| ==> rates == before + [[sorted[position]]];
    LastRateGrows(inputs, sorted, position, before, rates);
  }

  ghost function Last<T>(items: seq<T>): T
    requires items != []
  {
    items[|items| - 1]
  }

  /** One step of the split: the next sorted index opens a new rate, or joins the last one. */
  lemma LastRateGrows(inputs: seq<RunInput>, sorted: seq<nat>, position: nat, before: seq<seq<nat>>,
                      rates: seq<seq<nat>>)
    requires Sorted(inputs, sorted) && position < |sorted|
    requires Split(inputs, sorted, position, before)
    requires if position == 0 || Interval(inputs, sorted[position]) != Interval(inputs, sorted[position - 1])
             then rates == before + [[sorted[position]]]
             else rates == before[|before| - 1 := Last(before) + [sorted[position]]]
    ensures Split(inputs, sorted, position + 1, rates)
  {
    var index := sorted[position];
    assert sorted[..position + 1] == sorted[..position] + [index];
    assert index in Last(rates);
    if position > 0 {
      assert sorted[position - 1] in Last(before);
      assert Before(inputs, sorted[position - 1], index);
    }
    forall i | i in sorted[..position + 1] ensures InSome(rates, i) {
      if i in sorted[..position] {
        assert InSome(before, i);
        var r :| 0 <= r < |before| && i in before[r];
        assert i in rates[r];
      }
    }
  }

  // ----- places -----

  datatype ArmPlace = ArmPlace(group: nat, rate: nat)

  ghost predicate InRate(groups: seq<seq<seq<nat>>>, g: nat, r: nat, i: nat) {
    g < |groups| && r < |groups[g]| && i in groups[g][r]
  }

  /** Each input index is in one rate of one group, named by its place. */
  ghost predicate Placed(places: seq<ArmPlace>, groups: seq<seq<seq<nat>>>) {
    && (forall i :: 0 <= i < |places| ==> InRate(groups, places[i].group, places[i].rate, i))
    && (forall g: nat, r: nat, i: nat :: InRate(groups, g, r, i) ==> i < |places| && places[i] == ArmPlace(g, r))
    && (forall g, r :: 0 <= g < |groups| && 0 <= r < |groups[g]| ==> groups[g][r] != [] && Ascending(groups[g][r]))
  }

  /** The places also follow the inputs: one key a group, one interval a rate, longest interval first. */
  ghost predicate PlacedBy(inputs: seq<RunInput>, places: seq<ArmPlace>, groups: seq<seq<seq<nat>>>) {
    && |places| == |inputs|
    && Placed(places, groups)
    && (forall i, j :: 0 <= i < |places| && 0 <= j < |places| ==>
          (places[i].group == places[j].group <==> Key(inputs, i) == Key(inputs, j)))
    && (forall i, j :: 0 <= i < |places| && 0 <= j < |places| && places[i].group == places[j].group ==>
          (places[i].rate < places[j].rate <==> Interval(inputs, i) > Interval(inputs, j)))
  }

  /** The places written so far: all groups before `group`, and the rates of `next` before `rate`. */
  ghost predicate Marked(places: seq<ArmPlace>, groups: seq<seq<seq<nat>>>) {
    forall g: nat, r: nat, i: nat :: InRate(groups, g, r, i) ==> i < |places| && places[i] == ArmPlace(g, r)
  }

  ghost predicate RatedAll(inputs: seq<RunInput>, all: seq<seq<nat>>, groups: seq<seq<seq<nat>>>) {
    |groups| <= |all| && forall g :: 0 <= g < |groups| ==> Rated(inputs, all[g], groups[g])
  }

  method PlaceArms(inputs: seq<RunInput>) returns (places: seq<ArmPlace>, groups: seq<seq<seq<nat>>>)
    ensures PlacedBy(inputs, places, groups)
  {
    var all := GroupMembers(inputs);
    places := seq(|inputs|, _ => ArmPlace(0, 0));
    groups := [];
    for group := 0 to |all|
      invariant |places| == |inputs| && |groups| == group
      invariant RatedAll(inputs, all, groups) && Marked(places, groups)
    {
      assert forall a :: 0 <= a < |all[group]| ==> all[group][a] in all[group];
      var rates := SplitRates(inputs, all[group]);
      places := PlaceRates(inputs, all, groups, rates, places);
      groups := groups + [rates];
    }
    PlacesFollowInputs(inputs, places, all, groups);
  }

  method PlaceRates(inputs: seq<RunInput>, ghost all: seq<seq<nat>>, groups: seq<seq<seq<nat>>>,
                    rates: seq<seq<nat>>, before: seq<ArmPlace>)
    returns (places: seq<ArmPlace>)
    requires Grouped(inputs, all, |inputs|) && RatedAll(inputs, all, groups) && |groups| < |all|
    requires Rated(inputs, all[|groups|], rates)
    requires |before| == |inputs| && Marked(before, groups)
    ensures |places| == |inputs| && Marked(places, groups + [rates])
  {
    places := before;
    assert Marked(places, groups + [rates[..0]]) by {
      assert forall g: nat, r: nat, i: nat :: InRate(groups + [rates[..0]], g, r, i) ==> InRate(groups, g, r, i);
    }
    for rate := 0 to |rates|
      invariant |places| == |inputs|
      invariant Marked(places, groups + [rates[..rate]])
    {
      assert Marked(places, groups + [rates[..rate] + [rates[rate][..0]]]) by {
        assert forall g: nat, r: nat, i: nat :: InRate(groups + [rates[..rate] + [rates[rate][..0]]], g, r, i) ==>
            InRate(groups + [rates[..rate]], g, r, i);
      }
      for position := 0 to |rates[rate]|
        invariant |places| == |inputs|
        invariant Marked(places, groups + [rates[..rate] + [rates[rate][..position]]])
      {
        MarkNext(inputs, all, groups, rates, rate, position, places);
        places := places[rates[rate][position] := ArmPlace(|groups|, rate)];
      }
      assert rates[rate][..|rates[rate]|] == rates[rate];
      assert rates[..rate] + [rates[rate]] == rates[..rate + 1];
    }
    assert rates[..|rates|] == rates;
  }

  /** The next index has not been placed before, so writing its place keeps the earlier places. */
  lemma MarkNext(inputs: seq<RunInput>, all: seq<seq<nat>>, groups: seq<seq<seq<nat>>>, rates: seq<seq<nat>>,
                 rate: nat, position: nat, places: seq<ArmPlace>)
    requires Grouped(inputs, all, |inputs|) && RatedAll(inputs, all, groups) && |groups| < |all|
    requires Rated(inputs, all[|groups|], rates) && rate < |rates| && position < |rates[rate]|
    requires |places| == |inputs| && Marked(places, groups + [rates[..rate] + [rates[rate][..position]]])
    ensures rates[rate][position] < |inputs|
    ensures Marked(places[rates[rate][position] := ArmPlace(|groups|, rate)],
                   groups + [rates[..rate] + [rates[rate][..position + 1]]])
  {
    var index := rates[rate][position];
    assert index in rates[rate] && index in all[|groups|];
    var before := groups + [rates[..rate] + [rates[rate][..position]]];
    var after := groups + [rates[..rate] + [rates[rate][..position + 1]]];
    var next := places[index := ArmPlace(|groups|, rate)];
    forall g: nat, r: nat, i: nat | InRate(after, g, r, i) ensures i < |next| && next[i] == ArmPlace(g, r) {
      if g < |groups| {
        assert InRate(before, g, r, i) && i in all[g];
        assert Key(inputs, i) == Key(inputs, all[g][0]);
      } else if r < rate {
        assert InRate(before, g, r, i) && i in rates[r];
        assert Interval(inputs, i) == Interval(inputs, rates[r][0]);
        assert Interval(inputs, index) == Interval(inputs, rates[rate][0]);
      } else if i != index {
        assert rates[rate][..position + 1] == rates[rate][..position] + [index];
        assert InRate(before, g, r, i);
      }
    }
  }

  lemma PlacesFollowInputs(inputs: seq<RunInput>, places: seq<ArmPlace>, all: seq<seq<nat>>, groups: seq<seq<seq<nat>>>)
    requires Grouped(inputs, all, |inputs|) && |groups| == |all| && |places| == |inputs|
    requires RatedAll(inputs, all, groups) && Marked(places, groups)
    ensures PlacedBy(inputs, places, groups)
  {
    forall i: nat | i < |places|
      ensures InRate(groups, places[i].group, places[i].rate, i) && i in all[places[i].group]
      ensures Key(inputs, i) == Key(inputs, all[places[i].group][0])
    {
      PlaceOf(inputs, places, all, groups, i);
    }
    forall i, j | 0 <= i < |places| && 0 <= j < |places| && places[i].group == places[j].group
      ensures places[i].rate < places[j].rate <==> Interval(inputs, i) > Interval(inputs, j)
    {
      PlaceOf(inputs, places, all, groups, i);
      PlaceOf(inputs, places, all, groups, j);
    }
    RatesNonempty(inputs, all, groups);
  }

  lemma PlaceOf(inputs: seq<RunInput>, places: seq<ArmPlace>, all: seq<seq<nat>>, groups: seq<seq<seq<nat>>>, i: nat)
    requires Grouped(inputs, all, |inputs|) && |groups| == |all| && |places| == |inputs|
    requires RatedAll(inputs, all, groups) && Marked(places, groups) && i < |places|
    ensures InRate(groups, places[i].group, places[i].rate, i) && i in all[places[i].group]
    ensures Rated(inputs, all[places[i].group], groups[places[i].group])
    ensures Key(inputs, i) == Key(inputs, all[places[i].group][0])
    ensures Interval(inputs, i) == Interval(inputs, groups[places[i].group][places[i].rate][0])
  {
    assert InSome(all, i);
    var g :| 0 <= g < |all| && i in all[g];
    assert InSome(groups[g], i);
    var r :| 0 <= r < |groups[g]| && i in groups[g][r];
    assert InRate(groups, g, r, i);
  }

  lemma RatesNonempty(inputs: seq<RunInput>, all: seq<seq<nat>>, groups: seq<seq<seq<nat>>>)
    requires |groups| == |all| && RatedAll(inputs, all, groups)
    ensures forall g, r :: 0 <= g < |groups| && 0 <= r < |groups[g]| ==> groups[g][r] != [] && Ascending(groups[g][r])
  {
    forall g, r | 0 <= g < |groups| && 0 <= r < |groups[g]| ensures groups[g][r] != [] && Ascending(groups[g][r]) {
      assert Rated(inputs, all[g], groups[g]);
    }
  }
}
