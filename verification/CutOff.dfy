/** Stations outside the main group of mutual reach. */
module CutOffs {
  import opened Basics

  type Matrix = seq<seq<bool>>

  datatype Link = Link(index: nat, out: seq<nat>, into: seq<nat>)

  datatype StationGroup = StationGroup(size: nat, misses: nat)

  /** The items that satisfy `keep`, in their order. */
  ghost function Select(items: seq<nat>, keep: nat -> bool): (kept: seq<nat>)
    ensures forall x :: x in kept <==> x in items && keep(x)
  {
    if items == [] then []
    else
      var before, last := items[..|items| - 1], items[|items| - 1];
      assert items == before + [last];
      if keep(last) then Select(before, keep) + [last] else Select(before, keep)
  }

  lemma {:induction false} SelectSame(items: seq<nat>, keep: nat -> bool, keep': nat -> bool)
    requires forall x :: x in items ==> keep(x) == keep'(x)
    ensures Select(items, keep) == Select(items, keep')
  {
    if items != [] {
      var before, last := items[..|items| - 1], items[|items| - 1];
      assert items == before + [last];
      SelectSame(before, keep, keep');
    }
  }

  lemma {:induction false} SelectNone(items: seq<nat>, keep: nat -> bool)
    requires forall x :: x in items ==> !keep(x)
    ensures Select(items, keep) == []
  {
    if items != [] {
      assert items == items[..|items| - 1] + [items[|items| - 1]];
      SelectNone(items[..|items| - 1], keep);
    }
  }

  lemma {:induction false} SelectAscending(items: seq<nat>, keep: nat -> bool)
    requires Ascending(items)
    ensures Ascending(Select(items, keep))
  {
    if items != [] {
      var before, last := items[..|items| - 1], items[|items| - 1];
      SelectAscending(before, keep);
      var shorter := Select(before, keep);
      forall a | 0 <= a < |shorter| ensures shorter[a] < last {
        assert shorter[a] in shorter && shorter[a] in before;
        var k :| 0 <= k < |before| && before[k] == shorter[a];
        assert items[k] == before[k];
      }
    }
  }

  lemma SelectMore(items: seq<nat>, k: nat, keep: nat -> bool)
    requires k < |items|
    ensures Select(items[..k + 1], keep) == Select(items[..k], keep) + if keep(items[k]) then [items[k]] else []
  {
    assert items[..k + 1][..k] == items[..k];
  }

  /** The numbers of the stations that have berths. */
  ghost function Stations(checked: seq<bool>): (stations: seq<nat>)
    ensures Ascending(stations) && forall i: int :: i in stations <==> 0 <= i < |checked| && checked[i]
  {
    if checked == [] then []
    else
      var last := |checked| - 1;
      var before := Stations(checked[..last]);
      assert forall k :: 0 <= k < |before| ==> before[k] in before;
      before + if checked[last] then [last] else []
  }

  /** The matrix has a cell for every pair of stations. */
  ghost predicate Fits(stations: seq<nat>, reach: Matrix) {
    Ascending(stations) && forall a :: a in stations ==> a < |reach| && HasCells(stations, reach[a])
  }

  ghost predicate HasCells(stations: seq<nat>, row: seq<bool>) {
    forall b :: b in stations ==> b < |row|
  }

  predicate At(reach: Matrix, a: nat, b: nat) {
    a < |reach| && b < |reach[a]| && reach[a][b]
  }

  predicate Mutual(reach: Matrix, a: nat, b: nat) {
    a == b || (At(reach, a, b) && At(reach, b, a))
  }

  /** Reach from one station with berths to another composes. */
  ghost predicate Transitive(stations: seq<nat>, reach: Matrix) {
    forall a, b, c :: a in stations && b in stations && c in stations && At(reach, a, b) && At(reach, b, c) ==>
      At(reach, a, c)
  }

  /** Every two stations reach each other. */
  ghost predicate Connected(stations: seq<nat>, reach: Matrix) {
    forall a, b :: a in stations && b in stations ==> Mutual(reach, a, b)
  }

  ghost function InClass(reach: Matrix, a: nat): nat -> bool {
    (b: nat) => Mutual(reach, a, b)
  }

  ghost function NotInClass(reach: Matrix, a: nat): nat -> bool {
    (b: nat) => !Mutual(reach, a, b)
  }

  ghost function Unreached(reach: Matrix, a: nat): nat -> bool {
    (b: nat) => b != a && !At(reach, a, b)
  }

  ghost function NotReaching(reach: Matrix, a: nat): nat -> bool {
    (b: nat) => b != a && !At(reach, b, a)
  }

  ghost function OutsideGroup(group: map<nat, nat>, main: int): nat -> bool {
    (a: nat) => a in group && group[a] != main
  }

  ghost function Class(stations: seq<nat>, reach: Matrix, a: nat): seq<nat> {
    Select(stations, InClass(reach, a))
  }

  /** The other stations that `a` cannot reach. */
  ghost function Out(stations: seq<nat>, reach: Matrix, a: nat): seq<nat> {
    Select(stations, Unreached(reach, a))
  }

  /** The other stations that cannot reach `a`. */
  ghost function In(stations: seq<nat>, reach: Matrix, a: nat): seq<nat> {
    Select(stations, NotReaching(reach, a))
  }

  ghost function Misses(stations: seq<nat>, reach: Matrix, a: nat): nat {
    |Out(stations, reach, a)| + |In(stations, reach, a)|
  }

  lemma MutualTransitive(stations: seq<nat>, reach: Matrix, a: nat, b: nat, c: nat)
    requires Transitive(stations, reach) && a in stations && b in stations && c in stations
    requires Mutual(reach, a, b) && Mutual(reach, b, c)
    ensures Mutual(reach, a, c)
  {
    if a != b && b != c {
      assert At(reach, a, b) && At(reach, b, c) && At(reach, c, b) && At(reach, b, a);
    }
  }

  /** Every representative gives a class the same members and the same misses. */
  lemma ClassAgrees(stations: seq<nat>, reach: Matrix, a: nat, b: nat)
    requires Transitive(stations, reach) && a in stations && b in stations && Mutual(reach, a, b)
    ensures Class(stations, reach, a) == Class(stations, reach, b)
    ensures Misses(stations, reach, a) == Misses(stations, reach, b)
  {
    forall c | c in stations ensures Mutual(reach, a, c) == Mutual(reach, b, c) {
      if Mutual(reach, a, c) { MutualTransitive(stations, reach, b, a, c); }
      if Mutual(reach, b, c) { MutualTransitive(stations, reach, a, b, c); }
    }
    SelectSame(stations, InClass(reach, a), InClass(reach, b));
    if a != b {
      forall c | c in stations
        ensures (c != a && !At(reach, a, c)) == (c != b && !At(reach, b, c))
        ensures (c != a && !At(reach, c, a)) == (c != b && !At(reach, c, b))
      {
        assert At(reach, a, b) && At(reach, b, a);
      }
      SelectSame(stations, Unreached(reach, a), Unreached(reach, b));
      SelectSame(stations, NotReaching(reach, a), NotReaching(reach, b));
    }
  }

  // ----- the main group -----

  ghost function First(stations: seq<nat>, reach: Matrix, a: nat): nat
    requires a in stations
  {
    Class(stations, reach, a)[0]
  }

  /** The class of `a` ranks before the class of `b`: larger, then fewer misses, then an earlier first station. */
  ghost predicate Before(stations: seq<nat>, reach: Matrix, a: nat, b: nat)
    requires a in stations && b in stations
  {
    var sizeA, sizeB := |Class(stations, reach, a)|, |Class(stations, reach, b)|;
    var missesA, missesB := Misses(stations, reach, a), Misses(stations, reach, b);
    || sizeA > sizeB
    || (sizeA == sizeB && missesA < missesB)
    || (sizeA == sizeB && missesA == missesB && First(stations, reach, a) < First(stations, reach, b))
  }

  ghost predicate IsMain(stations: seq<nat>, reach: Matrix, main: nat) {
    main in stations && forall a :: a in stations ==> !Before(stations, reach, a, main)
  }

  /** The stations outside the class of `main`, each with its missing links. */
  ghost predicate LinksOutside(stations: seq<nat>, reach: Matrix, main: nat, result: seq<Link>) {
    LinksOf(stations, reach, Select(stations, NotInClass(reach, main)), result)
  }

  ghost predicate LinksOf(stations: seq<nat>, reach: Matrix, outside: seq<nat>, result: seq<Link>) {
    && |result| == |outside|
    && forall k :: 0 <= k < |outside| ==>
         result[k] == Link(outside[k], Out(stations, reach, outside[k]), In(stations, reach, outside[k]))
  }

  ghost predicate IsCutOff(stations: seq<nat>, reach: Matrix, result: seq<Link>) {
    if stations == [] then result == []
    else exists main :: IsMain(stations, reach, main) && LinksOutside(stations, reach, main, result)
  }

  /** Any two main stations are in one class. */
  lemma MainUnique(stations: seq<nat>, reach: Matrix, a: nat, b: nat)
    requires Transitive(stations, reach)
    requires IsMain(stations, reach, a) && IsMain(stations, reach, b)
    ensures Mutual(reach, a, b)
  {
    var first := First(stations, reach, a);
    assert First(stations, reach, b) == first;
    assert first in Class(stations, reach, a) && first in Class(stations, reach, b);
    MutualTransitive(stations, reach, a, first, b);
  }

  /** The classes and their ranks leave one possible result. */
  lemma CutOffUnique(stations: seq<nat>, reach: Matrix, one: seq<Link>, two: seq<Link>)
    requires Transitive(stations, reach)
    requires IsCutOff(stations, reach, one) && IsCutOff(stations, reach, two)
    ensures one == two
  {
    if stations != [] {
      var a :| IsMain(stations, reach, a) && LinksOutside(stations, reach, a, one);
      var b :| IsMain(stations, reach, b) && LinksOutside(stations, reach, b, two);
      MainUnique(stations, reach, a, b);
      SameOutside(stations, reach, a, b);
      LinksUnique(stations, reach, Select(stations, NotInClass(reach, a)), one, two);
    }
  }

  lemma SameOutside(stations: seq<nat>, reach: Matrix, a: nat, b: nat)
    requires Transitive(stations, reach) && a in stations && b in stations && Mutual(reach, a, b)
    ensures Select(stations, NotInClass(reach, a)) == Select(stations, NotInClass(reach, b))
  {
    forall c | c in stations ensures Mutual(reach, a, c) == Mutual(reach, b, c) {
      if Mutual(reach, a, c) { MutualTransitive(stations, reach, b, a, c); }
      if Mutual(reach, b, c) { MutualTransitive(stations, reach, a, b, c); }
    }
    SelectSame(stations, NotInClass(reach, a), NotInClass(reach, b));
  }

  lemma LinksUnique(stations: seq<nat>, reach: Matrix, outside: seq<nat>, one: seq<Link>, two: seq<Link>)
    requires LinksOf(stations, reach, outside, one) && LinksOf(stations, reach, outside, two)
    ensures one == two
  {
  }

  /** A station is reported exactly when it is outside the main class, once, with a missing link to name. */
  lemma ReportedExactly(stations: seq<nat>, reach: Matrix, main: nat, result: seq<Link>)
    requires Ascending(stations) && main in stations && LinksOutside(stations, reach, main, result)
    ensures forall a :: a in stations ==>
      ((exists k :: 0 <= k < |result| && result[k].index == a) <==> !Mutual(reach, main, a))
    ensures forall j, k :: 0 <= j < k < |result| ==> result[j].index < result[k].index
    ensures forall k :: 0 <= k < |result| ==> main in result[k].out || main in result[k].into
  {
    var outside := Select(stations, NotInClass(reach, main));
    SelectAscending(stations, NotInClass(reach, main));
    forall a | a in stations ensures (exists k :: 0 <= k < |result| && result[k].index == a) <==>
      !Mutual(reach, main, a) {
      if !Mutual(reach, main, a) {
        assert a in outside;
        var k :| 0 <= k < |outside| && outside[k] == a;
        assert result[k].index == a;
      }
      if k :| 0 <= k < |result| && result[k].index == a {
        assert outside[k] in outside;
      }
    }
    forall k | 0 <= k < |result| ensures main in result[k].out || main in result[k].into {
      assert outside[k] in outside;
    }
  }

  /** Nothing is reported exactly when all stations reach each other. */
  lemma NothingCutOff(stations: seq<nat>, reach: Matrix, result: seq<Link>)
    requires Transitive(stations, reach) && IsCutOff(stations, reach, result)
    ensures result == [] <==> Connected(stations, reach)
  {
    if stations != [] {
      var main :| IsMain(stations, reach, main) && LinksOutside(stations, reach, main, result);
      var outside := Select(stations, NotInClass(reach, main));
      if result == [] {
        forall a, b | a in stations && b in stations ensures Mutual(reach, a, b) {
          assert a !in outside && b !in outside;
          MutualTransitive(stations, reach, a, main, b);
        }
      } else {
        assert outside[0] in outside;
        assert !Mutual(reach, main, outside[0]);
      }
    }
  }

  // ----- the pass over the stations -----

  method StationList(checked: seq<bool>) returns (stations: seq<nat>)
    ensures stations == Stations(checked)
  {
    stations := [];
    for index := 0 to |checked|
      invariant stations == Stations(checked[..index])
    {
      assert checked[..index + 1][..index] == checked[..index];
      if checked[index] {
        stations := stations + [index];
      }
    }
    assert checked[..|checked|] == checked;
  }

  lemma Cell(stations: seq<nat>, reach: Matrix, a: nat, b: nat)
    requires Fits(stations, reach) && a in stations && b in stations
    ensures a < |reach| && b < |reach| && b < |reach[a]| && a < |reach[b]|
  {
    assert HasCells(stations, reach[a]) && HasCells(stations, reach[b]);
  }

  method Links(stations: seq<nat>, reach: Matrix, index: nat) returns (link: Link)
    requires Fits(stations, reach) && index in stations
    ensures link == Link(index, Out(stations, reach, index), In(stations, reach, index))
  {
    var out, into := [], [];
    for k := 0 to |stations|
      invariant out == Select(stations[..k], Unreached(reach, index))
      invariant into == Select(stations[..k], NotReaching(reach, index))
    {
      var other := stations[k];
      Cell(stations, reach, index, other);
      SelectMore(stations, k, Unreached(reach, index));
      SelectMore(stations, k, NotReaching(reach, index));
      if other != index {
        if !reach[index][other] {
          out := out + [other];
        }
        if !reach[other][index] {
          into := into + [other];
        }
      }
    }
    assert stations[..|stations|] == stations;
    link := Link(index, out, into);
  }

  ghost predicate Filled(stations: seq<nat>, reach: Matrix, seed: nat, before: map<nat, nat>, number: nat,
                         group: map<nat, nat>) {
    && (forall a :: a in group <==> a in before || (a in stations && Mutual(reach, seed, a)))
    && (forall a :: a in group ==> group[a] == if a in stations && Mutual(reach, seed, a) then number else before[a])
  }

  lemma FilledMore(stations: seq<nat>, reach: Matrix, k: nat, seed: nat, before: map<nat, nat>, number: nat,
                   group: map<nat, nat>)
    requires k < |stations| && Filled(stations[..k], reach, seed, before, number, group)
    ensures Filled(stations[..k + 1], reach, seed, before, number,
                   if Mutual(reach, seed, stations[k]) then group[stations[k] := number] else group)
  {
    assert stations[..k + 1] == stations[..k] + [stations[k]];
  }

  /** Gives the class of the seed the next group number. */
  method FillGroup(stations: seq<nat>, reach: Matrix, seed: nat, before: map<nat, nat>, number: nat)
    returns (group: map<nat, nat>, size: nat)
    requires Fits(stations, reach) && seed in stations
    ensures size == |Class(stations, reach, seed)|
    ensures Filled(stations, reach, seed, before, number, group)
  {
    group, size := before, 0;
    for k := 0 to |stations|
      invariant size == |Select(stations[..k], InClass(reach, seed))|
      invariant Filled(stations[..k], reach, seed, before, number, group)
    {
      var index := stations[k];
      Cell(stations, reach, seed, index);
      SelectMore(stations, k, InClass(reach, seed));
      FilledMore(stations, reach, k, seed, before, number, group);
      if index == seed || (reach[seed][index] && reach[index][seed]) {
        group := group[index := number];
        size := size + 1;
      }
    }
    assert stations[..|stations|] == stations;
  }

  ghost predicate Beats(a: StationGroup, b: StationGroup) {
    a.size > b.size || (a.size == b.size && a.misses < b.misses)
  }

  /** No group so far beats the main one, and the earlier ones do not tie with it. */
  ghost predicate Leads(groups: seq<StationGroup>, main: int) {
    if groups == [] then main == -1
    else
      && 0 <= main < |groups|
      && (forall g :: 0 <= g < |groups| ==> !Beats(groups[g], groups[main]))
      && (forall g :: 0 <= g < main ==> groups[g] != groups[main])
  }

  /** The groups are the classes of their seeds, which come in station order. */
  ghost predicate Seeded(stations: seq<nat>, reach: Matrix, groups: seq<StationGroup>, seeds: seq<nat>) {
    && |seeds| == |groups| && Ascending(seeds)
    && forall g :: 0 <= g < |seeds| ==>
        && seeds[g] in stations && seeds[g] == First(stations, reach, seeds[g])
        && groups[g] == GroupOf(stations, reach, seeds[g])
  }

  /** A station has number g exactly when it is in the class of seed g. */
  ghost predicate Numbered(stations: seq<nat>, reach: Matrix, group: map<nat, nat>, seeds: seq<nat>) {
    && (forall a :: a in group ==> a in stations && group[a] < |seeds|)
    && (forall a, g :: a in stations && 0 <= g < |seeds| ==>
          (Mutual(reach, seeds[g], a) <==> a in group && group[a] == g))
  }

  /** No station of the seed's class has a number yet. */
  lemma NeverOverwritten(stations: seq<nat>, reach: Matrix, group: map<nat, nat>, seeds: seq<nat>, seed: nat, a: nat)
    requires Transitive(stations, reach) && Numbered(stations, reach, group, seeds)
    requires forall g :: 0 <= g < |seeds| ==> seeds[g] in stations
    requires seed in stations && seed !in group && a in stations && Mutual(reach, seed, a)
    ensures a !in group
  {
    if a in group {
      var g := group[a];
      assert Mutual(reach, seeds[g], a);
      MutualTransitive(stations, reach, seeds[g], a, seed);
      assert false;
    }
  }

  lemma NumberedMore(stations: seq<nat>, reach: Matrix, before: map<nat, nat>, seeds: seq<nat>, seed: nat,
                     group: map<nat, nat>)
    requires Transitive(stations, reach) && Numbered(stations, reach, before, seeds)
    requires forall g :: 0 <= g < |seeds| ==> seeds[g] in stations
    requires seed in stations && seed !in before
    requires Filled(stations, reach, seed, before, |seeds|, group)
    ensures Numbered(stations, reach, group, seeds + [seed])
    ensures forall a :: a in before ==> group[a] == before[a]
  {
    forall a | a in stations && Mutual(reach, seed, a) ensures a !in before {
      NeverOverwritten(stations, reach, before, seeds, seed, a);
    }
  }

  /** An unnumbered station is the first of its class when all earlier ones are numbered. */
  lemma SeedIsFirst(stations: seq<nat>, reach: Matrix, group: map<nat, nat>, seeds: seq<nat>, k: nat)
    requires Ascending(stations) && Transitive(stations, reach) && Numbered(stations, reach, group, seeds)
    requires forall g :: 0 <= g < |seeds| ==> seeds[g] in stations
    requires k < |stations| && stations[k] !in group && forall j :: 0 <= j < k ==> stations[j] in group
    ensures First(stations, reach, stations[k]) == stations[k]
  {
    var members := Class(stations, reach, stations[k]);
    SelectAscending(stations, InClass(reach, stations[k]));
    assert stations[k] in members && members[0] in members;
    if members[0] != stations[k] {
      var j :| 0 <= j < |stations| && stations[j] == members[0];
      var i :| 0 <= i < |members| && members[i] == stations[k];
      assert members[0] < members[i];
      NeverOverwritten(stations, reach, group, seeds, stations[k], members[0]);
      assert false;
    }
  }

  /** The leading group is the class of a main station. */
  lemma LeaderIsMain(stations: seq<nat>, reach: Matrix, groups: seq<StationGroup>, seeds: seq<nat>,
                     group: map<nat, nat>, main: int)
    requires Transitive(stations, reach) && stations != []
    requires Seeded(stations, reach, groups, seeds) && Numbered(stations, reach, group, seeds) && Leads(groups, main)
    requires forall a :: a in stations ==> a in group
    ensures 0 <= main < |seeds| && IsMain(stations, reach, seeds[main])
  {
    assert stations[0] in group;
    forall a | a in stations ensures !Before(stations, reach, a, seeds[main]) {
      var g := group[a];
      assert Mutual(reach, seeds[g], a);
      ClassAgrees(stations, reach, seeds[g], a);
      assert !Beats(groups[g], groups[main]);
    }
  }

  ghost predicate SeedsWithin(stations: seq<nat>, k: nat, seeds: seq<nat>) {
    forall g :: 0 <= g < |seeds| ==> exists j :: 0 <= j < k && j < |stations| && stations[j] == seeds[g]
  }

  /** Station k comes after all earlier seeds. */
  lemma SeedsGrow(stations: seq<nat>, k: nat, seeds: seq<nat>)
    requires Ascending(stations) && Ascending(seeds) && k < |stations| && SeedsWithin(stations, k, seeds)
    ensures Ascending(seeds + [stations[k]]) && SeedsWithin(stations, k + 1, seeds + [stations[k]])
    ensures forall g :: 0 <= g < |seeds| ==> seeds[g] in stations
  {
    var longer := seeds + [stations[k]];
    forall g | 0 <= g < |longer| ensures exists j :: 0 <= j < k + 1 && stations[j] == longer[g] {
      if g == |seeds| { assert stations[k] == longer[g]; }
    }
    forall g | 0 <= g < |seeds| ensures seeds[g] < stations[k] {
      var j :| 0 <= j < k && stations[j] == seeds[g];
    }
  }

  /** The state before station k. */
  ghost predicate Grouping(stations: seq<nat>, reach: Matrix, k: nat, group: map<nat, nat>, groups: seq<StationGroup>,
                           seeds: seq<nat>)
  {
    && k <= |stations| && (forall j :: 0 <= j < k ==> stations[j] in group)
    && Seeded(stations, reach, groups, seeds) && Numbered(stations, reach, group, seeds)
    && SeedsWithin(stations, k, seeds)
  }

  lemma SeededMore(stations: seq<nat>, reach: Matrix, groups: seq<StationGroup>, seeds: seq<nat>, seed: nat)
    requires Seeded(stations, reach, groups, seeds) && Ascending(seeds + [seed])
    requires seed in stations && seed == First(stations, reach, seed)
    ensures Seeded(stations, reach, groups + [GroupOf(stations, reach, seed)], seeds + [seed])
  {
  }

  lemma GroupingMore(stations: seq<nat>, reach: Matrix, k: nat, before: map<nat, nat>, groups: seq<StationGroup>,
                     seeds: seq<nat>, group: map<nat, nat>)
    requires Ascending(stations) && Transitive(stations, reach) && Grouping(stations, reach, k, before, groups, seeds)
    requires k < |stations| && stations[k] !in before && Filled(stations, reach, stations[k], before, |groups|, group)
    ensures Grouping(stations, reach, k + 1, group, groups + [GroupOf(stations, reach, stations[k])],
                     seeds + [stations[k]])
    ensures forall a :: a in before ==> a in group && group[a] == before[a]
  {
    SeedsGrow(stations, k, seeds);
    SeedIsFirst(stations, reach, before, seeds, k);
    SeededMore(stations, reach, groups, seeds, stations[k]);
    NumberedMore(stations, reach, before, seeds, stations[k], group);
    FilledPrefix(stations, reach, k, before, |groups|, group);
  }

  lemma FilledPrefix(stations: seq<nat>, reach: Matrix, k: nat, before: map<nat, nat>, number: nat,
                     group: map<nat, nat>)
    requires k < |stations| && (forall j :: 0 <= j < k ==> stations[j] in before)
    requires Filled(stations, reach, stations[k], before, number, group)
    ensures forall j :: 0 <= j < k + 1 ==> stations[j] in group
  {
  }

  lemma GroupingSkips(stations: seq<nat>, reach: Matrix, k: nat, group: map<nat, nat>, groups: seq<StationGroup>,
                      seeds: seq<nat>)
    requires Grouping(stations, reach, k, group, groups, seeds) && k < |stations| && stations[k] in group
    ensures Grouping(stations, reach, k + 1, group, groups, seeds)
  {
  }

  ghost function GroupOf(stations: seq<nat>, reach: Matrix, seed: nat): StationGroup {
    StationGroup(|Class(stations, reach, seed)|, Misses(stations, reach, seed))
  }

  /** The first group that no group beats. */
  method Leader(groups: seq<StationGroup>, main: int, item: StationGroup) returns (main': int)
    requires Leads(groups, main)
    ensures Leads(groups + [item], main')
  {
    main' := main;
    if main < 0 || item.size > groups[main].size ||
      (item.size == groups[main].size && item.misses < groups[main].misses) {
      main' := |groups|;
    }
  }

  /** The group of station k, and the group numbers with it. */
  method AddGroup(stations: seq<nat>, reach: Matrix, k: nat, before: map<nat, nat>, groups: seq<StationGroup>,
                  ghost seeds: seq<nat>)
    returns (group: map<nat, nat>, item: StationGroup)
    requires Fits(stations, reach) && k < |stations| && stations[k] !in before
    requires Transitive(stations, reach) ==> Grouping(stations, reach, k, before, groups, seeds)
    ensures Filled(stations, reach, stations[k], before, |groups|, group)
    ensures Transitive(stations, reach) ==>
      Grouping(stations, reach, k + 1, group, groups + [item], seeds + [stations[k]])
  {
    var size;
    group, size := FillGroup(stations, reach, stations[k], before, |groups|);
    var missing := Links(stations, reach, stations[k]);
    item := StationGroup(size, |missing.out| + |missing.into|);
    if Transitive(stations, reach) {
      assert item == GroupOf(stations, reach, stations[k]);
      GroupingMore(stations, reach, k, before, groups, seeds, group);
    }
  }

  method CutOff(reach: Matrix, checked: seq<bool>) returns (result: seq<Link>)
    requires Fits(Stations(checked), reach)
    ensures Transitive(Stations(checked), reach) ==> IsCutOff(Stations(checked), reach, result)
  {
    var stations := StationList(checked);
    var group: map<nat, nat> := map[];
    var groups: seq<StationGroup> := [];
    var main := -1;
    ghost var seeds: seq<nat> := [];
    for k := 0 to |stations|
      invariant forall j :: 0 <= j < k ==> stations[j] in group
      invariant Leads(groups, main)
      invariant Transitive(stations, reach) ==> Grouping(stations, reach, k, group, groups, seeds)
    {
      var seed := stations[k];
      if seed in group {
        if Transitive(stations, reach) {
          GroupingSkips(stations, reach, k, group, groups, seeds);
        }
      } else {
        var filled, item := AddGroup(stations, reach, k, group, groups, seeds);
        main := Leader(groups, main, item);
        group, groups, seeds := filled, groups + [item], seeds + [seed];
      }
    }
    result := LinksOutsideMain(stations, reach, group, main);
    if Transitive(stations, reach) {
      GroupedCutOff(stations, reach, group, groups, seeds, main, result);
    }
  }

  /** The stations outside the leading group are those outside a main class. */
  lemma GroupedCutOff(stations: seq<nat>, reach: Matrix, group: map<nat, nat>, groups: seq<StationGroup>,
                      seeds: seq<nat>, main: int, result: seq<Link>)
    requires Transitive(stations, reach) && Grouping(stations, reach, |stations|, group, groups, seeds) &&
             Leads(groups, main)
    requires LinksOf(stations, reach, Select(stations, OutsideGroup(group, main)), result)
    ensures IsCutOff(stations, reach, result)
  {
    if stations != [] {
      LeaderIsMain(stations, reach, groups, seeds, group, main);
      SelectSame(stations, OutsideGroup(group, main), NotInClass(reach, seeds[main]));
      assert LinksOutside(stations, reach, seeds[main], result);
    }
  }

  method LinksOutsideMain(stations: seq<nat>, reach: Matrix, group: map<nat, nat>, main: int)
    returns (result: seq<Link>)
    requires Fits(stations, reach) && forall a :: a in stations ==> a in group
    ensures LinksOf(stations, reach, Select(stations, OutsideGroup(group, main)), result)
  {
    result := [];
    ghost var outside := [];
    for k := 0 to |stations|
      invariant outside == Select(stations[..k], OutsideGroup(group, main)) && LinksOf(stations, reach, outside, result)
    {
      SelectMore(stations, k, OutsideGroup(group, main));
      if group[stations[k]] != main {
        var link := Links(stations, reach, stations[k]);
        result := result + [link];
        outside := outside + [stations[k]];
      }
    }
    assert stations[..|stations|] == stations;
  }
}
