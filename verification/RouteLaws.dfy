/** What the route checks of a draft report, in terms of stations, berths, lanes and paths alone. */
module RouteLaws {
  import opened Basics
  import opened Graphs
  import opened BerthReach
  import opened CutOffs
  import opened PassengerRoutes
  import opened BerthRoutes

  // ----- the berths that count -----

  /** A berth of the station is on the node, and no berth check has failed there. */
  ghost predicate OpenAt(berths: seq<Option<Berth>>, broken: set<string>, node: string) {
    node !in broken && exists k :: 0 <= k < |berths| && berths[k].Some? && berths[k].value.node == node
  }

  lemma {:induction false} OpenNodesMean(berths: seq<Option<Berth>>, broken: set<string>, node: string)
    ensures node in OpenNodes(berths, broken) <==> OpenAt(berths, broken, node)
  {
    if berths != [] {
      var before := berths[..|berths| - 1];
      OpenNodesMean(before, broken, node);
      assert forall k :: 0 <= k < |before| ==> before[k] == berths[k];
    }
  }

  function OpenRows(passenger: seq<seq<Option<Berth>>>, broken: set<string>): (rows: seq<seq<string>>)
    ensures |rows| == |passenger|
  {
    seq(|passenger|, s requires 0 <= s < |passenger| => OpenNodes(passenger[s], broken))
  }

  ghost predicate HasOpen(passenger: seq<seq<Option<Berth>>>, broken: set<string>, s: nat) {
    s < |passenger| && exists node :: OpenAt(passenger[s], broken, node)
  }

  lemma HasOpenMeans(passenger: seq<seq<Option<Berth>>>, broken: set<string>, s: nat)
    requires s < |passenger|
    ensures OpenRows(passenger, broken)[s] != [] <==> HasOpen(passenger, broken, s)
  {
    var row := OpenNodes(passenger[s], broken);
    forall node ensures node in row <==> OpenAt(passenger[s], broken, node) {
      OpenNodesMean(passenger[s], broken, node);
    }
    if row != [] { assert row[0] in row; }
  }

  /** Every open berth of one station has a path to every open berth of the other. */
  ghost predicate StationReaches(graph: Graph, passenger: seq<seq<Option<Berth>>>, broken: set<string>, s: nat, t: nat)
    requires s < |passenger| && t < |passenger|
  {
    forall a, b :: OpenAt(passenger[s], broken, a) && OpenAt(passenger[t], broken, b) ==> Reaches(Next(graph), a, b)
  }

  lemma StationReachesMeans(graph: Graph, passenger: seq<seq<Option<Berth>>>, broken: set<string>, s: nat, t: nat)
    requires s < |passenger| && t < |passenger|
    ensures AllReach(graph, OpenRows(passenger, broken)[s], OpenRows(passenger, broken)[t]) <==>
            StationReaches(graph, passenger, broken, s, t)
  {
    forall node
      ensures node in OpenNodes(passenger[s], broken) <==> OpenAt(passenger[s], broken, node)
      ensures node in OpenNodes(passenger[t], broken) <==> OpenAt(passenger[t], broken, node)
    {
      OpenNodesMean(passenger[s], broken, node);
      OpenNodesMean(passenger[t], broken, node);
    }
  }

  // ----- the reported links -----

  lemma LinkParts(stations: seq<nat>, reach: Matrix, link: Link, t: nat)
    requires link == Link(link.index, Out(stations, reach, link.index), In(stations, reach, link.index))
    ensures t in link.out <==> t in stations && t != link.index && !At(reach, link.index, t)
    ensures t in link.into <==> t in stations && t != link.index && !At(reach, t, link.index)
  {
  }

  /** A report names a station with an open berth, each other such station that it does not reach, and each that does
      not reach it. */
  lemma LinkTells(graph: Graph, passenger: seq<seq<Option<Berth>>>, broken: set<string>, links: seq<Link>, k: nat,
                  t: nat)
    requires RouteErrors(graph, OpenRows(passenger, broken), links) && k < |links|
    ensures HasOpen(passenger, broken, links[k].index)
    ensures t in links[k].out <==>
              HasOpen(passenger, broken, t) && t != links[k].index &&
              !StationReaches(graph, passenger, broken, links[k].index, t)
    ensures t in links[k].into <==>
              HasOpen(passenger, broken, t) && t != links[k].index &&
              !StationReaches(graph, passenger, broken, t, links[k].index)
    ensures Ascending(links[k].out) && Ascending(links[k].into)
  {
    var rows := OpenRows(passenger, broken);
    var stations := Stations(HaveBerths(rows));
    var reach :| IsReach(graph, rows, reach) && IsCutOff(stations, reach, links);
    var s := ReportedStation(stations, reach, links, k);
    LinkParts(stations, reach, links[k], t);
    SelectAscending(stations, Unreached(reach, s));
    SelectAscending(stations, NotReaching(reach, s));
    HasOpenMeans(passenger, broken, s);
    if t < |passenger| {
      HasOpenMeans(passenger, broken, t);
      ReachCells(graph, rows, reach, s, t);
      ReachCells(graph, rows, reach, t, s);
      StationReachesMeans(graph, passenger, broken, s, t);
      StationReachesMeans(graph, passenger, broken, t, s);
    }
  }

  lemma ReportedStation(stations: seq<nat>, reach: Matrix, links: seq<Link>, k: nat) returns (s: nat)
    requires IsCutOff(stations, reach, links) && k < |links|
    ensures s in stations && links[k] == Link(s, Out(stations, reach, s), In(stations, reach, s))
  {
    var main :| IsMain(stations, reach, main) && LinksOutside(stations, reach, main, links);
    var outside := Select(stations, NotInClass(reach, main));
    s := outside[k];
    assert s in outside;
  }

  ghost predicate AllReached(graph: Graph, passenger: seq<seq<Option<Berth>>>, broken: set<string>) {
    forall s, t :: 0 <= s < |passenger| && 0 <= t < |passenger| && s != t ==>
      StationReaches(graph, passenger, broken, s, t)
  }

  ghost predicate RowsReached(graph: Graph, rows: seq<seq<string>>) {
    forall s, t :: 0 <= s < |rows| && 0 <= t < |rows| && s != t ==> AllReach(graph, rows[s], rows[t])
  }

  lemma AllReachedMeans(graph: Graph, passenger: seq<seq<Option<Berth>>>, broken: set<string>)
    ensures AllReached(graph, passenger, broken) <==> RowsReached(graph, OpenRows(passenger, broken))
  {
    var rows := OpenRows(passenger, broken);
    forall s, t | 0 <= s < |passenger| && 0 <= t < |passenger|
      ensures AllReach(graph, rows[s], rows[t]) <==> StationReaches(graph, passenger, broken, s, t)
    {
      StationReachesMeans(graph, passenger, broken, s, t);
    }
  }

  lemma NoRowLinks(graph: Graph, rows: seq<seq<string>>, links: seq<Link>)
    requires RouteErrors(graph, rows, links)
    ensures links == [] <==> RowsReached(graph, rows)
  {
    NoRouteErrors(graph, rows, links);
  }

  /** Nothing is reported exactly when any two stations with open berths reach each other. */
  lemma NoLinks(graph: Graph, passenger: seq<seq<Option<Berth>>>, broken: set<string>, links: seq<Link>)
    requires RouteErrors(graph, OpenRows(passenger, broken), links)
    ensures links == [] <==> AllReached(graph, passenger, broken)
  {
    NoRowLinks(graph, OpenRows(passenger, broken), links);
    AllReachedMeans(graph, passenger, broken);
  }

  // ----- the main class -----

  ghost function ClassSet(stations: seq<nat>, reach: Matrix, a: nat): set<nat> {
    set b | b in stations && (b == a || (At(reach, a, b) && At(reach, b, a)))
  }

  /** The other stations that the station does not reach, and those that do not reach it. */
  ghost function Unreachable(stations: seq<nat>, reach: Matrix, a: nat): set<nat> {
    set b | b in stations && b != a && !At(reach, a, b)
  }

  ghost function Unable(stations: seq<nat>, reach: Matrix, a: nat): set<nat> {
    set b | b in stations && b != a && !At(reach, b, a)
  }

  ghost function MissingLinks(stations: seq<nat>, reach: Matrix, a: nat): nat {
    |Unreachable(stations, reach, a)| + |Unable(stations, reach, a)|
  }

  ghost function Chosen(items: seq<nat>, keep: nat -> bool): set<nat> {
    set x | x in items && keep(x)
  }

  lemma {:induction false} SelectSize(items: seq<nat>, keep: nat -> bool)
    requires Ascending(items)
    ensures |Select(items, keep)| == |Chosen(items, keep)|
  {
    if items != [] {
      var before, last := items[..|items| - 1], items[|items| - 1];
      assert items == before + [last];
      SelectSize(before, keep);
      LastIsNew(before, last);
      if keep(last) {
        assert Chosen(items, keep) == Chosen(before, keep) + {last};
      } else {
        assert Chosen(items, keep) == Chosen(before, keep);
      }
    }
  }

  lemma LastIsNew(before: seq<nat>, last: nat)
    requires Ascending(before + [last])
    ensures last !in before && Ascending(before)
  {
    var all := before + [last];
    assert forall k :: 0 <= k < |before| ==> all[k] == before[k] && all[k] < all[|before|];
  }

  lemma ClassCounts(stations: seq<nat>, reach: Matrix, a: nat)
    requires Ascending(stations)
    ensures |Class(stations, reach, a)| == |ClassSet(stations, reach, a)|
  {
    SelectSize(stations, InClass(reach, a));
    assert ClassSet(stations, reach, a) == Chosen(stations, InClass(reach, a));
  }

  lemma MissesCount(stations: seq<nat>, reach: Matrix, a: nat)
    requires Ascending(stations)
    ensures Misses(stations, reach, a) == MissingLinks(stations, reach, a)
  {
    SelectSize(stations, Unreached(reach, a));
    SelectSize(stations, NotReaching(reach, a));
    assert Unreachable(stations, reach, a) == Chosen(stations, Unreached(reach, a));
    assert Unable(stations, reach, a) == Chosen(stations, NotReaching(reach, a));
  }

  /** The main class is the largest one, then the one with fewest missing links, then the one with the least station. */
  lemma MainRanks(stations: seq<nat>, reach: Matrix, main: nat, a: nat)
    requires Ascending(stations) && IsMain(stations, reach, main) && a in stations
    ensures |ClassSet(stations, reach, a)| <= |ClassSet(stations, reach, main)|
    ensures |ClassSet(stations, reach, a)| == |ClassSet(stations, reach, main)| ==>
              MissingLinks(stations, reach, a) >= MissingLinks(stations, reach, main)
    ensures |ClassSet(stations, reach, a)| == |ClassSet(stations, reach, main)| &&
            MissingLinks(stations, reach, a) == MissingLinks(stations, reach, main) ==>
              exists b :: b in ClassSet(stations, reach, main) && b <= a
  {
    ClassCounts(stations, reach, a);
    ClassCounts(stations, reach, main);
    MissesCount(stations, reach, a);
    MissesCount(stations, reach, main);
    assert !Before(stations, reach, a, main);
    FirstIsLeast(stations, reach, a);
    FirstIsLeast(stations, reach, main);
  }

  lemma FirstIsLeast(stations: seq<nat>, reach: Matrix, a: nat)
    requires Ascending(stations) && a in stations
    ensures First(stations, reach, a) in ClassSet(stations, reach, a) && First(stations, reach, a) <= a
  {
    var members := Class(stations, reach, a);
    SelectAscending(stations, InClass(reach, a));
    assert a in members && members[0] in members;
    var k :| 0 <= k < |members| && members[k] == a;
  }

  // ----- the berth checks -----

  /** The node of a berth ID is that of the last entry with the ID, or empty. */
  lemma {:induction false} NodeOfMeans(berths: seq<Option<Berth>>, id: string, k: nat)
    requires forall j :: k <= j < |berths| ==> (if berths[j].Some? then berths[j].value.id else "") != id
    requires k <= |berths|
    ensures NodeOf(berths, id) == NodeOf(berths[..k], id)
    ensures k > 0 && (if berths[k - 1].Some? then berths[k - 1].value.id else "") == id ==>
              NodeOf(berths, id) == if berths[k - 1].Some? then berths[k - 1].value.node else ""
    ensures k == 0 ==> NodeOf(berths, id) == ""
    decreases |berths|
  {
    if k < |berths| {
      NodeOfMeans(berths[..|berths| - 1], id, k);
      assert berths[..|berths| - 1][..k] == berths[..k];
    } else {
      assert berths[..k] == berths;
    }
  }

  /** The lane of a berth is the last one that lists it. */
  lemma {:induction false} LastLaneMeans(lanes: seq<seq<string>>, id: string, k: nat)
    requires k <= |lanes| && forall j :: k <= j < |lanes| ==> id !in lanes[j]
    ensures LastLane(lanes, id) == LastLane(lanes[..k], id)
    ensures k > 0 && id in lanes[k - 1] ==> LastLane(lanes, id) == Some(lanes[k - 1])
    ensures k == 0 ==> LastLane(lanes, id) == None
    decreases |lanes|
  {
    if k < |lanes| {
      LastLaneMeans(lanes[..|lanes| - 1], id, k);
      assert lanes[..|lanes| - 1][..k] == lanes[..k];
    } else {
      assert lanes[..k] == lanes;
    }
  }

  /** The lanes at a station are those of its depots, and they come in depot order. */
  lemma {:induction false} LanesAtJoin(depots: seq<Depot>, more: seq<Depot>, station: string)
    ensures LanesAt(depots + more, station) == LanesAt(depots, station) + LanesAt(more, station)
  {
    if more == [] {
      assert depots + more == depots;
    } else {
      var rest := more[..|more| - 1];
      LanesAtJoin(depots, rest, station);
      assert (depots + more)[..|depots + more| - 1] == depots + rest;
    }
  }

  lemma LanesAtOne(depot: Depot, station: string)
    ensures LanesAt([depot], station) == if depot.station == station then depot.lanes else []
  {
    assert [depot][..0] == [];
  }

  /** A station with banks uses the gates of the first bank that lists the berth, and none when no bank does. */
  lemma {:induction false} BankForMeans(banks: seq<Bank>, id: string, k: nat)
    requires k <= |banks| && forall j :: 0 <= j < k ==> id !in banks[j].berthIDs
    ensures k == |banks| ==> BankFor(banks, id) == Gates("", "")
    ensures k < |banks| && id in banks[k].berthIDs ==> BankFor(banks, id) == banks[k].gates
    decreases |banks|
  {
    if k > 0 {
      BankForMeans(banks[1..], id, k - 1);
    }
  }

  /** The station nodes that a route to the berth must not pass: all but the slots of its depot lane. */
  ghost function PastNodes(station: Station, lane: Option<seq<string>>, stationNodes: set<string>): set<string> {
    set node | node in stationNodes &&
      !(lane.Some? && exists slot :: slot in lane.value && NodeOf(station.berths, slot) == node)
  }

  /** The errors of a berth: no route from its entry to it, and none from it to its exit, past those nodes. */
  lemma BerthErrorsMean(graph: Graph, station: Station, depots: seq<Depot>, stationNodes: set<string>, berth: Berth)
    ensures var past := PastNodes(station, LastLane(LanesAt(depots, station.id), berth.id), stationNodes);
            var gates := if station.banks.Some? then BankFor(station.banks.value, berth.id) else station.gates;
            CheckAt(graph, station, depots, stationNodes)(Some(berth)) ==
              (if exists route :: OpenRoute(graph, past, route, gates.entry, berth.node)
               then [] else [NeedsEntry(berth.id)]) +
              (if exists route :: OpenRoute(graph, past, route, berth.node, gates.exit)
               then [] else [NeedsExit(berth.id)])
  {
    var lanes := LanesAt(depots, station.id);
    assert PastNodes(station, LastLane(lanes, berth.id), stationNodes) ==
           BlockedFor(station, lanes, stationNodes, berth.id);
  }
}
