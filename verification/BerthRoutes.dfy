/** The entry and exit routes of berths, past the nodes of other berths. */
module BerthRoutes {
  import opened Basics
  import opened Graphs
  import opened PassengerRoutes

  datatype Gates = Gates(entry: string, exit: string)

  datatype Bank = Bank(gates: Gates, berthIDs: seq<string>)

  datatype Station = Station(id: string, gates: Gates, banks: Option<seq<Bank>>, berths: seq<Option<Berth>>)

  datatype Depot = Depot(station: string, lanes: seq<seq<string>>)

  datatype RouteError = NeedsEntry(berth: string) | NeedsExit(berth: string)

  /** The ID and the node of an entry, both empty when it is not an object. */
  function Entry(berth: Option<Berth>): Berth {
    if berth.Some? then berth.value else Berth("", "")
  }

  // ----- the open slots of a depot lane -----

  /** The lanes of the depots at the station, in order. */
  function LanesAt(depots: seq<Depot>, station: string): seq<seq<string>> {
    if depots == [] then []
    else
      var last := depots[|depots| - 1];
      LanesAt(depots[..|depots| - 1], station) + if last.station == station then last.lanes else []
  }

  /** The node of the last entry with the ID. An unknown ID has the empty node. */
  function NodeOf(berths: seq<Option<Berth>>, id: string): string {
    if berths == [] then ""
    else
      var last := Entry(berths[|berths| - 1]);
      if last.id == id then last.node else NodeOf(berths[..|berths| - 1], id)
  }

  /** The last lane that lists the berth. */
  function LastLane(lanes: seq<seq<string>>, id: string): Option<seq<string>> {
    if lanes == [] then None
    else if id in lanes[|lanes| - 1] then Some(lanes[|lanes| - 1])
    else LastLane(lanes[..|lanes| - 1], id)
  }

  ghost function Slots(berths: seq<Option<Berth>>, lane: seq<string>): set<string> {
    set id | id in lane :: NodeOf(berths, id)
  }

  /** The nodes that a route to the berth must not pass: all station nodes but the slots of its own depot lane. */
  ghost function BlockedFor(station: Station, lanes: seq<seq<string>>, stationNodes: set<string>, id: string)
    : set<string> {
    var lane := LastLane(lanes, id);
    if lane.Some? then stationNodes - Slots(station.berths, lane.value) else stationNodes
  }

  /** Only slots of a lane that lists the berth are opened, and the berth's own node is. */
  lemma {:induction false} OpenedSlots(station: Station, lanes: seq<seq<string>>, stationNodes: set<string>, id: string)
    ensures BlockedFor(station, lanes, stationNodes, id) <= stationNodes
    ensures (exists lane :: lane in lanes && id in lane) ==>
      NodeOf(station.berths, id) !in BlockedFor(station, lanes, stationNodes, id)
    ensures forall node :: node in stationNodes - BlockedFor(station, lanes, stationNodes, id) ==>
              exists lane, slot :: lane in lanes && id in lane && slot in lane && NodeOf(station.berths, slot) == node
  {
    LastLaneListed(lanes, id);
  }

  lemma {:induction false} LastLaneListed(lanes: seq<seq<string>>, id: string)
    ensures LastLane(lanes, id).Some? <==> exists lane :: lane in lanes && id in lane
    ensures LastLane(lanes, id).Some? ==> LastLane(lanes, id).value in lanes && id in LastLane(lanes, id).value
  {
    if lanes != [] {
      var before, last := lanes[..|lanes| - 1], lanes[|lanes| - 1];
      assert lanes == before + [last];
      LastLaneListed(before, id);
    }
  }

  ghost predicate IsNodes(berths: seq<Option<Berth>>, nodes: map<string, string>) {
    forall id :: NodeOf(berths, id) == if id in nodes then nodes[id] else ""
  }

  method BerthNodes(berths: seq<Option<Berth>>) returns (nodes: map<string, string>)
    ensures IsNodes(berths, nodes)
  {
    nodes := map[];
    for k := 0 to |berths|
      invariant IsNodes(berths[..k], nodes)
    {
      assert berths[..k + 1][..k] == berths[..k];
      nodes := nodes[Entry(berths[k]).id := Entry(berths[k]).node];
    }
    assert berths[..|berths|] == berths;
  }

  /** The station nodes without the slots of one lane. */
  method OpenLane(berths: seq<Option<Berth>>, nodes: map<string, string>, stationNodes: set<string>, lane: seq<string>)
    returns (open: set<string>)
    requires IsNodes(berths, nodes)
    ensures open == stationNodes - Slots(berths, lane)
  {
    open := stationNodes;
    for k := 0 to |lane|
      invariant open == stationNodes - Slots(berths, lane[..k])
    {
      var node := if lane[k] in nodes then nodes[lane[k]] else "";
      assert lane[..k + 1] == lane[..k] + [lane[k]];
      assert Slots(berths, lane[..k + 1]) == Slots(berths, lane[..k]) + {node};
      open := open - {node};
    }
    assert lane[..|lane|] == lane;
  }

  /** The map has the blocked nodes of exactly the berths that a lane lists. */
  ghost predicate IsBlocked(station: Station, stationNodes: set<string>, lanes: seq<seq<string>>,
                            blocked: map<string, set<string>>) {
    forall id ::
      && (id in blocked <==> LastLane(lanes, id).Some?)
      && (id in blocked ==> blocked[id] == stationNodes - Slots(station.berths, LastLane(lanes, id).value))
  }

  method DepotBlocked(station: Station, depots: seq<Depot>, stationNodes: set<string>)
    returns (blocked: map<string, set<string>>)
    ensures IsBlocked(station, stationNodes, LanesAt(depots, station.id), blocked)
  {
    var nodes := BerthNodes(station.berths);
    blocked := map[];
    for d := 0 to |depots|
      invariant IsBlocked(station, stationNodes, LanesAt(depots[..d], station.id), blocked)
    {
      assert depots[..d + 1][..d] == depots[..d];
      if depots[d].station == station.id {
        blocked := BlockLanes(station, nodes, stationNodes, LanesAt(depots[..d], station.id), depots[d].lanes, blocked);
      } else {
        assert LanesAt(depots[..d + 1], station.id) == LanesAt(depots[..d], station.id);
      }
    }
    assert depots[..|depots|] == depots;
  }

  method BlockLanes(station: Station, nodes: map<string, string>, stationNodes: set<string>,
                    ghost earlier: seq<seq<string>>, lanes: seq<seq<string>>,
                    before: map<string, set<string>>) returns (blocked: map<string, set<string>>)
    requires IsNodes(station.berths, nodes) && IsBlocked(station, stationNodes, earlier, before)
    ensures IsBlocked(station, stationNodes, earlier + lanes, blocked)
  {
    blocked := before;
    assert earlier + lanes[..0] == earlier;
    for l := 0 to |lanes|
      invariant IsBlocked(station, stationNodes, earlier + lanes[..l], blocked)
    {
      var open := OpenLane(station.berths, nodes, stationNodes, lanes[l]);
      var next := BlockLane(lanes[l], open, blocked);
      assert (earlier + lanes[..l + 1])[..|earlier| + l] == earlier + lanes[..l];
      blocked := next;
    }
    assert earlier + lanes[..|lanes|] == earlier + lanes;
  }

  method BlockLane(lane: seq<string>, open: set<string>, before: map<string, set<string>>)
    returns (blocked: map<string, set<string>>)
    ensures forall id :: id in blocked <==> id in before || id in lane
    ensures forall id :: id in blocked ==> blocked[id] == if id in lane then open else before[id]
  {
    blocked := before;
    for k := 0 to |lane|
      invariant forall id :: id in blocked <==> id in before || id in lane[..k]
      invariant forall id :: id in blocked ==> blocked[id] == if id in lane[..k] then open else before[id]
    {
      assert lane[..k + 1] == lane[..k] + [lane[k]];
      blocked := blocked[lane[k] := open];
    }
    assert lane[..|lane|] == lane;
  }

  // ----- the check of all berths -----

  /** The gates of the first bank that lists the berth. */
  function BankFor(banks: seq<Bank>, id: string): Gates {
    if banks == [] then Gates("", "")
    else if id in banks[0].berthIDs then banks[0].gates
    else BankFor(banks[1..], id)
  }

  function GatesFor(station: Station, id: string): Gates {
    if station.banks.Some? then BankFor(station.banks.value, id) else station.gates
  }

  ghost predicate Routed(graph: Graph, blocked: set<string>, from: string, to: string) {
    exists route :: OpenRoute(graph, blocked, route, from, to)
  }

  ghost predicate HasEntry(graph: Graph, station: Station, lanes: seq<seq<string>>, stationNodes: set<string>,
                           berth: Berth) {
    Routed(graph, BlockedFor(station, lanes, stationNodes, berth.id), GatesFor(station, berth.id).entry, berth.node)
  }

  ghost predicate HasExit(graph: Graph, station: Station, lanes: seq<seq<string>>, stationNodes: set<string>,
                          berth: Berth) {
    Routed(graph, BlockedFor(station, lanes, stationNodes, berth.id), berth.node, GatesFor(station, berth.id).exit)
  }

  /** The errors of a berth, entry first. */
  ghost function ErrorsOf(graph: Graph, station: Station, lanes: seq<seq<string>>, stationNodes: set<string>,
                          berth: Option<Berth>)
    : seq<RouteError>
  {
    if berth.None? then []
    else
      (if HasEntry(graph, station, lanes, stationNodes, berth.value) then [] else [NeedsEntry(berth.value.id)]) +
      (if HasExit(graph, station, lanes, stationNodes, berth.value) then [] else [NeedsExit(berth.value.id)])
  }

  type Check = Option<Berth> -> seq<RouteError>

  ghost function CheckAt(graph: Graph, station: Station, depots: seq<Depot>, stationNodes: set<string>): Check {
    berth => ErrorsOf(graph, station, LanesAt(depots, station.id), stationNodes, berth)
  }

  ghost function Joined(check: Check, berths: seq<Option<Berth>>): seq<RouteError> {
    if berths == [] then []
    else Joined(check, berths[..|berths| - 1]) + check(berths[|berths| - 1])
  }

  ghost function Failing(check: Check, berths: seq<Option<Berth>>): set<string> {
    if berths == [] then {}
    else
      var last := berths[|berths| - 1];
      Failing(check, berths[..|berths| - 1]) + if last.Some? && check(last) != [] then {last.value.node} else {}
  }

  /** The errors of all berths in order. */
  ghost function AllErrors(graph: Graph, stations: seq<Station>, depots: seq<Depot>, stationNodes: set<string>)
    : seq<RouteError> {
    if stations == [] then []
    else
      var last := stations[|stations| - 1];
      AllErrors(graph, stations[..|stations| - 1], depots, stationNodes) +
      Joined(CheckAt(graph, last, depots, stationNodes), last.berths)
  }

  ghost function BrokenNodes(graph: Graph, stations: seq<Station>, depots: seq<Depot>, stationNodes: set<string>)
    : set<string> {
    if stations == [] then {}
    else
      var last := stations[|stations| - 1];
      BrokenNodes(graph, stations[..|stations| - 1], depots, stationNodes) +
      Failing(CheckAt(graph, last, depots, stationNodes), last.berths)
  }

  method CheckBerth(graph: Graph, station: Station, stationNodes: set<string>, blocked: map<string, set<string>>,
                    berth: Berth, ghost lanes: seq<seq<string>>) returns (errors: seq<RouteError>)
    requires IsBlocked(station, stationNodes, lanes, blocked)
    ensures errors == ErrorsOf(graph, station, lanes, stationNodes, Some(berth))
  {
    var gates := GatesFor(station, berth.id);
    var nodes := stationNodes;
    if berth.id in blocked {
      nodes := blocked[berth.id];
    }
    assert nodes == BlockedFor(station, lanes, stationNodes, berth.id);
    var entry := DraftRoute(graph, gates.entry, berth.node, nodes);
    var exit := DraftRoute(graph, berth.node, gates.exit, nodes);
    errors := [];
    if !entry {
      errors := errors + [NeedsEntry(berth.id)];
    }
    if !exit {
      errors := errors + [NeedsExit(berth.id)];
    }
  }

  method CheckStation(graph: Graph, station: Station, stationNodes: set<string>, depots: seq<Depot>)
    returns (errors: seq<RouteError>, broken: set<string>)
    ensures errors == Joined(CheckAt(graph, station, depots, stationNodes), station.berths)
    ensures broken == Failing(CheckAt(graph, station, depots, stationNodes), station.berths)
  {
    ghost var check := CheckAt(graph, station, depots, stationNodes);
    var blocked := DepotBlocked(station, depots, stationNodes);
    errors, broken := [], {};
    var berths := station.berths;
    for k := 0 to |berths|
      invariant errors == Joined(check, berths[..k]) && broken == Failing(check, berths[..k])
    {
      assert berths[..k + 1][..k] == berths[..k];
      if berths[k].Some? {
        var found := CheckBerth(graph, station, stationNodes, blocked, berths[k].value, LanesAt(depots, station.id));
        assert found == check(berths[k]);
        errors := errors + found;
        if found != [] {
          broken := broken + {berths[k].value.node};
        }
      } else {
        assert check(berths[k]) == [];
      }
    }
    assert berths[..|berths|] == berths;
  }

  method CheckBerthRoutes(graph: Graph, stations: seq<Station>, depots: seq<Depot>, stationNodes: set<string>)
    returns (errors: seq<RouteError>, broken: set<string>)
    ensures errors == AllErrors(graph, stations, depots, stationNodes)
    ensures broken == BrokenNodes(graph, stations, depots, stationNodes)
  {
    errors, broken := [], {};
    for s := 0 to |stations|
      invariant errors == AllErrors(graph, stations[..s], depots, stationNodes)
      invariant broken == BrokenNodes(graph, stations[..s], depots, stationNodes)
    {
      assert stations[..s + 1][..s] == stations[..s];
      var more, nodes := CheckStation(graph, stations[s], stationNodes, depots);
      errors := errors + more;
      broken := broken + nodes;
    }
    assert stations[..|stations|] == stations;
  }

  // ----- what the errors mean -----

  lemma {:induction false} JoinedEmpty(check: Check, berths: seq<Option<Berth>>)
    ensures Joined(check, berths) == [] <==> forall k :: 0 <= k < |berths| ==> check(berths[k]) == []
  {
    if berths != [] {
      JoinedEmpty(check, berths[..|berths| - 1]);
      assert forall k :: 0 <= k < |berths| - 1 ==> berths[..|berths| - 1][k] == berths[k];
    }
  }

  lemma {:induction false} FailingMeans(check: Check, berths: seq<Option<Berth>>, node: string)
    ensures node in Failing(check, berths) <==>
      exists k :: 0 <= k < |berths| && berths[k].Some? && berths[k].value.node == node && check(berths[k]) != []
  {
    if berths != [] {
      var before := berths[..|berths| - 1];
      FailingMeans(check, before, node);
      assert forall k :: 0 <= k < |before| ==> before[k] == berths[k];
    }
  }

  /** There is no error exactly when every berth has both its routes. */
  lemma {:induction false} NoBerthErrors(graph: Graph, stations: seq<Station>, depots: seq<Depot>,
                                         stationNodes: set<string>)
    ensures AllErrors(graph, stations, depots, stationNodes) == [] <==>
      forall s :: 0 <= s < |stations| ==> StationRouted(graph, stations[s], depots, stationNodes)
  {
    if stations != [] {
      var before, last := stations[..|stations| - 1], stations[|stations| - 1];
      NoBerthErrors(graph, before, depots, stationNodes);
      RoutedMeans(graph, last, depots, stationNodes);
      assert AllErrors(graph, stations, depots, stationNodes) == [] <==>
        AllErrors(graph, before, depots, stationNodes) == [] && StationRouted(graph, last, depots, stationNodes);
      assert forall s :: 0 <= s < |before| ==> before[s] == stations[s];
    }
  }

  /** Every berth has a route from its entry and a route to its exit that pass no blocked node. */
  ghost predicate StationRouted(graph: Graph, station: Station, depots: seq<Depot>, stationNodes: set<string>) {
    forall k :: 0 <= k < |station.berths| && station.berths[k].Some? ==>
      && HasEntry(graph, station, LanesAt(depots, station.id), stationNodes, station.berths[k].value)
      && HasExit(graph, station, LanesAt(depots, station.id), stationNodes, station.berths[k].value)
  }

  lemma RoutedMeans(graph: Graph, station: Station, depots: seq<Depot>, stationNodes: set<string>)
    ensures StationRouted(graph, station, depots, stationNodes) <==>
      Joined(CheckAt(graph, station, depots, stationNodes), station.berths) == []
  {
    var check := CheckAt(graph, station, depots, stationNodes);
    JoinedEmpty(check, station.berths);
    forall k | 0 <= k < |station.berths|
      ensures check(station.berths[k]) == [] <==>
        (station.berths[k].Some? ==>
          HasEntry(graph, station, LanesAt(depots, station.id), stationNodes, station.berths[k].value) &&
          HasExit(graph, station, LanesAt(depots, station.id), stationNodes, station.berths[k].value))
    {
    }
  }

  /** A node is broken exactly when a berth on it misses a route. */
  lemma {:induction false} BrokenMeans(graph: Graph, stations: seq<Station>, depots: seq<Depot>,
                                       stationNodes: set<string>, node: string)
    ensures node in BrokenNodes(graph, stations, depots, stationNodes) <==>
      exists s :: 0 <= s < |stations| && BreaksAt(graph, stations[s], depots, stationNodes, node)
  {
    if stations != [] {
      var before, last := stations[..|stations| - 1], stations[|stations| - 1];
      BrokenMeans(graph, before, depots, stationNodes, node);
      FailingMeans(CheckAt(graph, last, depots, stationNodes), last.berths, node);
      assert BreaksAt(graph, last, depots, stationNodes, node) <==>
        node in Failing(CheckAt(graph, last, depots, stationNodes), last.berths);
      assert forall s :: 0 <= s < |before| ==> before[s] == stations[s];
    }
  }

  ghost predicate BreaksAt(graph: Graph, station: Station, depots: seq<Depot>, stationNodes: set<string>,
                           node: string) {
    exists k :: 0 <= k < |station.berths| && station.berths[k].Some? && station.berths[k].value.node == node
                && CheckAt(graph, station, depots, stationNodes)(station.berths[k]) != []
  }
}
