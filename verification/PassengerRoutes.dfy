/** The passenger route check, with and without its two-search shortcut. */
module PassengerRoutes {
  import opened Basics
  import opened Graphs
  import opened BerthReach
  import opened CutOffs

  datatype Berth = Berth(id: string, node: string)

  // ----- the shortcut -----

  /** Every berth reaches every berth. */
  ghost predicate AllConnected(graph: Graph, berths: seq<seq<string>>) {
    forall s, t :: 0 <= s < |berths| && 0 <= t < |berths| ==> AllReach(graph, berths[s], berths[t])
  }

  /** Every lane of `reverse` is a lane of `graph` turned round. */
  ghost predicate Turned(graph: Graph, reverse: Graph) {
    forall a, b :: b in Successors(graph, a) <==> a in Successors(reverse, b)
  }

  /** The lanes from the nodes outside `rest` are turned round. */
  ghost predicate TurnedOutside(graph: Graph, reverse: Graph, rest: set<string>) {
    forall a, b :: a in Successors(reverse, b) <==> a !in rest && b in Successors(graph, a)
  }

  /** The first k lanes from a node are turned round, besides those turned before. */
  ghost predicate TurnedFrom(before: Graph, reverse: Graph, from: string, next: seq<string>, k: nat)
    requires k <= |next|
  {
    forall a, b :: a in Successors(reverse, b) <==> a in Successors(before, b) || (a == from && b in next[..k])
  }

  lemma TurnOne(before: Graph, reverse: Graph, from: string, next: seq<string>, k: nat)
    requires k < |next| && TurnedFrom(before, reverse, from, next, k)
    ensures TurnedFrom(before, reverse[next[k] := Successors(reverse, next[k]) + [from]], from, next, k + 1)
  {
    var after := reverse[next[k] := Successors(reverse, next[k]) + [from]];
    assert next[..k + 1] == next[..k] + [next[k]];
    forall a, b ensures a in Successors(after, b) <==> a in Successors(before, b) || (a == from && b in next[..k + 1]) {
      if b == next[k] {
        assert Successors(after, b) == Successors(reverse, b) + [from];
      } else {
        assert Successors(after, b) == Successors(reverse, b);
      }
    }
  }

  lemma TurnAll(graph: Graph, before: Graph, reverse: Graph, rest: set<string>, from: string)
    requires TurnedOutside(graph, before, rest) && from in rest && rest <= graph.Keys
    requires TurnedFrom(before, reverse, from, graph[from], |graph[from]|)
    ensures TurnedOutside(graph, reverse, rest - {from})
  {
    var next := graph[from];
    assert next[..|next|] == next;
    forall a, b ensures a in Successors(reverse, b) <==> a !in rest - {from} && b in Successors(graph, a) {
      if a == from {
        assert Successors(graph, a) == next;
      }
    }
  }

  method Reverse(graph: Graph) returns (reverse: Graph)
    ensures Turned(graph, reverse)
  {
    reverse := map[];
    var rest := graph.Keys;
    while rest != {}
      invariant rest <= graph.Keys && TurnedOutside(graph, reverse, rest)
      decreases |rest|
    {
      var from :| from in rest;
      ghost var before := reverse;
      var next := graph[from];
      for k := 0 to |next|
        invariant TurnedFrom(before, reverse, from, next, k)
      {
        TurnOne(before, reverse, from, next, k);
        reverse := reverse[next[k] := Successors(reverse, next[k]) + [from]];
      }
      TurnAll(graph, before, reverse, rest, from);
      rest := rest - {from};
    }
  }

  lemma ReverseSame(graph: Graph, reverse: Graph, a: string, b: string)
    requires Turned(graph, reverse)
    ensures Reaches(Next(graph), a, b) <==> Reaches(Next(reverse), b, a)
  {
    if Reaches(Next(graph), a, b) { ReverseReaches(Next(graph), Next(reverse), a, b); }
    if Reaches(Next(reverse), b, a) { ReverseReaches(Next(reverse), Next(graph), b, a); }
  }

  /** One root stands for all pairs. */
  lemma RootConnects(graph: Graph, berths: seq<seq<string>>, root: string)
    requires forall s, a :: 0 <= s < |berths| && a in berths[s] ==>
      Reaches(Next(graph), root, a) && Reaches(Next(graph), a, root)
    ensures AllConnected(graph, berths)
  {
    forall s, t, a, b | 0 <= s < |berths| && 0 <= t < |berths| && a in berths[s] && b in berths[t]
      ensures Reaches(Next(graph), a, b)
    {
      ReachTransitive(Next(graph), a, root, b);
    }
  }

  method FirstBerth(berths: seq<seq<string>>) returns (found: bool, root: string)
    ensures !found ==> forall s :: 0 <= s < |berths| ==> berths[s] == []
    ensures found ==> exists s :: 0 <= s < |berths| && root in berths[s]
  {
    found, root := false, "";
    for s := 0 to |berths|
      invariant forall t :: 0 <= t < s ==> berths[t] == []
    {
      if |berths[s]| != 0 {
        assert berths[s][0] in berths[s];
        return true, berths[s][0];
      }
    }
  }

  method AllBerthsConnected(graph: Graph, berths: seq<seq<string>>) returns (connected: bool)
    ensures connected <==> AllConnected(graph, berths)
  {
    var found, root := FirstBerth(berths);
    if !found {
      return true;
    }
    var reverse := Reverse(graph);
    var fromRoot := DraftReach(graph, root);
    var toRoot := DraftReach(reverse, root);
    for s := 0 to |berths|
      invariant forall t, a :: 0 <= t < s && a in berths[t] ==> a in fromRoot && a in toRoot
    {
      for k := 0 to |berths[s]|
        invariant forall j :: 0 <= j < k ==> berths[s][j] in fromRoot && berths[s][j] in toRoot
      {
        var berth := berths[s][k];
        if berth !in fromRoot || berth !in toRoot {
          ReverseSame(graph, reverse, berth, root);
          assert berth in berths[s];
          return false;
        }
      }
    }
    forall s, a | 0 <= s < |berths| && a in berths[s]
      ensures Reaches(Next(graph), root, a) && Reaches(Next(graph), a, root)
    {
      assert a in fromRoot && a in toRoot;
      ReverseSame(graph, reverse, a, root);
    }
    RootConnects(graph, berths, root);
    connected := true;
  }

  // ----- the route errors -----

  ghost function HaveBerths(berths: seq<seq<string>>): (checked: seq<bool>)
    ensures |checked| == |berths| && forall s :: 0 <= s < |berths| ==> checked[s] == (berths[s] != [])
  {
    seq(|berths|, s requires 0 <= s < |berths| => berths[s] != [])
  }

  /** The stations that are cut off by the all-berths reach, with their missing links. */
  ghost predicate RouteErrors(graph: Graph, berths: seq<seq<string>>, links: seq<Link>) {
    exists reach :: IsReach(graph, berths, reach) && IsCutOff(Stations(HaveBerths(berths)), reach, links)
  }

  lemma ReachCells(graph: Graph, berths: seq<seq<string>>, reach: Matrix, a: nat, b: nat)
    requires IsReach(graph, berths, reach) && a < |berths| && b < |berths|
    ensures At(reach, a, b) <==> AllReach(graph, berths[a], berths[b])
  {
  }

  /** Station reach is transitive over the stations that have berths. */
  lemma ReachIsTransitive(graph: Graph, berths: seq<seq<string>>, reach: Matrix)
    requires IsReach(graph, berths, reach)
    ensures Fits(Stations(HaveBerths(berths)), reach) && Transitive(Stations(HaveBerths(berths)), reach)
  {
    var stations := Stations(HaveBerths(berths));
    forall a | a in stations ensures a < |reach| && HasCells(stations, reach[a]) {
    }
    forall a, b, c | a in stations && b in stations && c in stations && At(reach, a, b) && At(reach, b, c)
      ensures At(reach, a, c)
    {
      ReachCells(graph, berths, reach, a, b);
      ReachCells(graph, berths, reach, b, c);
      ReachCells(graph, berths, reach, a, c);
      AllReachTransitive(graph, berths[a], berths[b], berths[c]);
    }
  }

  lemma ReachUnique(graph: Graph, berths: seq<seq<string>>, one: Matrix, two: Matrix)
    requires IsReach(graph, berths, one) && IsReach(graph, berths, two)
    ensures one == two
  {
    forall a | 0 <= a < |berths| ensures one[a] == two[a] {
      assert forall b :: 0 <= b < |berths| ==> (one[a][b] <==> AllReach(graph, berths[a], berths[b]));
      assert forall b :: 0 <= b < |berths| ==> (two[a][b] <==> AllReach(graph, berths[a], berths[b]));
    }
  }

  /** The draft leaves one possible list of errors, whichever way the check takes. */
  lemma RouteErrorsUnique(graph: Graph, berths: seq<seq<string>>, one: seq<Link>, two: seq<Link>)
    requires RouteErrors(graph, berths, one) && RouteErrors(graph, berths, two)
    ensures one == two
  {
    var stations := Stations(HaveBerths(berths));
    var reach :| IsReach(graph, berths, reach) && IsCutOff(stations, reach, one);
    var reach' :| IsReach(graph, berths, reach') && IsCutOff(stations, reach', two);
    ReachUnique(graph, berths, reach, reach');
    ReachIsTransitive(graph, berths, reach);
    CutOffUnique(stations, reach, one, two);
  }

  /** There is no error exactly when the berths of any two stations all reach each other. */
  lemma NoRouteErrors(graph: Graph, berths: seq<seq<string>>, links: seq<Link>)
    requires RouteErrors(graph, berths, links)
    ensures links == [] <==>
      forall s, t :: 0 <= s < |berths| && 0 <= t < |berths| && s != t && berths[s] != [] && berths[t] != [] ==>
        AllReach(graph, berths[s], berths[t])
  {
    var stations := Stations(HaveBerths(berths));
    var reach :| IsReach(graph, berths, reach) && IsCutOff(stations, reach, links);
    ReachIsTransitive(graph, berths, reach);
    NothingCutOff(stations, reach, links);
    if links == [] {
      forall s, t | 0 <= s < |berths| && 0 <= t < |berths| && s != t && berths[s] != [] && berths[t] != []
        ensures AllReach(graph, berths[s], berths[t])
      {
        assert s in stations && t in stations;
        assert Mutual(reach, s, t);
        ReachCells(graph, berths, reach, s, t);
      }
    } else {
      var a, b :| a in stations && b in stations && !Mutual(reach, a, b);
      ReachCells(graph, berths, reach, a, b);
      ReachCells(graph, berths, reach, b, a);
    }
  }

  /** When all berths are connected, leaving out the matrix changes nothing. */
  lemma ShortcutSound(graph: Graph, berths: seq<seq<string>>, reach: Matrix)
    requires AllConnected(graph, berths) && IsReach(graph, berths, reach)
    ensures IsCutOff(Stations(HaveBerths(berths)), reach, [])
  {
    var stations := Stations(HaveBerths(berths));
    ReachIsTransitive(graph, berths, reach);
    forall a, b | a in stations && b in stations ensures Mutual(reach, a, b) {
      ReachCells(graph, berths, reach, a, b);
      ReachCells(graph, berths, reach, b, a);
    }
    if stations != [] {
      var main := stations[0];
      forall a | a in stations ensures !Before(stations, reach, a, main) {
        ClassAgrees(stations, reach, a, main);
      }
      assert IsMain(stations, reach, main);
      SelectNone(stations, NotInClass(reach, main));
      assert LinksOutside(stations, reach, main, []);
    }
  }

  ghost function MatrixOf(graph: Graph, berths: seq<seq<string>>): (reach: Matrix)
    ensures IsReach(graph, berths, reach)
  {
    seq(|berths|, s requires 0 <= s < |berths| =>
      seq(|berths|, t requires 0 <= t < |berths| => AllReach(graph, berths[s], berths[t])))
  }

  /** The nodes of the station's berths that are objects and not broken. */
  function OpenNodes(berths: seq<Option<Berth>>, broken: set<string>): seq<string> {
    if berths == [] then []
    else
      var last := berths[|berths| - 1];
      OpenNodes(berths[..|berths| - 1], broken) +
      if last.Some? && last.value.node !in broken then [last.value.node] else []
  }

  method FindPassengerRoutes(graph: Graph, passenger: seq<seq<Option<Berth>>>, broken: set<string>)
    returns (links: seq<Link>)
    ensures RouteErrors(graph, seq(|passenger|, s requires 0 <= s < |passenger| => OpenNodes(passenger[s], broken)),
                        links)
  {
    var berths: seq<seq<string>> := [];
    for s := 0 to |passenger|
      invariant |berths| == s && forall t :: 0 <= t < s ==> berths[t] == OpenNodes(passenger[t], broken)
    {
      var row: seq<string> := [];
      for k := 0 to |passenger[s]|
        invariant row == OpenNodes(passenger[s][..k], broken)
      {
        var berth := passenger[s][k];
        assert passenger[s][..k + 1][..k] == passenger[s][..k];
        if berth.Some? && berth.value.node !in broken {
          row := row + [berth.value.node];
        }
      }
      assert passenger[s][..|passenger[s]|] == passenger[s];
      berths := berths + [row];
    }
    assert berths == seq(|passenger|, s requires 0 <= s < |passenger| => OpenNodes(passenger[s], broken));
    links := RouteLinks(graph, berths);
  }

  method RouteLinks(graph: Graph, berths: seq<seq<string>>) returns (links: seq<Link>)
    ensures RouteErrors(graph, berths, links)
  {
    var connected := AllBerthsConnected(graph, berths);
    if connected {
      ShortcutSound(graph, berths, MatrixOf(graph, berths));
      return [];
    }
    var reach := DraftStationReach(graph, berths);
    var checked: seq<bool> := [];
    for s := 0 to |berths|
      invariant |checked| == s && forall t :: 0 <= t < s ==> checked[t] == (berths[t] != [])
    {
      checked := checked + [|berths[s]| != 0];
    }
    assert checked == HaveBerths(berths);
    ReachIsTransitive(graph, berths, reach);
    links := CutOff(reach, checked);
  }
}
