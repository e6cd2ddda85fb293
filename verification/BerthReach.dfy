/** All-berths reach between stations: one search for each distinct berth node,
    with reusable marks and memoised rows. */
module BerthReach {
  import opened Basics
  import opened Graphs

  /** Every berth of the first list reaches every berth of the second. */
  ghost predicate AllReach(graph: Graph, from: seq<string>, to: seq<string>) {
    forall a, b :: a in from && b in to ==> Reaches(Next(graph), a, b)
  }

  /** All-berths reach is transitive through a station that has a berth. */
  lemma AllReachTransitive(graph: Graph, a: seq<string>, b: seq<string>, c: seq<string>)
    requires AllReach(graph, a, b) && AllReach(graph, b, c) && b != []
    ensures AllReach(graph, a, c)
  {
    forall x, z | x in a && z in c ensures Reaches(Next(graph), x, z) {
      ReachTransitive(Next(graph), x, b[0], z);
    }
  }

  // ----- node indexes -----

  ghost predicate Indexing(indexes: map<string, nat>) {
    && (forall a, b :: a in indexes && b in indexes && a != b ==> indexes[a] != indexes[b])
    && (forall a :: a in indexes ==> indexes[a] < |indexes|)
  }

  /** A numbering that keeps the numbers of an earlier one. */
  ghost predicate Extends(indexes': map<string, nat>, indexes: map<string, nat>) {
    Indexing(indexes') && forall a :: a in indexes ==> a in indexes' && indexes'[a] == indexes[a]
  }

  method IndexOf(indexes: map<string, nat>, id: string) returns (indexes': map<string, nat>)
    requires Indexing(indexes)
    ensures Extends(indexes', indexes) && id in indexes'
  {
    indexes' := indexes;
    if id !in indexes {
      indexes' := indexes[id := |indexes|];
    }
  }

  method IndexAll(indexes: map<string, nat>, ids: seq<string>) returns (indexes': map<string, nat>)
    requires Indexing(indexes)
    ensures Extends(indexes', indexes) && forall j :: 0 <= j < |ids| ==> ids[j] in indexes'
  {
    indexes' := indexes;
    for k := 0 to |ids|
      invariant Extends(indexes', indexes) && forall j :: 0 <= j < k ==> ids[j] in indexes'
    {
      indexes' := IndexOf(indexes', ids[k]);
    }
  }

  /** The node and all its successors have numbers. */
  ghost predicate Named(graph: Graph, indexes: map<string, nat>, node: string) {
    node in indexes && forall j :: 0 <= j < |Successors(graph, node)| ==> Successors(graph, node)[j] in indexes
  }

  ghost predicate NamedAll(graph: Graph, indexes: map<string, nat>) {
    forall node :: node in graph ==> Named(graph, indexes, node)
  }

  /** Numbers every node that the graph names, in the order of its entries. */
  method IndexGraph(graph: Graph) returns (indexes: map<string, nat>)
    ensures Indexing(indexes) && NamedAll(graph, indexes)
  {
    indexes := map[];
    var rest := graph.Keys;
    while rest != {}
      invariant rest <= graph.Keys && Indexing(indexes)
      invariant forall node :: node in graph && node !in rest ==> Named(graph, indexes, node)
      decreases |rest|
    {
      var from :| from in rest;
      ghost var before := indexes;
      indexes := IndexOf(indexes, from);
      indexes := IndexAll(indexes, Successors(graph, from));
      assert Named(graph, indexes, from);
      forall node | node in graph && node !in rest ensures Named(graph, indexes, node) {
        assert Named(graph, before, node);
      }
      rest := rest - {from};
    }
  }

  ghost predicate IsRows<T(!new)>(rows: seq<seq<T>>, lists: seq<seq<string>>, indexes: map<string, T>) {
    |rows| == |lists| &&
    forall k :: 0 <= k < |lists| ==>
      (forall id :: id in lists[k] ==> id in indexes && indexes[id] in rows[k]) &&
      (forall x :: x in rows[k] ==> exists id :: id in lists[k] && id in indexes && indexes[id] == x)
  }

  lemma InsertAscending(items: seq<nat>, at: nat, x: nat)
    requires Ascending(items) && at <= |items|
    requires (at > 0 ==> items[at - 1] < x) && (at < |items| ==> x < items[at])
    ensures Ascending(items[..at] + [x] + items[at..])
  {
    var longer := items[..at] + [x] + items[at..];
    forall a, b | 0 <= a < b < |longer| ensures longer[a] < longer[b] {
      if a == at {
        assert longer[b] == items[b - 1];
      } else if b == at {
        assert longer[a] == items[a];
      } else {
        assert longer[a] == items[if a < at then a else a - 1];
        assert longer[b] == items[if b < at then b else b - 1];
      }
    }
  }

  lemma InsertElements(items: seq<nat>, at: nat, x: nat)
    requires at <= |items|
    ensures Elements(items[..at] + [x] + items[at..]) == Elements(items) + {x}
  {
    var longer := items[..at] + [x] + items[at..];
    assert items == items[..at] + items[at..];
    forall y ensures y in longer <==> y in items || y == x {
      assert y in longer <==> y in items[..at] || y == x || y in items[at..];
      assert y in items <==> y in items[..at] || y in items[at..];
    }
  }

  /** The items in ascending order, each once. */
  method SortUnique(items: seq<nat>) returns (sorted: seq<nat>)
    ensures Ascending(sorted) && Elements(sorted) == Elements(items)
  {
    sorted := [];
    for k := 0 to |items|
      invariant Ascending(sorted) && Elements(sorted) == Elements(items[..k])
    {
      assert items[..k + 1] == items[..k] + [items[k]];
      ElementsMore(items[..k], items[k]);
      sorted := InsertOnce(sorted, items[k]);
    }
    assert items[..|items|] == items;
  }

  method InsertOnce(items: seq<nat>, x: nat) returns (sorted: seq<nat>)
    requires Ascending(items)
    ensures Ascending(sorted) && Elements(sorted) == Elements(items) + {x}
  {
    var at := |items|;
    while at > 0 && items[at - 1] > x
      invariant 0 <= at <= |items| && (at < |items| ==> x < items[at])
    {
      at := at - 1;
    }
    if at > 0 && items[at - 1] == x {
      assert x in Elements(items);
      return items;
    }
    InsertAscending(items, at, x);
    InsertElements(items, at, x);
    sorted := items[..at] + [x] + items[at..];
  }

  /** The indexes of the named nodes. */
  method IndexesOf(indexes: map<string, nat>, ids: seq<string>) returns (row: seq<nat>)
    requires forall j :: 0 <= j < |ids| ==> ids[j] in indexes
    ensures |row| == |ids| && forall j :: 0 <= j < |ids| ==> row[j] == indexes[ids[j]]
  {
    row := [];
    for k := 0 to |ids|
      invariant |row| == k && forall j :: 0 <= j < k ==> row[j] == indexes[ids[j]]
    {
      row := row + [indexes[ids[k]]];
    }
  }

  /** The berth indexes of each station, and the numbering with the berths added. */
  method IndexBerths(start: map<string, nat>, berths: seq<seq<string>>)
    returns (indexes: map<string, nat>, nodes: seq<seq<nat>>)
    requires Indexing(start)
    ensures Extends(indexes, start) && IsRows(nodes, berths, indexes)
  {
    indexes, nodes := start, [];
    for station := 0 to |berths|
      invariant Extends(indexes, start) && IsRows(nodes, berths[..station], indexes)
    {
      var more := IndexAll(indexes, berths[station]);
      var row := IndexesOf(more, berths[station]);
      var sorted := SortUnique(row);
      RowOf(berths[station], row, sorted, more);
      RowsGrow(nodes, berths[..station], indexes, more, sorted, berths[station]);
      assert berths[..station + 1] == berths[..station] + [berths[station]];
      indexes, nodes := more, nodes + [sorted];
    }
    assert berths[..|berths|] == berths;
  }

  lemma RowOf(ids: seq<string>, row: seq<nat>, sorted: seq<nat>, indexes: map<string, nat>)
    requires |row| == |ids|
    requires forall j :: 0 <= j < |row| ==> ids[j] in indexes && row[j] == indexes[ids[j]]
    requires Elements(sorted) == Elements(row)
    ensures forall id :: id in ids ==> id in indexes && indexes[id] in sorted
    ensures forall x :: x in sorted ==> exists id :: id in ids && id in indexes && indexes[id] == x
  {
    forall id | id in ids ensures id in indexes && indexes[id] in sorted {
      var j :| 0 <= j < |ids| && ids[j] == id;
      assert row[j] in Elements(row);
    }
    forall x | x in sorted ensures exists id :: id in ids && id in indexes && indexes[id] == x {
      assert x in Elements(sorted);
      var j :| 0 <= j < |row| && row[j] == x;
      assert ids[j] in ids;
    }
  }

  lemma RowsGrow(rows: seq<seq<nat>>, lists: seq<seq<string>>, indexes: map<string, nat>, more: map<string, nat>,
                 row: seq<nat>, list: seq<string>)
    requires IsRows(rows, lists, indexes) && Extends(more, indexes)
    requires forall id :: id in list ==> id in more && more[id] in row
    requires forall x :: x in row ==> exists id :: id in list && id in more && more[id] == x
    ensures IsRows(rows + [row], lists + [list], more)
  {
    forall k | 0 <= k < |lists|
      ensures forall x :: x in rows[k] ==> exists id :: id in lists[k] && id in more && more[id] == x
    {
      forall x | x in rows[k] ensures exists id :: id in lists[k] && id in more && more[id] == x {
        var id :| id in lists[k] && id in indexes && indexes[id] == x;
      }
    }
  }

  // ----- indexed adjacency -----

  /** The indexed lists hold exactly the indexes of the successors. */
  ghost predicate Mirrors(graph: Graph, indexes: map<string, nat>, adjacent: seq<seq<nat>>) {
    && |adjacent| == |indexes|
    && forall a :: a in indexes ==> indexes[a] < |adjacent| && MirrorsNode(graph, indexes, a, adjacent[indexes[a]])
  }

  ghost predicate MirrorsNode(graph: Graph, indexes: map<string, nat>, a: string, list: seq<nat>) {
    && (forall b :: b in Successors(graph, a) ==> b in indexes && indexes[b] in list)
    && (forall x :: x in list ==> exists b :: b in Successors(graph, a) && b in indexes && indexes[b] == x)
  }

  /** The lists of the nodes outside `rest` are complete, the others empty. */
  ghost predicate Listed(graph: Graph, indexes: map<string, nat>, adjacent: seq<seq<nat>>, rest: set<string>) {
    && |adjacent| == |indexes|
    && (forall a :: a in indexes ==> indexes[a] < |adjacent|)
    && (forall a :: a in indexes && a !in rest ==> MirrorsNode(graph, indexes, a, adjacent[indexes[a]]))
    && (forall a :: a in indexes && a in rest ==> adjacent[indexes[a]] == [])
  }

  method BuildAdjacent(graph: Graph, indexes: map<string, nat>) returns (adjacent: seq<seq<nat>>)
    requires Indexing(indexes) && NamedAll(graph, indexes)
    ensures Mirrors(graph, indexes, adjacent)
  {
    adjacent := seq(|indexes|, _ => []);
    var rest := graph.Keys;
    ListedNone(graph, indexes, adjacent);
    while rest != {}
      invariant rest <= graph.Keys && Listed(graph, indexes, adjacent, rest)
      decreases |rest|
    {
      var from :| from in rest;
      FromNamed(graph, indexes, adjacent, rest, from);
      var list := IndexesOf(indexes, Successors(graph, from));
      ListMirrors(graph, indexes, from, list);
      ListedMore(graph, indexes, adjacent, rest, from, list);
      adjacent := adjacent[indexes[from] := adjacent[indexes[from]] + list];
      rest := rest - {from};
    }
  }

  lemma ListedNone(graph: Graph, indexes: map<string, nat>, adjacent: seq<seq<nat>>)
    requires Indexing(indexes) && |adjacent| == |indexes| && forall k :: 0 <= k < |adjacent| ==> adjacent[k] == []
    ensures Listed(graph, indexes, adjacent, graph.Keys)
  {
    forall a | a in indexes && a !in graph.Keys ensures MirrorsNode(graph, indexes, a, adjacent[indexes[a]]) {
    }
  }

  lemma FromNamed(graph: Graph, indexes: map<string, nat>, adjacent: seq<seq<nat>>, rest: set<string>, from: string)
    requires NamedAll(graph, indexes) && Listed(graph, indexes, adjacent, rest) && from in rest && rest <= graph.Keys
    ensures Named(graph, indexes, from) && indexes[from] < |adjacent| && adjacent[indexes[from]] == []
  {
    assert from in graph;
  }

  lemma ListedMore(graph: Graph, indexes: map<string, nat>, adjacent: seq<seq<nat>>, rest: set<string>, from: string,
                   list: seq<nat>)
    requires Indexing(indexes) && Listed(graph, indexes, adjacent, rest) && from in rest && from in indexes
    requires MirrorsNode(graph, indexes, from, list)
    ensures Listed(graph, indexes, adjacent[indexes[from] := adjacent[indexes[from]] + list], rest - {from})
  {
    assert adjacent[indexes[from]] + list == list;
    var after := adjacent[indexes[from] := list];
    forall a | a in indexes && a !in rest - {from} ensures MirrorsNode(graph, indexes, a, after[indexes[a]]) {
      if a != from { assert MirrorsNode(graph, indexes, a, adjacent[indexes[a]]); }
    }
  }

  lemma ListMirrors(graph: Graph, indexes: map<string, nat>, a: string, list: seq<nat>)
    requires Named(graph, indexes, a) && |list| == |Successors(graph, a)|
    requires forall j :: 0 <= j < |list| ==>
      Successors(graph, a)[j] in indexes && list[j] == indexes[Successors(graph, a)[j]]
    ensures MirrorsNode(graph, indexes, a, list)
  {
    forall b | b in Successors(graph, a) ensures b in indexes && indexes[b] in list {
      var j :| 0 <= j < |list| && Successors(graph, a)[j] == b;
      assert list[j] in list;
    }
    forall x | x in list ensures exists b :: b in Successors(graph, a) && b in indexes && indexes[b] == x {
      var j :| 0 <= j < |list| && list[j] == x;
      assert Successors(graph, a)[j] in Successors(graph, a);
    }
  }

  ghost function IndexNext(adjacent: seq<seq<nat>>): nat -> seq<nat> {
    (v: nat) => if v < |adjacent| then adjacent[v] else []
  }

  ghost function Inverse(indexes: map<string, nat>): (inverse: map<nat, string>)
    requires Indexing(indexes)
    ensures forall v :: v in inverse ==> inverse[v] in indexes && indexes[inverse[v]] == v
    ensures forall a :: a in indexes ==> indexes[a] in inverse && inverse[indexes[a]] == a
  {
    map a | a in indexes :: indexes[a] := a
  }

  /** Reachability on the indexes is reachability on the names. */
  lemma SameReach(graph: Graph, indexes: map<string, nat>, adjacent: seq<seq<nat>>, a: string, b: string)
    requires Indexing(indexes) && Mirrors(graph, indexes, adjacent) && a in indexes && b in indexes
    ensures Reaches(Next(graph), a, b) <==> Reaches<nat>(IndexNext(adjacent), indexes[a], indexes[b])
  {
    if Reaches(Next(graph), a, b) {
      IndexesReach(graph, indexes, adjacent, a, b);
    }
    if Reaches<nat>(IndexNext(adjacent), indexes[a], indexes[b]) {
      NamesReach(graph, indexes, adjacent, a, b);
    }
  }

  lemma IndexesReach(graph: Graph, indexes: map<string, nat>, adjacent: seq<seq<nat>>, a: string, b: string)
    requires Indexing(indexes) && Mirrors(graph, indexes, adjacent) && a in indexes && b in indexes
    requires Reaches(Next(graph), a, b)
    ensures Reaches<nat>(IndexNext(adjacent), indexes[a], indexes[b])
  {
    forall x, y | x in indexes && y in Next(graph)(x)
      ensures y in indexes && indexes[y] in IndexNext(adjacent)(indexes[x])
    {
      assert MirrorsNode(graph, indexes, x, adjacent[indexes[x]]);
    }
    MapReaches<string, nat>(Next(graph), IndexNext(adjacent), indexes, a, b);
  }

  lemma NamesReach(graph: Graph, indexes: map<string, nat>, adjacent: seq<seq<nat>>, a: string, b: string)
    requires Indexing(indexes) && Mirrors(graph, indexes, adjacent) && a in indexes && b in indexes
    requires Reaches<nat>(IndexNext(adjacent), indexes[a], indexes[b])
    ensures Reaches(Next(graph), a, b)
  {
    var inverse := Inverse(indexes);
    forall v: nat, w: nat | v in inverse && w in IndexNext(adjacent)(v)
      ensures w in inverse && inverse[w] in Next(graph)(inverse[v])
    {
      assert MirrorsNode(graph, indexes, inverse[v], adjacent[indexes[inverse[v]]]);
      var y :| y in Successors(graph, inverse[v]) && y in indexes && indexes[y] == w;
    }
    MapReaches<nat, string>(IndexNext(adjacent), Next(graph), inverse, indexes[a], indexes[b]);
  }

  // ----- one search with reusable marks -----

  ghost predicate InRange(adjacent: seq<seq<nat>>) {
    forall v, w :: 0 <= v < |adjacent| && w in adjacent[v] ==> w < |adjacent|
  }

  /** The marks of search number `search`: its own on the found nodes, lower ones elsewhere. */
  ghost predicate Marks(seen: seq<nat>, search: nat, found: set<nat>) {
    && (forall v :: 0 <= v < |seen| ==> seen[v] <= search)
    && (forall v: nat :: v in found <==> v < |seen| && seen[v] == search)
  }

  /** The queue holds the nodes that the search has marked, each once. */
  ghost predicate Queued(seen: seq<nat>, search: nat, queue: seq<nat>) {
    Marks(seen, search, Elements(queue)) && |Elements(queue)| == |queue|
  }

  lemma MarkOne(seen: seq<nat>, search: nat, queue: seq<nat>, v: nat)
    requires Queued(seen, search, queue) && v < |seen| && seen[v] != search
    ensures Queued(seen[v := search], search, queue + [v]) && Elements(queue + [v]) == Elements(queue) + {v}
  {
    ElementsMore(queue, v);
    assert v !in Elements(queue);
  }

  /** Marks the node and appends it to the queue unless it is marked. */
  method Mark(v: nat, seen: array<nat>, search: nat, queue: seq<nat>) returns (queue': seq<nat>)
    requires Queued(seen[..], search, queue) && v < seen.Length
    modifies seen
    ensures queue <= queue' && Queued(seen[..], search, queue') && Elements(queue') == Elements(queue) + {v}
  {
    ghost var before := seen[..];
    if seen[v] != search {
      MarkOne(before, search, queue, v);
      seen[v] := search;
      assert seen[..] == before[v := search];
      queue' := queue + [v];
    } else {
      assert before[v] == search && v in Elements(queue);
      queue' := queue;
    }
  }

  /** Marks the unmarked items and appends them to the queue. */
  method MarkNext(next: seq<nat>, seen: array<nat>, search: nat, queue: seq<nat>) returns (queue': seq<nat>)
    requires Queued(seen[..], search, queue)
    requires forall j :: 0 <= j < |next| ==> next[j] < seen.Length
    modifies seen
    ensures queue <= queue' && Queued(seen[..], search, queue')
    ensures Elements(queue') == Elements(queue) + Elements(next)
  {
    queue' := queue;
    for k := 0 to |next|
      invariant queue <= queue' && Queued(seen[..], search, queue')
      invariant Elements(queue') == Elements(queue) + Elements(next[..k])
    {
      assert next[..k + 1] == next[..k] + [next[k]];
      ElementsMore(next[..k], next[k]);
      queue' := Mark(next[k], seen, search, queue');
    }
    assert next[..|next|] == next;
  }

  ghost predicate Scanning(adjacent: seq<seq<nat>>, origin: nat, queue: seq<nat>, i: nat) {
    && i <= |queue| && origin in queue && |Elements(queue)| == |queue|
    && (forall v: nat :: v in queue ==> v < |adjacent| && Reaches<nat>(IndexNext(adjacent), origin, v))
    && (forall j :: 0 <= j < i ==> Elements(IndexNext(adjacent)(queue[j])) <= Elements(queue))
  }

  lemma ScanStep(adjacent: seq<seq<nat>>, origin: nat, queue: seq<nat>, i: nat, queue': seq<nat>)
    requires InRange(adjacent) && Scanning(adjacent, origin, queue, i) && i < |queue|
    requires queue <= queue' && |Elements(queue')| == |queue'|
    requires Elements(queue') == Elements(queue) + Elements(IndexNext(adjacent)(queue[i]))
    ensures Scanning(adjacent, origin, queue', i + 1)
  {
    forall v: nat | v in queue' ensures v < |adjacent| && Reaches<nat>(IndexNext(adjacent), origin, v) {
      assert v in Elements(queue');
      if v !in queue {
        assert v in IndexNext(adjacent)(queue[i]);
        ReachStep<nat>(IndexNext(adjacent), origin, queue[i], v);
      }
    }
    forall j | 0 <= j < i + 1 ensures Elements(IndexNext(adjacent)(queue'[j])) <= Elements(queue') {
      assert queue'[j] == queue[j];
    }
  }

  lemma ScanEnds(adjacent: seq<seq<nat>>, origin: nat, queue: seq<nat>)
    requires Scanning(adjacent, origin, queue, |queue|)
    ensures forall v: nat :: v in queue <==> Reaches<nat>(IndexNext(adjacent), origin, v)
  {
    forall v: nat, w: nat | v in Elements(queue) && w in IndexNext(adjacent)(v) ensures w in Elements(queue) {
      var j :| 0 <= j < |queue| && queue[j] == v;
      assert w in Elements(IndexNext(adjacent)(queue[j]));
    }
    ClosedReaches<nat>(IndexNext(adjacent), Elements(queue), origin);
  }

  lemma QueueFits(adjacent: seq<seq<nat>>, origin: nat, queue: seq<nat>, i: nat)
    requires Scanning(adjacent, origin, queue, i)
    ensures |queue| <= |adjacent|
  {
    SubsetSize(Elements(queue), Below(|adjacent|));
  }

  /** Marks exactly the nodes reached from `origin`. Older marks need no clearing. */
  method Search(adjacent: seq<seq<nat>>, seen: array<nat>, search: nat, origin: nat)
    requires InRange(adjacent) && seen.Length == |adjacent| && origin < |adjacent|
    requires forall v :: 0 <= v < seen.Length ==> seen[v] < search
    modifies seen
    ensures forall v :: 0 <= v < seen.Length ==> seen[v] <= search
    ensures forall v: nat :: v < seen.Length ==> (seen[v] == search <==> Reaches<nat>(IndexNext(adjacent), origin, v))
  {
    seen[origin] := search;
    var queue := [origin];
    assert Elements(queue) == {origin};
    ReachSelf<nat>(IndexNext(adjacent), origin);
    var head := 0;
    while head < |queue|
      invariant Scanning(adjacent, origin, queue, head) && Queued(seen[..], search, queue)
      decreases |adjacent| - head
    {
      QueueFits(adjacent, origin, queue, head);
      assert queue[head] in queue;
      assert forall j :: 0 <= j < |adjacent[queue[head]]| ==> adjacent[queue[head]][j] in adjacent[queue[head]];
      var queue' := MarkNext(adjacent[queue[head]], seen, search, queue);
      ScanStep(adjacent, origin, queue, head, queue');
      queue, head := queue', head + 1;
    }
    ScanEnds(adjacent, origin, queue);
    forall v: nat | v < seen.Length
      ensures seen[v] <= search && (seen[v] == search <==> Reaches<nat>(IndexNext(adjacent), origin, v))
    {
      assert seen[..][v] == seen[v];
      assert v in queue <==> v in Elements(queue);
    }
  }

  // ----- the reach matrix -----

  /** Which stations have only nodes that `origin` reaches. */
  ghost predicate RowFits(adjacent: seq<seq<nat>>, nodes: seq<seq<nat>>, origin: nat, row: seq<bool>) {
    |row| == |nodes| &&
    forall to :: 0 <= to < |nodes| ==> (row[to] <==> ReachesAll(adjacent, origin, nodes[to]))
  }

  ghost predicate ReachesAll(adjacent: seq<seq<nat>>, origin: nat, nodes: seq<nat>) {
    forall node :: node in nodes ==> Reaches<nat>(IndexNext(adjacent), origin, node)
  }

  /** The row of the search that has just set its marks. */
  method MarkedRow(adjacent: seq<seq<nat>>, seen: array<nat>, search: nat, nodes: seq<seq<nat>>, origin: nat)
    returns (row: seq<bool>)
    requires forall to, v :: 0 <= to < |nodes| && v in nodes[to] ==> v < seen.Length
    requires forall v: nat :: v < seen.Length ==> (seen[v] == search <==> Reaches<nat>(IndexNext(adjacent), origin, v))
    ensures RowFits(adjacent, nodes, origin, row)
  {
    row := [];
    for to := 0 to |nodes|
      invariant |row| == to
      invariant forall t :: 0 <= t < to ==> (row[t] <==> ReachesAll(adjacent, origin, nodes[t]))
    {
      var all := true;
      for k := 0 to |nodes[to]|
        invariant all <==> forall j :: 0 <= j < k ==> Reaches<nat>(IndexNext(adjacent), origin, nodes[to][j])
      {
        assert nodes[to][k] in nodes[to];
        if seen[nodes[to][k]] != search {
          all := false;
        }
      }
      assert all <==> ReachesAll(adjacent, origin, nodes[to]);
      row := row + [all];
    }
  }

  ghost predicate RowsFit(adjacent: seq<seq<nat>>, nodes: seq<seq<nat>>, computed: map<nat, seq<bool>>) {
    forall origin :: origin in computed ==> RowFits(adjacent, nodes, origin, computed[origin])
  }

  /** Every one of the origins reaches every node of the station. */
  ghost predicate AllReachAll(adjacent: seq<seq<nat>>, origins: seq<nat>, nodes: seq<nat>) {
    forall origin :: origin in origins ==> ReachesAll(adjacent, origin, nodes)
  }

  /** Conjoins the rows of a station's origins, and searches from those without a row. */
  method StationRow(adjacent: seq<seq<nat>>, seen: array<nat>, start: nat, nodes: seq<seq<nat>>,
                    before: map<nat, seq<bool>>, origins: seq<nat>)
    returns (search: nat, computed: map<nat, seq<bool>>, reach: seq<bool>)
    requires InRange(adjacent) && seen.Length == |adjacent| && RowsFit(adjacent, nodes, before)
    requires forall to, v :: 0 <= to < |nodes| && v in nodes[to] ==> v < |adjacent|
    requires forall k :: 0 <= k < |origins| ==> origins[k] < |adjacent|
    requires forall v :: 0 <= v < seen.Length ==> seen[v] <= start
    modifies seen
    ensures forall v :: 0 <= v < seen.Length ==> seen[v] <= search
    ensures RowsFit(adjacent, nodes, computed)
    ensures RowReach(adjacent, nodes, origins, reach)
  {
    search, computed := start, before;
    reach := seq(|nodes|, _ => true);
    for k := 0 to |origins|
      invariant forall v :: 0 <= v < seen.Length ==> seen[v] <= search
      invariant RowsFit(adjacent, nodes, computed) && |reach| == |nodes|
      invariant forall to :: 0 <= to < |nodes| ==> (reach[to] <==> AllReachAll(adjacent, origins[..k], nodes[to]))
    {
      var origin := origins[k];
      if origin !in computed {
        search := search + 1;
        Search(adjacent, seen, search, origin);
        var row := MarkedRow(adjacent, seen, search, nodes, origin);
        computed := computed[origin := row];
      }
      assert origins[..k + 1] == origins[..k] + [origin];
      reach := Conjoin(reach, computed[origin]);
    }
    assert origins[..|origins|] == origins;
  }

  method Conjoin(a: seq<bool>, b: seq<bool>) returns (both: seq<bool>)
    requires |a| == |b|
    ensures |both| == |a| && forall k :: 0 <= k < |a| ==> both[k] == (a[k] && b[k])
  {
    both := [];
    for k := 0 to |a|
      invariant |both| == k && forall j :: 0 <= j < k ==> both[j] == (a[j] && b[j])
    {
      both := both + [a[k] && b[k]];
    }
  }

  lemma NodesInRange(indexes: map<string, nat>, berths: seq<seq<string>>, nodes: seq<seq<nat>>, adjacent: seq<seq<nat>>,
                     graph: Graph)
    requires Indexing(indexes) && IsRows(nodes, berths, indexes) && Mirrors(graph, indexes, adjacent)
    ensures InRange(adjacent)
    ensures forall to, v :: 0 <= to < |nodes| && v in nodes[to] ==> v < |adjacent|
  {
    forall to, v | 0 <= to < |nodes| && v in nodes[to] ensures v < |adjacent| {
      var id :| id in berths[to] && id in indexes && indexes[id] == v;
    }
    forall v, w | 0 <= v < |adjacent| && w in adjacent[v] ensures w < |adjacent| {
      EveryIndexUsed(indexes, v);
      var a :| a in indexes && indexes[a] == v;
      assert MirrorsNode(graph, indexes, a, adjacent[indexes[a]]);
      var b :| b in Successors(graph, a) && b in indexes && indexes[b] == w;
    }
  }

  /** A numbering of n nodes uses every number below n. */
  lemma EveryIndexUsed(indexes: map<string, nat>, v: nat)
    requires Indexing(indexes) && v < |indexes|
    ensures exists a :: a in indexes && indexes[a] == v
  {
    if forall a :: a in indexes ==> indexes[a] != v {
      var used := set a | a in indexes :: indexes[a];
      InjectiveCount(indexes.Keys, indexes);
      assert used == (set a | a in indexes.Keys :: indexes[a]);
      SubsetSize(used, Below(|indexes|) - {v});
    }
  }

  lemma {:induction false} InjectiveCount(keys: set<string>, indexes: map<string, nat>)
    requires Indexing(indexes) && keys <= indexes.Keys
    ensures |set a | a in keys :: indexes[a]| == |keys|
  {
    if keys == {} {
      assert (set a | a in keys :: indexes[a]) == {};
    } else {
      var k :| k in keys;
      InjectiveCount(keys - {k}, indexes);
      assert (set a | a in keys :: indexes[a]) == (set a | a in keys - {k} :: indexes[a]) + {indexes[k]};
    }
  }

  lemma SameAllReach(graph: Graph, indexes: map<string, nat>, adjacent: seq<seq<nat>>, berths: seq<seq<string>>,
                     nodes: seq<seq<nat>>, from: nat, to: nat)
    requires Indexing(indexes) && Mirrors(graph, indexes, adjacent) && IsRows(nodes, berths, indexes)
    requires from < |berths| && to < |berths|
    ensures AllReachAll(adjacent, nodes[from], nodes[to]) <==> AllReach(graph, berths[from], berths[to])
  {
    if AllReachAll(adjacent, nodes[from], nodes[to]) {
      forall a, b | a in berths[from] && b in berths[to] ensures Reaches(Next(graph), a, b) {
        assert ReachesAll(adjacent, indexes[a], nodes[to]);
        SameReach(graph, indexes, adjacent, a, b);
      }
    }
    if AllReach(graph, berths[from], berths[to]) {
      forall v, w | v in nodes[from] && w in nodes[to] ensures Reaches<nat>(IndexNext(adjacent), v, w) {
        var a :| a in berths[from] && a in indexes && indexes[a] == v;
        var b :| b in berths[to] && b in indexes && indexes[b] == w;
        SameReach(graph, indexes, adjacent, a, b);
      }
    }
  }

  /** The all-berths reach of every pair of stations. */
  ghost predicate IsReach(graph: Graph, berths: seq<seq<string>>, reach: seq<seq<bool>>) {
    |reach| == |berths| &&
    forall from :: 0 <= from < |berths| ==>
      |reach[from]| == |berths| &&
      forall to :: 0 <= to < |berths| ==> (reach[from][to] <==> AllReach(graph, berths[from], berths[to]))
  }

  /** The rows of the first stations, on node numbers. */
  ghost predicate RowsReach(adjacent: seq<seq<nat>>, nodes: seq<seq<nat>>, reach: seq<seq<bool>>) {
    |reach| <= |nodes| && forall from :: 0 <= from < |reach| ==> RowReach(adjacent, nodes, nodes[from], reach[from])
  }

  ghost predicate RowReach(adjacent: seq<seq<nat>>, nodes: seq<seq<nat>>, origins: seq<nat>, row: seq<bool>) {
    |row| == |nodes| && forall to :: 0 <= to < |nodes| ==> (row[to] <==> AllReachAll(adjacent, origins, nodes[to]))
  }

  lemma RowsAreReach(graph: Graph, indexes: map<string, nat>, adjacent: seq<seq<nat>>, berths: seq<seq<string>>,
                     nodes: seq<seq<nat>>, reach: seq<seq<bool>>)
    requires Indexing(indexes) && Mirrors(graph, indexes, adjacent) && IsRows(nodes, berths, indexes)
    requires RowsReach(adjacent, nodes, reach) && |reach| == |nodes|
    ensures IsReach(graph, berths, reach)
  {
    forall from, to | 0 <= from < |berths| && 0 <= to < |berths|
      ensures |reach[from]| == |berths| && (reach[from][to] <==> AllReach(graph, berths[from], berths[to]))
    {
      assert RowReach(adjacent, nodes, nodes[from], reach[from]);
      SameAllReach(graph, indexes, adjacent, berths, nodes, from, to);
    }
    forall from | 0 <= from < |berths| ensures |reach[from]| == |berths| {
      assert RowReach(adjacent, nodes, nodes[from], reach[from]);
    }
  }

  method ReachRows(adjacent: seq<seq<nat>>, nodes: seq<seq<nat>>) returns (reach: seq<seq<bool>>)
    requires InRange(adjacent)
    requires forall to, v :: 0 <= to < |nodes| && v in nodes[to] ==> v < |adjacent|
    ensures RowsReach(adjacent, nodes, reach) && |reach| == |nodes|
  {
    var seen := new nat[|adjacent|](_ => 0);
    var search := 0;
    var computed: map<nat, seq<bool>> := map[];
    reach := [];
    for station := 0 to |nodes|
      invariant forall v :: 0 <= v < seen.Length ==> seen[v] <= search
      invariant RowsFit(adjacent, nodes, computed) && |reach| == station && RowsReach(adjacent, nodes, reach)
    {
      var row;
      forall k | 0 <= k < |nodes[station]| ensures nodes[station][k] < |adjacent| {
        assert nodes[station][k] in nodes[station];
      }
      search, computed, row := StationRow(adjacent, seen, search, nodes, computed, nodes[station]);
      reach := reach + [row];
    }
  }

  method DraftStationReach(graph: Graph, berths: seq<seq<string>>) returns (reach: seq<seq<bool>>)
    ensures IsReach(graph, berths, reach)
  {
    var start := IndexGraph(graph);
    var indexes, nodes := IndexBerths(start, berths);
    forall node | node in graph ensures Named(graph, indexes, node) {
      assert Named(graph, start, node);
    }
    var adjacent := BuildAdjacent(graph, indexes);
    NodesInRange(indexes, berths, nodes, adjacent, graph);
    reach := ReachRows(adjacent, nodes);
    RowsAreReach(graph, indexes, adjacent, berths, nodes, reach);
  }
}
