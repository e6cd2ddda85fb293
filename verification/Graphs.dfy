/** Directed graphs by successor lists, paths and reachability. */
module Graphs {
  import opened Basics

  type Graph = map<string, seq<string>>

  /** A node without an entry has no successors. */
  function Successors(graph: Graph, node: string): seq<string> {
    if node in graph then graph[node] else []
  }

  ghost predicate Path<T(!new)>(next: T -> seq<T>, path: seq<T>) {
    path != [] && forall k :: 0 <= k < |path| - 1 ==> path[k + 1] in next(path[k])
  }

  ghost predicate PathBetween<T(!new)>(next: T -> seq<T>, path: seq<T>, from: T, to: T) {
    Path(next, path) && path[0] == from && path[|path| - 1] == to
  }

  ghost predicate Reaches<T(!new)>(next: T -> seq<T>, from: T, to: T) {
    exists path :: PathBetween(next, path, from, to)
  }

  ghost function Next(graph: Graph): string -> seq<string> {
    node => Successors(graph, node)
  }

  lemma ReachSelf<T(!new)>(next: T -> seq<T>, node: T)
    ensures Reaches(next, node, node)
  {
    assert PathBetween(next, [node], node, node);
  }

  lemma ReachStep<T(!new)>(next: T -> seq<T>, from: T, node: T, to: T)
    requires Reaches(next, from, node) && to in next(node)
    ensures Reaches(next, from, to)
  {
    var path :| PathBetween(next, path, from, node);
    var longer := path + [to];
    assert forall k :: 0 <= k < |path| ==> longer[k] == path[k];
    assert PathBetween(next, longer, from, to);
  }

  lemma ReachTransitive<T(!new)>(next: T -> seq<T>, a: T, b: T, c: T)
    requires Reaches(next, a, b) && Reaches(next, b, c)
    ensures Reaches(next, a, c)
  {
    var first :| PathBetween(next, first, a, b);
    var second :| PathBetween(next, second, b, c);
    var path := first + second[1..];
    forall k | 0 <= k < |path| - 1 ensures path[k + 1] in next(path[k]) {
      if k < |first| - 1 {
      } else {
        assert path[k] == second[k - |first| + 1] && path[k + 1] == second[k - |first| + 2];
      }
    }
    assert path[|path| - 1] == c;
    assert PathBetween(next, path, a, c);
  }

  /** A set that contains the start and every successor of its members contains all reached nodes. */
  lemma {:induction false} ClosedReach<T(!new)>(next: T -> seq<T>, closed: set<T>, path: seq<T>, k: nat)
    requires Path(next, path) && path[0] in closed && k < |path|
    requires forall node, to :: node in closed && to in next(node) ==> to in closed
    ensures path[k] in closed
  {
    if k > 0 {
      ClosedReach(next, closed, path, k - 1);
    }
  }

  lemma ClosedReaches<T(!new)>(next: T -> seq<T>, closed: set<T>, from: T)
    requires from in closed
    requires forall node, to :: node in closed && to in next(node) ==> to in closed
    ensures forall to :: Reaches(next, from, to) ==> to in closed
  {
    forall to | Reaches(next, from, to) ensures to in closed {
      var path :| PathBetween(next, path, from, to);
      ClosedReach(next, closed, path, |path| - 1);
    }
  }

  /** The path that walks `path` backwards. */
  ghost function Backwards<T>(path: seq<T>): (back: seq<T>)
    ensures |back| == |path| && forall k :: 0 <= k < |path| ==> back[k] == path[|path| - 1 - k]
  {
    seq(|path|, k requires 0 <= k < |path| => path[|path| - 1 - k])
  }

  lemma ReverseReaches<T(!new)>(next: T -> seq<T>, back: T -> seq<T>, from: T, to: T)
    requires forall a, b :: b in next(a) ==> a in back(b)
    requires Reaches(next, from, to)
    ensures Reaches(back, to, from)
  {
    var path :| PathBetween(next, path, from, to);
    var reversed := Backwards(path);
    forall k | 0 <= k < |reversed| - 1 ensures reversed[k + 1] in back(reversed[k]) {
      var j := |path| - 2 - k;
      assert path[j + 1] in next(path[j]);
    }
    assert PathBetween(back, reversed, to, from);
  }

  /** The image of a path under a map of nodes that keeps successors. */
  lemma MapReaches<A(!new), B(!new)>(next: A -> seq<A>, next': B -> seq<B>, f: map<A, B>, from: A, to: A)
    requires from in f && Reaches(next, from, to)
    requires forall a, b :: a in f && b in next(a) ==> b in f && f[b] in next'(f[a])
    ensures to in f && Reaches(next', f[from], f[to])
  {
    var path :| PathBetween(next, path, from, to);
    forall k | 0 <= k < |path| ensures path[k] in f {
      ClosedReach(next, f.Keys, path, k);
    }
    var image := seq(|path|, k requires 0 <= k < |path| => f[path[k]]);
    forall k | 0 <= k < |image| - 1 ensures image[k + 1] in next'(image[k]) {
      assert path[k + 1] in next(path[k]);
    }
    assert PathBetween(next', image, f[from], f[to]);
  }

  // ----- searches on named nodes -----

  /** Every node that a search from `from` can meet. */
  ghost function Universe(graph: Graph, from: string): set<string> {
    {from} + set node, to | node in graph && to in graph[node] :: to
  }

  /** Appends the node to the queue, and marks it, unless it is seen or blocked. */
  method VisitNode(node: string, blocked: set<string>, queue: seq<string>, seen: set<string>)
    returns (queue': seq<string>, seen': set<string>)
    requires seen == Elements(queue) && |seen| == |queue|
    ensures queue <= queue' && seen' == Elements(queue') && |seen'| == |queue'| && seen' == seen + ({node} - blocked)
  {
    queue', seen' := queue, seen;
    if node !in seen && node !in blocked {
      ElementsMore(queue, node);
      seen' := seen + {node};
      queue' := queue + [node];
    }
  }

  /** Appends the unseen items of `next` to the queue, and marks them. */
  method Visit(next: seq<string>, queue: seq<string>, seen: set<string>)
    returns (queue': seq<string>, seen': set<string>)
    requires seen == Elements(queue) && |seen| == |queue|
    ensures queue <= queue' && seen' == Elements(queue') && |seen'| == |queue'|
    ensures seen' == seen + Elements(next)
  {
    queue', seen' := queue, seen;
    for k := 0 to |next|
      invariant queue <= queue' && seen' == Elements(queue') && |seen'| == |queue'|
      invariant seen' == seen + Elements(next[..k])
    {
      assert next[..k + 1] == next[..k] + [next[k]];
      ElementsMore(next[..k], next[k]);
      queue', seen' := VisitNode(next[k], {}, queue', seen');
    }
    assert next[..|next|] == next;
  }

  /** A search before queue entry `i`: the seen nodes are reached, and closed below `i`. */
  ghost predicate Searching(graph: Graph, from: string, queue: seq<string>, seen: set<string>, i: nat) {
    && i <= |queue| == |seen| && seen == Elements(queue) && from in seen && seen <= Universe(graph, from)
    && (forall node :: node in seen ==> Reaches(Next(graph), from, node))
    && (forall j :: 0 <= j < i ==> Elements(Successors(graph, queue[j])) <= seen)
  }

  lemma SearchStep(graph: Graph, from: string, queue: seq<string>, seen: set<string>, i: nat,
                   queue': seq<string>, seen': set<string>)
    requires Searching(graph, from, queue, seen, i) && i < |queue|
    requires queue <= queue' && seen' == Elements(queue') && |seen'| == |queue'|
    requires seen' == seen + Elements(Successors(graph, queue[i]))
    ensures Searching(graph, from, queue', seen', i + 1)
  {
    forall to | to in seen' ensures Reaches(Next(graph), from, to) && to in Universe(graph, from) {
      if to !in seen {
        assert to in Successors(graph, queue[i]);
        ReachStep(Next(graph), from, queue[i], to);
      }
    }
    forall j | 0 <= j < i + 1 ensures Elements(Successors(graph, queue'[j])) <= seen' {
      assert queue'[j] == queue[j];
    }
  }

  lemma SearchEnds(graph: Graph, from: string, queue: seq<string>, seen: set<string>)
    requires Searching(graph, from, queue, seen, |queue|)
    ensures forall node :: node in seen <==> Reaches(Next(graph), from, node)
  {
    forall node, to | node in seen && to in Next(graph)(node) ensures to in seen {
      var j :| 0 <= j < |queue| && queue[j] == node;
      assert to in Elements(Successors(graph, queue[j]));
    }
    ClosedReaches(Next(graph), seen, from);
  }

  /** All nodes reached from `from`. */
  method DraftReach(graph: Graph, from: string) returns (seen: set<string>)
    ensures forall node :: node in seen <==> Reaches(Next(graph), from, node)
  {
    var queue := [from];
    seen := {from};
    ReachSelf(Next(graph), from);
    var i := 0;
    while i < |queue|
      invariant Searching(graph, from, queue, seen, i)
      decreases |Universe(graph, from)| - i
    {
      SubsetSize(seen, Universe(graph, from));
      var queue', seen' := Visit(Successors(graph, queue[i]), queue, seen);
      SearchStep(graph, from, queue, seen, i, queue', seen');
      queue, seen, i := queue', seen', i + 1;
    }
    SearchEnds(graph, from, queue, seen);
  }

  /** A route of at least one lane whose inner nodes are not blocked. */
  ghost predicate OpenRoute(graph: Graph, blocked: set<string>, route: seq<string>, from: string, to: string) {
    && |route| >= 2 && PathBetween(Next(graph), route, from, to)
    && forall k :: 0 < k < |route| - 1 ==> route[k] !in blocked
  }

  ghost predicate OpenTo(graph: Graph, blocked: set<string>, from: string, node: string) {
    node == from || exists route :: OpenRoute(graph, blocked, route, from, node)
  }

  lemma OpenStep(graph: Graph, blocked: set<string>, from: string, node: string, to: string)
    requires OpenTo(graph, blocked, from, node) && (node == from || node !in blocked) && to in Successors(graph, node)
    ensures exists route :: OpenRoute(graph, blocked, route, from, to)
  {
    if node == from {
      assert OpenRoute(graph, blocked, [from, to], from, to);
    } else {
      var route :| OpenRoute(graph, blocked, route, from, node);
      var longer := route + [to];
      assert forall k :: 0 <= k < |route| ==> longer[k] == route[k];
      assert OpenRoute(graph, blocked, longer, from, to);
    }
  }

  /** Every successor of a settled node is seen or blocked, and none is the target. */
  ghost predicate Settled(graph: Graph, blocked: set<string>, seen: set<string>, node: string, to: string) {
    forall next :: next in Successors(graph, node) ==> next != to && (next in seen || next in blocked)
  }

  lemma {:induction false} InnerNodesSeen(graph: Graph, blocked: set<string>, seen: set<string>, route: seq<string>,
                                          from: string, to: string, k: nat)
    requires OpenRoute(graph, blocked, route, from, to) && k < |route| - 1 && from in seen
    requires forall node :: node in seen ==> Settled(graph, blocked, seen, node, to)
    ensures route[k] in seen
  {
    if k > 0 {
      InnerNodesSeen(graph, blocked, seen, route, from, to, k - 1);
      assert route[k] in Successors(graph, route[k - 1]);
    }
  }

  /** No open route leaves a seen set whose nodes are all settled. */
  lemma NoOpenRoute(graph: Graph, blocked: set<string>, seen: set<string>, route: seq<string>, from: string, to: string)
    requires from in seen && forall node :: node in seen ==> Settled(graph, blocked, seen, node, to)
    ensures !OpenRoute(graph, blocked, route, from, to)
  {
    if OpenRoute(graph, blocked, route, from, to) {
      assert route[|route| - 1] in Successors(graph, route[|route| - 2]);
      InnerNodesSeen(graph, blocked, seen, route, from, to, |route| - 2);
    }
  }

  /** Stops at the target. Otherwise it appends the unseen open items of `next`, and marks them. */
  method VisitOpen(next: seq<string>, to: string, blocked: set<string>, queue: seq<string>, seen: set<string>)
    returns (found: bool, queue': seq<string>, seen': set<string>)
    requires seen == Elements(queue) && |seen| == |queue|
    ensures found <==> to in next
    ensures !found ==> queue <= queue' && seen' == Elements(queue') && |seen'| == |queue'|
    ensures !found ==> seen' == seen + (Elements(next) - blocked)
  {
    queue', seen', found := queue, seen, false;
    for k := 0 to |next|
      invariant queue <= queue' && seen' == Elements(queue') && |seen'| == |queue'|
      invariant seen' == seen + (Elements(next[..k]) - blocked)
      invariant to !in next[..k]
    {
      assert next[..k + 1] == next[..k] + [next[k]];
      ElementsMore(next[..k], next[k]);
      if next[k] == to {
        found := true;
        return;
      }
      queue', seen' := VisitNode(next[k], blocked, queue', seen');
    }
    assert next[..|next|] == next;
  }

  ghost predicate SearchingOpen(graph: Graph, blocked: set<string>, from: string, to: string,
                                queue: seq<string>, seen: set<string>, i: nat)
  {
    && i <= |queue| == |seen| && seen == Elements(queue) && from in seen && seen <= Universe(graph, from)
    && (forall node :: node in seen ==> OpenTo(graph, blocked, from, node) && (node == from || node !in blocked))
    && (forall j :: 0 <= j < i ==> Settled(graph, blocked, seen, queue[j], to))
  }

  lemma OpenSearchStep(graph: Graph, blocked: set<string>, from: string, to: string, queue: seq<string>,
                       seen: set<string>, i: nat, queue': seq<string>, seen': set<string>)
    requires SearchingOpen(graph, blocked, from, to, queue, seen, i) && i < |queue|
    requires queue <= queue' && seen' == Elements(queue') && |seen'| == |queue'| && to !in Successors(graph, queue[i])
    requires seen' == seen + (Elements(Successors(graph, queue[i])) - blocked)
    ensures SearchingOpen(graph, blocked, from, to, queue', seen', i + 1)
  {
    forall node | node in seen'
      ensures OpenTo(graph, blocked, from, node) && (node == from || node !in blocked) && node in Universe(graph, from)
    {
      if node !in seen {
        assert node in Successors(graph, queue[i]);
        OpenStep(graph, blocked, from, queue[i], node);
      }
    }
    forall j | 0 <= j < i + 1 ensures Settled(graph, blocked, seen', queue'[j], to) {
      assert queue'[j] == queue[j];
      if j < i {
        assert Settled(graph, blocked, seen, queue[j], to);
      } else {
        assert forall next :: next in Successors(graph, queue[i]) ==> next in Elements(Successors(graph, queue[i]));
      }
    }
  }

  /** Whether some route leads from `from` to `to` past no blocked node. */
  method DraftRoute(graph: Graph, from: string, to: string, blocked: set<string>) returns (found: bool)
    ensures found <==> exists route :: OpenRoute(graph, blocked, route, from, to)
  {
    var queue := [from];
    var seen := {from};
    var i := 0;
    while i < |queue|
      invariant SearchingOpen(graph, blocked, from, to, queue, seen, i)
      decreases |Universe(graph, from)| - i
    {
      SubsetSize(seen, Universe(graph, from));
      var queue', seen';
      found, queue', seen' := VisitOpen(Successors(graph, queue[i]), to, blocked, queue, seen);
      if found {
        OpenStep(graph, blocked, from, queue[i], to);
        return;
      }
      OpenSearchStep(graph, blocked, from, to, queue, seen, i, queue', seen');
      queue, seen, i := queue', seen', i + 1;
    }
    forall route ensures !OpenRoute(graph, blocked, route, from, to) {
      NoOpenRoute(graph, blocked, seen, route, from, to);
    }
    found := false;
  }
}
