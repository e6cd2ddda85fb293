/** The busiest node of a run: a sliding count as the passes come, and what it means for the whole list. */
module NodeFlows {

  const WINDOW: int := 3600

  datatype Pass = Pass(node: string, tick: int)

  // ----- the order of node IDs -----

  predicate Below(a: string, b: string) {
    if b == [] then false
    else if a == [] then true
    else a[0] < b[0] || (a[0] == b[0] && Below(a[1..], b[1..]))
  }

  lemma {:induction false} BelowTotal(a: string, b: string)
    ensures Below(a, b) || a == b || Below(b, a)
    ensures !(Below(a, b) && Below(b, a)) && (a == b ==> !Below(a, b))
  {
    if a != [] && b != [] {
      BelowTotal(a[1..], b[1..]);
      if a[0] == b[0] && a[1..] == b[1..] {
        assert a == [a[0]] + a[1..] && b == [b[0]] + b[1..];
      }
    }
  }

  lemma {:induction false} BelowTransitive(a: string, b: string, c: string)
    requires Below(a, b) && Below(b, c)
    ensures Below(a, c)
  {
    if a != [] && a[0] == b[0] && b[0] == c[0] {
      BelowTransitive(a[1..], b[1..], c[1..]);
    }
  }

  /** One string is below another when it is a proper prefix, or lower at the first place where they differ. */
  ghost predicate FirstBelow(a: string, b: string) {
    exists k :: 0 <= k <= |a| && k < |b| && a[..k] == b[..k] && (k == |a| || a[k] < b[k])
  }

  lemma {:induction false} BelowMeans(a: string, b: string)
    ensures Below(a, b) <==> FirstBelow(a, b)
  {
    if b == [] {
    } else if a == [] {
      assert a[..0] == b[..0];
    } else if a[0] == b[0] {
      BelowMeans(a[1..], b[1..]);
      BelowTail(a, b);
    } else {
      assert a[..0] == b[..0];
      forall k | 0 < k <= |a| && k < |b| ensures a[..k] != b[..k] {
        assert a[..k][0] != b[..k][0];
      }
    }
  }

  lemma BelowTail(a: string, b: string)
    requires a != [] && b != [] && a[0] == b[0]
    ensures FirstBelow(a, b) <==> FirstBelow(a[1..], b[1..])
  {
    var s, t := a[1..], b[1..];
    if k :| 0 <= k <= |s| && k < |t| && s[..k] == t[..k] && (k == |s| || s[k] < t[k]) {
      assert a[..k + 1] == [a[0]] + s[..k] && b[..k + 1] == [b[0]] + t[..k];
      assert k + 1 == |a| || a[k + 1] < b[k + 1];
    }
    if k :| 0 <= k <= |a| && k < |b| && a[..k] == b[..k] && (k == |a| || a[k] < b[k]) {
      assert k > 0;
      assert s[..k - 1] == a[..k][1..] && t[..k - 1] == b[..k][1..];
    }
  }

  // ----- the offline meaning -----

  predicate InOrder(passes: seq<Pass>) {
    forall j, k :: 0 <= j <= k < |passes| ==> passes[j].tick <= passes[k].tick
  }

  predicate Inside(pass: Pass, node: string, tick: int) {
    pass.node == node && tick - WINDOW < pass.tick <= tick
  }

  /** How often the node is passed in the 60 seconds up to the tick. */
  function WindowCount(passes: seq<Pass>, node: string, tick: int): nat {
    if passes == [] then 0
    else WindowCount(passes[..|passes| - 1], node, tick) + if Inside(passes[|passes| - 1], node, tick) then 1 else 0
  }

  /** No pass has a window count above `peak`, and `node` is the lowest of the nodes with that count. */
  ghost predicate IsPeak(passes: seq<Pass>, peak: nat, node: string) {
    if passes == [] then peak == 0 && node == ""
    else
      && (exists i :: 0 <= i < |passes| && passes[i].node == node && WindowCount(passes, node, passes[i].tick) == peak)
      && forall i :: 0 <= i < |passes| ==>
           WindowCount(passes, passes[i].node, passes[i].tick) <= peak
           && (WindowCount(passes, passes[i].node, passes[i].tick) == peak ==> !Below(passes[i].node, node))
  }

  /** The indices of the passes that count at the tick. */
  ghost function InWindow(passes: seq<Pass>, node: string, tick: int): set<nat> {
    set i: nat | i < |passes| && passes[i].node == node && tick - 60 * 60 < passes[i].tick <= tick
  }

  lemma {:induction false} WindowCountMeans(passes: seq<Pass>, node: string, tick: int)
    ensures WindowCount(passes, node, tick) == |InWindow(passes, node, tick)|
  {
    if passes != [] {
      var n := |passes| - 1;
      var before := passes[..n];
      WindowCountMeans(before, node, tick);
      InWindowMore(passes, node, tick);
    }
  }

  lemma InWindowMore(passes: seq<Pass>, node: string, tick: int)
    requires passes != []
    ensures var n := |passes| - 1;
            InWindow(passes, node, tick) ==
            InWindow(passes[..n], node, tick) + if Inside(passes[n], node, tick) then {n} else {}
    ensures |passes| - 1 !in InWindow(passes[..|passes| - 1], node, tick)
  {
    var n := |passes| - 1;
    forall i: nat
      ensures i in InWindow(passes, node, tick) <==>
              i in InWindow(passes[..n], node, tick) || (i == n && Inside(passes[n], node, tick))
    {
      if i < n { assert passes[..n][i] == passes[i]; }
    }
  }

  lemma {:induction false} CountIncludes(passes: seq<Pass>, node: string, tick: int, tick': int)
    requires forall i :: 0 <= i < |passes| && Inside(passes[i], node, tick) ==> Inside(passes[i], node, tick')
    ensures WindowCount(passes, node, tick) <= WindowCount(passes, node, tick')
  {
    if passes != [] {
      CountIncludes(passes[..|passes| - 1], node, tick, tick');
    }
  }

  /** The latest pass in a window that is not empty. */
  lemma {:induction false} LastInside(passes: seq<Pass>, node: string, tick: int) returns (last: nat)
    requires WindowCount(passes, node, tick) > 0
    ensures last < |passes| && Inside(passes[last], node, tick)
    ensures forall i :: 0 <= i < |passes| && Inside(passes[i], node, tick) ==> passes[i].tick <= passes[last].tick
  {
    var n := |passes| - 1;
    if WindowCount(passes[..n], node, tick) == 0 {
      last := n;
      NoneInside(passes[..n], node, tick);
      assert forall i :: 0 <= i < n ==> passes[..n][i] == passes[i];
    } else {
      last := LastInside(passes[..n], node, tick);
      assert forall i :: 0 <= i < n ==> passes[..n][i] == passes[i];
      if Inside(passes[n], node, tick) && passes[n].tick > passes[last].tick {
        last := n;
      }
    }
  }

  lemma {:induction false} NoneInside(passes: seq<Pass>, node: string, tick: int)
    requires WindowCount(passes, node, tick) == 0
    ensures forall i :: 0 <= i < |passes| ==> !Inside(passes[i], node, tick)
  {
    if passes != [] {
      var n := |passes| - 1;
      NoneInside(passes[..n], node, tick);
      assert forall i :: 0 <= i < n ==> passes[..n][i] == passes[i];
    }
  }

  /** No node has more passes than the peak in any 60 seconds, whether or not a pass ends them. */
  lemma PeakOverAll(passes: seq<Pass>, peak: nat, node: string, other: string, tick: int)
    requires IsPeak(passes, peak, node)
    ensures WindowCount(passes, other, tick) <= peak
  {
    if WindowCount(passes, other, tick) > 0 {
      var last := LastInside(passes, other, tick);
      CountIncludes(passes, other, tick, passes[last].tick);
    }
  }

  lemma PeakUnique(passes: seq<Pass>, peak: nat, node: string, peak': nat, node': string)
    requires IsPeak(passes, peak, node) && IsPeak(passes, peak', node')
    ensures peak == peak' && node == node'
  {
    BelowTotal(node, node');
  }

  // ----- the online window -----

  datatype Flow = Flow(passes: map<string, seq<int>>, peak: nat, peakNode: string)

  function Window(flow: Flow, node: string): seq<int> {
    if node in flow.passes then flow.passes[node] else []
  }

  /** Drops the ticks that are outside the window. */
  function Trim(ticks: seq<int>, tick: int): seq<int> {
    if ticks != [] && ticks[0] <= tick - WINDOW then Trim(ticks[1..], tick) else ticks
  }

  function AfterPass(flow: Flow, pass: Pass): Flow {
    var window := Trim(Window(flow, pass.node) + [pass.tick], pass.tick);
    var passes := flow.passes[pass.node := window];
    if |window| > flow.peak || (|window| == flow.peak && Below(pass.node, flow.peakNode))
    then Flow(passes, |window|, pass.node) else Flow(passes, flow.peak, flow.peakNode)
  }

  function AfterPasses(passes: seq<Pass>): Flow {
    if passes == [] then Flow(map[], 0, "")
    else AfterPass(AfterPasses(passes[..|passes| - 1]), passes[|passes| - 1])
  }

  // ----- the windows hold the counted passes -----

  function TicksOf(passes: seq<Pass>, node: string): seq<int> {
    if passes == [] then []
    else
      var last := passes[|passes| - 1];
      TicksOf(passes[..|passes| - 1], node) + if last.node == node then [last.tick] else []
  }

  predicate Sorted(ticks: seq<int>) {
    forall j, k :: 0 <= j <= k < |ticks| ==> ticks[j] <= ticks[k]
  }

  lemma {:induction false} TicksSorted(passes: seq<Pass>, node: string)
    requires InOrder(passes)
    ensures Sorted(TicksOf(passes, node))
    ensures passes != [] ==> forall k :: 0 <= k < |TicksOf(passes, node)| ==>
      TicksOf(passes, node)[k] <= passes[|passes| - 1].tick
  {
    if passes != [] {
      TicksSorted(passes[..|passes| - 1], node);
    }
  }

  /** Trimming a sorted list once more, with a later tick appended, is trimming the whole list. */
  lemma {:induction false} TrimAgain(ticks: seq<int>, earlier: int, tick: int)
    requires earlier <= tick
    ensures Trim(Trim(ticks, earlier) + [tick], tick) == Trim(ticks + [tick], tick)
  {
    if ticks != [] && ticks[0] <= earlier - WINDOW {
      TrimAgain(ticks[1..], earlier, tick);
      assert (ticks + [tick])[1..] == ticks[1..] + [tick];
    }
  }

  /** The trimmed length grows by one exactly when the appended tick is inside. */
  lemma {:induction false} TrimLonger(ticks: seq<int>, next: int, tick: int)
    requires Sorted(ticks + [next])
    ensures |Trim(ticks + [next], tick)| == |Trim(ticks, tick)| + if next > tick - WINDOW then 1 else 0
  {
    if ticks != [] {
      assert (ticks + [next])[|ticks|] == next;
      assert (ticks + [next])[0] == ticks[0];
      assert (ticks + [next])[1..] == ticks[1..] + [next];
      if ticks[0] <= tick - WINDOW {
        TrimLonger(ticks[1..], next, tick);
      }
    }
  }

  lemma {:induction false} TrimCounts(passes: seq<Pass>, node: string, tick: int)
    requires InOrder(passes) && forall k :: 0 <= k < |passes| ==> passes[k].tick <= tick
    ensures |Trim(TicksOf(passes, node), tick)| == WindowCount(passes, node, tick)
  {
    if passes != [] {
      var before, last := passes[..|passes| - 1], passes[|passes| - 1];
      TrimCounts(before, node, tick);
      if last.node == node {
        TicksSorted(passes, node);
        assert TicksOf(passes, node) == TicksOf(before, node) + [last.tick];
        TrimLonger(TicksOf(before, node), last.tick, tick);
      } else {
        assert TicksOf(passes, node) == TicksOf(before, node) + [] == TicksOf(before, node);
      }
    }
  }

  /** Each kept list is the trimmed list of the node's passes, as of its last pass. */
  ghost predicate Kept(passes: seq<Pass>, flow: Flow, node: string) {
    var ticks := TicksOf(passes, node);
    Window(flow, node) == if ticks == [] then [] else Trim(ticks, ticks[|ticks| - 1])
  }

  lemma {:induction false} WindowsKept(passes: seq<Pass>, node: string)
    requires InOrder(passes)
    ensures Kept(passes, AfterPasses(passes), node)
  {
    if passes != [] {
      var before, last := passes[..|passes| - 1], passes[|passes| - 1];
      WindowsKept(before, node);
      var ticks, all := TicksOf(before, node), TicksOf(passes, node);
      if last.node == node {
        assert all == ticks + [last.tick];
        TicksSorted(passes, node);
        if ticks != [] {
          assert all[|ticks| - 1] <= all[|ticks|];
          TrimAgain(ticks, ticks[|ticks| - 1], last.tick);
        }
      } else {
        assert all == ticks + [] == ticks;
      }
    }
  }

  /** The window of a pass has the passes up to it that the offline window has. */
  lemma WindowCounts(passes: seq<Pass>, k: nat)
    requires InOrder(passes) && k < |passes|
    ensures InOrder(passes[..k + 1])
    ensures |Window(AfterPasses(passes[..k + 1]), passes[k].node)|
      == WindowCount(passes[..k + 1], passes[k].node, passes[k].tick)
  {
    var shorter := passes[..k + 1];
    assert shorter[k] == passes[k] && InOrder(shorter);
    WindowsKept(shorter, passes[k].node);
    TrimCounts(shorter, passes[k].node, passes[k].tick);
  }

  // ----- the peak -----

  /** The count when pass i came. */
  function CountThen(passes: seq<Pass>, i: nat): nat
    requires i < |passes|
  {
    WindowCount(passes[..i + 1], passes[i].node, passes[i].tick)
  }

  /** The peak of the counts when the first k passes came. */
  ghost predicate PeakSoFar(passes: seq<Pass>, k: nat, peak: nat, node: string)
    requires k <= |passes|
  {
    if k == 0 then peak == 0 && node == ""
    else
      && (exists i :: 0 <= i < k && passes[i].node == node && CountThen(passes, i) == peak)
      && forall i :: 0 <= i < k ==>
           CountThen(passes, i) <= peak && (CountThen(passes, i) == peak ==> !Below(passes[i].node, node))
  }

  lemma {:induction false} PeakKept(passes: seq<Pass>, k: nat)
    requires InOrder(passes) && k <= |passes|
    ensures PeakSoFar(passes, k, AfterPasses(passes[..k]).peak, AfterPasses(passes[..k]).peakNode)
  {
    if k > 0 {
      PeakKept(passes, k - 1);
      WindowCounts(passes, k - 1);
      var before, after, last := AfterPasses(passes[..k - 1]), AfterPasses(passes[..k]), passes[k - 1];
      assert passes[..k][..k - 1] == passes[..k - 1] && passes[..k][k - 1] == last;
      assert after == AfterPass(before, last);
      assert CountThen(passes, k - 1) == |Window(after, last.node)|;
      PeakStep(passes, k, before, after);
    }
  }

  lemma PeakStep(passes: seq<Pass>, k: nat, before: Flow, after: Flow)
    requires 0 < k <= |passes| && PeakSoFar(passes, k - 1, before.peak, before.peakNode) &&
             after == AfterPass(before, passes[k - 1])
    requires CountThen(passes, k - 1) == |Window(after, passes[k - 1].node)|
    requires |Window(after, passes[k - 1].node)| > 0 || k > 1
    ensures PeakSoFar(passes, k, after.peak, after.peakNode)
  {
    var last := passes[k - 1];
    BelowTotal(last.node, last.node);
    forall i | 0 <= i < k - 1 && CountThen(passes, i) == after.peak ensures !Below(passes[i].node, after.peakNode) {
      if after.peakNode != before.peakNode && after.peak == before.peak {
        BelowTotal(passes[i].node, last.node);
        if Below(passes[i].node, last.node) {
          BelowTransitive(passes[i].node, last.node, before.peakNode);
        }
      }
    }
  }

  /** The passes after the last one of this node and tick are outside its window. */
  lemma {:induction false} LaterOutside(passes: seq<Pass>, node: string, tick: int, k: nat, m: nat)
    requires k <= m <= |passes| && forall j :: k <= j < |passes| ==> !Inside(passes[j], node, tick)
    ensures WindowCount(passes[..m], node, tick) == WindowCount(passes[..k], node, tick)
    decreases m
  {
    if m > k {
      LaterOutside(passes, node, tick, k, m - 1);
      assert passes[..m][..m - 1] == passes[..m - 1];
    }
  }

  /** The last pass of the same node at the same tick. */
  lemma {:induction false} LastAlike(passes: seq<Pass>, i: nat, m: nat) returns (last: nat)
    requires i < m <= |passes|
    ensures i <= last < m && passes[last] == passes[i] && forall j :: last < j < m ==> passes[j] != passes[i]
    decreases m - i
  {
    if passes[m - 1] == passes[i] {
      last := m - 1;
    } else {
      last := LastAlike(passes, i, m - 1);
    }
  }

  /** The whole window of a pass was full when the last pass of its node at its tick came. */
  lemma FullThen(passes: seq<Pass>, i: nat) returns (last: nat)
    requires InOrder(passes) && i < |passes|
    ensures last < |passes| && passes[last] == passes[i] &&
            CountThen(passes, last) == WindowCount(passes, passes[i].node, passes[i].tick)
  {
    last := LastAlike(passes, i, |passes|);
    forall j | last + 1 <= j < |passes| ensures !Inside(passes[j], passes[i].node, passes[i].tick) {
      assert passes[last].tick <= passes[j].tick;
      assert passes[j] != passes[i];
    }
    LaterOutside(passes, passes[i].node, passes[i].tick, last + 1, |passes|);
    assert passes[..|passes|] == passes;
  }

  lemma {:induction false} CountGrows(passes: seq<Pass>, node: string, tick: int, k: nat)
    requires k <= |passes|
    ensures WindowCount(passes[..k], node, tick) <= WindowCount(passes, node, tick)
    decreases |passes| - k
  {
    if k < |passes| {
      CountGrows(passes, node, tick, k + 1);
      assert passes[..k + 1][..k] == passes[..k];
    } else {
      assert passes[..k] == passes;
    }
  }

  /** The online peak is the offline peak, also with several passes at one tick. */
  lemma OnlineIsOffline(passes: seq<Pass>)
    requires InOrder(passes)
    ensures IsPeak(passes, AfterPasses(passes).peak, AfterPasses(passes).peakNode)
  {
    var peak, node := AfterPasses(passes).peak, AfterPasses(passes).peakNode;
    assert passes[..|passes|] == passes;
    PeakKept(passes, |passes|);
    if passes != [] {
      var i := PeakReached(passes, peak, node);
      forall i | 0 <= i < |passes|
        ensures WindowCount(passes, passes[i].node, passes[i].tick) <= peak
        ensures WindowCount(passes, passes[i].node, passes[i].tick) == peak ==> !Below(passes[i].node, node)
      {
        NoneHigher(passes, peak, node, i);
      }
    }
  }

  lemma NoneHigher(passes: seq<Pass>, peak: nat, node: string, i: nat)
    requires InOrder(passes) && i < |passes| && PeakSoFar(passes, |passes|, peak, node)
    ensures WindowCount(passes, passes[i].node, passes[i].tick) <= peak
    ensures WindowCount(passes, passes[i].node, passes[i].tick) == peak ==> !Below(passes[i].node, node)
  {
    var last := FullThen(passes, i);
    assert CountThen(passes, last) <= peak;
  }

  lemma PeakReached(passes: seq<Pass>, peak: nat, node: string) returns (i: nat)
    requires InOrder(passes) && passes != [] && PeakSoFar(passes, |passes|, peak, node)
    ensures i < |passes| && passes[i].node == node && WindowCount(passes, node, passes[i].tick) == peak
  {
    i :| 0 <= i < |passes| && passes[i].node == node && CountThen(passes, i) == peak;
    CountGrows(passes, node, passes[i].tick, i + 1);
    NoneHigher(passes, peak, node, i);
  }

  // ----- the object -----

  class NodeFlow {
    var passes: map<string, seq<int>>
    var peak: nat
    var peakNode: string

    constructor ()
      ensures Contents() == Flow(map[], 0, "")
    {
      passes, peak, peakNode := map[], 0, "";
    }

    ghost function Contents(): Flow
      reads this
    {
      Flow(passes, peak, peakNode)
    }

    method RecordPass(node: string, tick: int)
      modifies this
      ensures Contents() == AfterPass(old(Contents()), Pass(node, tick))
    {
      var window := (if node in passes then passes[node] else []) + [tick];
      var first := 0;
      while window[first] <= tick - WINDOW
        invariant first < |window| && window[|window| - 1] == tick && Trim(window, tick) == Trim(window[first..], tick)
        invariant Contents() == old(Contents())
        decreases |window| - first
      {
        assert window[first..][1..] == window[first + 1..];
        first := first + 1;
      }
      window := window[first..];
      passes := passes[node := window];
      if |window| > peak || (|window| == peak && Below(node, peakNode)) {
        peak, peakNode := |window|, node;
      }
    }
  }

  /** Takes the list as if it came pass by pass. */
  method PeakNodeFlow(passes: seq<Pass>) returns (peak: nat, node: string)
    requires InOrder(passes)
    ensures IsPeak(passes, peak, node)
  {
    var flow := new NodeFlow();
    for k := 0 to |passes|
      invariant fresh(flow) && flow.Contents() == AfterPasses(passes[..k])
    {
      assert passes[..k + 1][..k] == passes[..k];
      flow.RecordPass(passes[k].node, passes[k].tick);
    }
    assert passes[..|passes|] == passes;
    OnlineIsOffline(passes);
    peak, node := flow.peak, flow.peakNode;
  }
}
