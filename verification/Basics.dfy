/** Optional values, and the sizes of finite sets. */
module Basics {

  datatype Option<+T> = None | Some(value: T)

  ghost function Elements<T(!new)>(items: seq<T>): set<T> {
    set x | x in items
  }

  lemma ElementsMore<T(!new)>(items: seq<T>, item: T)
    ensures Elements(items + [item]) == Elements(items) + {item}
  {
  }

  predicate Ascending(items: seq<nat>) {
    forall a, b :: 0 <= a < b < |items| ==> items[a] < items[b]
  }

  lemma {:induction false} SubsetSize<T>(small: set<T>, large: set<T>)
    requires small <= large
    ensures |small| <= |large|
  {
    assert large == small + (large - small);
  }

  ghost function Below(bound: nat): (below: set<nat>)
    ensures (forall i: nat :: i in below <==> i < bound) && |below| == bound
  {
    if bound == 0 then {} else Below(bound - 1) + {bound - 1}
  }
}
