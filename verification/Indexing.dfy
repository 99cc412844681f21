/**
 Building a map from records that carry their own id, refusing two different
 records under one id. Both arbitrators index candidates and evidence this way
 (`mergeImmutable` in apps/observation-edge/src/rd-entry-arbitrator.ts).
 */
module Indexing {
  import opened Common

  /** No two different records share an id. */
  ghost predicate Consistent<T(!new), K(!new)>(items: set<T>, id: T -> K)
  {
    forall x, y :: x in items && y in items && id(x) == id(y) ==> x == y
  }

  /** `m` holds exactly the given records, each under its own id. */
  ghost predicate Indexes<T(!new), K(!new)>(m: map<K, T>, items: set<T>, id: T -> K)
  {
    && (forall k :: k in m ==> m[k] in items && id(m[k]) == k)
    && (forall x :: x in items ==> id(x) in m && m[id(x)] == x)
  }

  /** Adds `items` one by one; `None` when an item meets a different record under its id. */
  function Merge<T(==), K(==)>(target: map<K, T>, items: seq<T>, id: T -> K): Option<map<K, T>>
    decreases |items|
  {
    if items == [] then Some(target)
    else if id(items[0]) in target && target[id(items[0])] != items[0] then None
    else Merge(target[id(items[0]) := items[0]], items[1..], id)
  }

  /** Merging succeeds exactly when no id is used for two records, and then indexes all of them. */
  lemma {:induction false} MergeIndexes<T(!new), K(!new)>(target: map<K, T>, held: set<T>, items: seq<T>, id: T -> K)
    requires Indexes(target, held, id)
    ensures Merge(target, items, id).Some? <==> Consistent(held + Elements(items), id)
    ensures Merge(target, items, id).Some? ==> Indexes(Merge(target, items, id).value, held + Elements(items), id)
    decreases |items|
  {
    if items == [] {
      assert held + Elements(items) == held;
    } else {
      var x := items[0];
      assert held + Elements(items) == held + {x} + Elements(items[1..]) by {
        assert items == [x] + items[1..];
      }
      if id(x) in target && target[id(x)] != x {
        assert target[id(x)] in held + Elements(items) && x in held + Elements(items);
      } else {
        MergeIndexes(target[id(x) := x], held + {x}, items[1..], id);
      }
    }
  }

  method MergeImmutable<T(==), K(==)>(target: map<K, T>, items: seq<T>, id: T -> K) returns (r: Option<map<K, T>>)
    ensures r == Merge(target, items, id)
  {
    var m := target;
    for i := 0 to |items|
      invariant Merge(target, items, id) == Merge(m, items[i..], id)
    {
      var item := items[i];
      assert items[i..][0] == item && items[i..][1..] == items[i + 1..];
      if id(item) in m && m[id(item)] != item {
        return None;
      }
      m := m[id(item) := item];
    }
    return Some(m);
  }
}
