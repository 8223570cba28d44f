/** Keeping the least few distinct items of a stream in a short sorted list. */
module BoundedSelection {

  ghost predicate StrictOrder<K(!new)>(less: (K, K) -> bool) {
    && (forall x, y :: less(x, y) ==> !less(y, x))
    && (forall x, y, z :: less(x, y) && less(y, z) ==> less(x, z))
    && (forall x, y :: less(x, y) || less(y, x) || x == y)
  }

  ghost predicate Ascending<K(!new)>(less: (K, K) -> bool, list: seq<K>) {
    forall i, j :: 0 <= i < j < |list| ==> less(list[i], list[j])
  }

  /** The reference: in strict order, out of all, as many as fit, and none left out is less. */
  ghost predicate Selects<K(!new)>(less: (K, K) -> bool, list: seq<K>, all: set<K>, limit: nat) {
    && Ascending(less, list)
    && (forall x :: x in list ==> x in all)
    && |list| == (if |all| < limit then |all| else limit)
    && (forall x, y :: x in all && x !in list && y in list ==> less(y, x))
  }

  function Elements<K>(list: seq<K>): set<K> {
    set x | x in list
  }

  lemma {:induction false} DistinctCount<K(!new)>(less: (K, K) -> bool, list: seq<K>)
    requires StrictOrder(less) && Ascending(less, list)
    ensures |Elements(list)| == |list|
  {
    if list != [] {
      var rest, last := list[..|list| - 1], list[|list| - 1];
      DistinctCount(less, rest);
      assert last !in rest;
      assert Elements(list) == Elements(rest) + {last};
    }
  }

  lemma SubsetCount<K>(a: set<K>, b: set<K>)
    requires a <= b
    ensures |a| <= |b| && (|a| == |b| ==> a == b)
  {
    assert b == a + (b - a);
    if a != b {
      var x :| x in b - a;
      assert |b - a| > 0;
    }
  }

  // ---------- where an item belongs ----------

  /** How many of the list are less: where the item is, or belongs. */
  function Position<K>(less: (K, K) -> bool, list: seq<K>, item: K): (i: nat)
    ensures i <= |list|
  {
    if list == [] || !less(list[0], item) then 0 else 1 + Position(less, list[1..], item)
  }

  predicate FoundAt<K(==)>(list: seq<K>, i: nat, item: K) {
    i < |list| && list[i] == item
  }

  lemma {:induction false} Splits<K(!new)>(less: (K, K) -> bool, list: seq<K>, item: K)
    requires StrictOrder(less) && Ascending(less, list)
    ensures var i := Position(less, list, item);
            && (forall j :: 0 <= j < i ==> less(list[j], item))
            && (forall j :: i <= j < |list| ==> less(item, list[j]) || (j == i && list[j] == item))
            && (item in list <==> FoundAt(list, i, item))
  {
    if list != [] && less(list[0], item) {
      Splits(less, list[1..], item);
      forall j | 0 <= j < Position(less, list, item) ensures less(list[j], item) {
        if j > 0 { assert list[j] == list[1..][j - 1]; }
      }
      forall j | Position(less, list, item) <= j < |list|
        ensures less(item, list[j]) || (j == Position(less, list, item) && list[j] == item)
      {
        assert list[j] == list[1..][j - 1];
      }
      assert item in list <==> item in list[1..];
    } else if list != [] {
      forall j | 0 < j < |list| ensures less(item, list[j]) { assert less(list[0], list[j]); }
    }
  }

  /** One item more: found, refused at the end of a full list, or inserted where it belongs. */
  function Inserted<K(==)>(less: (K, K) -> bool, list: seq<K>, item: K, limit: nat): seq<K> {
    var i := Position(less, list, item);
    if FoundAt(list, i, item) || (|list| == limit && i == |list|) then list
    else
      var kept := if |list| == limit then list[..|list| - 1] else list;
      Put(kept, i, item)
  }

  function Put<K>(list: seq<K>, i: nat, item: K): seq<K>
    requires i <= |list|
  {
    list[..i] + [item] + list[i..]
  }

  lemma PutMembers<K>(list: seq<K>, i: nat, item: K)
    requires i <= |list|
    ensures forall x :: x in Put(list, i, item) <==> x in list || x == item
  {
  }

  lemma InsertedAscends<K(!new)>(less: (K, K) -> bool, list: seq<K>, item: K)
    requires StrictOrder(less) && Ascending(less, list) && item !in list
    ensures Ascending(less, Put(list, Position(less, list, item), item))
  {
    Splits(less, list, item);
    var i := Position(less, list, item);
    var put := Put(list, i, item);
    forall a, b | 0 <= a < b < |put| ensures less(put[a], put[b]) {
      assert put[a] == if a < i then list[a] else if a == i then item else list[a - 1];
      assert put[b] == if b < i then list[b] else if b == i then item else list[b - 1];
    }
  }

  /** Dropping the last of a full list loses only what a smaller item displaces. */
  lemma DropLast<K(!new)>(less: (K, K) -> bool, list: seq<K>, item: K)
    requires StrictOrder(less) && Ascending(less, list) && item !in list && Position(less, list, item) < |list|
    ensures var rest := list[..|list| - 1];
            && Ascending(less, rest) && Position(less, rest, item) == Position(less, list, item) && item !in rest
            && less(item, list[|list| - 1]) && list[|list| - 1] !in rest
  {
    Splits(less, list, item);
    PositionOfPrefix(less, list, item);
  }

  lemma {:induction false} PositionOfPrefix<K(!new)>(less: (K, K) -> bool, list: seq<K>, item: K)
    requires Position(less, list, item) < |list|
    ensures Position(less, list[..|list| - 1], item) == Position(less, list, item)
  {
    if less(list[0], item) {
      PositionOfPrefix(less, list[1..], item);
      assert list[1..][..|list[1..]| - 1] == list[..|list| - 1][1..];
    }
  }

  /** Inserting keeps the selection right, and says when something is left out. */
  lemma InsertSelects<K(!new)>(less: (K, K) -> bool, list: seq<K>, all: set<K>, item: K, limit: nat)
    requires StrictOrder(less) && Selects(less, list, all, limit) && limit > 0
    ensures Selects(less, Inserted(less, list, item, limit), all + {item}, limit)
    ensures |all + {item}| > limit <==> |all| > limit || (item !in list && |list| == limit)
  {
    Splits(less, list, item);
    DistinctCount(less, list);
    SubsetCount(Elements(list), all);
    Larger(all, item);
    assert item in Elements(list) <==> item in list;
    if item in list {
      assert all + {item} == all;
    } else if |list| < limit {
      JoinsAll(less, list, all, item, limit);
    } else if Position(less, list, item) == |list| {
      LeavesOut(less, list, all, item, limit);
    } else {
      Displaces(less, list, all, item, limit);
    }
  }

  lemma JoinsAll<K(!new)>(less: (K, K) -> bool, list: seq<K>, all: set<K>, item: K, limit: nat)
    requires StrictOrder(less) && Selects(less, list, all, limit) && item !in list && |list| < limit
    requires Elements(list) == all
    ensures Selects(less, Inserted(less, list, item, limit), all + {item}, limit)
  {
    Splits(less, list, item);
    InsertedAscends(less, list, item);
    PutMembers(list, Position(less, list, item), item);
    Larger(all, item);
  }

  lemma LeavesOut<K(!new)>(less: (K, K) -> bool, list: seq<K>, all: set<K>, item: K, limit: nat)
    requires StrictOrder(less) && Selects(less, list, all, limit) && item !in list && |list| == limit
    requires Position(less, list, item) == |list|
    ensures Selects(less, list, all + {item}, limit)
  {
    Splits(less, list, item);
    Larger(all, item);
  }

  lemma Larger<K>(all: set<K>, item: K)
    ensures |all + {item}| == |all| + if item in all then 0 else 1
  {
    if item in all { assert all + {item} == all; }
  }

  lemma Displaces<K(!new)>(less: (K, K) -> bool, list: seq<K>, all: set<K>, item: K, limit: nat)
    requires StrictOrder(less) && Selects(less, list, all, limit) && item !in list && |list| == limit
    requires Position(less, list, item) < |list|
    ensures Selects(less, Inserted(less, list, item, limit), all + {item}, limit)
  {
    var rest, last, next := list[..|list| - 1], list[|list| - 1], Inserted(less, list, item, limit);
    Splits(less, list, item);
    DropLast(less, list, item);
    InsertedAscends(less, rest, item);
    PutMembers(rest, Position(less, list, item), item);
    Larger(all, item);
    assert list == rest + [last];
    forall x, y | x in all + {item} && x !in next && y in next ensures less(y, x) {
      if x == last {
        if y != item {
          var j :| 0 <= j < |rest| && rest[j] == y;
          assert list[j] == y && list[|list| - 1] == last;
        }
      } else {
        assert x in all && x !in list && less(last, x);
      }
    }
  }

  lemma Differences<K>(a: set<K>, b: set<K>)
    ensures |a - b| + |b| == |b - a| + |a|
  {
  }

  lemma Other<K>(a: seq<K>, b: seq<K>, x: K) returns (y: K)
    requires |Elements(a)| == |Elements(b)| && x in a && x !in b
    ensures y in b && y !in a
  {
    Differences(Elements(a), Elements(b));
    assert x in Elements(a) - Elements(b);
    assert |Elements(b) - Elements(a)| > 0;
    y :| y in Elements(b) - Elements(a);
  }

  /** There is only one selection. */
  lemma OneSelection<K(!new)>(less: (K, K) -> bool, a: seq<K>, b: seq<K>, all: set<K>, limit: nat)
    requires StrictOrder(less) && Selects(less, a, all, limit) && Selects(less, b, all, limit)
    ensures a == b
  {
    DistinctCount(less, a);
    DistinctCount(less, b);
    forall x | x in a ensures x in b {
      if x !in b { var y := Other(a, b, x); }
    }
    SameMembers(less, a, b);
  }

  lemma SameLast<K(!new)>(less: (K, K) -> bool, a: seq<K>, b: seq<K>)
    requires StrictOrder(less) && Ascending(less, a) && Ascending(less, b) && |a| == |b| > 0
    requires forall x :: x in a ==> x in b
    ensures a[|a| - 1] == b[|b| - 1]
  {
    DistinctCount(less, a);
    DistinctCount(less, b);
    SubsetCount(Elements(a), Elements(b));
    assert b[|b| - 1] in Elements(a) && a[|a| - 1] in Elements(b);
  }

  lemma {:induction false} SameMembers<K(!new)>(less: (K, K) -> bool, a: seq<K>, b: seq<K>)
    requires StrictOrder(less) && Ascending(less, a) && Ascending(less, b) && |a| == |b|
    requires forall x :: x in a ==> x in b
    ensures a == b
  {
    if a != [] {
      var p, q, last := a[..|a| - 1], b[..|b| - 1], b[|b| - 1];
      SameLast(less, a, b);
      assert a == p + [last] && b == q + [last];
      forall x | x in p ensures x in q {
        assert x in a && x in b && less(x, last);
      }
      SameMembers(less, p, q);
    }
  }
}
