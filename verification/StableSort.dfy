/** Sorting by a strict weak order; what ties keeps its order. */
module StableSort {

  /** Nothing precedes what precedes it, and what precedes an item precedes what does not precede the item. */
  ghost predicate WeakOrder<T(!new)>(before: (T, T) -> bool) {
    && (forall x, y :: before(x, y) ==> !before(y, x))
    && (forall x, y, z :: before(x, y) && !before(z, y) ==> before(x, z))
  }

  /** No later item precedes an earlier one. */
  ghost predicate InOrder<T>(list: seq<T>, before: (T, T) -> bool) {
    forall i, j :: 0 <= i < j < |list| ==> !before(list[j], list[i])
  }

  /** Behind everything it does not precede. */
  function Insert<T>(list: seq<T>, x: T, before: (T, T) -> bool): seq<T> {
    if list == [] || !before(x, list[|list| - 1]) then list + [x]
    else Insert(list[..|list| - 1], x, before) + [list[|list| - 1]]
  }

  function Sort<T>(list: seq<T>, before: (T, T) -> bool): seq<T> {
    if list == [] then [] else Insert(Sort(list[..|list| - 1], before), list[|list| - 1], before)
  }

  /** The list with the item put in somewhere. */
  lemma {:induction false} InsertPlaces<T>(list: seq<T>, x: T, before: (T, T) -> bool) returns (i: nat)
    ensures i <= |list| && Insert(list, x, before) == list[..i] + [x] + list[i..]
  {
    if list == [] || !before(x, list[|list| - 1]) {
      i := |list|;
    } else {
      var rest, last := list[..|list| - 1], list[|list| - 1];
      i := InsertPlaces(rest, x, before);
      assert list == rest + [last];
      assert list[..i] == rest[..i] && list[i..] == rest[i..] + [last];
    }
  }

  lemma InsertKeeps<T>(list: seq<T>, x: T, before: (T, T) -> bool)
    ensures multiset(Insert(list, x, before)) == multiset(list) + multiset{x}
  {
    var i := InsertPlaces(list, x, before);
    assert list == list[..i] + list[i..];
  }

  lemma InsertMembers<T>(list: seq<T>, x: T, before: (T, T) -> bool)
    ensures forall y :: y in Insert(list, x, before) <==> y in list || y == x
  {
    var i := InsertPlaces(list, x, before);
    assert list == list[..i] + list[i..];
  }

  /** What an item does not precede the last of, it does not precede any of. */
  lemma BehindAll<T(!new)>(list: seq<T>, x: T, before: (T, T) -> bool, i: nat)
    requires WeakOrder(before) && InOrder(list, before) && i < |list| && !before(x, list[|list| - 1])
    ensures !before(x, list[i])
  {
    if i < |list| - 1 { assert !before(list[|list| - 1], list[i]); }
  }

  lemma {:induction false} InsertOrders<T(!new)>(list: seq<T>, x: T, before: (T, T) -> bool)
    requires WeakOrder(before) && InOrder(list, before)
    ensures InOrder(Insert(list, x, before), before)
  {
    if list == [] || !before(x, list[|list| - 1]) {
      forall i | 0 <= i < |list| ensures !before(x, list[i]) { BehindAll(list, x, before, i); }
    } else {
      var rest, last := list[..|list| - 1], list[|list| - 1];
      InsertOrders(rest, x, before);
      InsertMembers(rest, x, before);
      forall i | 0 <= i < |Insert(rest, x, before)| ensures !before(last, Insert(rest, x, before)[i]) {
        assert Insert(rest, x, before)[i] in Insert(rest, x, before);
      }
    }
  }

  /** The sort keeps every item, as often as it occurs. */
  lemma {:induction false} SortKeeps<T>(list: seq<T>, before: (T, T) -> bool)
    ensures multiset(Sort(list, before)) == multiset(list) && |Sort(list, before)| == |list|
  {
    if list != [] {
      var rest, last := list[..|list| - 1], list[|list| - 1];
      SortKeeps(rest, before);
      InsertKeeps(Sort(rest, before), last, before);
      assert list == rest + [last];
    }
    assert |multiset(list)| == |list| && |multiset(Sort(list, before))| == |Sort(list, before)|;
  }

  /** The sort puts no item before one it should follow. */
  lemma {:induction false} SortOrders<T(!new)>(list: seq<T>, before: (T, T) -> bool)
    requires WeakOrder(before)
    ensures InOrder(Sort(list, before), before)
  {
    if list != [] {
      SortOrders(list[..|list| - 1], before);
      InsertOrders(Sort(list[..|list| - 1], before), list[|list| - 1], before);
    }
  }

  lemma SortMembers<T>(list: seq<T>, before: (T, T) -> bool)
    ensures forall x :: x in Sort(list, before) <==> x in list
  {
    SortKeeps(list, before);
    forall x ensures x in Sort(list, before) <==> x in list {
      assert x in multiset(list) <==> x in multiset(Sort(list, before));
    }
  }
}
