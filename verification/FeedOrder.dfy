/** The order in which a candidate takes its feeds. */
module FeedOrder {
  import opened Catalog
  import opened Ordering
  import opened StableSort
  import opened FeedIngest

  /** More severe category first, then the smaller ID. */
  predicate Precedes(f: Feed, g: Feed) {
    RankOf(f.category) < RankOf(g.category) || (RankOf(f.category) == RankOf(g.category) && LexLess(f.id, g.id))
  }

  function ByPriority(feeds: seq<Feed>): seq<Feed> {
    Sort(feeds, Precedes)
  }

  ghost predicate DistinctIds(feeds: seq<Feed>) {
    forall i, j :: 0 <= i < j < |feeds| ==> feeds[i].id != feeds[j].id
  }

  /** Stored feeds have distinct, non-empty IDs. */
  ghost predicate Keyed(feeds: seq<Feed>) {
    DistinctIds(feeds) && forall i :: 0 <= i < |feeds| ==> feeds[i].id != ""
  }

  lemma PrecedesIsWeakOrder()
    ensures WeakOrder(Precedes)
  {
    forall f, g | Precedes(f, g) ensures !Precedes(g, f) {
      if LexLess(f.id, g.id) { LexIsAsymmetric(f.id, g.id); }
    }
    forall f, g, h | Precedes(f, g) && !Precedes(h, g) ensures Precedes(f, h) {
      LexIsTotal(h.id, g.id);
      if LexLess(f.id, g.id) && LexLess(g.id, h.id) { LexIsTransitive(f.id, g.id, h.id); }
    }
  }

  /** The sort keeps every feed and puts none before one it should follow. */
  lemma SortedByPriority(feeds: seq<Feed>)
    ensures InOrder(ByPriority(feeds), Precedes) && multiset(ByPriority(feeds)) == multiset(feeds)
    ensures |ByPriority(feeds)| == |feeds|
  {
    PrecedesIsWeakOrder();
    SortKeeps(feeds, Precedes);
    SortOrders(feeds, Precedes);
  }

  lemma Unordered(f: Feed, g: Feed)
    requires !Precedes(f, g) && !Precedes(g, f)
    ensures f.id == g.id
  {
    LexIsTotal(f.id, g.id);
  }

  lemma SameHead(a: seq<Feed>, b: seq<Feed>)
    requires InOrder(a, Precedes) && InOrder(b, Precedes) && a != [] && b != [] && a[0] in b && b[0] in a
    requires DistinctIds(a)
    ensures a[0] == b[0]
  {
    if a[0] != b[0] {
      var i :| 0 <= i < |a| && a[i] == b[0];
      var j :| 0 <= j < |b| && b[j] == a[0];
      Unordered(a[0], b[0]);
    }
  }

  lemma Tails(a: seq<Feed>, b: seq<Feed>)
    requires multiset(a) == multiset(b) && a != [] && b != [] && a[0] == b[0]
    ensures multiset(a[1..]) == multiset(b[1..])
  {
    assert a == [a[0]] + a[1..] && b == [b[0]] + b[1..];
    assert multiset(a[1..]) == multiset(a) - multiset{a[0]} == multiset(b[1..]);
  }

  lemma SameMembers(a: seq<Feed>, b: seq<Feed>)
    requires multiset(a) == multiset(b)
    ensures |a| == |b| && (a != [] ==> a[0] in b && b[0] in a)
  {
    assert |a| == |multiset(a)| == |multiset(b)| == |b|;
    if a != [] { assert a[0] in multiset(b) && b[0] in multiset(a); }
  }

  lemma {:induction false} OneOrder(a: seq<Feed>, b: seq<Feed>)
    requires InOrder(a, Precedes) && InOrder(b, Precedes) && multiset(a) == multiset(b) && DistinctIds(a)
    ensures a == b
  {
    SameMembers(a, b);
    if a != [] {
      SameHead(a, b);
      Tails(a, b);
      OneOrder(a[1..], b[1..]);
      assert a == [a[0]] + a[1..] && b == [b[0]] + b[1..];
    }
  }

  /** The order of the listing does not matter. */
  lemma ListingOrderIsIrrelevant(a: seq<Feed>, b: seq<Feed>)
    requires multiset(a) == multiset(b) && DistinctIds(a)
    ensures ByPriority(a) == ByPriority(b)
  {
    SortedByPriority(a);
    SortedByPriority(b);
    StillDistinct(a, ByPriority(a));
    OneOrder(ByPriority(a), ByPriority(b));
  }

  lemma {:induction false} Repeats(s: seq<Feed>, i: nat, j: nat)
    requires i < j < |s| && s[i] == s[j]
    ensures multiset(s)[s[i]] >= 2
  {
    assert s == s[..j] + [s[j]] + s[j + 1..];
    assert s[i] in s[..j];
  }

  lemma StillDistinct(a: seq<Feed>, b: seq<Feed>)
    requires multiset(a) == multiset(b) && DistinctIds(a)
    ensures DistinctIds(b)
  {
    forall i, j | 0 <= i < j < |b| ensures b[i].id != b[j].id {
      if b[i].id == b[j].id {
        assert b[i] in multiset(a) && b[j] in multiset(a);
        assert b[i] == b[j];
        Repeats(b, i, j);
        OnceEach(a, b[i]);
      }
    }
  }

  lemma {:induction false} OnceEach(a: seq<Feed>, f: Feed)
    requires DistinctIds(a)
    ensures multiset(a)[f] <= 1
  {
    if a != [] {
      OnceEach(a[1..], f);
      assert a == [a[0]] + a[1..];
      if a[0] == f { assert f !in a[1..]; }
    }
  }
}
