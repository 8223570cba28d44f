/** Each feed is built on its own and then merged, in whatever order the part's
    map is iterated. The result means what adding every emitted claim directly,
    in feed order, would have meant. */
module StagedBuild {
  import opened Catalog
  import opened DomainNames
  import opened Options
  import opened BlockIndex

  function BuildFrom(ix: Index, log: seq<Claim>): (r: Index) {
    if log == [] then ix
    else var last := log[|log| - 1]; Added(BuildFrom(ix, log[..|log| - 1]), last.domain, last.entry)
  }

  lemma EmptyRepresents()
    ensures Represents(EMPTY_INDEX, [])
  {
  }

  /** Any run of Add calls keeps the index in step with the flat list. */
  lemma {:induction false} BuildRepresents(ix: Index, before: seq<Claim>, log: seq<Claim>)
    requires Represents(ix, before)
    ensures Represents(BuildFrom(ix, log), before + log)
  {
    if log == [] {
      assert before + log == before;
    } else {
      var rest, last := log[..|log| - 1], log[|log| - 1];
      BuildRepresents(ix, before, rest);
      AddedRepresents(BuildFrom(ix, rest), before + rest, last.domain, last.entry);
      assert before + rest + [Claim(last.domain, last.entry)] == before + log;
    }
  }

  lemma {:induction false} BuildAppend(ix: Index, a: seq<Claim>, b: seq<Claim>)
    ensures BuildFrom(ix, a + b) == BuildFrom(BuildFrom(ix, a), b)
  {
    if b == [] {
      assert a + b == a;
    } else {
      var both, rest := a + b, b[..|b| - 1];
      assert both[..|both| - 1] == a + rest && both[|both| - 1] == b[|b| - 1];
      BuildAppend(ix, a, rest);
    }
  }

  // ---------- facts about the flat list ----------

  function Elements(log: seq<Claim>): set<Claim> {
    set x | x in log
  }

  /** What b adds to a list that already holds a. */
  ghost function Joined(a: set<Claim>, b: set<Claim>): set<Claim> {
    a + set x | x in b && !Taken(a, x.domain, x.entry.category)
  }

  lemma {:induction false} FlatIsSound(log: seq<Claim>)
    ensures OnePerCategory(Flat(log)) && Flat(log) <= Elements(log)
    ensures forall x :: x in Flat(log) ==> x.domain != ""
  {
    if log != [] { FlatIsSound(log[..|log| - 1]); }
  }

  /** One more claim, unless its category is taken on its name. */
  ghost function With(s: set<Claim>, x: Claim): set<Claim> {
    if x.domain == "" || Taken(s, x.domain, x.entry.category) then s else s + {x}
  }

  lemma FlatMore(log: seq<Claim>, x: Claim)
    ensures Flat(log + [x]) == With(Flat(log), x)
  {
    assert (log + [x])[..|log|] == log;
  }

  lemma TakenJoined(a: set<Claim>, b: set<Claim>, d: string, c: Category)
    ensures Taken(Joined(a, b), d, c) <==> Taken(a, d, c) || Taken(b, d, c)
  {
    if Taken(a, d, c) {
      var x :| x in a && x.domain == d && x.entry.category == c;
      assert x in Joined(a, b);
    } else if Taken(b, d, c) {
      var x :| x in b && x.domain == d && x.entry.category == c;
      assert x in Joined(a, b);
    }
  }

  lemma JoinedMore(a: set<Claim>, b: set<Claim>, x: Claim)
    ensures With(Joined(a, b), x) == Joined(a, With(b, x))
  {
    TakenJoined(a, b, x.domain, x.entry.category);
  }

  lemma FlatAppendOne(a: seq<Claim>, b: seq<Claim>, x: Claim)
    requires Flat(a + b) == Joined(Flat(a), Flat(b))
    ensures Flat(a + (b + [x])) == Joined(Flat(a), Flat(b + [x]))
  {
    assert a + (b + [x]) == a + b + [x];
    FlatMore(a + b, x);
    FlatMore(b, x);
    JoinedMore(Flat(a), Flat(b), x);
  }

  lemma {:induction false} FlatAppend(a: seq<Claim>, b: seq<Claim>)
    ensures Flat(a + b) == Joined(Flat(a), Flat(b))
    decreases |b|
  {
    if b == [] {
      assert a + b == a;
    } else {
      var rest, last := b[..|b| - 1], b[|b| - 1];
      assert b == rest + [last];
      FlatAppend(a, rest);
      FlatAppendOne(a, rest, last);
    }
  }

  /** A list without repeated (domain, category) pairs is its own flat form, in any order. */
  lemma {:induction false} FlatOfDistinct(log: seq<Claim>)
    requires OnePerCategory(Elements(log)) && forall x :: x in log ==> x.domain != ""
    ensures Flat(log) == Elements(log)
  {
    if log != [] {
      var rest, last := log[..|log| - 1], log[|log| - 1];
      assert forall x :: x in log <==> x in rest || x == last;
      FlatOfDistinct(rest);
      assert Elements(log) == Elements(rest) + {last};
    }
  }

  lemma ClaimsAreDistinct(ix: Index)
    requires Shaped(ix)
    ensures OnePerCategory(ClaimSet(ix)) && forall x :: x in ClaimSet(ix) ==> x.domain != ""
  {
    forall x, y | x in ClaimSet(ix) && y in ClaimSet(ix) && x.domain == y.domain && x.entry.category == y.entry.category
      ensures x == y
    {
      assert DistinctCategories(ClaimsOn(ix, x.domain));
    }
  }

  // ---------- merging one part ----------

  function AsClaims(d: string, es: seq<Entry>): (r: seq<Claim>)
    ensures |r| == |es| && forall i :: 0 <= i < |es| ==> r[i] == Claim(d, es[i])
  {
    seq(|es|, i requires 0 <= i < |es| => Claim(d, es[i]))
  }

  /** The Add calls the merge loop makes: per domain, its primary and then its extras. */
  function MergeLog(part: Index, order: seq<string>): seq<Claim> {
    if order == [] then []
    else MergeLog(part, order[..|order| - 1]) + AsClaims(order[|order| - 1], ClaimsOn(part, order[|order| - 1]))
  }

  ghost predicate Iterates(part: Index, order: seq<string>) {
    forall d :: d in order <==> d in part.domains
  }

  lemma {:induction false} MergeElement(part: Index, order: seq<string>, x: Claim)
    ensures x in MergeLog(part, order) <==> x.domain in order && x.entry in ClaimsOn(part, x.domain)
  {
    if order != [] {
      var rest, d := order[..|order| - 1], order[|order| - 1];
      MergeElement(part, rest, x);
      var tail := AsClaims(d, ClaimsOn(part, d));
      if x.domain == d && x.entry in ClaimsOn(part, d) {
        var i :| 0 <= i < |ClaimsOn(part, d)| && ClaimsOn(part, d)[i] == x.entry;
        assert tail[i] == x;
      }
      assert x in tail <==> x.domain == d && x.entry in ClaimsOn(part, d);
      assert x.domain in order <==> x.domain in rest || x.domain == d;
    }
  }

  lemma MergeKeepsClaims(part: Index, order: seq<string>)
    requires Shaped(part) && Iterates(part, order)
    ensures Flat(MergeLog(part, order)) == ClaimSet(part)
  {
    var log := MergeLog(part, order);
    forall x: Claim ensures x in Elements(log) <==> x in ClaimSet(part) {
      MergeElement(part, order, x);
      ClaimSetMember(part, x.domain, x.entry);
    }
    assert Elements(log) == ClaimSet(part);
    ClaimsAreDistinct(part);
    FlatOfDistinct(log);
  }

  // ---------- a whole feed list ----------

  function Concat(feeds: seq<seq<Claim>>): seq<Claim> {
    if feeds == [] then [] else Concat(feeds[..|feeds| - 1]) + feeds[|feeds| - 1]
  }

  function PartOf(emitted: seq<Claim>): Index {
    BuildFrom(EMPTY_INDEX, emitted)
  }

  ghost predicate IteratesAll(feeds: seq<seq<Claim>>, orders: seq<seq<string>>) {
    |orders| == |feeds| && forall i :: 0 <= i < |feeds| ==> Iterates(PartOf(feeds[i]), orders[i])
  }

  function MergeLogs(feeds: seq<seq<Claim>>, orders: seq<seq<string>>): seq<Claim>
    requires |orders| == |feeds|
  {
    if feeds == [] then []
    else
      var n := |feeds| - 1;
      MergeLogs(feeds[..n], orders[..n]) + MergeLog(PartOf(feeds[n]), orders[n])
  }

  lemma PartRepresents(emitted: seq<Claim>)
    ensures Represents(PartOf(emitted), emitted)
  {
    EmptyRepresents();
    BuildRepresents(EMPTY_INDEX, [], emitted);
    assert [] + emitted == emitted;
  }

  lemma {:induction false} StagedFlat(feeds: seq<seq<Claim>>, orders: seq<seq<string>>)
    requires IteratesAll(feeds, orders)
    ensures Flat(MergeLogs(feeds, orders)) == Flat(Concat(feeds))
  {
    if feeds != [] {
      var n := |feeds| - 1;
      StagedFlat(feeds[..n], orders[..n]);
      PartRepresents(feeds[n]);
      MergeKeepsClaims(PartOf(feeds[n]), orders[n]);
      FlatAppend(MergeLogs(feeds[..n], orders[..n]), MergeLog(PartOf(feeds[n]), orders[n]));
      FlatAppend(Concat(feeds[..n]), feeds[n]);
    }
  }

  function Staged(feeds: seq<seq<Claim>>, orders: seq<seq<string>>): Index
    requires |orders| == |feeds|
  {
    if feeds == [] then EMPTY_INDEX
    else
      var n := |feeds| - 1;
      BuildFrom(Staged(feeds[..n], orders[..n]), MergeLog(PartOf(feeds[n]), orders[n]))
  }

  function Direct(feeds: seq<seq<Claim>>): Index {
    BuildFrom(EMPTY_INDEX, Concat(feeds))
  }

  lemma {:induction false} StagedIsMergeLog(feeds: seq<seq<Claim>>, orders: seq<seq<string>>)
    requires |orders| == |feeds|
    ensures Staged(feeds, orders) == BuildFrom(EMPTY_INDEX, MergeLogs(feeds, orders))
  {
    if feeds != [] {
      var n := |feeds| - 1;
      StagedIsMergeLog(feeds[..n], orders[..n]);
      BuildAppend(EMPTY_INDEX, MergeLogs(feeds[..n], orders[..n]), MergeLog(PartOf(feeds[n]), orders[n]));
    }
  }

  function Better(p: Option<Entry>, q: Option<Entry>): Option<Entry> {
    if p.None? || (q.Some? && RankOf(q.value.category) < RankOf(p.value.category)) then q else p
  }

  lemma {:induction false} PrimaryAppend(a: seq<Claim>, b: seq<Claim>, d: string)
    ensures PrimaryOf(a + b, d) == Better(PrimaryOf(a, d), PrimaryOf(b, d))
  {
    if b == [] {
      assert a + b == a;
    } else {
      PrimaryAppend(a, b[..|b| - 1], d);
      assert (a + b)[..|a + b| - 1] == a + b[..|b| - 1];
    }
  }

  lemma {:induction false} PrimaryOfRun(d: string, es: seq<Entry>, name: string)
    requires PrimaryLeads(es) && d != ""
    ensures PrimaryOf(AsClaims(d, es), name) == if name == d && es != [] then Some(es[0]) else None
  {
    if es != [] {
      var rest := es[..|es| - 1];
      PrimaryOfRun(d, rest, name);
      assert AsClaims(d, es)[..|es| - 1] == AsClaims(d, rest);
    }
  }

  lemma {:induction false} PrimaryOfMerge(part: Index, order: seq<string>, name: string)
    requires Shaped(part) && forall d :: d in order ==> d in part.domains
    ensures PrimaryOf(MergeLog(part, order), name) == if name in order then Some(part.domains[name]) else None
  {
    if order != [] {
      var rest, d := order[..|order| - 1], order[|order| - 1];
      PrimaryOfMerge(part, rest, name);
      assert PrimaryLeads(ClaimsOn(part, d));
      PrimaryOfRun(d, ClaimsOn(part, d), name);
      PrimaryAppend(MergeLog(part, rest), AsClaims(d, ClaimsOn(part, d)), name);
      assert name in order <==> name in rest || name == d;
    }
  }

  lemma {:induction false} StagedPrimary(feeds: seq<seq<Claim>>, orders: seq<seq<string>>, d: string)
    requires IteratesAll(feeds, orders)
    ensures PrimaryOf(MergeLogs(feeds, orders), d) == PrimaryOf(Concat(feeds), d)
  {
    if feeds != [] {
      var n := |feeds| - 1;
      StagedPrimary(feeds[..n], orders[..n], d);
      PartRepresents(feeds[n]);
      PrimaryOfMerge(PartOf(feeds[n]), orders[n], d);
      PrimaryAppend(MergeLogs(feeds[..n], orders[..n]), MergeLog(PartOf(feeds[n]), orders[n]), d);
      PrimaryAppend(Concat(feeds[..n]), feeds[n], d);
    }
  }

  lemma SamePrimaries(a: Index, b: Index, log: seq<Claim>, log': seq<Claim>)
    requires Represents(a, log) && Represents(b, log') && forall d :: PrimaryOf(log, d) == PrimaryOf(log', d)
    ensures a.domains == b.domains
  {
    forall d ensures d in a.domains <==> d in b.domains
             ensures d in a.domains ==> a.domains[d] == b.domains[d]
    {
      assert PrimaryOf(log, d) == PrimaryOf(log', d);
    }
  }

  /** Staging changes nothing, whatever order each part's map is iterated in: the
      same entry per (domain, category), the same primaries and the same counts. */
  lemma StagedEqualsDirect(feeds: seq<seq<Claim>>, orders: seq<seq<string>>)
    requires IteratesAll(feeds, orders)
    ensures ClaimSet(Staged(feeds, orders)) == ClaimSet(Direct(feeds)) == Flat(Concat(feeds))
    ensures forall c :: At(Staged(feeds, orders).byCategory, c) == At(Direct(feeds).byCategory, c)
    ensures Staged(feeds, orders).domains == Direct(feeds).domains
    ensures forall f :: At(Staged(feeds, orders).feeds, f) == At(Direct(feeds).feeds, f)
  {
    var log := MergeLogs(feeds, orders);
    StagedIsMergeLog(feeds, orders);
    PartRepresents(log);
    PartRepresents(Concat(feeds));
    StagedFlat(feeds, orders);
    forall d ensures PrimaryOf(log, d) == PrimaryOf(Concat(feeds), d) { StagedPrimary(feeds, orders, d); }
    SamePrimaries(Staged(feeds, orders), Direct(feeds), log, Concat(feeds));
  }

  /** Over listed categories every lookup then has the same answer. */
  lemma StagedAnswersAgree(feeds: seq<seq<Claim>>, orders: seq<seq<string>>, domain: string,
                           enabled: map<Category, bool>, r: Option<Entry>, r': Option<Entry>)
    requires IteratesAll(feeds, orders) && forall x :: x in Concat(feeds) ==> Known(x.entry.category)
    requires Answers(ClaimSet(Staged(feeds, orders)), Suffixes(domain), enabled, r)
    requires Answers(ClaimSet(Direct(feeds)), Suffixes(domain), enabled, r')
    ensures r == r'
  {
    StagedEqualsDirect(feeds, orders);
    FlatIsSound(Concat(feeds));
    AnswerIsUnique(Flat(Concat(feeds)), Suffixes(domain), enabled, r, r');
  }
}
