/** The categories one name is claimed under, as diagnostics list them. */
module ClaimReport {
  import opened Catalog
  import opened BlockIndex
  import opened StableSort

  predicate MoreSevere(a: Category, b: Category) {
    RankOf(a) < RankOf(b)
  }

  /** Least rank first; ties keep their order. */
  function ByRank(list: seq<Category>): seq<Category> {
    Sort(list, MoreSevere)
  }

  ghost predicate Ranked(list: seq<Category>) {
    forall i, j :: 0 <= i < j < |list| ==> RankOf(list[i]) <= RankOf(list[j])
  }

  lemma RankedByRank(list: seq<Category>)
    ensures Ranked(ByRank(list)) && multiset(ByRank(list)) == multiset(list)
  {
    SortKeeps(list, MoreSevere);
    SortOrders(list, MoreSevere);
    forall i, j | 0 <= i < j < |ByRank(list)| ensures RankOf(ByRank(list)[i]) <= RankOf(ByRank(list)[j]) {
      assert !MoreSevere(ByRank(list)[j], ByRank(list)[i]);
    }
  }

  function CategoriesOf(entries: seq<Entry>): seq<Category> {
    seq(|entries|, i requires 0 <= i < |entries| => entries[i].category)
  }

  /** Every category the exact name is claimed under, most severe first; the primary leads. */
  method Categories(ix: Index, domain: string) returns (out: seq<Category>)
    requires Shaped(ix)
    ensures Ranked(out) && multiset(out) == multiset(CategoriesOf(ClaimsOn(ix, domain)))
    ensures domain in ix.domains ==> out != [] && out[0] == ix.domains[domain].category
    ensures domain !in ix.domains ==> out == []
  {
    if domain !in ix.domains { return []; }
    var extras := ExtrasOn(ix, domain);
    var rest: seq<Category> := [];
    for i := 0 to |extras|
      invariant rest == CategoriesOf(extras[..i])
    {
      rest := rest + [extras[i].category];
    }
    assert extras[..|extras|] == extras;
    out := [ix.domains[domain].category] + ByRank(rest);
    ReportIsRight(ix, domain, rest);
  }

  lemma ReportIsRight(ix: Index, domain: string, rest: seq<Category>)
    requires Shaped(ix) && domain in ix.domains && rest == CategoriesOf(ExtrasOn(ix, domain))
    ensures var out := [ix.domains[domain].category] + ByRank(rest);
            Ranked(out) && multiset(out) == multiset(CategoriesOf(ClaimsOn(ix, domain)))
  {
    PrimaryIsLeast(ix, domain, rest);
    Led(ix.domains[domain].category, rest);
    WithPrimary(ix.domains[domain], ExtrasOn(ix, domain));
  }

  lemma WithPrimary(e: Entry, es: seq<Entry>)
    ensures CategoriesOf([e] + es) == [e.category] + CategoriesOf(es)
  {
  }

  lemma Led(first: Category, rest: seq<Category>)
    requires forall c :: c in rest ==> RankOf(first) <= RankOf(c)
    ensures Ranked([first] + ByRank(rest)) && multiset([first] + ByRank(rest)) == multiset([first] + rest)
  {
    RankedByRank(rest);
    forall i | 0 <= i < |ByRank(rest)| ensures RankOf(first) <= RankOf(ByRank(rest)[i]) {
      assert ByRank(rest)[i] in multiset(ByRank(rest));
      assert ByRank(rest)[i] in rest;
    }
  }

  lemma PrimaryIsLeast(ix: Index, domain: string, rest: seq<Category>)
    requires Shaped(ix) && domain in ix.domains && rest == CategoriesOf(ExtrasOn(ix, domain))
    ensures forall c :: c in rest ==> RankOf(ix.domains[domain].category) <= RankOf(c)
  {
    var claims := ClaimsOn(ix, domain);
    assert PrimaryLeads(claims);
    forall c | c in rest ensures RankOf(ix.domains[domain].category) <= RankOf(c) {
      var i :| 0 <= i < |rest| && rest[i] == c;
      assert claims[i + 1].category == c && claims[0] == ix.domains[domain];
    }
  }
}
