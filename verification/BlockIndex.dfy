/** The blocklist index. `Flat` is the reference: the flat list of every claim a
    feed made, keeping the first claim per (domain, category). `Builder` keeps the
    fast form: one primary claim per domain, the rest beside it, and running counts. */
module BlockIndex {
  import opened Options
  import opened Catalog
  import opened DomainNames

  datatype Entry = Entry(category: Category, feedID: string, feedName: string)

  datatype Claim = Claim(domain: string, entry: Entry)

  datatype Index = Index(
    domains: map<string, Entry>,
    extra: map<string, seq<Entry>>,
    byCategory: map<Category, int>,
    feeds: map<string, int>)

  const EMPTY_INDEX := Index(map[], map[], map[], map[])

  // ---------- the reference: a flat list of claims ----------

  predicate Taken(s: set<Claim>, domain: string, category: Category) {
    exists x :: x in s && x.domain == domain && x.entry.category == category
  }

  function Flat(log: seq<Claim>): (s: set<Claim>) {
    if log == [] then {}
    else
      var rest, last := Flat(log[..|log| - 1]), log[|log| - 1];
      if last.domain == "" || Taken(rest, last.domain, last.entry.category) then rest else rest + {last}
  }

  /** The earliest of the least-rank claims on a domain. */
  function PrimaryOf(log: seq<Claim>, domain: string): (p: Option<Entry>) {
    if log == [] then None
    else
      var rest, last := PrimaryOf(log[..|log| - 1], domain), log[|log| - 1];
      if last.domain != domain || domain == "" then rest
      else if rest.None? || RankOf(last.entry.category) < RankOf(rest.value.category) then Some(last.entry)
      else rest
  }

  ghost predicate OnePerCategory(s: set<Claim>) {
    forall x, y :: x in s && y in s && x.domain == y.domain && x.entry.category == y.entry.category ==> x == y
  }

  /** The domains claimed under a category. */
  function Under(s: set<Claim>, category: Category): set<string> {
    set x | x in s && x.entry.category == category :: x.domain
  }

  function DomainsOf(s: set<Claim>): set<string> {
    set x | x in s :: x.domain
  }

  // ---------- what the fast form stands for ----------

  function ExtrasOn(ix: Index, domain: string): seq<Entry> {
    if domain in ix.extra then ix.extra[domain] else []
  }

  function ClaimsOn(ix: Index, domain: string): seq<Entry> {
    if domain in ix.domains then [ix.domains[domain]] + ExtrasOn(ix, domain) else []
  }

  function ClaimSet(ix: Index): set<Claim> {
    set d, e | d in ix.domains && e in ClaimsOn(ix, d) :: Claim(d, e)
  }

  function Credited(domains: map<string, Entry>, feedID: string): set<string> {
    set d | d in domains && domains[d].feedID == feedID
  }

  function At<K(==)>(m: map<K, int>, k: K): int {
    if k in m then m[k] else 0
  }

  ghost predicate DistinctCategories(s: seq<Entry>) {
    forall i, j :: 0 <= i < j < |s| ==> s[i].category != s[j].category
  }

  ghost predicate PrimaryLeads(s: seq<Entry>) {
    forall i :: 0 <= i < |s| ==> RankOf(s[0].category) <= RankOf(s[i].category)
  }

  ghost predicate Shaped(ix: Index) {
    && "" !in ix.domains
    && ix.extra.Keys <= ix.domains.Keys
    && (forall d {:trigger DistinctCategories(ClaimsOn(ix, d))} {:trigger PrimaryLeads(ClaimsOn(ix, d))} ::
          d in ix.domains ==> DistinctCategories(ClaimsOn(ix, d)) && PrimaryLeads(ClaimsOn(ix, d)))
  }

  ghost predicate Counted(ix: Index) {
    && (forall c {:trigger At(ix.byCategory, c)} :: At(ix.byCategory, c) == |Under(ClaimSet(ix), c)|)
    && (forall f {:trigger At(ix.feeds, f)} :: At(ix.feeds, f) == |Credited(ix.domains, f)|)
  }

  /** The representation invariant, counts included. */
  ghost predicate WellFormed(ix: Index) {
    Shaped(ix) && Counted(ix)
  }

  ghost predicate Represents(ix: Index, log: seq<Claim>) {
    && WellFormed(ix)
    && ClaimSet(ix) == Flat(log)
    && forall d {:trigger PrimaryOf(log, d)} ::
         PrimaryOf(log, d) == if d in ix.domains then Some(ix.domains[d]) else None
  }

  // ---------- Builder.Add ----------

  predicate HasClaim(ix: Index, domain: string, category: Category) {
    exists i :: 0 <= i < |ExtrasOn(ix, domain)| && ExtrasOn(ix, domain)[i].category == category
  }

  function Bump<K(==)>(m: map<K, int>, k: K, delta: int): map<K, int> {
    m[k := At(m, k) + delta]
  }

  function Added(ix: Index, domain: string, e: Entry): (r: Index) {
    if domain == "" then ix
    else if domain !in ix.domains then
      Index(ix.domains[domain := e], ix.extra, Bump(ix.byCategory, e.category, 1), Bump(ix.feeds, e.feedID, 1))
    else
      var prev := ix.domains[domain];
      if e.category == prev.category || HasClaim(ix, domain, e.category) then ix
      else if RankOf(e.category) < RankOf(prev.category) then
        Index(ix.domains[domain := e], ix.extra[domain := ExtrasOn(ix, domain) + [prev]],
              Bump(ix.byCategory, e.category, 1), Bump(Bump(ix.feeds, prev.feedID, -1), e.feedID, 1))
      else
        Index(ix.domains, ix.extra[domain := ExtrasOn(ix, domain) + [e]], Bump(ix.byCategory, e.category, 1), ix.feeds)
  }

  lemma ClaimSetMember(ix: Index, d: string, e: Entry)
    ensures Claim(d, e) in ClaimSet(ix) <==> d in ix.domains && e in ClaimsOn(ix, d)
  {
  }

  lemma HeldUnder(ix: Index, domain: string, category: Category)
    ensures Taken(ClaimSet(ix), domain, category) <==>
              domain in ix.domains && (ix.domains[domain].category == category || HasClaim(ix, domain, category))
  {
    if domain in ix.domains {
      if ix.domains[domain].category == category {
        ClaimSetMember(ix, domain, ix.domains[domain]);
      } else if HasClaim(ix, domain, category) {
        var i :| 0 <= i < |ExtrasOn(ix, domain)| && ExtrasOn(ix, domain)[i].category == category;
        ClaimSetMember(ix, domain, ExtrasOn(ix, domain)[i]);
      }
    }
  }

  /** What one Add does to the set of claims. */
  lemma AddedClaims(ix: Index, domain: string, e: Entry)
    requires "" !in ix.domains && ix.extra.Keys <= ix.domains.Keys
    ensures ClaimSet(Added(ix, domain, e)) ==
            if domain == "" || Taken(ClaimSet(ix), domain, e.category) then ClaimSet(ix)
            else ClaimSet(ix) + {Claim(domain, e)}
  {
    HeldUnder(ix, domain, e.category);
    var r := Added(ix, domain, e);
    forall x: Claim ensures x in ClaimSet(r) <==>
      x in ClaimSet(ix) || (x == Claim(domain, e) && domain != "" && !Taken(ClaimSet(ix), domain, e.category))
    {
      ClaimSetMember(ix, x.domain, x.entry);
      ClaimSetMember(r, x.domain, x.entry);
    }
  }

  lemma AddedUnder(s: set<Claim>, x: Claim, c: Category)
    requires !Taken(s, x.domain, x.entry.category)
    ensures |Under(s + {x}, c)| == |Under(s, c)| + if c == x.entry.category then 1 else 0
  {
    if c == x.entry.category {
      assert Under(s + {x}, c) == Under(s, c) + {x.domain};
      assert x.domain !in Under(s, c);
    } else {
      assert Under(s + {x}, c) == Under(s, c);
    }
  }

  lemma UpdateCredited(m: map<string, Entry>, d: string, e: Entry, f: string)
    ensures |Credited(m[d := e], f)| ==
            |Credited(m, f)| - (if d in m && m[d].feedID == f then 1 else 0) + (if e.feedID == f then 1 else 0)
  {
    var without := Credited(m, f) - {d};
    assert Credited(m[d := e], f) == if e.feedID == f then without + {d} else without;
    assert Credited(m, f) == if d in m && m[d].feedID == f then without + {d} else without;
  }

  lemma AddedCredited(ix: Index, domain: string, e: Entry, f: string)
    requires At(ix.feeds, f) == |Credited(ix.domains, f)|
    ensures At(Added(ix, domain, e).feeds, f) == |Credited(Added(ix, domain, e).domains, f)|
  {
    UpdateCredited(ix.domains, domain, e, f);
  }

  /** Putting e in front of, or behind, claims of other categories. */
  lemma AddedShapedOn(s: seq<Entry>, e: Entry)
    requires s != [] && DistinctCategories(s) && PrimaryLeads(s)
    requires forall i :: 0 <= i < |s| ==> s[i].category != e.category
    ensures DistinctCategories([e] + s[1..] + [s[0]]) && DistinctCategories(s + [e])
    ensures RankOf(e.category) < RankOf(s[0].category) ==> PrimaryLeads([e] + s[1..] + [s[0]])
    ensures RankOf(s[0].category) <= RankOf(e.category) ==> PrimaryLeads(s + [e])
  {
  }

  lemma AddedOn(ix: Index, domain: string, e: Entry)
    requires domain in ix.domains && domain != "" && !Taken(ClaimSet(ix), domain, e.category)
    ensures var s := ClaimsOn(ix, domain);
            && (forall i :: 0 <= i < |s| ==> s[i].category != e.category)
            && ClaimsOn(Added(ix, domain, e), domain) ==
               if RankOf(e.category) < RankOf(s[0].category) then [e] + s[1..] + [s[0]] else s + [e]
  {
    HeldUnder(ix, domain, e.category);
    assert ClaimsOn(ix, domain)[1..] == ExtrasOn(ix, domain);
  }

  lemma AddedShaped(ix: Index, domain: string, e: Entry)
    requires Shaped(ix)
    ensures Shaped(Added(ix, domain, e))
  {
    var r := Added(ix, domain, e);
    HeldUnder(ix, domain, e.category);
    forall d | d in r.domains ensures DistinctCategories(ClaimsOn(r, d)) && PrimaryLeads(ClaimsOn(r, d)) {
      if d != domain || r == ix {
        assert ClaimsOn(r, d) == ClaimsOn(ix, d);
      } else if d in ix.domains {
        AddedOn(ix, d, e);
        AddedShapedOn(ClaimsOn(ix, d), e);
      } else {
        assert ClaimsOn(r, d) == [e];
      }
    }
  }

  lemma AddedCategory(ix: Index, domain: string, e: Entry, c: Category)
    requires Shaped(ix) && Counted(ix)
    ensures var r := Added(ix, domain, e); At(r.byCategory, c) == |Under(ClaimSet(r), c)|
  {
    var r := Added(ix, domain, e);
    AddedClaims(ix, domain, e);
    HeldUnder(ix, domain, e.category);
    assert At(ix.byCategory, c) == |Under(ClaimSet(ix), c)|;
    if r != ix {
      AddedUnder(ClaimSet(ix), Claim(domain, e), c);
      assert r.byCategory == Bump(ix.byCategory, e.category, 1);
    }
  }

  lemma AddedCounted(ix: Index, domain: string, e: Entry)
    requires Shaped(ix) && Counted(ix)
    ensures Counted(Added(ix, domain, e))
  {
    var r := Added(ix, domain, e);
    forall c ensures At(r.byCategory, c) == |Under(ClaimSet(r), c)| { AddedCategory(ix, domain, e, c); }
    forall f ensures At(r.feeds, f) == |Credited(r.domains, f)| { AddedCredited(ix, domain, e, f); }
  }

  lemma AddedPrimary(ix: Index, log: seq<Claim>, domain: string, e: Entry, d: string)
    requires Shaped(ix)
    requires PrimaryOf(log, d) == if d in ix.domains then Some(ix.domains[d]) else None
    ensures PrimaryOf(log + [Claim(domain, e)], d) ==
            if d in Added(ix, domain, e).domains then Some(Added(ix, domain, e).domains[d]) else None
  {
    var next := log + [Claim(domain, e)];
    assert next[..|next| - 1] == log;
    if d == domain && d in ix.domains && HasClaim(ix, d, e.category) {
      var i :| 0 <= i < |ExtrasOn(ix, d)| && ExtrasOn(ix, d)[i].category == e.category;
      assert ClaimsOn(ix, d)[i + 1] == ExtrasOn(ix, d)[i];
      assert PrimaryLeads(ClaimsOn(ix, d));
    }
  }

  /** Every Add keeps the index in step with the flat list. */
  lemma AddedRepresents(ix: Index, log: seq<Claim>, domain: string, e: Entry)
    requires Represents(ix, log)
    ensures Represents(Added(ix, domain, e), log + [Claim(domain, e)])
  {
    var next, r := log + [Claim(domain, e)], Added(ix, domain, e);
    assert next[..|next| - 1] == log;
    AddedClaims(ix, domain, e);
    AddedShaped(ix, domain, e);
    AddedCounted(ix, domain, e);
    forall d ensures PrimaryOf(next, d) == if d in r.domains then Some(r.domains[d]) else None {
      AddedPrimary(ix, log, domain, e, d);
    }
  }

  /** The claim was new and took the lead on its domain. */
  ghost predicate BecamePrimary(log: seq<Claim>, domain: string, e: Entry) {
    !Taken(Flat(log), domain, e.category) && PrimaryOf(log + [Claim(domain, e)], domain) == Some(e)
  }

  predicate Leads(ix: Index, domain: string, e: Entry) {
    domain != "" &&
    (domain !in ix.domains ||
     (e.category != ix.domains[domain].category && !HasClaim(ix, domain, e.category) &&
      RankOf(e.category) < RankOf(ix.domains[domain].category)))
  }

  /** What Add reports is whether the claim became primary. */
  lemma AddReportsPrimary(ix: Index, log: seq<Claim>, domain: string, e: Entry)
    requires Represents(ix, log)
    ensures Leads(ix, domain, e) <==> BecamePrimary(log, domain, e)
  {
    HeldUnder(ix, domain, e.category);
    assert (log + [Claim(domain, e)])[..|log|] == log;
    assert PrimaryOf(log, domain) == if domain in ix.domains then Some(ix.domains[domain]) else None;
  }

  class Builder {
    var domains: map<string, Entry>
    var extra: map<string, seq<Entry>>
    var byCategory: map<Category, int>
    var feeds: map<string, int>

    ghost function View(): Index
      reads this
    {
      Index(domains, extra, byCategory, feeds)
    }

    constructor ()
      ensures View() == EMPTY_INDEX
    {
      domains, extra, byCategory, feeds := map[], map[], map[], map[];
    }

    method HasExtra(domain: string, category: Category) returns (found: bool)
      ensures found <==> HasClaim(View(), domain, category)
    {
      var claims := if domain in extra then extra[domain] else [];
      assert claims == ExtrasOn(View(), domain);
      for i := 0 to |claims|
        invariant forall j :: 0 <= j < i ==> claims[j].category != category
      {
        if claims[i].category == category { return true; }
      }
      return false;
    }

    method Add(domain: string, e: Entry) returns (primary: bool)
      modifies this
      ensures View() == Added(old(View()), domain, e)
      ensures primary <==> Leads(old(View()), domain, e)
    {
      primary := false;
      if domain == "" {
      } else if domain !in domains {
        domains := domains[domain := e];
        byCategory := Bump(byCategory, e.category, 1);
        feeds := Bump(feeds, e.feedID, 1);
        primary := true;
      } else {
        var prev := domains[domain];
        var held := HasExtra(domain, e.category);
        var claims := if domain in extra then extra[domain] else [];
        if e.category == prev.category || held {
        } else if RankOf(e.category) < RankOf(prev.category) {
          feeds := Bump(feeds, prev.feedID, -1);
          feeds := Bump(feeds, e.feedID, 1);
          domains := domains[domain := e];
          extra := extra[domain := claims + [prev]];
          byCategory := Bump(byCategory, e.category, 1);
          primary := true;
        } else {
          extra := extra[domain := claims + [e]];
          byCategory := Bump(byCategory, e.category, 1);
        }
      }
    }

    method Build() returns (ix: Index)
      ensures ix == View()
    {
      ix := Index(domains, extra, byCategory, feeds);
    }
  }

  // ---------- lookups against the flat list ----------

  predicate On(enabled: map<Category, bool>, category: Category) {
    category in enabled && enabled[category]
  }

  ghost predicate BlockedAt(s: set<Claim>, name: string, enabled: map<Category, bool>) {
    exists x :: x in s && x.domain == name && On(enabled, x.entry.category)
  }

  /** e is an enabled claim on name and none is more severe. */
  ghost predicate LeastEnabled(s: set<Claim>, name: string, enabled: map<Category, bool>, e: Entry) {
    && Claim(name, e) in s && On(enabled, e.category)
    && forall x :: x in s && x.domain == name && On(enabled, x.entry.category) ==>
       RankOf(e.category) <= RankOf(x.entry.category)
  }

  /** The walk's answer: a least enabled claim on the longest parent that has one. */
  ghost predicate Answers(s: set<Claim>, walk: seq<string>, enabled: map<Category, bool>, r: Option<Entry>) {
    if walk == [] then r.None?
    else if BlockedAt(s, walk[0], enabled) then r.Some? && LeastEnabled(s, walk[0], enabled, r.value)
    else Answers(s, walk[1..], enabled, r)
  }

  method LookupEnabled(ix: Index, domain: string, enabled: map<Category, bool>) returns (r: Option<Entry>)
    requires Shaped(ix)
    ensures Answers(ClaimSet(ix), Suffixes(domain), enabled, r)
  {
    ghost var s := ClaimSet(ix);
    if |ix.domains| == 0 || |enabled| == 0 {
      NothingEnabled(s, Suffixes(domain), enabled);
      return None;
    }
    var name := domain;
    while true
      invariant forall v :: Answers(s, Suffixes(name), enabled, v) ==> Answers(s, Suffixes(domain), enabled, v)
      decreases |name|
    {
      r := EnabledOn(ix, name, enabled);
      if r.Some? || '.' !in name {
        assert Suffixes(name)[0] == name;
        assert '.' !in name ==> Suffixes(name)[1..] == [];
        assert Answers(s, Suffixes(name), enabled, r);
        return;
      }
      assert Suffixes(name)[1..] == Suffixes(AfterDot(name));
      name := AfterDot(name);
    }
  }

  lemma NothingEnabled(s: set<Claim>, walk: seq<string>, enabled: map<Category, bool>)
    requires s == {} || enabled == map[]
    ensures Answers(s, walk, enabled, None)
  {
  }

  /** The first of the least-rank enabled claims. */
  method LeastOf(claims: seq<Entry>, enabled: map<Category, bool>) returns (r: Option<Entry>)
    ensures r.None? ==> forall j :: 0 <= j < |claims| ==> !On(enabled, claims[j].category)
    ensures r.Some? ==> r.value in claims && On(enabled, r.value.category)
    ensures r.Some? ==> forall j :: 0 <= j < |claims| && On(enabled, claims[j].category) ==>
                                    RankOf(r.value.category) <= RankOf(claims[j].category)
  {
    r := None;
    for i := 0 to |claims|
      invariant r.None? ==> forall j :: 0 <= j < i ==> !On(enabled, claims[j].category)
      invariant r.Some? ==> r.value in claims && On(enabled, r.value.category)
      invariant r.Some? ==> forall j :: 0 <= j < i && On(enabled, claims[j].category) ==>
                                        RankOf(r.value.category) <= RankOf(claims[j].category)
    {
      if On(enabled, claims[i].category) && (r.None? || RankOf(claims[i].category) < RankOf(r.value.category)) {
        r := Some(claims[i]);
      }
    }
  }

  /** One step of the walk: the primary when enabled, else the least enabled extra. */
  method EnabledOn(ix: Index, name: string, enabled: map<Category, bool>) returns (r: Option<Entry>)
    requires Shaped(ix)
    ensures r.None? <==> !BlockedAt(ClaimSet(ix), name, enabled)
    ensures r.Some? ==> LeastEnabled(ClaimSet(ix), name, enabled, r.value)
  {
    if name !in ix.domains { return None; }
    var primary := ix.domains[name];
    if On(enabled, primary.category) {
      PrimaryAnswers(ix, name, enabled);
      return Some(primary);
    }
    var claims := ExtrasOn(ix, name);
    r := LeastOf(claims, enabled);
    forall e ensures Claim(name, e) in ClaimSet(ix) <==> e == primary || e in claims { ClaimSetMember(ix, name, e); }
  }

  lemma PrimaryAnswers(ix: Index, name: string, enabled: map<Category, bool>)
    requires Shaped(ix) && name in ix.domains && On(enabled, ix.domains[name].category)
    ensures LeastEnabled(ClaimSet(ix), name, enabled, ix.domains[name])
  {
    var claims := ClaimsOn(ix, name);
    assert PrimaryLeads(claims) && claims[0] == ix.domains[name];
    forall e ensures Claim(name, e) in ClaimSet(ix) <==> e in claims { ClaimSetMember(ix, name, e); }
  }

  method Lookup(ix: Index, domain: string) returns (r: Option<Entry>)
    requires Shaped(ix)
    ensures r.None? <==> forall n :: n in Suffixes(domain) ==> n !in DomainsOf(ClaimSet(ix))
    ensures r.Some? ==> exists i :: 0 <= i < |Suffixes(domain)| && Suffixes(domain)[i] in ix.domains &&
                                    r.value == ix.domains[Suffixes(domain)[i]] &&
                                    forall j :: 0 <= j < i ==> Suffixes(domain)[j] !in ix.domains
  {
    IndexedDomains(ix);
    var name := domain;
    ghost var k := 0;
    while true
      invariant k < |Suffixes(domain)| && Suffixes(domain)[k..] == Suffixes(name)
      invariant forall j :: 0 <= j < k ==> Suffixes(domain)[j] !in ix.domains
      decreases |name|
    {
      assert Suffixes(domain)[k] == Suffixes(domain)[k..][0] == name;
      if name in ix.domains { return Some(ix.domains[name]); }
      if '.' !in name {
        assert |Suffixes(domain)| == k + 1;
        return None;
      }
      assert Suffixes(domain)[k + 1..] == Suffixes(domain)[k..][1..] == Suffixes(AfterDot(name));
      name, k := AfterDot(name), k + 1;
    }
  }

  lemma IndexedDomains(ix: Index)
    ensures DomainsOf(ClaimSet(ix)) == ix.domains.Keys
  {
    forall d | d in ix.domains ensures d in DomainsOf(ClaimSet(ix)) {
      assert ix.domains[d] == ClaimsOn(ix, d)[0];
      assert Claim(d, ix.domains[d]) in ClaimSet(ix);
    }
  }

  /** A name is blocked exactly when an ancestor was claimed under an enabled category. */
  lemma {:induction false} BlockedExactlyWhenClaimed(s: set<Claim>, walk: seq<string>, enabled: map<Category, bool>,
                                                     r: Option<Entry>)
    requires Answers(s, walk, enabled, r)
    ensures r.Some? <==> exists n :: n in walk && BlockedAt(s, n, enabled)
  {
    if walk != [] && !BlockedAt(s, walk[0], enabled) {
      BlockedExactlyWhenClaimed(s, walk[1..], enabled, r);
      assert forall n :: n in walk <==> n == walk[0] || n in walk[1..];
    }
  }

  /** Enabling more never unblocks. */
  lemma EnablingMoreKeepsBlocked(s: set<Claim>, domain: string, few: map<Category, bool>, many: map<Category, bool>,
                                 r: Option<Entry>, r': Option<Entry>)
    requires forall c :: On(few, c) ==> On(many, c)
    requires Answers(s, Suffixes(domain), few, r) && Answers(s, Suffixes(domain), many, r')
    ensures r.Some? ==> r'.Some?
  {
    BlockedExactlyWhenClaimed(s, Suffixes(domain), few, r);
    BlockedExactlyWhenClaimed(s, Suffixes(domain), many, r');
    if r.Some? {
      var n :| n in Suffixes(domain) && BlockedAt(s, n, few);
      assert BlockedAt(s, n, many);
    }
  }

  lemma WalkGoesOn(child: string, parent: string, n: string)
    requires IsSubdomainOf(child, parent) && n in Suffixes(parent)
    ensures n in Suffixes(child)
  {
    WalkVisitsAncestors(child, parent);
    WalkVisitsAncestors(parent, n);
    WalkVisitsAncestors(child, n);
  }

  /** Blocking a name blocks every name beneath it, whatever else is listed there. */
  lemma SubdomainsStayBlocked(s: set<Claim>, child: string, parent: string, enabled: map<Category, bool>,
                              up: Option<Entry>, down: Option<Entry>)
    requires IsSubdomainOf(child, parent)
    requires Answers(s, Suffixes(parent), enabled, up) && Answers(s, Suffixes(child), enabled, down)
    ensures up.Some? ==> down.Some?
  {
    BlockedExactlyWhenClaimed(s, Suffixes(parent), enabled, up);
    BlockedExactlyWhenClaimed(s, Suffixes(child), enabled, down);
    if up.Some? {
      var n :| n in Suffixes(parent) && BlockedAt(s, n, enabled);
      WalkGoesOn(child, parent, n);
    }
  }

  /** With listed categories only, the answer is unique. */
  lemma {:induction false} AnswerIsUnique(s: set<Claim>, walk: seq<string>, enabled: map<Category, bool>,
                                          r: Option<Entry>, r': Option<Entry>)
    requires OnePerCategory(s) && forall x :: x in s ==> Known(x.entry.category)
    requires Answers(s, walk, enabled, r) && Answers(s, walk, enabled, r')
    ensures r == r'
  {
    if walk != [] {
      if BlockedAt(s, walk[0], enabled) {
        RankIsInjective(r.value.category, r'.value.category);
      } else {
        AnswerIsUnique(s, walk[1..], enabled, r, r');
      }
    }
  }

  // ---------- per-feed credit ----------

  ghost function Pick<T>(s: set<T>): (x: T)
    requires s != {}
    ensures x in s
  {
    var x :| x in s; x
  }

  ghost function SumOver<K>(m: map<K, int>, keys: set<K>): int {
    if keys == {} then 0 else At(m, Pick(keys)) + SumOver(m, keys - {Pick(keys)})
  }

  lemma {:induction false} CreditOf(ix: Index, keys: set<string>)
    requires Counted(ix)
    ensures SumOver(ix.feeds, keys) == |set d | d in ix.domains && ix.domains[d].feedID in keys|
  {
    var all := set d | d in ix.domains && ix.domains[d].feedID in keys;
    if keys == {} {
      assert all == {};
    } else {
      var k := Pick(keys);
      CreditOf(ix, keys - {k});
      var rest := set d | d in ix.domains && ix.domains[d].feedID in keys - {k};
      assert all == rest + Credited(ix.domains, k);
      assert rest !! Credited(ix.domains, k);
    }
  }

  /** Per-feed counts sum to the number of indexed domains. */
  lemma CreditsSumToLen(ix: Index)
    requires Counted(ix)
    ensures SumOver(ix.feeds, ix.feeds.Keys) == |ix.domains|
  {
    CreditOf(ix, ix.feeds.Keys);
    var all := set d | d in ix.domains && ix.domains[d].feedID in ix.feeds.Keys;
    forall d | d in ix.domains ensures ix.domains[d].feedID in ix.feeds {
      assert d in Credited(ix.domains, ix.domains[d].feedID);
      assert At(ix.feeds, ix.domains[d].feedID) > 0;
    }
    assert all == ix.domains.Keys;
    assert |ix.domains| == |ix.domains.Keys|;
  }
}
