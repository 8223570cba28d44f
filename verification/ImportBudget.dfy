/** Exact resource accounting for building an index. */
module ImportBudget {
  import opened Catalog
  import opened Options
  import opened BlockIndex
  import opened StagedBuild

  datatype Limits = Limits(records: nat, localRecords: nat, domains: nat, claims: nat, memoryBytes: nat, tempBytes: nat)

  datatype Failure = Limit | Malformed | Missing | Cancelled

  const RESERVED: nat := 0x200_0000

  /** What configuration validation admits. */
  predicate Normal(l: Limits) {
    0x400_0000 <= l.memoryBytes <= 0x8000_0000
  }

  function IndexCapacity(l: Limits): nat
    requires Normal(l)
  {
    (l.memoryBytes - RESERVED) / 3
  }

  function ClaimCharge(d: string, e: Entry): nat {
    512 + |d| + IdLength(e.category) + |e.feedID| + |e.feedName|
  }

  // ---------- the charge of a set of claims ----------

  ghost function ChargeOf(s: set<Claim>): nat {
    if s == {} then 0
    else var x := Pick(s); ClaimCharge(x.domain, x.entry) + ChargeOf(s - {x})
  }

  lemma {:induction false} ChargeAdd(s: set<Claim>, x: Claim)
    requires x !in s
    ensures ChargeOf(s + {x}) == ChargeOf(s) + ClaimCharge(x.domain, x.entry)
    decreases |s|
  {
    var y := Pick(s + {x});
    if y == x {
      assert s + {x} - {x} == s;
    } else {
      assert s + {x} - {y} == s - {y} + {x};
      ChargeAdd(s - {y}, x);
      ChargeAdd(s - {y}, y);
      assert s - {y} + {y} == s;
    }
  }

  lemma TakenOut(s: set<Claim>, t: set<Claim>, x: Claim)
    requires s !! t && x in t
    ensures x !in s + (t - {x}) && s + (t - {x}) + {x} == s + t && t - {x} + {x} == t
  {
  }

  lemma {:induction false} ChargeUnion(s: set<Claim>, t: set<Claim>)
    requires s !! t
    ensures ChargeOf(s + t) == ChargeOf(s) + ChargeOf(t)
    decreases |t|
  {
    if t == {} {
      assert s + t == s;
    } else {
      var x :| x in t;
      var rest := t - {x};
      TakenOut(s, t, x);
      ChargeUnion(s, rest);
      ChargeAdd(s + rest, x);
      ChargeAdd(rest, x);
    }
  }

  /** A smaller set is no larger in size, in domains or in charge. */
  lemma SmallerCostsLess(s: set<Claim>, t: set<Claim>)
    requires s <= t
    ensures |s| <= |t| && |DomainsOf(s)| <= |DomainsOf(t)| && ChargeOf(s) <= ChargeOf(t)
  {
    assert t == s + (t - s);
    ChargeUnion(s, t - s);
    assert DomainsOf(t) == DomainsOf(s) + (DomainsOf(t) - DomainsOf(s));
  }

  ghost function EntryCharge(d: string, es: seq<Entry>): nat {
    if es == [] then 0 else EntryCharge(d, es[..|es| - 1]) + ClaimCharge(d, es[|es| - 1])
  }

  /** The loop over both maps charges every claim once. */
  method IndexCharge(ix: Index) returns (n: nat)
    requires Shaped(ix)
    ensures n == ChargeOf(ClaimSet(ix))
  {
    n := 0;
    var todo := ix.domains.Keys;
    NothingOn(ix, todo);
    while todo != {}
      invariant todo <= ix.domains.Keys
      invariant n == ChargeOf(ClaimsOff(ix, todo))
      decreases |todo|
    {
      var d :| d in todo;
      DomainCharge(ix, todo, d);
      var charge := ChargeOn(ix, d);
      n := n + charge;
      todo := todo - {d};
    }
    assert ClaimsOff(ix, {}) == ClaimSet(ix);
  }

  method ChargeOn(ix: Index, d: string) returns (n: nat)
    requires d in ix.domains
    ensures n == EntryCharge(d, ClaimsOn(ix, d))
  {
    var all := ClaimsOn(ix, d);
    n := ClaimCharge(d, ix.domains[d]);
    var claims := ExtrasOn(ix, d);
    assert all[..1] == [ix.domains[d]] && all[..1][..0] == [];
    for i := 0 to |claims|
      invariant n == EntryCharge(d, all[..i + 1])
    {
      assert all[..i + 2][..i + 1] == all[..i + 1] && all[..i + 2][i + 1] == claims[i];
      n := n + ClaimCharge(d, claims[i]);
    }
    assert all[..|claims| + 1] == all;
  }

  ghost function ClaimsOff(ix: Index, todo: set<string>): set<Claim> {
    set x | x in ClaimSet(ix) && x.domain !in todo
  }

  lemma NothingOn(ix: Index, todo: set<string>)
    requires todo == ix.domains.Keys
    ensures ClaimsOff(ix, todo) == {}
  {
  }

  ghost function EntrySet(d: string, es: seq<Entry>): set<Claim> {
    set e | e in es :: Claim(d, e)
  }

  lemma {:induction false} EntrySetCharge(d: string, es: seq<Entry>)
    requires DistinctCategories(es)
    ensures ChargeOf(EntrySet(d, es)) == EntryCharge(d, es)
  {
    if es != [] {
      var rest, last := es[..|es| - 1], es[|es| - 1];
      EntrySetCharge(d, rest);
      assert forall e :: e in es <==> e in rest || e == last;
      assert EntrySet(d, es) == EntrySet(d, rest) + {Claim(d, last)};
      ChargeAdd(EntrySet(d, rest), Claim(d, last));
    }
  }

  lemma DomainCharge(ix: Index, todo: set<string>, d: string)
    requires Shaped(ix) && d in todo && d in ix.domains
    ensures ChargeOf(ClaimsOff(ix, todo - {d})) == ChargeOf(ClaimsOff(ix, todo)) + EntryCharge(d, ClaimsOn(ix, d))
  {
    var mine := EntrySet(d, ClaimsOn(ix, d));
    forall x ensures x in ClaimsOff(ix, todo - {d}) <==> x in ClaimsOff(ix, todo) + mine {
      ClaimSetMember(ix, x.domain, x.entry);
    }
    assert ClaimsOff(ix, todo - {d}) == ClaimsOff(ix, todo) + mine;
    ChargeUnion(ClaimsOff(ix, todo), mine);
    EntrySetCharge(d, ClaimsOn(ix, d));
  }

  // ---------- the budget ----------

  class Budget {
    var used: int
    var claims: int
    const limit: int

    constructor (used: int, limit: int)
      ensures this.used == used && this.limit == limit && claims == 0
    {
      this.used, this.limit, this.claims := used, limit, 0;
    }
  }

  /** The fixed reserve, and one share or what the published index is charged, if that is more. */
  ghost function Opening(l: Limits, published: Index): Ledger
    requires Normal(l)
  {
    var current := ChargeOf(ClaimSet(published));
    Ledger(RESERVED + if current > IndexCapacity(l) then current else IndexCapacity(l), 0)
  }

  /** A fresh budget holds the fixed reserve and one share for the published index. */
  method NewBudget(l: Limits, published: Index) returns (budget: Budget)
    requires Normal(l) && Shaped(published)
    ensures fresh(budget) && budget.limit == l.memoryBytes && LedgerOf(budget) == Opening(l, published)
  {
    var reserve := IndexCapacity(l);
    var current := IndexCharge(published);
    if current > reserve { reserve := current; }
    budget := new Budget(RESERVED + reserve, l.memoryBytes);
  }

  datatype Ledger = Ledger(used: int, claims: int)

  function Plus(a: Ledger, b: Ledger): Ledger {
    Ledger(a.used + b.used, a.claims + b.claims)
  }

  function Minus(a: Ledger, b: Ledger): Ledger {
    Ledger(a.used - b.used, a.claims - b.claims)
  }

  ghost function LedgerOf(budget: Budget): Ledger
    reads budget
  {
    Ledger(budget.used, budget.claims)
  }

  /** What a list costs: the charge and the number of its claims. */
  ghost function Cost(log: seq<Claim>): Ledger {
    Ledger(ChargeOf(Flat(log)), |Flat(log)|)
  }

  predicate Within(l: Limits, domains: nat, a: Ledger) {
    domains <= l.domains && a.claims <= l.claims && a.used <= l.memoryBytes
  }

  /** The list fits the limits beside what is already charged. */
  ghost predicate Fits(l: Limits, log: seq<Claim>, base: Ledger) {
    Within(l, |DomainsOf(Flat(log))|, Plus(base, Cost(log)))
  }

  /** The accounts say exactly what the list holds. */
  ghost predicate Exact(a: Ledger, log: seq<Claim>, base: Ledger) {
    a == Plus(base, Cost(log))
  }

  lemma DomainsAdd(s: set<Claim>, x: Claim)
    ensures |DomainsOf(s + {x})| == |DomainsOf(s)| + if x.domain in DomainsOf(s) then 0 else 1
  {
    assert DomainsOf(s + {x}) == DomainsOf(s) + {x.domain};
  }

  function ChargeFor(x: Claim): Ledger {
    Ledger(ClaimCharge(x.domain, x.entry), 1)
  }

  lemma OneMore(log: seq<Claim>, x: Claim)
    requires x.domain != ""
    ensures Taken(Flat(log), x.domain, x.entry.category) ==> Flat(log + [x]) == Flat(log)
    ensures !Taken(Flat(log), x.domain, x.entry.category) ==>
              && Cost(log + [x]) == Plus(Cost(log), ChargeFor(x))
              && |DomainsOf(Flat(log + [x]))| ==
                 |DomainsOf(Flat(log))| + if x.domain in DomainsOf(Flat(log)) then 0 else 1
  {
    assert (log + [x])[..|log|] == log;
    if !Taken(Flat(log), x.domain, x.entry.category) {
      ChargeAdd(Flat(log), x);
      DomainsAdd(Flat(log), x);
    }
  }

  predicate Held(ix: Index, d: string, category: Category) {
    d in ix.domains && (ix.domains[d].category == category || HasClaim(ix, d, category))
  }

  predicate Refused(l: Limits, isNew: bool, domains: nat, charge: nat, a: Ledger) {
    || (isNew && domains >= l.domains)
    || a.claims >= l.claims
    || charge > l.memoryBytes - a.used
  }

  /** One bounded addition: already held, refused, or charged. */
  function Decide(l: Limits, held: bool, isNew: bool, domains: nat, x: Claim, a: Ledger): Option<Ledger> {
    if held then Some(a)
    else if Refused(l, isNew, domains, ClaimCharge(x.domain, x.entry), a) then None
    else Some(Plus(a, ChargeFor(x)))
  }

  function Bounded(l: Limits, ix: Index, a: Ledger, x: Claim): Option<Ledger> {
    Decide(l, Held(ix, x.domain, x.entry.category), x.domain !in ix.domains, |ix.domains|, x, a)
  }

  method AddBounded(l: Limits, b: Builder, budget: Budget, d: string, e: Entry) returns (err: Option<Failure>)
    requires budget.limit == l.memoryBytes
    modifies b, budget
    ensures err == if Bounded(l, old(b.View()), old(LedgerOf(budget)), Claim(d, e)).Some? then None else Some(Limit)
    ensures err.None? ==> b.View() == Added(old(b.View()), d, e) &&
                          Bounded(l, old(b.View()), old(LedgerOf(budget)), Claim(d, e)) == Some(LedgerOf(budget))
    ensures err.Some? ==> b.View() == old(b.View()) && LedgerOf(budget) == old(LedgerOf(budget))
  {
    var held := d in b.domains && b.domains[d].category == e.category;
    if d in b.domains && !held { held := b.HasExtra(d, e.category); }
    if held { return None; }
    if d !in b.domains && |b.domains| >= l.domains { return Some(Limit); }
    if budget.claims >= l.claims { return Some(Limit); }
    var charge := ClaimCharge(d, e);
    if charge > budget.limit - budget.used { return Some(Limit); }
    budget.used := budget.used + charge;
    budget.claims := budget.claims + 1;
    var _ := b.Add(d, e);
    err := None;
  }

  // ---------- the same decisions against the flat list ----------

  ghost function Charged(l: Limits, held: set<Claim>, a: Ledger, x: Claim): Option<Ledger> {
    Decide(l, Taken(held, x.domain, x.entry.category), x.domain !in DomainsOf(held), |DomainsOf(held)|, x, a)
  }

  /** The index decides as the flat list would. */
  lemma BoundedAsFlat(l: Limits, ix: Index, log: seq<Claim>, a: Ledger, x: Claim)
    requires ClaimSet(ix) == Flat(log)
    ensures Bounded(l, ix, a, x) == Charged(l, Flat(log), a, x)
  {
    HeldUnder(ix, x.domain, x.entry.category);
    IndexedDomains(ix);
    assert |ix.domains| == |ix.domains.Keys| == |DomainsOf(Flat(log))|;
    assert x.domain in ix.domains <==> x.domain in DomainsOf(Flat(log));
  }

  ghost function ChargedRun(l: Limits, log: seq<Claim>, a: Ledger, more: seq<Claim>): Option<Ledger>
    decreases |more|
  {
    if more == [] then Some(a)
    else
      var rest, last := more[..|more| - 1], more[|more| - 1];
      var before := ChargedRun(l, log, a, rest);
      if before.None? then None else Charged(l, Flat(log + rest), before.value, last)
  }

  /** Accepted exactly when the list fits, and then charged exactly what it costs. */
  ghost predicate ExactLedger(l: Limits, r: Option<Ledger>, log: seq<Claim>, base: Ledger) {
    && (r.Some? <==> Fits(l, log, base))
    && (r.Some? ==> Exact(r.value, log, base))
  }

  lemma PlusAssociates(a: Ledger, b: Ledger, c: Ledger)
    ensures Plus(Plus(a, b), c) == Plus(a, Plus(b, c))
    ensures Plus(Plus(a, b), c) == Plus(Plus(a, c), b)
    ensures Minus(Plus(a, b), b) == a
  {
  }

  lemma RefusedByCounts(l: Limits, isNew: bool, domains: nat, x: Claim, a: Ledger)
    requires Within(l, domains, a)
    ensures Within(l, domains + if isNew then 1 else 0, Plus(a, ChargeFor(x))) <==>
            !Refused(l, isNew, domains, ClaimCharge(x.domain, x.entry), a)
  {
  }

  /** A claim is taken exactly when the list with it fits, and the accounts stay exact. */
  lemma ChargedIsExact(l: Limits, log: seq<Claim>, a: Ledger, x: Claim, base: Ledger)
    requires Exact(a, log, base) && Fits(l, log, base) && x.domain != ""
    ensures ExactLedger(l, Charged(l, Flat(log), a, x), log + [x], base)
  {
    OneMore(log, x);
    if !Taken(Flat(log), x.domain, x.entry.category) {
      PlusAssociates(base, Cost(log), ChargeFor(x));
      RefusedByCounts(l, x.domain !in DomainsOf(Flat(log)), |DomainsOf(Flat(log))|, x, a);
    }
  }

  /** A run of additions succeeds exactly when the whole list fits. */
  lemma {:induction false} ChargedRunIsExact(l: Limits, log: seq<Claim>, a: Ledger, more: seq<Claim>, base: Ledger)
    requires ExactLedger(l, Some(a), log, base) && forall x :: x in more ==> x.domain != ""
    ensures ExactLedger(l, ChargedRun(l, log, a, more), log + more, base)
    decreases |more|
  {
    if more == [] {
      assert log + more == log;
    } else {
      var rest, last := more[..|more| - 1], more[|more| - 1];
      ChargedRunIsExact(l, log, a, rest, base);
      assert log + more == log + rest + [last];
      if ChargedRun(l, log, a, rest).Some? {
        ChargedIsExact(l, log + rest, ChargedRun(l, log, a, rest).value, last, base);
      } else if Fits(l, log + more, base) {
        GrowingOnlyCosts(l, log + rest, [last], base);
      }
    }
  }

  /** Once refused, a run stays refused. */
  lemma {:induction false} RunStaysRefused(l: Limits, log: seq<Claim>, a: Ledger, more: seq<Claim>, k: nat)
    requires k <= |more| && ChargedRun(l, log, a, more[..k]).None?
    ensures ChargedRun(l, log, a, more).None?
    decreases |more|
  {
    if k < |more| {
      assert more[..|more| - 1][..k] == more[..k];
      RunStaysRefused(l, log, a, more[..|more| - 1], k);
    } else {
      assert more[..k] == more;
    }
  }

  /** The name must not be empty: an empty name that is not refused is charged for,
      although Add ignores it. For every other name one call keeps the accounts exact. */
  lemma AccountsStayExactUnlessNameEmpty(ix: Index, log: seq<Claim>, d: string, e: Entry)
    requires Represents(ix, log)
    ensures var charged := if Held(ix, d, e.category) then 0 else ClaimCharge(d, e);
            ChargeOf(ClaimSet(Added(ix, d, e))) == ChargeOf(ClaimSet(ix)) + charged <==> d != ""
  {
    IndexedDomains(ix);
    HeldUnder(ix, d, e.category);
    AddedClaims(ix, d, e);
    if d != "" && !Held(ix, d, e.category) { ChargeAdd(ClaimSet(ix), Claim(d, e)); }
  }

  lemma GrowingOnlyCosts(l: Limits, a: seq<Claim>, b: seq<Claim>, base: Ledger)
    requires Fits(l, a + b, base)
    ensures Fits(l, a, base)
  {
    FlatAppend(a, b);
    SmallerCostsLess(Flat(a), Flat(a + b));
  }
}
