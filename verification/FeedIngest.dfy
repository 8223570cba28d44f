/** Parsing feeds into parts and merging the parts into a candidate index. */
module FeedIngest {
  import opened Octets
  import opened Catalog
  import opened Options
  import opened BlockIndex
  import opened StagedBuild
  import opened ImportBudget

  datatype Feed = Feed(id: string, name: string, category: Category, enabled: bool, isLocal: bool)

  datatype Emit = Emit(domain: string, category: Category)

  /** What a feed's parser makes of some bytes: the claims in file order, how many
      records it processed, and how it ended. */
  datatype Parsed = Parsed(emits: seq<Emit>, records: nat, failure: Option<Failure>)

  datatype FeedLoad = Loaded | NotLoaded(reason: Failure)

  datatype Importer = Importer(limits: Limits, maxBytes: nat, parse: (Feed, Bytes, nat) -> Parsed)
  {
    /** The limits are normalised, and no parser emits an empty name. */
    ghost predicate Valid() {
      && Normal(limits)
      && forall f, content, n, i {:trigger parse(f, content, n).emits[i]} ::
           0 <= i < |parse(f, content, n).emits| ==> parse(f, content, n).emits[i].domain != ""
    }
  }

  function LogOf(f: Feed, emits: seq<Emit>): (log: seq<Claim>)
    ensures |log| == |emits|
    ensures forall i :: 0 <= i < |emits| ==> log[i] == Claim(emits[i].domain, Entry(emits[i].category, f.id, f.name))
  {
    seq(|emits|, i requires 0 <= i < |emits| => Claim(emits[i].domain, Entry(emits[i].category, f.id, f.name)))
  }

  // ---------- one feed ----------

  /** How parsing ends, from the limits and the whole emitted list. */
  ghost function ParseFailure(im: Importer, f: Feed, content: Bytes, at: Ledger, recordLimit: nat): Option<Failure> {
    var p := im.parse(f, content, recordLimit);
    if |content| > im.maxBytes || at.used >= im.limits.memoryBytes then Some(Limit)
    else if !Fits(im.limits, LogOf(f, p.emits), at) then Some(Limit)
    else p.failure
  }

  method ParseFile(im: Importer, f: Feed, content: Bytes, budget: Budget, recordLimit: nat)
    returns (part: Builder, records: nat, err: Option<Failure>)
    requires im.Valid() && budget.limit == im.limits.memoryBytes && 0 <= budget.claims <= im.limits.claims
    modifies budget
    ensures fresh(part)
    ensures err == ParseFailure(im, f, content, old(LedgerOf(budget)), recordLimit)
    ensures err.None? ==>
              var p := im.parse(f, content, recordLimit);
              && records == p.records
              && part.View() == PartOf(LogOf(f, p.emits))
              && Exact(LedgerOf(budget), LogOf(f, p.emits), old(LedgerOf(budget)))
  {
    part := new Builder();
    records := 0;
    if |content| > im.maxBytes { return part, 0, Some(Limit); }
    if budget.used >= budget.limit { return part, 0, Some(Limit); }
    ghost var start := LedgerOf(budget);
    var p := im.parse(f, content, recordLimit);
    ghost var log := LogOf(f, p.emits);
    records := p.records;
    PartIsExact(im, f, content, start, recordLimit);
    assert log[..0] == [] && ClaimSet(EMPTY_INDEX) == {};
    err := AddAll(im.limits, part, budget, LogOf(f, p.emits), 0, EMPTY_INDEX, [], start);
    if err.None? { err := p.failure; }
  }

  /** The part of Represents the loops rely on. */
  ghost predicate Follows(ix: Index, log: seq<Claim>) {
    "" !in ix.domains && ix.extra.Keys <= ix.domains.Keys && ClaimSet(ix) == Flat(log)
  }

  lemma AddedFollows(ix: Index, log: seq<Claim>, x: Claim)
    requires Follows(ix, log)
    ensures Follows(Added(ix, x.domain, x.entry), log + [x])
  {
    AddedClaims(ix, x.domain, x.entry);
    assert (log + [x])[..|log|] == log;
  }

  lemma {:induction false} BuildFollows(ix: Index, log: seq<Claim>, m: seq<Claim>)
    requires Follows(ix, log)
    ensures Follows(BuildFrom(ix, m), log + m)
  {
    if m == [] {
      assert log + m == log;
    } else {
      var rest, last := m[..|m| - 1], m[|m| - 1];
      BuildFollows(ix, log, rest);
      AddedFollows(BuildFrom(ix, rest), log + rest, last);
      assert log + rest + [last] == log + m;
    }
  }

  /** One turn of a loop that adds all[k]. */
  lemma AddStep(l: Limits, ix: Index, log: seq<Claim>, start: Ledger, all: seq<Claim>, k: nat, a: Ledger, view: Index)
    requires Follows(ix, log) && k < |all|
    requires view == BuildFrom(ix, all[..k]) && ChargedRun(l, log, start, all[..k]) == Some(a)
    ensures BuildFrom(ix, all[..k + 1]) == Added(view, all[k].domain, all[k].entry)
    ensures ChargedRun(l, log, start, all[..k + 1]) == Bounded(l, view, a, all[k])
    ensures ChargedRun(l, log, start, all[..k + 1]).None? ==> ChargedRun(l, log, start, all).None?
  {
    assert all[..k + 1][..k] == all[..k] && all[..k + 1][k] == all[k];
    BuildFollows(ix, log, all[..k]);
    BoundedAsFlat(l, view, log + all[..k], a, all[k]);
    if ChargedRun(l, log, start, all[..k + 1]).None? { RunStaysRefused(l, log, start, all, k + 1); }
  }

  /** The first k claims of all are in the index and in the accounts. */
  ghost predicate Upto(l: Limits, ix: Index, log: seq<Claim>, start: Ledger, all: seq<Claim>, k: nat, view: Index,
                       a: Ledger)
    requires k <= |all|
  {
    view == BuildFrom(ix, all[..k]) && ChargedRun(l, log, start, all[..k]) == Some(a)
  }

  method AddOne(l: Limits, b: Builder, budget: Budget, all: seq<Claim>, k: nat,
                ghost ix: Index, ghost log: seq<Claim>, ghost start: Ledger) returns (err: Option<Failure>)
    requires budget.limit == l.memoryBytes && Follows(ix, log) && k < |all|
    requires Upto(l, ix, log, start, all, k, b.View(), LedgerOf(budget))
    modifies b, budget
    ensures err.None? ==> Upto(l, ix, log, start, all, k + 1, b.View(), LedgerOf(budget))
    ensures err.Some? ==> err == Some(Limit) && ChargedRun(l, log, start, all).None?
  {
    AddStep(l, ix, log, start, all, k, LedgerOf(budget), b.View());
    err := AddBounded(l, b, budget, all[k].domain, all[k].entry);
  }

  /** Adds the claims of all from position n on, stopping at the first refusal. */
  method AddAll(l: Limits, b: Builder, budget: Budget, all: seq<Claim>, n: nat,
                ghost ix: Index, ghost log: seq<Claim>, ghost start: Ledger) returns (err: Option<Failure>)
    requires budget.limit == l.memoryBytes && Follows(ix, log) && n <= |all|
    requires Upto(l, ix, log, start, all, n, b.View(), LedgerOf(budget))
    modifies b, budget
    ensures err.None? ==> b.View() == BuildFrom(ix, all) && ChargedRun(l, log, start, all) == Some(LedgerOf(budget))
    ensures err.Some? ==> err == Some(Limit) && ChargedRun(l, log, start, all).None?
  {
    for i := n to |all|
      invariant b.View() == BuildFrom(ix, all[..i])
      invariant ChargedRun(l, log, start, all[..i]) == Some(LedgerOf(budget))
    {
      err := AddOne(l, b, budget, all, i, ix, log, start);
      if err.Some? { return; }
    }
    assert all[..|all|] == all;
    err := None;
  }

  lemma PartIsExact(im: Importer, f: Feed, content: Bytes, start: Ledger, recordLimit: nat)
    requires im.Valid() && start.used <= im.limits.memoryBytes && start.claims <= im.limits.claims
    ensures var log := LogOf(f, im.parse(f, content, recordLimit).emits);
            ExactLedger(im.limits, ChargedRun(im.limits, [], start, log), log, start)
  {
    var p := im.parse(f, content, recordLimit);
    var log := LogOf(f, p.emits);
    forall x | x in log ensures x.domain != "" {
      var i :| 0 <= i < |log| && log[i] == x;
      assert p.emits[i].domain != "";
    }
    assert DomainsOf(Flat([])) == {} && [] + log == log;
    ChargedRunIsExact(im.limits, [], start, log, start);
  }

  // ---------- merging a part ----------

  /** Merging in any order is accepted exactly when the feed's own list fits, and is
      charged exactly what that list costs. */
  lemma MergeIsExact(l: Limits, log: seq<Claim>, a: Ledger, part: Index, emitted: seq<Claim>, order: seq<string>,
                     base: Ledger)
    requires ExactLedger(l, Some(a), log, base) && Represents(part, emitted) && Iterates(part, order)
    ensures ExactLedger(l, ChargedRun(l, log, a, MergeLog(part, order)), log + emitted, base)
  {
    var m := MergeLog(part, order);
    MergeKeepsClaims(part, order);
    FlatAppend(log, m);
    FlatAppend(log, emitted);
    forall x | x in m ensures x.domain != "" { MergeElement(part, order, x); }
    ChargedRunIsExact(l, log, a, m, base);
    SameFlatSameLedger(l, ChargedRun(l, log, a, m), log + m, log + emitted, base);
  }

  lemma SameFlatSameLedger(l: Limits, r: Option<Ledger>, a: seq<Claim>, b: seq<Claim>, base: Ledger)
    requires Flat(a) == Flat(b) && ExactLedger(l, r, a, base)
    ensures ExactLedger(l, r, b, base)
  {
  }

  lemma SameMeaning(ix: Index, a: seq<Claim>, b: seq<Claim>)
    requires Represents(ix, a) && Flat(a) == Flat(b) && forall d :: PrimaryOf(b, d) == PrimaryOf(a, d)
    ensures Represents(ix, b)
  {
  }

  /** The merged index represents the feed's own list. */
  lemma MergeRepresents(ix: Index, log: seq<Claim>, part: Index, emitted: seq<Claim>, order: seq<string>)
    requires Represents(ix, log) && Represents(part, emitted) && Iterates(part, order)
    ensures Represents(BuildFrom(ix, MergeLog(part, order)), log + emitted)
  {
    var m := MergeLog(part, order);
    BuildRepresents(ix, log, m);
    MergeKeepsClaims(part, order);
    FlatAppend(log, m);
    FlatAppend(log, emitted);
    forall d ensures PrimaryOf(log + emitted, d) == PrimaryOf(log + m, d) {
      PrimaryOfMerge(part, order, d);
      PrimaryAppend(log, m, d);
      PrimaryAppend(log, emitted, d);
    }
    SameMeaning(BuildFrom(ix, m), log + m, log + emitted);
  }

  /** The merge loop, in whatever order the part's map is iterated. */
  method MergePart(l: Limits, b: Builder, budget: Budget, part: Index, ghost log: seq<Claim>)
    returns (err: Option<Failure>, ghost order: seq<string>)
    requires budget.limit == l.memoryBytes && Follows(b.View(), log)
    modifies b, budget
    ensures Iterates(part, order)
    ensures err == if ChargedRun(l, log, old(LedgerOf(budget)), MergeLog(part, order)).Some? then None else Some(Limit)
    ensures err.None? ==> b.View() == BuildFrom(old(b.View()), MergeLog(part, order)) &&
                          ChargedRun(l, log, old(LedgerOf(budget)), MergeLog(part, order)) == Some(LedgerOf(budget))
  {
    ghost var ix, start := b.View(), LedgerOf(budget);
    var todo := part.domains.Keys;
    var done: seq<Claim> := [];
    order := [];
    while todo != {}
      invariant todo <= part.domains.Keys
      invariant forall d :: d in order <==> d in part.domains && d !in todo
      invariant done == MergeLog(part, order)
      invariant b.View() == BuildFrom(ix, done) && ChargedRun(l, log, start, done) == Some(LedgerOf(budget))
      decreases |todo|
    {
      var d :| d in todo;
      todo := todo - {d};
      var run := AsClaims(d, ClaimsOn(part, d));
      var merged := done + run;
      assert merged[..|done|] == done && (order + [d])[..|order|] == order;
      err := AddAll(l, b, budget, merged, |done|, ix, log, start);
      done := merged;
      order := order + [d];
      if err.Some? {
        order := FinishOrder(l, log, start, part, order, todo);
        return;
      }
    }
    err := None;
  }

  /** Any completion of an order that was refused is refused too. */
  lemma FinishOrder(l: Limits, log: seq<Claim>, start: Ledger, part: Index, order: seq<string>, todo: set<string>)
    returns (full: seq<string>)
    requires ChargedRun(l, log, start, MergeLog(part, order)).None?
    requires todo <= part.domains.Keys && forall d :: d in order <==> d in part.domains && d !in todo
    ensures Iterates(part, full) && ChargedRun(l, log, start, MergeLog(part, full)).None?
    decreases |todo|
  {
    if todo == {} {
      full := order;
    } else {
      var d :| d in todo;
      assert (order + [d])[..|order|] == order;
      var next := MergeLog(part, order + [d]);
      assert next[..|MergeLog(part, order)|] == MergeLog(part, order);
      RunStaysRefused(l, log, start, next, |MergeLog(part, order)|);
      full := FinishOrder(l, log, start, part, order + [d], todo - {d});
    }
  }
}
