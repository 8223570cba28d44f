/** Building a candidate index from the enabled feeds' cached or staged bytes. */
module CandidateIndex {
  import opened Octets
  import opened Options
  import opened BlockIndex
  import opened StagedBuild
  import opened ImportBudget
  import opened FeedIngest

  // ---------- cache names ----------

  function SafeChar(c: char): char {
    if 'a' <= c <= 'z' || 'A' <= c <= 'Z' || '0' <= c <= '9' || c == '-' || c == '_' then c else '-'
  }

  function CacheName(id: string): (name: string) {
    seq(|id|, i requires 0 <= i < |id| => SafeChar(id[i])) + ".list"
  }

  /** An ID that is its own file name, as all issued IDs are. */
  predicate SafeId(id: string) {
    forall i :: 0 <= i < |id| ==> SafeChar(id[i]) == id[i]
  }

  /** Cache names keep distinct IDs apart when the IDs use only safe characters. */
  lemma SafeNamesAreDistinct(a: string, b: string)
    requires SafeId(a) && SafeId(b)
    ensures CacheName(a) == CacheName(b) ==> a == b
  {
    if CacheName(a) == CacheName(b) {
      assert |CacheName(a)| == |a| + 5 && |CacheName(b)| == |b| + 5;
      forall i | 0 <= i < |a| ensures a[i] == b[i] {
        assert CacheName(a)[i] == a[i] && CacheName(b)[i] == b[i];
      }
    }
  }

  /** The characters that nothing else is mapped to. */
  predicate PlainChar(c: char) {
    'a' <= c <= 'z' || 'A' <= c <= 'Z' || '0' <= c <= '9' || c == '_'
  }

  predicate PlainId(id: string) {
    forall i :: 0 <= i < |id| ==> PlainChar(id[i])
  }

  /** An ID has its cache file to itself, among all IDs there are, exactly if it has only
      letters, digits and underscores. */
  lemma CollidesWithNoneExactlyIfPlain(id: string)
    ensures (forall other: string :: other != id ==> CacheName(other) != CacheName(id)) <==> PlainId(id)
  {
    if PlainId(id) {
      forall other: string | other != id ensures CacheName(other) != CacheName(id) {
        if CacheName(other) == CacheName(id) { PlainIsTheOnlyOne(other, id); }
      }
    } else {
      var k :| 0 <= k < |id| && !PlainChar(id[k]);
      var other := id[k := if id[k] == '-' then '.' else '-'];
      assert other[k] != id[k];
      assert CacheName(other) == CacheName(id);
    }
  }

  lemma PlainIsTheOnlyOne(other: string, id: string)
    requires PlainId(id) && CacheName(other) == CacheName(id)
    ensures other == id
  {
    assert |CacheName(other)| == |other| + 5 && |CacheName(id)| == |id| + 5;
    forall i | 0 <= i < |id| ensures other[i] == id[i] {
      assert CacheName(other)[i] == SafeChar(other[i]) && CacheName(id)[i] == id[i];
    }
  }

  // ---------- the reference: a fold over the feeds ----------

  /** retained holds the feeds whose loss is fatal. */
  datatype Request = Request(
    feeds: seq<Feed>, cache: map<string, Bytes>, override: string, staged: Option<Bytes>, retained: set<string>)

  datatype Progress = Stopped(err: Failure) | Going(log: seq<Claim>, loads: map<string, FeedLoad>, local: nat)

  /** Where every fresh budget starts. */
  function Base(im: Importer): Ledger
    requires Normal(im.limits)
  {
    Ledger(RESERVED + IndexCapacity(im.limits), 0)
  }

  function ContentOf(req: Request, f: Feed): Option<Bytes> {
    if f.id == req.override && req.staged.Some? then req.staged
    else if CacheName(f.id) in req.cache then Some(req.cache[CacheName(f.id)])
    else None
  }

  /** The reserve and a part being merged. */
  ghost function Beside(im: Importer, emitted: seq<Claim>): Ledger
    requires Normal(im.limits)
  {
    Ledger(Base(im).used + ChargeOf(Flat(emitted)), 0)
  }

  ghost function FeedFailure(im: Importer, req: Request, f: Feed, log: seq<Claim>): Option<Failure>
    requires Normal(im.limits)
  {
    var content := ContentOf(req, f);
    if content.None? then Some(Missing)
    else ParseFailure(im, f, content.value, Plus(Base(im), Cost(log)), im.limits.records)
  }

  predicate Fatal(req: Request, f: Feed, err: Failure) {
    f.id == req.override || f.id in req.retained || err == Limit || err == Cancelled
  }

  /** A parsed feed joins the list when its records and its claims still fit; the
      part is charged for beside the list while they are merged. */
  ghost function Joined(im: Importer, f: Feed, p: Parsed, at: Progress): Progress
    requires Normal(im.limits) && at.Going?
  {
    var emitted := LogOf(f, p.emits);
    if f.isLocal && p.records > im.limits.localRecords - at.local then Stopped(Limit)
    else if !Fits(im.limits, at.log + emitted, Beside(im, emitted)) then Stopped(Limit)
    else Going(at.log + emitted, at.loads[f.id := Loaded], if f.isLocal then at.local + p.records else at.local)
  }

  ghost function FeedStep(im: Importer, req: Request, f: Feed, at: Progress): Progress
    requires Normal(im.limits)
  {
    if at.Stopped? || !f.enabled then at
    else
      var err := FeedFailure(im, req, f, at.log);
      if err.Some? then
        if Fatal(req, f, err.value) then Stopped(err.value) else at.(loads := at.loads[f.id := NotLoaded(err.value)])
      else Joined(im, f, im.parse(f, ContentOf(req, f).value, im.limits.records), at)
  }

  ghost function RunTo(im: Importer, req: Request, n: nat): Progress
    requires Normal(im.limits) && n <= |req.feeds|
  {
    if n == 0 then Going([], map[], 0) else FeedStep(im, req, req.feeds[n - 1], RunTo(im, req, n - 1))
  }

  /** The list the candidate holds and which feeds it loaded, or nothing. The result
      has no argument for the published index: acceptance cannot depend on it. */
  ghost function CandidateResult(im: Importer, req: Request): Option<(seq<Claim>, map<string, FeedLoad>)>
    requires Normal(im.limits)
  {
    var end := RunTo(im, req, |req.feeds|);
    if end.Stopped? || ChargeOf(Flat(end.log)) > IndexCapacity(im.limits) then None else Some((end.log, end.loads))
  }

  lemma {:induction false} StaysStopped(im: Importer, req: Request, n: nat, m: nat)
    requires Normal(im.limits) && n <= m <= |req.feeds| && RunTo(im, req, n).Stopped?
    ensures RunTo(im, req, m).Stopped?
    decreases m
  {
    if n < m { StaysStopped(im, req, n, m - 1); }
  }

  // ---------- exactly which candidates are accepted ----------

  /** The content is there and parses. */
  predicate Readable(im: Importer, f: Feed, content: Option<Bytes>) {
    content.Some? && im.parse(f, content.value, im.limits.records).failure.None?
  }

  /** The claims of the readable feeds among the first n, in feed order. */
  function ReadLog(im: Importer, req: Request, n: nat): seq<Claim>
    requires n <= |req.feeds|
  {
    if n == 0 then []
    else
      var f := req.feeds[n - 1];
      ReadLog(im, req, n - 1) +
      if f.enabled && Readable(im, f, ContentOf(req, f))
      then LogOf(f, im.parse(f, ContentOf(req, f).value, im.limits.records).emits) else []
  }

  /** The records of the readable local feeds among the first n. */
  function ReadRecords(im: Importer, req: Request, n: nat): nat
    requires n <= |req.feeds|
  {
    if n == 0 then 0
    else
      var f := req.feeds[n - 1];
      ReadRecords(im, req, n - 1) +
      if f.enabled && f.isLocal && Readable(im, f, ContentOf(req, f))
      then im.parse(f, ContentOf(req, f).value, im.limits.records).records else 0
  }

  /** The candidate is for this feed's new bytes, or may not lose the feed. */
  predicate Needed(req: Request, f: Feed) {
    f.id == req.override || f.id in req.retained
  }

  /** The bytes, and what the parser emitted from them, fit beside the list so far. */
  ghost predicate Stageable(im: Importer, f: Feed, content: Bytes, log: seq<Claim>)
    requires Normal(im.limits)
  {
    && |content| <= im.maxBytes && Plus(Base(im), Cost(log)).used < im.limits.memoryBytes
    && Fits(im.limits, LogOf(f, im.parse(f, content, im.limits.records).emits), Plus(Base(im), Cost(log)))
  }

  /** The parsed feed can be merged into the list so far. */
  ghost predicate Mergeable(im: Importer, f: Feed, content: Bytes, log: seq<Claim>, local: nat)
    requires Normal(im.limits)
  {
    var p := im.parse(f, content, im.limits.records);
    && (f.isLocal ==> local + p.records <= im.limits.localRecords)
    && Fits(im.limits, log + LogOf(f, p.emits), Beside(im, LogOf(f, p.emits)))
  }

  /** A feed does not stand in the way of a candidate with this list before it. */
  ghost predicate Passes(im: Importer, req: Request, f: Feed, log: seq<Claim>, local: nat)
    requires Normal(im.limits)
  {
    var content := ContentOf(req, f);
    if content.None? then !Needed(req, f)
    else
      var failure := im.parse(f, content.value, im.limits.records).failure;
      && Stageable(im, f, content.value, log)
      && if failure.None? then Mergeable(im, f, content.value, log, local)
         else !Needed(req, f) && failure.value != Limit && failure.value != Cancelled
  }

  ghost predicate PassesAt(im: Importer, req: Request, k: nat)
    requires Normal(im.limits) && k < |req.feeds|
  {
    req.feeds[k].enabled ==> Passes(im, req, req.feeds[k], ReadLog(im, req, k), ReadRecords(im, req, k))
  }

  /** No enabled feed stands in the way, and the readable feeds' joint list is within the capacity. */
  ghost predicate Accepted(im: Importer, req: Request)
    requires Normal(im.limits)
  {
    AllPass(im, req, |req.feeds|) && ChargeOf(Flat(ReadLog(im, req, |req.feeds|))) <= IndexCapacity(im.limits)
  }

  /** What the candidate notes about a feed. */
  function NoteOf(im: Importer, req: Request, f: Feed): FeedLoad {
    if ContentOf(req, f).None? then NotLoaded(Missing)
    else
      match im.parse(f, ContentOf(req, f).value, im.limits.records).failure
      case None => Loaded
      case Some(why) => NotLoaded(why)
  }

  ghost predicate GoesOn(im: Importer, req: Request, n: nat, at: Progress)
    requires Normal(im.limits) && n <= |req.feeds|
  {
    at.Going? && at.log == ReadLog(im, req, n) && at.local == ReadRecords(im, req, n)
  }

  lemma FailurePasses(im: Importer, req: Request, f: Feed, log: seq<Claim>, local: nat)
    requires Normal(im.limits) && FeedFailure(im, req, f, log).Some?
    ensures var why := FeedFailure(im, req, f, log).value;
            && (Passes(im, req, f, log, local) <==> !Fatal(req, f, why))
            && (!Fatal(req, f, why) ==> !Readable(im, f, ContentOf(req, f)) && NoteOf(im, req, f) == NotLoaded(why))
  {
  }

  lemma ReadingPasses(im: Importer, req: Request, f: Feed, log: seq<Claim>, local: nat)
    requires Normal(im.limits) && FeedFailure(im, req, f, log).None?
    ensures Readable(im, f, ContentOf(req, f)) && NoteOf(im, req, f) == Loaded
    ensures Passes(im, req, f, log, local) <==> Mergeable(im, f, ContentOf(req, f).value, log, local)
  {
  }

  lemma ReadsMore(im: Importer, req: Request, k: nat)
    requires k < |req.feeds| && req.feeds[k].enabled
    ensures var f := req.feeds[k];
            if Readable(im, f, ContentOf(req, f)) then
              var p := im.parse(f, ContentOf(req, f).value, im.limits.records);
              && ReadLog(im, req, k + 1) == ReadLog(im, req, k) + LogOf(f, p.emits)
              && ReadRecords(im, req, k + 1) == ReadRecords(im, req, k) + if f.isLocal then p.records else 0
            else ReadLog(im, req, k + 1) == ReadLog(im, req, k) &&
                 ReadRecords(im, req, k + 1) == ReadRecords(im, req, k)
  {
    assert ReadLog(im, req, k) + [] == ReadLog(im, req, k);
  }

  lemma StepPasses(im: Importer, req: Request, k: nat, at: Progress)
    requires Normal(im.limits) && k < |req.feeds| && req.feeds[k].enabled && GoesOn(im, req, k, at)
    ensures var next := FeedStep(im, req, req.feeds[k], at);
            && (next.Going? <==> PassesAt(im, req, k))
            && (next.Going? ==> GoesOn(im, req, k + 1, next) &&
                                next.loads == at.loads[req.feeds[k].id := NoteOf(im, req, req.feeds[k])])
  {
    var f := req.feeds[k];
    ReadsMore(im, req, k);
    if FeedFailure(im, req, f, at.log).Some? {
      FailurePasses(im, req, f, at.log, at.local);
    } else {
      ReadingPasses(im, req, f, at.log, at.local);
    }
  }

  ghost predicate AllPass(im: Importer, req: Request, n: nat)
    requires Normal(im.limits) && n <= |req.feeds|
  {
    forall k :: 0 <= k < n ==> PassesAt(im, req, k)
  }

  lemma OneMorePasses(im: Importer, req: Request, n: nat)
    requires Normal(im.limits) && 0 < n <= |req.feeds|
    ensures AllPass(im, req, n) <==> AllPass(im, req, n - 1) && PassesAt(im, req, n - 1)
  {
  }

  lemma OffPasses(im: Importer, req: Request, k: nat)
    requires Normal(im.limits) && k < |req.feeds| && !req.feeds[k].enabled
    ensures PassesAt(im, req, k)
    ensures ReadLog(im, req, k + 1) == ReadLog(im, req, k) && ReadRecords(im, req, k + 1) == ReadRecords(im, req, k)
  {
    assert ReadLog(im, req, k) + [] == ReadLog(im, req, k);
  }

  /** The progress after k feeds, which goes on exactly while all of them pass. */
  ghost predicate Passing(im: Importer, req: Request, k: nat, at: Progress)
    requires Normal(im.limits) && k <= |req.feeds|
  {
    (at.Going? <==> AllPass(im, req, k)) && (at.Going? ==> GoesOn(im, req, k, at))
  }

  lemma PassingOn(im: Importer, req: Request, k: nat, at: Progress)
    requires Normal(im.limits) && k < |req.feeds| && Passing(im, req, k, at)
    ensures Passing(im, req, k + 1, FeedStep(im, req, req.feeds[k], at))
  {
    OneMorePasses(im, req, k + 1);
    if !req.feeds[k].enabled {
      OffPasses(im, req, k);
    } else if at.Going? {
      StepPasses(im, req, k, at);
    }
  }

  lemma {:induction false} RunPasses(im: Importer, req: Request, n: nat)
    requires Normal(im.limits) && n <= |req.feeds|
    ensures RunTo(im, req, n).Going? <==> AllPass(im, req, n)
    ensures RunTo(im, req, n).Going? ==> GoesOn(im, req, n, RunTo(im, req, n))
  {
    if n > 0 {
      RunPasses(im, req, n - 1);
      PassingOn(im, req, n - 1, RunTo(im, req, n - 1));
      OneFeedMore(im, req, n - 1);
    }
  }

  /** A candidate is accepted exactly if no enabled feed stands in its way and the joint list is within the
      capacity; it then holds just that list. */
  lemma AcceptedExactly(im: Importer, req: Request)
    requires Normal(im.limits)
    ensures CandidateResult(im, req).Some? <==> Accepted(im, req)
    ensures Accepted(im, req) ==> CandidateResult(im, req).value.0 == ReadLog(im, req, |req.feeds|)
  {
    RunPasses(im, req, |req.feeds|);
  }

  // ---------- the builder's loop ----------

  /** What the loop has built, against the list it stands for. */
  ghost predicate Building(im: Importer, b: Builder, budget: Budget, parts: seq<seq<Claim>>, orders: seq<seq<string>>)
    requires Normal(im.limits)
    reads b, budget
  {
    && IteratesAll(parts, orders)
    && b.View() == Staged(parts, orders)
    && Exact(LedgerOf(budget), Concat(parts), Base(im))
    && Fits(im.limits, Concat(parts), Base(im))
    && budget.limit == im.limits.memoryBytes
  }

  lemma StagedRepresents(parts: seq<seq<Claim>>, orders: seq<seq<string>>)
    requires IteratesAll(parts, orders)
    ensures Represents(Staged(parts, orders), Concat(parts))
  {
    var log := MergeLogs(parts, orders);
    StagedIsMergeLog(parts, orders);
    PartRepresents(log);
    StagedFlat(parts, orders);
    forall d ensures PrimaryOf(Concat(parts), d) == PrimaryOf(log, d) { StagedPrimary(parts, orders, d); }
    SameMeaning(Staged(parts, orders), log, Concat(parts));
  }

  lemma StagedFollows(parts: seq<seq<Claim>>, orders: seq<seq<string>>)
    requires IteratesAll(parts, orders)
    ensures Follows(Staged(parts, orders), Concat(parts))
  {
    StagedRepresents(parts, orders);
  }

  lemma PartIterated(parts: seq<seq<Claim>>, orders: seq<seq<string>>, emitted: seq<Claim>, order: seq<string>)
    requires IteratesAll(parts, orders) && Iterates(PartOf(emitted), order)
    ensures IteratesAll(parts + [emitted], orders + [order])
    ensures Staged(parts + [emitted], orders + [order]) ==
            BuildFrom(Staged(parts, orders), MergeLog(PartOf(emitted), order))
    ensures Concat(parts + [emitted]) == Concat(parts) + emitted
  {
  }

  /** The part and the list are charged together while they are merged; the part's
      claims are not counted twice. */
  lemma BesideThePart(im: Importer, log: seq<Claim>, emitted: seq<Claim>, before: Ledger, after: Ledger)
    requires Normal(im.limits)
    requires Exact(before, log, Base(im)) && Fits(im.limits, log, Base(im))
    requires Exact(after, emitted, before) && Fits(im.limits, emitted, before)
    ensures ExactLedger(im.limits, Some(Ledger(after.used, before.claims)), log, Beside(im, emitted))
  {
  }

  lemma ReleaseThePart(im: Importer, log: seq<Claim>, emitted: seq<Claim>, merged: Ledger, before: Ledger,
                       after: Ledger)
    requires Normal(im.limits)
    requires Exact(merged, log, Beside(im, emitted)) && Fits(im.limits, log, Beside(im, emitted))
    requires Exact(after, emitted, before)
    ensures Exact(Ledger(merged.used - (after.used - before.used), merged.claims), log, Base(im))
    ensures Fits(im.limits, log, Base(im))
  {
  }

  lemma MergeOfPart(l: Limits, log: seq<Claim>, a: Ledger, emitted: seq<Claim>, order: seq<string>, base: Ledger)
    requires ExactLedger(l, Some(a), log, base) && Iterates(PartOf(emitted), order)
    ensures ExactLedger(l, ChargedRun(l, log, a, MergeLog(PartOf(emitted), order)), log + emitted, base)
  {
    PartRepresents(emitted);
    MergeIsExact(l, log, a, PartOf(emitted), emitted, order, base);
  }

  /** Merging a part and releasing its charge leaves the accounts exact for the longer list. */
  lemma JoinIsExact(im: Importer, log: seq<Claim>, emitted: seq<Claim>, order: seq<string>, before: Ledger,
                    after: Ledger, r: Option<Ledger>)
    requires Normal(im.limits)
    requires Exact(before, log, Base(im)) && Fits(im.limits, log, Base(im))
    requires Exact(after, emitted, before) && Fits(im.limits, emitted, before)
    requires Iterates(PartOf(emitted), order)
    requires r == ChargedRun(im.limits, log, Ledger(after.used, before.claims), MergeLog(PartOf(emitted), order))
    ensures r.Some? <==> Fits(im.limits, log + emitted, Beside(im, emitted))
    ensures r.Some? ==>
              Exact(Ledger(r.value.used - (after.used - before.used), r.value.claims), log + emitted, Base(im)) &&
                        Fits(im.limits, log + emitted, Base(im))
  {
    BesideThePart(im, log, emitted, before, after);
    MergeOfPart(im.limits, log, Ledger(after.used, before.claims), emitted, order, Beside(im, emitted));
    if r.Some? { ReleaseThePart(im, log + emitted, emitted, r.value, before, after); }
  }

  /** A feed that parsed is merged, and its staging charge released. */
  method JoinPart(im: Importer, part: Index, before: int, claimsBefore: int, b: Builder, budget: Budget,
                  ghost emitted: seq<Claim>,
                  ghost parts: seq<seq<Claim>>, ghost orders: seq<seq<string>>)
    returns (err: Option<Failure>, ghost order: seq<string>)
    requires Normal(im.limits) && budget.limit == im.limits.memoryBytes && part == PartOf(emitted)
    requires IteratesAll(parts, orders) && b.View() == Staged(parts, orders)
    requires Exact(Ledger(before, claimsBefore), Concat(parts), Base(im)) && Fits(im.limits, Concat(parts), Base(im))
    requires Exact(LedgerOf(budget), emitted, Ledger(before, claimsBefore))
    requires Fits(im.limits, emitted, Ledger(before, claimsBefore))
    modifies b, budget
    ensures err == if Fits(im.limits, Concat(parts) + emitted, Beside(im, emitted)) then None else Some(Limit)
    ensures err.None? ==> Building(im, b, budget, parts + [emitted], orders + [order])
  {
    ghost var after := LedgerOf(budget);
    var stageCharge := budget.used - before;
    budget.claims := claimsBefore;
    StagedFollows(parts, orders);
    err, order := MergePart(im.limits, b, budget, part, Concat(parts));
    JoinIsExact(im, Concat(parts), emitted, order, Ledger(before, claimsBefore), after,
                ChargedRun(im.limits, Concat(parts), Ledger(after.used, claimsBefore), MergeLog(part, order)));
    if err.None? {
      PartIterated(parts, orders, emitted, order);
      budget.used := budget.used - stageCharge;
    }
  }

  /** Opens and parses one feed; on a failure the accounts are as before. */
  method ReadFeed(im: Importer, req: Request, f: Feed, budget: Budget, ghost log: seq<Claim>)
    returns (failure: Option<Failure>, part: Index, records: nat)
    requires im.Valid() && budget.limit == im.limits.memoryBytes
    requires Exact(LedgerOf(budget), log, Base(im)) && Fits(im.limits, log, Base(im))
    modifies budget
    ensures failure == FeedFailure(im, req, f, log)
    ensures failure.Some? ==> LedgerOf(budget) == old(LedgerOf(budget))
    ensures failure.None? ==>
              && ContentOf(req, f).Some?
              && var p := im.parse(f, ContentOf(req, f).value, im.limits.records);
                 records == p.records && part == PartOf(LogOf(f, p.emits)) &&
                 Exact(LedgerOf(budget), LogOf(f, p.emits), old(LedgerOf(budget)))
  {
    part, records := EMPTY_INDEX, 0;
    var before, claimsBefore := budget.used, budget.claims;
    StartsWithin(im, log, LedgerOf(budget));
    var content := ContentOf(req, f);
    if content.None? { return Some(Missing), part, records; }
    var builder;
    builder, records, failure := ParseFile(im, f, content.value, budget, im.limits.records);
    if failure.Some? {
      budget.used, budget.claims := before, claimsBefore;
      return;
    }
    part := builder.Build();
  }

  /** Parsing succeeded, so the part fitted beside the list. */
  lemma ParsedFits(im: Importer, req: Request, f: Feed, log: seq<Claim>, at: Ledger)
    requires Normal(im.limits) && FeedFailure(im, req, f, log).None? && ContentOf(req, f).Some?
    requires Exact(at, log, Base(im))
    ensures Fits(im.limits, LogOf(f, im.parse(f, ContentOf(req, f).value, im.limits.records).emits), at)
  {
  }

  lemma StepSkips(im: Importer, req: Request, f: Feed, log: seq<Claim>, loads: map<string, FeedLoad>, local: nat)
    requires Normal(im.limits) && f.enabled && FeedFailure(im, req, f, log).Some?
    ensures var why := FeedFailure(im, req, f, log).value;
            FeedStep(im, req, f, Going(log, loads, local)) ==
            if Fatal(req, f, why) then Stopped(why) else Going(log, loads[f.id := NotLoaded(why)], local)
  {
  }

  lemma StepJoins(im: Importer, req: Request, f: Feed, log: seq<Claim>, loads: map<string, FeedLoad>, local: nat)
    requires Normal(im.limits) && f.enabled && FeedFailure(im, req, f, log).None? && ContentOf(req, f).Some?
    ensures var p := im.parse(f, ContentOf(req, f).value, im.limits.records);
            FeedStep(im, req, f, Going(log, loads, local)) ==
            if NoRoom(im, f, p.records, local, log, LogOf(f, p.emits)) then Stopped(Limit)
            else Going(log + LogOf(f, p.emits), loads[f.id := Loaded], if f.isLocal then local + p.records else local)
  {
  }

  /** The parsed feed has too many records or claims to join. */
  ghost predicate NoRoom(im: Importer, f: Feed, records: nat, local: nat, log: seq<Claim>, emitted: seq<Claim>)
    requires Normal(im.limits)
  {
    (f.isLocal && records > im.limits.localRecords - local) || !Fits(im.limits, log + emitted, Beside(im, emitted))
  }

  /** One turn of the loop: open, parse and merge one enabled feed, or skip it. */
  method TakeFeed(im: Importer, req: Request, f: Feed, b: Builder, budget: Budget, loads: map<string, FeedLoad>,
                  local: nat, ghost parts: seq<seq<Claim>>, ghost orders: seq<seq<string>>)
    returns (err: Option<Failure>, loads': map<string, FeedLoad>, local': nat, ghost parts': seq<seq<Claim>>,
             ghost orders': seq<seq<string>>)
    requires im.Valid() && f.enabled && Building(im, b, budget, parts, orders)
    modifies b, budget
    ensures FeedStep(im, req, f, Going(Concat(parts), loads, local)) ==
            if err.Some? then Stopped(err.value) else Going(Concat(parts'), loads', local')
    ensures err.None? ==> Building(im, b, budget, parts', orders')
  {
    err, loads', local', parts', orders' := None, loads, local, parts, orders;
    var before, claimsBefore := budget.used, budget.claims;
    var failure, part, records := ReadFeed(im, req, f, budget, Concat(parts));
    if failure.Some? {
      StepSkips(im, req, f, Concat(parts), loads, local);
      err, loads' := Skip(req, f, failure.value, loads);
      return;
    }
    err, loads', local', parts', orders' := JoinFeed(im, req, f, part, records, before, claimsBefore, b, budget, loads,
                                                     local, parts, orders);
  }

  /** A feed that was read joins the candidate. */
  method JoinFeed(im: Importer, req: Request, f: Feed, part: Index, records: nat, before: int, claimsBefore: int,
                  b: Builder, budget: Budget, loads: map<string, FeedLoad>, local: nat,
                  ghost parts: seq<seq<Claim>>, ghost orders: seq<seq<string>>)
    returns (err: Option<Failure>, loads': map<string, FeedLoad>, local': nat, ghost parts': seq<seq<Claim>>,
             ghost orders': seq<seq<string>>)
    requires Normal(im.limits) && budget.limit == im.limits.memoryBytes && f.enabled
    requires IteratesAll(parts, orders) && b.View() == Staged(parts, orders)
    requires Exact(Ledger(before, claimsBefore), Concat(parts), Base(im)) && Fits(im.limits, Concat(parts), Base(im))
    requires FeedFailure(im, req, f, Concat(parts)).None? && ContentOf(req, f).Some?
    requires var p := im.parse(f, ContentOf(req, f).value, im.limits.records);
             records == p.records && part == PartOf(LogOf(f, p.emits)) &&
             Exact(LedgerOf(budget), LogOf(f, p.emits), Ledger(before, claimsBefore))
    modifies b, budget
    ensures FeedStep(im, req, f, Going(Concat(parts), loads, local)) ==
            if err.Some? then Stopped(err.value) else Going(Concat(parts'), loads', local')
    ensures err.None? ==> Building(im, b, budget, parts', orders')
  {
    loads', local', parts', orders' := loads, local, parts, orders;
    ghost var emitted := LogOf(f, im.parse(f, ContentOf(req, f).value, im.limits.records).emits);
    StepJoins(im, req, f, Concat(parts), loads, local);
    ParsedFits(im, req, f, Concat(parts), Ledger(before, claimsBefore));
    ghost var order;
    err, local', order := TakeParsed(im, f, part, records, before, claimsBefore, b, budget, local, emitted, parts,
                                     orders);
    if err.Some? { return; }
    PartJoined(parts, orders, emitted, order);
    parts', orders' := parts + [emitted], orders + [order];
    loads' := loads[f.id := Loaded];
  }

  lemma PartJoined(parts: seq<seq<Claim>>, orders: seq<seq<string>>, emitted: seq<Claim>, order: seq<string>)
    requires |orders| == |parts|
    ensures Concat(parts + [emitted]) == Concat(parts) + emitted
  {
  }

  /** Counts a local feed's records and merges the part. */
  method TakeParsed(im: Importer, f: Feed, part: Index, records: nat, before: int, claimsBefore: int, b: Builder,
                    budget: Budget, local: nat,
                    ghost emitted: seq<Claim>, ghost parts: seq<seq<Claim>>, ghost orders: seq<seq<string>>)
    returns (err: Option<Failure>, local': nat, ghost order: seq<string>)
    requires Normal(im.limits) && budget.limit == im.limits.memoryBytes && part == PartOf(emitted)
    requires IteratesAll(parts, orders) && b.View() == Staged(parts, orders)
    requires Exact(Ledger(before, claimsBefore), Concat(parts), Base(im)) && Fits(im.limits, Concat(parts), Base(im))
    requires Exact(LedgerOf(budget), emitted, Ledger(before, claimsBefore))
    requires Fits(im.limits, emitted, Ledger(before, claimsBefore))
    modifies b, budget
    ensures err == if NoRoom(im, f, records, local, Concat(parts), emitted) then Some(Limit) else None
    ensures err.None? ==>
              local' == (if f.isLocal then local + records else local) &&
              Building(im, b, budget, parts + [emitted], orders + [order])
  {
    local', order := local, [];
    if f.isLocal {
      if records > im.limits.localRecords - local { return Some(Limit), local', order; }
      local' := local + records;
    }
    err, order := JoinPart(im, part, before, claimsBefore, b, budget, emitted, parts, orders);
  }

  lemma StartsWithin(im: Importer, log: seq<Claim>, at: Ledger)
    requires Normal(im.limits) && Exact(at, log, Base(im)) && Fits(im.limits, log, Base(im))
    ensures 0 <= at.claims <= im.limits.claims && at == Plus(Base(im), Cost(log))
  {
  }

  /** A feed that could not be read is fatal or leaves a note. */
  method Skip(req: Request, f: Feed, why: Failure, loads: map<string, FeedLoad>)
    returns (err: Option<Failure>, loads': map<string, FeedLoad>)
    ensures err == if Fatal(req, f, why) then Some(why) else None
    ensures loads' == if Fatal(req, f, why) then loads else loads[f.id := NotLoaded(why)]
  {
    if f.id == req.override || f.id in req.retained || why == Limit || why == Cancelled { return Some(why), loads; }
    return None, loads[f.id := NotLoaded(why)];
  }

  /** Takes every enabled feed in order; the context may end before the one at position interrupt. */
  method TakeAll(im: Importer, req: Request, b: Builder, budget: Budget, interrupt: Option<nat>)
    returns (err: Option<Failure>, loads: map<string, FeedLoad>, local: nat, ghost parts: seq<seq<Claim>>,
             ghost orders: seq<seq<string>>)
    requires im.Valid() && Building(im, b, budget, [], [])
    modifies b, budget
    ensures err.None? ==>
              Building(im, b, budget, parts, orders) &&
              RunTo(im, req, |req.feeds|) == Going(Concat(parts), loads, local)
    ensures err.Some? ==> RunTo(im, req, |req.feeds|).Stopped? || (err == Some(Cancelled) && interrupt.Some?)
  {
    err, loads, local, parts, orders := None, map[], 0, [], [];
    for i := 0 to |req.feeds|
      invariant Building(im, b, budget, parts, orders)
      invariant RunTo(im, req, i) == Going(Concat(parts), loads, local)
    {
      OneFeedMore(im, req, i);
      if req.feeds[i].enabled {
        if interrupt == Some(i) {
          err := Some(Cancelled);
          return;
        }
        err, loads, local, parts, orders := TakeFeed(im, req, req.feeds[i], b, budget, loads, local, parts, orders);
        if err.Some? {
          StaysStopped(im, req, i + 1, |req.feeds|);
          return;
        }
      }
    }
    err := None;
  }

  /** Builds a candidate. If the context does not end first, the outcome is CandidateResult,
      whatever index is published. */
  method Candidate(im: Importer, req: Request, published: Index, interrupt: Option<nat>)
    returns (err: Option<Failure>, ix: Index, loads: map<string, FeedLoad>, ghost log: seq<Claim>)
    requires im.Valid() && Shaped(published) && ChargeOf(ClaimSet(published)) <= IndexCapacity(im.limits)
    ensures err.None? ==> Accepted(im, req) && log == ReadLog(im, req, |req.feeds|) && Represents(ix, log)
    ensures err.None? ==> CandidateResult(im, req) == Some((log, loads))
    ensures err.Some? ==> !Accepted(im, req) || (err == Some(Cancelled) && interrupt.Some?)
    ensures err.Some? ==> CandidateResult(im, req).None? || (err == Some(Cancelled) && interrupt.Some?)
  {
    ix, loads, log := EMPTY_INDEX, map[], [];
    AcceptedExactly(im, req);
    var b := new Builder();
    var budget := NewBudget(im.limits, published);
    FreshIsExact(im, published);
    NothingBuilt();
    var local;
    ghost var parts, orders;
    err, loads, local, parts, orders := TakeAll(im, req, b, budget, interrupt);
    if err.Some? { return; }
    log := Concat(parts);
    ix := b.Build();
    StagedRepresents(parts, orders);
    var charge := IndexCharge(ix);
    if charge > IndexCapacity(im.limits) { return Some(Limit), ix, loads, log; }
    if interrupt == Some(|req.feeds|) { return Some(Cancelled), ix, loads, log; }
  }

  lemma OneFeedMore(im: Importer, req: Request, i: nat)
    requires Normal(im.limits) && i < |req.feeds|
    ensures RunTo(im, req, i + 1) == FeedStep(im, req, req.feeds[i], RunTo(im, req, i))
    ensures !req.feeds[i].enabled ==> RunTo(im, req, i + 1) == RunTo(im, req, i)
  {
  }

  lemma NothingBuilt()
    ensures Staged([], []) == EMPTY_INDEX && IteratesAll([], [])
  {
  }

  /** A fresh budget starts the same, whatever index is published. */
  lemma FreshIsExact(im: Importer, published: Index)
    requires Normal(im.limits) && Shaped(published) && ChargeOf(ClaimSet(published)) <= IndexCapacity(im.limits)
    ensures Opening(im.limits, published) == Base(im)
    ensures Exact(Opening(im.limits, published), Concat([]), Base(im)) && Fits(im.limits, Concat([]), Base(im))
  {
  }
}
