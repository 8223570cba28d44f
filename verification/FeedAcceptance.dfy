/** What an accepted candidate holds, feed by feed, and what cannot stand in its way. */
module FeedAcceptance {
  import opened Octets
  import opened Catalog
  import opened Options
  import opened BlockIndex
  import opened StagedBuild
  import opened ImportBudget
  import opened FeedIngest
  import opened FeedOrder
  import opened CandidateIndex

  // ---------- the notes, and feeds that cannot be read ----------

  /** An accepted candidate has a note for each enabled feed, and for no other. */
  ghost predicate Noted(im: Importer, req: Request, n: nat, loads: map<string, FeedLoad>)
    requires n <= |req.feeds|
  {
    && (forall k :: 0 <= k < n && req.feeds[k].enabled ==>
          req.feeds[k].id in loads && loads[req.feeds[k].id] == NoteOf(im, req, req.feeds[k]))
    && (forall id :: id in loads ==> exists k :: 0 <= k < n && req.feeds[k].enabled && req.feeds[k].id == id)
  }

  /** One more enabled feed is noted, over no other's note. */
  lemma NotesMore(im: Importer, req: Request, n: nat, loads: map<string, FeedLoad>)
    requires 0 < n <= |req.feeds| && DistinctIds(req.feeds) && Noted(im, req, n - 1, loads)
    ensures var f := req.feeds[n - 1];
            Noted(im, req, n, if f.enabled then loads[f.id := NoteOf(im, req, f)] else loads)
  {
    var f := req.feeds[n - 1];
    var all := if f.enabled then loads[f.id := NoteOf(im, req, f)] else loads;
    forall k | 0 <= k < n && req.feeds[k].enabled
      ensures req.feeds[k].id in all && all[req.feeds[k].id] == NoteOf(im, req, req.feeds[k])
    {
      assert k < n - 1 ==> req.feeds[k].id != f.id;
    }
  }

  lemma GoingBefore(im: Importer, req: Request, n: nat)
    requires Normal(im.limits) && 0 < n <= |req.feeds| && RunTo(im, req, n).Going?
    ensures RunTo(im, req, n - 1).Going?
  {
    OneFeedMore(im, req, n - 1);
  }

  lemma StepLoads(im: Importer, req: Request, k: nat, at: Progress, next: Progress)
    requires Normal(im.limits) && k < |req.feeds| && GoesOn(im, req, k, at)
    requires next == FeedStep(im, req, req.feeds[k], at) && next.Going?
    ensures var f := req.feeds[k];
            next.loads == if f.enabled then at.loads[f.id := NoteOf(im, req, f)] else at.loads
  {
    if req.feeds[k].enabled { StepPasses(im, req, k, at); }
  }

  lemma LoadsMore(im: Importer, req: Request, n: nat)
    requires Normal(im.limits) && 0 < n <= |req.feeds| && RunTo(im, req, n).Going?
    ensures RunTo(im, req, n - 1).Going?
    ensures var f, before := req.feeds[n - 1], RunTo(im, req, n - 1).loads;
            RunTo(im, req, n).loads == if f.enabled then before[f.id := NoteOf(im, req, f)] else before
  {
    GoingBefore(im, req, n);
    RunPasses(im, req, n - 1);
    OneFeedMore(im, req, n - 1);
    StepLoads(im, req, n - 1, RunTo(im, req, n - 1), RunTo(im, req, n));
  }

  lemma {:induction false} NotesExactly(im: Importer, req: Request, n: nat)
    requires Normal(im.limits) && n <= |req.feeds| && DistinctIds(req.feeds) && RunTo(im, req, n).Going?
    ensures Noted(im, req, n, RunTo(im, req, n).loads)
  {
    if n > 0 {
      LoadsMore(im, req, n);
      NotesExactly(im, req, n - 1);
      NotesMore(im, req, n, RunTo(im, req, n - 1).loads);
    }
  }

  function SwitchedOff(req: Request, k: nat): Request
    requires k < |req.feeds|
  {
    req.(feeds := req.feeds[k := req.feeds[k].(enabled := false)])
  }

  /** A disabled feed and one that cannot be read add nothing. */
  lemma AddsNothing(im: Importer, req: Request, k: nat)
    requires k < |req.feeds| && !(req.feeds[k].enabled && Readable(im, req.feeds[k], ContentOf(req, req.feeds[k])))
    ensures ReadLog(im, req, k + 1) == ReadLog(im, req, k) && ReadRecords(im, req, k + 1) == ReadRecords(im, req, k)
  {
    assert ReadLog(im, req, k) + [] == ReadLog(im, req, k);
  }

  lemma AddsTheSame(im: Importer, a: Request, b: Request, k: nat)
    requires k < |a.feeds| && k < |b.feeds| && a.feeds[k] == b.feeds[k] && a == b.(feeds := a.feeds)
    requires ReadLog(im, a, k) == ReadLog(im, b, k) && ReadRecords(im, a, k) == ReadRecords(im, b, k)
    ensures ReadLog(im, a, k + 1) == ReadLog(im, b, k + 1) && ReadRecords(im, a, k + 1) == ReadRecords(im, b, k + 1)
  {
    var f := a.feeds[k];
    assert ContentOf(a, f) == ContentOf(b, f);
    if f.enabled && Readable(im, f, ContentOf(a, f)) {
      ReadsMore(im, a, k);
      ReadsMore(im, b, k);
    } else {
      AddsNothing(im, a, k);
      AddsNothing(im, b, k);
    }
  }

  lemma ReadsTheSameNext(im: Importer, req: Request, k: nat, n: nat)
    requires k < |req.feeds| && n < |req.feeds| && !Readable(im, req.feeds[k], ContentOf(req, req.feeds[k]))
    requires ReadLog(im, SwitchedOff(req, k), n) == ReadLog(im, req, n)
    requires ReadRecords(im, SwitchedOff(req, k), n) == ReadRecords(im, req, n)
    ensures ReadLog(im, SwitchedOff(req, k), n + 1) == ReadLog(im, req, n + 1)
    ensures ReadRecords(im, SwitchedOff(req, k), n + 1) == ReadRecords(im, req, n + 1)
  {
    if n == k {
      AddsNothing(im, req, k);
      AddsNothing(im, SwitchedOff(req, k), k);
    } else {
      AddsTheSame(im, SwitchedOff(req, k), req, n);
    }
  }

  predicate Carries(p: nat -> bool, i: nat) {
    i > 0 && (p(i - 1) ==> p(i))
  }

  lemma {:induction false} Induct(p: nat -> bool, n: nat)
    requires p(0) && forall i: nat :: 0 < i <= n ==> Carries(p, i)
    ensures p(n)
  {
    if n > 0 {
      Induct(p, n - 1);
      assert Carries(p, n);
    }
  }

  /** The first n feeds give the same list and as many records. */
  predicate SameReads(im: Importer, a: Request, b: Request, n: nat) {
    n <= |a.feeds| && n <= |b.feeds| ==>
      ReadLog(im, a, n) == ReadLog(im, b, n) && ReadRecords(im, a, n) == ReadRecords(im, b, n)
  }

  lemma ReadsNothing(im: Importer, a: Request, b: Request)
    ensures SameReads(im, a, b, 0)
  {
  }

  lemma ReadsCarry(im: Importer, req: Request, k: nat, n: nat)
    requires k < |req.feeds| && 0 < n <= |req.feeds| && !Readable(im, req.feeds[k], ContentOf(req, req.feeds[k]))
    ensures SameReads(im, SwitchedOff(req, k), req, n - 1) ==> SameReads(im, SwitchedOff(req, k), req, n)
  {
    if SameReads(im, SwitchedOff(req, k), req, n - 1) { ReadsTheSameNext(im, req, k, n - 1); }
  }

  lemma ReadsTheSame(im: Importer, req: Request, k: nat, n: nat)
    requires k < |req.feeds| && n <= |req.feeds| && !Readable(im, req.feeds[k], ContentOf(req, req.feeds[k]))
    ensures ReadLog(im, SwitchedOff(req, k), n) == ReadLog(im, req, n)
    ensures ReadRecords(im, SwitchedOff(req, k), n) == ReadRecords(im, req, n)
  {
    var off := SwitchedOff(req, k);
    var same := (i: nat) => SameReads(im, off, req, i);
    forall i: nat | 0 < i <= n ensures Carries(same, i) { ReadsCarry(im, req, k, i); }
    ReadsNothing(im, off, req);
    Induct(same, n);
    assert SameReads(im, off, req, n);
  }

  lemma PassesTheSame(im: Importer, req: Request, k: nat, n: nat)
    requires Normal(im.limits) && k < |req.feeds| && n < |req.feeds|
    requires !Readable(im, req.feeds[k], ContentOf(req, req.feeds[k])) && PassesAt(im, req, k)
    ensures PassesAt(im, SwitchedOff(req, k), n) <==> PassesAt(im, req, n)
  {
    ReadsTheSame(im, req, k, n);
    assert ContentOf(SwitchedOff(req, k), req.feeds[n]) == ContentOf(req, req.feeds[n]);
  }

  /** A feed that is not needed and whose bytes are missing or malformed, but no larger than the limits
      allow, changes nothing but its own note: without it the candidate has the same acceptance, list
      and other notes. */
  lemma UnreadableChangesNothing(im: Importer, req: Request, k: nat)
    requires Normal(im.limits) && DistinctIds(req.feeds) && k < |req.feeds| && req.feeds[k].enabled
    requires !Readable(im, req.feeds[k], ContentOf(req, req.feeds[k])) && PassesAt(im, req, k)
    ensures var f, off := req.feeds[k], CandidateResult(im, SwitchedOff(req, k));
            CandidateResult(im, req) ==
            if off.None? then None else Some((off.value.0, off.value.1[f.id := NoteOf(im, req, f)]))
  {
    var off := SwitchedOff(req, k);
    assert AllPass(im, off, |req.feeds|) <==> AllPass(im, req, |req.feeds|) by {
      forall n | 0 <= n < |req.feeds| ensures PassesAt(im, off, n) <==> PassesAt(im, req, n) {
        PassesTheSame(im, req, k, n);
      }
    }
    ReadsTheSame(im, req, k, |req.feeds|);
    AcceptedExactly(im, req);
    AcceptedExactly(im, off);
    if Accepted(im, req) { SameOtherNotes(im, req, k); }
  }

  /** The notes are determined. */
  lemma OneSetOfNotes(im: Importer, req: Request, a: map<string, FeedLoad>, b: map<string, FeedLoad>)
    requires Noted(im, req, |req.feeds|, a) && Noted(im, req, |req.feeds|, b)
    ensures a == b
  {
    assert a.Keys == b.Keys;
  }

  lemma NoteOfOther(im: Importer, req: Request, k: nat, n: nat)
    requires DistinctIds(req.feeds) && k < |req.feeds| && n < |req.feeds| && n != k
    ensures SwitchedOff(req, k).feeds[n] == req.feeds[n] && req.feeds[n].id != req.feeds[k].id
    ensures NoteOf(im, SwitchedOff(req, k), req.feeds[n]) == NoteOf(im, req, req.feeds[n])
  {
    assert ContentOf(SwitchedOff(req, k), req.feeds[n]) == ContentOf(req, req.feeds[n]);
  }

  lemma NotesOfSwitchedOn(im: Importer, req: Request, k: nat, loads: map<string, FeedLoad>)
    requires DistinctIds(req.feeds) && k < |req.feeds| && req.feeds[k].enabled
    requires Noted(im, SwitchedOff(req, k), |req.feeds|, loads)
    ensures Noted(im, req, |req.feeds|, loads[req.feeds[k].id := NoteOf(im, req, req.feeds[k])])
  {
    var off, f := SwitchedOff(req, k), req.feeds[k];
    var all := loads[f.id := NoteOf(im, req, f)];
    forall n | 0 <= n < |req.feeds| && req.feeds[n].enabled
      ensures req.feeds[n].id in all && all[req.feeds[n].id] == NoteOf(im, req, req.feeds[n])
    {
      if n != k { NoteOfOther(im, req, k, n); }
    }
    forall id | id in all ensures exists n :: 0 <= n < |req.feeds| && req.feeds[n].enabled && req.feeds[n].id == id {
      if id in loads {
        var n :| 0 <= n < |off.feeds| && off.feeds[n].enabled && off.feeds[n].id == id;
        assert n != k;
        NoteOfOther(im, req, k, n);
      } else {
        assert req.feeds[k].id == id;
      }
    }
  }

  lemma SameOtherNotes(im: Importer, req: Request, k: nat)
    requires Normal(im.limits) && DistinctIds(req.feeds) && k < |req.feeds| && req.feeds[k].enabled
    requires CandidateResult(im, req).Some? && CandidateResult(im, SwitchedOff(req, k)).Some?
    ensures CandidateResult(im, req).value.1 ==
            CandidateResult(im, SwitchedOff(req, k)).value.1[req.feeds[k].id := NoteOf(im, req, req.feeds[k])]
  {
    var off := SwitchedOff(req, k);
    var loads := CandidateResult(im, off).value.1;
    NotesExactly(im, req, |req.feeds|);
    NotesExactly(im, off, |req.feeds|);
    NotesOfSwitchedOn(im, req, k, loads);
    OneSetOfNotes(im, req, CandidateResult(im, req).value.1, loads[req.feeds[k].id := NoteOf(im, req, req.feeds[k])]);
  }

  /** The feed that a candidate is for is loaded, if it is enabled. */
  lemma OverrideIsLoaded(im: Importer, req: Request, i: nat)
    requires Normal(im.limits) && DistinctIds(req.feeds) && CandidateResult(im, req).Some?
    requires i < |req.feeds| && req.feeds[i].enabled && req.feeds[i].id == req.override
    ensures req.override in CandidateResult(im, req).value.1
    ensures CandidateResult(im, req).value.1[req.override].Loaded?
  {
    AcceptedExactly(im, req);
    assert PassesAt(im, req, i);
    NotesExactly(im, req, |req.feeds|);
  }

  // ---------- memory ----------

  /** What the parser emits from a feed's bytes, whether or not it fails in the end. */
  function EmittedOf(im: Importer, req: Request, f: Feed): seq<Claim>
    requires ContentOf(req, f).Some?
  {
    LogOf(f, im.parse(f, ContentOf(req, f).value, im.limits.records).emits)
  }

  /** The joint list and each feed's own are charged no more than one share of the memory. */
  ghost predicate WithinCapacity(im: Importer, req: Request)
    requires Normal(im.limits)
  {
    && ChargeOf(Flat(ReadLog(im, req, |req.feeds|))) <= IndexCapacity(im.limits)
    && forall f :: f in req.feeds && f.enabled && ContentOf(req, f).Some? ==>
         ChargeOf(Flat(EmittedOf(im, req, f))) <= IndexCapacity(im.limits)
  }

  ghost predicate CountsFit(l: Limits, log: seq<Claim>, claims: nat) {
    |DomainsOf(Flat(log))| <= l.domains && claims + |Flat(log)| <= l.claims
  }

  /** A feed does not stand in the way, as far as sizes, counts, records and failures go. */
  ghost predicate PassesByCount(im: Importer, req: Request, k: nat)
    requires k < |req.feeds|
  {
    var f, log := req.feeds[k], ReadLog(im, req, k);
    f.enabled ==>
      if ContentOf(req, f).None? then !Needed(req, f)
      else
        var p, emitted := im.parse(f, ContentOf(req, f).value, im.limits.records), EmittedOf(im, req, f);
        && |ContentOf(req, f).value| <= im.maxBytes && CountsFit(im.limits, emitted, |Flat(log)|)
        && if p.failure.None? then
             && CountsFit(im.limits, log + emitted, 0)
             && (f.isLocal ==> ReadRecords(im, req, k) + p.records <= im.limits.localRecords)
           else !Needed(req, f) && p.failure.value != Limit && p.failure.value != Cancelled
  }

  predicate PrefixAt(logs: seq<seq<Claim>>, i: nat) {
    0 < i < |logs| && logs[i - 1] <= logs[i]
  }

  lemma {:induction false} Grows(logs: seq<seq<Claim>>, k: nat)
    requires k < |logs| && forall i :: k < i < |logs| ==> PrefixAt(logs, i)
    ensures logs[k] <= logs[|logs| - 1]
    decreases |logs|
  {
    if k < |logs| - 1 {
      var rest := logs[..|logs| - 1];
      forall i | k < i < |rest| ensures PrefixAt(rest, i) { assert PrefixAt(logs, i); }
      Grows(rest, k);
      assert PrefixAt(logs, |logs| - 1);
    }
  }

  /** The lists of the first feeds, of none to all. */
  function ReadLogs(im: Importer, req: Request): seq<seq<Claim>> {
    seq(|req.feeds| + 1, i requires 0 <= i <= |req.feeds| => ReadLog(im, req, i))
  }

  lemma ReadLogsGrow(im: Importer, req: Request, n: nat)
    requires 0 < n <= |req.feeds|
    ensures PrefixAt(ReadLogs(im, req), n)
  {
    assert ReadLog(im, req, n - 1) <= ReadLog(im, req, n);
  }

  lemma ReadCostsGrow(im: Importer, req: Request, k: nat)
    requires k <= |req.feeds|
    ensures ChargeOf(Flat(ReadLog(im, req, k))) <= ChargeOf(Flat(ReadLog(im, req, |req.feeds|)))
  {
    var logs := ReadLogs(im, req);
    assert logs[k] == ReadLog(im, req, k) && logs[|req.feeds|] == ReadLog(im, req, |req.feeds|);
    forall i | k < i < |logs| ensures PrefixAt(logs, i) { ReadLogsGrow(im, req, i); }
    Grows(logs, k);
    PrefixCostsLess(logs[k], logs[|req.feeds|]);
  }

  lemma PrefixCostsLess(a: seq<Claim>, b: seq<Claim>)
    requires a <= b
    ensures ChargeOf(Flat(a)) <= ChargeOf(Flat(b))
  {
    assert b == a + b[|a|..];
    FlatAppend(a, b[|a|..]);
    SmallerCostsLess(Flat(a), Flat(b));
  }

  /** The reserve leaves room for the published index, a candidate and a part of one share each. */
  lemma ThreeShares(im: Importer, log: seq<Claim>, emitted: seq<Claim>)
    requires Normal(im.limits) && ChargeOf(Flat(emitted)) <= IndexCapacity(im.limits)
    ensures ChargeOf(Flat(log)) <= IndexCapacity(im.limits) ==>
              && Plus(Base(im), Cost(log)).used < im.limits.memoryBytes
              && (Fits(im.limits, emitted, Plus(Base(im), Cost(log))) <==>
                    CountsFit(im.limits, emitted, |Flat(log)|))
    ensures ChargeOf(Flat(log + emitted)) <= IndexCapacity(im.limits) ==>
              (Fits(im.limits, log + emitted, Beside(im, emitted)) <==> CountsFit(im.limits, log + emitted, 0))
  {
  }

  lemma SmallSoFar(im: Importer, req: Request, k: nat)
    requires Normal(im.limits) && k < |req.feeds| && WithinCapacity(im, req)
    ensures ChargeOf(Flat(ReadLog(im, req, k))) <= IndexCapacity(im.limits)
    ensures ChargeOf(Flat(ReadLog(im, req, k + 1))) <= IndexCapacity(im.limits)
  {
    ReadCostsGrow(im, req, k);
    ReadCostsGrow(im, req, k + 1);
  }

  lemma MemoryPasses(im: Importer, req: Request, k: nat)
    requires Normal(im.limits) && k < |req.feeds| && WithinCapacity(im, req)
    ensures PassesAt(im, req, k) <==> PassesByCount(im, req, k)
  {
    var f, log := req.feeds[k], ReadLog(im, req, k);
    if f.enabled && ContentOf(req, f).Some? {
      assert f in req.feeds;
      SmallSoFar(im, req, k);
      ReadsMore(im, req, k);
      ThreeShares(im, log, EmittedOf(im, req, f));
    }
  }

  /** While the joint list and every feed's own are within one share, memory refuses nothing: the
      candidate is accepted exactly if sizes, counts, records and failures allow it. */
  lemma NeverRefusedForMemory(im: Importer, req: Request)
    requires Normal(im.limits) && WithinCapacity(im, req)
    ensures CandidateResult(im, req).Some? <==> forall k :: 0 <= k < |req.feeds| ==> PassesByCount(im, req, k)
  {
    AcceptedExactly(im, req);
    assert AllPass(im, req, |req.feeds|) <==> forall k :: 0 <= k < |req.feeds| ==> PassesAt(im, req, k);
    forall k | 0 <= k < |req.feeds| ensures PassesAt(im, req, k) <==> PassesByCount(im, req, k) {
      MemoryPasses(im, req, k);
    }
  }

  /** Feeds that all claim one name. */
  function Same(limits: Limits): Importer {
    Importer(limits, 0, (f: Feed, content, n) => Parsed([Emit("x", f.category)], 1, None))
  }

  /** A feed that claims what another already has, under a name of its own that is larger than the memory. */
  function TwoFeeds(limits: Limits): Request {
    var short := Feed("a", "a", Malware, true, false);
    var long := Feed("b", seq(limits.memoryBytes, i => 'b'), Malware, true, false);
    Request([short, long], map[CacheName("a") := [], CacheName("b") := []], "", None, {})
  }

  lemma FlatOfSame(first: Claim, second: Claim)
    requires first.domain == second.domain != "" && first.entry.category == second.entry.category
    ensures Flat([first, second]) == {first}
  {
    assert [first, second][..1] == [first] && [first][..0] == [];
    assert Flat([first]) == {first};
    assert Taken({first}, second.domain, second.entry.category);
  }

  /** What feed k of the two adds to the list. */
  lemma TwoFeedsRead(limits: Limits, k: nat)
    requires k < 2
    ensures var im, req := Same(limits), TwoFeeds(limits); var f := req.feeds[k];
            ReadLog(im, req, k + 1) == ReadLog(im, req, k) + [Claim("x", Entry(Malware, f.id, f.name))]
  {
    var req := TwoFeeds(limits);
    SafeNamesAreDistinct("a", "b");
    ReadsMore(Same(limits), req, k);
    var claim := Claim("x", Entry(Malware, req.feeds[k].id, req.feeds[k].name));
    assert LogOf(req.feeds[k], [Emit("x", Malware)]) == [claim];
  }

  lemma OneClaimOnly(limits: Limits)
    ensures var im, req := Same(limits), TwoFeeds(limits);
            Flat(ReadLog(im, req, 2)) == {Claim("x", Entry(Malware, "a", "a"))}
  {
    var first := Claim("x", Entry(Malware, "a", "a"));
    var second := Claim("x", Entry(Malware, "b", TwoFeeds(limits).feeds[1].name));
    TwoFeedsRead(limits, 0);
    TwoFeedsRead(limits, 1);
    assert [] + [first] + [second] == [first, second];
    FlatOfSame(first, second);
  }

  lemma OneCosts(x: Claim)
    ensures ChargeOf({x}) == ClaimCharge(x.domain, x.entry)
  {
    ChargeAdd({}, x);
    assert {} + {x} == {x};
  }

  lemma LongFeedIsTooLarge(limits: Limits)
    requires Normal(limits)
    ensures var im, req := Same(limits), TwoFeeds(limits);
            !Stageable(im, req.feeds[1], [], ReadLog(im, req, 1))
  {
    var im, req := Same(limits), TwoFeeds(limits);
    var second := Claim("x", Entry(Malware, "b", req.feeds[1].name));
    assert LogOf(req.feeds[1], [Emit("x", Malware)]) == [second] && [second][..0] == [];
    assert Flat([second]) == {second};
    OneCosts(second);
  }

  /** The joint list alone is not enough: a feed that adds nothing to it can be too large on its own. */
  lemma JointListIsNotEnough(limits: Limits)
    requires Normal(limits)
    ensures var im, req := Same(limits), TwoFeeds(limits);
            && im.Valid() && ChargeOf(Flat(ReadLog(im, req, 2))) <= IndexCapacity(limits)
            && CandidateResult(im, req).None?
  {
    var im, req := Same(limits), TwoFeeds(limits);
    OneClaimOnly(limits);
    OneCosts(Claim("x", Entry(Malware, "a", "a")));
    LongFeedIsTooLarge(limits);
    AcceptedExactly(im, req);
    assert !PassesAt(im, req, 1);
  }
}
