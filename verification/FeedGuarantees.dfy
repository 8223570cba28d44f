/** Exactly when an unretained rebuild keeps protection, and exactly when a commit matches the disk. */
module FeedGuarantees {
  import opened Octets
  import opened Options
  import opened BlockIndex
  import opened ImportBudget
  import opened FeedIngest
  import opened FeedOrder
  import opened CandidateIndex
  import opened FeedManager

  // ---------- what an accepted candidate loads ----------

  /** An accepted candidate has loaded an enabled feed exactly if its content is there and parses. */
  lemma {:induction false} LoadedExactlyIfReadable(im: Importer, req: Request, n: nat, k: nat)
    requires Normal(im.limits) && k < n <= |req.feeds| && DistinctIds(req.feeds)
    requires RunTo(im, req, n).Going? && req.feeds[k].enabled
    ensures req.feeds[k].id in LoadedIn(RunTo(im, req, n).loads) <==>
              Readable(im, req.feeds[k], ContentOf(req, req.feeds[k]))
    decreases n
  {
    if k < n - 1 { LoadedExactlyIfReadable(im, req, n - 1, k); }
  }

  /** Every loaded feed that is still enabled can be read back from the cache. */
  ghost predicate AllReadable(im: Importer, feeds: seq<Feed>, cache: map<string, Bytes>,
                              before: map<string, FeedLoad>) {
    forall f :: f in feeds && f.enabled && f.id in LoadedIn(before) ==>
      Readable(im, f, ContentOf(FromDisk([], cache), f))
  }

  /** A rebuild from the cache that retains nothing, as at the start. */
  function FromDisk(feeds: seq<Feed>, cache: map<string, Bytes>): Request {
    Request(feeds, cache, "", None, {})
  }

  /** An accepted unretained rebuild keeps protection exactly if every loaded and enabled feed
      can still be read. */
  lemma KeepsExactlyIfReadable(im: Importer, feeds: seq<Feed>, cache: map<string, Bytes>, at: nat,
                               before: map<string, FeedLoad>)
    requires Normal(im.limits) && DistinctIds(feeds) && CandidateResult(im, FromDisk(feeds, cache)).Some?
    ensures Kept(Publication(at, before, feeds, CandidateResult(im, FromDisk(feeds, cache)).value.1)) <==>
            AllReadable(im, feeds, cache, before)
  {
    var req := FromDisk(feeds, cache);
    var p := Publication(at, before, feeds, CandidateResult(im, req).value.1);
    forall i | 0 <= i < |feeds| && feeds[i].enabled
      ensures EnabledIn(feeds, feeds[i].id)
      ensures feeds[i].id in LoadedIn(p.after) <==> Readable(im, feeds[i], ContentOf(req, feeds[i]))
    {
      LoadedExactlyIfReadable(im, req, |feeds|, i);
      assert ContentOf(req, feeds[i]) == ContentOf(FromDisk([], cache), feeds[i]);
    }
  }

  function EnabledCount(feeds: seq<Feed>): nat {
    if feeds == [] then 0 else EnabledCount(feeds[..|feeds| - 1]) + if feeds[|feeds| - 1].enabled then 1 else 0
  }

  lemma {:induction false} EnabledCounts(feeds: seq<Feed>)
    ensures EnabledCount(feeds) > 0 <==> exists i :: 0 <= i < |feeds| && feeds[i].enabled
  {
    if feeds != [] {
      var rest := feeds[..|feeds| - 1];
      EnabledCounts(rest);
      if EnabledCount(rest) > 0 {
        var i :| 0 <= i < |rest| && rest[i].enabled;
        assert feeds[i].enabled;
      }
      forall i | 0 <= i < |rest| ensures feeds[i] == rest[i] {
      }
    }
  }

  lemma CountsAt(feeds: seq<Feed>, i: nat)
    requires i < |feeds|
    ensures EnabledCount(feeds[..i + 1]) == EnabledCount(feeds[..i]) + if feeds[i].enabled then 1 else 0
    ensures feeds[i].enabled ==> EnabledCount(feeds) > 0
  {
    assert feeds[..i + 1][..i] == feeds[..i];
    if feeds[i].enabled { EnabledCounts(feeds); }
  }

  /** If this rebuild is accepted, it keeps protection. */
  ghost predicate Keeps(im: Importer, feeds: seq<Feed>, cache: map<string, Bytes>, before: map<string, FeedLoad>)
    requires Normal(im.limits)
  {
    CandidateResult(im, FromDisk(feeds, cache)).Some? ==>
      Kept(Publication(0, before, feeds, CandidateResult(im, FromDisk(feeds, cache)).value.1))
  }

  /** With an empty cache every enabled feed is skipped with a note, and that is accepted. */
  lemma {:induction false} EmptyCacheRun(im: Importer, feeds: seq<Feed>, n: nat)
    requires Normal(im.limits) && Keyed(feeds) && n <= |feeds|
    ensures RunTo(im, FromDisk(feeds, map[]), n).Going? && RunTo(im, FromDisk(feeds, map[]), n).log == []
  {
    if n > 0 { EmptyCacheRun(im, feeds, n - 1); }
  }

  /** Unretained rebuilds keep protection, whatever is cached and loaded, exactly for listings
      that enable nothing. */
  lemma KeepsExactlyIfNoneEnabled(im: Importer, feeds: seq<Feed>)
    requires Normal(im.limits) && Keyed(feeds)
    ensures (forall cache, before :: Keeps(im, feeds, cache, before)) <==> EnabledCount(feeds) == 0
  {
    EnabledCounts(feeds);
    if EnabledCount(feeds) == 0 {
      forall cache, before ensures Keeps(im, feeds, cache, before) {
        if CandidateResult(im, FromDisk(feeds, cache)).Some? { KeepsExactlyIfReadable(im, feeds, cache, 0, before); }
      }
    } else {
      var i :| 0 <= i < |feeds| && feeds[i].enabled;
      var before := map[feeds[i].id := Loaded];
      EmptyCacheRun(im, feeds, |feeds|);
      assert ChargeOf(Flat([])) == 0;
      KeepsExactlyIfReadable(im, feeds, map[], 0, before);
      assert feeds[i] in feeds && feeds[i].id in LoadedIn(before);
      assert !Readable(im, feeds[i], ContentOf(FromDisk([], map[]), feeds[i]));
      assert !Keeps(im, feeds, map[], before);
    }
  }

  // ---------- commits and the disk ----------

  /** Issued IDs are their own file names, so every feed has its file to itself. */
  lemma SafeIdsOwnTheirFiles(feeds: seq<Feed>, id: string)
    requires SafeId(id) && forall i :: 0 <= i < |feeds| ==> SafeId(feeds[i].id)
    ensures OwnsItsFile(feeds, id)
  {
    forall i | 0 <= i < |feeds| && feeds[i].id != id ensures CacheName(feeds[i].id) != CacheName(id) {
      SafeNamesAreDistinct(feeds[i].id, id);
    }
  }

  /** Committing these bytes for the feed. */
  function Committing(feeds: seq<Feed>, cache: map<string, Bytes>, id: string, content: Bytes,
                      retained: set<string>): Request {
    Request(feeds, cache, id, Some(content), retained)
  }

  /** If the commit is accepted, rebuilding from the disk gives what it published. */
  ghost predicate MatchesDisk(im: Importer, feeds: seq<Feed>, cache: map<string, Bytes>, id: string, content: Bytes,
                              retained: set<string>)
    requires Normal(im.limits)
  {
    var commit := Committing(feeds, cache, id, content, retained);
    CandidateResult(im, commit).Some? ==>
      CandidateResult(im, FromDisk(feeds, cache[CacheName(id) := content])) == CandidateResult(im, commit)
  }

  /** An importer whose every feed parses to nothing. */
  function Blank(limits: Limits, maxBytes: nat): Importer {
    Importer(limits, maxBytes, (f, content, n) => Parsed([], 0, None))
  }

  predicate Small(req: Request, maxBytes: nat) {
    && (req.staged.Some? ==> |req.staged.value| <= maxBytes)
    && forall name :: name in req.cache ==> |req.cache[name]| <= maxBytes
  }

  /** Such a run is accepted with nothing in it. */
  lemma {:induction false} BlankRun(limits: Limits, maxBytes: nat, req: Request, n: nat)
    requires Normal(limits) && Keyed(req.feeds) && n <= |req.feeds| && Small(req, maxBytes) && req.retained == {}
    requires req.staged.Some? || req.override == ""
    ensures var at := RunTo(Blank(limits, maxBytes), req, n); at.Going? && at.log == [] && at.local == 0
  {
    if n > 0 {
      BlankRun(limits, maxBytes, req, n - 1);
      BlankStep(limits, maxBytes, req, n - 1);
    }
  }

  lemma BlankStep(limits: Limits, maxBytes: nat, req: Request, n: nat)
    requires Normal(limits) && Keyed(req.feeds) && n < |req.feeds| && Small(req, maxBytes) && req.retained == {}
    requires req.staged.Some? || req.override == ""
    requires var at := RunTo(Blank(limits, maxBytes), req, n); at.Going? && at.log == [] && at.local == 0
    ensures var at := RunTo(Blank(limits, maxBytes), req, n + 1); at.Going? && at.log == [] && at.local == 0
  {
    var im, f := Blank(limits, maxBytes), req.feeds[n];
    assert Flat([]) == {} && ChargeOf({}) == 0 && DomainsOf({}) == {};
    assert LogOf(f, []) == [];
    if f.enabled && ContentOf(req, f).Some? {
      assert FeedFailure(im, req, f, []).None?;
      assert [] + LogOf(f, []) == [];
    }
  }

  /** Another enabled feed with the same file is loaded after a restart, but not by the commit. */
  lemma SharedFileDiffers(limits: Limits, feeds: seq<Feed>, id: string, content: Bytes, i: nat)
    requires Normal(limits) && Keyed(feeds) && id != "" && i < |feeds| && feeds[i].enabled
    requires feeds[i].id != id && CacheName(feeds[i].id) == CacheName(id)
    ensures !MatchesDisk(Blank(limits, |content|), feeds, map[], id, content, {})
  {
    var im := Blank(limits, |content|);
    var commit, disk := Committing(feeds, map[], id, content, {}), FromDisk(feeds, map[CacheName(id) := content]);
    assert map[][CacheName(id) := content] == map[CacheName(id) := content];
    assert ChargeOf(Flat([])) == 0;
    BlankRun(limits, |content|, commit, |feeds|);
    BlankRun(limits, |content|, disk, |feeds|);
    LoadedExactlyIfReadable(im, commit, |feeds|, i);
    LoadedExactlyIfReadable(im, disk, |feeds|, i);
  }

  /** A commit is what a restart gives, for every parser, cache and content, exactly if no other
      enabled feed shares the feed's file. */
  lemma MatchesDiskExactlyIfOwned(limits: Limits, feeds: seq<Feed>, id: string)
    requires Normal(limits) && Keyed(feeds) && id != ""
    ensures (forall im: Importer, cache, content, retained ::
               im.Valid() && im.limits == limits ==> MatchesDisk(im, feeds, cache, id, content, retained)) <==>
            OwnsItsFile(feeds, id)
  {
    if OwnsItsFile(feeds, id) {
      forall im: Importer, cache, content, retained | im.Valid() && im.limits == limits
        ensures MatchesDisk(im, feeds, cache, id, content, retained)
      {
        var commit := Committing(feeds, cache, id, content, retained);
        if CandidateResult(im, commit).Some? { CommitMatchesDisk(im, commit, id, content, {}); }
      }
    } else {
      var i :| 0 <= i < |feeds| && feeds[i].enabled && feeds[i].id != id && CacheName(feeds[i].id) == CacheName(id);
      SharedFileDiffers(limits, feeds, id, [0], i);
      assert Blank(limits, 1).Valid() && Blank(limits, 1).limits == limits;
    }
  }
}
