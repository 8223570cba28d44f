/** Committing a downloaded feed, and refreshing without losing protection. */
module FeedManager {
  import opened Octets
  import opened Options
  import opened ImportBudget
  import opened FeedIngest
  import opened FeedOrder
  import opened CandidateIndex

  // ---------- reading the source ----------

  const BUFFER: nat := 0x8000

  /** How a reader and the file it is copied to behave: what the k-th read may deliver, whether the
      copying ends there by a cancellation or a failed read, and how much of it is written. */
  datatype Channel = Channel(arrives: nat -> nat, stops: nat -> Option<Failure>, written: nat -> nat)

  /** Something arrives every time, nothing stops the copying, and writes are whole. */
  ghost predicate Steady(c: Channel) {
    forall k :: c.arrives(k) > 0 && c.stops(k).None? && c.written(k) >= BUFFER
  }

  /** Copies what a reader delivers in pieces of its own choosing. */
  method CopyBounded(src: Bytes, max: nat, c: Channel) returns (err: Option<Failure>, dst: Bytes)
    ensures dst <= src && |dst| <= max
    ensures err.None? ==> dst == src
    ensures |src| > max ==> err.Some?
    ensures Steady(c) ==> (err.None? <==> |src| <= max)
  {
    dst := [];
    var k := 0;
    while true
      invariant |dst| <= |src| && |dst| <= max && dst == src[..|dst|]
      decreases |src| - |dst|
    {
      if c.stops(k).Some? { return c.stops(k), dst; }
      var want := if BUFFER > max - |dst| + 1 then max - |dst| + 1 else BUFFER;
      var left := |src| - |dst|;
      var n := if c.arrives(k) < want then c.arrives(k) else want;
      if n > left { n := left; }
      if n > max - |dst| { return Some(Limit), dst; }
      var w := if c.written(k) < n then c.written(k) else n;
      dst := dst + src[|dst|..|dst| + w];
      if w != n { return Some(Malformed), dst; }
      if |dst| == |src| { return None, dst; }
      if n == 0 { return Some(Malformed), dst; }
      k := k + 1;
    }
  }

  // ---------- crash consistency ----------

  function LoadedIn(loads: map<string, FeedLoad>): set<string> {
    set id | id in loads && loads[id].Loaded?
  }

  /** No other enabled feed shares this feed's cache file. */
  ghost predicate OwnsItsFile(feeds: seq<Feed>, id: string) {
    forall i :: 0 <= i < |feeds| && feeds[i].enabled && feeds[i].id != id ==> CacheName(feeds[i].id) != CacheName(id)
  }

  /** A note about a skipped feed is never overwritten by another feed. */
  lemma {:induction false} SkipIsFinal(im: Importer, req: Request, k: nat, n: nat)
    requires Normal(im.limits) && k < n <= |req.feeds| && DistinctIds(req.feeds)
    requires RunTo(im, req, n).Going? && RunTo(im, req, k + 1).Going? && req.feeds[k].id in RunTo(im, req, k + 1).loads
    ensures req.feeds[k].id in RunTo(im, req, n).loads
    ensures RunTo(im, req, n).loads[req.feeds[k].id] == RunTo(im, req, k + 1).loads[req.feeds[k].id]
  {
    if k + 1 < n { SkipIsFinal(im, req, k, n - 1); }
  }

  /** Step by step, rebuilding from the disk after the rename does what the commit did. */
  lemma {:induction false} DiskRunAgrees(im: Importer, req: Request, disk: Request, id: string, bytes: Bytes, n: nat)
    requires Normal(im.limits) && n <= |req.feeds| && DistinctIds(req.feeds) && OwnsItsFile(req.feeds, id)
    requires forall i :: 0 <= i < |req.feeds| ==> req.feeds[i].id != ""
    requires req.override == id && req.staged == Some(bytes)
    requires disk == Request(req.feeds, req.cache[CacheName(id) := bytes], "", None, disk.retained)
    requires RunTo(im, req, |req.feeds|).Going? && disk.retained <= LoadedIn(RunTo(im, req, |req.feeds|).loads)
    ensures RunTo(im, disk, n) == RunTo(im, req, n)
  {
    if RunTo(im, req, n).Stopped? { StaysStopped(im, req, n, |req.feeds|); }
    if n > 0 {
      DiskRunAgrees(im, req, disk, id, bytes, n - 1);
      var f, at := req.feeds[n - 1], RunTo(im, req, n - 1);
      if f.enabled {
        assert ContentOf(disk, f) == ContentOf(req, f);
        var err := FeedFailure(im, req, f, at.log);
        if err.Some? { SkipIsFinal(im, req, n - 1, |req.feeds|); }
      }
    }
  }

  /** Crash consistency: what was published is what a restart would build from disk,
      whichever of the published feeds that restart treats as required. */
  lemma CommitMatchesDisk(im: Importer, req: Request, id: string, bytes: Bytes, retained: set<string>)
    requires Normal(im.limits) && DistinctIds(req.feeds) && OwnsItsFile(req.feeds, id)
    requires forall i :: 0 <= i < |req.feeds| ==> req.feeds[i].id != ""
    requires req.override == id && req.staged == Some(bytes) && CandidateResult(im, req).Some?
    requires retained <= LoadedIn(CandidateResult(im, req).value.1)
    ensures CandidateResult(im, Request(req.feeds, req.cache[CacheName(id) := bytes], "", None, retained)) ==
            CandidateResult(im, req)
  {
    DiskRunAgrees(im, req, Request(req.feeds, req.cache[CacheName(id) := bytes], "", None, retained), id, bytes,
                  |req.feeds|);
  }

  // ---------- keeping protection ----------

  datatype Publication = Publication(
    at: nat, before: map<string, FeedLoad>, feeds: seq<Feed>, after: map<string, FeedLoad>)

  predicate EnabledIn(feeds: seq<Feed>, id: string) {
    exists i :: 0 <= i < |feeds| && feeds[i].enabled && feeds[i].id == id
  }

  /** Nothing that was loaded and is still enabled was lost. */
  ghost predicate Kept(p: Publication) {
    forall id :: id in LoadedIn(p.before) && EnabledIn(p.feeds, id) ==> id in LoadedIn(p.after)
  }

  lemma {:induction false} RetainedStayLoaded(im: Importer, req: Request, n: nat, id: string)
    requires Normal(im.limits) && n <= |req.feeds| && RunTo(im, req, n).Going? && id in req.retained
    requires exists i :: 0 <= i < n && req.feeds[i].enabled && req.feeds[i].id == id
    ensures id in LoadedIn(RunTo(im, req, n).loads)
  {
    if exists i :: 0 <= i < n - 1 && req.feeds[i].enabled && req.feeds[i].id == id {
      RetainedStayLoaded(im, req, n - 1, id);
    }
  }

  lemma RetainingKeeps(im: Importer, req: Request, at: nat, before: map<string, FeedLoad>)
    requires Normal(im.limits) && LoadedIn(before) <= req.retained && CandidateResult(im, req).Some?
    ensures Kept(Publication(at, before, req.feeds, CandidateResult(im, req).value.1))
  {
    forall id | id in LoadedIn(before) && EnabledIn(req.feeds, id)
      ensures id in LoadedIn(CandidateResult(im, req).value.1)
    {
      RetainedStayLoaded(im, req, |req.feeds|, id);
    }
  }
}
