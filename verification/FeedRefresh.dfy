/** The feed manager: committing snapshots, rebuilding from the cache, refreshing. */
module FeedRefresh {
  import opened Octets
  import opened Options
  import opened BlockIndex
  import opened ImportBudget
  import opened FeedIngest
  import opened StableSort
  import opened FeedOrder
  import opened CandidateIndex
  import opened FeedManager
  import opened FeedAcceptance
  import opened FeedGuarantees

  /** What happens around the manager, by the number of times it has looked. */
  datatype World = World(
    list: nat -> Option<seq<Feed>>,
    interrupt: nat -> Option<nat>,
    fault: nat -> Option<Failure>,
    directory: nat -> seq<DirEntry>,
    download: (nat, Feed) -> Download)

  /** An entry of the cache directory: a staging file left behind, one that cannot be safe, or another file. */
  datatype DirEntry = Staging(size: nat) | Suspect | Other

  datatype Stamp = Stamp(size: nat, modified: int)

  /** An opened source; a local one is looked at before and after the copy. */
  datatype Source = Source(content: Bytes, channel: Channel, stamps: Option<(Stamp, Stamp)>)

  datatype Download = Unavailable(why: Failure) | Unchanged | Opened(source: Source)

  datatype Outcome = Failed(why: Failure) | NotModified | Committed(warned: bool)

  function Required(loads: map<string, FeedLoad>, retain: bool): set<string> {
    if retain then LoadedIn(loads) else {}
  }

  /** The published index and loads are what building req gives. */
  ghost predicate Built(im: Importer, req: Request, ix: Index, loads: map<string, FeedLoad>)
    requires Normal(im.limits)
  {
    exists log :: CandidateResult(im, req) == Some((log, loads)) && Represents(ix, log)
  }

  datatype History = Start | Then(earlier: History, last: Publication)

  ghost function Length(h: History): nat {
    if h.Start? then 0 else Length(h.earlier) + 1
  }

  /** Every publication used a real listing, in order, and started from the one before. */
  ghost predicate Recorded(world: World, h: History, tick: nat, loads: map<string, FeedLoad>) {
    if h.Start? then loads == map[]
    else
      && h.last.at < tick && world.list(h.last.at) == Some(h.last.feeds) && h.last.after == loads
      && Recorded(world, h.earlier, h.last.at, h.last.before)
  }

  /** What was published since an earlier moment kept everything loaded and still enabled. */
  ghost predicate KeptSince(h: History, base: History, t: nat) {
    h == base || (h.Then? && t <= h.last.at && Kept(h.last) && KeptSince(h.earlier, base, t))
  }

  lemma OneKept(h: History, t: nat)
    requires h.Then? && t <= h.last.at && Kept(h.last)
    ensures KeptSince(h, h.earlier, t)
  {
  }

  lemma {:induction false} KeptThrough(h: History, middle: History, base: History, t: nat, u: nat)
    requires KeptSince(middle, base, t) && KeptSince(h, middle, u) && t <= u
    ensures KeptSince(h, base, t)
  {
    if h != middle { KeptThrough(h.earlier, middle, base, t, u); }
  }

  lemma KeptSooner(h: History, base: History, t: nat)
    ensures KeptSince(h, base, t + 1) ==> KeptSince(h, base, t)
  {
    if KeptSince(h, base, t + 1) { KeptThrough(h, base, base, t, t + 1); }
  }

  /** Stored feeds have distinct, non-empty IDs. */
  ghost predicate Listed(world: World) {
    forall t :: world.list(t).Some? ==> Keyed(world.list(t).value)
  }

  function Sum(sizes: seq<nat>): nat {
    if sizes == [] then 0 else Sum(sizes[..|sizes| - 1]) + sizes[|sizes| - 1]
  }

  const MAX_ENTRIES: nat := 16384

  /** What the staging files of a directory take up. */
  function Abandoned(entries: seq<DirEntry>): seq<nat> {
    if entries == [] then []
    else
      var last := entries[|entries| - 1];
      Abandoned(entries[..|entries| - 1]) + if last.Staging? then [last.size] else []
  }

  /** The quota less what is abandoned, unless there are too many entries or a suspect one. */
  function Available(limits: Limits, entries: seq<DirEntry>): Option<nat> {
    Leftover(limits, |entries|, Suspect in entries, Sum(Abandoned(entries)))
  }

  function Leftover(limits: Limits, count: nat, suspect: bool, abandoned: nat): Option<nat> {
    if count > MAX_ENTRIES || suspect || abandoned > limits.tempBytes then None else Some(limits.tempBytes - abandoned)
  }

  lemma SumMore(sizes: seq<nat>, size: nat)
    ensures Sum(sizes + [size]) == Sum(sizes) + size
  {
    assert (sizes + [size])[..|sizes|] == sizes;
  }

  /** What is left of the quota after looking at some entries in turn. */
  function Left(limits: Limits, entries: seq<DirEntry>): Option<nat> {
    if entries == [] then Some(limits.tempBytes)
    else LessOne(Left(limits, entries[..|entries| - 1]), |entries|, entries[|entries| - 1])
  }

  lemma {:induction false} NoneStays(limits: Limits, entries: seq<DirEntry>, n: nat)
    requires n <= |entries| && Left(limits, entries[..n]).None?
    ensures Left(limits, entries).None?
  {
    if n < |entries| {
      assert entries[..|entries| - 1][..n] == entries[..n];
      NoneStays(limits, entries[..|entries| - 1], n);
    } else {
      assert entries[..n] == entries;
    }
  }

  lemma AbandonedMore(rest: seq<DirEntry>, last: DirEntry)
    ensures Sum(Abandoned(rest + [last])) == Sum(Abandoned(rest)) + if last.Staging? then last.size else 0
  {
    assert (rest + [last])[..|rest|] == rest;
    if last.Staging? { SumMore(Abandoned(rest), last.size); } else { assert Abandoned(rest) + [] == Abandoned(rest); }
  }

  lemma SuspectMore(rest: seq<DirEntry>, last: DirEntry)
    ensures Suspect in rest + [last] <==> Suspect in rest || last.Suspect?
  {
  }

  /** One more entry to look at. */
  function LessOne(left: Option<nat>, count: nat, last: DirEntry): Option<nat> {
    if left.None? || count > MAX_ENTRIES || last.Suspect? then None
    else if last.Other? then left
    else if last.size > left.value then None
    else Some(left.value - last.size)
  }

  lemma LeftoverMore(limits: Limits, count: nat, suspect: bool, sum: nat, last: DirEntry)
    ensures Leftover(limits, count + 1, suspect || last.Suspect?, sum + if last.Staging? then last.size else 0) ==
            LessOne(Leftover(limits, count, suspect, sum), count + 1, last)
  {
  }

  lemma AvailableMore(limits: Limits, rest: seq<DirEntry>, last: DirEntry)
    ensures Available(limits, rest + [last]) == LessOne(Available(limits, rest), |rest| + 1, last)
  {
    AbandonedMore(rest, last);
    SuspectMore(rest, last);
    LeftoverMore(limits, |rest|, Suspect in rest, Sum(Abandoned(rest)), last);
  }

  /** Looking at the entries in turn comes to the same as summing them up. */
  lemma {:induction false} LeftIsAvailable(limits: Limits, entries: seq<DirEntry>)
    ensures Left(limits, entries) == Available(limits, entries)
  {
    if entries != [] {
      var rest, last := entries[..|entries| - 1], entries[|entries| - 1];
      LeftIsAvailable(limits, rest);
      AvailableMore(limits, rest, last);
      assert entries == rest + [last];
    }
  }

  /** Abandoned staging files count against the quota; every entry counts against the cap. */
  method TempAvailable(limits: Limits, entries: seq<DirEntry>) returns (left: Option<nat>)
    ensures left == Available(limits, entries)
  {
    var remaining := limits.tempBytes;
    LeftIsAvailable(limits, entries);
    for i := 0 to |entries|
      invariant Left(limits, entries[..i]) == Some(remaining)
    {
      assert entries[..i + 1][..i] == entries[..i];
      if Left(limits, entries[..i + 1]).None? { NoneStays(limits, entries, i + 1); }
      if i + 1 > MAX_ENTRIES { return None; }
      match entries[i] {
        case Other =>
        case Suspect => return None;
        case Staging(size) =>
          if size > remaining { return None; }
          remaining := remaining - size;
      }
    }
    assert entries[..|entries|] == entries;
    left := Some(remaining);
  }

  /** How many records a feed may have, and how many of a local feed's are counted. */
  function RecordLimit(l: Limits, isLocal: bool, taken: nat): nat {
    if isLocal && taken <= l.localRecords && l.localRecords - taken < l.records then l.localRecords - taken
    else l.records
  }

  function TakenBy(l: Limits, isLocal: bool, taken: nat, records: nat): nat {
    if !isLocal then taken else if taken + records > l.localRecords then l.localRecords else taken + records
  }

  /** Parses the staged bytes on their own, counting a local source's records. */
  method Validate(im: Importer, published: Index, f: Feed, staged: Bytes, isLocal: bool, taken: nat)
    returns (err: Option<Failure>, taken': nat)
    requires im.Valid() && Shaped(published) && ChargeOf(ClaimSet(published)) <= IndexCapacity(im.limits)
    requires taken <= im.limits.localRecords
    ensures taken <= taken' <= im.limits.localRecords
    ensures err == if isLocal && taken == im.limits.localRecords then Some(Limit)
                   else ParseFailure(im, f, staged, Base(im), RecordLimit(im.limits, isLocal, taken))
    ensures err.None? ==>
              taken' == TakenBy(im.limits, isLocal, taken,
                                im.parse(f, staged, RecordLimit(im.limits, isLocal, taken)).records)
  {
    taken' := taken;
    var budget := NewBudget(im.limits, published);
    assert LedgerOf(budget) == Base(im);
    var recordLimit := im.limits.records;
    var left := im.limits.localRecords - taken;
    if isLocal {
      if left <= 0 { return Some(Limit), taken'; }
      if left < recordLimit { recordLimit := left; }
    }
    assert recordLimit == RecordLimit(im.limits, isLocal, taken);
    var _, records, failure := ParseFile(im, f, staged, budget, recordLimit);
    err := failure;
    if isLocal { taken' := taken + if records > left then left else records; }
  }

  datatype State = State(cache: map<string, Bytes>, published: Index, loads: map<string, FeedLoad>, generation: nat,
                         history: History)

  /** One publication was made, from moment t on; if it retained, nothing loaded and still enabled was lost. */
  ghost predicate PublishedOnce(im: Importer, before: State, after: State, t: nat, retain: bool, override: string,
                                staged: Option<Bytes>, feeds: seq<Feed>)
    requires Normal(im.limits)
  {
    && Built(im, Request(ByPriority(feeds), before.cache, override, staged, Required(before.loads, retain)),
             after.published, after.loads)
    && after.generation == before.generation + 1
    && after.history.Then? && after.history.earlier == before.history && t <= after.history.last.at
    && after.history.last == Publication(after.history.last.at, before.loads, feeds, after.loads)
    && (retain ==> Kept(after.history.last))
  }

  /** The bytes were renamed into place and what they give was published. */
  ghost predicate Renamed(im: Importer, before: State, after: State, t: nat, f: Feed, content: Bytes, feeds: seq<Feed>)
    requires Normal(im.limits)
  {
    && after.cache == before.cache[CacheName(f.id) := content]
    && PublishedOnce(im, before, after, t, true, f.id, Some(content), feeds)
  }

  /** One unretained rebuild from the listing of moment t was published. It kept what was loaded
      and enabled exactly if all of that could still be read. */
  ghost predicate RebuiltFrom(im: Importer, world: World, before: State, after: State, t: nat)
    requires Normal(im.limits)
  {
    && world.list(t).Some? && PublishedOnce(im, before, after, t, false, "", None, world.list(t).value)
    && (Kept(after.history.last) <==> AllReadable(im, world.list(t).value, after.cache, before.loads))
  }

  /** What an unretained rebuild at moment t comes to: the cache stays, and it changes nothing or publishes. */
  ghost predicate Rebuilt(im: Importer, world: World, before: State, after: State, t: nat, err: Option<Failure>)
    requires Normal(im.limits)
  {
    || (err.Some? && after == before && Denied(world, t, im, before.cache, "", None, {}))
    || (err.None? && after.cache == before.cache && RebuiltFrom(im, world, before, after, t))
  }

  // ---------- one feed of a refresh ----------

  /** If no other enabled feed shares the feed's file, a restart gives what is published. */
  ghost predicate Restartable(im: Importer, s: State, id: string, feeds: seq<Feed>)
    requires Normal(im.limits)
  {
    OwnsItsFile(feeds, id) || IssuedSafely(feeds, id) ==> OnDisk(im, s, feeds)
  }

  /** A rebuild at moment t that must load one feed: unless it is interrupted it publishes exactly if there
      is a candidate that retains what is loaded and has the feed. */
  ghost predicate RebuiltWith(im: Importer, world: World, before: State, after: State, t: nat, id: string, done: bool)
    requires Normal(im.limits)
  {
    || (!done && after == before && Unbuildable(world, t, im, before.cache, id, LoadedIn(before.loads)))
    || (done && world.list(t).Some? && PublishedOnce(im, before, after, t, true, "", None, world.list(t).value) &&
        after.cache == before.cache && id in LoadedIn(after.loads) &&
        (world.interrupt(t).None? ==> !Unbuildable(world, t, im, before.cache, id, LoadedIn(before.loads))))
  }

  /** The same, looked into only where a proof names the moment. */
  ghost predicate RebuiltWithAt(im: Importer, world: World, before: State, after: State, at: nat, id: string,
                                done: bool)
    requires Normal(im.limits)
  {
    forall t {:trigger RebuiltWith(im, world, before, after, t, id, done)} ::
      t == at ==> RebuiltWith(im, world, before, after, t, id, done)
  }

  /** Settling a download from moment t to moment done. A committed one is recorded; one that was not
      modified needs a rebuild; after a failure nothing live is rebuilt, and with nothing live the
      cache may help. */
  ghost predicate Finished(im: Importer, world: World, before: State, after: State, t: nat, done: nat, id: string,
                           downloaded: Outcome, out: Outcome)
    requires Normal(im.limits)
  {
    || (downloaded.Committed? && after == before && done == t + 1 &&
        out == Committed(downloaded.warned || world.fault(t).Some?))
    || (downloaded.NotModified? && done == t + 2 && !out.NotModified? &&
        RebuiltWithAt(im, world, before, after, t, id, out.Committed?) &&
        (out.Committed? ==> out.warned == world.fault(t + 1).Some?))
    || (downloaded.Failed? && t < done &&
        out == Failed(if world.fault(done - 1).Some? then world.fault(done - 1).value else downloaded.why) &&
        if before.generation > 0 then after == before && done == t + 1
        else done == t + 2 && RebuiltWithAt(im, world, before, after, t, id, after != before))
  }

  /** So a committed download stays committed and a failed one failed, and nothing live changes on a failure. */
  lemma FinishedMeans(im: Importer, world: World, before: State, after: State, t: nat, done: nat, id: string,
                      downloaded: Outcome, out: Outcome)
    requires Normal(im.limits) && Finished(im, world, before, after, t, done, id, downloaded, out)
    ensures after.cache == before.cache && t < done
    ensures !out.NotModified? && (downloaded.Committed? ==> out.Committed?) && (downloaded.Failed? ==> out.Failed?)
    ensures out.Committed? ==> after.generation == before.generation + if downloaded.NotModified? then 1 else 0
    ensures out.Committed? && downloaded.NotModified? ==> id in LoadedIn(after.loads)
    ensures out.Failed? && downloaded.NotModified? ==>
              Unbuildable(world, t, im, before.cache, id, LoadedIn(before.loads))
    ensures downloaded.Committed? ==> after == before
    ensures out.Failed? && before.generation > 0 ==> after == before
    ensures out == Committed(true) ==> downloaded == Committed(true) || !Faultless(world, t, done)
  {
    if downloaded.NotModified? { assert RebuiltWith(im, world, before, after, t, id, out.Committed?); }
    if downloaded.Failed? && before.generation == 0 {
      assert RebuiltWith(im, world, before, after, t, id, after != before);
    }
  }

  /** Importing a download at moment t: nothing changes, or the bytes are in place and what they give is
      published, with the feed loaded if the listing has it enabled. */
  ghost predicate Imported(im: Importer, world: World, before: State, after: State, t: nat, f: Feed, src: Source,
                           taken: nat, left: nat, committed: bool)
    requires Normal(im.limits)
  {
    || (!committed && after == before && !CertainToImport(im, world, before, t, f, src, taken))
    || (committed && world.list(t + 1).Some? &&
        Renamed(im, before, after, t + 1, f, src.content, world.list(t + 1).value) &&
        (EnabledIn(world.list(t + 1).value, f.id) ==> f.id in LoadedIn(after.loads)) &&
        Restartable(im, after, f.id, world.list(t + 1).value) &&
        left == TakenBy(im.limits, src.stamps.Some?, taken,
                        im.parse(f, src.content, RecordLimit(im.limits, src.stamps.Some?, taken)).records) &&
        (Calm(world, t) && Steady(src.channel) ==> CertainToImport(im, world, before, t, f, src, taken)))
  }

  /** Nothing goes wrong around an import at moment t, the bytes can be imported, and the candidate with
      them is accepted. */
  ghost predicate CertainToImport(im: Importer, world: World, before: State, t: nat, f: Feed, src: Source, taken: nat)
    requires Normal(im.limits)
  {
    && Calm(world, t) && Steady(src.channel) && Importable(im, world.directory(t), f, src, taken)
    && Candidates(im, world, t + 1, before, f.id, src.content)
  }

  /** The same, looked into only where a proof names the moment. */
  ghost predicate ImportedAt(im: Importer, world: World, before: State, after: State, at: nat, f: Feed, src: Source,
                             taken: nat, left: nat, committed: bool)
    requires Normal(im.limits)
  {
    forall t {:trigger Imported(im, world, before, after, t, f, src, taken, left, committed)} ::
      t == at ==> Imported(im, world, before, after, t, f, src, taken, left, committed)
  }

  lemma StagingFailed(im: Importer, world: World, before: State, t: nat, f: Feed, src: Source, taken: nat, left: nat)
    requires Normal(im.limits)
    requires world.fault(t).None? && Steady(src.channel) ==> !Importable(im, world.directory(t), f, src, taken)
    ensures ImportedAt(im, world, before, before, t, f, src, taken, left, false)
  {
  }

  lemma InstalledIsImported(im: Importer, world: World, before: State, after: State, t: nat, f: Feed, src: Source,
                            taken: nat, left: nat, feeds: seq<Feed>, committed: bool)
    requires Normal(im.limits) && Listed(world) && (!committed ==> after == before)
    requires world.fault(t).None? && Steady(src.channel) ==> Importable(im, world.directory(t), f, src, taken)
    requires left == TakenBy(im.limits, src.stamps.Some?, taken,
                             im.parse(f, src.content, RecordLimit(im.limits, src.stamps.Some?, taken)).records)
    requires committed ==> world.list(t + 1) == Some(feeds) && Restartable(im, after, f.id, feeds) &&
                           Renamed(im, before, after, t + 1, f, src.content, feeds)
    requires Unhindered(world, t + 1) ==> (committed <==> Candidates(im, world, t + 1, before, f.id, src.content))
    ensures ImportedAt(im, world, before, after, t, f, src, taken, left, committed)
  {
    if committed { CommittedIsLoaded(im, before, after, t + 1, f, src.content, feeds); }
  }

  /** So the bytes are in place and published once, with nothing lost; and if nothing goes wrong around it an
      import is committed exactly if the bytes can be imported and the candidate is accepted. */
  lemma ImportedMeans(im: Importer, world: World, before: State, after: State, t: nat, f: Feed, src: Source, taken: nat,
                      left: nat, committed: bool)
    requires Normal(im.limits) && ImportedAt(im, world, before, after, t, f, src, taken, left, committed)
    ensures !committed ==> after == before
    ensures committed ==>
              && world.list(t + 1).Some? && Renamed(im, before, after, t + 1, f, src.content, world.list(t + 1).value)
              && after.generation == before.generation + 1
              && Restartable(im, after, f.id, world.list(t + 1).value)
              && (EnabledIn(world.list(t + 1).value, f.id) ==> f.id in LoadedIn(after.loads))
    ensures Calm(world, t) && Steady(src.channel) ==>
              (committed <==>
                 && Importable(im, world.directory(t), f, src, taken)
                 && Candidates(im, world, t + 1, before, f.id, src.content))
  {
    assert Imported(im, world, before, after, t, f, src, taken, left, committed);
  }

  /** One feed of a refresh: asked for at moment at, settled by moment done. Of the local records of
      this refresh, taken were counted before and left after it. */
  datatype Visit = Visit(
    feed: Feed, at: nat, before: State, taken: nat, after: State, left: nat, out: Outcome, done: nat)

  predicate Faultless(world: World, from: nat, to: nat) {
    forall u :: from <= u < to ==> world.fault(u).None?
  }

  /** What a visit comes to, by what the download brings. */
  ghost predicate Visited(im: Importer, world: World, v: Visit)
    requires Normal(im.limits)
  {
    && v.at < v.done && !v.out.NotModified?
    && (v.out == Committed(true) ==> !Faultless(world, v.at, v.done))
    && var d := world.download(v.at, v.feed);
       || (d.Opened? && VisitedOpened(im, world, v, d.source))
       || (!d.Opened? && v.left == v.taken &&
           Finished(im, world, v.before, v.after, v.at + 1, v.done, v.feed.id,
                    if d.Unavailable? then Failed(d.why) else NotModified, v.out))
  }

  /** An opened download is installed, or the cache may help a manager with nothing live. */
  ghost predicate VisitedOpened(im: Importer, world: World, v: Visit, src: Source)
    requires Normal(im.limits)
  {
    || (v.out.Committed? && ImportedAt(im, world, v.before, v.after, v.at + 1, v.feed, src, v.taken, v.left, true))
    || (v.out.Failed? && ImportedAt(im, world, v.before, v.before, v.at + 1, v.feed, src, v.taken, v.left, false) &&
        if v.before.generation > 0 then v.after == v.before
        else v.done >= 2 && RebuiltWithAt(im, world, v.before, v.after, v.done - 2, v.feed.id, v.after != v.before))
  }

  /** Asked for a feed at moment at, a download brings this by moment t. */
  ghost predicate Downloaded(im: Importer, world: World, f: Feed, at: nat, before: State, taken: nat, middle: State,
                             left: nat, t: nat, out: Outcome)
    requires Normal(im.limits)
  {
    var d := world.download(at, f);
    || (d.Opened? && at < t && !out.NotModified? && (out.Failed? ==> middle == before) &&
        (out == Committed(true) ==> !Faultless(world, at, t)) &&
        ImportedAt(im, world, before, middle, at + 1, f, d.source, taken, left, out.Committed?))
    || (!d.Opened? && middle == before && t == at + 1 && left == taken &&
        out == if d.Unavailable? then Failed(d.why) else NotModified)
  }

  lemma ClosedIsDownloaded(im: Importer, world: World, f: Feed, at: nat, before: State, taken: nat, out: Outcome)
    requires Normal(im.limits) && !world.download(at, f).Opened?
    requires out == if world.download(at, f).Unavailable? then Failed(world.download(at, f).why) else NotModified
    ensures Downloaded(im, world, f, at, before, taken, before, taken, at + 1, out)
  {
  }

  lemma ImportIsDownloaded(im: Importer, world: World, f: Feed, at: nat, before: State, taken: nat, middle: State,
                           left: nat, t: nat, src: Source, out: Outcome)
    requires Normal(im.limits) && at < t && world.download(at, f) == Opened(src) && !out.NotModified?
    requires ImportedAt(im, world, before, middle, at + 1, f, src, taken, left, out.Committed?)
    requires out == Committed(true) ==> !Faultless(world, at + 1, t)
    ensures Downloaded(im, world, f, at, before, taken, middle, left, t, out)
  {
    ImportedMeans(im, world, before, middle, at + 1, f, src, taken, left, out.Committed?);
  }

  lemma ImportIsVisited(im: Importer, world: World, v: Visit, middle: State, src: Source, downloaded: Outcome)
    requires Normal(im.limits) && !downloaded.NotModified? && (downloaded.Failed? ==> middle == v.before)
    requires ImportedAt(im, world, v.before, middle, v.at + 1, v.feed, src, v.taken, v.left, downloaded.Committed?)
    requires downloaded.Committed? ==> v.out.Committed? && v.after == middle
    requires downloaded.Failed? ==>
               v.out.Failed? &&
               if middle.generation > 0 then v.after == middle
               else v.done >= 2 && RebuiltWithAt(im, world, middle, v.after, v.done - 2, v.feed.id, v.after != middle)
    ensures VisitedOpened(im, world, v, src)
  {
  }

  /** A download that was settled makes a visit. */
  lemma SettledIsVisited(im: Importer, world: World, v: Visit, middle: State, t: nat, downloaded: Outcome)
    requires Normal(im.limits)
    requires Downloaded(im, world, v.feed, v.at, v.before, v.taken, middle, v.left, t, downloaded)
    requires Finished(im, world, middle, v.after, t, v.done, v.feed.id, downloaded, v.out)
    ensures Visited(im, world, v)
  {
    FinishedMeans(im, world, middle, v.after, t, v.done, v.feed.id, downloaded, v.out);
    var d := world.download(v.at, v.feed);
    if d.Opened? {
      ImportIsVisited(im, world, v, middle, d.source, downloaded);
    } else {
      assert middle == v.before && t == v.at + 1;
    }
  }

  lemma VisitIsOne(im: Importer, world: World, v: Visit)
    requires Normal(im.limits) && Visited(im, world, v)
    ensures AllVisited(im, world, [v])
  {
  }

  // ---------- one feed after the other ----------

  function EnabledOf(feeds: seq<Feed>): (enabled: seq<Feed>)
    ensures |enabled| == EnabledCount(feeds)
  {
    if feeds == [] then []
    else EnabledOf(feeds[..|feeds| - 1]) + if feeds[|feeds| - 1].enabled then [feeds[|feeds| - 1]] else []
  }

  lemma {:induction false} EnabledPrefix(feeds: seq<Feed>, i: nat)
    requires i <= |feeds|
    ensures EnabledOf(feeds[..i]) <= EnabledOf(feeds)
    ensures i < |feeds| && feeds[i].enabled ==> |EnabledOf(feeds[..i])| < |EnabledOf(feeds)|
  {
    if i == |feeds| {
      assert feeds[..i] == feeds;
    } else {
      assert feeds[..|feeds| - 1][..i] == feeds[..i];
      EnabledPrefix(feeds[..|feeds| - 1], i);
    }
  }

  lemma EnabledNext(feeds: seq<Feed>, i: nat)
    requires i < |feeds|
    ensures EnabledOf(feeds[..i + 1]) == EnabledOf(feeds[..i]) + if feeds[i].enabled then [feeds[i]] else []
    ensures feeds[i].enabled ==> |EnabledOf(feeds[..i])| < |EnabledOf(feeds)| && EnabledCount(feeds) > 0
    ensures EnabledOf(feeds[..i]) <= EnabledOf(feeds)
  {
    assert feeds[..i + 1][..i] == feeds[..i];
    EnabledPrefix(feeds, i);
  }

  /** A moment of a refresh: the state and how many local records have been counted. */
  datatype Moment = Moment(at: nat, state: State, taken: nat)

  /** Each of these visits came to what its download brings. */
  ghost predicate AllVisited(im: Importer, world: World, visits: seq<Visit>)
    requires Normal(im.limits)
  {
    forall i {:trigger Visited(im, world, visits[i])} :: 0 <= i < |visits| ==> Visited(im, world, visits[i])
  }

  lemma OneMoreVisited(im: Importer, world: World, visits: seq<Visit>, v: Visit)
    requires Normal(im.limits) && AllVisited(im, world, visits) && AllVisited(im, world, [v])
    ensures AllVisited(im, world, visits + [v])
  {
    assert Visited(im, world, [v][0]);
    forall i | 0 <= i < |visits| + 1 ensures Visited(im, world, (visits + [v])[i]) {
      if i < |visits| { assert Visited(im, world, visits[i]); }
    }
  }

  /** These feeds were visited one after the other, and before each the context had not ended. */
  ghost predicate Tour(world: World, start: Moment, feeds: seq<Feed>, visits: seq<Visit>, end: Moment)
    decreases |feeds|
  {
    if feeds == [] then visits == [] && end == start
    else
      && visits != []
      && var v := visits[|visits| - 1];
         && v.feed == feeds[|feeds| - 1] && end == Moment(v.done, v.after, v.left)
         && v.at > 0 && world.fault(v.at - 1).None?
         && Tour(world, start, feeds[..|feeds| - 1], visits[..|visits| - 1], Moment(v.at - 1, v.before, v.taken))
  }

  lemma TourGoesOn(world: World, start: Moment, feeds: seq<Feed>, visits: seq<Visit>, end: Moment, v: Visit)
    requires Tour(world, start, feeds, visits, end) && world.fault(end.at).None?
    requires v.at == end.at + 1 && v.before == end.state && v.taken == end.taken
    ensures Tour(world, start, feeds + [v.feed], visits + [v], Moment(v.done, v.after, v.left))
  {
    var (all, seen) := (feeds + [v.feed], visits + [v]);
    assert all[..|all| - 1] == feeds && seen[..|seen| - 1] == visits && all[|all| - 1] == v.feed;
  }

  lemma {:induction false} TourLength(world: World, start: Moment, feeds: seq<Feed>, visits: seq<Visit>, end: Moment)
    requires Tour(world, start, feeds, visits, end)
    ensures |visits| == |feeds|
    decreases |feeds|
  {
    if feeds != [] {
      var v := visits[|visits| - 1];
      TourLength(world, start, feeds[..|feeds| - 1], visits[..|visits| - 1], Moment(v.at - 1, v.before, v.taken));
    }
  }

  predicate AllWell(visits: seq<Visit>) {
    forall i :: 0 <= i < |visits| ==> visits[i].out == Committed(false)
  }

  /** What the loop over the feeds counts. */
  predicate Tally(visits: seq<Visit>, failures: nat, committed: nat, first: nat, generation: nat) {
    && (failures == 0 <==> AllWell(visits))
    && (failures == 0 ==> committed == |visits| && generation == first + committed)
    && (visits == [] ==> failures == 0)
  }

  lemma TallyMore(visits: seq<Visit>, v: Visit, failures: nat, committed: nat, first: nat, generation: nat, next: nat)
    requires Tally(visits, failures, committed, first, generation) && (v.out.Committed? ==> next == generation + 1)
    ensures Tally(visits + [v], if v.out != Committed(false) then failures + 1 else failures,
                  if v.out.Committed? then committed + 1 else committed, first, next)
  {
    var all := visits + [v];
    assert all[|visits|] == v && forall i :: 0 <= i < |visits| ==> all[i] == visits[i];
  }

  /** Every enabled feed of a listing is visited, in order and whatever the others came to, until the
      context ends; all is well exactly if every feed was visited and committed without a warning. */
  ghost predicate Toured(world: World, start: Moment, feeds: seq<Feed>, visits: seq<Visit>, end: Moment,
                         err: Option<Failure>) {
    || (Tour(world, start, EnabledOf(feeds), visits, end) && (err.None? <==> AllWell(visits)))
    || (|visits| < |EnabledOf(feeds)| && end.at > 0 && err.Some? && err == world.fault(end.at - 1) &&
        Tour(world, start, EnabledOf(feeds)[..|visits|], visits, end.(at := end.at - 1)))
  }

  /** The enabled feeds among the first i were visited. */
  ghost predicate TouredTo(world: World, start: Moment, feeds: seq<Feed>, i: nat, visits: seq<Visit>, end: Moment)
    requires i <= |feeds|
  {
    Tour(world, start, EnabledOf(feeds[..i]), visits, end)
  }

  lemma TourSkips(world: World, start: Moment, feeds: seq<Feed>, i: nat, visits: seq<Visit>, end: Moment)
    requires i < |feeds| && !feeds[i].enabled && TouredTo(world, start, feeds, i, visits, end)
    ensures TouredTo(world, start, feeds, i + 1, visits, end)
  {
    EnabledNext(feeds, i);
    assert EnabledOf(feeds[..i]) + [] == EnabledOf(feeds[..i]);
  }

  /** The visit of a feed leads from one moment to another. */
  ghost predicate Passage(v: Visit, f: Feed, before: Moment, after: Moment) {
    v.feed == f && v.at > 0 && before == Moment(v.at - 1, v.before, v.taken) && after == Moment(v.done, v.after, v.left)
  }

  lemma TourTakes(world: World, start: Moment, feeds: seq<Feed>, i: nat, visits: seq<Visit>, end: Moment, v: Visit,
                  next: Moment)
    requires i < |feeds| && feeds[i].enabled && TouredTo(world, start, feeds, i, visits, end)
    requires world.fault(end.at).None? && Passage(v, feeds[i], end, next)
    ensures TouredTo(world, start, feeds, i + 1, visits + [v], next)
  {
    EnabledNext(feeds, i);
    TourGoesOn(world, start, EnabledOf(feeds[..i]), visits, end, v);
  }

  /** The context ended before the next feed. */
  lemma TourBreaksOff(world: World, start: Moment, feeds: seq<Feed>, i: nat, visits: seq<Visit>, end: Moment,
                      err: Option<Failure>)
    requires i < |feeds| && feeds[i].enabled && err.Some? && world.fault(end.at) == err
    requires TouredTo(world, start, feeds, i, visits, end)
    ensures Toured(world, start, feeds, visits, end.(at := end.at + 1), err)
  {
    EnabledNext(feeds, i);
    TourLength(world, start, EnabledOf(feeds[..i]), visits, end);
    assert EnabledOf(feeds)[..|visits|] == EnabledOf(feeds[..i]);
    assert end.(at := end.at + 1).(at := end.at) == end;
  }

  lemma TourEnds(world: World, start: Moment, feeds: seq<Feed>, visits: seq<Visit>, end: Moment, err: Option<Failure>)
    requires TouredTo(world, start, feeds, |feeds|, visits, end) && (err.None? <==> AllWell(visits))
    ensures Toured(world, start, feeds, visits, end, err) && |visits| == EnabledCount(feeds)
    ensures visits == [] ==> end == start
  {
    assert feeds[..|feeds|] == feeds;
    TourLength(world, start, EnabledOf(feeds), visits, end);
  }

  /** Where the loop over the feeds is, looked into only where a proof names the position. */
  ghost predicate Underway(im: Importer, world: World, start: Moment, feeds: seq<Feed>, n: nat, visits: seq<Visit>,
                           now: Moment, failures: nat, committed: nat)
    requires Normal(im.limits) && n <= |feeds|
  {
    forall i: nat {:trigger TouredTo(world, start, feeds, i, visits, now)} :: i == n ==>
      && TouredTo(world, start, feeds, i, visits, now) && AllVisited(im, world, visits)
      && Tally(visits, failures, committed, start.state.generation, now.state.generation)
  }

  lemma SetsOut(im: Importer, world: World, start: Moment, feeds: seq<Feed>)
    requires Normal(im.limits)
    ensures Underway(im, world, start, feeds, 0, [], start, 0, 0)
  {
    assert feeds[..0] == [] && EnabledOf([]) == [];
    assert Tour(world, start, [], [], start);
    assert TouredTo(world, start, feeds, 0, [], start);
  }

  lemma Skips(im: Importer, world: World, start: Moment, feeds: seq<Feed>, n: nat, visits: seq<Visit>, now: Moment,
              failures: nat, committed: nat)
    requires Normal(im.limits) && n < |feeds| && !feeds[n].enabled
    requires Underway(im, world, start, feeds, n, visits, now, failures, committed)
    ensures Underway(im, world, start, feeds, n + 1, visits, now, failures, committed)
  {
    assert TouredTo(world, start, feeds, n, visits, now);
    TourSkips(world, start, feeds, n, visits, now);
  }

  lemma Takes(im: Importer, world: World, start: Moment, feeds: seq<Feed>, n: nat, visits: seq<Visit>, now: Moment,
              failures: nat, committed: nat, v: Visit, next: Moment)
    requires Normal(im.limits) && n < |feeds| && feeds[n].enabled
    requires Underway(im, world, start, feeds, n, visits, now, failures, committed)
    requires world.fault(now.at).None? && Passage(v, feeds[n], now, next) && AllVisited(im, world, [v])
    requires v.out.Committed? ==> next.state.generation == now.state.generation + 1
    ensures Underway(im, world, start, feeds, n + 1, visits + [v], next,
                     if v.out != Committed(false) then failures + 1 else failures,
                     if v.out.Committed? then committed + 1 else committed)
  {
    assert TouredTo(world, start, feeds, n, visits, now);
    TourTakes(world, start, feeds, n, visits, now, v, next);
    OneMoreVisited(im, world, visits, v);
    TallyMore(visits, v, failures, committed, start.state.generation, now.state.generation, next.state.generation);
  }

  lemma BreaksOff(im: Importer, world: World, start: Moment, feeds: seq<Feed>, n: nat, visits: seq<Visit>, now: Moment,
                  failures: nat, committed: nat)
    requires Normal(im.limits) && n < |feeds| && feeds[n].enabled && world.fault(now.at).Some?
    requires Underway(im, world, start, feeds, n, visits, now, failures, committed)
    ensures Toured(world, start, feeds, visits, now.(at := now.at + 1), world.fault(now.at))
    ensures AllVisited(im, world, visits)
  {
    assert TouredTo(world, start, feeds, n, visits, now);
    TourBreaksOff(world, start, feeds, n, visits, now, world.fault(now.at));
  }

  lemma Arrives(im: Importer, world: World, start: Moment, feeds: seq<Feed>, visits: seq<Visit>, now: Moment,
                failures: nat, committed: nat, err: Option<Failure>)
    requires Normal(im.limits) && (err.None? <==> failures == 0)
    requires Underway(im, world, start, feeds, |feeds|, visits, now, failures, committed)
    ensures Toured(world, start, feeds, visits, now, err) && AllVisited(im, world, visits)
    ensures err.None? ==>
              committed == EnabledCount(feeds) && now.state.generation == start.state.generation + committed
    ensures EnabledCount(feeds) == 0 ==> err.None? && now == start
  {
    assert TouredTo(world, start, feeds, |feeds|, visits, now);
    TourEnds(world, start, feeds, visits, now, err);
  }

  /** The one feed of an ID. */
  method FindFeed(feeds: seq<Feed>, id: string) returns (target: Option<Feed>)
    requires Keyed(feeds)
    ensures forall f :: f in feeds && f.id == id <==> target == Some(f)
  {
    for i := 0 to |feeds|
      invariant forall j :: 0 <= j < i ==> feeds[j].id != id
    {
      if feeds[i].id == id { return Some(feeds[i]); }
    }
    target := None;
  }

  predicate Enables(world: World, t: nat, f: Feed, id: string) {
    world.list(t).Some? && f in world.list(t).value && f.id == id && f.enabled
  }

  /** Refreshing one feed by ID: the enabled feed of that ID is visited, if there is one. */
  ghost predicate Answered(im: Importer, world: World, id: string, start: Moment, end: Moment, out: Option<Outcome>)
    requires Normal(im.limits)
  {
    || (out.None? && end.state == start.state && forall f :: !Enables(world, start.at, f, id))
    || (out.Some? && exists f :: Enables(world, start.at, f, id) && VisitedAlone(im, world, f, start, end, out.value))
  }

  ghost predicate VisitedAlone(im: Importer, world: World, f: Feed, start: Moment, end: Moment, out: Outcome)
    requires Normal(im.limits)
  {
    AllVisited(im, world, [Visit(f, start.at + 1, start.state, 0, end.state, end.taken, out, end.at)])
  }

  lemma Unanswered(im: Importer, world: World, id: string, start: Moment, end: Moment, target: Option<Feed>)
    requires Normal(im.limits) && end.state == start.state && (target.Some? ==> !target.value.enabled)
    requires forall f :: world.list(start.at).Some? && f in world.list(start.at).value && f.id == id ==>
               target == Some(f)
    ensures Answered(im, world, id, start, end, None)
  {
  }

  lemma AnsweredBy(im: Importer, world: World, id: string, start: Moment, end: Moment, f: Feed, out: Outcome)
    requires Normal(im.limits) && Enables(world, start.at, f, id)
    requires AllVisited(im, world, [Visit(f, start.at + 1, start.state, 0, end.state, end.taken, out, end.at)])
    ensures Answered(im, world, id, start, end, Some(out))
  {
    assert VisitedAlone(im, world, f, start, end, out);
  }

  /** So nothing is answered without a change, a commit publishes once, and a failure loses nothing. */
  lemma AnsweredMeans(im: Importer, world: World, id: string, start: Moment, end: Moment, out: Option<Outcome>)
    requires Normal(im.limits) && Answered(im, world, id, start, end, out)
    ensures out.None? ==> end.state == start.state
    ensures out.Some? && out.value.Committed? ==> end.state.generation == start.state.generation + 1
    ensures out.Some? && out.value.Failed? ==>
              end.state.cache == start.state.cache && (start.state.generation > 0 ==> end.state == start.state)
  {
    if out.Some? {
      var f :| Enables(world, start.at, f, id) && VisitedAlone(im, world, f, start, end, out.value);
      var v := Visit(f, start.at + 1, start.state, 0, end.state, end.taken, out.value, end.at);
      assert Visited(im, world, [v][0]);
      VisitedMeans(im, world, v);
    }
  }

  lemma VisitedMeans(im: Importer, world: World, v: Visit)
    requires Normal(im.limits) && Visited(im, world, v)
    ensures v.out.Committed? ==> v.after.generation == v.before.generation + 1
    ensures v.out.Failed? ==> v.after.cache == v.before.cache && (v.before.generation > 0 ==> v.after == v.before)
  {
    var d := world.download(v.at, v.feed);
    if !d.Opened? {
      FinishedMeans(im, world, v.before, v.after, v.at + 1, v.done, v.feed.id,
                    if d.Unavailable? then Failed(d.why) else NotModified, v.out);
    } else if v.out.Committed? {
      ImportedMeans(im, world, v.before, v.after, v.at + 1, v.feed, d.source, v.taken, v.left, true);
    } else if v.before.generation == 0 {
      assert RebuiltWith(im, world, v.before, v.after, v.done - 2, v.feed.id, v.after != v.before);
    }
  }

  lemma ListedIsAll(im: Importer, world: World, start: Moment, feeds: seq<Feed>, visits: seq<Visit>, end: Moment,
                    err: Option<Failure>)
    requires Normal(im.limits) && world.list(start.at) == Some(feeds)
    requires RefreshedListed(im, world, start.(at := start.at + 1), feeds, visits, end, err)
    ensures RefreshedAll(im, world, start, visits, end, err)
  {
  }

  /** A refresh of all feeds: without a listing nothing happens; with one that enables nothing the cache
      decides; otherwise the enabled feeds are visited. */
  ghost predicate RefreshedAll(im: Importer, world: World, start: Moment, visits: seq<Visit>, end: Moment,
                               err: Option<Failure>)
    requires Normal(im.limits)
  {
    var feeds := world.list(start.at);
    || (feeds.None? && err.Some? && visits == [] && end.state == start.state)
    || (feeds.Some? && RefreshedListed(im, world, start.(at := start.at + 1), feeds.value, visits, end, err))
  }

  ghost predicate RebuiltAt(im: Importer, world: World, before: State, after: State, at: nat, err: Option<Failure>)
    requires Normal(im.limits)
  {
    forall t {:trigger Rebuilt(im, world, before, after, t, err)} ::
      t == at ==> Rebuilt(im, world, before, after, t, err)
  }

  ghost predicate RefreshedListed(im: Importer, world: World, start: Moment, feeds: seq<Feed>, visits: seq<Visit>,
                                  end: Moment, err: Option<Failure>)
    requires Normal(im.limits)
  {
    || (EnabledCount(feeds) == 0 && visits == [] && RebuiltAt(im, world, start.state, end.state, start.at, err))
    || (EnabledCount(feeds) > 0 && Toured(world, start, feeds, visits, end, err) && AllVisited(im, world, visits))
  }

  class Manager {
    const im: Importer
    const world: World
    var cache: map<string, Bytes>
    var published: Index
    var generation: nat
    var loads: map<string, FeedLoad>
    var localRecords: nat
    var tick: nat
    ghost var history: History

    ghost predicate Sound()
      reads this
    {
      && im.Valid()
      && Shaped(published) && ChargeOf(ClaimSet(published)) <= IndexCapacity(im.limits)
      && localRecords <= im.limits.localRecords
      && generation == Length(history) && Recorded(world, history, tick, loads)
      && Listed(world)
    }

    /** Either nothing has been published yet, or something has. */
    ghost predicate Valid()
      reads this
    {
      (generation == 0 && history == Start && Sound()) || (generation > 0 && history.Then? && Sound())
    }

    constructor (im: Importer, world: World, cache: map<string, Bytes>)
      requires im.Valid() && Listed(world)
      ensures Valid() && this.im == im && this.world == world && this.cache == cache && history == Start
      ensures loads == map[] && tick == 0
    {
      this.im, this.world, this.cache := im, world, cache;
      published, generation, loads, localRecords, tick, history := EMPTY_INDEX, 0, map[], 0, 0, Start;
      new;
      assert ClaimSet(EMPTY_INDEX) == {};
    }

    /** What a query or a restart can see. */
    ghost function View(): State
      reads this
    {
      State(cache, published, loads, generation, history)
    }

    /** Builds a candidate beside the published index. */
    method Build(req: Request, interrupt: Option<nat>)
      returns (err: Option<Failure>, ix: Index, next: map<string, FeedLoad>)
      requires Valid()
      ensures err.None? ==> Built(im, req, ix, next)
      ensures err.Some? ==> interrupt.Some? || CandidateResult(im, req).None?
    {
      ghost var log;
      err, ix, next, log := Candidate(im, req, published, interrupt);
    }

    /** Builds a candidate from the current listing. */
    method Prepare(override: string, staged: Option<Bytes>, retain: bool)
      returns (err: Option<Failure>, ix: Index, next: map<string, FeedLoad>, feeds: seq<Feed>)
      requires Valid()
      modifies this`tick
      ensures Valid() && tick == old(tick) + 1
      ensures err.None? ==> world.list(old(tick)) == Some(feeds)
      ensures err.None? ==>
                Built(im, Request(ByPriority(feeds), cache, override, staged, Required(loads, retain)), ix, next)
      ensures err.None? && retain ==> Kept(Publication(old(tick), loads, feeds, next))
      ensures err.Some? ==> Denied(world, old(tick), im, cache, override, staged, Required(loads, retain))
    {
      var listed, interrupt := world.list(tick), world.interrupt(tick);
      tick := tick + 1;
      feeds, ix, next := [], published, loads;
      if listed.None? { return Some(Missing), ix, next, feeds; }
      feeds := listed.value;
      var req := Request(ByPriority(feeds), cache, override, staged, Required(loads, retain));
      err, ix, next := Build(req, interrupt);
      if err.None? && retain {
        RetainingKeeps(im, req, tick - 1, loads);
        SameListing(tick - 1, loads, feeds, next);
      }
    }

    /** Publishes a candidate. */
    method Publish(ix: Index, next: map<string, FeedLoad>, ghost at: nat, ghost feeds: seq<Feed>, ghost req: Request)
      requires Valid() && Built(im, req, ix, next) && at < tick && world.list(at) == Some(feeds)
      requires Recorded(world, history, at, loads)
      modifies this`published, this`loads, this`generation, this`history
      ensures Valid() && published == ix && loads == next && generation == old(generation) + 1
      ensures history == Then(old(history), Publication(at, old(loads), feeds, next))
    {
      BuiltFits(im, req, ix, next);
      published, loads, generation := ix, next, generation + 1;
      history := Then(history, Publication(at, old(loads), feeds, next));
    }

    /** Imports one download: copy, validate, build, rename, publish. The rename commits. */
    method Snapshot(f: Feed, src: Source) returns (out: Outcome)
      requires Valid()
      modifies this
      ensures Valid() && !out.NotModified? && old(tick) <= tick && KeptSince(history, old(history), old(tick))
      ensures generation == old(generation) + if out.Committed? then 1 else 0
      ensures out.Failed? ==> View() == old(View())
      ensures ImportedAt(im, world, old(View()), View(), old(tick), f, src, old(localRecords), localRecords,
                         out.Committed?)
      ensures out == Committed(true) ==> !Faultless(world, old(tick), tick)
    {
      ghost var (start, before, taken) := (tick, View(), localRecords);
      var err, staged := Stage(f, src);
      assert View() == before;
      if err.Some? {
        StagingFailed(im, world, before, start, f, src, taken, localRecords);
        return Failed(err.value);
      }
      ghost var feeds;
      out, feeds := Install(f, staged);
      if out.Committed? { OneKept(history, start); }
      InstalledIsImported(im, world, before, View(), start, f, src, taken, localRecords, feeds, out.Committed?);
    }

    /** Commits staged bytes; what that gives is what a restart would build. */
    method Install(f: Feed, staged: Bytes) returns (out: Outcome, ghost feeds: seq<Feed>)
      requires Valid()
      modifies this`cache, this`tick, this`published, this`loads, this`generation, this`history
      ensures Valid() && !out.NotModified? && old(tick) <= tick
      ensures out.Committed? ==> world.list(old(tick)) == Some(feeds)
      ensures out == Committed(true) ==> !Faultless(world, old(tick), tick)
      ensures out.Failed? ==> View() == old(View())
      ensures out.Committed? ==> Renamed(im, old(View()), View(), old(tick), f, staged, feeds)
      ensures out.Committed? ==> Restartable(im, View(), f.id, feeds)
      ensures Unhindered(world, old(tick)) ==>
                (out.Committed? <==> Candidates(im, world, old(tick), old(View()), f.id, staged))
    {
      out, feeds := Commit(f, staged);
      if Unhindered(world, old(tick)) {
        CommittedExactly(im, world, old(tick), old(View()), View(), f.id, staged, feeds, out);
      }
      if out.Committed? { OwnerRestarts(im, old(View()), View(), old(tick), f, staged, feeds); }
    }

    method Stage(f: Feed, src: Source) returns (err: Option<Failure>, staged: Bytes)
      requires Valid()
      modifies this`tick, this`localRecords
      ensures Valid() && tick == old(tick) + 1
      ensures err.None? ==> staged == src.content && staged != [] && |staged| <= im.maxBytes
      ensures err.None? ==>
                localRecords ==
                TakenBy(im.limits, src.stamps.Some?, old(localRecords),
                        im.parse(f, staged, RecordLimit(im.limits, src.stamps.Some?, old(localRecords))).records)
      ensures world.fault(old(tick)).None? && Steady(src.channel) ==>
                (err.None? <==> Importable(im, world.directory(old(tick)), f, src, old(localRecords)))
    {
      var start := tick;
      tick := tick + 1;
      staged := [];
      if src.stamps.Some? && src.stamps.value.0.size > im.maxBytes { return Some(Limit), staged; }
      var available := TempAvailable(im.limits, world.directory(start));
      if available.None? { return Some(Limit), staged; }
      var max := if available.value < im.maxBytes then available.value else im.maxBytes;
      err := world.fault(start);
      if err.Some? { return; }
      err, staged := CopyBounded(src.content, max, src.channel);
      if err.Some? { return; }
      if staged == [] { return Some(Malformed), staged; }
      if src.stamps.Some? {
        var (before, after) := src.stamps.value;
        if after.size > im.maxBytes { return Some(Limit), staged; }
        if before != after || |staged| != after.size { return Some(Malformed), staged; }
      }
      err, localRecords := Validate(im, published, f, staged, src.stamps.Some?, localRecords);
    }

    /** Builds the candidate with the staged bytes, then renames and publishes. */
    method Commit(f: Feed, staged: Bytes) returns (out: Outcome, ghost feeds: seq<Feed>)
      requires Valid()
      modifies this`cache, this`tick, this`published, this`loads, this`generation, this`history
      ensures out == Committed(true) ==> !Faultless(world, old(tick), tick)
      ensures Valid() && !out.NotModified? && old(tick) <= tick
      ensures out.Failed? ==> View() == old(View())
      ensures out.Committed? ==>
                Renamed(im, old(View()), View(), old(tick), f, staged, feeds) && world.list(old(tick)) == Some(feeds)
      ensures out.Failed? ==> world.fault(old(tick) + 1).Some? ||
                              Denied(world, old(tick), im, old(cache), f.id, Some(staged), LoadedIn(old(loads)))
    {
      var start := tick;
      var err, ix, next, listing := Prepare(f.id, Some(staged), true);
      feeds := listing;
      if err.Some? { return Failed(err.value), feeds; }
      tick := tick + 1;
      if world.fault(start + 1).Some? { return Failed(world.fault(start + 1).value), feeds; }
      Replace(f, staged, ix, next, start, feeds);
      out := Committed(world.fault(tick).Some?);
      tick := tick + 1;
    }

    /** Renames the staged bytes into place and publishes what was built with them. */
    method Replace(f: Feed, staged: Bytes, ix: Index, next: map<string, FeedLoad>, ghost at: nat,
                   ghost feeds: seq<Feed>)
      requires Valid() && at < tick && world.list(at) == Some(feeds) && Recorded(world, history, at, loads)
      requires Built(im, Committing(ByPriority(feeds), cache, f.id, staged, LoadedIn(loads)), ix, next)
      modifies this`cache, this`published, this`loads, this`generation, this`history
      ensures Valid() && cache == old(cache)[CacheName(f.id) := staged]
      ensures published == ix && loads == next && generation == old(generation) + 1
      ensures history == Then(old(history), Publication(at, old(loads), feeds, next))
    {
      cache := cache[CacheName(f.id) := staged];
      Publish(ix, next, at, feeds, Committing(ByPriority(feeds), old(cache), f.id, staged, LoadedIn(old(loads))));
    }

    /** Rebuilds from the cache; with a required feed, protection is retained. */
    method Rebuild(required: string) returns (err: Option<Failure>, ghost feeds: seq<Feed>)
      requires Valid()
      modifies this`tick, this`published, this`loads, this`generation, this`history
      ensures Valid() && cache == old(cache) && tick == old(tick) + 1
      ensures err.Some? ==>
                && View() == old(View())
                && Unbuildable(world, old(tick), im, cache, required, Required(old(loads), required != ""))
      ensures err.None? ==>
                && PublishedOnce(im, old(View()), View(), old(tick), required != "", "", None, feeds)
                && world.list(old(tick)) == Some(feeds)
      ensures err.None? && required != "" ==> required in LoadedIn(loads)
      ensures required != "" ==> RebuiltWith(im, world, old(View()), View(), old(tick), required, err.None?)
    {
      var start := tick;
      var ix, next, listing;
      err, ix, next, listing := Prepare("", None, required != "");
      feeds := listing;
      if err.Some? { return; }
      if required != "" && !(required in next && next[required].Loaded?) { return Some(Missing), feeds; }
      Publish(ix, next, start, feeds,
              Request(ByPriority(feeds), cache, "", None, Required(old(loads), required != "")));
    }

    /** Rebuilds from the cache, retaining what is loaded, with this feed in it. */
    method TryCache(f: Feed) returns (err: Option<Failure>)
      requires Valid() && f.id != ""
      modifies this`tick, this`published, this`loads, this`generation, this`history
      ensures Valid() && tick == old(tick) + 1 && KeptSince(history, old(history), old(tick))
      ensures RebuiltWithAt(im, world, old(View()), View(), old(tick), f.id, err.None?)
      ensures err.None? <==> View() != old(View())
    {
      ghost var used;
      err, used := Rebuild(f.id);
      if err.None? { OneKept(history, old(tick)); }
    }

    /** Records an outcome; if that fails, a committed feed is committed with a warning. */
    method Record(settled: Outcome) returns (out: Outcome)
      requires Valid() && !settled.NotModified?
      modifies this`tick
      ensures Valid() && tick == old(tick) + 1 && View() == old(View())
      ensures match settled
              case Committed(warned) => out == Committed(warned || world.fault(old(tick)).Some?)
              case Failed(why) =>
                out == Failed(if world.fault(old(tick)).Some? then world.fault(old(tick)).value else why)
    {
      out := settled;
      if world.fault(tick).Some? {
        out := if out.Committed? then Committed(true) else Failed(world.fault(tick).value);
      }
      tick := tick + 1;
    }

    /** Settles one feed's download. Nothing live is rebuilt after a failure; a manager
        that has published nothing yet may fall back to its cache. */
    method FinishRefresh(f: Feed, downloaded: Outcome) returns (out: Outcome)
      requires Valid() && f.id != "" && (downloaded.Committed? ==> generation > 0)
      modifies this`tick, this`published, this`loads, this`generation, this`history
      ensures Valid() && old(tick) <= tick && KeptSince(history, old(history), old(tick))
      ensures Finished(im, world, old(View()), View(), old(tick), tick, f.id, downloaded, out)
    {
      out := downloaded;
      if (out.Failed? || out == Committed(true)) && generation == 0 {
        var _ := TryCache(f);
      }
      if out.NotModified? {
        var err := TryCache(f);
        out := if err.Some? then Failed(err.value) else Committed(false);
      }
      out := Record(out);
    }

    /** Downloads one feed, and imports what it brings. */
    method Fetch(f: Feed) returns (out: Outcome)
      requires Valid() && f.id != ""
      modifies this
      ensures Valid() && old(tick) <= tick && KeptSince(history, old(history), old(tick))
      ensures out.Committed? ==> generation == old(generation) + 1
      ensures !out.Committed? ==> View() == old(View())
      ensures Downloaded(im, world, f, old(tick), old(View()), old(localRecords), View(), localRecords, tick, out)
    {
      var download := world.download(tick, f);
      ghost var (base, start, before, taken) := (history, tick, View(), localRecords);
      tick := tick + 1;
      assert View() == before;
      match download {
        case Unavailable(why) =>
          out := Failed(why);
          ClosedIsDownloaded(im, world, f, start, before, taken, out);
        case Unchanged =>
          out := NotModified;
          ClosedIsDownloaded(im, world, f, start, before, taken, out);
        case Opened(source) =>
          out := Snapshot(f, source);
          KeptSooner(history, base, start);
          ImportIsDownloaded(im, world, f, start, before, taken, View(), localRecords, tick, source, out);
      }
    }

    /** Downloads one feed and settles it. */
    method RefreshOne(f: Feed) returns (out: Outcome)
      requires Valid() && f.id != ""
      modifies this
      ensures Valid() && old(tick) <= tick && KeptSince(history, old(history), old(tick)) && !out.NotModified?
      ensures out.Committed? ==> generation == old(generation) + 1
      ensures AllVisited(im, world, [Visit(f, old(tick), old(View()), old(localRecords), View(), localRecords, out,
                                           tick)])
    {
      ghost var (base, start, before, taken) := (history, tick, View(), localRecords);
      var downloaded := Fetch(f);
      ghost var (h, t, middle) := (history, tick, View());
      out := FinishRefresh(f, downloaded);
      KeptThrough(history, h, base, start, t);
      FinishedMeans(im, world, middle, View(), t, tick, f.id, downloaded, out);
      ghost var v := Visit(f, start, before, taken, View(), localRecords, out, tick);
      SettledIsVisited(im, world, v, middle, t, downloaded);
      VisitIsOne(im, world, v);
    }

    ghost function Now(): Moment
      reads this
    {
      Moment(tick, View(), localRecords)
    }

    /** Refreshes one feed by ID. */
    method RefreshFeed(id: string) returns (err: Option<Failure>, out: Option<Outcome>)
      requires Valid()
      modifies this
      ensures Valid() && old(tick) <= tick && KeptSince(history, old(history), old(tick))
      ensures err.None? <==> out == Some(Committed(false))
      ensures Answered(im, world, id, Moment(old(tick), old(View()), 0), Now(), out)
    {
      localRecords := 0;
      ghost var (base, start) := (history, tick);
      var feeds := world.list(tick);
      tick := tick + 1;
      ghost var now := Now();
      assert now == Moment(start + 1, old(View()), 0);
      err, out := Some(Missing), None;
      var target := None;
      if feeds.Some? {
        target := FindFeed(feeds.value, id);
        if target.Some? && !target.value.enabled { err := Some(Malformed); }
      }
      if target.Some? && target.value.enabled {
        var settled := RefreshOne(target.value);
        KeptSooner(history, base, start);
        AnsweredBy(im, world, id, Moment(start, now.state, 0), Now(), target.value, settled);
        err := if settled == Committed(false) then None
               else if settled.Failed? then Some(settled.why) else Some(Malformed);
        out := Some(settled);
      } else {
        Unanswered(im, world, id, Moment(start, now.state, 0), now, target);
      }
    }

    /** Downloads and settles the next enabled feed, unless the context has ended. */
    method RefreshNext(f: Feed) returns (ended: Option<Failure>, out: Outcome, ghost v: Visit)
      requires Valid() && f.id != ""
      modifies this
      ensures Valid() && old(tick) < tick && KeptSince(history, old(history), old(tick))
      ensures ended == world.fault(old(tick))
      ensures ended.Some? ==> Now() == old(Now()).(at := old(tick) + 1)
      ensures ended.None? ==> Passage(v, f, old(Now()), Now()) && AllVisited(im, world, [v]) && v.out == out
      ensures ended.None? && out.Committed? ==> generation == old(generation) + 1
    {
      ghost var before := Now();
      ended, out := world.fault(tick), NotModified;
      v := Visit(f, 0, before.state, 0, before.state, 0, out, 0);
      tick := tick + 1;
      ghost var now := Now();
      assert now == before.(at := before.at + 1);
      if ended.Some? { return; }
      out := RefreshOne(f);
      v := Visit(f, now.at, now.state, now.taken, View(), localRecords, out, tick);
      KeptSooner(history, old(history), before.at);
    }

    /** Downloads and settles every enabled feed of a listing. */
    method RefreshEach(feeds: seq<Feed>) returns (err: Option<Failure>, committed: nat, ghost visits: seq<Visit>)
      requires Valid() && Keyed(feeds)
      modifies this
      ensures Valid() && old(tick) <= tick && KeptSince(history, old(history), old(tick))
      ensures Toured(world, old(Now()), feeds, visits, Now(), err) && AllVisited(im, world, visits)
      ensures err.None? ==> committed == EnabledCount(feeds) && generation == old(generation) + committed
      ensures EnabledCount(feeds) == 0 ==> err.None? && committed == 0 && Now() == old(Now())
    {
      var failures: nat := 0;
      ghost var (base, start) := (history, Now());
      committed, visits := 0, [];
      SetsOut(im, world, start, feeds);
      for i := 0 to |feeds|
        invariant Valid() && start.at <= tick && KeptSince(history, base, start.at)
        invariant Underway(im, world, start, feeds, i, visits, Now(), failures, committed)
      {
        if feeds[i].enabled {
          ghost var (h, before) := (history, Now());
          var ended, out;
          ghost var v;
          ended, out, v := RefreshNext(feeds[i]);
          KeptThrough(history, h, base, start.at, before.at);
          if ended.Some? {
            BreaksOff(im, world, start, feeds, i, visits, before, failures, committed);
            return ended, committed, visits;
          }
          Takes(im, world, start, feeds, i, visits, before, failures, committed, v, Now());
          visits := visits + [v];
          if out.Committed? { committed := committed + 1; }
          if out != Committed(false) { failures := failures + 1; }
        } else {
          Skips(im, world, start, feeds, i, visits, Now(), failures, committed);
        }
      }
      err := if failures != 0 then Some(Malformed) else None;
      Arrives(im, world, start, feeds, visits, Now(), failures, committed, err);
    }

    /** Rebuilds from the cache without retaining anything: at the start, and whenever a feed
        is switched on or off. */
    method LoadFromCache() returns (err: Option<Failure>)
      requires Valid()
      modifies this
      ensures Valid() && tick == old(tick) + 1 && Rebuilt(im, world, old(View()), View(), old(tick), err)
    {
      ghost var used;
      err, used := Rebuild("");
      if err.None? { ExactlyKept(im, used, cache, published, history.last); }
    }

    /** Refreshes every enabled feed. Without one it rebuilds, retaining nothing. */
    method Refresh() returns (err: Option<Failure>, ghost visits: seq<Visit>)
      requires Valid()
      modifies this
      ensures Valid()
      ensures RefreshedAll(im, world, Moment(old(tick), old(View()), 0), visits, Now(), err)
      ensures Guarded(world, old(tick)) ==> KeptSince(history, old(history), old(tick))
      ensures err.None? ==> world.list(old(tick)).Some? &&
                            var n := EnabledCount(world.list(old(tick)).value);
                            generation == old(generation) + if n == 0 then 1 else n
    {
      localRecords := 0;
      var listed := world.list(tick);
      tick := tick + 1;
      ghost var before := history;
      ghost var (start, now) := (Moment(old(tick), old(View()), 0), Now());
      assert now == start.(at := start.at + 1);
      err, visits := Some(Missing), [];
      if listed.Some? {
        err, visits := RefreshListed(listed.value);
        ListedIsAll(im, world, start, listed.value, visits, Now(), err);
      }
      assert Guarded(world, start.at) ==> KeptSince(history, before, start.at + 1);
      KeptSooner(history, before, start.at);
    }

    method RefreshListed(feeds: seq<Feed>) returns (err: Option<Failure>, ghost visits: seq<Visit>)
      requires Valid() && Keyed(feeds)
      modifies this
      ensures Valid()
      ensures RefreshedListed(im, world, old(Now()), feeds, visits, Now(), err)
      ensures EnabledCount(feeds) > 0 || Idle(world, old(tick)) ==> KeptSince(history, old(history), old(tick))
      ensures err.None? ==>
                generation == old(generation) + if EnabledCount(feeds) == 0 then 1 else EnabledCount(feeds)
    {
      var committed;
      err, committed, visits := RefreshEach(feeds);
      if err.None? && committed == 0 { err := RebuildIdle(); }
    }

    /** With nothing enabled to refresh, the cache decides. */
    method RebuildIdle() returns (err: Option<Failure>)
      requires Valid()
      modifies this
      ensures Valid() && Rebuilt(im, world, old(View()), View(), old(tick), err)
      ensures Idle(world, old(tick)) ==> KeptSince(history, old(history), old(tick))
    {
      err := LoadFromCache();
      if err.None? && EnabledCount(history.last.feeds) == 0 {
        NoneToRead(im, history.last.feeds, cache, old(loads));
        OneKept(history, old(tick));
      }
    }

    /** Somebody removes a file from the cache directory. */
    method Vanish(name: string)
      requires Valid()
      modifies this`cache
      ensures Valid() && cache == old(cache) - {name}
    {
      cache := cache - {name};
    }
  }

  /** One feed, switched off when the first refresh lists the feeds and on again when it rebuilds. */
  function Switching(f: Feed): World {
    World(t => Some(if t == 1 then [f.(enabled := false)] else [f]), t => None, t => None, t => [],
          (t, g) => Unavailable(Missing))
  }

  lemma SwitchingIsListed(f: Feed)
    requires f.id != "" && f.enabled
    ensures Listed(Switching(f)) && !Guarded(Switching(f), 1)
    ensures EnabledCount(Switching(f).list(1).value) == 0 && Switching(f).list(2) == Some([f])
  {
    Alone(f);
    Alone(f.(enabled := false));
  }

  /** With its file in the cache, the feed is loaded at the start. */
  lemma ColdStartLoads(limits: Limits, f: Feed, maxBytes: nat, before: State, after: State, err: Option<Failure>)
    requires Normal(limits) && f.enabled && f.id != "" && CacheName(f.id) in before.cache
    requires forall name :: name in before.cache ==> |before.cache[name]| <= maxBytes
    requires Rebuilt(Blank(limits, maxBytes), Switching(f), before, after, 0, err)
    ensures f.id in LoadedIn(after.loads) && after.cache == before.cache && after.history.Then?
    ensures after.history.earlier == before.history && after.history.last.after == after.loads
  {
    Alone(f);
    OneFeedRebuild(limits, f, maxBytes, before.cache);
  }

  /** A manager that loaded the feed, whose file is then gone. */
  method LoadedThenGone(limits: Limits, f: Feed, content: Bytes) returns (m: Manager)
    requires Normal(limits) && f.enabled && f.id != ""
    ensures fresh(m) && m.Valid() && m.im == Blank(limits, |content|) && m.world == Switching(f) && m.tick == 1
    ensures m.cache == map[] && f.id in LoadedIn(m.loads)
    ensures m.history.Then? && m.history.earlier == Start && m.history.last.after == m.loads
  {
    var file := map[CacheName(f.id) := content];
    SwitchingIsListed(f);
    m := new Manager(Blank(limits, |content|), Switching(f), file);
    ghost var before := m.View();
    var err := m.LoadFromCache();
    ColdStartLoads(limits, f, |content|, before, m.View(), err);
    m.Vanish(CacheName(f.id));
    assert m.cache == map[];
  }

  /** A run in which a refresh loses a feed. */
  method RefreshLosesAFeed(limits: Limits, f: Feed, content: Bytes) returns (m: Manager)
    requires Normal(limits) && f.enabled && f.id != ""
    ensures fresh(m) && m.Valid() && m.history.Then? && m.history.earlier.Then? && m.history.earlier.earlier == Start
    ensures var first, last := m.history.earlier.last, m.history.last;
            && f.id in LoadedIn(first.after) && first.after == last.before
            && EnabledIn(last.feeds, f.id) && f.id !in LoadedIn(last.after) && !Kept(last)
  {
    m := LoadedThenGone(limits, f, content);
    Alone(f);
    SwitchingIsListed(f);
    OneFeedRebuild(limits, f, |content|, map[]);
    ghost var before := m.View();
    var err, _ := m.Refresh();
    assert Rebuilt(m.im, m.world, before, m.View(), 2, err);
    assert [f][0].enabled && EnabledIn([f], f.id);
  }

  /** Rebuilding from this one feed is accepted, and loads it exactly if its file is there. */
  lemma OneFeedRebuild(limits: Limits, f: Feed, maxBytes: nat, cache: map<string, Bytes>)
    requires Normal(limits) && f.enabled && f.id != "" && forall name :: name in cache ==> |cache[name]| <= maxBytes
    ensures var r := CandidateResult(Blank(limits, maxBytes), FromDisk([f], cache));
            r.Some? && (f.id in LoadedIn(r.value.1) <==> CacheName(f.id) in cache)
  {
    Alone(f);
    BlankRun(limits, maxBytes, FromDisk([f], cache), 1);
    LoadedExactlyIfReadable(Blank(limits, maxBytes), FromDisk([f], cache), 1, 0);
    assert ChargeOf(Flat([])) == 0;
  }

  lemma Alone(f: Feed)
    ensures ByPriority([f]) == [f] && EnabledCount([f]) == (if f.enabled then 1 else 0) && Keyed([f]) == (f.id != "")
  {
    assert [f][..0] == [] && Sort([f], Precedes) == Insert(Sort([], Precedes), f, Precedes);
  }

  /** A refresh beginning at moment t has no listing, finds an enabled feed, or rebuilds from a
      listing without one. */
  predicate Guarded(world: World, t: nat) {
    world.list(t).None? || EnabledCount(world.list(t).value) > 0 || Idle(world, t + 1)
  }

  /** A listing that enables nothing, or none. */
  predicate Idle(world: World, t: nat) {
    world.list(t).None? || EnabledCount(world.list(t).value) == 0
  }

  lemma NoneToRead(im: Importer, feeds: seq<Feed>, cache: map<string, Bytes>, before: map<string, FeedLoad>)
    requires EnabledCount(feeds) == 0
    ensures AllReadable(im, feeds, cache, before)
  {
    EnabledCounts(feeds);
  }

  /** The exact condition, for the order in which the candidate took the feeds. */
  lemma ExactlyKept(im: Importer, feeds: seq<Feed>, cache: map<string, Bytes>, ix: Index, p: Publication)
    requires Normal(im.limits) && DistinctIds(feeds) && p.feeds == feeds
    requires Built(im, FromDisk(ByPriority(feeds), cache), ix, p.after)
    ensures Kept(p) <==> AllReadable(im, feeds, cache, p.before)
  {
    SortedByPriority(feeds);
    StillDistinct(feeds, ByPriority(feeds));
    KeepsExactlyIfReadable(im, ByPriority(feeds), cache, p.at, p.before);
    assert Kept(Publication(p.at, p.before, ByPriority(feeds), p.after)) <==>
           AllReadable(im, ByPriority(feeds), cache, p.before);
    SameMembers(feeds, im, cache, p);
  }

  lemma SameMembers(feeds: seq<Feed>, im: Importer, cache: map<string, Bytes>, p: Publication)
    requires p.feeds == feeds
    ensures Kept(Publication(p.at, p.before, ByPriority(feeds), p.after)) <==> Kept(p)
    ensures AllReadable(im, ByPriority(feeds), cache, p.before) <==> AllReadable(im, feeds, cache, p.before)
  {
    SortedByPriority(feeds);
    forall f: Feed ensures f in ByPriority(feeds) <==> f in feeds {
      assert f in multiset(feeds) <==> f in multiset(ByPriority(feeds));
    }
    forall id ensures EnabledIn(ByPriority(feeds), id) <==> EnabledIn(feeds, id) {
      EnabledMembers(feeds, ByPriority(feeds), id);
    }
  }

  lemma EnabledMembers(a: seq<Feed>, b: seq<Feed>, id: string)
    requires forall f :: f in a <==> f in b
    ensures EnabledIn(a, id) <==> EnabledIn(b, id)
  {
    EnabledMember(a, b, id);
    EnabledMember(b, a, id);
  }

  lemma EnabledMember(a: seq<Feed>, b: seq<Feed>, id: string)
    requires forall f :: f in a ==> f in b
    ensures EnabledIn(a, id) ==> EnabledIn(b, id)
  {
    if i :| 0 <= i < |a| && a[i].enabled && a[i].id == id {
      assert a[i] in b;
      var j :| 0 <= j < |b| && b[j] == a[i];
    }
  }

  /** Nothing could be built from the listing of moment t. */
  ghost predicate Denied(world: World, t: nat, im: Importer, cache: map<string, Bytes>, override: string,
                         staged: Option<Bytes>, retained: set<string>)
    requires Normal(im.limits)
  {
    || world.list(t).None? || world.interrupt(t).Some?
    || CandidateResult(im, Request(ByPriority(world.list(t).value), cache, override, staged, retained)).None?
  }

  /** No candidate from the cache has the required feed loaded. */
  ghost predicate Unbuildable(world: World, t: nat, im: Importer, cache: map<string, Bytes>, required: string,
                              retained: set<string>)
    requires Normal(im.limits)
  {
    || Denied(world, t, im, cache, "", None, retained)
    || var req := Request(ByPriority(world.list(t).value), cache, "", None, retained);
       required != "" && required !in LoadedIn(CandidateResult(im, req).value.1)
  }

  lemma BuiltFits(im: Importer, req: Request, ix: Index, loads: map<string, FeedLoad>)
    requires Normal(im.limits) && Built(im, req, ix, loads)
    ensures Shaped(ix) && ChargeOf(ClaimSet(ix)) <= IndexCapacity(im.limits)
  {
  }

  lemma SameListing(at: nat, before: map<string, FeedLoad>, feeds: seq<Feed>, after: map<string, FeedLoad>)
    requires Kept(Publication(at, before, ByPriority(feeds), after))
    ensures Kept(Publication(at, before, feeds, after))
  {
    SortedByPriority(feeds);
    forall id | EnabledIn(feeds, id) ensures EnabledIn(ByPriority(feeds), id) {
      var i :| 0 <= i < |feeds| && feeds[i].enabled && feeds[i].id == id;
      assert feeds[i] in multiset(feeds);
      assert feeds[i] in ByPriority(feeds);
    }
  }

  /** This ID and every listed one is its own file name. */
  predicate IssuedSafely(feeds: seq<Feed>, id: string) {
    SafeId(id) && forall i :: 0 <= i < |feeds| ==> SafeId(feeds[i].id)
  }

  lemma SameFiles(feeds: seq<Feed>, id: string)
    requires Keyed(feeds) && OwnsItsFile(feeds, id)
    ensures Keyed(ByPriority(feeds)) && OwnsItsFile(ByPriority(feeds), id)
  {
    SortedByPriority(feeds);
    StillDistinct(feeds, ByPriority(feeds));
    forall i | 0 <= i < |feeds| ensures ByPriority(feeds)[i] in feeds {
      assert ByPriority(feeds)[i] in multiset(ByPriority(feeds));
    }
    assert |multiset(feeds)| == |feeds| && |multiset(ByPriority(feeds))| == |ByPriority(feeds)|;
  }

  /** Rebuilding after the rename gives the published index and loads again. */
  lemma RestartAgrees(im: Importer, feeds: seq<Feed>, cache: map<string, Bytes>, id: string, content: Bytes,
                      retained: set<string>,
                      ix: Index, loads: map<string, FeedLoad>)
    requires Normal(im.limits) && Keyed(feeds) && OwnsItsFile(feeds, id)
    requires Built(im, Request(ByPriority(feeds), cache, id, Some(content), retained), ix, loads)
    ensures Built(im, FromDisk(ByPriority(feeds), cache[CacheName(id) := content]), ix, loads)
  {
    SameFiles(feeds, id);
    var req := Request(ByPriority(feeds), cache, id, Some(content), retained);
    var log :| CandidateResult(im, req) == Some((log, loads)) && Represents(ix, log);
    CommitMatchesDisk(im, req, id, content, {});
    assert CandidateResult(im, FromDisk(ByPriority(feeds), cache[CacheName(id) := content])) == Some((log, loads));
    assert Represents(ix, log);
  }

  /** Building from the cache gives the published index and loads. */
  ghost predicate OnDisk(im: Importer, s: State, feeds: seq<Feed>)
    requires Normal(im.limits)
  {
    Built(im, FromDisk(ByPriority(feeds), s.cache), s.published, s.loads)
  }

  lemma OwnerRestarts(im: Importer, before: State, after: State, t: nat, f: Feed, content: Bytes, feeds: seq<Feed>)
    requires Normal(im.limits) && Keyed(feeds) && Renamed(im, before, after, t, f, content, feeds)
    ensures Restartable(im, after, f.id, feeds)
  {
    if IssuedSafely(feeds, f.id) { SafeIdsOwnTheirFiles(feeds, f.id); }
    if OwnsItsFile(feeds, f.id) {
      RestartAgrees(im, feeds, before.cache, f.id, content, LoadedIn(before.loads), after.published, after.loads);
    }
  }

  /** The candidate from the listing of moment t with these bytes is accepted. */
  ghost predicate Candidates(im: Importer, world: World, t: nat, before: State, id: string, content: Bytes)
    requires Normal(im.limits) && world.list(t).Some?
  {
    CandidateResult(im, Committing(ByPriority(world.list(t).value), before.cache, id, content,
                                   LoadedIn(before.loads))).Some?
  }

  /** A commit loads the feed it was for, if the listing has it enabled. */
  lemma CommittedIsLoaded(im: Importer, before: State, after: State, t: nat, f: Feed, content: Bytes, feeds: seq<Feed>)
    requires Normal(im.limits) && Keyed(feeds) && Renamed(im, before, after, t, f, content, feeds)
    ensures EnabledIn(feeds, f.id) ==> f.id in LoadedIn(after.loads)
  {
    SortedByPriority(feeds);
    StillDistinct(feeds, ByPriority(feeds));
    if EnabledIn(feeds, f.id) {
      SameMembersEnabled(feeds, f.id);
      var i :| 0 <= i < |ByPriority(feeds)| && ByPriority(feeds)[i].enabled && ByPriority(feeds)[i].id == f.id;
      OverrideIsLoaded(im, Committing(ByPriority(feeds), before.cache, f.id, content, LoadedIn(before.loads)), i);
    }
  }

  lemma SameMembersEnabled(feeds: seq<Feed>, id: string)
    ensures EnabledIn(ByPriority(feeds), id) <==> EnabledIn(feeds, id)
  {
    SortedByPriority(feeds);
    forall f: Feed ensures f in ByPriority(feeds) <==> f in feeds {
      assert f in multiset(feeds) <==> f in multiset(ByPriority(feeds));
    }
    EnabledMembers(feeds, ByPriority(feeds), id);
  }

  /** No fault, no interruption and a readable listing while a snapshot is taken. */
  predicate Calm(world: World, t: nat) {
    world.fault(t).None? && Unhindered(world, t + 1)
  }

  /** The same while staged bytes are committed. */
  predicate Unhindered(world: World, t: nat) {
    world.list(t).Some? && world.interrupt(t).None? && world.fault(t + 1).None?
  }

  /** With a listing and no interruption, a commit fails exactly if the candidate is refused. */
  lemma CommittedExactly(im: Importer, world: World, t: nat, before: State, after: State, id: string, content: Bytes,
                         feeds: seq<Feed>, out: Outcome)
    requires Normal(im.limits) && Unhindered(world, t)
    requires out.Failed? ==>
               || world.fault(t + 1).Some?
               || Denied(world, t, im, before.cache, id, Some(content), LoadedIn(before.loads))
    requires !out.NotModified?
    requires out.Committed? ==> world.list(t) == Some(feeds) &&
                                PublishedOnce(im, before, after, t, true, id, Some(content), feeds)
    ensures out.Committed? <==> Candidates(im, world, t, before, id, content)
  {
  }

  /** A local source has the same stamp before and after, and the size it says. */
  predicate Unchanged(src: Source) {
    src.stamps.None? || (src.stamps.value.0 == src.stamps.value.1 && |src.content| == src.stamps.value.0.size)
  }

  /** The bytes are the source's, fit the staging quota and parse within the limits; of a local
      source's records only so many are left. */
  ghost predicate Importable(im: Importer, directory: seq<DirEntry>, f: Feed, src: Source, taken: nat)
    requires Normal(im.limits)
  {
    var content, isLocal := src.content, src.stamps.Some?;
    && content != [] && |content| <= im.maxBytes && Unchanged(src)
    && Available(im.limits, directory).Some? && |content| <= Available(im.limits, directory).value
    && (isLocal ==> taken < im.limits.localRecords)
    && ParseFailure(im, f, content, Base(im), RecordLimit(im.limits, isLocal, taken)).None?
  }

  /** A feed that is loaded, and enabled in every listing since, is in every later index. */
  lemma {:induction false} NeverShed(world: World, h: History, base: History, t: nat, tick: nat, id: string,
                                     before: map<string, FeedLoad>, after: map<string, FeedLoad>)
    requires KeptSince(h, base, t) && Recorded(world, h, tick, after) && Recorded(world, base, t, before)
    requires EnabledSince(world, t, id) && id in LoadedIn(before)
    ensures id in LoadedIn(after)
  {
    if h != base {
      assert EnabledIn(world.list(h.last.at).value, id);
      NeverShed(world, h.earlier, base, t, h.last.at, id, before, h.last.before);
    }
  }

  /** Every listing from t on has the feed enabled. */
  ghost predicate EnabledSince(world: World, t: nat, id: string) {
    forall u :: t <= u && world.list(u).Some? ==> EnabledIn(world.list(u).value, id)
  }
}
