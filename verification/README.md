# DNS Daddy: a verified model

This project models the parts of DNS Daddy whose correctness is hardest to see from
reading them, and proves what they promise.

* **Feeds and the block index.** `Catalog`, `DomainNames`, `BlockIndex` and `StagedBuild`
  hold the index, its builder and its lookups, against a flat list of claims; `ClaimReport`
  lists a name's categories. `ImportBudget`, `FeedIngest` and `CandidateIndex` hold the
  resource accounts, parsing, merging and the candidate, against a fold over the feeds, and
  `FeedReaders` the readers the bytes pass through. `FeedOrder`, `FeedManager`, `FeedRefresh`,
  `FeedAcceptance`, `FeedGuarantees` and `Lifecycle` hold the commit protocol, the refresh
  operations, exactly what they guarantee, and closing. `JsonGrammar`, `JsonScan`, `JsonFrame`,
  `JsonEnding` and `JsonReader` hold the streaming JSON framer, against the grammar of RFC 8259.
* **Backups.** `SealStream`, `SealWriting` and `OpenReading` hold the encrypted record
  stream; `Archive`, `ArchiveNames`, `Restoring`, `Credentials` and `BackupRoundTrip` hold what goes
  into it and what restoring accepts; `SealedBackup` joins them from the host to the sealed bytes and back.
* **Lookup providers.** `Revocation` is the consent protocol as a state machine and `GrantedWork` what
  it owes to work that stays allowed; `Consultation` is the merging of verdicts, and `Breaker`,
  `Limiter` and `VerdictCache` are the machinery of one provider.
* **DNS runtimes.** `NativeRuntimes`, `RuntimeControl` and `QueryDrain` hold switching of
  modes and transports.
* **Server addresses.** `BoundedSelection` and `ServerAddresses` hold the bounded ordered
  lists.

`Options`, `Octets`, `Ordering` and `StableSort` are shared helpers.

## How the model is put together

Operations that change state step by step are classes and methods, each proved against a
function of the old state; what the program promises is then proved about those functions.
Interleavings (workers against revocation, queries against closing, overlapping provider
calls, unsteady listings) are state machines or oracles numbered by the moment of asking, and
the theorems hold for every run.

What the surroundings do enters as parameters: feed parsers, JSON validity and string
decoding, listings, faults and interruptions, clocks, sinks, digests, directory walks (which
list each name once, as a file or as a directory), stored credentials. The cipher is ideal: it
opens exactly what was sealed. Keys stand for passphrase and salt, headers are distinct per
writer (they hold a random salt), and a digest is assumed only not to confuse what was hashed
with what was copied. Stored feeds have distinct, non-empty IDs. A category
outside the catalogue carries its own name, which is none of the listed identifiers. Bytes are
numbers below 256, times are nanoseconds, the limiter computes over reals with its hint
truncated to whole nanoseconds. `json.Valid` is membership in the grammar's printings with
blanks around.

## What does not hold, and exactly when it does

* An addition with an empty name is charged for although the builder ignores it
  (`ImportBudget.AccountsStayExactUnlessNameEmpty`); the parsers never emit one.
* The fixed reserve is meant to cover the published index, a candidate and one feed's part. While
  the joint list and every feed's own are within one share, memory refuses nothing
  (`FeedAcceptance.NeverRefusedForMemory`); the joint list alone within its share is not enough
  (`FeedAcceptance.JointListIsNotEnough`).
* Two feeds share a cache file exactly when their IDs have the same file name; an ID shares
  with no other exactly if it has only letters, digits and underscores
  (`CandidateIndex.CollidesWithNoneExactlyIfPlain`). A commit matches what a restart rebuilds
  exactly if no other enabled feed shares the feed's file
  (`FeedGuarantees.MatchesDiskExactlyIfOwned`). Issued IDs (a prefix and hexadecimal digits, or
  a catalogue slug) never do (`FeedGuarantees.SafeIdsOwnTheirFiles`).
* Rebuilding without retention keeps protection, whatever is cached and loaded, exactly if the
  listing enables nothing (`FeedGuarantees.KeepsExactlyIfNoneEnabled`), and in one state exactly
  if every loaded and enabled feed can still be read
  (`FeedGuarantees.KeepsExactlyIfReadable`). Such rebuilds happen at the start and whenever a
  feed is switched on or off (`FeedRefresh.Manager.LoadFromCache`, called from
  internal/api/handlers_config.go:600-611), and at the end of a refresh whose listing has no
  enabled feed (`FeedRefresh.Manager.Refresh`; `FeedRefresh.RefreshLosesAFeed` is a run that
  loses a feed). All other publications of Refresh, and all of RefreshFeed, keep it.
* The breaker's comment promises one probe. It is one exactly if calls report before the
  cooldown is over (`Breaker.OneProbeExactlyWhenPrompt`). As wired they do: timeouts are
  clamped to 15 seconds (internal/store/apiproviders.go:57 and 330) and the cooldown is 30
  (internal/apiprovider/breaker.go:75-76).
* Keys of two providers can collide, and forgetting one can reach the other's entries, exactly
  if one ID goes on with a NUL where the other ends (`VerdictCache.KeysCollideExactly`,
  `VerdictCache.ForgetReachesExactly`). Issued IDs have no NUL.
* The files of a completed backup restore exactly if none outgrew its limit between the look at
  its size and its opening, and the key file that was hashed still opens the credentials
  (`BackupRoundTrip.CreatedRestores`). Custom trust anchors that grow meanwhile
  (`BackupRoundTrip.GrownFileIsRefused`) and a key file that is overwritten meanwhile
  (`BackupRoundTrip.ExchangedKeyIsRefused`) make backups that complete and do not restore.
* One sleep of the limiter's hint brings a token exactly if the hint is no shorter than the
  time needed (`Limiter.OneSleepIsEnoughExactly`); two sleeps always do
  (`Limiter.TokenBucket.Wait`).
* A seal writer that is closed again repeats a nonce exactly if the first closing failed
  (`SealWriting.ClosingAgain`); backups close theirs once.

## Model

| member | source | states |
|---|---|---|
| `Catalog.RankIsInjective` | internal/blocklist/index.go:33-39 | Two categories of the same rank, one of them listed in the catalogue, are the same: severity never ties among listed categories. |
| `DomainNames.WalkVisitsAncestors` | internal/domainutil/domainutil.go:89-110 | The suffix walk visits a name exactly when the queried name equals it or lies beneath it. |
| `BlockIndex.Builder.Add` | internal/blocklist/index.go:264-296 | The whole index after one claim, and that it reports whether the claim took the lead. |
| `BlockIndex.Builder.HasExtra` | internal/blocklist/index.go:300-307 | True exactly when a further claim of that category is held for the name. |
| `BlockIndex.AddedRepresents` | internal/blocklist/index.go:48-67 | Every Add keeps the index in step with the flat claim list: same claims, one per (domain, category) with the first claimant kept, pairwise distinct categories, least-rank earliest primary, exact category and feed counts. |
| `BlockIndex.AddReportsPrimary` | internal/blocklist/index.go:252-263 | Add reports true exactly when the claim was new to the flat list and became the list's primary claim on its name. |
| `BlockIndex.Builder.Build` | internal/blocklist/index.go:310 | Build hands out the accumulated index unchanged. |
| `BlockIndex.Lookup` | internal/blocklist/index.go:87-103 | Finds a claim exactly when some name the walk visits is listed, and then the primary claim of the first such name. |
| `BlockIndex.LookupEnabled` | internal/blocklist/index.go:120-152 | The answer, read off the set of claims: at the first visited name with an enabled claim, an enabled claim of least rank; none exactly when no visited name has one. |
| `BlockIndex.BlockedExactlyWhenClaimed` | internal/blocklist/index.go:105-119 | A name is blocked exactly when some name equal to it or above it was claimed under an enabled category. |
| `BlockIndex.EnablingMoreKeepsBlocked` | internal/blocklist/index.go:105-119 | Enabling more categories never unblocks a name. |
| `BlockIndex.SubdomainsStayBlocked` | internal/blocklist/index.go:116-119 | Whatever is blocked, every name beneath it is blocked too. |
| `BlockIndex.AnswerIsUnique` | internal/blocklist/index.go:105-152 | With listed categories there is only one answer the specification allows, whatever the order of the further claims. |
| `BlockIndex.CreditsSumToLen` | internal/blocklist/index.go:199-213 | Per-feed counts sum to the number of indexed names. |
| `ClaimReport.Categories` | internal/blocklist/index.go:157-173 | Exactly the categories the exact name is claimed under, most severe first, led by the primary claim's. |
| `StagedBuild.BuildRepresents` | internal/blocklist/index.go:264-296 | Any sequence of Adds represents the list of claims added. |
| `StagedBuild.MergeKeepsClaims` | internal/blocklist/ingest.go:549-558 | Merging a part, in any map order, offers exactly the part's claims. |
| `StagedBuild.PrimaryOfMerge` | internal/blocklist/ingest.go:549-558 | The primary claims a merge in any order offers are those of the part's own list. |
| `StagedBuild.StagedEqualsDirect` | internal/blocklist/ingest.go:503-561 | Building each feed apart and merging, whatever the map iteration orders, gives the same primary claims, claims and counts as adding every claim directly in feed order. |
| `StagedBuild.StagedAnswersAgree` | internal/blocklist/ingest.go:545-559 | The staged and the direct index answer every enabled lookup alike when the categories are listed ones. |
| `ImportBudget.IndexCharge` | internal/blocklist/ingest.go:350-362 | The loop over both maps sums the charge of every claim exactly once. |
| `ImportBudget.NewBudget` | internal/blocklist/ingest.go:368-376 | A fresh budget holds 32 MiB and one share, or the published index's charge if that is larger. |
| `ImportBudget.AddBounded` | internal/blocklist/ingest.go:377-396 | One bounded addition: already held, refused with nothing changed, or charged and added. |
| `ImportBudget.BoundedAsFlat` | internal/blocklist/ingest.go:378-391 | The index decides what the flat claim list would decide. |
| `ImportBudget.ChargedIsExact` | internal/blocklist/ingest.go:385-394 | A claim is taken exactly when the list with it fits every limit, and the accounts stay exact. |
| `ImportBudget.ChargedRunIsExact` | internal/blocklist/ingest.go:377-396 | A run of additions succeeds exactly when the whole list fits, and is then charged exactly what it costs. |
| `ImportBudget.RunStaysRefused` | internal/blocklist/ingest.go:549-557 | Once refused, a run stays refused. |
| `ImportBudget.AccountsStayExactUnlessNameEmpty` | internal/blocklist/ingest.go:388-394 | One addition that is not refused keeps the accounts exact if and only if the name is not empty: an empty name is charged although Add ignores it. |
| `FeedIngest.ParseFile` | internal/blocklist/ingest.go:397-451 | Parsing a file ends as its bytes, limits and claims dictate; on success the part is its claims and the charge exactly theirs. |
| `FeedIngest.MergePart` | internal/blocklist/ingest.go:549-558 | The merge loop, in whatever order the map gives, merges the part or stops at the first refusal. |
| `FeedIngest.MergeIsExact` | internal/blocklist/ingest.go:545-559 | A merge in any order is accepted exactly when the feed's own claims fit behind those held, and is charged exactly what they add. |
| `FeedIngest.MergeRepresents` | internal/blocklist/ingest.go:545-559 | The merged index represents the feed's own list behind the earlier ones. |
| `CandidateIndex.SafeNamesAreDistinct` | internal/blocklist/manager.go:410-422 | IDs of safe characters get distinct cache files. |
| `CandidateIndex.CollidesWithNoneExactlyIfPlain` | internal/blocklist/manager.go:410-422 | An ID shares its cache file with no other ID there is exactly if it has only letters, digits and underscores. |
| `CandidateIndex.JoinIsExact` | internal/blocklist/ingest.go:545-560 | While a part is merged both are charged for; releasing the part leaves exactly the charge of the longer list. |
| `CandidateIndex.ReadFeed` | internal/blocklist/ingest.go:510-531 | Opening and parsing one feed; a failure restores the accounts. |
| `CandidateIndex.TakeFeed` | internal/blocklist/ingest.go:503-561 | One turn of the loop does what one step of the reference fold does. |
| `CandidateIndex.AcceptedExactly` | internal/blocklist/ingest.go:503-566 | A candidate is refused exactly if an enabled feed is needed and cannot be read, ends at a limit or a cancellation, or does not fit beside the readable feeds before it, or if the joint list is over the capacity; every other feed that cannot be read is skipped. |
| `CandidateIndex.Candidate` | internal/blocklist/ingest.go:493-566 | A candidate is accepted exactly if no enabled feed stands in its way and the joint list is within the capacity, whatever index is published; its index represents the readable feeds' claims in feed order. |
| `CandidateIndex.FreshIsExact` | internal/blocklist/ingest.go:364-376 | Whatever index is published, if it is within the capacity, a fresh budget opens with the same accounts, exact for an empty list. |
| `FeedOrder.SortedByPriority` | internal/blocklist/manager.go:506-525 | The sort keeps every feed and puts none before one it should follow. |
| `FeedOrder.ListingOrderIsIrrelevant` | internal/blocklist/manager.go:506-525 | With distinct IDs the order of the listing does not matter. |
| `FeedManager.CopyBounded` | internal/blocklist/ingest.go:144-179 | The copy loop writes a prefix of the source, all of it on success, and never more than the limit, through short reads, short writes, faults and cancellations; with none of these it succeeds exactly when the source fits. |
| `FeedManager.CommitMatchesDisk` | internal/blocklist/ingest.go:299-341 | What a commit publishes is what building from the cache directory after the rename gives. |
| `FeedManager.RetainedStayLoaded` | internal/blocklist/ingest.go:527-538 | A retained and enabled feed is loaded in every accepted candidate. |
| `FeedManager.RetainingKeeps` | internal/blocklist/ingest.go:527-538 | A candidate that retains the loaded feeds loses none that is still enabled. |
| `FeedGuarantees.LoadedExactlyIfReadable` | internal/blocklist/ingest.go:510-538 | An accepted candidate has loaded an enabled feed exactly if its content is there and parses. |
| `FeedGuarantees.KeepsExactlyIfReadable` | internal/blocklist/manager.go:470-496 | An accepted rebuild without retention keeps every loaded and enabled feed exactly if each of them can still be read from the cache. |
| `FeedGuarantees.KeepsExactlyIfNoneEnabled` | internal/blocklist/manager.go:470-496 | Rebuilds without retention keep protection, whatever is cached and loaded, exactly for listings that enable nothing. |
| `FeedGuarantees.SafeIdsOwnTheirFiles` | internal/blocklist/manager.go:410-422 | Issued IDs are their own file names, so every listed feed has its cache file to itself. |
| `FeedGuarantees.MatchesDiskExactlyIfOwned` | internal/blocklist/ingest.go:299-341 | What commits publish is what rebuilding from disk gives, for every parser, cache, content and retention, exactly if no other enabled feed shares the feed's file. |
| `FeedAcceptance.NotesExactly` | internal/blocklist/ingest.go:527-561 | An accepted candidate has one note for each enabled feed and none for others: loaded, missing, or why its bytes were not parsed. |
| `FeedAcceptance.UnreadableChangesNothing` | internal/blocklist/ingest.go:527-538 | A feed that is not needed and whose bytes are missing or malformed changes nothing but its own note: with it switched off the candidate has the same acceptance, list and other notes. |
| `FeedAcceptance.OverrideIsLoaded` | internal/blocklist/ingest.go:527-538 | The feed a candidate is built for is loaded by it, if it is enabled. |
| `FeedAcceptance.NeverRefusedForMemory` | internal/blocklist/ingest.go:364-376 | While the joint list and every feed's own are charged no more than one share, memory refuses nothing: only sizes, counts, records and failures decide. |
| `FeedAcceptance.JointListIsNotEnough` | internal/blocklist/ingest.go:545-560 | Two feeds whose joint list is far below one share and whose candidate is refused, as one of them alone is charged more than the memory. |
| `FeedRefresh.TempAvailable` | internal/blocklist/ingest.go:184-222 | The staging quota less every abandoned staging file, or a refusal: for a suspect entry, for more than 16384 entries of any kind, or for lack of room. |
| `FeedRefresh.Validate` | internal/blocklist/ingest.go:275-297 | Validation outcome and the count of local records, clipped to the limit. |
| `FeedRefresh.RestartAgrees` | internal/blocklist/ingest.go:299-341 | After a commit a restart that builds from the files gives the published index and loads again. |
| `FeedRefresh.Manager.Stage` | internal/blocklist/ingest.go:223-299 | Staging succeeds on the source's own bytes only, and with no fault exactly when they fit the quota and validate; a local source must be unchanged and have records left. |
| `FeedRefresh.Manager.Commit` | internal/blocklist/ingest.go:300-341 | Uncommitted changes nothing; committed renames the bytes into place and publishes one index built with them, losing no loaded and enabled feed. |
| `FeedRefresh.Manager.Snapshot` | internal/blocklist/ingest.go:223-342 | Uncommitted leaves cache, index and loads as they were; committed has the bytes in place and publishes one index with the feed loaded, which is what a restart would rebuild if the feed owns its file; with no fault it commits, from a remote or a local source, exactly when staging and candidate succeed. |
| `FeedRefresh.Manager.Rebuild` | internal/blocklist/manager.go:473-496 | Publishes one complete candidate from the cache or changes nothing; with a required feed, retains what is loaded. |
| `FeedRefresh.Manager.FinishRefresh` | internal/blocklist/manager.go:325-375 | A committed download stays committed, with a warning exactly if it or its recording had a fault; a not-modified answer is committed exactly if the retained rebuild has the feed loaded; after a failure nothing live is rebuilt, and with nothing live the cache is tried. |
| `FeedRefresh.Manager.RefreshFeed` | internal/blocklist/manager.go:262-323 | The enabled feed of that ID, if the listing has one, is visited as its download demands: an opened one is installed exactly if it can be imported and its candidate is accepted, a not-modified one exactly if the retained rebuild has it; success is a commit without a warning; nothing loaded and enabled is lost. |
| `FeedRefresh.ImportedMeans` | internal/blocklist/ingest.go:223-342 | What importing a download comes to: bytes in place, one publication, the feed loaded; and, if nothing goes wrong around it, committed if and only if the bytes can be imported and the candidate with them is accepted. |
| `FeedRefresh.SettledIsVisited` | internal/blocklist/manager.go:317 | Downloading and then settling is one visit, whatever the download brought. |
| `FeedRefresh.AnsweredMeans` | internal/blocklist/manager.go:300-323 | An unanswered refresh of one feed changes nothing, a commit publishes once, and a failure leaves the cache as it was and, with something live, everything. |
| `FeedRefresh.Manager.LoadFromCache` | internal/blocklist/manager.go:165-177 | One unretained rebuild, as at the start and on every toggle: it changes nothing or publishes, and then loses nothing loaded and enabled exactly if all of that can still be read. |
| `FeedRefresh.Manager.Refresh` | internal/blocklist/manager.go:182-233 | Unless the context ends, every enabled feed of the listing is visited, in order and whatever the others came to; success if and only if each was committed without a warning; a refresh with nothing enabled is one unretained rebuild; no publication loses a loaded and enabled feed if the listing enables a feed or the one its rebuild reads enables none. |
| `FeedRefresh.RefreshLosesAFeed` | internal/blocklist/manager.go:182-233 | A run of the manager in which Refresh loses a feed: loaded, its file gone, off when the refresh lists and on again when it rebuilds. |
| `FeedRefresh.NeverShed` | internal/blocklist/manager.go:182-323 | Through any number of publications that kept protection, as all of RefreshFeed and the guarded ones of Refresh do, a loaded feed that every listing has enabled is in every later index. |
| `FeedReaders.FeedReader.Read` | internal/blocklist/ingest.go:459-491 | Hands out the next bytes within the limit, or reports the limit exceeded; the line count is that of what was handed out. |
| `FeedReaders.FeedReader.ReadToEnd` | internal/blocklist/ingest.go:453-491 | Reading to the end gives the file and its number of lines, exactly if it is within the limit, however the reads are cut. |
| `Lifecycle.EveryRunIsSound` | internal/blocklist/ingest.go:30-61 | In every interleaving of operations and Close calls the directories are open exactly until the operations are drained, nothing uses them closed, and they are closed once. |
| `Lifecycle.StartIsSound` | internal/blocklist/ingest.go:30-61 | The same from a new manager on. |
| `Lifecycle.NothingRunsAfterClose` | internal/blocklist/ingest.go:42-61 | Once a Close has returned no operation runs or ever begins, and the local directory stays closed. |
| `Lifecycle.LetInExactlyUntilClose` | internal/blocklist/ingest.go:30-39 | Until a Close begins every operation is let in, with the cache open and the local directory to be had; from then on every one is turned away. |
| `Lifecycle.CloseReturns` | internal/blocklist/ingest.go:42-61 | A waiting Close is never stuck: while operations remain one of them can take a step, each brings their end nearer, and once none remains the Close can return. |
| `JsonScan.ScanPrinted` | internal/blocklist/json_frame.go:51-117 | Scanning a printed value frames exactly its bytes, or refuses it exactly for its size or nesting. |
| `JsonScan.WalkValue` | internal/blocklist/json_frame.go:78-111 | A nested value returns the scan to where it was exactly if it is not nested too deeply. |
| `JsonFrame.ValueSound` | internal/blocklist/json_frame.go:51-117 | Whatever is framed is the printing of one JSON value within the limits. |
| `JsonFrame.DocumentPrinted` | internal/blocklist/json_frame.go:119-264 | Printing and then framing gives the records back, in order. |
| `JsonFrame.FramesExactlyWhatWasPrinted` | internal/blocklist/json_frame.go:119-264 | Records are framed exactly when the bytes are the printing, with any blanks, of a document within the limits that holds just those records; everything else, trailing data included, is refused. |
| `JsonEnding.DocumentEnds` | internal/blocklist/json_frame.go:119-264 | Every JSON document, with any blanks around it, is framed or refused as its own structure says: which records were framed, and whether the first thing wrong was a limit, a refused record or the shape. |
| `JsonEnding.OneRecordTooMany` | internal/blocklist/json_frame.go:155-158 | A list that is only too long ends as over the limit, not as malformed, with the records before that framed. |
| `JsonReader.Reader.Peek` | internal/blocklist/json_frame.go:24-39 | Skips blanks and shows the next byte. |
| `JsonReader.Reader.TakeValue` | internal/blocklist/json_frame.go:51-117 | The byte loop frames what the parsing function frames. |
| `JsonReader.Reader.TakeArray` | internal/blocklist/json_frame.go:123-175 | The array loop counts, frames and hands over what the parsing function says. |
| `JsonReader.Reader.TakeMembers` | internal/blocklist/json_frame.go:182-250 | The member loop finds the one indicators array. |
| `JsonReader.ParseLimited` | internal/blocklist/json_frame.go:119-264 | Succeeds exactly on printings of framable documents; every other document ends with the kind of error its structure says; accepted plus skipped is the number of records framed. |
| `SealStream.LayoutOf` | internal/backup/crypto.go:104-128 | However the bytes arrived, full chunks and a shorter rest are the layout of their concatenation. |
| `SealStream.RecordsOf` | internal/backup/crypto.go:130-166 | A finished stream's records concatenate to the data, fit their length field, and only the last is empty. |
| `SealStream.NoncesDiffer` | internal/backup/crypto.go:138-140 | Different record indices give different nonces. |
| `SealStream.KeyAndNonceDetermine` | internal/backup/crypto.go:84-102 | Across writers, two records are sealed under one key and nonce if and only if passphrase, salt and nonce prefix are the same and the records have the same number. |
| `SealStream.AadDetermines` | internal/backup/crypto.go:168-174 | The associated data determines header, index and length. |
| `SealStream.AuthenticFrom` | internal/backup/crypto.go:205-255 | What a reader delivers is a prefix of what the header's writer was given, and the end is reached only on the rest of its finished stream. |
| `SealStream.NothingForeign` | internal/backup/crypto.go:186-203 | A header and passphrase no writer used deliver nothing. |
| `SealStream.RoundTrip` | internal/backup/crypto.go:104-255 | Sealing and opening give the plaintext back. |
| `SealStream.OpensExactlyFinishedStreams` | internal/backup/crypto.go:68-73 | The end is reached without an error exactly on a finished stream of one writer under the same passphrase, with exactly its bytes: truncation, reordering, duplication, splicing and extension all fail. |
| `SealStream.DeliversOnlyAPrefix` | internal/backup/crypto.go:205-255 | Whatever follows the header, only a prefix of its writer's data is delivered. |
| `SealWriting.WriteAll` | internal/backup/crypto.go:257-269 | All bytes reach the sink, or a prefix of them and an error. |
| `SealWriting.NoncesNeverRepeat` | internal/backup/crypto.go:68-73 | A writer that is closed once seals no two records under one nonce, failed writes included. |
| `SealWriting.ClosingAgain` | internal/backup/crypto.go:155-166 | Closing again repeats a nonce exactly if the first closing failed, and repeats it for another text exactly if there was a rest that was already out or not all zeros. |
| `SealWriting.NewSealWriter` | internal/backup/crypto.go:84-102 | A new stream begins with its whole header at the sink; otherwise there is no writer. |
| `SealWriting.SealWriter.Record` | internal/backup/crypto.go:130-153 | Seals one record under the next index and writes it, or part of it and an error. |
| `SealWriting.SealWriter.Write` | internal/backup/crypto.go:104-128 | Accepts all bytes or fails for good; full buffers are out, the rest is buffered, and what reached the sink begins the finished stream. |
| `SealWriting.SealWriter.Close` | internal/backup/crypto.go:155-166 | What every call seals, clears and writes; the first one on success leaves exactly the finished stream of everything accepted. |
| `SealWriting.WriterIsGenuine` | internal/backup/crypto.go:130-153 | Whatever a writer has sealed, finished or not, is the beginning of one stream's records. |
| `SealWriting.WhatWasSealedOpens` | internal/backup/crypto.go:104-255 | What a writer closed opens to what it was given. |
| `OpenReading.OpenReader.Read` | internal/backup/crypto.go:205-255 | Delivers the next bytes of what the stream unseals to, its end, or its fault. |
| `OpenReading.OpenReader.ReadToEnd` | internal/backup/crypto.go:205-255 | Reads of any sizes deliver exactly what the stream unseals to. |
| `OpenReading.OpenStream` | internal/backup/crypto.go:186-255 | Reading to the end succeeds exactly on a writer's finished stream with a clean end of input, whatever the buffer sizes. |
| `OpenReading.ReadExactly` | internal/backup/crypto.go:205-255 | Reads of any sizes deliver a wanted number of bytes exactly if the stream unseals to that many. |
| `OpenReading.Drain` | internal/backup/restore.go:172-189 | Succeeds exactly if only zeros remain up to the authenticated end. |
| `Archive.FixedNamesAreValid` | internal/backup/backup.go:453-468 | Every fixed name passes the checks on restored names. |
| `ArchiveNames.ValidExactlyIfPlain` | internal/backup/backup.go:453-468 | The valid names are exactly the short printable ones none of whose parts is empty or stands for a directory. |
| `ArchiveNames.ValidNamesStayBelow` | internal/backup/restore.go:145-160 | On the whole way that a valid name leads from a directory it never leaves it, and it ends below it. |
| `ArchiveNames.ValidNamesAreApart` | internal/backup/restore.go:145-160 | Different valid names lead to different places. |
| `ArchiveNames.BeneathIsBelow` | internal/backup/restore.go:145-151 | One name lies beneath another exactly if its place is inside a directory at the other's place. |
| `Archive.Limits` | internal/backup/restore.go:238-249 | The restore limits of the fixed names are the limits they are captured under. |
| `Archive.DirectoriesAreApart` | internal/backup/restore.go:230-249 | Names below a captured directory clash with no fixed name and with no name of the other directory. |
| `Archive.EverythingApart` | internal/backup/restore.go:145-151 | No file of a backup lies beneath another one's name, so that restoring can create them all. |
| `Archive.Collector.Add` | internal/backup/backup.go:159-179 | Takes a file exactly when it is regular, within its limit when looked at, and within the limits on number and total size. |
| `Archive.Collector.AddDirectory` | internal/backup/backup.go:369-405 | Adds exactly the files to be taken that were found below the directory, of feeds the `.list` files and of the local directory all; or refuses exactly if a name is unsupported, a file cannot be taken or room runs out. |
| `Archive.Collect` | internal/backup/backup.go:151-262 | Succeeds exactly if everything the host offers is a regular file within its limit and has room, and then holds an item for each such file of the host and no other, sorted. |
| `Archive.HoldsTheHost` | internal/backup/backup.go:180-258 | A backup holds a file if and only if the host has it as a regular file in one of the fixed places, below feeds with a name ending in `.list`, or, with a local directory, anywhere below that; with what was found of it. |
| `Archive.CollectableExactly` | internal/backup/backup.go:151-262 | A host's files can be collected if and only if what is needed is there, everything that would be taken is a regular file within its limit under a valid name, and there is room. |
| `Archive.CollectableIsProper` | internal/backup/backup.go:159-179 | Whatever can be collected has distinct, allowed names and is within the limits on number and total size. |
| `Credentials.Validate` | internal/backup/backup.go:499-580 | Succeeds exactly if the key is missing or whole and opens every credential the database stores; without a key there may be none. |
| `Archive.HasBoth` | internal/backup/backup.go:180-258 | What is collected always includes the configuration and the database. |
| `Archive.SortKeepsChecks` | internal/backup/backup.go:262 | Sorting by name keeps the names, their number and total size, their distinctness and every check on one of them. |
| `Archive.ArchiveFits` | internal/backup/backup.go:172-176 | Manifest, headers, padding and trailer of at most 4096 files fit the 8 MiB slack, so the sealed stream never reaches its limit. |
| `Archive.Create` | internal/backup/backup.go:145-316 | Completes exactly if everything can be collected, the key file opens the credentials, the manifest and names fit and no file changed meanwhile; the archive then lists and holds the host's files, all of them and no others, and fits the stream. |
| `Archive.Copy` | internal/backup/backup.go:290-308 | Copies every file, exactly if each still has the recorded size and digest. |
| `Restoring.CheckManifest` | internal/backup/restore.go:102-122 | Indexes the manifest, or refuses it at the first failing check. |
| `Restoring.IndexIsRight` | internal/backup/restore.go:105-122 | The index exists exactly if every file is allowed, within its limit, named once, and the total fits. |
| `Restoring.Extract` | internal/backup/restore.go:129-171 | Extracts each expected entry once, unless a file is where its name needs a directory or the other way round; or refuses. |
| `Restoring.Restore` | internal/backup/restore.go:102-195 | Accepts exactly what the checks accept, and extracts just what the manifest lists, with the listed sizes and digests; the restored key must open the restored database's credentials. |
| `Restoring.AcceptsWhatIsGood` | internal/backup/restore.go:102-192 | The loops accept exactly a good manifest with a matching entry for each file, no entry's name beneath another's, and extract just the entries. |
| `Restoring.RestoresAsListed` | internal/backup/restore.go:102-192 | Whatever restores is just the files the manifest lists, under valid and allowed names, each with the listed size and digest, and all within the limits. |
| `BackupRoundTrip.CreatedRestores` | internal/backup/restore.go:102-195 | The archive of any host whose files could be collected and stayed stable restores to the bytes it hashed if and only if no file outgrew its limit between the look at its size and its opening and the key that was hashed opens the credentials. |
| `BackupRoundTrip.RestoredIsTheHost` | internal/backup/restore.go:102-195 | What restoring gives is every file of the host that a backup is for, as it was hashed, and nothing else. |
| `BackupRoundTrip.CompletedRestores` | internal/backup/backup.go:259 | So a completed backup, if the key file did not change between the check and the hash, restores if and only if no file outgrew its limit. |
| `BackupRoundTrip.UnchangedFit` | internal/backup/backup.go:340-367 | A file whose size is the same at both moments has not outgrown its limit. |
| `BackupRoundTrip.GrownFileIsRefused` | internal/backup/backup.go:354-366 | Custom trust anchors that grow beyond their limit while being opened: with any database, configuration and credentials the backup completes and does not restore. |
| `BackupRoundTrip.ExchangedKeyIsRefused` | internal/backup/backup.go:512-519 | A key file overwritten between the check and the hash by a key that does not open the credentials: the backup completes and does not restore. |
| `SealedBackup.SealTape` | internal/backup/backup.go:282-314 | An archive handed over in pieces of any size becomes exactly its finished stream; with a sink that takes everything, exactly if it is within the limit. |
| `SealedBackup.BackUp` | internal/backup/backup.go:145-316 | From the host to the sealed bytes: with a sink that takes everything it succeeds exactly if the files can be archived and the credentials open; the sink then has the finished stream of the archive. |
| `SealedBackup.RestoreStream` | internal/backup/restore.go:76-195 | From the sealed bytes to the files: succeeds exactly on a finished stream whose archive restores and is followed by zeros only. |
| `SealedBackup.SealedIsProduced` | internal/backup/crypto.go:76-110 | Whatever else was sealed before under other headers, what a backup leaves at the sink opens under its passphrase to its archive and to nothing else. |
| `SealedBackup.TapeUnpacks` | internal/backup/restore.go:102-195 | The archive of a completed backup unpacks, to the bytes that were hashed, exactly if no file outgrew its limit and the hashed key opens the credentials. |
| `SealedBackup.BackUpAndRestore` | internal/backup/restore.go:76-195 | Backing up into a sink and restoring what it got succeeds, with every file of the host as it was hashed and no other, exactly if the files can be archived, none outgrew its limit and the hashed key opens the credentials. |
| `Revocation.ModeSetIsOrderly` | internal/apiprovider/engine.go:315-333 | Changing the mode leaves only current generations of unrevoked permissions of enabled pipelines live; off leaves no reputation generation. |
| `Revocation.EnrichmentSetIsOrderly` | internal/apiprovider/engine.go:336-350 | The same for the enrichment switch. |
| `Revocation.InstancesSetIsOrderly` | internal/apiprovider/engine.go:370-392 | The same for a new provider list; no removed instance keeps a live generation. |
| `Revocation.InvalidatedIsOrderly` | internal/apiprovider/engine.go:425-434 | The same for an invalidation; the provider keeps no live generation. |
| `Revocation.NothingRevives` | internal/apiprovider/engine.go:228-245 | No step revives a cancelled generation. |
| `Revocation.StaysRetired` | internal/apiprovider/engine.go:823-838 | A generation cancelled and past no check stays so, and never writes. |
| `Revocation.EveryRunIsConsistent` | internal/apiprovider/engine.go:315-438 | Every run of management calls, callers and workers keeps the invariants. |
| `Revocation.WithdrawalHolds` | internal/apiprovider/engine.go:352-360 | Whatever a management call cancelled writes nothing after the call returned, in any interleaving. |
| `Revocation.InvalidationHolds` | internal/apiprovider/engine.go:422-438 | After InvalidateProvider returned, everything cached or since saved for the provider came from a permission published after the call began. |
| `Revocation.NothingUntilRelisted` | internal/apiprovider/engine.go:422-438 | Until the provider is listed again the cache holds nothing for it and nothing is saved for it, through any switching of modes. |
| `Revocation.SwitchingOffHolds` | internal/apiprovider/engine.go:315-350 | After a pipeline was switched off, no earlier task of it saves anything. |
| `Revocation.RemovalHolds` | internal/apiprovider/engine.go:370-401 | After SetInstances returned, removed instances have nothing cached and save nothing. |
| `Revocation.NeverWaitsForTheNetwork` | internal/apiprovider/engine.go:352-360 | Whatever its steps come to, the commit lock's holder is never stuck and frees the lock within three of them, none a request; the waiting call can then finish. |
| `Revocation.FirstHalfIsNotEnough` | internal/apiprovider/engine.go:823-832 | Without the barrier a result past its last check is still cached after the revocation. |
| `GrantedWork.ModeSetServes` | internal/apiprovider/engine.go:315-333 | After a change of mode every unrevoked permission of an enabled pipeline still has a live current generation, a new one if the pipeline was off. |
| `GrantedWork.EnrichmentSetServes` | internal/apiprovider/engine.go:336-350 | The same for the enrichment switch. |
| `GrantedWork.InstancesSetServes` | internal/apiprovider/engine.go:370-392 | The same for a new provider list. |
| `GrantedWork.InvalidatedServes` | internal/apiprovider/engine.go:425-434 | The same for an invalidation, for all other providers. |
| `GrantedWork.EveryRunServes` | internal/apiprovider/engine.go:315-438 | In every run the settings and the list are those the management calls last asked for, and whatever they allow can be used. |
| `GrantedWork.LiveThrough` | internal/apiprovider/engine.go:315-438 | A run cancels a live generation if and only if one of its calls switches the pipeline off, drops the instance or invalidates its provider. |
| `GrantedWork.GrantsAreUsable` | internal/apiprovider/engine.go:717-735 | A task can be granted exactly for a listed provider not invalidated since, and can be used exactly if its pipeline is on. |
| `GrantedWork.TaskGetsItsTurn` | internal/apiprovider/engine.go:736-756 | A granted task that the queue has room for reaches a worker, first in, first out, with nothing else changed. |
| `GrantedWork.CommitsExactlyIfLive` | internal/apiprovider/engine.go:820-838 | A worker with a live task caches and saves its result under its own subject and provider; with a cancelled one it changes nothing. |
| `GrantedWork.GrantedWorkIsSaved` | internal/apiprovider/engine.go:717-875 | Whatever happens meanwhile, a granted task's result is cached and saved if and only if its pipeline was on at the grant and no call since withdrew it. |
| `GrantedWork.KeptThrough` | internal/apiprovider/engine.go:395-401 | A cached entry stays cached through everything but its own eviction and calls that drop or invalidate its provider. |
| `Consultation.WorstIsWorst` | internal/apiprovider/engine.go:513-531 | The merge is the first of the highest-scoring cached verdicts of applying providers, and nothing exactly if none is cached. |
| `Consultation.OneAnswer` | internal/apiprovider/engine.go:645-678 | Of a cached verdict and the events that arrive, at most one answer is right. |
| `Consultation.WaitForFirst` | internal/apiprovider/engine.go:622-679 | Of the events before the budget is spent or the caller goes: the first malicious answer; without one nothing if the caller went; otherwise the first of the highest among the cached verdict and the answers that say something, and nothing exactly if there is none. |
| `Consultation.Consult` | internal/apiprovider/engine.go:499-552 | Off consults nothing; cache-only, a malicious merge or a full cache answers the merge; blocking otherwise answers as waiting with the merge does; a previewed hit is the answer in every live mode. |
| `Consultation.CachedVerdict` | internal/apiprovider/engine.go:577-619 | No provider exactly if off or none applies; otherwise a hit, with the merge, exactly if the merge is malicious or every applying provider is cached. |
| `Breaker.CircuitBreaker.Allow` | internal/apiprovider/breaker.go:96-126 | Admission and the state after it. |
| `Breaker.CircuitBreaker.Success` | internal/apiprovider/breaker.go:129-135 | The whole state after a success. |
| `Breaker.CircuitBreaker.Failure` | internal/apiprovider/breaker.go:138-156 | The whole state after a failure. |
| `Breaker.CircuitBreaker.Cancel` | internal/apiprovider/breaker.go:190-196 | The whole state after a cancelled call. |
| `Breaker.CircuitBreaker.Reset` | internal/apiprovider/breaker.go:203-209 | The whole state after a reset. |
| `Breaker.CircuitBreaker.State` | internal/apiprovider/breaker.go:164-172 | Reports half-open exactly when a caller would find it so, without moving the breaker. |
| `Breaker.Client.Attempt` | internal/apiprovider/client.go:267-295 | Works exactly if the first try does, or it is retryable and the second does. |
| `Breaker.Client.Do` | internal/apiprovider/client.go:203-264 | Every admitted call reports exactly one outcome and a rejected one none. |
| `Breaker.PromptCallsProbeAlone` | internal/apiprovider/breaker.go:96-156 | If every admitted call reports before the cooldown is over, then while half-open at most one is unreported and the slot is held exactly for it. |
| `Breaker.OneProbeExactlyWhenPrompt` | internal/apiprovider/breaker.go:114-123 | The single probe is guaranteed exactly when the time a call may take is below the cooldown. |
| `Breaker.SlowCallsOverlap` | internal/apiprovider/breaker.go:104-123 | A run in which slower calls put a second unreported call beside the probe. |
| `Breaker.ProbesAreSpaced` | internal/apiprovider/breaker.go:104-156 | However calls overlap, with no success, cancel or reset a second probe comes at least one cooldown after the first. |
| `Breaker.OpensExactlyAtThreshold` | internal/apiprovider/breaker.go:138-156 | After a success or a reset the circuit stays closed exactly until as many failures in a row as the threshold have been reported, however calls overlap. |
| `Breaker.OpenRecovers` | internal/apiprovider/breaker.go:96-156 | Once the cooldown is over an open circuit admits a call: its success closes the circuit, its failure rejects every call for another cooldown. |
| `Limiter.TokenBucket.Reserve` | internal/apiprovider/limiter.go:93-122 | The whole bucket after one request, the grant, and the truncated hint with its floor. |
| `Limiter.TokenBucket.SetRate` | internal/apiprovider/limiter.go:136-151 | A new rate hands out no burst and keeps the tokens within the bucket. |
| `Limiter.TokenBucket.Wait` | internal/apiprovider/limiter.go:67-84 | A lone caller whose context lasts gets a token after at most two sleeps. |
| `Limiter.HintNearlyFills` | internal/apiprovider/limiter.go:112-121 | Sleeping as hinted leaves less than a nanosecond's refill missing. |
| `Limiter.OneSleepIsEnoughExactly` | internal/apiprovider/limiter.go:112-121 | Sleeping just as hinted brings a token exactly if the hint, truncated and floored, is no shorter than the exact time needed. |
| `Limiter.OneSleepMayNotBeEnough` | internal/apiprovider/limiter.go:115 | At seven calls a minute an empty bucket's hint falls short. |
| `Limiter.RateIsBounded` | internal/apiprovider/limiter.go:93-110 | In every run and every interval at most a full bucket and the refill are granted. |
| `Limiter.PerMinuteIsBounded` | internal/apiprovider/limiter.go:36-62 | A bucket for n calls a minute grants at most n and one burst in any minute, whatever it holds. |
| `Limiter.FullBucketBursts` | internal/apiprovider/limiter.go:46-62 | A full bucket grants its whole burst at once, a second's worth of calls or one, and not one more. |
| `VerdictCache.Evict` | internal/apiprovider/cache.go:114-144 | Expired entries go first; if the shard is still full, exactly enough of those that expire soonest; nothing lost expires later than anything kept. |
| `VerdictCache.MemoryCache.Get` | internal/apiprovider/cache.go:81-91 | Every hit is the last verdict put under that provider and subject, and is unexpired. |
| `VerdictCache.MemoryCache.Put` | internal/apiprovider/cache.go:94-105 | The verdict is stored; only its own shard loses entries, and only when full: the expired ones if that is enough, else down to three quarters those that expire soonest; every shard stays bounded. |
| `VerdictCache.MemoryCache.Forget` | internal/apiprovider/cache.go:152-163 | Exactly the entries whose key starts with the provider go. |
| `VerdictCache.MemoryCache.Clear` | internal/apiprovider/cache.go:166-172 | Afterwards nothing is cached. |
| `VerdictCache.ForgetReachesExactly` | internal/apiprovider/cache.go:152-163 | Forgetting a provider can reach another's entries exactly if one ID goes on with a NUL where the other ends, or they are the same. |
| `VerdictCache.KeysCollideExactly` | internal/apiprovider/cache.go:66-69 | Keys of two providers can collide exactly if one ID goes on with a NUL where the other ends. |
| `VerdictCache.NulFreeNeverGoesOn` | internal/apiprovider/cache.go:66-69 | An ID without a NUL, as all issued ones are, never goes on that way. |
| `VerdictCache.ForgetReaches` | internal/apiprovider/cache.go:152-163 | Forgetting a NUL-free ID reaches an entry if and only if it is that provider's or its provider's ID goes on with a NUL. |
| `VerdictCache.ForgetIsExact` | internal/apiprovider/cache.go:69 | Among NUL-free IDs exactly the provider's own entries are reached. |
| `VerdictCache.KeysAreDistinct` | internal/apiprovider/cache.go:66-69 | NUL-free IDs give distinct keys to distinct pairs. |
| `NativeRuntimes.NativeRuntime.Activate` | cmd/dnsdaddy/native_runtime.go:117-142 | Starts the loop unless started or stopped before or the context has ended; called only while no other loop runs. |
| `NativeRuntimes.NativeRuntime.Stop` | cmd/dnsdaddy/native_runtime.go:144-157 | Cancels, and finishes a runtime that was never activated; `done` closes once. |
| `NativeRuntimes.NativeRuntime.Wait` | cmd/dnsdaddy/native_runtime.go:159-163 | Returns with the loop ended and `done` closed exactly once. |
| `NativeRuntimes.ControlledNative.Close` | cmd/dnsdaddy/dnssec_control.go:67-77 | Afterwards nothing runs, nothing can start, and no query gets through. |
| `RuntimeControl.Controller.OnlyTheSelectedLoops` | cmd/dnsdaddy/native_runtime.go:18-20 | Of all runtimes ever made, only the selected one can have a running refresh loop. |
| `RuntimeControl.Controller.Transition` | cmd/dnsdaddy/dnssec_control.go:185-267 | A failed change leaves selection, saved setting and running runtime as they were; a successful one saves, publishes, retires what it replaces and starts what it created; only the selected runtime may loop. |
| `RuntimeControl.Controller.SetTransport` | cmd/dnsdaddy/dns_transport.go:129-226 | Prepare, save, publish, retire, start: the same guarantees, with the old loop ended before the new one starts. |
| `RuntimeControl.Controller.Close` | cmd/dnsdaddy/dnssec_control.go:282-309 | Retires the selected runtime for good; a second call does nothing. |
| `RuntimeControl.Controller.ResolveOn` | cmd/dnsdaddy/dnssec_control.go:34-36 | A query that kept a pointer to a retired runtime is refused. |
| `QueryDrain.NothingReachesAClosedRuntime` | cmd/dnsdaddy/dnssec_control.go:46-77 | In every run from an open runtime, once close has returned no query is inside the native client and none ever gets there. |
| `QueryDrain.CancellingIsNotEnough` | cmd/dnsdaddy/dnssec_control.go:51-62 | Without the lock a query past its look still gets in after the cancellation. |
| `QueryDrain.GetsInExactlyIfOpen` | cmd/dnsdaddy/dnssec_control.go:46-66 | A query gets into the native client exactly if the runtime was neither cancelled nor closed when it looked. |
| `QueryDrain.CloseGetsTheLock` | cmd/dnsdaddy/dnssec_control.go:67-77 | After the cancellation closing waits only for queries that have arrived, which are never stuck. |
| `BoundedSelection.InsertSelects` | internal/api/handlers_server_addresses.go:264-275 | Bounded insertion keeps the list the least distinct items in strict order, and overflows exactly when something distinct is left out. |
| `BoundedSelection.OneSelection` | internal/api/handlers_server_addresses.go:264-275 | There is only one such list for a set of items. |
| `ServerAddresses.ReadAddresses` | internal/api/handlers_server_addresses.go:188-212 | Each interface keeps its 128 least distinct texts; the flags say exactly whether one had to go or was too long. |
| `ServerAddresses.ComparesKeys` | internal/api/handlers_server_addresses.go:313-348 | The comparison is the strict order of a key, and is zero exactly on equal keys. |
| `ServerAddresses.KeyLessIsStrict` | internal/api/handlers_server_addresses.go:313-348 | That order is asymmetric, transitive and total. |
| `ServerAddresses.InsertIsRight` | internal/api/handlers_server_addresses.go:264-275 | Inserting an address into a list of the least distinct addresses found gives the list of the least with it, marked truncated exactly if something distinct did not fit. |
| `ServerAddresses.Collect` | internal/api/handlers_server_addresses.go:231-284 | Of the host addresses that interfaces which are up have, the list is the 32 least distinct, in strict order; truncated exactly when something distinct was dropped; a preferred address is reported exactly if there is one, private before public and unshared before shared. |
| `ServerAddresses.InputOrderIsIrrelevant` | internal/api/handlers_server_addresses.go:231-277 | The order of interfaces and addresses changes nothing a client is shown. |

## Left out

- Feed parsers other than the framer, indicator decoding and the `source` and `generated_at` fields: parameters of the model.
- The refresh slot, the refresh ticker and the per-feed counts written to the store: they bound when operations run, not what they do.
- FeedReaders.FeedReader.ReadToEnd: the parsers' own buffering between reads.
- FeedIngest.ParseFile: the record count of a parse that fails is the parser's full count, where the program has counted up to the failure; only its bound is used.
- Unreadable cache files: they behave as missing ones.
- Cancellation inside the JSON framer and read errors other than the end of input: they stop it as any error does.
- Passphrase checks, key derivation and the hexadecimal form of digests.
- OpenReading.OpenReader.Read: what reads after an error return is not stated.
- Archive.Create: configuration rendering, the administrator's status and the database snapshot itself; tar is a list of entries with 512-byte blocks.
- Restoring.Restore: tar header kinds, the administrator's status, and rewriting the restored configuration (`setYAMLPath`, `yamlPath`) and database.
- Credentials.Validate: the queries; what a database stores and what a key opens are parameters.
- Archive.ValidName: `path.Clean` is not modelled, as the checks on the parts of a relative name imply it.
- Revocation: warming the cache at startup, delivering results to waiting callers and the metrics counters.
- VerdictCache.MemoryCache.Forget: the shards are locked one after another in the program and at once here.
- Limiter.TokenBucket.Wait: callers competing for tokens, for whom no bound on waiting exists.
- RuntimeControl.Controller.Transition: the learning observer that rides on a runtime, endpoint lists, forwarding routes but for their generation, and logging.
- The sort and cut of interfaces to 256, reading of listeners and address classification: parameters of `ServerAddresses`.
- ServerAddresses.InputOrderIsIrrelevant: the unexported loopback mark of equal entries may depend on the order; it is never shown.
