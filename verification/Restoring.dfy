/** Restoring an archive: what is checked before anything counts as restored. */
module Restoring {
  import opened Octets
  import opened Archive
  import Credentials

  // ---------- the checks ----------

  predicate FileOk(f: File) {
    ValidName(f.name) && Allowed(f.name) && f.size <= FileLimit(f.name) && |f.digest| == 32
  }

  function SizeOf(files: seq<File>): nat {
    if files == [] then 0 else SizeOf(files[..|files| - 1]) + files[|files| - 1].size
  }

  ghost predicate AllOk(files: seq<File>) {
    forall i :: 0 <= i < |files| ==> FileOk(files[i])
  }

  ghost predicate DistinctFiles(files: seq<File>) {
    forall i, j :: 0 <= i < j < |files| ==> files[i].name != files[j].name
  }

  ghost predicate HasFile(files: seq<File>, name: string) {
    exists i :: 0 <= i < |files| && files[i].name == name
  }

  ghost predicate GoodManifest(files: seq<File>) {
    && 0 < |files| <= MAX_FILES
    && AllOk(files) && DistinctFiles(files) && SizeOf(files) <= BUDGET
    && HasFile(files, CONFIG) && HasFile(files, DATABASE)
  }

  predicate SameContent(digest: Bytes -> Bytes, f: File, e: Entry) {
    |e.content| == f.size && digest(e.content) == f.digest
  }

  /** Every entry matches a file of its own, every file has its entry, and all can be put side by side. */
  ghost predicate GoodEntries(digest: Bytes -> Bytes, files: seq<File>, entries: seq<Entry>) {
    && |entries| == |files|
    && (forall k :: 0 <= k < |entries| ==> Promised(digest, files, entries[k]))
    && SideBySide(entries)
  }

  ghost predicate SideBySide(entries: seq<Entry>) {
    forall j, k :: 0 <= j < k < |entries| ==> Compatible(entries[j].name, entries[k].name)
  }

  ghost predicate Promised(digest: Bytes -> Bytes, files: seq<File>, e: Entry) {
    exists i :: 0 <= i < |files| && files[i].name == e.name && SameContent(digest, files[i], e)
  }

  // ---------- the manifest ----------

  /** The manifest indexed by name, unless a check fails. */
  datatype Indexed = Refused | Index(expected: map<string, File>, total: nat)

  function WithFile(at: Indexed, f: File): Indexed {
    if at.Refused? || !FileOk(f) || f.name in at.expected || at.total + f.size > BUDGET then Refused
    else Index(at.expected[f.name := f], at.total + f.size)
  }

  function IndexOf(files: seq<File>): Indexed {
    if files == [] then Index(map[], 0) else WithFile(IndexOf(files[..|files| - 1]), files[|files| - 1])
  }

  lemma {:induction false} StaysRefused(files: seq<File>, n: nat)
    requires n <= |files| && IndexOf(files[..n]).Refused?
    ensures IndexOf(files).Refused?
  {
    if n < |files| {
      assert files[..|files| - 1][..n] == files[..n];
      StaysRefused(files[..|files| - 1], n);
    } else {
      assert files[..n] == files;
    }
  }

  method CheckManifest(files: seq<File>) returns (at: Indexed)
    ensures at == IndexOf(files)
  {
    at := Index(map[], 0);
    for i := 0 to |files|
      invariant at == IndexOf(files[..i]) && at.Index?
    {
      assert files[..i + 1][..i] == files[..i];
      at := WithFile(at, files[i]);
      if at.Refused? {
        StaysRefused(files, i + 1);
        return;
      }
    }
    assert files[..|files|] == files;
  }

  /** The files but for the limit on their number and the two required. */
  ghost predicate Listable(files: seq<File>) {
    AllOk(files) && DistinctFiles(files) && SizeOf(files) <= BUDGET
  }

  ghost predicate IndexesAll(files: seq<File>, expected: map<string, File>) {
    && |expected| == |files|
    && (forall i :: 0 <= i < |files| ==> files[i].name in expected && expected[files[i].name] == files[i])
    && (forall n :: n in expected ==> HasFile(files, n))
  }

  lemma AllOkLast(rest: seq<File>, last: File)
    ensures AllOk(rest + [last]) <==> AllOk(rest) && FileOk(last)
  {
    var files := rest + [last];
    assert files[|rest|] == last && forall i :: 0 <= i < |rest| ==> files[i] == rest[i];
  }

  lemma DistinctLast(rest: seq<File>, last: File)
    ensures DistinctFiles(rest + [last]) <==> DistinctFiles(rest) && !HasFile(rest, last.name)
  {
    var files := rest + [last];
    assert files[|rest|] == last && forall i :: 0 <= i < |rest| ==> files[i] == rest[i];
    if HasFile(rest, last.name) {
      var i :| 0 <= i < |rest| && rest[i].name == last.name;
      assert files[i].name == files[|rest|].name;
    }
  }

  lemma ListableLast(files: seq<File>)
    requires files != []
    ensures var rest, last := files[..|files| - 1], files[|files| - 1];
            Listable(files) <==>
              Listable(rest) && FileOk(last) && !HasFile(rest, last.name) && SizeOf(rest) + last.size <= BUDGET
  {
    var rest, last := files[..|files| - 1], files[|files| - 1];
    assert files == rest + [last];
    AllOkLast(rest, last);
    DistinctLast(rest, last);
  }

  lemma HasLast(files: seq<File>, n: string)
    requires files != []
    ensures HasFile(files, n) <==> HasFile(files[..|files| - 1], n) || files[|files| - 1].name == n
  {
  }

  lemma IndexesOneMore(rest: seq<File>, last: File, expected: map<string, File>)
    requires IndexesAll(rest, expected) && last.name !in expected
    ensures IndexesAll(rest + [last], expected[last.name := last])
  {
    var files, next := rest + [last], expected[last.name := last];
    assert files[..|files| - 1] == rest;
    assert next.Keys == expected.Keys + {last.name};
    assert |next| == |next.Keys| && |expected| == |expected.Keys|;
    forall n | n in next ensures HasFile(files, n) { HasLast(files, n); }
    forall i | 0 <= i < |files| ensures files[i].name in next && next[files[i].name] == files[i] {
      if i < |rest| { assert files[i] == rest[i]; }
    }
  }

  /** The index exists exactly for a listable manifest, and then holds each file once. */
  lemma {:induction false} IndexIsRight(files: seq<File>)
    ensures IndexOf(files).Index? <==> Listable(files)
    ensures IndexOf(files).Index? ==>
              IndexesAll(files, IndexOf(files).expected) && IndexOf(files).total == SizeOf(files)
  {
    if files != [] {
      var rest, last := files[..|files| - 1], files[|files| - 1];
      IndexIsRight(rest);
      ListableLast(files);
      assert files == rest + [last];
      if IndexOf(rest).Index? {
        InIndex(rest, IndexOf(rest).expected, last.name);
        if last.name !in IndexOf(rest).expected { IndexesOneMore(rest, last, IndexOf(rest).expected); }
      }
    }
  }

  lemma InIndex(files: seq<File>, expected: map<string, File>, n: string)
    requires IndexesAll(files, expected)
    ensures n in expected <==> HasFile(files, n)
  {
  }

  // ---------- the entries ----------

  datatype Extracted = Rejected | Files(restored: map<string, Bytes>)

  /** No file is where the name needs a directory, and no directory where it needs a file. */
  predicate CanCreate(names: set<string>, n: string) {
    forall m :: m in names ==> !Beneath(n, m) && !Beneath(m, n)
  }

  function WithEntry(digest: Bytes -> Bytes, expected: map<string, File>, at: Extracted, e: Entry): Extracted {
    if at.Rejected? || e.name !in expected || e.name in at.restored then Rejected
    else if !CanCreate(at.restored.Keys, e.name) then Rejected
    else if !SameContent(digest, expected[e.name], e) then Rejected
    else Files(at.restored[e.name := e.content])
  }

  function ExtractOf(digest: Bytes -> Bytes, expected: map<string, File>, entries: seq<Entry>): Extracted {
    if entries == [] then Files(map[])
    else WithEntry(digest, expected, ExtractOf(digest, expected, entries[..|entries| - 1]), entries[|entries| - 1])
  }

  lemma {:induction false} StaysRejected(digest: Bytes -> Bytes, expected: map<string, File>, entries: seq<Entry>,
                                         n: nat)
    requires n <= |entries| && ExtractOf(digest, expected, entries[..n]).Rejected?
    ensures ExtractOf(digest, expected, entries).Rejected?
  {
    if n < |entries| {
      assert entries[..|entries| - 1][..n] == entries[..n];
      StaysRejected(digest, expected, entries[..|entries| - 1], n);
    } else {
      assert entries[..n] == entries;
    }
  }

  /** Extracts the entries, each once and only if promised. */
  method Extract(digest: Bytes -> Bytes, expected: map<string, File>, entries: seq<Entry>) returns (at: Extracted)
    ensures at == ExtractOf(digest, expected, entries)
  {
    at := Files(map[]);
    for k := 0 to |entries|
      invariant at == ExtractOf(digest, expected, entries[..k]) && at.Files?
    {
      var e := entries[k];
      assert entries[..k + 1][..k] == entries[..k];
      if e.name !in expected || e.name in at.restored || !CanCreate(at.restored.Keys, e.name) ||
         |e.content| != expected[e.name].size || digest(e.content) != expected[e.name].digest
      {
        StaysRejected(digest, expected, entries, k + 1);
        return Rejected;
      }
      at := Files(at.restored[e.name := e.content]);
    }
    assert entries[..|entries|] == entries;
  }

  /** The contents of a restored file; nothing if it is missing. */
  function Kept(restored: map<string, Bytes>, n: string): Bytes {
    if n in restored then restored[n] else []
  }

  /** The restored key opens the credentials in the restored database. */
  predicate Unlocked(vault: Credentials.Vault, restored: map<string, Bytes>) {
    Credentials.Fits(vault, Kept(restored, DATABASE), Kept(restored, SECRETS))
  }

  /** Restores an archive's files. */
  method Restore(p: Package, vault: Credentials.Vault, digest: Bytes -> Bytes)
    returns (ok: bool, restored: map<string, Bytes>)
    ensures ok <==> Restores(p, vault, digest)
    ensures ok ==> restored == RestoredOf(p, digest) && AsListed(digest, p.files, restored)
  {
    restored := map[];
    if p.files == [] || |p.files| > MAX_FILES { return false, restored; }
    var at := CheckManifest(p.files);
    if at.Refused? || CONFIG !in at.expected || DATABASE !in at.expected { return false, restored; }
    var extracted := Extract(digest, at.expected, p.entries);
    if extracted.Rejected? { return false, restored; }
    restored := extracted.restored;
    if |restored| != |at.expected| { return false, restored; }
    ok := Credentials.Validate(vault, Kept(restored, DATABASE), Kept(restored, SECRETS));
    if ok { RestoresAsListed(p, vault, digest); }
  }

  function RestoredOf(p: Package, digest: Bytes -> Bytes): map<string, Bytes>
    requires Accepts(digest, p)
  {
    ExtractOf(digest, IndexOf(p.files).expected, p.entries).restored
  }

  predicate Restores(p: Package, vault: Credentials.Vault, digest: Bytes -> Bytes) {
    0 < |p.files| <= MAX_FILES && Accepts(digest, p) && Unlocked(vault, RestoredOf(p, digest))
  }

  predicate Accepts(digest: Bytes -> Bytes, p: Package) {
    var at := IndexOf(p.files);
    && at.Index? && CONFIG in at.expected && DATABASE in at.expected
    && var extracted := ExtractOf(digest, at.expected, p.entries);
       extracted.Files? && |extracted.restored| == |at.expected|
  }

  /** Every entry is expected, and all can be put side by side. */
  ghost predicate Extractable(digest: Bytes -> Bytes, expected: map<string, File>, entries: seq<Entry>) {
    && (forall k :: 0 <= k < |entries| ==>
          entries[k].name in expected && SameContent(digest, expected[entries[k].name], entries[k]))
    && SideBySide(entries)
  }

  ghost predicate HasEntry(entries: seq<Entry>, n: string) {
    exists k :: 0 <= k < |entries| && entries[k].name == n
  }

  /** Just the entries' contents, under their names. */
  ghost predicate Holds(restored: map<string, Bytes>, entries: seq<Entry>) {
    && |restored| == |entries|
    && (forall k :: 0 <= k < |entries| ==>
          entries[k].name in restored && restored[entries[k].name] == entries[k].content)
    && (forall n :: n in restored ==> HasEntry(entries, n))
  }

  ghost predicate CompatibleWithAll(entries: seq<Entry>, n: string) {
    forall k :: 0 <= k < |entries| ==> Compatible(entries[k].name, n)
  }

  lemma ExtractableLast(digest: Bytes -> Bytes, expected: map<string, File>, rest: seq<Entry>, last: Entry)
    ensures Extractable(digest, expected, rest + [last]) <==>
              Extractable(digest, expected, rest) && last.name in expected &&
              SameContent(digest, expected[last.name], last) && CompatibleWithAll(rest, last.name)
  {
    var entries := rest + [last];
    assert forall k :: 0 <= k < |rest| ==> entries[k] == rest[k];
    assert entries[|rest|] == last;
  }

  lemma CompatibleIfCreatable(restored: map<string, Bytes>, entries: seq<Entry>, n: string)
    requires Holds(restored, entries)
    ensures n !in restored && CanCreate(restored.Keys, n) <==> CompatibleWithAll(entries, n)
  {
    if CompatibleWithAll(entries, n) {
      forall m | m in restored ensures Compatible(m, n) {
        var k :| 0 <= k < |entries| && entries[k].name == m;
      }
    }
  }

  lemma HasEntryStill(rest: seq<Entry>, last: Entry, n: string)
    requires HasEntry(rest, n) || n == last.name
    ensures HasEntry(rest + [last], n)
  {
    var entries := rest + [last];
    if HasEntry(rest, n) {
      var k :| 0 <= k < |rest| && rest[k].name == n;
      assert entries[k].name == n;
    } else {
      assert entries[|rest|].name == n;
    }
  }

  lemma HoldsOneMore(restored: map<string, Bytes>, rest: seq<Entry>, last: Entry)
    requires Holds(restored, rest) && last.name !in restored
    ensures Holds(restored[last.name := last.content], rest + [last])
  {
    var entries, next := rest + [last], restored[last.name := last.content];
    assert next.Keys == restored.Keys + {last.name};
    assert |next| == |next.Keys| && |restored| == |restored.Keys|;
    forall n | n in next ensures HasEntry(entries, n) { HasEntryStill(rest, last, n); }
    forall k | 0 <= k < |entries| ensures entries[k].name in next && next[entries[k].name] == entries[k].content {
      if k < |rest| { assert entries[k] == rest[k]; }
    }
  }

  lemma {:induction false} ExtractIsRight(digest: Bytes -> Bytes, expected: map<string, File>, entries: seq<Entry>)
    ensures ExtractOf(digest, expected, entries).Files? <==> Extractable(digest, expected, entries)
    ensures ExtractOf(digest, expected, entries).Files? ==>
              Holds(ExtractOf(digest, expected, entries).restored, entries)
  {
    if entries != [] {
      var rest, last := entries[..|entries| - 1], entries[|entries| - 1];
      ExtractIsRight(digest, expected, rest);
      ExtractableLast(digest, expected, rest, last);
      assert entries == rest + [last];
      var at := ExtractOf(digest, expected, rest);
      if at.Files? {
        CompatibleIfCreatable(at.restored, rest, last.name);
        if last.name !in at.restored { HoldsOneMore(at.restored, rest, last); }
      }
    }
  }

  /** What the loops accept is what the checks ask for, and what they extract is the entries. */
  lemma AcceptsWhatIsGood(digest: Bytes -> Bytes, p: Package)
    ensures 0 < |p.files| <= MAX_FILES && Accepts(digest, p) <==>
              GoodManifest(p.files) && GoodEntries(digest, p.files, p.entries)
    ensures Accepts(digest, p) ==> Holds(ExtractOf(digest, IndexOf(p.files).expected, p.entries).restored, p.entries)
  {
    IndexIsRight(p.files);
    var at := IndexOf(p.files);
    if at.Index? {
      InIndex(p.files, at.expected, CONFIG);
      InIndex(p.files, at.expected, DATABASE);
      ExtractIsRight(digest, at.expected, p.entries);
      EntriesAgree(digest, p.files, at.expected, p.entries);
    }
  }

  /** Just the files the manifest lists, under valid and allowed names, each with the listed size and digest, and all
      within the limits. */
  ghost predicate AsListed(digest: Bytes -> Bytes, files: seq<File>, restored: map<string, Bytes>) {
    && (forall i :: 0 <= i < |files| ==> ListedFile(digest, files[i], restored))
    && (forall n :: n in restored ==> HasFile(files, n))
    && |files| <= MAX_FILES && SizeOf(files) <= BUDGET
  }

  predicate ListedFile(digest: Bytes -> Bytes, f: File, restored: map<string, Bytes>) {
    && f.name in restored && |restored[f.name]| == f.size && digest(restored[f.name]) == f.digest && |f.digest| == 32
    && ValidName(f.name) && Allowed(f.name) && f.size <= FileLimit(f.name)
  }

  lemma PromisedNames(digest: Bytes -> Bytes, files: seq<File>, entries: seq<Entry>, restored: map<string, Bytes>)
    requires DistinctFiles(files) && GoodEntries(digest, files, entries) && Holds(restored, entries)
    ensures restored.Keys == set f | f in files :: f.name
  {
    var names := set f | f in files :: f.name;
    forall n | n in restored ensures n in names {
      var k :| 0 <= k < |entries| && entries[k].name == n;
      assert Promised(digest, files, entries[k]);
      var i :| 0 <= i < |files| && files[i].name == entries[k].name && SameContent(digest, files[i], entries[k]);
      assert files[i] in files;
    }
    NamesCount(files);
    SameSize(restored.Keys, names);
  }

  lemma {:induction false} NamesCount(files: seq<File>)
    requires DistinctFiles(files)
    ensures |set f | f in files :: f.name| == |files|
  {
    if files != [] {
      var rest, last := files[..|files| - 1], files[|files| - 1];
      forall i, j | 0 <= i < j < |rest| ensures rest[i].name != rest[j].name {
        assert rest[i] == files[i] && rest[j] == files[j];
      }
      NamesCount(rest);
      var names := set f | f in rest :: f.name;
      forall i | 0 <= i < |rest| ensures rest[i].name != last.name { assert rest[i] == files[i]; }
      assert (set f | f in files :: f.name) == names + {last.name} by {
        assert files == rest + [last];
      }
    }
  }

  lemma SameSize(a: set<string>, b: set<string>)
    requires a <= b && |a| == |b|
    ensures a == b
  {
    assert b == a + (b - a);
    assert |b - a| == 0;
  }

  lemma NamedIsListed(files: seq<File>, n: string)
    requires n in set f | f in files :: f.name
    ensures HasFile(files, n)
  {
    var f :| f in files && f.name == n;
    var i :| 0 <= i < |files| && files[i] == f;
  }

  /** Whatever restores is just as the manifest lists it. */
  lemma RestoresAsListed(p: Package, vault: Credentials.Vault, digest: Bytes -> Bytes)
    requires Restores(p, vault, digest)
    ensures AsListed(digest, p.files, RestoredOf(p, digest))
  {
    var restored := RestoredOf(p, digest);
    AcceptsWhatIsGood(digest, p);
    PromisedNames(digest, p.files, p.entries, restored);
    forall n | n in restored ensures HasFile(p.files, n) { NamedIsListed(p.files, n); }
    forall i | 0 <= i < |p.files| ensures ListedFile(digest, p.files[i], restored) {
      EntryOf(digest, p.files, p.entries, restored, i);
    }
  }

  lemma EntryOf(digest: Bytes -> Bytes, files: seq<File>, entries: seq<Entry>, restored: map<string, Bytes>, i: nat)
    requires GoodManifest(files) && GoodEntries(digest, files, entries) && Holds(restored, entries) && i < |files|
    requires restored.Keys == set f | f in files :: f.name
    ensures ListedFile(digest, files[i], restored)
  {
    assert files[i] in files && files[i].name in restored;
    var k :| 0 <= k < |entries| && entries[k].name == files[i].name;
    assert Promised(digest, files, entries[k]);
    var j :| 0 <= j < |files| && files[j].name == entries[k].name && SameContent(digest, files[j], entries[k]);
    assert j == i && FileOk(files[i]);
  }

  lemma EntriesAgree(digest: Bytes -> Bytes, files: seq<File>, expected: map<string, File>, entries: seq<Entry>)
    requires IndexesAll(files, expected)
    ensures GoodEntries(digest, files, entries) <==> Extractable(digest, expected, entries) && |entries| == |expected|
  {
  }
}
