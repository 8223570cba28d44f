/** Every completed backup restores, to the bytes it recorded, unless a file outgrew its
    limit between being looked at and being opened or the key was exchanged meanwhile. */
module BackupRoundTrip {
  import opened Octets
  import opened Archive
  import opened Restoring
  import opened StableSort
  import Credentials

  lemma {:induction false} At(digest: Bytes -> Bytes, items: seq<Item>, i: nat)
    requires i < |items|
    ensures |Listed(digest, items)| == |Stored(items)| == |items| && items[i].name in Names(items)
    ensures Listed(digest, items)[i] == File(items[i].name, items[i].size, digest(items[i].hashed))
    ensures Stored(items)[i] == Entry(items[i].name, items[i].copied)
    ensures AllOffered(items) ==> Offered(items[i])
    ensures AllStable(digest, items) ==> Stable(digest, items[i])
  {
    if i > 0 {
      At(digest, items[1..], i - 1);
    } else {
      Lengths(digest, items);
    }
  }

  lemma {:induction false} Lengths(digest: Bytes -> Bytes, items: seq<Item>)
    ensures |Listed(digest, items)| == |Stored(items)| == |items|
  {
    if items != [] { Lengths(digest, items[1..]); }
  }

  lemma {:induction false} NamesDiffer(items: seq<Item>, i: nat, j: nat)
    requires Distinct(items) && i < j < |items|
    ensures items[i].name != items[j].name
  {
    if i == 0 {
      At(x => [], items[1..], j - 1);
    } else {
      NamesDiffer(items[1..], i - 1, j - 1);
    }
  }

  lemma {:induction false} Named(items: seq<Item>, n: string) returns (i: nat)
    requires n in Names(items)
    ensures i < |items| && items[i].name == n
  {
    if items[0].name == n {
      i := 0;
    } else {
      i := Named(items[1..], n);
      i := i + 1;
    }
  }

  lemma {:induction false} SizesAgree(digest: Bytes -> Bytes, items: seq<Item>)
    ensures SizeOf(Listed(digest, items)) == Total(items)
  {
    if items != [] {
      var first, rest := Listed(digest, items)[0], Listed(digest, items[1..]);
      SizesAgree(digest, items[1..]);
      SizeOfCons(first, rest);
    }
  }

  lemma {:induction false} SizeOfCons(first: File, rest: seq<File>)
    ensures SizeOf([first] + rest) == first.size + SizeOf(rest)
  {
    var all := [first] + rest;
    if rest == [] {
      assert all[..0] == [];
    } else {
      SizeOfCons(first, rest[..|rest| - 1]);
      assert all[..|all| - 1] == [first] + rest[..|rest| - 1];
    }
  }

  /** No file was larger when opened than its place in the archive allows. */
  ghost predicate NothingOutgrew(items: seq<Item>) {
    forall i :: 0 <= i < |items| ==> items[i].size <= FileLimit(items[i].name)
  }

  lemma AllOkIfNothingOutgrew(digest: Bytes -> Bytes, items: seq<Item>)
    requires AllOffered(items) && forall x :: |digest(x)| == 32
    ensures AllOk(Listed(digest, items)) <==> NothingOutgrew(items)
  {
    var files := Listed(digest, items);
    Lengths(digest, items);
    forall i | 0 <= i < |items| ensures FileOk(files[i]) <==> items[i].size <= FileLimit(items[i].name) {
      At(digest, items, i);
    }
  }

  lemma FilesDiffer(digest: Bytes -> Bytes, items: seq<Item>)
    requires Distinct(items)
    ensures DistinctFiles(Listed(digest, items))
  {
    var files := Listed(digest, items);
    Lengths(digest, items);
    forall i, j | 0 <= i < j < |files| ensures files[i].name != files[j].name {
      At(digest, items, i);
      At(digest, items, j);
      NamesDiffer(items, i, j);
    }
  }

  lemma ManifestIsGood(digest: Bytes -> Bytes, items: seq<Item>)
    requires Proper(items) && CONFIG in Names(items) && DATABASE in Names(items) && forall x :: |digest(x)| == 32
    ensures GoodManifest(Listed(digest, items)) <==> NothingOutgrew(items)
  {
    var files := Listed(digest, items);
    Lengths(digest, items);
    SizesAgree(digest, items);
    var c := Named(items, CONFIG);
    var d := Named(items, DATABASE);
    At(digest, items, c);
    At(digest, items, d);
    assert files[c].name == CONFIG && files[d].name == DATABASE;
    AllOkIfNothingOutgrew(digest, items);
    FilesDiffer(digest, items);
  }

  lemma EntriesAreGood(digest: Bytes -> Bytes, items: seq<Item>)
    requires Distinct(items) && Apart(Names(items)) && AllStable(digest, items)
    ensures GoodEntries(digest, Listed(digest, items), Stored(items))
  {
    var files, entries := Listed(digest, items), Stored(items);
    Lengths(digest, items);
    forall k | 0 <= k < |entries| ensures Promised(digest, files, entries[k]) {
      At(digest, items, k);
      assert files[k].name == entries[k].name && SameContent(digest, files[k], entries[k]);
    }
    forall j, k | 0 <= j < k < |entries| ensures Compatible(entries[j].name, entries[k].name) {
      At(digest, items, j);
      At(digest, items, k);
      NamesDiffer(items, j, k);
    }
  }

  /** Just the items' hashed bytes, under their names. */
  ghost predicate Restored(restored: map<string, Bytes>, items: seq<Item>) {
    && restored.Keys == Names(items)
    && forall i :: 0 <= i < |items| ==> items[i].name in restored && restored[items[i].name] == items[i].hashed
  }

  /** Restoring this archive succeeds, and gives the items' hashed bytes. */
  ghost predicate RestoresTo(vault: Credentials.Vault, digest: Bytes -> Bytes, p: Package, items: seq<Item>) {
    Restores(p, vault, digest) && Restored(RestoredOf(p, digest), items)
  }

  /** Every file of the host that a backup is for, as it was hashed, and nothing else. */
  ghost predicate HostRestored(restored: map<string, Bytes>, h: Host, useLocal: bool) {
    && (forall x :: OnHost(h, useLocal, x) ==> x.name in restored && restored[x.name] == x.hashed)
    && (forall n :: n in restored ==> exists x :: OnHost(h, useLocal, x) && x.name == n)
  }

  lemma RestoredIsTheHost(restored: map<string, Bytes>, h: Host, useLocal: bool)
    requires Restored(restored, ItemsOf(h, useLocal))
    ensures HostRestored(restored, h, useLocal)
  {
    var items := ItemsOf(h, useLocal);
    forall x | OnHost(h, useLocal, x) ensures x.name in restored && restored[x.name] == x.hashed {
      HoldsTheHost(h, useLocal, x);
      var i :| 0 <= i < |items| && items[i] == x;
    }
    forall n | n in restored ensures exists x :: OnHost(h, useLocal, x) && x.name == n {
      var i := Named(items, n);
      HoldsTheHost(h, useLocal, items[i]);
    }
  }

  /** The digest tells what was hashed from what was copied. */
  ghost predicate NoCollision(digest: Bytes -> Bytes, items: seq<Item>) {
    forall i :: 0 <= i < |items| && digest(items[i].copied) == digest(items[i].hashed) ==>
      items[i].copied == items[i].hashed
  }

  lemma HoldsWhatWasHashed(digest: Bytes -> Bytes, items: seq<Item>, restored: map<string, Bytes>)
    requires Holds(restored, Stored(items)) && AllStable(digest, items) && NoCollision(digest, items)
    ensures Restored(restored, items)
  {
    var entries := Stored(items);
    Lengths(digest, items);
    forall i | 0 <= i < |items| ensures items[i].name in restored && restored[items[i].name] == items[i].hashed {
      At(digest, items, i);
      assert entries[i].name in restored;
    }
    forall n ensures n in restored <==> n in Names(items) {
      if n in Names(items) { var i := Named(items, n); }
      if n in restored {
        assert HasEntry(entries, n);
        var k :| 0 <= k < |entries| && entries[k].name == n;
        At(digest, items, k);
      }
    }
  }

  /** What is accepted of a completed backup is just the bytes that were hashed. */
  lemma AcceptedIsRestored(digest: Bytes -> Bytes, items: seq<Item>)
    requires AllStable(digest, items) && NoCollision(digest, items) && Accepts(digest, PackageOf(digest, items))
    ensures Restored(RestoredOf(PackageOf(digest, items), digest), items)
  {
    var p := PackageOf(digest, items);
    AcceptsWhatIsGood(digest, p);
    HoldsWhatWasHashed(digest, items, RestoredOf(p, digest));
  }

  /** The archive is accepted exactly if no file outgrew its limit. */
  lemma AcceptedIfNothingOutgrew(digest: Bytes -> Bytes, items: seq<Item>)
    requires Proper(items) && Apart(Names(items)) && CONFIG in Names(items) && DATABASE in Names(items)
    requires AllStable(digest, items) && forall x :: |digest(x)| == 32
    ensures var p := PackageOf(digest, items);
            0 < |p.files| <= MAX_FILES && Accepts(digest, p) <==> NothingOutgrew(items)
  {
    ManifestIsGood(digest, items);
    EntriesAreGood(digest, items);
    AcceptsWhatIsGood(digest, PackageOf(digest, items));
  }

  lemma KeepsItem(restored: map<string, Bytes>, items: seq<Item>, x: Item)
    requires Restored(restored, items) && x in items
    ensures Kept(restored, x.name) == x.hashed
  {
    var i :| 0 <= i < |items| && items[i] == x;
  }

  /** The restored database and key are those that were hashed. */
  lemma KeepsVault(h: Host, useLocal: bool, restored: map<string, Bytes>)
    requires Collectable(h, useLocal) && Restored(restored, ItemsOf(h, useLocal))
    ensures Kept(restored, DATABASE) == Hashed(h.database) && Kept(restored, SECRETS) == Hashed(h.secrets)
  {
    var all, items := Everything(h, useLocal), ItemsOf(h, useLocal);
    SortMembers(all, NamedBefore);
    SortKeepsChecks(all);
    KeepsItem(restored, items, Item1(DATABASE, h.database)[0]);
    if h.secrets.Regular? {
      KeepsItem(restored, items, Item1(SECRETS, h.secrets)[0]);
    } else {
      NoKeyNoItem(h, useLocal);
    }
  }

  /** The backup of this host completes, as far as its files are concerned. */
  ghost predicate Completes(h: Host, useLocal: bool, digest: Bytes -> Bytes) {
    && Walked(h.feeds) && Walked(h.local) && Collectable(h, useLocal) && AllStable(digest, ItemsOf(h, useLocal))
    && NoCollision(digest, ItemsOf(h, useLocal)) && forall x :: |digest(x)| == 32
  }

  lemma AcceptedOf(h: Host, useLocal: bool, digest: Bytes -> Bytes)
    requires Completes(h, useLocal, digest)
    ensures var p := PackageOf(digest, ItemsOf(h, useLocal));
            0 < |p.files| <= MAX_FILES && Accepts(digest, p) <==> NothingOutgrew(ItemsOf(h, useLocal))
  {
    CollectableIsProper(h, useLocal);
    EverythingApart(h, useLocal);
    HasBoth(h, useLocal);
    SortKeepsChecks(Everything(h, useLocal));
    AcceptedIfNothingOutgrew(digest, ItemsOf(h, useLocal));
  }

  /** Such a backup restores to the bytes it hashed, exactly if no file outgrew its limit in
      the moment between the look at its size and its opening, and the key that was hashed opens
      the credentials. */
  lemma CreatedRestores(h: Host, useLocal: bool, vault: Credentials.Vault, digest: Bytes -> Bytes)
    requires Completes(h, useLocal, digest)
    ensures var items := ItemsOf(h, useLocal);
            RestoresTo(vault, digest, PackageOf(digest, items), items) <==>
              NothingOutgrew(items) && Credentials.Fits(vault, Hashed(h.database), Hashed(h.secrets))
    ensures var p := PackageOf(digest, ItemsOf(h, useLocal));
            Restores(p, vault, digest) ==> HostRestored(RestoredOf(p, digest), h, useLocal)
  {
    var items := ItemsOf(h, useLocal);
    var p := PackageOf(digest, items);
    AcceptedOf(h, useLocal, digest);
    if Accepts(digest, p) {
      AcceptedIsRestored(digest, items);
      RestoredIsTheHost(RestoredOf(p, digest), h, useLocal);
      KeepsVault(h, useLocal, RestoredOf(p, digest));
    }
  }

  /** So a backup that completed restores exactly if no file outgrew its limit, unless the key
      file's bytes changed between the check and the hash. */
  lemma CompletedRestores(h: Host, useLocal: bool, vault: Credentials.Vault, digest: Bytes -> Bytes)
    requires Completes(h, useLocal, digest) && Credentials.Fits(vault, Hashed(h.database), KeyChecked(h))
    requires KeyChecked(h) == Hashed(h.secrets)
    ensures var items := ItemsOf(h, useLocal);
            RestoresTo(vault, digest, PackageOf(digest, items), items) <==> NothingOutgrew(items)
  {
    CreatedRestores(h, useLocal, vault, digest);
  }

  /** If no file changed its size while being opened, none outgrew its limit. */
  lemma UnchangedFit(digest: Bytes -> Bytes, items: seq<Item>)
    requires AllOffered(items) && forall i :: 0 <= i < |items| ==> items[i].size == items[i].before
    ensures NothingOutgrew(items)
  {
    forall i | 0 <= i < |items| ensures items[i].size <= FileLimit(items[i].name) { At(digest, items, i); }
  }

  lemma {:induction false} StableMembers(digest: Bytes -> Bytes, items: seq<Item>)
    ensures AllStable(digest, items) <==> forall x :: x in items ==> Stable(digest, x)
  {
    if items != [] {
      StableMembers(digest, items[1..]);
      assert forall x :: x in items <==> x == items[0] || x in items[1..];
    }
  }

  // ---------- hosts whose backup completes and does not restore ----------

  /** A file that does not change. */
  function Whole(content: Bytes): Probe {
    Regular(|content|, |content|, content, content)
  }

  /** A host with a database, perhaps a key and custom trust anchors, and a configuration. */
  function SmallHost(db: Bytes, key: Probe, checked: Bytes, anchors: Probe, cfg: Bytes): Host {
    Host(Whole(db), key, Missing, Missing, Missing, Unset, Unset, if anchors.Missing? then Unset else Set(anchors),
         Absent, Absent, Whole(cfg), checked)
  }

  function SmallItems(db: Bytes, key: Probe, anchors: Probe, cfg: Bytes): seq<Item> {
    Item1(DATABASE, Whole(db)) + Item1(SECRETS, key) + Item1(CUSTOM_ANCHORS, anchors) + Item1(CONFIG, Whole(cfg))
  }

  lemma SmallIsAll(db: Bytes, key: Probe, checked: Bytes, anchors: Probe, cfg: Bytes)
    ensures Everything(SmallHost(db, key, checked, anchors, cfg), false) == SmallItems(db, key, anchors, cfg)
  {
    var h := SmallHost(db, key, checked, anchors, cfg);
    var d, k, a := Item1(DATABASE, Whole(db)), Item1(SECRETS, key), Item1(CUSTOM_ANCHORS, anchors);
    assert [] + d + k + [] + [] == d + k;
    assert DataItems(h) == d + k;
    assert d + k + [] + [] + [] + a == d + k + a;
    assert FixedItems(h) == d + k + a;
    assert d + k + a + [] + [] == d + k + a;
  }

  /** What is copied is what was hashed. */
  predicate Intact(x: Item) {
    x.hashed == x.copied && |x.copied| == x.size
  }

  lemma IntactIsStable(digest: Bytes -> Bytes, items: seq<Item>)
    requires forall x :: x in items ==> Intact(x)
    ensures AllStable(digest, items) && NoCollision(digest, items)
  {
    StableMembers(digest, items);
    forall i | 0 <= i < |items| ensures items[i].copied == items[i].hashed { assert items[i] in items; }
  }

  /** A regular file within its limit when looked at, which has these bytes from its opening on; or none. */
  predicate Steady(probe: Probe, limit: nat) {
    probe.Missing? || (probe.Regular? && probe.before <= limit && probe.hashed == probe.copied &&
                       |probe.copied| == probe.size)
  }

  lemma SmallRoom(db: Bytes, key: Probe, anchors: Probe, cfg: Bytes)
    requires Steady(key, MAX_KEY) && Steady(anchors, MAX_STATE)
    ensures Total(SmallItems(db, key, anchors, cfg)) == |db| + |Hashed(key)| + |Hashed(anchors)| + |cfg|
    ensures |SmallItems(db, key, anchors, cfg)| <= 4
    ensures forall x :: x in SmallItems(db, key, anchors, cfg) ==> Intact(x)
  {
    var d, k, a := Item1(DATABASE, Whole(db)), Item1(SECRETS, key), Item1(CUSTOM_ANCHORS, anchors);
    Joins(d, k);
    Joins(d + k, a);
    Joins(d + k + a, Item1(CONFIG, Whole(cfg)));
  }

  /** The contents fit an archive. */
  predicate SmallEnough(db: Bytes, key: Bytes, anchors: Bytes, cfg: Bytes) {
    |cfg| <= MAX_CONFIG && |db| + |key| + |anchors| + |cfg| <= BUDGET
  }

  lemma SmallIsCollectable(db: Bytes, key: Probe, checked: Bytes, anchors: Probe, cfg: Bytes)
    requires Steady(key, MAX_KEY) && Steady(anchors, MAX_STATE)
    requires SmallEnough(db, Hashed(key), Hashed(anchors), cfg)
    ensures Collectable(SmallHost(db, key, checked, anchors, cfg), false)
  {
    SmallIsAll(db, key, checked, anchors, cfg);
    SmallRoom(db, key, anchors, cfg);
  }

  lemma SmallCompletes(db: Bytes, key: Probe, checked: Bytes, anchors: Probe, cfg: Bytes, digest: Bytes -> Bytes)
    requires Steady(key, MAX_KEY) && Steady(anchors, MAX_STATE) && (forall x :: |digest(x)| == 32)
    requires SmallEnough(db, Hashed(key), Hashed(anchors), cfg)
    ensures Completes(SmallHost(db, key, checked, anchors, cfg), false, digest)
  {
    var h := SmallHost(db, key, checked, anchors, cfg);
    var all := Everything(h, false);
    SmallIsCollectable(db, key, checked, anchors, cfg);
    SmallIsAll(db, key, checked, anchors, cfg);
    SmallRoom(db, key, anchors, cfg);
    SortMembers(all, NamedBefore);
    IntactIsStable(digest, ItemsOf(h, false));
  }

  /** Custom trust anchors that were within their limit when looked at and beyond it when opened:
      the backup completes, whatever else it holds, and does not restore. */
  lemma GrownFileIsRefused(db: Bytes, before: nat, anchors: Bytes, cfg: Bytes, vault: Credentials.Vault,
                           digest: Bytes -> Bytes)
    requires before <= MAX_STATE < |anchors| && SmallEnough(db, [], anchors, cfg) && forall x :: |digest(x)| == 32
    requires Credentials.Fits(vault, db, [])
    ensures var h := SmallHost(db, Missing, [], Regular(before, |anchors|, anchors, anchors), cfg);
            && Completes(h, false, digest) && Credentials.Fits(vault, Hashed(h.database), KeyChecked(h))
            && !RestoresTo(vault, digest, PackageOf(digest, ItemsOf(h, false)), ItemsOf(h, false))
  {
    var probe := Regular(before, |anchors|, anchors, anchors);
    var h := SmallHost(db, Missing, [], probe, cfg);
    var all, x := Everything(h, false), Item1(CUSTOM_ANCHORS, probe)[0];
    SmallCompletes(db, Missing, [], probe, cfg, digest);
    SmallIsAll(db, Missing, [], probe, cfg);
    SortMembers(all, NamedBefore);
    assert x in all;
    Limits();
    var i :| 0 <= i < |ItemsOf(h, false)| && ItemsOf(h, false)[i] == x;
    CreatedRestores(h, false, vault, digest);
  }

  /** A key file that was overwritten between the check and the hash, by a key that does not
      open the credentials: the backup completes and does not restore. */
  lemma ExchangedKeyIsRefused(db: Bytes, checked: Bytes, key: Bytes, cfg: Bytes, vault: Credentials.Vault,
                              digest: Bytes -> Bytes)
    requires |key| <= MAX_KEY && SmallEnough(db, key, [], cfg) && forall x :: |digest(x)| == 32
    requires Credentials.Fits(vault, db, checked) && !Credentials.Fits(vault, db, key)
    ensures var h := SmallHost(db, Whole(key), checked, Missing, cfg);
            && Completes(h, false, digest) && Credentials.Fits(vault, Hashed(h.database), KeyChecked(h))
            && !RestoresTo(vault, digest, PackageOf(digest, ItemsOf(h, false)), ItemsOf(h, false))
  {
    SmallCompletes(db, Whole(key), checked, Missing, cfg, digest);
    CreatedRestores(SmallHost(db, Whole(key), checked, Missing, cfg), false, vault, digest);
  }
}
