/** A backup from the host to the sealed bytes and back. */
module SealedBackup {
  import opened Octets
  import opened Options
  import opened SealStream
  import opened SealWriting
  import opened OpenReading
  import Archive
  import BackupRoundTrip
  import Credentials
  import Restoring

  type Cut = n: nat | n > 0 witness 1

  // ---------- sealing ----------

  /** Hands the archive to the writer in pieces of any size, and closes it. */
  method SealTape(s: SealWriter, tape: Bytes, cuts: nat -> Cut) returns (ok: bool)
    requires s.Valid() && s.Open() && s.data == []
    modifies s, s.w
    ensures s.Sound()
    ensures ok ==> s.data == tape && s.records == Records(tape) && s.w.got == Stream(s.a, s.pass, s.header, tape)
    ensures s.w.Reliable() ==> (ok <==> |tape| <= MAX_ARCHIVE)
  {
    var rest := tape;
    var k := 0;
    while rest != []
      invariant s.Valid() && s.Open() && s.total == |s.data| && s.data + rest == tape
      decreases |rest|
    {
      var n := if cuts(k) < |rest| then cuts(k) else |rest|;
      ghost var before := s.data;
      assert before + rest[..n] + rest[n..] == tape;
      var _, result := s.Write(rest[..n]);
      if !result.Ok? { return false; }
      rest := rest[n..];
      k := k + 1;
    }
    assert s.data == tape;
    ghost var taken;
    var result;
    result, taken := s.Close();
    ok := result.Ok?;
  }

  // ---------- opening ----------

  /** What the archive format makes of the first bytes it takes. */
  type Untar = Bytes -> Option<Archive.Package>

  /** The tape holds an archive that restores, and only zeros behind it. */
  predicate Unpacks(tape: Bytes, used: nat, untar: Untar, vault: Credentials.Vault, digest: Bytes -> Bytes) {
    && used <= |tape| && untar(tape[..used]).Some?
    && Restoring.Restores(untar(tape[..used]).value, vault, digest) && AllZero(tape[used..])
  }

  function Contents(tape: Bytes, used: nat, untar: Untar, vault: Credentials.Vault, digest: Bytes -> Bytes)
    : map<string, Bytes>
    requires Unpacks(tape, used, untar, vault, digest)
  {
    Restoring.RestoredOf(untar(tape[..used]).value, digest)
  }

  /** Opens a stream, unpacks it, checks the files and reads to the authenticated end. */
  method RestoreStream(a: Aead, pass: Bytes, magic: Bytes, stream: Bytes, clean: bool, used: nat, untar: Untar,
                       vault: Credentials.Vault, digest: Bytes -> Bytes, sizes: nat -> nat, ghost log: set<Sealing>,
                       ghost packages: set<Package>)
    returns (ok: bool, restored: map<string, Bytes>)
    requires |magic| == 16 && (forall k :: sizes(k) > 0)
    requires Ideal(a, log) && FromWriters(a, log, packages) && (forall p :: p in packages ==> p.header[..16] == magic)
    ensures ok <==>
              clean && exists tape ::
                Produced(a, packages, pass, stream, tape) && Unpacks(tape, used, untar, vault, digest)
    ensures ok ==> exists tape ::
                     && Produced(a, packages, pass, stream, tape) && Unpacks(tape, used, untar, vault, digest)
                     && restored == Contents(tape, used, untar, vault, digest)
  {
    restored := map[];
    if |stream| < HEADER || stream[..16] != magic {
      StartsWithMagic(a, packages, pass, magic, stream);
      return false, restored;
    }
    var d := new OpenReader(a, pass, stream[..HEADER], stream[HEADER..], clean);
    ghost var all := d.Remaining();
    Delivered(a, log, packages, pass, stream, clean, all.complete, all.plain);
    OneTape(a, log, packages, pass, stream);
    var whole, bytes := ReadExactly(d, used, sizes);
    if !whole { return false, restored; }
    assert all.plain[..used] == bytes && all.plain[used..] == d.Remaining().plain;
    var p := untar(bytes);
    if p.None? { return false, restored; }
    var files;
    files, restored := Restoring.Restore(p.value, vault, digest);
    if !files { return false, map[]; }
    ok := Drain(d);
  }

  /** A stream is one finished stream at most. */
  lemma OneTape(a: Aead, log: set<Sealing>, packages: set<Package>, pass: Bytes, stream: Bytes)
    requires Ideal(a, log) && FromWriters(a, log, packages) && |stream| >= HEADER
    ensures forall x, y :: Produced(a, packages, pass, stream, x) && Produced(a, packages, pass, stream, y) ==> x == y
  {
    forall x, y | Produced(a, packages, pass, stream, x) && Produced(a, packages, pass, stream, y) ensures x == y {
      assert stream == stream[..HEADER] + stream[HEADER..];
      OpensExactlyFinishedStreams(a, log, packages, pass, stream[..HEADER], stream[HEADER..], x);
      OpensExactlyFinishedStreams(a, log, packages, pass, stream[..HEADER], stream[HEADER..], y);
    }
  }

  // ---------- from the host to the sealed bytes and back ----------

  /** How archives are made and read: the size of a manifest, the names a header has room for,
      the archive's bytes and what they are read as. */
  datatype Format = Format(manifestSize: seq<Archive.File> -> nat, fits: string -> bool,
                           tar: Archive.Package -> Bytes, untar: Untar)

  /** Every archive has the length its blocks add up to. */
  ghost predicate Blocked(format: Format, digest: Bytes -> Bytes) {
    forall items {:trigger Archive.Listed(digest, items)} ::
      |format.tar(Archive.PackageOf(digest, items))| ==
      Archive.TarLength(format.manifestSize(Archive.Listed(digest, items)), items)
  }

  /** The files can be collected, described and copied, and the credentials open. */
  predicate Archivable(h: Archive.Host, useLocal: bool, vault: Credentials.Vault, digest: Bytes -> Bytes,
                       format: Format) {
    var items := Archive.ItemsOf(h, useLocal);
    && Archive.Collectable(h, useLocal)
    && Credentials.Fits(vault, Archive.Hashed(h.database), Archive.KeyChecked(h))
    && format.manifestSize(Archive.Listed(digest, items)) <= Archive.MAX_MANIFEST
    && Archive.AllStable(digest, items) && forall i :: 0 <= i < |items| ==> format.fits(items[i].name)
  }

  function TapeOf(h: Archive.Host, useLocal: bool, digest: Bytes -> Bytes, format: Format): Bytes {
    format.tar(Archive.PackageOf(digest, Archive.ItemsOf(h, useLocal)))
  }

  /** Makes a host's backup and seals it. With a sink that takes everything it succeeds exactly
      if the files can be archived; the limit of the stream is never met. */
  method BackUp(h: Archive.Host, useLocal: bool, vault: Credentials.Vault, digest: Bytes -> Bytes, format: Format,
                cuts: nat -> Cut, a: Aead, w: Sink, pass: Bytes, magic: Bytes, random: Bytes)
    returns (ok: bool)
    requires Archive.Walked(h.feeds) && Archive.Walked(h.local) && Blocked(format, digest)
    requires w.got == [] && |magic| == 16 && |random| == 36
    modifies w
    ensures ok ==> Archivable(h, useLocal, vault, digest, format)
    ensures ok ==> w.got == Stream(a, pass, magic + random, TapeOf(h, useLocal, digest, format))
    ensures w.Reliable() ==> (ok <==> Archivable(h, useLocal, vault, digest, format))
  {
    var tape;
    ok, tape := ArchiveTape(h, useLocal, vault, digest, format);
    if !ok { return; }
    var _, s := NewSealWriter(a, w, pass, magic, random);
    if s == null { return false; }
    ok := SealTape(s, tape, cuts);
  }

  method ArchiveTape(h: Archive.Host, useLocal: bool, vault: Credentials.Vault, digest: Bytes -> Bytes, format: Format)
    returns (ok: bool, tape: Bytes)
    requires Archive.Walked(h.feeds) && Archive.Walked(h.local) && Blocked(format, digest)
    ensures ok <==> Archivable(h, useLocal, vault, digest, format)
    ensures ok ==> tape == TapeOf(h, useLocal, digest, format) && |tape| <= MAX_ARCHIVE
  {
    var p;
    ok, p := Archive.Create(h, useLocal, vault, digest, format.manifestSize, format.fits);
    tape := if ok then format.tar(p) else [];
  }

  /** Reading the archive's first bytes gives back what was written, and zeros follow. */
  predicate ReadsBack(h: Archive.Host, useLocal: bool, digest: Bytes -> Bytes, format: Format, used: nat) {
    var tape := TapeOf(h, useLocal, digest, format);
    && used <= |tape| && AllZero(tape[used..])
    && format.untar(tape[..used]) == Some(Archive.PackageOf(digest, Archive.ItemsOf(h, useLocal)))
  }

  /** The writer of this backup's stream, when it has finished. */
  function Writer(pass: Bytes, header: Bytes, tape: Bytes): Package {
    Package(pass, header, tape, |Records(tape)|)
  }

  lemma TapeFits(h: Archive.Host, useLocal: bool, vault: Credentials.Vault, digest: Bytes -> Bytes, format: Format)
    requires Archive.Walked(h.feeds) && Archive.Walked(h.local) && Blocked(format, digest)
    requires Archivable(h, useLocal, vault, digest, format)
    ensures |TapeOf(h, useLocal, digest, format)| <= MAX_ARCHIVE
  {
    var items := Archive.ItemsOf(h, useLocal);
    Archive.CollectableIsProper(h, useLocal);
    Archive.ArchiveFits(format.manifestSize(Archive.Listed(digest, items)), items);
  }

  /** What BackUp leaves at the sink is the finished stream of one more writer, whatever else was
      sealed: opened under the passphrase it is this backup's archive and nothing else. */
  lemma SealedIsProduced(a: Aead, log: set<Sealing>, packages: set<Package>, pass: Bytes, header: Bytes, tape: Bytes)
    requires |header| == HEADER && |tape| <= MAX_ARCHIVE
    requires FromWriters(a, log, packages) && forall q :: q in packages ==> q.header != header
    requires Ideal(a, log + SealingsOf(a, Writer(pass, header, tape)))
    ensures FromWriters(a, log + SealingsOf(a, Writer(pass, header, tape)), packages + {Writer(pass, header, tape)})
    ensures forall t ::
              Produced(a, packages + {Writer(pass, header, tape)}, pass, Stream(a, pass, header, tape), t) <==>
                t == tape
  {
    var mine := Writer(pass, header, tape);
    var all, stream := packages + {mine}, Stream(a, pass, header, tape);
    OneMoreWriter(a, log, packages, mine);
    OneTape(a, log + SealingsOf(a, mine), all, pass, stream);
    assert mine in all && Genuine(mine) && Finished(mine);
    assert Produced(a, all, pass, stream, tape);
  }

  /** The archive of a completed backup unpacks, to the bytes that were hashed, exactly if no file
      outgrew its limit and the key that was hashed opens the credentials. */
  lemma TapeUnpacks(h: Archive.Host, useLocal: bool, vault: Credentials.Vault, digest: Bytes -> Bytes, format: Format,
                    used: nat)
    requires BackupRoundTrip.Completes(h, useLocal, digest) && ReadsBack(h, useLocal, digest, format, used)
    ensures var tape := TapeOf(h, useLocal, digest, format);
            && (Unpacks(tape, used, format.untar, vault, digest) <==> Restorable(h, useLocal, vault))
            && (Unpacks(tape, used, format.untar, vault, digest) ==>
                  BackupRoundTrip.Restored(Contents(tape, used, format.untar, vault, digest),
                                           Archive.ItemsOf(h, useLocal)))
  {
    BackupRoundTrip.CreatedRestores(h, useLocal, vault, digest);
    var p := Archive.PackageOf(digest, Archive.ItemsOf(h, useLocal));
    if Restoring.Restores(p, vault, digest) {
      BackupRoundTrip.AcceptedIsRestored(digest, Archive.ItemsOf(h, useLocal));
    }
  }

  ghost predicate Restorable(h: Archive.Host, useLocal: bool, vault: Credentials.Vault) {
    && BackupRoundTrip.NothingOutgrew(Archive.ItemsOf(h, useLocal))
    && Credentials.Fits(vault, Archive.Hashed(h.database), Archive.Hashed(h.secrets))
  }

  /** Backs a host up into a sink that takes everything, and restores what the sink got: that
      gives every file as it was hashed, exactly if no file outgrew its limit while the backup
      was made and the key that was hashed opens the credentials. */
  method BackUpAndRestore(h: Archive.Host, useLocal: bool, vault: Credentials.Vault, digest: Bytes -> Bytes,
                          format: Format, cuts: nat -> Cut, a: Aead, w: Sink, pass: Bytes, magic: Bytes, random: Bytes,
                          used: nat, sizes: nat -> nat, ghost log: set<Sealing>, ghost packages: set<Package>)
    returns (made: bool, ok: bool, restored: map<string, Bytes>)
    requires Archive.Walked(h.feeds) && Archive.Walked(h.local) && Blocked(format, digest)
    requires w.got == [] && w.Reliable() && |magic| == 16 && |random| == 36 && forall k :: sizes(k) > 0
    requires BackupRoundTrip.NoCollision(digest, Archive.ItemsOf(h, useLocal)) && forall x :: |digest(x)| == 32
    requires |TapeOf(h, useLocal, digest, format)| <= MAX_ARCHIVE ==>
               Ideal(a, log + SealingsOf(a, Writer(pass, magic + random, TapeOf(h, useLocal, digest, format))))
    requires FromWriters(a, log, packages)
    requires forall q :: q in packages ==> q.header[..16] == magic && q.header != magic + random
    requires Archivable(h, useLocal, vault, digest, format) ==> ReadsBack(h, useLocal, digest, format, used)
    modifies w
    ensures made <==> Archivable(h, useLocal, vault, digest, format)
    ensures ok <==> made && Restorable(h, useLocal, vault)
    ensures ok ==> BackupRoundTrip.Restored(restored, Archive.ItemsOf(h, useLocal))
    ensures ok ==> BackupRoundTrip.HostRestored(restored, h, useLocal)
  {
    ok, restored := false, map[];
    made := BackUp(h, useLocal, vault, digest, format, cuts, a, w, pass, magic, random);
    if !made { return; }
    ghost var tape := TapeOf(h, useLocal, digest, format);
    ghost var mine := Writer(pass, magic + random, tape);
    TapeFits(h, useLocal, vault, digest, format);
    SealedIsProduced(a, log, packages, pass, magic + random, tape);
    TapeUnpacks(h, useLocal, vault, digest, format, used);
    ok, restored := RestoreStream(a, pass, magic, w.got, true, used, format.untar, vault, digest, sizes,
                                  log + SealingsOf(a, mine), packages + {mine});
    if ok { BackupRoundTrip.RestoredIsTheHost(restored, h, useLocal); }
  }
}
