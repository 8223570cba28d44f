/** The encrypted record stream: its layout, and what opening it can give. */
module SealStream {
  import opened Octets

  const CHUNK: nat := 0x10_0000
  const TAG: nat := 16
  const HEADER: nat := 52
  const MAX_ARCHIVE: nat := 0x4000_0000

  // ---------- the ideal cipher ----------

  /** The key of a stream: its passphrase and salt. */
  datatype Key = Key(pass: Bytes, salt: Bytes)

  datatype Sealing = Sealing(key: Key, nonce: Bytes, aad: Bytes, plain: Bytes, cipher: Bytes)

  datatype Aead = Aead(
    seal: (Key, Bytes, Bytes, Bytes) -> Bytes,
    open: (Key, Bytes, Bytes, Bytes) -> Opened)

  datatype Opened = Refused | Plain(plain: Bytes)

  /** Nothing opens except what was sealed, and that gives back what was sealed. */
  ghost predicate Ideal(a: Aead, log: set<Sealing>) {
    && (forall k, n, p, x {:trigger a.seal(k, n, p, x)} :: |a.seal(k, n, p, x)| == |p| + TAG)
    && (forall s :: s in log ==>
          && s.cipher == a.seal(s.key, s.nonce, s.plain, s.aad)
          && a.open(s.key, s.nonce, s.cipher, s.aad) == Plain(s.plain))
    && (forall k, n, c, x {:trigger a.open(k, n, c, x)} ::
          a.open(k, n, c, x).Plain? ==> Sealing(k, n, x, a.open(k, n, c, x).plain, c) in log)
  }

  // ---------- layout ----------

  function KeyOf(pass: Bytes, header: Bytes): Key
    requires |header| == HEADER
  {
    Key(pass, header[16..48])
  }

  function Nonce(header: Bytes, index: nat): Bytes
    requires |header| == HEADER
  {
    header[48..] + BigEndian(index, 8)
  }

  function RecordAad(header: Bytes, index: nat, size: nat): Bytes {
    header + BigEndian(index, 8) + BigEndian(size, 4)
  }

  function SealingOf(a: Aead, pass: Bytes, header: Bytes, index: nat, plain: Bytes): Sealing
    requires |header| == HEADER
  {
    var aad := RecordAad(header, index, |plain| + TAG);
    Sealing(KeyOf(pass, header), Nonce(header, index), aad, plain,
            a.seal(KeyOf(pass, header), Nonce(header, index), plain, aad))
  }

  function Encoded(a: Aead, pass: Bytes, header: Bytes, index: nat, plain: Bytes): Bytes
    requires |header| == HEADER
  {
    BigEndian(|plain| + TAG, 4) + SealingOf(a, pass, header, index, plain).cipher
  }

  /** The records from position index on, one after another. */
  function Body(a: Aead, pass: Bytes, header: Bytes, index: nat, records: seq<Bytes>): Bytes
    requires |header| == HEADER
    decreases |records|
  {
    if records == [] then []
    else Encoded(a, pass, header, index, records[0]) + Body(a, pass, header, index + 1, records[1..])
  }

  /** The plaintext cut into full chunks and a shorter last one. */
  function Chunks(data: Bytes): (chunks: seq<Bytes>)
    decreases |data|
  {
    if data == [] then [] else if |data| <= CHUNK then [data] else [data[..CHUNK]] + Chunks(data[CHUNK..])
  }

  function Concat(parts: seq<Bytes>): Bytes {
    if parts == [] then [] else parts[0] + Concat(parts[1..])
  }

  lemma {:induction false} ChunksOf(data: Bytes)
    ensures Concat(Chunks(data)) == data && |Chunks(data)| <= |data| / CHUNK + 1
    ensures forall i :: 0 <= i < |Chunks(data)| ==> 0 < |Chunks(data)[i]| <= CHUNK
    decreases |data|
  {
    if |data| > CHUNK {
      ChunksOf(data[CHUNK..]);
      assert Chunks(data) == [data[..CHUNK]] + Chunks(data[CHUNK..]);
      assert Chunks(data)[1..] == Chunks(data[CHUNK..]);
    } else if data != [] {
      assert Chunks(data) == [data] && [data][1..] == [];
    }
  }

  /** What a finished stream holds: the chunks and one empty record. */
  function Records(data: Bytes): seq<Bytes> {
    Chunks(data) + [[]]
  }

  function Stream(a: Aead, pass: Bytes, header: Bytes, data: Bytes): Bytes
    requires |header| == HEADER
  {
    header + Body(a, pass, header, 0, Records(data))
  }

  lemma ChunkFirst(c: Bytes, more: Bytes)
    requires |c| == CHUNK
    ensures Chunks(c + more) == [c] + Chunks(more)
  {
    var data := c + more;
    if more == [] {
      assert data == c;
    } else {
      assert data[..CHUNK] == c && data[CHUNK..] == more;
    }
  }

  /** However the bytes arrived, full chunks and a shorter rest are the layout of their concatenation. */
  lemma {:induction false} LayoutOf(done: seq<Bytes>, rest: Bytes)
    requires (forall i :: 0 <= i < |done| ==> |done[i]| == CHUNK) && |rest| < CHUNK
    ensures Chunks(Concat(done) + rest) == done + if rest == [] then [] else [rest]
  {
    if done == [] {
      assert Concat(done) + rest == rest;
    } else {
      var tail := Concat(done[1..]) + rest;
      assert Concat(done) + rest == done[0] + tail;
      ChunkFirst(done[0], tail);
      LayoutOf(done[1..], rest);
    }
  }

  /** Every record fits its length field, only the last is empty, and there are at most 1026. */
  lemma RecordsOf(data: Bytes)
    requires |data| <= MAX_ARCHIVE
    ensures Concat(Records(data)) == data && 0 < |Records(data)| <= 1026
    ensures forall i :: 0 <= i < |Records(data)| ==>
              |Records(data)[i]| <= CHUNK && (Records(data)[i] == [] <==> i == |Records(data)| - 1)
  {
    ChunksOf(data);
    ConcatAppend(Chunks(data), []);
  }

  lemma {:induction false} ConcatAppend(parts: seq<Bytes>, last: Bytes)
    ensures Concat(parts + [last]) == Concat(parts) + last
  {
    if parts == [] {
      assert [] + [last] == [last] && [last][1..] == [];
    } else {
      assert (parts + [last])[1..] == parts[1..] + [last];
      ConcatAppend(parts[1..], last);
    }
  }

  // ---------- numbers never repeat ----------

  lemma NoncesDiffer(header: Bytes, i: nat, j: nat)
    requires |header| == HEADER && i < 0x1_0000_0000_0000_0000 && j < 0x1_0000_0000_0000_0000 && i != j
    ensures Nonce(header, i) != Nonce(header, j)
  {
    Powers();
    assert Nonce(header, i)[4..] == BigEndian(i, 8) && Nonce(header, j)[4..] == BigEndian(j, 8);
    if Nonce(header, i) == Nonce(header, j) { SameNumber(i, j, 8); }
  }

  /** Across writers, whatever their magics: two records are sealed under one key and nonce only if the writers
      drew the same salt and nonce prefix, under one passphrase, and the records have the same number. */
  lemma KeyAndNonceDetermine(p: Bytes, h: Bytes, i: nat, q: Bytes, g: Bytes, j: nat)
    requires |h| == HEADER && |g| == HEADER && i < 0x1_0000_0000_0000_0000 && j < 0x1_0000_0000_0000_0000
    ensures KeyOf(p, h) == KeyOf(q, g) && Nonce(h, i) == Nonce(g, j) <==> p == q && h[16..] == g[16..] && i == j
  {
    Powers();
    assert h[16..] == h[16..48] + h[48..] && g[16..] == g[16..48] + g[48..];
    if KeyOf(p, h) == KeyOf(q, g) && Nonce(h, i) == Nonce(g, j) {
      assert h[48..] == Nonce(h, i)[..4] == Nonce(g, j)[..4] == g[48..];
      assert BigEndian(i, 8) == Nonce(h, i)[4..] == Nonce(g, j)[4..] == BigEndian(j, 8);
      SameNumber(i, j, 8);
    }
    if h[16..] == g[16..] {
      assert h[16..48] == h[16..][..32] == g[16..][..32] == g[16..48];
      assert h[48..] == h[16..][32..] == g[16..][32..] == g[48..];
    }
  }

  lemma AadDetermines(h: Bytes, i: nat, m: nat, g: Bytes, j: nat, n: nat)
    requires |h| == HEADER && |g| == HEADER && RecordAad(h, i, m) == RecordAad(g, j, n)
    requires i < 0x1_0000_0000_0000_0000 && j < 0x1_0000_0000_0000_0000 && m < 0x1_0000_0000 && n < 0x1_0000_0000
    ensures h == g && i == j && m == n
  {
    Powers();
    var x, y := RecordAad(h, i, m), RecordAad(g, j, n);
    assert x[..HEADER] == h && y[..HEADER] == g;
    assert x[HEADER..HEADER + 8] == BigEndian(i, 8) && y[HEADER..HEADER + 8] == BigEndian(j, 8);
    assert x[HEADER + 8..] == BigEndian(m, 4) && y[HEADER + 8..] == BigEndian(n, 4);
    SameNumber(i, j, 8);
    SameNumber(m, n, 4);
  }

  // ---------- what a reader makes of bytes ----------

  /** The plaintext a reader delivers, and whether it reaches the end without an error. */
  datatype Unsealed = Unsealed(plain: Bytes, complete: bool)

  datatype Parsed = Bad | Good(plain: Bytes, rest: Bytes)

  /** The next record: a length, then that many bytes, which must open. */
  function NextRecord(a: Aead, pass: Bytes, header: Bytes, index: nat, input: Bytes): (p: Parsed)
    requires |header| == HEADER
    ensures p.Good? ==> |p.rest| < |input|
  {
    if |input| < 4 then Bad
    else
      var size := FromBigEndian(input[..4]);
      if size < TAG || size > CHUNK + TAG || |input| < 4 + size then Bad
      else
        var answer := a.open(KeyOf(pass, header), Nonce(header, index), input[4..4 + size],
                             RecordAad(header, index, size));
        if answer.Refused? then Bad else Good(answer.plain, input[4 + size..])
  }

  function Unseal(a: Aead, pass: Bytes, header: Bytes, index: nat, total: nat, input: Bytes): Unsealed
    requires |header| == HEADER
    decreases |input|
  {
    var p := NextRecord(a, pass, header, index, input);
    if p.Bad? then Unsealed([], false)
    else if p.plain == [] then Unsealed([], p.rest == [])
    else if total + |p.plain| > MAX_ARCHIVE then Unsealed([], false)
    else
      var more := Unseal(a, pass, header, index + 1, total + |p.plain|, p.rest);
      Unsealed(p.plain + more.plain, more.complete)
  }

  // ---------- what writers produced ----------

  /** One writer's stream: the records it has sealed so far, out of those of its data. */
  datatype Package = Package(pass: Bytes, header: Bytes, data: Bytes, sealed: nat)

  ghost predicate Genuine(p: Package) {
    |p.header| == HEADER && |p.data| <= MAX_ARCHIVE && p.sealed <= |Records(p.data)|
  }

  ghost predicate Finished(p: Package) {
    p.sealed == |Records(p.data)|
  }

  /** Every sealing under the log is some writer's, and no two writers drew the same header. */
  ghost predicate FromWriters(a: Aead, log: set<Sealing>, packages: set<Package>) {
    && (forall p :: p in packages ==> Genuine(p))
    && (forall p, q :: p in packages && q in packages && p.header == q.header ==> p == q)
    && (forall p, i {:trigger Logged(a, log, p, i)} :: p in packages && 0 <= i < p.sealed ==> Logged(a, log, p, i))
    && (forall s {:trigger Claimed(a, packages, s)} :: s in log ==> Claimed(a, packages, s))
  }

  ghost predicate Logged(a: Aead, log: set<Sealing>, p: Package, i: nat)
    requires |p.header| == HEADER && i < |Records(p.data)|
  {
    SealingOf(a, p.pass, p.header, i, Records(p.data)[i]) in log
  }

  ghost predicate Claimed(a: Aead, packages: set<Package>, s: Sealing) {
    exists p, i :: p in packages && Genuine(p) && 0 <= i < p.sealed &&
      s == SealingOf(a, p.pass, p.header, i, Records(p.data)[i])
  }

  /** What a writer has sealed. */
  ghost function SealingsOf(a: Aead, p: Package): set<Sealing>
    requires Genuine(p)
  {
    set i | 0 <= i < p.sealed :: SealingOf(a, p.pass, p.header, i, Records(p.data)[i])
  }

  lemma ClaimedByMore(a: Aead, packages: set<Package>, p: Package, s: Sealing)
    requires Claimed(a, packages, s)
    ensures Claimed(a, packages + {p}, s)
  {
    var q, i :| q in packages && Genuine(q) && 0 <= i < q.sealed &&
                s == SealingOf(a, q.pass, q.header, i, Records(q.data)[i]);
    assert q in packages + {p};
  }

  lemma ClaimedByIts(a: Aead, packages: set<Package>, p: Package, s: Sealing)
    requires Genuine(p) && s in SealingsOf(a, p)
    ensures Claimed(a, packages + {p}, s)
  {
    var i :| 0 <= i < p.sealed && s == SealingOf(a, p.pass, p.header, i, Records(p.data)[i]);
    assert p in packages + {p};
  }

  /** One more writer, under a header nobody drew before. */
  lemma OneMoreWriter(a: Aead, log: set<Sealing>, packages: set<Package>, p: Package)
    requires FromWriters(a, log, packages) && Genuine(p) && forall q :: q in packages ==> q.header != p.header
    ensures FromWriters(a, log + SealingsOf(a, p), packages + {p})
  {
    var all, more := log + SealingsOf(a, p), packages + {p};
    forall q, i | q in more && 0 <= i < q.sealed ensures Logged(a, all, q, i) {
      if q in packages { assert Logged(a, log, q, i); }
    }
    forall s | s in all ensures Claimed(a, more, s) {
      if s in log {
        ClaimedByMore(a, packages, p, s);
      } else {
        ClaimedByIts(a, packages, p, s);
      }
    }
  }

  // ---------- authenticity ----------

  /** If a record opens at this position, it is the one the writer sealed there. */
  ghost predicate GenuineNext(a: Aead, p: Package, index: nat, input: Bytes)
    requires Genuine(p)
  {
    var next := NextRecord(a, p.pass, p.header, index, input);
    next.Good? ==>
      && index < p.sealed && next.plain == Records(p.data)[index]
      && input == Encoded(a, p.pass, p.header, index, next.plain) + next.rest
  }

  /** So it is at this position, and at every one the reader gets to from here. */
  ghost predicate Trusted(a: Aead, p: Package, index: nat, input: Bytes)
    requires Genuine(p)
    decreases |input|
  {
    var next := NextRecord(a, p.pass, p.header, index, input);
    GenuineNext(a, p, index, input) && (next.Good? && next.plain != [] ==> Trusted(a, p, index + 1, next.rest))
  }

  /** The sealing that opened at this position. */
  function SealingAt(a: Aead, pass: Bytes, header: Bytes, index: nat, input: Bytes): Sealing
    requires |header| == HEADER && NextRecord(a, pass, header, index, input).Good?
  {
    var size := FromBigEndian(input[..4]);
    var key, nonce, aad := KeyOf(pass, header), Nonce(header, index), RecordAad(header, index, size);
    var cipher := input[4..4 + size];
    Sealing(key, nonce, aad, a.open(key, nonce, cipher, aad).plain, cipher)
  }

  lemma OpenedWasSealed(a: Aead, log: set<Sealing>, packages: set<Package>, pass: Bytes, header: Bytes, index: nat,
                        input: Bytes)
    requires Ideal(a, log) && FromWriters(a, log, packages) && |header| == HEADER
    requires NextRecord(a, pass, header, index, input).Good?
    ensures Claimed(a, packages, SealingAt(a, pass, header, index, input))
  {
    assert SealingAt(a, pass, header, index, input) in log;
  }

  /** A sealing tells its writer's header and passphrase and its position. */
  lemma SameRecord(a: Aead, pass: Bytes, header: Bytes, index: nat, input: Bytes, p: Package, i: nat)
    requires |header| == HEADER && index <= 1026 && NextRecord(a, pass, header, index, input).Good?
    requires Genuine(p) && i < p.sealed
    requires SealingAt(a, pass, header, index, input) == SealingOf(a, p.pass, p.header, i, Records(p.data)[i])
    ensures p.pass == pass && p.header == header && GenuineNext(a, p, index, input)
  {
    var size := FromBigEndian(input[..4]);
    RecordsOf(p.data);
    AadDetermines(header, index, size, p.header, i, |Records(p.data)[i]| + TAG);
    RecordParts(a, pass, header, index, input);
  }

  /** A record that reads is its length, its cipher text and what follows. */
  lemma RecordParts(a: Aead, pass: Bytes, header: Bytes, index: nat, input: Bytes)
    requires |header| == HEADER && NextRecord(a, pass, header, index, input).Good?
    ensures input == BigEndian(FromBigEndian(input[..4]), 4) + SealingAt(a, pass, header, index, input).cipher +
                     NextRecord(a, pass, header, index, input).rest
  {
    var size := FromBigEndian(input[..4]);
    DecodeEncode(input[..4]);
    assert input == input[..4] + input[4..4 + size] + input[4 + size..];
  }

  lemma Opens(a: Aead, log: set<Sealing>, packages: set<Package>, pass: Bytes, header: Bytes, index: nat, input: Bytes)
    returns (p: Package)
    requires Ideal(a, log) && FromWriters(a, log, packages) && |header| == HEADER && index <= 1026
    requires NextRecord(a, pass, header, index, input).Good?
    ensures p in packages && p.pass == pass && p.header == header && GenuineNext(a, p, index, input)
  {
    OpenedWasSealed(a, log, packages, pass, header, index, input);
    var s := SealingAt(a, pass, header, index, input);
    var q, i :|
      q in packages && Genuine(q) && 0 <= i < q.sealed && s == SealingOf(a, q.pass, q.header, i, Records(q.data)[i]);
    p := q;
    SameRecord(a, pass, header, index, input, p, i);
  }

  lemma WriterIsTrusted(a: Aead, log: set<Sealing>, packages: set<Package>, p: Package, index: nat, input: Bytes)
    requires Ideal(a, log) && FromWriters(a, log, packages) && p in packages && index <= 1026
    ensures Genuine(p) && GenuineNext(a, p, index, input)
    ensures NextRecord(a, p.pass, p.header, index, input).Good? ==> index < 1026
  {
    RecordsOf(p.data);
    if NextRecord(a, p.pass, p.header, index, input).Good? {
      var q := Opens(a, log, packages, p.pass, p.header, index, input);
      assert q == p;
    }
  }

  lemma {:induction false} WritersAreTrusted(a: Aead, log: set<Sealing>, packages: set<Package>, p: Package, index: nat,
                                             input: Bytes)
    requires Ideal(a, log) && FromWriters(a, log, packages) && p in packages && index <= 1026
    ensures Genuine(p) && Trusted(a, p, index, input)
    decreases |input|
  {
    WriterIsTrusted(a, log, packages, p, index, input);
    var next := NextRecord(a, p.pass, p.header, index, input);
    if next.Good? { WritersAreTrusted(a, log, packages, p, index + 1, next.rest); }
  }

  /** What is left to deliver from position index on. */
  function From(p: Package, index: nat): Bytes
    requires index <= |Records(p.data)|
  {
    Concat(Records(p.data)[index..])
  }

  function BodyFrom(a: Aead, p: Package, index: nat): Bytes
    requires |p.header| == HEADER && index <= |Records(p.data)|
  {
    Body(a, p.pass, p.header, index, Records(p.data)[index..])
  }

  lemma Tail(a: Aead, p: Package, index: nat)
    requires |p.header| == HEADER && index < |Records(p.data)|
    ensures From(p, index) == Records(p.data)[index] + From(p, index + 1)
    ensures BodyFrom(a, p, index) ==
            Encoded(a, p.pass, p.header, index, Records(p.data)[index]) + BodyFrom(a, p, index + 1)
  {
  }

  lemma End(a: Aead, p: Package)
    requires |p.header| == HEADER
    ensures From(p, |Records(p.data)|) == [] && BodyFrom(a, p, |Records(p.data)|) == []
    ensures From(p, 0) == Concat(Records(p.data)) && BodyFrom(a, p, 0) == Body(a, p.pass, p.header, 0, Records(p.data))
  {
  }

  /** What a reader does at a position: it stops, finds the empty record, or delivers and goes on. */
  datatype Turn = Stops | Ends(rest: Bytes) | Goes(plain: Bytes, index: nat, total: nat, rest: Bytes)

  function TurnAt(a: Aead, p: Package, index: nat, total: nat, input: Bytes): Turn
    requires |p.header| == HEADER
  {
    var next := NextRecord(a, p.pass, p.header, index, input);
    if next.Bad? then Stops
    else if next.plain == [] then Ends(next.rest)
    else if total + |next.plain| > MAX_ARCHIVE then Stops
    else Goes(next.plain, index + 1, total + |next.plain|, next.rest)
  }

  function AfterTurn(a: Aead, p: Package, turn: Turn): Unsealed
    requires |p.header| == HEADER
  {
    match turn
    case Stops => Unsealed([], false)
    case Ends(rest) => Unsealed([], rest == [])
    case Goes(plain, index, total, rest) =>
      var more := Unseal(a, p.pass, p.header, index, total, rest);
      Unsealed(plain + more.plain, more.complete)
  }

  /** What one turn adds to what is delivered. */
  lemma UnsealTurn(a: Aead, p: Package, index: nat, total: nat, input: Bytes)
    requires |p.header| == HEADER
    ensures Unseal(a, p.pass, p.header, index, total, input) ==
            AfterTurn(a, p, TurnAt(a, p, index, total, input))
  {
  }

  /** r is a beginning of what is left, and all of it if complete. */
  ghost predicate Honest(a: Aead, p: Package, index: nat, input: Bytes, r: Unsealed)
    requires |p.header| == HEADER && index <= |Records(p.data)|
  {
    r.plain <= From(p, index) &&
      (r.complete ==> Finished(p) && r.plain == From(p, index) && input == BodyFrom(a, p, index))
  }

  lemma HonestStep(a: Aead, p: Package, index: nat, input: Bytes, plain: Bytes, rest: Bytes, more: Unsealed)
    requires |p.header| == HEADER && index < |Records(p.data)| && plain == Records(p.data)[index]
    requires input == Encoded(a, p.pass, p.header, index, plain) + rest && Honest(a, p, index + 1, rest, more)
    ensures Honest(a, p, index, input, Unsealed(plain + more.plain, more.complete))
  {
  }

  /** The empty record is the last one, and nothing is left behind it. */
  lemma HonestEnd(a: Aead, p: Package, index: nat, input: Bytes, rest: Bytes)
    requires Genuine(p) && index < p.sealed && Records(p.data)[index] == []
    requires input == Encoded(a, p.pass, p.header, index, []) + rest
    ensures Honest(a, p, index, input, Unsealed([], rest == []))
  {
    RecordsOf(p.data);
    Tail(a, p, index);
    End(a, p);
  }

  /** What a reader makes of the input from this position on is honest. */
  ghost predicate HonestFrom(a: Aead, p: Package, index: nat, total: nat, input: Bytes)
    requires |p.header| == HEADER && index <= |Records(p.data)|
  {
    Honest(a, p, index, input, Unseal(a, p.pass, p.header, index, total, input))
  }

  lemma HonestNothing(a: Aead, p: Package, index: nat, input: Bytes)
    requires |p.header| == HEADER && index <= |Records(p.data)|
    ensures Honest(a, p, index, input, Unsealed([], false))
  {
  }

  /** The record a turn found is the writer's own. */
  ghost predicate GenuineTurn(a: Aead, p: Package, index: nat, input: Bytes, turn: Turn)
    requires Genuine(p)
  {
    match turn
    case Stops => true
    case Ends(rest) =>
      && index < p.sealed && Records(p.data)[index] == []
      && input == Encoded(a, p.pass, p.header, index, []) + rest
    case Goes(plain, next, total, rest) =>
      && next == index + 1 <= p.sealed && Records(p.data)[index] == plain && |rest| < |input|
      && input == Encoded(a, p.pass, p.header, index, plain) + rest && Trusted(a, p, next, rest)
  }

  lemma TrustedTurn(a: Aead, p: Package, index: nat, total: nat, input: Bytes)
    requires Genuine(p) && Trusted(a, p, index, input)
    ensures GenuineTurn(a, p, index, input, TurnAt(a, p, index, total, input))
  {
  }

  lemma HonestAfter(a: Aead, p: Package, index: nat, input: Bytes, turn: Turn)
    requires Genuine(p) && index <= |Records(p.data)| && GenuineTurn(a, p, index, input, turn)
    requires turn.Goes? ==> HonestFrom(a, p, turn.index, turn.total, turn.rest)
    ensures Honest(a, p, index, input, AfterTurn(a, p, turn))
  {
    match turn {
      case Stops => HonestNothing(a, p, index, input);
      case Ends(rest) => HonestEnd(a, p, index, input, rest);
      case Goes(plain, next, total, rest) =>
        HonestStep(a, p, index, input, plain, rest, Unseal(a, p.pass, p.header, next, total, rest));
    }
  }

  /** Whatever arrives, what is delivered is a prefix of what the writer was given; and
      reaching the end means the input was the rest of the finished stream. */
  lemma {:induction false} AuthenticFrom(a: Aead, p: Package, index: nat, total: nat, input: Bytes)
    requires Genuine(p) && Trusted(a, p, index, input) && index <= |Records(p.data)|
    ensures HonestFrom(a, p, index, total, input)
    decreases |input|
  {
    TrustedTurn(a, p, index, total, input);
    var turn := TurnAt(a, p, index, total, input);
    if turn.Goes? { AuthenticFrom(a, p, turn.index, turn.total, turn.rest); }
    UnsealTurn(a, p, index, total, input);
    HonestAfter(a, p, index, input, turn);
  }

  /** A header and passphrase no writer used deliver nothing. */
  lemma NothingForeign(a: Aead, log: set<Sealing>, packages: set<Package>, pass: Bytes, header: Bytes, input: Bytes)
    requires Ideal(a, log) && FromWriters(a, log, packages) && |header| == HEADER
    requires forall p :: p in packages ==> p.pass != pass || p.header != header
    ensures Unseal(a, pass, header, 0, 0, input) == Unsealed([], false)
  {
    if NextRecord(a, pass, header, 0, input).Good? {
      var p := Opens(a, log, packages, pass, header, 0, input);
    }
  }

  /** A sealed record reads back, whatever follows it. */
  ghost predicate NextIs(a: Aead, p: Package, index: nat, more: Bytes)
    requires Genuine(p) && index < p.sealed
  {
    NextRecord(a, p.pass, p.header, index, Encoded(a, p.pass, p.header, index, Records(p.data)[index]) + more) ==
      Good(Records(p.data)[index], more)
  }

  ghost predicate Readable(a: Aead, p: Package) {
    Genuine(p) && forall index, more {:trigger NextIs(a, p, index, more)} ::
      0 <= index < p.sealed ==> NextIs(a, p, index, more)
  }

  lemma WritersAreReadable(a: Aead, log: set<Sealing>, packages: set<Package>, p: Package)
    requires Ideal(a, log) && FromWriters(a, log, packages) && p in packages
    ensures Readable(a, p)
  {
    forall index, more | 0 <= index < p.sealed ensures NextIs(a, p, index, more) {
      ReadsBack(a, log, packages, p, index, more);
    }
  }

  lemma ReadsBack(a: Aead, log: set<Sealing>, packages: set<Package>, p: Package, index: nat, more: Bytes)
    requires Ideal(a, log) && FromWriters(a, log, packages) && p in packages && index < p.sealed
    ensures NextIs(a, p, index, more)
  {
    var plain := Records(p.data)[index];
    var input := Encoded(a, p.pass, p.header, index, plain) + more;
    assert Logged(a, log, p, index);
    RecordsOf(p.data);
    Powers();
    EncodeDecode(|plain| + TAG, 4);
    assert input[..4] == BigEndian(|plain| + TAG, 4);
    assert input[4..4 + |plain| + TAG] == SealingOf(a, p.pass, p.header, index, plain).cipher;
    assert input[4 + |plain| + TAG..] == more;
  }

  /** What the reader does with a record that reads back. */
  lemma RoundTripTurn(a: Aead, p: Package, index: nat, total: nat)
    requires Genuine(p) && index < p.sealed && index < |Records(p.data)|
    requires NextIs(a, p, index, BodyFrom(a, p, index + 1))
    ensures var plain, rest := Records(p.data)[index], BodyFrom(a, p, index + 1);
            TurnAt(a, p, index, total, BodyFrom(a, p, index)) ==
            if plain == [] then Ends(rest)
            else if total + |plain| > MAX_ARCHIVE then Stops
            else Goes(plain, index + 1, total + |plain|, rest)
  {
    Tail(a, p, index);
  }

  /** The rest of the finished stream reads back whole. */
  ghost predicate ReadsOn(a: Aead, p: Package, index: nat, total: nat)
    requires |p.header| == HEADER && index <= |Records(p.data)|
  {
    Unseal(a, p.pass, p.header, index, total, BodyFrom(a, p, index)) == Unsealed(From(p, index), true)
  }

  lemma RoundTripMore(a: Aead, p: Package, index: nat, total: nat)
    requires Genuine(p) && Finished(p) && index < |Records(p.data)| && total + |From(p, index)| <= MAX_ARCHIVE
    requires NextIs(a, p, index, BodyFrom(a, p, index + 1))
    requires index + 1 < |Records(p.data)| ==> ReadsOn(a, p, index + 1, total + |Records(p.data)[index]|)
    ensures ReadsOn(a, p, index, total)
  {
    RecordsOf(p.data);
    Tail(a, p, index);
    RoundTripTurn(a, p, index, total);
    UnsealTurn(a, p, index, total, BodyFrom(a, p, index));
    if index + 1 == |Records(p.data)| { End(a, p); }
  }

  lemma {:induction false} RoundTripFrom(a: Aead, p: Package, index: nat, total: nat)
    requires Readable(a, p) && Finished(p) && index < |Records(p.data)| && total + |From(p, index)| <= MAX_ARCHIVE
    ensures ReadsOn(a, p, index, total)
    decreases |Records(p.data)| - index
  {
    Tail(a, p, index);
    assert NextIs(a, p, index, BodyFrom(a, p, index + 1));
    if index + 1 < |Records(p.data)| { RoundTripFrom(a, p, index + 1, total + |Records(p.data)[index]|); }
    RoundTripMore(a, p, index, total);
  }

  lemma StreamParts(a: Aead, p: Package)
    requires |p.header| == HEADER && |p.data| <= MAX_ARCHIVE
    ensures Stream(a, p.pass, p.header, p.data) == p.header + BodyFrom(a, p, 0) && From(p, 0) == p.data
  {
    End(a, p);
    RecordsOf(p.data);
  }

  /** Sealing and opening give the plaintext back. */
  lemma RoundTrip(a: Aead, log: set<Sealing>, packages: set<Package>, p: Package)
    requires Ideal(a, log) && FromWriters(a, log, packages) && p in packages && Finished(p)
    ensures Unseal(a, p.pass, p.header, 0, 0, Stream(a, p.pass, p.header, p.data)[HEADER..]) == Unsealed(p.data, true)
  {
    StreamParts(a, p);
    RecordsOf(p.data);
    WritersAreReadable(a, log, packages, p);
    RoundTripFrom(a, p, 0, 0);
  }

  ghost predicate Produced(a: Aead, packages: set<Package>, pass: Bytes, stream: Bytes, data: Bytes) {
    exists p :: p in packages && Genuine(p) && Finished(p) && p.pass == pass && p.data == data &&
      stream == Stream(a, p.pass, p.header, p.data)
  }

  /** The reader reaches the end exactly on a finished stream of one writer under the
      same passphrase, and then has delivered that writer's bytes. Truncation, reordering,
      duplication, splicing and extension all give other bytes, and so fail. */
  lemma OpensExactlyFinishedStreams(a: Aead, log: set<Sealing>, packages: set<Package>, pass: Bytes, header: Bytes,
                                    input: Bytes, data: Bytes)
    requires Ideal(a, log) && FromWriters(a, log, packages) && |header| == HEADER
    ensures Unseal(a, pass, header, 0, 0, input) == Unsealed(data, true) <==>
              Produced(a, packages, pass, header + input, data)
  {
    if Unseal(a, pass, header, 0, 0, input).complete {
      var p := Opens(a, log, packages, pass, header, 0, input);
      WritersAreTrusted(a, log, packages, p, 0, input);
      AuthenticFrom(a, p, 0, 0, input);
      StreamParts(a, p);
    }
    if Produced(a, packages, pass, header + input, data) {
      var p :| p in packages && Genuine(p) && Finished(p) && p.pass == pass && p.data == data &&
               header + input == Stream(a, p.pass, p.header, p.data);
      assert (header + input)[..HEADER] == header && (header + input)[HEADER..] == input;
      assert Stream(a, p.pass, p.header, p.data)[..HEADER] == p.header;
      RoundTrip(a, log, packages, p);
    }
  }

  /** Whatever bytes follow the header, nothing but a prefix of its writer's data is delivered. */
  lemma DeliversOnlyAPrefix(a: Aead, log: set<Sealing>, packages: set<Package>, p: Package, input: Bytes)
    requires Ideal(a, log) && FromWriters(a, log, packages) && p in packages
    ensures Unseal(a, p.pass, p.header, 0, 0, input).plain <= p.data
  {
    WritersAreTrusted(a, log, packages, p, 0, input);
    AuthenticFrom(a, p, 0, 0, input);
    StreamParts(a, p);
  }
}
