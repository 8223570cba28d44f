/** Writing the encrypted record stream. */
module SealWriting {
  import opened Octets
  import opened SealStream

  datatype Outcome = Ok | TooLarge | SinkFailed

  /** How a sink answers one call: it takes at most this many bytes, and may fail. */
  datatype Answer = Answer(takes: nat, fails: bool)

  class Sink {
    const answers: nat -> Answer
    var calls: nat
    var got: Bytes

    /** A sink that takes something on every call. */
    ghost predicate Reliable() {
      forall k :: answers(k).takes > 0 && !answers(k).fails
    }

    constructor (answers: nat -> Answer)
      ensures got == [] && this.answers == answers
    {
      this.answers, calls, got := answers, 0, [];
    }

    method Write(p: Bytes) returns (n: nat, failed: bool)
      modifies this
      ensures n <= |p| && got == old(got) + p[..n]
      ensures Reliable() && p != [] ==> n > 0 && !failed
    {
      var answer := answers(calls);
      calls := calls + 1;
      n, failed := if answer.takes < |p| then answer.takes else |p|, answer.fails;
      got := got + p[..n];
    }
  }

  /** Some of p reached the sink, all of it on success. */
  method WriteAll(w: Sink, p: Bytes) returns (result: Outcome)
    modifies w
    ensures result.Ok? ==> w.got == old(w.got) + p
    ensures result.SinkFailed? ==> old(w.got) <= w.got <= old(w.got) + p
    ensures !result.TooLarge? && (w.Reliable() ==> result.Ok?)
  {
    var rest := p;
    while rest != []
      invariant old(w.got) <= w.got && w.got + rest == old(w.got) + p
    {
      var n, failed := w.Write(rest);
      ghost var whole := rest;
      rest := rest[n..];
      assert whole == whole[..n] + rest;
      assert w.got <= w.got + rest;
      if failed || n == 0 { return SinkFailed; }
    }
    result := Ok;
  }

  // ---------- layout lemmas for a growing stream ----------

  predicate Full(done: seq<Bytes>) {
    forall i :: 0 <= i < |done| ==> |done[i]| == CHUNK
  }

  /** data is full chunks and then the rest. */
  ghost predicate Cut(data: Bytes, done: seq<Bytes>, rest: Bytes) {
    Full(done) && data == Concat(done) + rest
  }

  /** The full chunks are sealed and written, and nothing else is. */
  ghost predicate Written(a: Aead, pass: Bytes, header: Bytes, done: seq<Bytes>, log: seq<Sealing>, got: Bytes)
    requires |header| == HEADER
  {
    Sealed(a, pass, header, done, log) && got == header + Body(a, pass, header, 0, done)
  }

  lemma {:induction false} BodyAppend(a: Aead, pass: Bytes, header: Bytes, index: nat, done: seq<Bytes>,
                                      more: seq<Bytes>)
    requires |header| == HEADER
    ensures Body(a, pass, header, index, done + more) ==
            Body(a, pass, header, index, done) + Body(a, pass, header, index + |done|, more)
    decreases |done|
  {
    if done == [] {
      assert done + more == more;
    } else {
      assert (done + more)[1..] == done[1..] + more;
      BodyAppend(a, pass, header, index + 1, done[1..], more);
    }
  }

  lemma BodyOne(a: Aead, pass: Bytes, header: Bytes, done: seq<Bytes>, record: Bytes)
    requires |header| == HEADER
    ensures Body(a, pass, header, 0, done + [record]) ==
            Body(a, pass, header, 0, done) + Encoded(a, pass, header, |done|, record)
  {
    BodyAppend(a, pass, header, 0, done, [record]);
    assert Body(a, pass, header, |done|, [record]) ==
           Encoded(a, pass, header, |done|, record) + Body(a, pass, header, |done| + 1, []);
  }

  lemma {:induction false} FullChunks(done: seq<Bytes>, more: Bytes)
    requires Full(done)
    ensures Chunks(Concat(done) + more) == done + Chunks(more)
  {
    if done == [] {
      assert Concat(done) + more == more;
    } else {
      assert Concat(done) + more == done[0] + (Concat(done[1..]) + more);
      ChunkFirst(done[0], Concat(done[1..]) + more);
      FullChunks(done[1..], more);
      assert done == [done[0]] + done[1..];
    }
  }

  /** What reached the sink is the beginning of the finished stream. */
  lemma PrefixOfStream(a: Aead, pass: Bytes, header: Bytes, data: Bytes, records: seq<Bytes>, got: Bytes)
    requires |header| == HEADER && records <= Records(data) && got <= header + Body(a, pass, header, 0, records)
    ensures got <= Stream(a, pass, header, data)
  {
    assert Records(data) == records + Records(data)[|records|..];
    BodyAppend(a, pass, header, 0, records, Records(data)[|records|..]);
    assert header + Body(a, pass, header, 0, records) <= Stream(a, pass, header, data);
  }

  /** The sealings of the first records of a stream. */
  ghost predicate Sealed(a: Aead, pass: Bytes, header: Bytes, records: seq<Bytes>, log: seq<Sealing>)
    requires |header| == HEADER
  {
    |log| == |records| && forall i :: 0 <= i < |log| ==> log[i] == SealingOf(a, pass, header, i, records[i])
  }

  /** A writer that is closed once uses no nonce twice. */
  lemma NoncesNeverRepeat(a: Aead, pass: Bytes, header: Bytes, data: Bytes, records: seq<Bytes>, log: seq<Sealing>,
                          i: nat, j: nat)
    requires |header| == HEADER && |data| <= MAX_ARCHIVE && records <= Records(data)
    requires Sealed(a, pass, header, records, log)
    requires i < j < |log|
    ensures log[i].nonce != log[j].nonce
  {
    RecordsOf(data);
    NoncesDiffer(header, i, j);
  }

  // ---------- the writer ----------

  class SealWriter {
    const a: Aead
    const pass: Bytes
    const header: Bytes
    const w: Sink
    var index: nat
    var buf: Bytes
    var total: nat
    var err: Outcome
    /** Every byte accepted, the full chunks written, the records sealed and how. */
    ghost var data: Bytes
    ghost var done: seq<Bytes>
    ghost var records: seq<Bytes>
    ghost var log: seq<Sealing>

    /** Whatever went wrong, the sealings and the output belong to the stream of data. */
    ghost predicate Sound()
      reads this, w
    {
      && |header| == HEADER && |data| <= MAX_ARCHIVE
      && records <= Records(data) && Sealed(a, pass, header, records, log)
      && w.got <= Stream(a, pass, header, data)
    }

    /** So far so good: full chunks are out and the rest is buffered. */
    ghost predicate Open()
      reads this, w
    {
      && |header| == HEADER && total == |data| <= MAX_ARCHIVE && err.Ok?
      && index == |done| && |buf| < CHUNK && Cut(data, done, buf)
      && records == done && Written(a, pass, header, done, log, w.got)
    }

    ghost predicate Valid()
      reads this, w
    {
      |header| == HEADER && if err.Ok? then Open() else Sound()
    }

    constructor (a: Aead, w: Sink, pass: Bytes, header: Bytes)
      requires |header| == HEADER && w.got == header
      ensures Valid() && Open() && this.a == a && this.w == w && this.pass == pass && this.header == header
      ensures data == []
    {
      this.a, this.w, this.pass, this.header := a, w, pass, header;
      index, buf, total, err := 0, [], 0, Ok;
      data, done, records, log := [], [], [], [];
    }

    /** Seals one record and writes it out. */
    method Record(p: Bytes) returns (result: Outcome)
      requires |header| == HEADER && |p| <= CHUNK
      modifies this`index, this`records, this`log, w
      ensures records == old(records) + [p] && log == old(log) + [SealingOf(a, pass, header, old(index), p)]
      ensures w.Reliable() ==> result.Ok?
      ensures result.Ok? ==> index == old(index) + 1 && w.got == old(w.got) + Encoded(a, pass, header, old(index), p)
      ensures !result.Ok? ==> result.SinkFailed? && index == old(index)
      ensures !result.Ok? ==> old(w.got) <= w.got <= old(w.got) + Encoded(a, pass, header, old(index), p)
    {
      var size := |p| + TAG;
      var nonce, aad := Nonce(header, index), RecordAad(header, index, size);
      var cipher := a.seal(KeyOf(pass, header), nonce, p, aad);
      log := log + [Sealing(KeyOf(pass, header), nonce, aad, p, cipher)];
      records := records + [p];
      ghost var before := w.got;
      var prefix := BigEndian(size, 4);
      result := WriteAll(w, prefix);
      if !result.Ok? {
        assert before + prefix <= before + (prefix + cipher);
        return;
      }
      result := WriteAll(w, cipher);
      assert before + prefix + cipher == before + (prefix + cipher);
      if !result.Ok? { return; }
      index := index + 1;
    }

    /** Seals and writes the full buffer. */
    method Flush(ghost rest: Bytes)
      requires |header| == HEADER && total == |data| <= MAX_ARCHIVE && err.Ok?
      requires index == |done| && |buf| == CHUNK && Cut(data, done, buf + rest)
      requires records == done && Written(a, pass, header, done, log, w.got)
      modifies this`err, this`done, this`buf, this`index, this`records, this`log, w
      ensures err.Ok? ==> index == |done| && buf == [] && Cut(data, done, buf + rest) &&
                          records == done && Written(a, pass, header, done, log, w.got)
      ensures !err.Ok? ==> Sound() && err.SinkFailed? && !w.Reliable()
    {
      NextChunk(data, done, buf, rest);
      ghost var before := w.got;
      err := Record(buf);
      OneMore(a, pass, header, data, done, buf, old(log), before, w.got);
      if err.Ok? {
        done := done + [buf];
        buf := [];
        assert buf + rest == rest;
      }
    }

    /** Accepts bytes; a full buffer becomes a record. Nothing is accepted after an error. */
    method Write(p: Bytes) returns (n: nat, result: Outcome)
      requires Valid()
      modifies this, w
      ensures Valid() && result == err && n <= |p|
      ensures result.Ok? <==> Open()
      ensures result.Ok? ==> n == |p| && data == old(data) + p
      ensures !old(err).Ok? ==> n == 0 && err == old(err) && w.got == old(w.got) && log == old(log)
      ensures old(err).Ok? ==> (result.TooLarge? <==> old(total) + |p| > MAX_ARCHIVE)
      ensures result.TooLarge? ==> n == 0 && w.got == old(w.got) && log == old(log)
      ensures w.Reliable() && old(err).Ok? && old(total) + |p| <= MAX_ARCHIVE ==> result.Ok?
    {
      if !err.Ok? { return 0, err; }
      if total + |p| > MAX_ARCHIVE {
        err := TooLarge;
        FinishedLayout(data, done, buf);
        PrefixOfStream(a, pass, header, data, done, w.got);
        return 0, err;
      }
      n := |p|;
      total := total + n;
      data := data + p;
      var rest := p;
      assert Concat(done) + buf + p == Concat(done) + (buf + p);
      while rest != []
        invariant |rest| <= n && total == |data| <= MAX_ARCHIVE && err.Ok?
        invariant index == |done| && |buf| < CHUNK && Cut(data, done, buf + rest)
        invariant records == done && Written(a, pass, header, done, log, w.got)
        invariant data == old(data) + p
        decreases |rest|
      {
        var count := if CHUNK - |buf| < |rest| then CHUNK - |buf| else |rest|;
        assert buf + rest == (buf + rest[..count]) + rest[count..];
        buf, rest := buf + rest[..count], rest[count..];
        if |buf| == CHUNK {
          Flush(rest);
          if !err.Ok? { return n - |rest|, err; }
        }
      }
      assert buf + rest == buf;
      result := Ok;
    }

    /** Flushes the buffer and ends the stream with an empty record; the buffer is cleared in
        any case. taken tells how many of its records the sink took whole. */
    method Close() returns (result: Outcome, ghost taken: nat)
      requires |header| == HEADER && |buf| <= CHUNK
      modifies this`index, this`records, this`log, this`buf, w
      ensures buf == Zeros(|old(buf)|) && data == old(data) && err == old(err)
      ensures old(Valid()) ==> Sound()
      ensures !old(err).Ok? ==> result == old(err) && w.got == old(w.got) && log == old(log) && index == old(index)
      ensures old(err).Ok? ==>
                var e := Ended(a, pass, header, old(index), old(buf), taken);
                index == e.index && log == old(log) + e.sealed && (result.Ok? <==> e.ok) && !result.TooLarge?
      ensures old(Valid()) && result.Ok? ==> w.got == Stream(a, pass, header, data) && records == Records(data)
      ensures w.Reliable() && old(err).Ok? ==> result.Ok?
    {
      taken := 0;
      if !err.Ok? {
        buf := Zeros(|buf|);
        return err, taken;
      }
      ghost var sound, all := Open(), if buf == [] then done else done + [buf];
      if sound { FinishedLayout(data, done, buf); }
      if buf != [] {
        result := CloseRest();
        if !result.Ok? { return; }
        taken := 1;
      }
      assert Zeros(0) == [];
      result := CloseEnd(all);
      if result.Ok? { taken := taken + 1; }
    }

    /** Everything but the last, empty record is out. */
    ghost predicate Flushed(all: seq<Bytes>)
      reads this, w
    {
      && |header| == HEADER && |data| <= MAX_ARCHIVE && all + [[]] == Records(data)
      && index == |all| && records == all && Written(a, pass, header, all, log, w.got)
    }

    /** Seals what is buffered, and clears it. */
    method CloseRest() returns (result: Outcome)
      requires |header| == HEADER && 0 < |buf| <= CHUNK
      modifies this`index, this`records, this`log, this`buf, w
      ensures buf == Zeros(|old(buf)|) && log == old(log) + [SealingOf(a, pass, header, old(index), old(buf))]
      ensures index == old(index) + (if result.Ok? then 1 else 0) && !result.TooLarge?
      ensures old(Open()) ==> if result.Ok? then Flushed(old(done) + [old(buf)]) else Sound()
      ensures w.Reliable() ==> result.Ok?
    {
      ghost var before := w.got;
      if Open() { FinishedLayout(data, done, buf); }
      result := Record(buf);
      if old(Open()) {
        assert done + [buf] <= Records(data);
        OneMore(a, pass, header, data, done, buf, old(log), before, w.got);
      }
      buf := Zeros(|buf|);
    }

    /** Seals the empty record that ends the stream. */
    method CloseEnd(ghost all: seq<Bytes>) returns (result: Outcome)
      requires |header| == HEADER
      modifies this`index, this`records, this`log, w
      ensures log == old(log) + [SealingOf(a, pass, header, old(index), [])]
      ensures index == old(index) + (if result.Ok? then 1 else 0) && !result.TooLarge?
      ensures old(Flushed(all)) ==>
                Sound() && (result.Ok? ==> w.got == Stream(a, pass, header, data) && records == Records(data))
      ensures w.Reliable() ==> result.Ok?
    {
      ghost var before := w.got;
      result := Record([]);
      if old(Flushed(all)) { OneMore(a, pass, header, data, all, [], old(log), before, w.got); }
    }
  }

  function Zeros(n: nat): Bytes {
    seq(n, i => 0)
  }

  /** What closing does: the next index, the cleared buffer, what was sealed, and whether all went well. */
  datatype Ending = Ending(index: nat, buf: Bytes, sealed: seq<Sealing>, ok: bool)

  function Ended(a: Aead, pass: Bytes, header: Bytes, index: nat, buf: Bytes, taken: nat): Ending
    requires |header| == HEADER
  {
    var rest, zeros := SealingOf(a, pass, header, index, buf), Zeros(|buf|);
    if buf == [] then Ending(if taken > 0 then index + 1 else index, zeros, [rest], taken > 0)
    else if taken == 0 then Ending(index, zeros, [rest], false)
    else
      var last := SealingOf(a, pass, header, index + 1, []);
      Ending(if taken > 1 then index + 2 else index + 1, zeros, [rest, last], taken > 1)
  }

  ghost predicate NoRepeat(log: seq<Sealing>) {
    forall i, j :: 0 <= i < j < |log| ==> log[i].nonce != log[j].nonce
  }

  /** A nonce serves two different texts. */
  ghost predicate Reuses(first: seq<Sealing>, second: seq<Sealing>) {
    exists x, y :: x in first && y in second && x.nonce == y.nonce && x.plain != y.plain
  }

  lemma FourNonces(header: Bytes, index: nat)
    requires |header| == HEADER && index + 4 < 0x1_0000_0000_0000_0000
    ensures forall i, j :: index <= i < j < index + 4 ==> Nonce(header, i) != Nonce(header, j)
  {
    forall i, j | index <= i < j < index + 4 ensures Nonce(header, i) != Nonce(header, j) {
      NoncesDiffer(header, i, j);
    }
  }

  lemma RepeatsOne(e: Ending, f: Ending)
    requires e.sealed != [] && f.sealed != [] && (!e.ok ==> e.sealed[|e.sealed| - 1].nonce == f.sealed[0].nonce)
    ensures !e.ok ==> !NoRepeat(e.sealed + f.sealed)
  {
    var all := e.sealed + f.sealed;
    if !e.ok { assert all[|e.sealed| - 1].nonce == all[|e.sealed|].nonce; }
  }

  lemma RepeatsIfFailed(a: Aead, pass: Bytes, header: Bytes, index: nat, buf: Bytes, t: nat, u: nat)
    requires |header| == HEADER && index + 4 < 0x1_0000_0000_0000_0000
    ensures var e := Ended(a, pass, header, index, buf, t);
            NoRepeat(e.sealed + Ended(a, pass, header, e.index, e.buf, u).sealed) <==> e.ok
  {
    var e := Ended(a, pass, header, index, buf, t);
    FourNonces(header, index);
    RepeatsOne(e, Ended(a, pass, header, e.index, e.buf, u));
  }

  lemma ReusesIfTextDiffers(a: Aead, pass: Bytes, header: Bytes, index: nat, buf: Bytes, t: nat, u: nat)
    requires |header| == HEADER && index + 4 < 0x1_0000_0000_0000_0000
    ensures var e := Ended(a, pass, header, index, buf, t);
            var f := Ended(a, pass, header, e.index, e.buf, u);
            Reuses(e.sealed, f.sealed) <==> !e.ok && buf != [] && (t > 0 || buf != Zeros(|buf|))
  {
    var e := Ended(a, pass, header, index, buf, t);
    var f := Ended(a, pass, header, e.index, e.buf, u);
    FourNonces(header, index);
    assert e.sealed[|e.sealed| - 1] in e.sealed && f.sealed[0] in f.sealed;
  }

  /** Closing again repeats a nonce exactly if the first closing failed; and it repeats it for
      another text exactly if there was a rest to flush that was out or not all zeros. */
  lemma ClosingAgain(a: Aead, pass: Bytes, header: Bytes, index: nat, buf: Bytes, t: nat, u: nat)
    requires |header| == HEADER && index + 4 < 0x1_0000_0000_0000_0000
    ensures var e := Ended(a, pass, header, index, buf, t);
            var f := Ended(a, pass, header, e.index, e.buf, u);
            && (NoRepeat(e.sealed + f.sealed) <==> e.ok)
            && (Reuses(e.sealed, f.sealed) <==> !e.ok && buf != [] && (t > 0 || buf != Zeros(|buf|)))
  {
    RepeatsIfFailed(a, pass, header, index, buf, t, u);
    ReusesIfTextDiffers(a, pass, header, index, buf, t, u);
  }

  lemma FinishedLayout(data: Bytes, done: seq<Bytes>, buf: Bytes)
    requires Cut(data, done, buf) && |buf| < CHUNK
    ensures Records(data) == (done + if buf == [] then [] else [buf]) + [[]]
    ensures done <= Records(data)
  {
    LayoutOf(done, buf);
  }

  /** A full buffer is the next record of the stream. */
  lemma NextChunk(data: Bytes, done: seq<Bytes>, chunk: Bytes, rest: Bytes)
    requires Cut(data, done, chunk + rest) && |chunk| == CHUNK
    ensures Cut(data, done + [chunk], rest) && done + [chunk] <= Records(data)
  {
    ConcatAppend(done, chunk);
    assert Concat(done) + (chunk + rest) == Concat(done) + chunk + rest;
    FullChunks(done + [chunk], rest);
  }

  /** One more record behind the ones written, whether or not all of it arrives. */
  lemma OneMore(a: Aead, pass: Bytes, header: Bytes, data: Bytes, done: seq<Bytes>, record: Bytes, log: seq<Sealing>,
                before: Bytes, after: Bytes)
    requires |header| == HEADER && done + [record] <= Records(data)
    requires Written(a, pass, header, done, log, before)
    requires after <= before + Encoded(a, pass, header, |done|, record)
    ensures var more := log + [SealingOf(a, pass, header, |done|, record)];
            && Sealed(a, pass, header, done + [record], more)
            && (after == before + Encoded(a, pass, header, |done|, record) ==>
                  Written(a, pass, header, done + [record], more, after))
    ensures after <= Stream(a, pass, header, data)
  {
    BodyOne(a, pass, header, done, record);
    assert before + Encoded(a, pass, header, |done|, record) == header + Body(a, pass, header, 0, done + [record]);
    PrefixOfStream(a, pass, header, data, done + [record], after);
  }

  /** Begins a stream: the header is the magic number, a salt and a nonce prefix. */
  method NewSealWriter(a: Aead, w: Sink, pass: Bytes, magic: Bytes, random: Bytes)
    returns (result: Outcome, s: SealWriter?)
    requires w.got == [] && |magic| == 16 && |random| == 36
    modifies w
    ensures result.Ok? ==>
              s != null && fresh(s) && s.Valid() && s.Open() && s.w == w && s.header == magic + random &&
              s.pass == pass && s.a == a && s.data == []
    ensures !result.Ok? ==> s == null && w.got <= magic + random
    ensures w.Reliable() ==> result.Ok?
  {
    s := null;
    var header := magic + random;
    result := WriteAll(w, header);
    if result.Ok? { s := new SealWriter(a, w, pass, header); }
  }

  /** A writer's record of what it sealed is a genuine package whose sealings are logged. */
  lemma WriterIsGenuine(a: Aead, pass: Bytes, header: Bytes, data: Bytes, records: seq<Bytes>, log: seq<Sealing>,
                        world: set<Sealing>, i: nat)
    requires |header| == HEADER && |data| <= MAX_ARCHIVE && records <= Records(data)
    requires Sealed(a, pass, header, records, log)
    requires (forall s :: s in log ==> s in world) && i < |records|
    ensures Genuine(Package(pass, header, data, |records|))
    ensures Logged(a, world, Package(pass, header, data, |records|), i)
  {
  }

  /** A closed writer has sealed its data's records. */
  lemma LogOfClosed(a: Aead, p: Package, log: seq<Sealing>)
    requires Genuine(p) && Finished(p) && Sealed(a, p.pass, p.header, Records(p.data), log)
    ensures (set s | s in log) == SealingsOf(a, p)
  {
    forall s ensures s in log <==> s in SealingsOf(a, p) {
      if s in log {
        var i :| 0 <= i < |log| && log[i] == s;
        assert s == SealingOf(a, p.pass, p.header, i, Records(p.data)[i]);
      }
      if s in SealingsOf(a, p) {
        var i :| 0 <= i < p.sealed && s == SealingOf(a, p.pass, p.header, i, Records(p.data)[i]);
        assert log[i] == s;
      }
    }
  }

  /** With this one writer in the world, what it closed opens to what it was given. */
  lemma WhatWasSealedOpens(a: Aead, pass: Bytes, header: Bytes, data: Bytes, log: seq<Sealing>)
    requires |header| == HEADER && |data| <= MAX_ARCHIVE && Sealed(a, pass, header, Records(data), log)
    requires Ideal(a, set s | s in log)
    ensures Unseal(a, pass, header, 0, 0, Stream(a, pass, header, data)[HEADER..]) == Unsealed(data, true)
  {
    var p := Package(pass, header, data, |Records(data)|);
    LogOfClosed(a, p, log);
    OneMoreWriter(a, {}, {}, p);
    assert {} + SealingsOf(a, p) == SealingsOf(a, p);
    RoundTrip(a, SealingsOf(a, p), {} + {p}, p);
  }
}
