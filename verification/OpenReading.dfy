/** Reading the encrypted record stream back. */
module OpenReading {
  import opened Octets
  import opened SealStream

  datatype Outcome = Ok | Eof | Unauthentic | TooLarge

  /** What was left after some bytes, and is left after some more. */
  lemma Onward(whole: Unsealed, read: Bytes, before: Unsealed, out: Bytes, after: Unsealed)
    requires whole == Unsealed(read + before.plain, before.complete)
    requires before == Unsealed(out + after.plain, after.complete)
    ensures whole == Unsealed(read + out + after.plain, after.complete)
  {
    assert read + (out + after.plain) == read + out + after.plain;
  }

  class OpenReader {
    const a: Aead
    const pass: Bytes
    const header: Bytes
    /** Whether reading past the last byte reports a plain end of input. */
    const clean: bool
    var input: Bytes
    var index: nat
    var buf: Bytes
    var total: nat
    var done: bool

    ghost predicate Valid()
      reads this
    {
      |header| == HEADER && (done ==> buf == [])
    }

    /** What is still to be delivered, and whether the end will be reached without an error. */
    ghost function Remaining(): Unsealed
      requires |header| == HEADER
      reads this
    {
      if done then Unsealed([], true)
      else
        var more := Unseal(a, pass, header, index, total, input);
        Unsealed(buf + more.plain, more.complete && clean)
    }

    constructor (a: Aead, pass: Bytes, header: Bytes, input: Bytes, clean: bool)
      requires |header| == HEADER
      ensures Valid()
      ensures Remaining() ==
              var all := Unseal(a, pass, header, 0, 0, input);
              Unsealed(all.plain, all.complete && clean)
      ensures this.a == a && this.pass == pass && this.header == header && this.clean == clean
    {
      this.a, this.pass, this.header, this.input, this.clean := a, pass, header, input, clean;
      index, buf, total, done := 0, [], 0, false;
      new;
      assert buf + Unseal(a, pass, header, 0, 0, input).plain == Unseal(a, pass, header, 0, 0, input).plain;
    }

    /** Exactly n bytes, or none and an error. */
    method ReadFull(n: nat) returns (ok: bool, bytes: Bytes)
      modifies this`input
      ensures ok <==> n <= |old(input)|
      ensures ok ==> bytes == old(input)[..n] && input == old(input)[n..]
    {
      ok := n <= |input|;
      var m := if ok then n else |input|;
      bytes, input := input[..m], input[m..];
    }

    method NextChunk() returns (result: Outcome, plain: Bytes)
      requires Valid() && buf == [] && !done
      modifies this`input, this`index
      ensures !result.TooLarge? && !result.Eof?
      ensures result.Ok? <==> NextRecord(a, pass, header, old(index), old(input)).Good?
      ensures result.Ok? ==>
                NextRecord(a, pass, header, old(index), old(input)) == Good(plain, input) && index == old(index) + 1
    {
      plain := [];
      var ok, prefix := ReadFull(4);
      if !ok { return Unauthentic, plain; }
      var size := FromBigEndian(prefix);
      if size < TAG || size > CHUNK + TAG { return Unauthentic, plain; }
      var sealed;
      ok, sealed := ReadFull(size);
      if !ok { return Unauthentic, plain; }
      var answer := a.open(KeyOf(pass, header), Nonce(header, index), sealed, RecordAad(header, index, size));
      assert old(input)[4..][..size] == old(input)[4..4 + size];
      if answer.Refused? { return Unauthentic, plain; }
      index := index + 1;
      return Ok, answer.plain;
    }

    /** At most size bytes. */
    method Read(size: nat) returns (result: Outcome, out: Bytes)
      requires Valid()
      modifies this`input, this`index, this`buf, this`total, this`done
      ensures Valid() && |out| <= size
      ensures size == 0 ==> result.Ok? && Remaining() == old(Remaining())
      ensures size > 0 && result.Ok? ==>
                out != [] && old(Remaining()) == Unsealed(out + Remaining().plain, Remaining().complete)
      ensures !result.Ok? ==> out == [] && old(Remaining()) == Unsealed([], result.Eof?)
      ensures result.Eof? ==> Remaining() == Unsealed([], true)
      decreases |buf| == 0
    {
      out := [];
      if size == 0 { return Ok, out; }
      if buf != [] {
        out := FromBuffer(size);
        return Ok, out;
      }
      if done { return Eof, out; }
      result := Refill();
      if result.Ok? { result, out := Read(size); }
    }

    /** Hands out what is buffered, up to size bytes. */
    method FromBuffer(size: nat) returns (out: Bytes)
      requires Valid() && buf != [] && size > 0
      modifies this`buf
      ensures Valid() && out != [] && |out| <= size
      ensures old(Remaining()) == Unsealed(out + Remaining().plain, Remaining().complete)
    {
      var n := if |buf| < size then |buf| else size;
      out, buf := buf[..n], buf[n..];
      ghost var more := Unseal(a, pass, header, index, total, input).plain;
      assert old(buf) + more == out + (buf + more);
    }

    /** Buffers the next chunk, or finds the end or a fault. */
    method Refill() returns (result: Outcome)
      requires Valid() && buf == [] && !done
      modifies this`input, this`index, this`buf, this`total, this`done
      ensures Valid()
      ensures result.Ok? ==> buf != [] && Remaining() == old(Remaining())
      ensures !result.Ok? ==> old(Remaining()) == Unsealed([], result.Eof?)
      ensures result.Eof? ==> Remaining() == Unsealed([], true)
    {
      var plain;
      result, plain := NextChunk();
      if !result.Ok? { return; }
      if plain == [] {
        if input != [] || !clean { return Unauthentic; }
        done := true;
        return Eof;
      }
      total := total + |plain|;
      if total > MAX_ARCHIVE { return TooLarge; }
      buf := plain;
    }

    /** Reads until something other than data comes back, with buffers of any sizes. */
    method ReadToEnd(sizes: nat -> nat) returns (result: Outcome, data: Bytes)
      requires Valid() && forall k :: sizes(k) > 0
      modifies this`input, this`index, this`buf, this`total, this`done
      ensures old(Remaining()) == Unsealed(data, result.Eof?)
    {
      data := [];
      var k := 0;
      while true
        invariant Valid()
        invariant old(Remaining()) == Unsealed(data + Remaining().plain, Remaining().complete)
        decreases |Remaining().plain|
      {
        ghost var before := Remaining();
        var out;
        result, out := Read(sizes(k));
        if !result.Ok? { return; }
        Onward(old(Remaining()), data, before, out, Remaining());
        data := data + out;
        k := k + 1;
      }
    }
  }

  /** Exactly n bytes, in reads of any sizes, or the end or a fault before. */
  method ReadExactly(d: OpenReader, n: nat, sizes: nat -> nat) returns (ok: bool, bytes: Bytes)
    requires d.Valid() && forall k :: sizes(k) > 0
    modifies d
    ensures ok <==> n <= |old(d.Remaining()).plain|
    ensures ok ==>
              d.Valid() && |bytes| == n &&
              old(d.Remaining()) == Unsealed(bytes + d.Remaining().plain, d.Remaining().complete)
  {
    bytes := [];
    var k := 0;
    while |bytes| < n
      invariant d.Valid() && |bytes| <= n
      invariant old(d.Remaining()) == Unsealed(bytes + d.Remaining().plain, d.Remaining().complete)
      decreases n - |bytes|
    {
      var want := if sizes(k) < n - |bytes| then sizes(k) else n - |bytes|;
      ghost var before := d.Remaining();
      var result, out := d.Read(want);
      if !result.Ok? { return false, bytes; }
      Onward(old(d.Remaining()), bytes, before, out, d.Remaining());
      bytes := bytes + out;
      k := k + 1;
    }
    ok := true;
  }

  predicate AllZero(s: Bytes) {
    forall i :: 0 <= i < |s| ==> s[i] == 0
  }

  method OnlyZeros(s: Bytes) returns (ok: bool)
    ensures ok <==> AllZero(s)
  {
    for i := 0 to |s|
      invariant forall j :: 0 <= j < i ==> s[j] == 0
    {
      if s[i] != 0 { return false; }
    }
    ok := true;
  }

  lemma ZerosJoin(read: Bytes, out: Bytes, rest: Bytes)
    ensures AllZero(read + (out + rest)) <==> AllZero(read) && AllZero(out) && AllZero(rest)
    ensures AllZero(read + out) <==> AllZero(read) && AllZero(out)
  {
    var all := read + (out + rest);
    if AllZero(all) {
      forall i | 0 <= i < |read| ensures read[i] == 0 { assert all[i] == read[i]; }
      forall i | 0 <= i < |out| ensures out[i] == 0 { assert all[|read| + i] == out[i]; }
      forall i | 0 <= i < |rest| ensures rest[i] == 0 { assert all[|read| + |out| + i] == rest[i]; }
    }
    if AllZero(read + out) {
      forall i | 0 <= i < |out| ensures out[i] == 0 { assert (read + out)[|read| + i] == out[i]; }
      forall i | 0 <= i < |read| ensures read[i] == 0 { assert (read + out)[i] == read[i]; }
    }
  }

  /** Reads what is behind the archive: only zeros, up to the authenticated end. */
  method Drain(d: OpenReader) returns (ok: bool)
    requires d.Valid()
    modifies d
    ensures ok <==> old(d.Remaining()).complete && AllZero(old(d.Remaining()).plain)
  {
    ghost var read: Bytes := [];
    while true
      invariant d.Valid() && AllZero(read)
      invariant old(d.Remaining()) == Unsealed(read + d.Remaining().plain, d.Remaining().complete)
      decreases |d.Remaining().plain|
    {
      ghost var before := d.Remaining();
      var result, padding := d.Read(4096);
      if !result.Ok? { return result.Eof?; }
      var zeros := OnlyZeros(padding);
      ZerosJoin(read, padding, d.Remaining().plain);
      if !zeros { return false; }
      Onward(old(d.Remaining()), read, before, padding, d.Remaining());
      read := read + padding;
    }
  }

  /** Opens a stream and reads it to its end. That succeeds exactly on a writer's finished
      stream, and the bytes are the writer's, whatever the sizes of the buffers. */
  method OpenStream(a: Aead, pass: Bytes, magic: Bytes, stream: Bytes, clean: bool, sizes: nat -> nat,
                    ghost log: set<Sealing>, ghost packages: set<Package>)
    returns (ok: bool, data: Bytes)
    requires |magic| == 16 && (forall k :: sizes(k) > 0)
    requires Ideal(a, log) && FromWriters(a, log, packages) && (forall p :: p in packages ==> p.header[..16] == magic)
    ensures ok <==> clean && exists plain :: Produced(a, packages, pass, stream, plain)
    ensures ok ==> Produced(a, packages, pass, stream, data)
    ensures data != [] ==> BeginsSome(packages, pass, stream, data)
  {
    if |stream| < HEADER || stream[..16] != magic {
      StartsWithMagic(a, packages, pass, magic, stream);
      return false, [];
    }
    var header, input := stream[..HEADER], stream[HEADER..];
    var d := new OpenReader(a, pass, header, input, clean);
    var result;
    result, data := d.ReadToEnd(sizes);
    ok := result.Eof?;
    Delivered(a, log, packages, pass, stream, clean, ok, data);
  }

  /** What was delivered begins the data of the writer whose header this is. */
  ghost predicate BeginsSome(packages: set<Package>, pass: Bytes, stream: Bytes, data: Bytes) {
    exists p :: p in packages && p.pass == pass && p.header <= stream && data <= p.data
  }

  lemma StartsWithMagic(a: Aead, packages: set<Package>, pass: Bytes, magic: Bytes, stream: Bytes)
    requires |magic| == 16 && forall p :: p in packages ==> |p.header| == HEADER && p.header[..16] == magic
    ensures (exists plain :: Produced(a, packages, pass, stream, plain)) ==> |stream| >= HEADER && stream[..16] == magic
  {
  }

  lemma Delivered(a: Aead, log: set<Sealing>, packages: set<Package>, pass: Bytes, stream: Bytes, clean: bool, ok: bool,
                  data: Bytes)
    requires Ideal(a, log) && FromWriters(a, log, packages) && |stream| >= HEADER
    requires var r := Unseal(a, pass, stream[..HEADER], 0, 0, stream[HEADER..]);
             data == r.plain && ok == (r.complete && clean)
    ensures ok <==> clean && exists plain :: Produced(a, packages, pass, stream, plain)
    ensures ok ==> Produced(a, packages, pass, stream, data)
    ensures data != [] ==> BeginsSome(packages, pass, stream, data)
  {
    var header, input := stream[..HEADER], stream[HEADER..];
    assert stream == header + input;
    OpensExactlyFinishedStreams(a, log, packages, pass, header, input, data);
    if plain :| Produced(a, packages, pass, stream, plain) {
      OpensExactlyFinishedStreams(a, log, packages, pass, header, input, plain);
    }
    if exists p :: p in packages && p.pass == pass && p.header == header {
      var p :| p in packages && p.pass == pass && p.header == header;
      DeliversOnlyAPrefix(a, log, packages, p, input);
    } else {
      NothingForeign(a, log, packages, pass, header, input);
    }
  }
}
