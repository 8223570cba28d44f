/** The readers a feed's bytes pass through: one that enforces the size limit, one that counts lines. */
module FeedReaders {
  import opened Octets

  const NEWLINE: Byte := 10

  datatype Outcome = More | End | TooLong

  // ---------- lines ----------

  function Newlines(s: Bytes): nat {
    if s == [] then 0 else Newlines(s[..|s| - 1]) + if s[|s| - 1] == NEWLINE then 1 else 0
  }

  /** Every line counts, a last one without its newline too. */
  function Lines(s: Bytes): nat {
    Newlines(s) + if s != [] && s[|s| - 1] != NEWLINE then 1 else 0
  }

  lemma NewlinesMore(s: Bytes, b: Byte)
    ensures Newlines(s + [b]) == Newlines(s) + if b == NEWLINE then 1 else 0
  {
    assert (s + [b])[..|s|] == s;
  }

  /** A file read through a size limit and a line counter, in pieces of the source's choosing. */
  class FeedReader {
    const max: nat
    var rest: Bytes
    var left: int
    var lines: nat
    var last: bool
    /** What was handed out. */
    ghost var given: Bytes

    ghost predicate Valid()
      reads this
    {
      left == max - |given| >= 0 && lines == Newlines(given) && last == (given != [] && given[|given| - 1] != NEWLINE)
    }

    constructor (content: Bytes, max: nat)
      ensures Valid() && rest == content && this.max == max && given == []
    {
      this.max, rest, left, lines, last, given := max, content, max, 0, false, [];
    }

    /** At most size bytes, or fewer as they come; one byte past the limit is an error. */
    method Take(size: nat, comes: nat) returns (outcome: Outcome, out: Bytes)
      requires Valid() && size > 0
      modifies this`rest, this`left
      ensures |rest| <= |old(rest)| && rest == old(rest)[|old(rest)| - |rest|..]
      ensures outcome.TooLong? ==> |old(rest)| > old(left) && out == []
      ensures !outcome.TooLong? ==> old(rest) == out + rest && left == old(left) - |out| >= 0
      ensures outcome.End? <==> old(rest) == []
      ensures outcome.More? && comes > 0 ==> out != []
    {
      var want := if size > left + 1 then left + 1 else size;
      var n := if comes < want then comes else want;
      if n > |rest| { n := |rest|; }
      outcome := if rest == [] then End else More;
      left := left - n;
      out, rest := rest[..n], rest[n..];
      if left < 0 { return TooLong, []; }
    }

    /** Counts the lines of what is handed out. */
    method Count(out: Bytes)
      requires lines == Newlines(given)
      modifies this`lines
      ensures lines == Newlines(given + out)
    {
      assert given + [] == given;
      for i := 0 to |out|
        invariant lines == Newlines(given + out[..i])
      {
        NewlinesMore(given + out[..i], out[i]);
        assert given + out[..i] + [out[i]] == given + out[..i + 1];
        if out[i] == NEWLINE { lines := lines + 1; }
      }
      assert out[..|out|] == out;
    }

    method Read(size: nat, comes: nat) returns (outcome: Outcome, out: Bytes)
      requires Valid() && size > 0
      modifies this
      ensures !outcome.TooLong? ==> Valid() && given == old(given) + out && old(rest) == out + rest
      ensures outcome.TooLong? ==> |old(rest)| > old(left)
      ensures outcome.End? <==> old(rest) == []
      ensures outcome.More? && comes > 0 ==> out != []
    {
      outcome, out := Take(size, comes);
      if outcome.TooLong? { return; }
      Count(out);
      if |out| > 0 { last := out[|out| - 1] != NEWLINE; }
      given := given + out;
    }

    /** Reading to the end gives the file and its number of lines, exactly if the file is
        within the limit, however the reads are cut. */
    method ReadToEnd(size: nat -> nat, comes: nat -> nat) returns (ok: bool, data: Bytes, records: nat)
      requires Valid() && given == [] && forall k :: size(k) > 0 && comes(k) > 0
      modifies this
      ensures ok <==> |old(rest)| <= max
      ensures ok ==> data == old(rest) && records == Lines(old(rest))
    {
      data, records := [], 0;
      var k := 0;
      assert old(rest) == given + rest;
      while true
        invariant Valid() && data == given && old(rest) == given + rest
        decreases |rest|
      {
        var outcome, out := Read(size(k), comes(k));
        if outcome.TooLong? { return false, [], 0; }
        data := data + out;
        if outcome.End? { return true, data, lines + if last then 1 else 0; }
        k := k + 1;
      }
    }
  }
}
