/** The byte-at-a-time framer, which frames what the parsing functions say. */
module JsonReader {
  import opened Octets
  import opened Options
  import opened JsonGrammar
  import opened JsonScan
  import opened JsonFrame
  import opened JsonEnding

  class Reader {
    const env: Env
    var rest: Bytes
    var base: nat
    var frames: seq<Bytes>
    var accepted: nat
    var skipped: nat

    constructor (env: Env, input: Bytes)
      ensures this.env == env && rest == input && base == 0 && frames == [] && accepted == 0 && skipped == 0
    {
      this.env, rest, base, frames, accepted, skipped := env, input, 0, [], 0, 0;
    }

    /** Skips blanks and looks at the next byte. */
    method Peek() returns (b: Option<Byte>)
      modifies this`rest
      ensures rest == SkipBlank(old(rest))
      ensures b == if rest == [] then None else Some(rest[0])
    {
      while rest != [] && IsBlank(rest[0])
        invariant SkipBlank(rest) == SkipBlank(old(rest))
        decreases |rest|
      {
        rest := rest[1..];
      }
      b := if rest == [] then None else Some(rest[0]);
    }

    method Take(want: Byte) returns (ok: bool)
      modifies this`rest
      ensures ok <==> SkipBlank(old(rest)) != [] && SkipBlank(old(rest))[0] == want
      ensures rest == if ok then SkipBlank(old(rest))[1..] else SkipBlank(old(rest))
    {
      var b := Peek();
      ok := b == Some(want);
      if ok { rest := rest[1..]; }
    }

    /** What one more byte does, outside and inside strings. */
    method Turn(at: Place, b: Byte) returns (move: Move)
      ensures move == Moved(at, base, b)
    {
      var depth, quoted, escape := at.depth, at.quoted, at.escape;
      if quoted {
        if escape {
          escape := false;
        } else if b == BACKSLASH {
          escape := true;
        } else if b == QUOTE {
          if depth == 0 { return Done; }
          quoted := false;
        }
      } else if b == QUOTE {
        quoted := true;
      } else if b == 0x5b || b == 0x7b {
        depth := depth + 1;
        if depth + base > MAX_DEPTH { return Stop(Limit); }
      } else if b == 0x5d || b == 0x7d {
        if depth == 0 { return Stop(Malformed); }
        depth := depth - 1;
        if depth == 0 { return Done; }
      }
      move := Go(Place(depth, quoted, escape));
    }

    /** Frames one value. */
    method TakeValue() returns (r: JsonScan.Framed)
      modifies this`rest
      ensures r == Value(env, base, old(rest))
      ensures r.Frame? ==> rest == r.rest
    {
      var b := Peek();
      if b.None? { return Refused(Malformed); }
      ghost var start := rest;
      var out: Bytes := [];
      var at := TOP;
      while rest != []
        invariant Scan(env.valid, base, at, out, rest) == Scan(env.valid, base, TOP, [], start)
        decreases |rest|
      {
        var b := rest[0];
        if !at.quoted && at.depth == 0 && out != [] && Separates(b) { break; }
        if |out| >= MAX_VALUE { return Refused(Limit); }
        var move := Turn(at, b);
        rest := rest[1..];
        out := out + [b];
        match move {
          case Stop(error) => return Refused(error);
          case Done => return Checked(env.valid, out, rest);
          case Go(place) => at := place;
        }
      }
      r := Checked(env.valid, out, rest);
    }

    /** Every framed record was accepted or skipped. */
    ghost predicate Tallied()
      reads this
    {
      accepted == AcceptedIn(env.accepts, frames) && accepted + skipped == |frames|
    }

    /** Counts, frames and hands over one record. */
    method TakeElement() returns (err: Option<Error>)
      requires Tallied()
      modifies this`rest, this`frames, this`accepted, this`skipped
      ensures Tallied()
      ensures Outcome(err, frames, rest, Element(env, base, old(rest), old(frames)))
    {
      if |frames| + 1 > env.maxRecords { return Some(Limit); }
      var r := TakeValue();
      if r.Refused? { return Some(r.error); }
      frames := frames + [r.raw];
      assert frames[..|frames| - 1] == old(frames);
      if !env.accepts(r.raw) {
        skipped := skipped + 1;
        return None;
      }
      accepted := accepted + 1;
      err := if env.refuses(frames) then Some(Rejected) else None;
    }

    /** Takes the comma between items, which may not be the last thing. */
    method TakeComma(close: Byte) returns (ok: bool)
      requires rest != [] && !IsBlank(rest[0])
      modifies this`rest
      ensures ok <==> AfterComma(old(rest), close).Some?
      ensures ok ==> rest == AfterComma(old(rest), close).value
    {
      ok := Take(COMMA);
      if !ok { return; }
      var b := Peek();
      ok := b.Some? && b.value != close;
    }

    method TakeArray() returns (err: Option<Error>)
      requires Tallied() && frames == []
      modifies this
      ensures Tallied() && base == old(base)
      ensures Outcome(err, frames, rest, Array(env, base + 1, old(rest)))
    {
      base := base + 1;
      err := None;
      var ok := Take(0x5b);
      if !ok {
        base := base - 1;
        return Some(Malformed);
      }
      ghost var start := rest;
      var first, done := true, false;
      while !done
        invariant Tallied() && base == old(base) + 1
        invariant !done ==>
                    err.None? && Elements(env, base, rest, first, frames) == Elements(env, base, start, true, [])
        invariant done ==> Outcome(err, frames, rest, Elements(env, base, start, true, []))
        decreases !done, |rest|
      {
        done, err := TakeNext(first);
        first := false;
      }
      base := base - 1;
    }

    /** The closing bracket, or the next element behind its comma. */
    method TakeNext(first: bool) returns (done: bool, err: Option<Error>)
      requires Tallied()
      modifies this`rest, this`frames, this`accepted, this`skipped
      ensures Tallied()
      ensures done ==> Outcome(err, frames, rest, Elements(env, base, old(rest), first, old(frames)))
      ensures !done ==> err.None? && |rest| < |old(rest)| &&
                        Elements(env, base, rest, false, frames) == Elements(env, base, old(rest), first, old(frames))
    {
      var b := Peek();
      if b.None? { return true, Some(Malformed); }
      if b == Some(0x5d) {
        var _ := Take(0x5d);
        return true, None;
      }
      if !first {
        var ok := TakeComma(0x5d);
        if !ok { return true, Some(Malformed); }
      }
      ElementsStep(env, base, old(rest), first, frames);
      err := TakeElement();
      done := err.Some?;
    }

    /** A member: its key, its colon and its value, which is the array if the key says so. */
    method TakeMember(seen: bool) returns (err: Option<Error>, now: bool)
      requires Tallied() && base == 1 && (!seen ==> frames == [])
      modifies this
      ensures Tallied() && base == 1 && (!now ==> frames == [])
      ensures match Member1(env, old(rest), if seen then Some(old(frames)) else None)
              case Bad(all, error) => err == Some(error) && frames == all
              case Member(after, more) => err.None? && rest == more && after == if now then Some(frames) else None
    {
      now := seen;
      var r := TakeValue();
      if r.Refused? { return Some(r.error), now; }
      if r.raw[0] != QUOTE { return Some(Malformed), now; }
      var ok := Take(COLON);
      if !ok { return Some(Malformed), now; }
      if env.unquote(r.raw) == INDICATORS {
        if seen { return Some(Malformed), now; }
        now := true;
        err := TakeArray();
      } else {
        r := TakeValue();
        err := if r.Refused? then Some(r.error) else None;
      }
    }

    method TakeMembers() returns (err: Option<Error>)
      requires Tallied() && frames == [] && base == 1
      modifies this
      ensures Tallied()
      ensures Outcome(err, frames, rest, Members(env, old(rest), true, None))
    {
      var first, seen := true, false;
      while true
        invariant Tallied() && base == 1 && (!seen ==> frames == [])
        invariant Members(env, rest, first, if seen then Some(frames) else None) == Members(env, old(rest), true, None)
        decreases |rest|
      {
        var b := Peek();
        if b.None? { return Some(Malformed); }
        if b == Some(0x7d) {
          var _ := Take(0x7d);
          break;
        }
        if !first {
          var ok := TakeComma(0x7d);
          if !ok { return Some(Malformed); }
        }
        first := false;
        err, seen := TakeMember(seen);
        if err.Some? { return; }
      }
      err := if seen then None else Some(Malformed);
    }

    /** Frames a whole feed. */
    method Run() returns (err: Option<Error>)
      requires Tallied() && frames == [] && base == 0
      modifies this
      ensures Tallied()
      ensures Outcome(err, frames, rest, Parse(env, old(rest))) ||
              (err.None? && Parse(env, old(rest)).Framed? && Parse(env, old(rest)).frames == frames)
    {
      ghost var start := rest;
      var b := Peek();
      if b == Some(0x5b) {
        err := TakeArray();
      } else if b == Some(0x7b) {
        base := 1;
        var _ := Take(0x7b);
        err := TakeMembers();
      } else {
        return Some(Malformed);
      }
      assert Outcome(err, frames, rest, Body(env, start));
      if err.None? {
        b := Peek();
        if b.Some? { err := Some(Malformed); }
      }
    }
  }

  /** Frames a feed's records: accepted and skipped together are exactly those of the
      document the bytes print, and other bytes are refused. */
  method ParseLimited(env: Env, input: Bytes)
    returns (err: Option<Error>, accepted: nat, skipped: nat, ghost frames: seq<Bytes>)
    requires Sound(env)
    ensures err.None? <==> exists all :: Prints(env, input, all)
    ensures err.None? ==> Prints(env, input, frames) && Parse(env, input).frames == frames
    ensures accepted == AcceptedIn(env.accepts, frames) && accepted + skipped == |frames|
    ensures err.Some? ==> Parse(env, input) == Failed(frames, err.value)
    ensures forall before, v, after :: PrintsAs(input, before, v, after) ==>
              DocumentEnd(env, v) == if err.None? then Took(frames) else Fell(frames, err.value)
  {
    var reader := new Reader(env, input);
    err := reader.Run();
    accepted, skipped, frames := reader.accepted, reader.skipped, reader.frames;
    FramesExactlyWhatWasPrinted(env, input, frames);
    if all :| Prints(env, input, all) { FramesExactlyWhatWasPrinted(env, input, all); }
    forall before, v, after | PrintsAs(input, before, v, after)
      ensures Parse(env, input) == AsFraming(DocumentEnd(env, v), after)
    {
      DocumentEnds(env, before, v, after);
    }
  }

  function AcceptedIn(accepts: Bytes -> bool, frames: seq<Bytes>): nat {
    if frames == [] then 0
    else AcceptedIn(accepts, frames[..|frames| - 1]) + if accepts(frames[|frames| - 1]) then 1 else 0
  }

  /** How a step ended, against what the parsing function says. */
  predicate Outcome(err: Option<Error>, frames: seq<Bytes>, rest: Bytes, r: Framing) {
    match r
    case Framed(all, more) => err.None? && frames == all && rest == more
    case Failed(all, error) => err == Some(error) && frames == all
  }
}
