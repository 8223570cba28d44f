/** Framing one JSON value without decoding it: a scan that tracks nesting and quotes. */
module JsonScan {
  import opened Octets
  import opened JsonGrammar

  const MAX_VALUE: nat := 0x10_0000
  const MAX_DEPTH: nat := 64

  datatype Error = Limit | Malformed | Rejected

  datatype Framed = Frame(raw: Bytes, rest: Bytes) | Refused(error: Error)

  /** Where the scan is: how many containers deep, and whether inside a string. */
  datatype Place = Place(depth: nat, quoted: bool, escape: bool)

  const TOP := Place(0, false, false)

  predicate Separates(b: Byte) {
    b == COMMA || b == 0x5d || b == 0x7d || IsBlank(b)
  }

  function Checked(valid: Bytes -> bool, raw: Bytes, rest: Bytes): Framed {
    if valid(raw) then Frame(raw, rest) else Refused(Malformed)
  }

  /** What one more byte does. */
  datatype Move = Go(place: Place) | Done | Stop(error: Error)

  function Moved(at: Place, base: nat, b: Byte): Move {
    if at.quoted then
      if at.escape then Go(at.(escape := false))
      else if b == BACKSLASH then Go(at.(escape := true))
      else if b == QUOTE then if at.depth == 0 then Done else Go(at.(quoted := false))
      else Go(at)
    else if b == QUOTE then Go(at.(quoted := true))
    else if b == 0x5b || b == 0x7b then
      if at.depth + 1 + base > MAX_DEPTH then Stop(Limit) else Go(at.(depth := at.depth + 1))
    else if b == 0x5d || b == 0x7d then
      if at.depth == 0 then Stop(Malformed) else if at.depth == 1 then Done else Go(at.(depth := at.depth - 1))
    else Go(at)
  }

  function Scan(valid: Bytes -> bool, base: nat, at: Place, out: Bytes, input: Bytes): (r: Framed)
    ensures r.Frame? ==> r.raw + r.rest == out + input && valid(r.raw)
    ensures r.Frame? ==> |r.rest| <= |input| && (out == [] && input != [] ==> |r.rest| < |input|)
    ensures r.Frame? && |out| <= MAX_VALUE ==> |r.raw| <= MAX_VALUE
    decreases |input|
  {
    if input == [] then Checked(valid, out, input)
    else if !at.quoted && at.depth == 0 && out != [] && Separates(input[0]) then Checked(valid, out, input)
    else if |out| >= MAX_VALUE then Refused(Limit)
    else
      var next := out + [input[0]];
      match Moved(at, base, input[0])
      case Stop(error) => Refused(error)
      case Done => Checked(valid, next, input[1..])
      case Go(place) => Scan(valid, base, place, next, input[1..])
  }

  // ---------- scanning what was printed ----------

  /** The place after some bytes inside a container or string, if nothing ends or refuses there. */
  function Walk(at: Place, base: nat, s: Bytes): Move
    decreases |s|
  {
    if s == [] then Go(at)
    else
      match Moved(at, base, s[0])
      case Go(place) => Walk(place, base, s[1..])
      case other => other
  }

  /** Inside a container or string nothing separates: only the size and the moves matter. */
  predicate Within(at: Place) {
    at.quoted || at.depth > 0
  }

  lemma {:induction false} WalkJoin(at: Place, base: nat, s: Bytes, t: Bytes)
    ensures Walk(at, base, s + t) ==
            if Walk(at, base, s).Go? then Walk(Walk(at, base, s).place, base, t) else Walk(at, base, s)
    decreases |s|
  {
    if s == [] {
      assert s + t == t;
    } else {
      assert (s + t)[0] == s[0] && (s + t)[1..] == s[1..] + t;
      var m := Moved(at, base, s[0]);
      if m.Go? { WalkJoin(m.place, base, s[1..], t); }
    }
  }

  /** Ordinary bytes change nothing outside strings. */
  lemma {:induction false} WalkOver(at: Place, base: nat, s: Bytes)
    requires !at.quoted
    requires forall i :: 0 <= i < |s| ==>
               IsBlank(s[i]) || Ordinary(s[i]) || s[i] == COMMA || s[i] == COLON
    ensures Walk(at, base, s) == Go(at)
    decreases |s|
  {
    if s != [] { WalkOver(at, base, s[1..]); }
  }

  /** The inside of a string leaves the scan inside the string. */
  lemma {:induction false} WalkCharacters(at: Place, base: nat, s: Bytes)
    requires at.quoted && !at.escape && Characters(s)
    ensures Walk(at, base, s) == Go(at)
    decreases |s|
  {
    if s == [] {
    } else if s[0] == BACKSLASH {
      var escaped := at.(escape := true);
      assert Walk(at, base, s) == Walk(escaped, base, s[1..]);
      assert Walk(escaped, base, s[1..]) == Walk(at, base, s[1..][1..]) && s[1..][1..] == s[2..];
      if |s| >= 2 && Escapable(s[1]) {
        WalkCharacters(at, base, s[2..]);
      } else {
        var hex, more := s[2..6], s[6..];
        assert s[2..] == hex + more;
        WalkHex(at, base, hex);
        WalkJoin(at, base, hex, more);
        WalkCharacters(at, base, more);
      }
    } else {
      WalkCharacters(at, base, s[1..]);
    }
  }

  lemma {:induction false} WalkHex(at: Place, base: nat, s: Bytes)
    requires at.quoted && !at.escape && forall i :: 0 <= i < |s| ==> IsHex(s[i])
    ensures Walk(at, base, s) == Go(at)
    decreases |s|
  {
    if s != [] { WalkHex(at, base, s[1..]); }
  }

  lemma WalkQuoted(at: Place, base: nat, body: Bytes)
    requires at.depth > 0 && !at.quoted && !at.escape && Characters(body)
    ensures Walk(at, base, Quoted(body)) == Go(at)
  {
    var inside := at.(quoted := true);
    assert Quoted(body)[1..] == body + [QUOTE];
    assert Walk(at, base, Quoted(body)) == Walk(inside, base, body + [QUOTE]);
    WalkCharacters(inside, base, body);
    WalkJoin(inside, base, body, [QUOTE]);
    assert Walk(inside, base, [QUOTE]) == Walk(at, base, []);
  }

  lemma WalkKey(at: Place, base: nat, key: JsonGrammar.Key, keyed: bool)
    requires at.depth > 0 && !at.quoted && !at.escape && KeyFormed(key, keyed)
    ensures Walk(at, base, PrintedKey(key)) == Go(at)
  {
    if keyed {
      WalkQuoted(at, base, key.body);
      WalkOver(at, base, key.after);
      WalkOver(at, base, [COLON]);
      WalkOver(at, base, key.colon);
      WalkJoin(at, base, Quoted(key.body), key.after);
      WalkJoin(at, base, Quoted(key.body) + key.after, [COLON]);
      WalkJoin(at, base, Quoted(key.body) + key.after + [COLON], key.colon);
    }
  }

  /** A nested value leaves the scan where it was, exactly when it is not too deep. */
  lemma {:induction false} WalkValue(at: Place, base: nat, v: Json)
    requires at.depth > 0 && !at.quoted && !at.escape && WellFormed(v) && at.depth + base <= MAX_DEPTH
    ensures Walk(at, base, Printed(v)) == if at.depth + Depth(v) + base <= MAX_DEPTH then Go(at) else Stop(Limit)
    decreases v, 0
  {
    match v
    case Plain(text) =>
      ScalarsAreOrdinary(text);
      WalkOver(at, base, text);
    case Text(body) =>
      WalkQuoted(at, base, body);
    case Container(keyed, blank, items) =>
      var s := Printed(v);
      assert s == [Opening(keyed)] + (Inside(blank, items) + [Closing(keyed)]);
      assert s[0] == Opening(keyed) && s[1..] == Inside(blank, items) + [Closing(keyed)];
      if at.depth + 1 + base <= MAX_DEPTH {
        var inner := at.(depth := at.depth + 1);
        assert Walk(at, base, s) == Walk(inner, base, s[1..]);
        WalkInside(inner, base, keyed, blank, items);
        WalkJoin(inner, base, Inside(blank, items), [Closing(keyed)]);
        assert Walk(inner, base, [Closing(keyed)]) == Walk(at, base, []);
      }
  }

  lemma {:induction false} WalkInside(at: Place, base: nat, keyed: bool, blank: Bytes, items: Items)
    requires at.depth > 0 && !at.quoted && !at.escape && Blank(blank) && ItemsFormed(items, keyed)
    requires at.depth + base <= MAX_DEPTH
    ensures Walk(at, base, Inside(blank, items)) ==
            if at.depth + Deepest(items) + base <= MAX_DEPTH then Go(at) else Stop(Limit)
    decreases items, 1
  {
    if items.Nil? { WalkOver(at, base, blank); } else { WalkItems(at, base, keyed, items); }
  }

  lemma {:induction false} WalkItems(at: Place, base: nat, keyed: bool, items: Items)
    requires at.depth > 0 && !at.quoted && !at.escape && ItemsFormed(items, keyed) && at.depth + base <= MAX_DEPTH
    ensures Walk(at, base, PrintedItems(items)) ==
            if at.depth + Deepest(items) + base <= MAX_DEPTH then Go(at) else Stop(Limit)
    decreases items, 0
  {
    match items
    case Nil =>
    case Item(before, key, value, after, rest) =>
      var lead := before + PrintedKey(key);
      WalkOver(at, base, before);
      WalkKey(at, base, key, keyed);
      WalkJoin(at, base, before, PrintedKey(key));
      WalkValue(at, base, value);
      WalkJoin(at, base, lead, Printed(value));
      WalkOver(at, base, after);
      WalkJoin(at, base, lead + Printed(value), after);
      var tail := if rest.Nil? then [] else [COMMA] + PrintedItems(rest);
      WalkJoin(at, base, lead + Printed(value) + after, tail);
      if !rest.Nil? {
        WalkItems(at, base, keyed, rest);
        WalkOver(at, base, [COMMA]);
        WalkJoin(at, base, [COMMA], PrintedItems(rest));
      }
  }

  // ---------- walking and scanning ----------

  lemma {:induction false} ScanThrough(valid: Bytes -> bool, base: nat, at: Place, out: Bytes, s: Bytes, more: Bytes)
    requires Within(at) && Walk(at, base, s).Go? && |out| <= MAX_VALUE
    ensures Within(Walk(at, base, s).place)
    ensures Scan(valid, base, at, out, s + more) ==
            if |out| + |s| <= MAX_VALUE then Scan(valid, base, Walk(at, base, s).place, out + s, more)
            else Refused(Limit)
    decreases |s|
  {
    if s == [] {
      assert s + more == more && out + s == out;
    } else {
      assert (s + more)[0] == s[0] && (s + more)[1..] == s[1..] + more;
      if |out| < MAX_VALUE {
        var next := out + [s[0]];
        ScanThrough(valid, base, Moved(at, base, s[0]).place, next, s[1..], more);
        assert next + s[1..] == out + s;
      } else {
        var m := Moved(at, base, s[0]);
        StaysWithin(m.place, base, s[1..]);
      }
    }
  }

  lemma {:induction false} StaysWithin(at: Place, base: nat, s: Bytes)
    requires Within(at) && Walk(at, base, s).Go?
    ensures Within(Walk(at, base, s).place)
    decreases |s|
  {
    if s != [] { StaysWithin(Moved(at, base, s[0]).place, base, s[1..]); }
  }

  lemma {:induction false} ScanStops(valid: Bytes -> bool, base: nat, at: Place, out: Bytes, s: Bytes, more: Bytes)
    requires Within(at) && Walk(at, base, s) == Stop(Limit)
    ensures Scan(valid, base, at, out, s + more) == Refused(Limit)
    decreases |s|
  {
    assert (s + more)[0] == s[0] && (s + more)[1..] == s[1..] + more;
    if |out| < MAX_VALUE && Moved(at, base, s[0]).Go? {
      ScanStops(valid, base, Moved(at, base, s[0]).place, out + [s[0]], s[1..], more);
    }
  }

  /** A value is framed when its text and its nesting are within the limits. */
  predicate Fits(base: nat, v: Json) {
    |Printed(v)| <= MAX_VALUE && Depth(v) + base <= MAX_DEPTH
  }

  /** What follows ends a scalar; strings and containers end themselves. */
  predicate EndsBefore(v: Json, rest: Bytes) {
    v.Plain? ==> rest == [] || Separates(rest[0])
  }

  lemma {:induction false} ScanPlain(valid: Bytes -> bool, base: nat, out: Bytes, s: Bytes, rest: Bytes)
    requires out + s != [] && (forall i :: 0 <= i < |s| ==> Ordinary(s[i])) && |out| <= MAX_VALUE
    requires valid(out + s) && (rest == [] || Separates(rest[0]))
    ensures Scan(valid, base, TOP, out, s + rest) ==
            if |out + s| <= MAX_VALUE then Frame(out + s, rest) else Refused(Limit)
    decreases |s|
  {
    if s == [] {
      assert s + rest == rest && out + s == out;
    } else {
      assert (s + rest)[0] == s[0] && (s + rest)[1..] == s[1..] + rest;
      if |out| < MAX_VALUE {
        assert out + [s[0]] + s[1..] == out + s;
        ScanPlain(valid, base, out + [s[0]], s[1..], rest);
      }
    }
  }

  lemma ScanText(valid: Bytes -> bool, base: nat, body: Bytes, rest: Bytes)
    requires Characters(body) && valid(Quoted(body))
    ensures Scan(valid, base, TOP, [], Quoted(body) + rest) ==
            if |Quoted(body)| <= MAX_VALUE then Frame(Quoted(body), rest) else Refused(Limit)
  {
    var inside := TOP.(quoted := true);
    var input := Quoted(body) + rest;
    assert input[0] == QUOTE && input[1..] == body + ([QUOTE] + rest);
    assert [] + [QUOTE] == [QUOTE];
    WalkCharacters(inside, base, body);
    ScanThrough(valid, base, inside, [QUOTE], body, [QUOTE] + rest);
    assert ([QUOTE] + rest)[1..] == rest;
    assert [QUOTE] + body + [QUOTE] == Quoted(body);
  }

  lemma ScanContainer(valid: Bytes -> bool, base: nat, v: Json, rest: Bytes)
    requires v.Container? && WellFormed(v) && valid(Printed(v)) && base <= MAX_DEPTH
    ensures Scan(valid, base, TOP, [], Printed(v) + rest) ==
            if Fits(base, v) then Frame(Printed(v), rest) else Refused(Limit)
  {
    var inner := Place(1, false, false);
    var open, inside, close := [Opening(v.keyed)], Inside(v.blank, v.items), [Closing(v.keyed)];
    var input := Printed(v) + rest;
    assert input[0] == open[0] && input[1..] == inside + (close + rest);
    assert [] + open == open;
    if 1 + base <= MAX_DEPTH {
      WalkInside(inner, base, v.keyed, v.blank, v.items);
      if Depth(v) + base <= MAX_DEPTH {
        ScanThrough(valid, base, inner, open, inside, close + rest);
        assert (close + rest)[1..] == rest;
        assert open + inside + close == Printed(v);
      } else {
        ScanStops(valid, base, inner, open, inside, close + rest);
      }
    }
  }

  /** The scan frames exactly the printed value, or refuses it for its size or nesting. */
  lemma ScanPrinted(valid: Bytes -> bool, base: nat, v: Json, rest: Bytes)
    requires WellFormed(v) && valid(Printed(v)) && base <= MAX_DEPTH && EndsBefore(v, rest)
    ensures Scan(valid, base, TOP, [], Printed(v) + rest) ==
            if Fits(base, v) then Frame(Printed(v), rest) else Refused(Limit)
  {
    match v
    case Plain(text) =>
      ScalarsAreOrdinary(text);
      assert [] + text == text;
      ScanPlain(valid, base, [], text, rest);
    case Text(body) => ScanText(valid, base, body, rest);
    case Container(_, _, _) => ScanContainer(valid, base, v, rest);
  }
}
