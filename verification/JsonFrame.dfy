/** Framing the records of an Observatory feed: a JSON array of indicators, alone or as
    the `indicators` member of an object. */
module JsonFrame {
  import opened Octets
  import opened Options
  import opened JsonGrammar
  import opened JsonScan

  /** What the framer relies on: JSON validity, string decoding, the indicator schema and its caller. */
  datatype Env = Env(
    valid: Bytes -> bool,
    unquote: Bytes -> Bytes,
    accepts: Bytes -> bool,
    refuses: seq<Bytes> -> bool,
    maxRecords: nat)

  const INDICATORS: Bytes := [0x69, 0x6e, 0x64, 0x69, 0x63, 0x61, 0x74, 0x6f, 0x72, 0x73]

  /** The records framed, and what follows them or what went wrong. */
  datatype Framing = Framed(frames: seq<Bytes>, rest: Bytes) | Failed(frames: seq<Bytes>, error: Error)

  function SkipBlank(input: Bytes): (s: Bytes)
    ensures |s| <= |input|
    ensures s != [] ==> !IsBlank(s[0])
  {
    if input != [] && IsBlank(input[0]) then SkipBlank(input[1..]) else input
  }

  function Value(env: Env, base: nat, input: Bytes): (r: JsonScan.Framed)
    ensures r.Frame? ==> |r.rest| < |input| && r.raw != []
  {
    var s := SkipBlank(input);
    if s == [] then Refused(Malformed) else Scan(env.valid, base, TOP, [], s)
  }

  /** One element, counted before it is framed. */
  function Element(env: Env, base: nat, input: Bytes, frames: seq<Bytes>): (r: Framing)
    ensures r.Framed? ==> |r.rest| < |input|
  {
    if |frames| + 1 > env.maxRecords then Failed(frames, Limit)
    else
      match Value(env, base, input)
      case Refused(error) => Failed(frames, error)
      case Frame(raw, rest) =>
        if env.accepts(raw) && env.refuses(frames + [raw]) then Failed(frames + [raw], Rejected)
        else Framed(frames + [raw], rest)
  }

  /** Past the comma, where a closing bracket may not follow. */
  function AfterComma(s: Bytes, close: Byte): Option<Bytes> {
    if s == [] || s[0] != COMMA then None
    else
      var t := SkipBlank(s[1..]);
      if t == [] || t[0] == close then None else Some(t)
  }

  function Elements(env: Env, base: nat, input: Bytes, first: bool, frames: seq<Bytes>): (r: Framing)
    ensures r.Framed? ==> |r.rest| < |input|
    decreases |input|
  {
    var s := SkipBlank(input);
    if s == [] then Failed(frames, Malformed)
    else if s[0] == Closing(false) then Framed(frames, s[1..])
    else
      var t := if first then Some(s) else AfterComma(s, Closing(false));
      if t.None? then Failed(frames, Malformed)
      else
        var r := Element(env, base, t.value, frames);
        if r.Failed? then r else Elements(env, base, r.rest, false, r.frames)
  }

  function Array(env: Env, base: nat, input: Bytes): (r: Framing)
    ensures r.Framed? ==> |r.rest| < |input|
  {
    var s := SkipBlank(input);
    if s == [] || s[0] != Opening(false) then Failed([], Malformed) else Elements(env, base, s[1..], true, [])
  }

  /** A member's key and colon. */
  function MemberKey(env: Env, input: Bytes): (r: JsonScan.Framed)
    ensures r.Frame? ==> |r.rest| < |input| && r.raw != []
  {
    match Value(env, 1, input)
    case Refused(error) => Refused(error)
    case Frame(raw, rest) =>
      if raw[0] != QUOTE then Refused(Malformed)
      else
        var s := SkipBlank(rest);
        if s == [] || s[0] != COLON then Refused(Malformed) else Frame(raw, s[1..])
  }

  datatype Membered = Member(seen: Option<seq<Bytes>>, rest: Bytes) | Bad(frames: seq<Bytes>, error: Error)

  function FramesOf(seen: Option<seq<Bytes>>): seq<Bytes> {
    if seen.Some? then seen.value else []
  }

  function Member1(env: Env, input: Bytes, seen: Option<seq<Bytes>>): (r: Membered)
    ensures r.Member? ==> |r.rest| < |input|
  {
    match MemberKey(env, input)
    case Refused(error) => Bad(FramesOf(seen), error)
    case Frame(key, rest) =>
      if env.unquote(key) == INDICATORS then
        if seen.Some? then Bad(seen.value, Malformed)
        else
          match Array(env, 2, rest)
          case Failed(frames, error) => Bad(frames, error)
          case Framed(frames, more) => Member(Some(frames), more)
      else
        match Value(env, 1, rest)
        case Refused(error) => Bad(FramesOf(seen), error)
        case Frame(_, more) => Member(seen, more)
  }

  function Members(env: Env, input: Bytes, first: bool, seen: Option<seq<Bytes>>): (r: Framing)
    decreases |input|
  {
    var s := SkipBlank(input);
    if s == [] then Failed(FramesOf(seen), Malformed)
    else if s[0] == Closing(true) then if seen.None? then Failed([], Malformed) else Framed(seen.value, s[1..])
    else
      var t := if first then Some(s) else AfterComma(s, Closing(true));
      if t.None? then Failed(FramesOf(seen), Malformed)
      else
        match Member1(env, t.value, seen)
        case Bad(frames, error) => Failed(frames, error)
        case Member(now, rest) => Members(env, rest, false, now)
  }

  function Body(env: Env, input: Bytes): Framing {
    var s := SkipBlank(input);
    if s == [] then Failed([], Malformed)
    else if s[0] == Opening(false) then Array(env, 1, s)
    else if s[0] == Opening(true) then Members(env, s[1..], true, None)
    else Failed([], Malformed)
  }

  /** A whole feed; nothing but blanks may follow. */
  function Parse(env: Env, input: Bytes): Framing {
    var r := Body(env, input);
    if r.Framed? && SkipBlank(r.rest) != [] then Failed(r.frames, Malformed) else r
  }

  // ---------- documents within the limits ----------

  function Raws(items: Items): seq<Bytes> {
    if items.Nil? then [] else [Printed(items.value)] + Raws(items.rest)
  }

  ghost predicate ElementsFit(base: nat, items: Items) {
    items.Item? ==> Fits(base, items.value) && ElementsFit(base, items.rest)
  }

  /** The caller takes every one of these records, after those before them. */
  ghost predicate Taken(env: Env, frames: seq<Bytes>, more: seq<Bytes>)
    decreases |more|
  {
    more == [] ||
    (|frames| + 1 <= env.maxRecords && !(env.accepts(more[0]) && env.refuses(frames + [more[0]])) &&
      Taken(env, frames + [more[0]], more[1..]))
  }

  ghost predicate ArrayFits(env: Env, base: nat, v: Json) {
    v.Container? && !v.keyed && ElementsFit(base, v.items) && Taken(env, [], Raws(v.items))
  }

  predicate IsIndicators(env: Env, key: JsonGrammar.Key) {
    key.Key? && env.unquote(Quoted(key.body)) == INDICATORS
  }

  /** Every member within the limits, and at most one called indicators. */
  ghost predicate MembersFit(env: Env, items: Items, seen: bool) {
    items.Item? ==>
      && items.key.Key? && |Quoted(items.key.body)| <= MAX_VALUE
      && if IsIndicators(env, items.key) then
           !seen && ArrayFits(env, 2, items.value) && MembersFit(env, items.rest, true)
         else Fits(1, items.value) && MembersFit(env, items.rest, seen)
  }

  function SeenIn(env: Env, items: Items, seen: Option<seq<Bytes>>): Option<seq<Bytes>> {
    if items.Nil? then seen
    else SeenIn(env, items.rest, SeenNow(env, items, seen))
  }

  /** The document frames these records. */
  ghost predicate Frames(env: Env, v: Json, frames: seq<Bytes>) {
    v.Container? &&
    if v.keyed then MembersFit(env, v.items, false) && SeenIn(env, v.items, None) == Some(frames)
    else ArrayFits(env, 1, v) && frames == Raws(v.items)
  }

  /** The oracle for validity is the grammar. */
  ghost predicate Sound(env: Env) {
    forall s :: env.valid(s) <==> IsJson(s)
  }

  // ---------- framing what was printed ----------

  lemma {:induction false} SkipsBlank(blank: Bytes, s: Bytes)
    requires Blank(blank) && (s == [] || !IsBlank(s[0]))
    ensures SkipBlank(blank + s) == s
  {
    if blank == [] {
      assert blank + s == s;
    } else {
      assert (blank + s)[0] == blank[0] && (blank + s)[1..] == blank[1..] + s;
      SkipsBlank(blank[1..], s);
    }
  }

  lemma {:induction false} BlankSkipped(input: Bytes) returns (blank: Bytes)
    ensures Blank(blank) && input == blank + SkipBlank(input)
  {
    if input != [] && IsBlank(input[0]) {
      blank := BlankSkipped(input[1..]);
      blank := [input[0]] + blank;
    } else {
      blank := [];
    }
  }

  lemma PrintedIsJson(v: Json)
    requires WellFormed(v)
    ensures IsJson(Printed(v))
  {
    assert Blank([]) && Printed(v) == [] + Printed(v) + [];
  }

  lemma FirstByte(v: Json)
    requires WellFormed(v)
    ensures Printed(v) != [] && !IsBlank(Printed(v)[0]) && !Separates(Printed(v)[0]) && Printed(v)[0] != COLON
    ensures Printed(v)[0] == QUOTE <==> v.Text?
    ensures v.Container? ==> Printed(v)[0] == Opening(v.keyed)
    ensures !v.Container? ==> Printed(v)[0] != Opening(true) && Printed(v)[0] != Opening(false)
  {
  }

  lemma ValuePrinted(env: Env, base: nat, blank: Bytes, v: Json, rest: Bytes)
    requires Sound(env) && Blank(blank) && WellFormed(v) && Fits(base, v) && EndsBefore(v, rest)
    ensures Value(env, base, blank + Printed(v) + rest) == Frame(Printed(v), rest)
  {
    PrintedIsJson(v);
    FirstByte(v);
    assert blank + Printed(v) + rest == blank + (Printed(v) + rest);
    assert (Printed(v) + rest)[0] == Printed(v)[0];
    SkipsBlank(blank, Printed(v) + rest);
    ScanPrinted(env.valid, base, v, rest);
  }

  lemma LeadShows(b: Bytes, t: Bytes)
    requires Blank(b) && b + t != []
    ensures b == [] || IsBlank((b + t)[0])
  {
  }

  /** A JSON text that does not begin with a blank begins with its value. */
  lemma BeginsWithValue(raw: Bytes) returns (v: Json, after: Bytes)
    requires IsJson(raw) && raw != [] && !IsBlank(raw[0])
    ensures WellFormed(v) && Blank(after) && raw == Printed(v) + after
  {
    var b, w, a :| Blank(b) && WellFormed(w) && Blank(a) && raw == b + Printed(w) + a;
    v, after := w, a;
    assert raw == b + (Printed(w) + a);
    LeadShows(b, Printed(w) + a);
  }

  /** What was framed was just the value, and within the limits. */
  lemma FramedFits(env: Env, base: nat, v: Json, after: Bytes, rest: Bytes)
    requires Sound(env) && base <= MAX_DEPTH && WellFormed(v) && Blank(after)
    requires Scan(env.valid, base, TOP, [], Printed(v) + (after + rest)) == Frame(Printed(v) + after, rest)
    ensures Fits(base, v) && after == []
  {
    PrintedIsJson(v);
    if after != [] { assert (after + rest)[0] == after[0]; }
    if after != [] || !v.Plain? {
      ScanPrinted(env.valid, base, v, after + rest);
      assert |Printed(v) + after| == |Printed(v)| + |after|;
    }
  }

  /** The bytes framed are valid and do not begin with a blank. */
  lemma ValueFrames(env: Env, base: nat, input: Bytes) returns (before: Bytes)
    requires Sound(env) && Value(env, base, input).Frame?
    ensures var r := Value(env, base, input);
            && Blank(before) && input == before + (r.raw + r.rest) && r.raw != [] && !IsBlank(r.raw[0]) && IsJson(r.raw)
            && Scan(env.valid, base, TOP, [], r.raw + r.rest) == r
  {
    before := BlankSkipped(input);
    var r := Value(env, base, input);
    assert r.raw + r.rest == [] + SkipBlank(input) == SkipBlank(input);
    assert r.raw[0] == (r.raw + r.rest)[0];
  }

  lemma ScannedSound(env: Env, base: nat, raw: Bytes, rest: Bytes) returns (v: Json)
    requires Sound(env) && base <= MAX_DEPTH && raw != [] && !IsBlank(raw[0]) && IsJson(raw)
    requires Scan(env.valid, base, TOP, [], raw + rest) == Frame(raw, rest)
    ensures WellFormed(v) && raw == Printed(v) && Fits(base, v)
  {
    var after;
    v, after := BeginsWithValue(raw);
    Grouped(Printed(v), after, rest);
    FramedFits(env, base, v, after, rest);
    assert Printed(v) + [] == Printed(v);
  }

  /** Every framed value is the printing of a JSON value within the limits. */
  lemma ValueSound(env: Env, base: nat, input: Bytes) returns (before: Bytes, v: Json)
    requires Sound(env) && base <= MAX_DEPTH && Value(env, base, input).Frame?
    ensures var r := Value(env, base, input);
            && Blank(before) && WellFormed(v) && r.raw == Printed(v) && input == before + (Printed(v) + r.rest)
            && Fits(base, v)
  {
    before := ValueFrames(env, base, input);
    v := ScannedSound(env, base, Value(env, base, input).raw, Value(env, base, input).rest);
  }

  // ---------- printed documents are framed ----------

  /** What follows an item: the next one behind a comma, or nothing. */
  function Tail(items: Items): Bytes {
    if items.Nil? then [] else [COMMA] + PrintedItems(items)
  }

  /** Behind an item, the closing byte or a comma ends a scalar. */
  lemma EndsItem(v: Json, after: Bytes, items: Items, close: Byte, more: Bytes)
    requires Blank(after) && (close == Closing(false) || close == Closing(true))
    ensures EndsBefore(v, after + (Tail(items) + ([close] + more)))
  {
  }

  lemma ElementPrinted(env: Env, base: nat, blank: Bytes, v: Json, rest: Bytes, frames: seq<Bytes>, more: seq<Bytes>)
    requires Sound(env) && Blank(blank) && WellFormed(v) && Fits(base, v) && EndsBefore(v, rest)
    requires Taken(env, frames, [Printed(v)] + more)
    ensures Element(env, base, blank + Printed(v) + rest, frames) == Framed(frames + [Printed(v)], rest)
    ensures Taken(env, frames + [Printed(v)], more)
  {
    ValuePrinted(env, base, blank, v, rest);
    assert ([Printed(v)] + more)[1..] == more;
  }

  function ListTail(first: bool, items: Items): Bytes {
    if first then PrintedItems(items) else Tail(items)
  }

  /** The key and value of the first item. */
  function Head(items: Items): Bytes
    requires items.Item?
  {
    PrintedKey(items.key) + Printed(items.value)
  }

  /** Past its comma, if it has one, an item begins with its key or value. */
  function ItemAt(input: Bytes, first: bool, close: Byte): Option<Bytes> {
    var s := SkipBlank(input);
    if s == [] || s[0] == close then None else if first then Some(s) else AfterComma(s, close)
  }

  lemma HeadStarts(items: Items, keyed: bool, rest: Bytes)
    requires items.Item? && ItemsFormed(items, keyed)
    ensures Head(items) + rest != [] && !IsBlank((Head(items) + rest)[0]) && !Separates((Head(items) + rest)[0])
  {
  }

  lemma FirstStarts(blank: Bytes, before: Bytes, start: Bytes, close: Byte)
    requires Blank(blank) && Blank(before) && start != [] && !IsBlank(start[0]) && start[0] != close
    ensures ItemAt(blank + (before + start), true, close) == Some(start)
  {
    assert blank + (before + start) == (blank + before) + start;
    SkipsBlank(blank + before, start);
  }

  lemma NextStarts(blank: Bytes, before: Bytes, start: Bytes, close: Byte)
    requires Blank(blank) && Blank(before) && start != [] && !IsBlank(start[0]) && start[0] != close && close != COMMA
    ensures ItemAt(blank + ([COMMA] + (before + start)), false, close) == Some(start)
  {
    var s := [COMMA] + (before + start);
    SkipsBlank(blank, s);
    assert s[0] == COMMA && s[1..] == before + start;
    SkipsBlank(before, start);
  }

  lemma ItemStarts(keyed: bool, first: bool, blank: Bytes, items: Items, end: Bytes)
    requires Blank(blank) && items.Item? && ItemsFormed(items, keyed)
    ensures ItemAt(blank + (ListTail(first, items) + end), first, Closing(keyed)) ==
            Some(Head(items) + (items.after + (Tail(items.rest) + end)))
  {
    var start := Head(items) + (items.after + (Tail(items.rest) + end));
    HeadStarts(items, keyed, items.after + (Tail(items.rest) + end));
    PrintedFrom(items, end);
    if first {
      FirstStarts(blank, items.before, start, Closing(keyed));
    } else {
      NextStarts(blank, items.before, start, Closing(keyed));
      assert [COMMA] + PrintedItems(items) + end == [COMMA] + (PrintedItems(items) + end);
    }
  }

  lemma Regrouped(a: Bytes, b: Bytes, c: Bytes, d: Bytes, e: Bytes, end: Bytes)
    ensures a + b + c + d + e + end == a + ((b + c) + (d + (e + end)))
  {
  }

  lemma PrintedFrom(items: Items, end: Bytes)
    requires items.Item?
    ensures PrintedItems(items) + end == items.before + (Head(items) + (items.after + (Tail(items.rest) + end)))
  {
  }

  lemma NoMoreItems(first: bool, blank: Bytes, items: Items, close: Byte, more: Bytes)
    requires Blank(blank) && items.Nil? && !IsBlank(close)
    ensures SkipBlank(blank + (ListTail(first, items) + ([close] + more))) == [close] + more
    ensures ([close] + more)[1..] == more
  {
    assert ListTail(first, items) + ([close] + more) == [close] + more;
    SkipsBlank(blank, [close] + more);
  }

  lemma ElementsStep(env: Env, base: nat, input: Bytes, first: bool, frames: seq<Bytes>)
    requires ItemAt(input, first, Closing(false)).Some?
    ensures var r := Element(env, base, ItemAt(input, first, Closing(false)).value, frames);
            Elements(env, base, input, first, frames) == if r.Failed? then r
            else Elements(env, base, r.rest, false, r.frames)
  {
  }

  /** One element off the front. */
  lemma ElementsOne(env: Env, base: nat, first: bool, blank: Bytes, items: Items, more: Bytes, frames: seq<Bytes>)
    requires Sound(env) && Blank(blank) && items.Item? && ItemsFormed(items, false) && Fits(base, items.value)
    requires Taken(env, frames, Raws(items))
    ensures Elements(env, base, blank + (ListTail(first, items) + ([Closing(false)] + more)), first, frames) ==
            Elements(env, base, items.after + (Tail(items.rest) + ([Closing(false)] + more)), false,
                     frames + [Printed(items.value)])
    ensures Taken(env, frames + [Printed(items.value)], Raws(items.rest))
  {
    var end := [Closing(false)] + more;
    var input, rest := blank + (ListTail(first, items) + end), items.after + (Tail(items.rest) + end);
    ItemStarts(false, first, blank, items, end);
    EndsItem(items.value, items.after, items.rest, Closing(false), more);
    assert [] + Printed(items.value) + rest == Head(items) + rest;
    ElementPrinted(env, base, [], items.value, rest, frames, Raws(items.rest));
    ElementsStep(env, base, input, first, frames);
  }

  lemma ElementsNone(env: Env, base: nat, first: bool, blank: Bytes, items: Items, more: Bytes, frames: seq<Bytes>)
    requires Blank(blank) && items.Nil?
    ensures Elements(env, base, blank + (ListTail(first, items) + ([Closing(false)] + more)), first, frames) ==
            Framed(frames, more)
  {
    NoMoreItems(first, blank, items, Closing(false), more);
  }

  lemma RawsOf(frames: seq<Bytes>, items: Items)
    requires items.Item?
    ensures frames + Raws(items) == frames + [Printed(items.value)] + Raws(items.rest)
  {
  }

  /** The elements end here, or go on behind this one. */
  lemma {:induction false} ElementsPrinted(env: Env, base: nat, first: bool, blank: Bytes, items: Items, more: Bytes,
                                           frames: seq<Bytes>)
    requires Sound(env) && Blank(blank) && ItemsFormed(items, false) && ElementsFit(base, items)
    requires Taken(env, frames, Raws(items))
    ensures Elements(env, base, blank + (ListTail(first, items) + ([Closing(false)] + more)), first, frames) ==
            Framed(frames + Raws(items), more)
    decreases items
  {
    if items.Nil? {
      ElementsNone(env, base, first, blank, items, more, frames);
      assert frames + Raws(items) == frames;
    } else {
      ElementsOne(env, base, first, blank, items, more, frames);
      RawsOf(frames, items);
      ElementsPrinted(env, base, false, items.after, items.rest, more, frames + [Printed(items.value)]);
    }
  }

  lemma ArrayPrinted(env: Env, base: nat, blank: Bytes, v: Json, more: Bytes)
    requires Sound(env) && Blank(blank) && WellFormed(v) && ArrayFits(env, base, v)
    ensures Array(env, base, blank + Printed(v) + more) == Framed(Raws(v.items), more)
  {
    var inside := if v.items.Nil? then v.blank else [];
    var s := Printed(v) + more;
    ContainerPrinted(v, more);
    Grouped(blank, Printed(v), more);
    assert s[0] == Opening(false) && s[1..] == inside + (ListTail(true, v.items) + ([Closing(false)] + more));
    SkipsBlank(blank, s);
    ElementsPrinted(env, base, true, inside, v.items, more, []);
    assert [] + Raws(v.items) == Raws(v.items);
  }

  lemma KeyPrinted(env: Env, key: JsonGrammar.Key, rest: Bytes)
    requires Sound(env) && KeyFormed(key, true) && |Quoted(key.body)| <= MAX_VALUE
    ensures MemberKey(env, PrintedKey(key) + rest) == Frame(Quoted(key.body), key.colon + rest)
  {
    var after := key.after + ([COLON] + (key.colon + rest));
    var v := Text(key.body);
    Regrouped([], Quoted(key.body), key.after, [COLON], key.colon, rest);
    assert PrintedKey(key) + rest == [] + Printed(v) + after;
    ValuePrinted(env, 1, [], v, after);
    SkipsBlank(key.after, [COLON] + (key.colon + rest));
    assert ([COLON] + (key.colon + rest))[1..] == key.colon + rest;
  }

  /** Whether the indicators were seen, after one more member. */
  function SeenNow(env: Env, items: Items, seen: Option<seq<Bytes>>): Option<seq<Bytes>>
    requires items.Item?
  {
    if IsIndicators(env, items.key) && items.value.Container? then Some(Raws(items.value.items)) else seen
  }

  lemma MemberPrinted(env: Env, items: Items, rest: Bytes, seen: Option<seq<Bytes>>)
    requires Sound(env) && items.Item? && ItemsFormed(items, true) && MembersFit(env, items, seen.Some?)
    requires EndsBefore(items.value, rest)
    ensures Member1(env, Head(items) + rest, seen) == Member(SeenNow(env, items, seen), rest)
  {
    assert Head(items) + rest == PrintedKey(items.key) + (Printed(items.value) + rest);
    KeyPrinted(env, items.key, Printed(items.value) + rest);
    assert items.key.colon + (Printed(items.value) + rest) == items.key.colon + Printed(items.value) + rest;
    if IsIndicators(env, items.key) {
      ArrayPrinted(env, 2, items.key.colon, items.value, rest);
    } else {
      ValuePrinted(env, 1, items.key.colon, items.value, rest);
    }
  }

  lemma MembersStep(env: Env, input: Bytes, first: bool, seen: Option<seq<Bytes>>)
    requires ItemAt(input, first, Closing(true)).Some?
    ensures var r := Member1(env, ItemAt(input, first, Closing(true)).value, seen);
            Members(env, input, first, seen) == if r.Bad? then Failed(r.frames, r.error)
            else Members(env, r.rest, false, r.seen)
  {
  }

  lemma MembersOne(env: Env, first: bool, blank: Bytes, items: Items, more: Bytes, seen: Option<seq<Bytes>>)
    requires Sound(env) && Blank(blank) && items.Item? && ItemsFormed(items, true) && MembersFit(env, items, seen.Some?)
    ensures Members(env, blank + (ListTail(first, items) + ([Closing(true)] + more)), first, seen) ==
            Members(env, items.after + (Tail(items.rest) + ([Closing(true)] + more)), false, SeenNow(env, items, seen))
  {
    var end := [Closing(true)] + more;
    ItemStarts(true, first, blank, items, end);
    EndsItem(items.value, items.after, items.rest, Closing(true), more);
    MemberPrinted(env, items, items.after + (Tail(items.rest) + end), seen);
    MembersStep(env, blank + (ListTail(first, items) + end), first, seen);
  }

  /** How the members end: with the indicators' records, or malformed without them. */
  function Ending(seen: Option<seq<Bytes>>, more: Bytes): Framing {
    if seen.None? then Failed([], Malformed) else Framed(seen.value, more)
  }

  lemma MembersNone(env: Env, first: bool, blank: Bytes, items: Items, more: Bytes, seen: Option<seq<Bytes>>)
    requires Blank(blank) && items.Nil?
    ensures Members(env, blank + (ListTail(first, items) + ([Closing(true)] + more)), first, seen) == Ending(seen, more)
  {
    NoMoreItems(first, blank, items, Closing(true), more);
  }

  lemma {:induction false} MembersPrinted(env: Env, first: bool, blank: Bytes, items: Items, more: Bytes,
                                          seen: Option<seq<Bytes>>)
    requires Sound(env) && Blank(blank) && ItemsFormed(items, true) && MembersFit(env, items, seen.Some?)
    ensures Members(env, blank + (ListTail(first, items) + ([Closing(true)] + more)), first, seen) ==
            Ending(SeenIn(env, items, seen), more)
    decreases items
  {
    if items.Nil? {
      MembersNone(env, first, blank, items, more, seen);
    } else {
      MembersOne(env, first, blank, items, more, seen);
      MembersPrinted(env, false, items.after, items.rest, more, SeenNow(env, items, seen));
    }
  }

  /** The bytes inside a container, behind its opening byte. */
  lemma ContainerPrinted(v: Json, more: Bytes)
    requires v.Container?
    ensures var inside := if v.items.Nil? then v.blank else [];
            Printed(v) + more == [Opening(v.keyed)] + (inside + (ListTail(true, v.items) + ([Closing(v.keyed)] + more)))
  {
  }

  lemma ObjectPrinted(env: Env, v: Json, more: Bytes)
    requires Sound(env) && v.Container? && v.keyed && WellFormed(v) && MembersFit(env, v.items, false)
    ensures Body(env, Printed(v) + more) == Ending(SeenIn(env, v.items, None), more)
  {
    var inside := if v.items.Nil? then v.blank else [];
    var s := Printed(v) + more;
    ContainerPrinted(v, more);
    assert s[0] == Opening(true) && s[1..] == inside + (ListTail(true, v.items) + ([Closing(true)] + more));
    MembersPrinted(env, true, inside, v.items, more, None);
  }

  lemma {:induction false} BodySkips(env: Env, blank: Bytes, s: Bytes)
    requires Blank(blank) && s != [] && !IsBlank(s[0])
    ensures Body(env, blank + s) == Body(env, s)
  {
    SkipsBlank(blank, s);
    SkipsBlank([], s);
    assert [] + s == s;
  }

  lemma ListPrinted(env: Env, v: Json, more: Bytes)
    requires Sound(env) && WellFormed(v) && ArrayFits(env, 1, v)
    ensures Body(env, Printed(v) + more) == Framed(Raws(v.items), more)
  {
    var s := Printed(v) + more;
    FirstByte(v);
    assert s[0] == Printed(v)[0];
    assert SkipBlank(s) == s;
    ArrayPrinted(env, 1, [], v, more);
    assert [] + Printed(v) + more == s;
  }

  lemma BodyPrinted(env: Env, before: Bytes, v: Json, after: Bytes, frames: seq<Bytes>)
    requires Sound(env) && Blank(before) && WellFormed(v) && Frames(env, v, frames)
    ensures Body(env, before + (Printed(v) + after)) == Framed(frames, after)
  {
    FirstByte(v);
    assert (Printed(v) + after)[0] == Printed(v)[0];
    BodySkips(env, before, Printed(v) + after);
    if v.keyed { ObjectPrinted(env, v, after); } else { ListPrinted(env, v, after); }
  }

  /** Printing and then framing gives the records back, in order. */
  lemma DocumentPrinted(env: Env, before: Bytes, v: Json, after: Bytes, frames: seq<Bytes>)
    requires Sound(env) && Blank(before) && WellFormed(v) && Blank(after) && Frames(env, v, frames)
    ensures Parse(env, before + Printed(v) + after) == Framed(frames, after)
  {
    assert before + Printed(v) + after == before + (Printed(v) + after);
    BodyPrinted(env, before, v, after, frames);
    SkipsBlank(after, []);
    assert after + [] == after;
  }

  // ---------- everything framed was printed ----------

  lemma AfterCommaSound(input: Bytes, first: bool, close: Byte) returns (blank: Bytes, before: Bytes)
    requires ItemAt(input, first, close).Some?
    ensures Blank(blank) && Blank(before)
    ensures var t := ItemAt(input, first, close).value;
            t != [] && t[0] != close && !IsBlank(t[0]) &&
            input == blank + ((if first then [] else [COMMA]) + (before + t))
    ensures first ==> blank == []
  {
    var s := SkipBlank(input);
    if first {
      blank := [];
      before := BlankSkipped(input);
    } else {
      blank := BlankSkipped(input);
      before := BlankSkipped(s[1..]);
      assert s == [COMMA] + s[1..];
    }
  }

  lemma ElementSound(env: Env, base: nat, input: Bytes, frames: seq<Bytes>) returns (before: Bytes, v: Json)
    requires Sound(env) && base <= MAX_DEPTH && Element(env, base, input, frames).Framed?
    ensures var r := Element(env, base, input, frames);
            && Blank(before) && WellFormed(v) && Fits(base, v) && input == before + (Printed(v) + r.rest)
            && r.frames == frames + [Printed(v)]
    ensures |frames| + 1 <= env.maxRecords && !(env.accepts(Printed(v)) && env.refuses(frames + [Printed(v)]))
  {
    before, v := ValueSound(env, base, input);
  }

  /** The bytes of a list whose first item is this one. */
  lemma ItemPrinted(first: bool, blank: Bytes, before: Bytes, lead: Bytes, key: JsonGrammar.Key, v: Json, after: Bytes,
                    items: Items, end: Bytes)
    returns (list: Items)
    ensures list == Item(before + lead, key, v, after, items)
    ensures blank + ((if first then [] else [COMMA]) +
                     (before + (lead + (PrintedKey(key) + (Printed(v) + (after + (Tail(items) + end))))))) ==
            blank + (ListTail(first, list) + end)
  {
    list := Item(before + lead, key, v, after, items);
    PrintedFrom(list, end);
    Nested(before, lead, PrintedKey(key), Printed(v), after + (Tail(items) + end));
    Grouped([COMMA], PrintedItems(list), end);
  }

  lemma Nested(a: Bytes, b: Bytes, c: Bytes, d: Bytes, e: Bytes)
    ensures a + (b + (c + (d + e))) == (a + b) + ((c + d) + e)
  {
  }

  lemma Grouped(a: Bytes, b: Bytes, c: Bytes)
    ensures a + b + c == a + (b + c)
  {
  }

  lemma ListEnds(input: Bytes, first: bool, close: Byte) returns (blank: Bytes)
    requires var s := SkipBlank(input); s != [] && s[0] == close
    ensures Blank(blank) && input == blank + (ListTail(first, Nil) + ([close] + SkipBlank(input)[1..]))
  {
    blank := BlankSkipped(input);
    assert [] + ([close] + SkipBlank(input)[1..]) == SkipBlank(input);
  }

  lemma {:induction false} ElementsSound(env: Env, base: nat, input: Bytes, first: bool, frames: seq<Bytes>)
    returns (blank: Bytes, items: Items)
    requires Sound(env) && base <= MAX_DEPTH && Elements(env, base, input, first, frames).Framed?
    ensures var r := Elements(env, base, input, first, frames);
            && Blank(blank) && ItemsFormed(items, false) && ElementsFit(base, items) && Taken(env, frames, Raws(items))
            && r.frames == frames + Raws(items)
            && input == blank + (ListTail(first, items) + ([Closing(false)] + r.rest))
    ensures first && items.Item? ==> blank == []
    decreases |input|
  {
    var r := Elements(env, base, input, first, frames);
    if SkipBlank(input)[0] == Closing(false) {
      blank := ListEnds(input, first, Closing(false));
      items := Nil;
      assert frames + [] == frames;
    } else {
      var before, lead, v, after, rest;
      blank, before := AfterCommaSound(input, first, Closing(false));
      var t := ItemAt(input, first, Closing(false)).value;
      ElementsStep(env, base, input, first, frames);
      lead, v := ElementSound(env, base, t, frames);
      var one := Element(env, base, t, frames);
      after, rest := ElementsSound(env, base, one.rest, false, one.frames);
      items := ItemPrinted(first, blank, before, lead, NoKey, v, after, rest, [Closing(false)] + r.rest);
      assert PrintedKey(NoKey) + (Printed(v) + one.rest) == Printed(v) + one.rest;
      assert Raws(items)[1..] == Raws(rest);
      RawsOf(frames, items);
    }
  }

  /** An opening bracket and what the list behind it was framed as. */
  lemma ListIsPrinted(v: Json, s: Bytes, rest: Bytes)
    requires v.Container? && (v.items.Item? ==> v.blank == []) && s != [] && s[0] == Opening(v.keyed)
    requires s[1..] == v.blank + (ListTail(true, v.items) + ([Closing(v.keyed)] + rest))
    ensures s == Printed(v) + rest
  {
    ContainerPrinted(v, rest);
    assert s == [s[0]] + s[1..];
  }

  lemma ArraySound(env: Env, base: nat, input: Bytes) returns (before: Bytes, v: Json)
    requires Sound(env) && base <= MAX_DEPTH && Array(env, base, input).Framed?
    ensures var r := Array(env, base, input);
            && Blank(before) && WellFormed(v) && ArrayFits(env, base, v) && r.frames == Raws(v.items)
            && input == before + (Printed(v) + r.rest)
  {
    before := BlankSkipped(input);
    var s := SkipBlank(input);
    var blank, items := ElementsSound(env, base, s[1..], true, []);
    v := Container(false, blank, items);
    ListIsPrinted(v, s, Array(env, base, input).rest);
  }

  lemma TextIsQuoted(v: Json)
    requires WellFormed(v)
    ensures Printed(v) != []
    ensures Printed(v)[0] == QUOTE ==> v.Text? && Printed(v) == Quoted(v.body) && Characters(v.body)
  {
    FirstByte(v);
  }

  lemma MemberKeySound(env: Env, input: Bytes) returns (lead: Bytes, body: Bytes, after: Bytes)
    requires Sound(env) && MemberKey(env, input).Frame?
    ensures var r := MemberKey(env, input);
            && Blank(lead) && Characters(body) && Blank(after) && r.raw == Quoted(body) && |Quoted(body)| <= MAX_VALUE
            && input == lead + (Quoted(body) + (after + ([COLON] + r.rest)))
  {
    var v;
    lead, v := ValueSound(env, 1, input);
    TextIsQuoted(v);
    body := v.body;
    after := BlankSkipped(Value(env, 1, input).rest);
    KeyParts(env, input);
  }

  lemma KeyParts(env: Env, input: Bytes)
    requires MemberKey(env, input).Frame?
    ensures Value(env, 1, input).Frame? && Value(env, 1, input).raw == MemberKey(env, input).raw
    ensures MemberKey(env, input).raw[0] == QUOTE
    ensures SkipBlank(Value(env, 1, input).rest) == [COLON] + MemberKey(env, input).rest
  {
    var s := SkipBlank(Value(env, 1, input).rest);
    assert s == [s[0]] + s[1..];
  }

  lemma KeyJoined(body: Bytes, after: Bytes, colon: Bytes, rest: Bytes)
    ensures Quoted(body) + (after + ([COLON] + (colon + rest))) == PrintedKey(Key(body, after, colon)) + rest
  {
  }

  lemma MemberSound(env: Env, input: Bytes, seen: Option<seq<Bytes>>)
    returns (lead: Bytes, key: JsonGrammar.Key, v: Json)
    requires Sound(env) && Member1(env, input, seen).Member?
    ensures var r := Member1(env, input, seen);
            && Blank(lead) && KeyFormed(key, true) && |Quoted(key.body)| <= MAX_VALUE && WellFormed(v)
            && input == lead + (PrintedKey(key) + (Printed(v) + r.rest))
            && if IsIndicators(env, key) then seen.None? && ArrayFits(env, 2, v) && r.seen == Some(Raws(v.items))
               else Fits(1, v) && r.seen == seen
  {
    var body, after, colon;
    lead, body, after := MemberKeySound(env, input);
    var r := MemberKey(env, input);
    if env.unquote(r.raw) == INDICATORS {
      colon, v := ArraySound(env, 2, r.rest);
    } else {
      colon, v := ValueSound(env, 1, r.rest);
    }
    key := Key(body, after, colon);
    KeyJoined(body, after, colon, Printed(v) + Member1(env, input, seen).rest);
  }

  lemma {:induction false} MembersSound(env: Env, input: Bytes, first: bool, seen: Option<seq<Bytes>>)
    returns (blank: Bytes, items: Items)
    requires Sound(env) && Members(env, input, first, seen).Framed?
    ensures var r := Members(env, input, first, seen);
            && Blank(blank) && ItemsFormed(items, true) && MembersFit(env, items, seen.Some?)
            && SeenIn(env, items, seen) == Some(r.frames)
            && input == blank + (ListTail(first, items) + ([Closing(true)] + r.rest))
    ensures first && items.Item? ==> blank == []
    decreases |input|
  {
    var r := Members(env, input, first, seen);
    if SkipBlank(input)[0] == Closing(true) {
      blank := ListEnds(input, first, Closing(true));
      items := Nil;
    } else {
      var before, lead, key, v, after, rest;
      blank, before := AfterCommaSound(input, first, Closing(true));
      var t := ItemAt(input, first, Closing(true)).value;
      MembersStep(env, input, first, seen);
      lead, key, v := MemberSound(env, t, seen);
      var one := Member1(env, t, seen);
      after, rest := MembersSound(env, one.rest, false, one.seen);
      items := ItemPrinted(first, blank, before, lead, key, v, after, rest, [Closing(true)] + r.rest);
    }
  }

  lemma BodySound(env: Env, input: Bytes) returns (before: Bytes, v: Json)
    requires Sound(env) && Body(env, input).Framed?
    ensures var r := Body(env, input);
            Blank(before) && WellFormed(v) && Frames(env, v, r.frames) && input == before + (Printed(v) + r.rest)
  {
    before := BlankSkipped(input);
    var s := SkipBlank(input);
    if s[0] == Opening(false) {
      var none;
      none, v := ArraySound(env, 1, s);
      LeadShows(none, Printed(v) + Body(env, input).rest);
    } else {
      var blank, items := MembersSound(env, s[1..], true, None);
      v := Container(true, blank, items);
      ListIsPrinted(v, s, Body(env, input).rest);
    }
  }

  /** A document within the limits that prints to these bytes and frames these records. */
  ghost predicate Prints(env: Env, input: Bytes, frames: seq<Bytes>) {
    exists before, v, after ::
      Blank(before) && WellFormed(v) && Blank(after) && Frames(env, v, frames) && input == before + Printed(v) + after
  }

  /** Framing inverts printing: records are framed exactly when the bytes are the printing,
      with any blanks, of a document within the limits that holds just those records. */
  lemma FramesExactlyWhatWasPrinted(env: Env, input: Bytes, frames: seq<Bytes>)
    requires Sound(env)
    ensures Parse(env, input).Framed? && Parse(env, input).frames == frames <==> Prints(env, input, frames)
  {
    if Parse(env, input).Framed? && Parse(env, input).frames == frames {
      var before, v := BodySound(env, input);
      var after := BlankSkipped(Body(env, input).rest);
      assert Body(env, input).rest == after + [] == after;
      assert before + (Printed(v) + after) == before + Printed(v) + after;
    }
    if Prints(env, input, frames) {
      var before, v, after :|
        Blank(before) && WellFormed(v) && Blank(after) && Frames(env, v, frames) &&
        input == before + Printed(v) + after;
      DocumentPrinted(env, before, v, after, frames);
    }
  }
}
