/** How every JSON document ends when it is framed as a feed: with its records, or with the first thing wrong. */
module JsonEnding {
  import opened Octets
  import opened Options
  import opened JsonGrammar
  import opened JsonScan
  import opened JsonFrame

  /** The records taken, and what was wrong with the next thing, if anything was. */
  datatype End = Took(frames: seq<Bytes>) | Fell(frames: seq<Bytes>, error: Error)

  /** A list: the record limit, a record's own limits, or a record its caller does not take. */
  ghost function ListEnd(env: Env, base: nat, frames: seq<Bytes>, items: Items): End
    decreases items
  {
    if items.Nil? then Took(frames)
    else
      var raw := Printed(items.value);
      if |frames| + 1 > env.maxRecords || !Fits(base, items.value) then Fell(frames, Limit)
      else if env.accepts(raw) && env.refuses(frames + [raw]) then Fell(frames + [raw], Rejected)
      else ListEnd(env, base, frames + [raw], items.rest)
  }

  /** The value of the indicators must be a list. */
  ghost function IndicatorsEnd(env: Env, base: nat, v: Json): End {
    if v.Container? && !v.keyed then ListEnd(env, base, [], v.items) else Fell([], Malformed)
  }

  /** An object: one list of indicators among members within their limits. */
  ghost function MembersEnd(env: Env, items: Items, seen: Option<seq<Bytes>>): End
    requires ItemsFormed(items, true)
  {
    if items.Nil? then if seen.None? then Fell([], Malformed) else Took(seen.value)
    else if |Quoted(items.key.body)| > MAX_VALUE then Fell(FramesOf(seen), Limit)
    else if IsIndicators(env, items.key) then
      var list := IndicatorsEnd(env, 2, items.value);
      if seen.Some? then Fell(seen.value, Malformed)
      else if list.Fell? then list
      else MembersEnd(env, items.rest, Some(list.frames))
    else if !Fits(1, items.value) then Fell(FramesOf(seen), Limit)
    else MembersEnd(env, items.rest, seen)
  }

  ghost function DocumentEnd(env: Env, v: Json): End
    requires WellFormed(v)
  {
    if v.Container? && v.keyed then MembersEnd(env, v.items, None) else IndicatorsEnd(env, 1, v)
  }

  /** What the framer says of such an end, with what follows the document. */
  function AsFraming(end: End, rest: Bytes): Framing {
    match end
    case Took(frames) => Framed(frames, rest)
    case Fell(frames, error) => Failed(frames, error)
  }

  // ---------- values and elements ----------

  lemma ValueEnds(env: Env, base: nat, blank: Bytes, v: Json, rest: Bytes)
    requires Sound(env) && base <= MAX_DEPTH && Blank(blank) && WellFormed(v) && EndsBefore(v, rest)
    ensures Value(env, base, blank + Printed(v) + rest) ==
            if Fits(base, v) then Frame(Printed(v), rest) else Refused(Limit)
  {
    PrintedIsJson(v);
    FirstByte(v);
    assert blank + Printed(v) + rest == blank + (Printed(v) + rest);
    assert (Printed(v) + rest)[0] == Printed(v)[0];
    SkipsBlank(blank, Printed(v) + rest);
    ScanPrinted(env.valid, base, v, rest);
  }

  lemma NoBlank(raw: Bytes, rest: Bytes)
    ensures [] + raw + rest == raw + rest
  {
  }

  lemma ValueBegins(env: Env, base: nat, v: Json, rest: Bytes)
    requires Sound(env) && base <= MAX_DEPTH && WellFormed(v) && EndsBefore(v, rest)
    ensures Value(env, base, Printed(v) + rest) == if Fits(base, v) then Frame(Printed(v), rest) else Refused(Limit)
  {
    ValueEnds(env, base, [], v, rest);
    NoBlank(Printed(v), rest);
  }

  /** What an element comes to, once its value is known. */
  function ElementAs(env: Env, frames: seq<Bytes>, raw: Bytes, rest: Bytes, fits: bool): Framing {
    if |frames| + 1 > env.maxRecords || !fits then Failed(frames, Limit)
    else if env.accepts(raw) && env.refuses(frames + [raw]) then Failed(frames + [raw], Rejected)
    else Framed(frames + [raw], rest)
  }

  lemma ElementOf(env: Env, base: nat, input: Bytes, frames: seq<Bytes>, raw: Bytes, rest: Bytes, fits: bool)
    requires Value(env, base, input) == if fits then Frame(raw, rest) else Refused(Limit)
    ensures Element(env, base, input, frames) == ElementAs(env, frames, raw, rest, fits)
  {
  }

  lemma ElementEnds(env: Env, base: nat, v: Json, rest: Bytes, frames: seq<Bytes>)
    requires Sound(env) && base <= MAX_DEPTH && WellFormed(v) && EndsBefore(v, rest)
    ensures Element(env, base, Printed(v) + rest, frames) ==
            ElementAs(env, frames, Printed(v), rest, Fits(base, v))
  {
    ValueBegins(env, base, v, rest);
    ElementOf(env, base, Printed(v) + rest, frames, Printed(v), rest, Fits(base, v));
  }

  lemma ListGoesOn(env: Env, base: nat, first: bool, blank: Bytes, items: Items, more: Bytes, frames: seq<Bytes>)
    requires Sound(env) && base <= MAX_DEPTH && Blank(blank) && items.Item? && ItemsFormed(items, false)
    ensures var end := [Closing(false)] + more;
            var r := Element(env, base, Printed(items.value) + (items.after + (Tail(items.rest) + end)), frames);
            Elements(env, base, blank + (ListTail(first, items) + end), first, frames) ==
            if r.Failed? then r else Elements(env, base, r.rest, false, r.frames)
    ensures EndsBefore(items.value, items.after + (Tail(items.rest) + ([Closing(false)] + more)))
  {
    var end := [Closing(false)] + more;
    ItemStarts(false, first, blank, items, end);
    EndsItem(items.value, items.after, items.rest, Closing(false), more);
    assert Head(items) == Printed(items.value);
    ElementsStep(env, base, blank + (ListTail(first, items) + end), first, frames);
  }

  /** The elements of a printed list end as the list does. */
  lemma {:induction false} ElementsEnd(env: Env, base: nat, first: bool, blank: Bytes, items: Items, more: Bytes,
                                       frames: seq<Bytes>)
    requires Sound(env) && base <= MAX_DEPTH && Blank(blank) && ItemsFormed(items, false)
    ensures Elements(env, base, blank + (ListTail(first, items) + ([Closing(false)] + more)), first, frames) ==
            AsFraming(ListEnd(env, base, frames, items), more)
    decreases items
  {
    if items.Nil? {
      ElementsNone(env, base, first, blank, items, more, frames);
    } else {
      var rest := items.after + (Tail(items.rest) + ([Closing(false)] + more));
      ListGoesOn(env, base, first, blank, items, more, frames);
      ElementEnds(env, base, items.value, rest, frames);
      ElementsEnd(env, base, false, items.after, items.rest, more, frames + [Printed(items.value)]);
    }
  }

  lemma ArrayEnds(env: Env, base: nat, blank: Bytes, v: Json, more: Bytes)
    requires Sound(env) && base <= MAX_DEPTH && Blank(blank) && WellFormed(v)
    ensures Array(env, base, blank + Printed(v) + more) == AsFraming(IndicatorsEnd(env, base, v), more)
  {
    var s := Printed(v) + more;
    FirstByte(v);
    Grouped(blank, Printed(v), more);
    assert s[0] == Printed(v)[0];
    SkipsBlank(blank, s);
    if v.Container? && !v.keyed {
      var inside := if v.items.Nil? then v.blank else [];
      ContainerPrinted(v, more);
      assert s[1..] == inside + (ListTail(true, v.items) + ([Closing(false)] + more));
      ElementsEnd(env, base, true, inside, v.items, more, []);
    }
  }

  // ---------- members ----------

  lemma KeyTooLong(env: Env, key: JsonGrammar.Key, rest: Bytes)
    requires Sound(env) && KeyFormed(key, true) && |Quoted(key.body)| > MAX_VALUE
    ensures MemberKey(env, PrintedKey(key) + rest) == Refused(Limit)
  {
    var after := key.after + ([COLON] + (key.colon + rest));
    var v := Text(key.body);
    Regrouped([], Quoted(key.body), key.after, [COLON], key.colon, rest);
    assert PrintedKey(key) + rest == [] + Printed(v) + after;
    ValueEnds(env, 1, [], v, after);
  }

  /** What one member comes to: the rest of the members, or an end. */
  ghost function MemberEnd(env: Env, items: Items, rest: Bytes, seen: Option<seq<Bytes>>): Membered
    requires items.Item? && ItemsFormed(items, true)
  {
    if |Quoted(items.key.body)| > MAX_VALUE then Bad(FramesOf(seen), Limit)
    else if IsIndicators(env, items.key) then
      var list := IndicatorsEnd(env, 2, items.value);
      if seen.Some? then Bad(seen.value, Malformed)
      else if list.Fell? then Bad(list.frames, list.error)
      else Member(Some(list.frames), rest)
    else if !Fits(1, items.value) then Bad(FramesOf(seen), Limit)
    else Member(seen, rest)
  }

  lemma MemberEndsByKey(env: Env, items: Items, rest: Bytes, seen: Option<seq<Bytes>>, input: Bytes, more: Bytes)
    requires items.Item? && ItemsFormed(items, true) && |Quoted(items.key.body)| <= MAX_VALUE
    requires MemberKey(env, input) == Frame(Quoted(items.key.body), more)
    requires Array(env, 2, more) == AsFraming(IndicatorsEnd(env, 2, items.value), rest)
    requires Value(env, 1, more) == if Fits(1, items.value) then Frame(Printed(items.value), rest) else Refused(Limit)
    ensures Member1(env, input, seen) == MemberEnd(env, items, rest, seen)
  {
  }

  lemma MemberEnds(env: Env, items: Items, rest: Bytes, seen: Option<seq<Bytes>>)
    requires Sound(env) && items.Item? && ItemsFormed(items, true) && EndsBefore(items.value, rest)
    ensures Member1(env, Head(items) + rest, seen) == MemberEnd(env, items, rest, seen)
  {
    var key, value := items.key, Printed(items.value);
    Grouped(PrintedKey(key), value, rest);
    if |Quoted(key.body)| > MAX_VALUE {
      KeyTooLong(env, key, value + rest);
    } else {
      var more := key.colon + (value + rest);
      KeyPrinted(env, key, value + rest);
      Grouped(key.colon, value, rest);
      ArrayEnds(env, 2, key.colon, items.value, rest);
      ValueEnds(env, 1, key.colon, items.value, rest);
      MemberEndsByKey(env, items, rest, seen, Head(items) + rest, more);
    }
  }

  lemma MembersGoOn(env: Env, first: bool, blank: Bytes, items: Items, more: Bytes, seen: Option<seq<Bytes>>)
    requires Sound(env) && Blank(blank) && items.Item? && ItemsFormed(items, true)
    ensures var rest := items.after + (Tail(items.rest) + ([Closing(true)] + more));
            var r := MemberEnd(env, items, rest, seen);
            Members(env, blank + (ListTail(first, items) + ([Closing(true)] + more)), first, seen) ==
            if r.Bad? then Failed(r.frames, r.error) else Members(env, rest, false, r.seen)
  {
    var end := [Closing(true)] + more;
    ItemStarts(true, first, blank, items, end);
    EndsItem(items.value, items.after, items.rest, Closing(true), more);
    MemberEnds(env, items, items.after + (Tail(items.rest) + end), seen);
    MembersStep(env, blank + (ListTail(first, items) + end), first, seen);
  }

  /** The members of a printed object end as the object does. */
  lemma {:induction false} MembersFinish(env: Env, first: bool, blank: Bytes, items: Items, more: Bytes,
                                         seen: Option<seq<Bytes>>)
    requires Sound(env) && Blank(blank) && ItemsFormed(items, true)
    ensures Members(env, blank + (ListTail(first, items) + ([Closing(true)] + more)), first, seen) ==
            AsFraming(MembersEnd(env, items, seen), more)
    decreases items
  {
    if items.Nil? {
      MembersNone(env, first, blank, items, more, seen);
    } else {
      var rest := items.after + (Tail(items.rest) + ([Closing(true)] + more));
      MembersGoOn(env, first, blank, items, more, seen);
      var r := MemberEnd(env, items, rest, seen);
      if r.Member? { MembersFinish(env, false, items.after, items.rest, more, r.seen); }
    }
  }

  // ---------- whole documents ----------

  lemma BodyEnds(env: Env, v: Json, more: Bytes)
    requires Sound(env) && WellFormed(v)
    ensures Body(env, Printed(v) + more) == AsFraming(DocumentEnd(env, v), more)
  {
    var s := Printed(v) + more;
    FirstByte(v);
    assert s[0] == Printed(v)[0];
    SkipsBlank([], s);
    assert [] + s == s && [] + Printed(v) + more == s;
    if v.Container? && v.keyed {
      var inside := if v.items.Nil? then v.blank else [];
      ContainerPrinted(v, more);
      assert s[1..] == inside + (ListTail(true, v.items) + ([Closing(true)] + more));
      MembersFinish(env, true, inside, v.items, more, None);
    } else {
      ArrayEnds(env, 1, [], v, more);
    }
  }

  ghost predicate PrintsAs(input: Bytes, before: Bytes, v: Json, after: Bytes) {
    Blank(before) && WellFormed(v) && Blank(after) && input == before + Printed(v) + after
  }

  /** Every JSON document, with any blanks around it, is framed or refused as its own structure says. */
  lemma DocumentEnds(env: Env, before: Bytes, v: Json, after: Bytes)
    requires Sound(env) && PrintsAs(before + Printed(v) + after, before, v, after)
    ensures Parse(env, before + Printed(v) + after) == AsFraming(DocumentEnd(env, v), after)
  {
    FirstByte(v);
    assert before + Printed(v) + after == before + (Printed(v) + after);
    assert (Printed(v) + after)[0] == Printed(v)[0];
    BodySkips(env, before, Printed(v) + after);
    BodyEnds(env, v, after);
    SkipsBlank(after, []);
    assert after + [] == after;
  }

  // ---------- one record too many ----------

  lemma {:induction false} CountEnds(env: Env, base: nat, frames: seq<Bytes>, items: Items)
    requires ElementsFit(base, items) && |frames| <= env.maxRecords < |frames| + |Raws(items)|
    requires forall all :: !env.refuses(all)
    ensures ListEnd(env, base, frames, items) == Fell(frames + Raws(items)[..env.maxRecords - |frames|], Limit)
    decreases items
  {
    if |frames| == env.maxRecords {
      assert frames + Raws(items)[..0] == frames;
    } else {
      var raw := Printed(items.value);
      CountEnds(env, base, frames + [raw], items.rest);
      assert Raws(items)[..env.maxRecords - |frames|] == [raw] + Raws(items.rest)[..env.maxRecords - |frames| - 1];
      assert frames + [raw] + Raws(items.rest)[..env.maxRecords - |frames| - 1] ==
             frames + ([raw] + Raws(items.rest)[..env.maxRecords - |frames| - 1]);
    }
  }

  /** Where only the number of records is too large, the list ends as over its limit, not as malformed,
      and the records before that were framed. */
  lemma OneRecordTooMany(env: Env, before: Bytes, v: Json, after: Bytes)
    requires Sound(env) && Blank(before) && WellFormed(v) && Blank(after) && forall all :: !env.refuses(all)
    requires v.Container? && !v.keyed && ElementsFit(1, v.items) && |Raws(v.items)| > env.maxRecords
    ensures Parse(env, before + Printed(v) + after) == Failed(Raws(v.items)[..env.maxRecords], Limit)
  {
    DocumentEnds(env, before, v, after);
    CountEnds(env, 1, [], v.items);
    assert [] + Raws(v.items)[..env.maxRecords] == Raws(v.items)[..env.maxRecords];
  }
}
