/** The JSON grammar of RFC 8259, sections 2 to 7, as a datatype and its printings. */
module JsonGrammar {
  import opened Octets

  const QUOTE: Byte := 0x22
  const COMMA: Byte := 0x2c
  const COLON: Byte := 0x3a
  const BACKSLASH: Byte := 0x5c

  predicate IsBlank(b: Byte) {
    b == 0x20 || b == 0x0a || b == 0x0d || b == 0x09
  }

  predicate Blank(s: Bytes) {
    forall i :: 0 <= i < |s| ==> IsBlank(s[i])
  }

  predicate IsDigit(b: Byte) {
    0x30 <= b <= 0x39
  }

  predicate Digits(s: Bytes) {
    forall i :: 0 <= i < |s| ==> IsDigit(s[i])
  }

  predicate IsHex(b: Byte) {
    IsDigit(b) || 0x41 <= b <= 0x46 || 0x61 <= b <= 0x66
  }

  // ---------- scalars and strings ----------

  /** No leading zero. */
  predicate Whole(s: Bytes) {
    s != [] && Digits(s) && (s[0] == 0x30 ==> |s| == 1)
  }

  predicate Fraction(s: Bytes) {
    s == [] || (|s| > 1 && s[0] == 0x2e && Digits(s[1..]))
  }

  predicate Signed(s: Bytes) {
    var digits := if s != [] && (s[0] == 0x2b || s[0] == 0x2d) then s[1..] else s;
    digits != [] && Digits(digits)
  }

  predicate Exponent(s: Bytes) {
    s == [] || ((s[0] == 0x65 || s[0] == 0x45) && Signed(s[1..]))
  }

  ghost predicate Unsigned(s: Bytes) {
    exists i, j :: 0 <= i <= j <= |s| && Whole(s[..i]) && Fraction(s[i..j]) && Exponent(s[j..])
  }

  ghost predicate Number(s: Bytes) {
    if s != [] && s[0] == 0x2d then Unsigned(s[1..]) else Unsigned(s)
  }

  const TRUE: Bytes := [0x74, 0x72, 0x75, 0x65]
  const FALSE: Bytes := [0x66, 0x61, 0x6c, 0x73, 0x65]
  const NULL: Bytes := [0x6e, 0x75, 0x6c, 0x6c]

  ghost predicate Scalar(s: Bytes) {
    s == TRUE || s == FALSE || s == NULL || Number(s)
  }

  predicate Escapable(b: Byte) {
    b == QUOTE || b == BACKSLASH || b == 0x2f || b == 0x62 || b == 0x66 || b == 0x6e || b == 0x72 || b == 0x74
  }

  /** The inside of a string. */
  predicate Characters(s: Bytes) {
    if s == [] then true
    else if s[0] == BACKSLASH then
      if |s| >= 2 && Escapable(s[1]) then Characters(s[2..])
      else |s| >= 6 && s[1] == 0x75 && IsHex(s[2]) && IsHex(s[3]) && IsHex(s[4]) && IsHex(s[5]) && Characters(s[6..])
    else s[0] != QUOTE && s[0] >= 0x20 && Characters(s[1..])
  }

  // ---------- values ----------

  datatype Key = NoKey | Key(body: Bytes, after: Bytes, colon: Bytes)

  /** A value; containers hold their items with the blanks around them. */
  datatype Json =
    | Plain(text: Bytes)
    | Text(body: Bytes)
    | Container(keyed: bool, blank: Bytes, items: Items)

  datatype Items = Nil | Item(before: Bytes, key: Key, value: Json, after: Bytes, rest: Items)

  ghost predicate WellFormed(v: Json) {
    match v
    case Plain(text) => Scalar(text)
    case Text(body) => Characters(body)
    case Container(keyed, blank, items) => Blank(blank) && ItemsFormed(items, keyed)
  }

  ghost predicate ItemsFormed(items: Items, keyed: bool) {
    match items
    case Nil => true
    case Item(before, key, value, after, rest) =>
      && Blank(before) && Blank(after) && KeyFormed(key, keyed) && WellFormed(value) && ItemsFormed(rest, keyed)
  }

  predicate KeyFormed(key: Key, keyed: bool) {
    key.Key? == keyed && (keyed ==> Characters(key.body) && Blank(key.after) && Blank(key.colon))
  }

  function Opening(keyed: bool): Byte {
    if keyed then 0x7b else 0x5b
  }

  function Closing(keyed: bool): Byte {
    if keyed then 0x7d else 0x5d
  }

  function Quoted(body: Bytes): Bytes {
    [QUOTE] + body + [QUOTE]
  }

  function Printed(v: Json): Bytes
    decreases v, 0
  {
    match v
    case Plain(text) => text
    case Text(body) => Quoted(body)
    case Container(keyed, blank, items) => [Opening(keyed)] + Inside(blank, items) + [Closing(keyed)]
  }

  function Inside(blank: Bytes, items: Items): Bytes
    decreases items, 1
  {
    if items.Nil? then blank else PrintedItems(items)
  }

  function PrintedKey(key: Key): Bytes {
    if key.NoKey? then [] else Quoted(key.body) + key.after + [COLON] + key.colon
  }

  function PrintedItems(items: Items): Bytes
    decreases items, 0
  {
    match items
    case Nil => []
    case Item(before, key, value, after, rest) =>
      before + PrintedKey(key) + Printed(value) + after + if rest.Nil? then [] else [COMMA] + PrintedItems(rest)
  }

  function Depth(v: Json): nat {
    match v
    case Plain(_) => 0
    case Text(_) => 0
    case Container(_, _, items) => 1 + Deepest(items)
  }

  function Deepest(items: Items): nat {
    match items
    case Nil => 0
    case Item(_, _, value, _, rest) => if Depth(value) > Deepest(rest) then Depth(value) else Deepest(rest)
  }

  /** A JSON text: a value with blanks around it. */
  ghost predicate IsJson(s: Bytes) {
    exists before, v, after :: Blank(before) && WellFormed(v) && Blank(after) && s == before + Printed(v) + after
  }

  // ---------- what scalars contain ----------

  /** A byte that neither structures, quotes nor separates. */
  predicate Ordinary(b: Byte) {
    !IsBlank(b) && b != QUOTE && b != COMMA && b != COLON && b != 0x5b && b != 0x5d && b != 0x7b && b != 0x7d
  }

  lemma ScalarsAreOrdinary(s: Bytes)
    requires Scalar(s)
    ensures s != [] && forall i :: 0 <= i < |s| ==> Ordinary(s[i])
  {
    if Number(s) && s != TRUE && s != FALSE && s != NULL {
      if s != [] && s[0] == 0x2d {
        UnsignedIsOrdinary(s[1..]);
        assert s == [s[0]] + s[1..];
      } else {
        UnsignedIsOrdinary(s);
      }
    }
  }

  lemma OrdinaryTogether(s: Bytes, i: nat, j: nat)
    requires i <= j <= |s| && (forall k :: 0 <= k < i ==> Ordinary(s[..i][k]))
    requires forall k :: 0 <= k < j - i ==> Ordinary(s[i..j][k])
    requires forall k :: 0 <= k < |s| - j ==> Ordinary(s[j..][k])
    ensures forall k :: 0 <= k < |s| ==> Ordinary(s[k])
  {
    assert s == s[..i] + s[i..j] + s[j..];
  }

  lemma UnsignedIsOrdinary(s: Bytes)
    requires Unsigned(s)
    ensures s != [] && forall i :: 0 <= i < |s| ==> Ordinary(s[i])
  {
    var i, j :| 0 <= i <= j <= |s| && Whole(s[..i]) && Fraction(s[i..j]) && Exponent(s[j..]);
    WholeIsOrdinary(s[..i]);
    FractionIsOrdinary(s[i..j]);
    ExponentIsOrdinary(s[j..]);
    OrdinaryTogether(s, i, j);
  }

  lemma WholeIsOrdinary(s: Bytes)
    requires Whole(s)
    ensures forall k :: 0 <= k < |s| ==> Ordinary(s[k])
  {
  }

  lemma FractionIsOrdinary(s: Bytes)
    requires Fraction(s)
    ensures forall k :: 0 <= k < |s| ==> Ordinary(s[k])
  {
  }

  lemma ExponentIsOrdinary(s: Bytes)
    requires Exponent(s)
    ensures forall k :: 0 <= k < |s| ==> Ordinary(s[k])
  {
  }
}
