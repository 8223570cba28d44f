/** What a backup holds, and what restoring it accepts. */
module Archive {
  import opened Octets
  import opened Ordering
  import opened StableSort
  import Credentials
  import SealStream

  const MAX_FILES: nat := 4096
  const MAX_CONFIG: nat := 0x40_0000
  const MAX_STATE: nat := 0x80_0000
  const MAX_MANIFEST: nat := 0x20_0000
  const MAX_KEY: nat := 4096

  /** What the files may add up to; the rest of the archive is for framing. */
  const BUDGET: nat := SealStream.MAX_ARCHIVE - 0x80_0000

  const FEEDS := "data/feeds/"
  const LOCAL := "refs/local-feeds/"
  const DATABASE := "data/dnsdaddy.db"
  const SECRETS := "data/secrets.key"
  const ANCHORS := "data/daddybound-anchors.json"
  const LEARNING := "data/daddybound-learning.json"
  const CONFIG := "config.yaml"
  const SOURCE_CONFIG := "source-config.yaml"
  const TLS_CERT := "refs/dns-tls-cert.pem"
  const TLS_KEY := "refs/dns-tls-key.pem"
  const CUSTOM_ANCHORS := "refs/custom-trust-anchors.txt"

  // ---------- names ----------

  predicate Begins(s: string, i: nat)
    requires i < |s|
  {
    i == 0 || s[i - 1] == '/'
  }

  predicate Ends(s: string, i: nat) {
    i >= |s| || s[i] == '/'
  }

  predicate Printable(s: string) {
    forall i :: 0 <= i < |s| ==> ' ' <= s[i] && s[i] != (127 as char) && s[i] != '\\' && s[i] != ':'
  }

  /** The part that begins here is not empty, `.` or `..`. */
  predicate PartAt(s: string, i: nat)
    requires i < |s|
  {
    s[i] != '/' && !(s[i] == '.' && Ends(s, i + 1)) &&
      !(s[i] == '.' && i + 1 < |s| && s[i + 1] == '.' && Ends(s, i + 2))
  }

  predicate Parted(s: string) {
    forall i :: 0 <= i < |s| && Begins(s, i) ==> PartAt(s, i)
  }

  predicate ValidName(s: string) {
    0 < |s| <= 240 && s[|s| - 1] != '/' && Printable(s) && Parted(s)
  }

  predicate Fixed(name: string) {
    || name == CONFIG || name == SOURCE_CONFIG || name == DATABASE || name == SECRETS || name == ANCHORS
    || name == LEARNING
    || name == TLS_CERT || name == TLS_KEY || name == CUSTOM_ANCHORS
  }

  predicate HasSuffix(s: string, suffix: string) {
    |s| >= |suffix| && s[|s| - |suffix|..] == suffix
  }

  predicate Allowed(name: string) {
    Fixed(name) || (FEEDS <= name && HasSuffix(name, ".list")) || LOCAL <= name
  }

  function FileLimit(name: string): nat {
    if name == CONFIG || name == SOURCE_CONFIG then MAX_CONFIG
    else if name == SECRETS then MAX_KEY
    else if name in {ANCHORS, LEARNING, TLS_CERT, TLS_KEY, CUSTOM_ANCHORS} then MAX_STATE
    else SealStream.MAX_ARCHIVE
  }

  /** Small letters, hyphens and dots, but for a slash as the fifth character, and no part that begins with a dot. */
  predicate Simple(s: string) {
    && 5 < |s| <= 240 && s[0] != '.' && s[5] != '.'
    && forall i :: 0 <= i < |s| ==> 'a' <= s[i] <= 'z' || s[i] == '-' || s[i] == '.' || (i == 4 && s[i] == '/')
  }

  lemma ConfigIsSimple()
    ensures Simple(CONFIG)
  {
  }

  lemma SourceConfigIsSimple()
    ensures Simple(SOURCE_CONFIG)
  {
  }

  lemma DatabaseIsSimple()
    ensures Simple(DATABASE)
  {
  }

  lemma SecretsIsSimple()
    ensures Simple(SECRETS)
  {
  }

  lemma AnchorsIsSimple()
    ensures Simple(ANCHORS)
  {
  }

  lemma LearningIsSimple()
    ensures Simple(LEARNING)
  {
  }

  lemma TlsCertIsSimple()
    ensures Simple(TLS_CERT)
  {
  }

  lemma TlsKeyIsSimple()
    ensures Simple(TLS_KEY)
  {
  }

  lemma CustomAnchorsIsSimple()
    ensures Simple(CUSTOM_ANCHORS)
  {
  }

  lemma SimpleIsValid(s: string)
    requires Simple(s)
    ensures ValidName(s)
  {
  }

  lemma FixedNamesAreSimple(name: string)
    requires Fixed(name)
    ensures Simple(name)
  {
    ConfigIsSimple();
    SourceConfigIsSimple();
    DatabaseIsSimple();
    SecretsIsSimple();
    AnchorsIsSimple();
    LearningIsSimple();
    TlsCertIsSimple();
    TlsKeyIsSimple();
    CustomAnchorsIsSimple();
  }

  /** Every fixed name passes the check on restored names. */
  lemma FixedNamesAreValid(name: string)
    requires Fixed(name)
    ensures ValidName(name) && Allowed(name)
  {
    FixedNamesAreSimple(name);
    SimpleIsValid(name);
  }

  /** The sixth character tells a directory's names from the fixed ones. */
  lemma SixthCharacter(name: string)
    ensures FEEDS <= name ==> name[5] == 'f'
    ensures LOCAL <= name ==> name[5] == 'l'
    ensures Fixed(name) ==> name[5] != 'f' && name[5] != 'l'
  {
  }

  /** A name under a directory is neither fixed nor under the other directory, and has no limit of its own. */
  lemma DirectoriesAreApart(name: string)
    requires FEEDS <= name || LOCAL <= name
    ensures !Fixed(name) && !(FEEDS <= name && LOCAL <= name) && FileLimit(name) == SealStream.MAX_ARCHIVE
  {
    SixthCharacter(name);
  }

  // ---------- files and directories ----------

  /** One name is a file in a directory of the other's name, or further below. */
  predicate Beneath(a: string, b: string) {
    |b| < |a| && b <= a && a[|b|] == '/'
  }

  /** Files of both names can exist side by side. */
  predicate Compatible(a: string, b: string) {
    a != b && !Beneath(a, b) && !Beneath(b, a)
  }

  ghost predicate Apart(names: set<string>) {
    forall a, b :: a in names && b in names ==> !Beneath(a, b)
  }

  /** Nothing but another file of the same directory can clash with a file of a directory. */
  lemma OnlyWithinDirectories(a: string, b: string)
    requires (Fixed(a) || FEEDS <= a || LOCAL <= a) && (Fixed(b) || FEEDS <= b || LOCAL <= b)
    requires Beneath(a, b)
    ensures (FEEDS <= a && FEEDS <= b) || (LOCAL <= a && LOCAL <= b)
  {
    SixthCharacter(a);
    SixthCharacter(b);
    if Fixed(a) { FixedNamesAreSimple(a); }
    if Fixed(b) { FixedNamesAreSimple(b); }
    assert |b| > 5 && a[5] == b[5];
  }

  // ---------- what is collected ----------

  /** What is found where a file should be: its size when looked at and when opened, and its
      bytes when hashed and when copied. */
  datatype Probe = Missing | Unreadable | Regular(before: nat, size: nat, hashed: Bytes, copied: Bytes)

  datatype Item = Item(name: string, before: nat, size: nat, hashed: Bytes, copied: Bytes)

  function Names(items: seq<Item>): set<string> {
    if items == [] then {} else {items[0].name} + Names(items[1..])
  }

  function Total(items: seq<Item>): nat {
    if items == [] then 0 else items[0].size + Total(items[1..])
  }

  predicate Distinct(items: seq<Item>) {
    items == [] || (items[0].name !in Names(items[1..]) && Distinct(items[1..]))
  }

  /** A file this archive may hold, which was within its limit when looked at. */
  predicate Offered(x: Item) {
    ValidName(x.name) && Allowed(x.name) && x.before <= FileLimit(x.name)
  }

  predicate AllOffered(items: seq<Item>) {
    items == [] || (Offered(items[0]) && AllOffered(items[1..]))
  }

  /** Distinct offered files within the limits on number and size. */
  predicate Proper(items: seq<Item>) {
    Distinct(items) && AllOffered(items) && Total(items) <= BUDGET && |items| <= MAX_FILES
  }

  lemma {:induction false} Appended(items: seq<Item>, x: Item)
    ensures Names(items + [x]) == Names(items) + {x.name} && Total(items + [x]) == Total(items) + x.size
    ensures Distinct(items + [x]) <==> Distinct(items) && x.name !in Names(items)
    ensures AllOffered(items + [x]) <==> AllOffered(items) && Offered(x)
  {
    if items == [] {
      assert items + [x] == [x] && [x][1..] == [];
    } else {
      assert (items + [x])[1..] == items[1..] + [x];
      Appended(items[1..], x);
    }
  }

  class Collector {
    var items: seq<Item>
    var total: nat

    predicate Valid()
      reads this
    {
      Proper(items) && total == Total(items)
    }

    constructor ()
      ensures Valid() && items == []
    {
      items, total := [], 0;
    }

    /** Takes one file; a missing one may be optional. */
    method Add(name: string, limit: nat, optional: bool, probe: Probe) returns (ok: bool)
      requires Valid() && ValidName(name) && Allowed(name) && limit == FileLimit(name) && name !in Names(items)
      modifies this
      ensures Valid()
      ensures ok <==> Acceptable(limit, optional, probe) && Room(old(items) + Item1(name, probe))
      ensures items == if ok then old(items) + Item1(name, probe) else old(items)
    {
      assert items + [] == items;
      if probe.Missing? { return optional; }
      if probe.Unreadable? || probe.before > limit { return false; }
      var item := Item(name, probe.before, probe.size, probe.hashed, probe.copied);
      Appended(items, item);
      if total + probe.size > BUDGET || |items| >= MAX_FILES { return false; }
      items := items + [item];
      total := total + probe.size;
      ok := true;
    }

    /** Takes one file found below a directory, unless it is an unfinished feed download. */
    method AddFound(prefix: string, f: Found) returns (ok: bool)
      requires Valid() && (prefix == FEEDS || prefix == LOCAL) && prefix + f.path !in Names(items)
      modifies this
      ensures Valid()
      ensures ok <==> ValidName(prefix + f.path) &&
                      (Captured(prefix, f) ==>
                         && Acceptable(SealStream.MAX_ARCHIVE, false, f.probe)
                         && Room(old(items) + Item1(prefix + f.path, f.probe)))
      ensures items == old(items) + if ok && Captured(prefix, f) then Item1(prefix + f.path, f.probe) else []
    {
      var name := prefix + f.path;
      assert items + [] == items;
      if !ValidName(name) { return false; }
      if prefix == FEEDS && !HasSuffix(name, ".list") { return true; }
      DirectoriesAreApart(name);
      ok := Add(name, SealStream.MAX_ARCHIVE, false, f.probe);
    }

    /** Takes the next file found below a directory. */
    method AddNext(prefix: string, found: seq<Found>, i: nat, ghost before: seq<Item>) returns (ok: bool)
      requires Valid() && (prefix == FEEDS || prefix == LOCAL) && i < |found|
      requires items == before + Below(prefix, found[..i]) && AllAcceptable(prefix, found[..i])
      requires prefix + found[i].path !in Names(items)
      modifies this
      ensures Valid()
      ensures ok ==> items == before + Below(prefix, found[..i + 1]) && AllAcceptable(prefix, found[..i + 1])
      ensures !ok ==> !AllAcceptable(prefix, found) || !Room(before + Below(prefix, found))
    {
      assert found[..i + 1][..i] == found[..i];
      OneMoreBelow(prefix, found, i, before);
      ok := AddFound(prefix, found[i]);
    }

    /** Takes the files found below a directory; of feed caches, only the effective ones. */
    method AddDirectory(prefix: string, found: seq<Found>) returns (ok: bool)
      requires Valid() && (prefix == FEEDS || prefix == LOCAL) && DistinctPaths(found)
      requires forall n :: n in Names(items) ==> !(prefix <= n)
      modifies this
      ensures Valid()
      ensures ok <==> AllAcceptable(prefix, found) && Room(old(items) + Below(prefix, found))
      ensures ok ==> items == old(items) + Below(prefix, found)
      ensures ok ==> forall x :: x in items <==> x in old(items) || ToTake(prefix, Holding(found), x)
    {
      forall x ensures x in Below(prefix, found) <==> ToTake(prefix, Holding(found), x) {
        TreeHolds(prefix, Holding(found), x);
      }
      assert items + [] == items;
      for i := 0 to |found|
        invariant Valid() && items == old(items) + Below(prefix, found[..i]) && AllAcceptable(prefix, found[..i])
      {
        NotTakenYet(prefix, found, i, old(items));
        ok := AddNext(prefix, found, i, old(items));
        if !ok { return; }
      }
      assert found[..|found|] == found;
      ok := true;
    }
  }

  predicate Acceptable(limit: nat, optional: bool, probe: Probe) {
    match probe
    case Missing => optional
    case Unreadable => false
    case Regular(before, _, _, _) => before <= limit
  }

  predicate Room(items: seq<Item>) {
    Total(items) <= BUDGET && |items| <= MAX_FILES
  }

  /** What one probed file adds. */
  function Item1(name: string, probe: Probe): seq<Item> {
    if probe.Regular? then [Item(name, probe.before, probe.size, probe.hashed, probe.copied)] else []
  }

  /** Whether a file below a directory is captured: unfinished feed downloads are not. */
  predicate Captured(prefix: string, f: Found) {
    prefix != FEEDS || HasSuffix(prefix + f.path, ".list")
  }

  function Below(prefix: string, found: seq<Found>): seq<Item> {
    if found == [] then []
    else
      var rest, last := Below(prefix, found[..|found| - 1]), found[|found| - 1];
      if Captured(prefix, last) then rest + Item1(prefix + last.path, last.probe) else rest
  }

  predicate AllAcceptable(prefix: string, found: seq<Found>) {
    if found == [] then true
    else
      var last := found[|found| - 1];
      && AllAcceptable(prefix, found[..|found| - 1]) && ValidName(prefix + last.path)
      && (Captured(prefix, last) ==> Acceptable(SealStream.MAX_ARCHIVE, false, last.probe))
  }

  lemma {:induction false} Joins(a: seq<Item>, b: seq<Item>)
    ensures Names(a + b) == Names(a) + Names(b) && Total(a + b) == Total(a) + Total(b)
  {
    if a == [] {
      assert a + b == b;
    } else {
      assert (a + b)[1..] == a[1..] + b;
      Joins(a[1..], b);
    }
  }

  /** The next file of a directory, and what it means for the whole. */
  lemma OneMoreBelow(prefix: string, found: seq<Found>, i: nat, items: seq<Item>)
    requires i < |found|
    ensures var f := found[i]; var so := Below(prefix, found[..i + 1]);
            && items + so == items + Below(prefix, found[..i]) +
               (if Captured(prefix, f) then Item1(prefix + f.path, f.probe) else [])
            && (AllAcceptable(prefix, found) ==> AllAcceptable(prefix, found[..i + 1]))
            && (Room(items + Below(prefix, found)) ==> Room(items + so))
  {
    assert found[..i + 1][..i] == found[..i];
    AcceptablePrefix(prefix, found, i + 1);
    BelowGrows(prefix, found, i + 1);
    var so := Below(prefix, found[..i + 1]);
    var more := Below(prefix, found)[|so|..];
    assert items + Below(prefix, found) == items + so + more;
    Joins(items + so, more);
  }

  lemma {:induction false} AcceptablePrefix(prefix: string, found: seq<Found>, n: nat)
    requires n <= |found|
    ensures AllAcceptable(prefix, found) ==> AllAcceptable(prefix, found[..n])
  {
    if n < |found| {
      assert found[..|found| - 1][..n] == found[..n];
      AcceptablePrefix(prefix, found[..|found| - 1], n);
    } else {
      assert found[..n] == found;
    }
  }

  lemma {:induction false} BelowGrows(prefix: string, found: seq<Found>, n: nat)
    requires n <= |found|
    ensures Below(prefix, found[..n]) <= Below(prefix, found)
  {
    if n < |found| {
      assert found[..|found| - 1][..n] == found[..n];
      BelowGrows(prefix, found[..|found| - 1], n);
    } else {
      assert found[..n] == found;
    }
  }

  lemma {:induction false} BelowNames(prefix: string, found: seq<Found>)
    ensures forall n :: n in Names(Below(prefix, found)) ==> exists j :: 0 <= j < |found| && n == prefix + found[j].path
  {
    if found != [] {
      var rest, last := found[..|found| - 1], found[|found| - 1];
      BelowNames(prefix, rest);
      Joins(Below(prefix, rest), Item1(prefix + last.path, last.probe));
      forall n | n in Names(Below(prefix, found)) ensures exists j :: 0 <= j < |found| && n == prefix + found[j].path {
        if n in Names(Below(prefix, rest)) {
          var j :| 0 <= j < |rest| && n == prefix + rest[j].path;
          assert n == prefix + found[j].path;
        } else {
          assert n == prefix + found[|rest|].path;
        }
      }
    }
  }

  datatype Found = Found(path: string, probe: Probe)

  ghost predicate DistinctPaths(found: seq<Found>) {
    forall i, j :: 0 <= i < j < |found| ==> found[i].path != found[j].path
  }

  lemma NotTakenYet(prefix: string, found: seq<Found>, i: nat, items: seq<Item>)
    requires DistinctPaths(found) && i < |found| && forall n :: n in Names(items) ==> !(prefix <= n)
    ensures prefix + found[i].path !in Names(items + Below(prefix, found[..i]))
  {
    var name := prefix + found[i].path;
    Joins(items, Below(prefix, found[..i]));
    BelowNames(prefix, found[..i]);
    forall j | 0 <= j < i ensures prefix + found[..i][j].path != name {
      assert (prefix + found[j].path)[|prefix|..] == found[j].path && name[|prefix|..] == found[i].path;
    }
  }

  // ---------- the order of the archive ----------

  predicate NamedBefore(x: Item, y: Item) {
    LexLess(x.name, y.name)
  }

  function ByName(items: seq<Item>): seq<Item> {
    Sort(items, NamedBefore)
  }

  lemma {:induction false} Parts(a: seq<Item>, b: seq<Item>)
    ensures Distinct(a + b) <==> Distinct(a) && Distinct(b) && Names(a) !! Names(b)
    ensures AllOffered(a + b) <==> AllOffered(a) && AllOffered(b)
  {
    if a == [] {
      assert a + b == b;
    } else {
      assert (a + b)[1..] == a[1..] + b;
      Joins(a[1..], b);
      Parts(a[1..], b);
    }
  }

  /** All that is checked of a list of items. */
  datatype Checks = Checks(names: set<string>, total: nat, count: nat, distinct: bool, offered: bool)

  function ChecksOf(items: seq<Item>): Checks {
    Checks(Names(items), Total(items), |items|, Distinct(items), AllOffered(items))
  }

  function Both(a: Checks, b: Checks): Checks {
    Checks(a.names + b.names, a.total + b.total, a.count + b.count, a.distinct && b.distinct && a.names !! b.names,
           a.offered && b.offered)
  }

  lemma ChecksJoin(a: seq<Item>, b: seq<Item>)
    ensures ChecksOf(a + b) == Both(ChecksOf(a), ChecksOf(b))
  {
    Joins(a, b);
    Parts(a, b);
  }

  lemma AnyOrder(a: Checks, b: Checks, c: Checks)
    ensures Both(Both(a, b), c) == Both(Both(a, c), b)
  {
    assert a.names + b.names + c.names == a.names + c.names + b.names;
  }

  /** Where an item stands in a list changes nothing that is checked. */
  lemma Inserted(items: seq<Item>, x: Item)
    ensures ChecksOf(Insert(items, x, NamedBefore)) == Both(ChecksOf(items), ChecksOf([x]))
  {
    var i := InsertPlaces(items, x, NamedBefore);
    var a, b := items[..i], items[i..];
    assert items == a + b;
    ChecksJoin(a, b);
    ChecksJoin(a, [x]);
    ChecksJoin(a + [x], b);
    AnyOrder(ChecksOf(a), ChecksOf([x]), ChecksOf(b));
  }

  /** Sorting changes nothing that is checked. */
  lemma {:induction false} SortKeepsChecks(items: seq<Item>)
    ensures ChecksOf(ByName(items)) == ChecksOf(items)
  {
    if items != [] {
      var rest, last := items[..|items| - 1], items[|items| - 1];
      SortKeepsChecks(rest);
      Inserted(ByName(rest), last);
      ChecksJoin(rest, [last]);
      assert items == rest + [last];
    }
  }

  // ---------- the archive ----------

  datatype File = File(name: string, size: nat, digest: Bytes)

  datatype Entry = Entry(name: string, content: Bytes)

  datatype Package = Package(files: seq<File>, entries: seq<Entry>)

  /** The copy has the size and the digest that were recorded. */
  predicate Stable(digest: Bytes -> Bytes, x: Item) {
    |x.copied| == x.size && digest(x.copied) == digest(x.hashed)
  }

  function Listed(digest: Bytes -> Bytes, items: seq<Item>): seq<File> {
    if items == [] then []
    else [File(items[0].name, items[0].size, digest(items[0].hashed))] + Listed(digest, items[1..])
  }

  function Stored(items: seq<Item>): seq<Entry> {
    if items == [] then [] else [Entry(items[0].name, items[0].copied)] + Stored(items[1..])
  }

  function PackageOf(digest: Bytes -> Bytes, items: seq<Item>): Package {
    Package(Listed(digest, items), Stored(items))
  }

  predicate AllStable(digest: Bytes -> Bytes, items: seq<Item>) {
    items == [] || (Stable(digest, items[0]) && AllStable(digest, items[1..]))
  }

  // ---------- the size of the archive ----------

  /** A header block and the bytes rounded up to whole blocks. */
  function Framed(size: nat): nat {
    512 + (size + 511) / 512 * 512
  }

  function TarLength(manifest: nat, items: seq<Item>): nat {
    Framed(manifest) + FramedTotal(items) + 1024
  }

  function FramedTotal(items: seq<Item>): nat {
    if items == [] then 0 else Framed(items[0].size) + FramedTotal(items[1..])
  }

  lemma {:induction false} FramingCosts(items: seq<Item>)
    ensures FramedTotal(items) <= Total(items) + 1023 * |items|
  {
    if items != [] { FramingCosts(items[1..]); }
  }

  /** An archive within the limits never reaches the limit of the sealed stream. */
  lemma ArchiveFits(manifest: nat, items: seq<Item>)
    requires Proper(items) && manifest <= MAX_MANIFEST
    ensures TarLength(manifest, items) <= SealStream.MAX_ARCHIVE
  {
    FramingCosts(items);
  }

  // ---------- creating ----------

  /** The places a backup reads from; the settings name some of them or not. The key file is
      read once more, before it is hashed, to check the credentials. */
  datatype Host = Host(
    database: Probe, secrets: Probe, anchors: Probe, learning: Probe,
    source: Probe, tlsCert: Reference, tlsKey: Reference, customAnchors: Reference,
    feeds: Directory, local: Directory, config: Probe, keyChecked: Bytes)

  datatype Reference = Unset | Set(probe: Probe)

  datatype Directory = Absent | Unusable | Holding(found: seq<Found>)

  /** A walk lists each name once, as a file or as a directory. */
  ghost predicate Walked(d: Directory) {
    d.Holding? ==> forall i, j :: 0 <= i < j < |d.found| ==> Compatible(d.found[i].path, d.found[j].path)
  }

  predicate FixedOnly(names: set<string>) {
    forall n :: n in names ==> Fixed(n)
  }

  /** The fixed names differ, most of them in length. */
  lemma FixedNamesDiffer()
    ensures |CONFIG| == 11 && |SOURCE_CONFIG| == 18 && |DATABASE| == 16 && |SECRETS| == 16 && |ANCHORS| == 28
    ensures |LEARNING| == 29
    ensures |TLS_CERT| == 21 && |TLS_KEY| == 20 && |CUSTOM_ANCHORS| == 29
    ensures DATABASE != SECRETS && LEARNING != CUSTOM_ANCHORS
  {
  }

  lemma Limits()
    ensures FileLimit(DATABASE) == SealStream.MAX_ARCHIVE && FileLimit(SECRETS) == MAX_KEY
    ensures FileLimit(ANCHORS) == FileLimit(LEARNING) == FileLimit(TLS_CERT) == FileLimit(TLS_KEY) ==
            FileLimit(CUSTOM_ANCHORS) == MAX_STATE
    ensures FileLimit(SOURCE_CONFIG) == FileLimit(CONFIG) == MAX_CONFIG
  {
  }

  lemma RoomShrinks(a: seq<Item>, b: seq<Item>)
    ensures Room(a + b) ==> Room(a)
  {
    Joins(a, b);
  }

  /** Takes a file with a name of its own that was not taken before. */
  method AddOwn(c: Collector, name: string, limit: nat, optional: bool, probe: Probe, ghost used: set<string>)
    returns (ok: bool)
    requires c.Valid() && Fixed(name) && limit == FileLimit(name) && Names(c.items) <= used && name !in used
    modifies c
    ensures c.Valid() && Names(c.items) <= used + {name}
    ensures ok <==> Acceptable(limit, optional, probe) && Room(old(c.items) + Item1(name, probe))
    ensures ok ==> c.items == old(c.items) + Item1(name, probe)
  {
    FixedNamesAreValid(name);
    Joins(c.items, Item1(name, probe));
    ok := c.Add(name, limit, optional, probe);
  }

  /** An unset reference is as good as an optional file that is missing. */
  function Named(r: Reference): Probe {
    if r.Unset? then Missing else r.probe
  }

  method AddReference(c: Collector, name: string, r: Reference, ghost used: set<string>) returns (ok: bool)
    requires c.Valid() && Fixed(name) && FileLimit(name) == MAX_STATE && Names(c.items) <= used && name !in used
    modifies c
    ensures c.Valid() && Names(c.items) <= used + {name}
    ensures ok <==> Acceptable(MAX_STATE, r.Unset?, Named(r)) && Room(old(c.items) + Item1(name, Named(r)))
    ensures ok ==> c.items == old(c.items) + Item1(name, Named(r))
  {
    assert c.items + [] == c.items;
    if r.Unset? { return true; }
    ok := AddOwn(c, name, MAX_STATE, false, r.probe, used);
  }

  // The files with a name of their own, in the order they are taken.

  function DataItems(h: Host): seq<Item> {
    [] + Item1(DATABASE, h.database) + Item1(SECRETS, h.secrets) + Item1(ANCHORS, h.anchors) +
      Item1(LEARNING, h.learning)
  }

  predicate DataFine(h: Host) {
    && Acceptable(SealStream.MAX_ARCHIVE, false, h.database) && Acceptable(MAX_KEY, true, h.secrets)
    && Acceptable(MAX_STATE, true, h.anchors) && Acceptable(MAX_STATE, true, h.learning)
  }

  function FixedItems(h: Host): seq<Item> {
    DataItems(h) + Item1(SOURCE_CONFIG, h.source) + Item1(TLS_CERT, Named(h.tlsCert)) + Item1(TLS_KEY, Named(h.tlsKey))
    + Item1(CUSTOM_ANCHORS, Named(h.customAnchors))
  }

  predicate FixedFine(h: Host) {
    && DataFine(h) && Acceptable(MAX_CONFIG, true, h.source)
    && Acceptable(MAX_STATE, h.tlsCert.Unset?, Named(h.tlsCert))
    && Acceptable(MAX_STATE, h.tlsKey.Unset?, Named(h.tlsKey))
    && Acceptable(MAX_STATE, h.customAnchors.Unset?, Named(h.customAnchors))
  }

  const DATA_NAMES: set<string> := {DATABASE, SECRETS, ANCHORS, LEARNING}

  method AddData(c: Collector, h: Host) returns (ok: bool)
    requires c.Valid() && c.items == []
    modifies c
    ensures c.Valid() && Names(c.items) <= DATA_NAMES
    ensures ok <==> DataFine(h) && Room(DataItems(h))
    ensures ok ==> c.items == DataItems(h)
  {
    FixedNamesDiffer();
    Limits();
    ghost var one := [] + Item1(DATABASE, h.database);
    ghost var two := one + Item1(SECRETS, h.secrets);
    ghost var three := two + Item1(ANCHORS, h.anchors);
    RoomShrinks(one, Item1(SECRETS, h.secrets));
    RoomShrinks(two, Item1(ANCHORS, h.anchors));
    RoomShrinks(three, Item1(LEARNING, h.learning));
    ok := AddOwn(c, DATABASE, SealStream.MAX_ARCHIVE, false, h.database, {});
    if !ok { return; }
    ok := AddOwn(c, SECRETS, MAX_KEY, true, h.secrets, {DATABASE});
    if !ok { return; }
    ok := AddOwn(c, ANCHORS, MAX_STATE, true, h.anchors, {DATABASE, SECRETS});
    if !ok { return; }
    ok := AddOwn(c, LEARNING, MAX_STATE, true, h.learning, {DATABASE, SECRETS, ANCHORS});
  }

  const REFERENCE_NAMES: set<string> := {SOURCE_CONFIG, TLS_CERT, TLS_KEY, CUSTOM_ANCHORS}

  const NAMES: set<string> := DATA_NAMES + REFERENCE_NAMES

  lemma NamesAreFixed()
    ensures FixedOnly(NAMES) && CONFIG !in NAMES
  {
  }

  method AddReferences(c: Collector, h: Host) returns (ok: bool)
    requires c.Valid() && c.items == DataItems(h) && Names(c.items) <= DATA_NAMES && DataFine(h)
    modifies c
    ensures c.Valid() && Names(c.items) <= NAMES
    ensures ok <==> FixedFine(h) && Room(FixedItems(h))
    ensures ok ==> c.items == FixedItems(h)
  {
    FixedNamesDiffer();
    Limits();
    ghost var one := DataItems(h) + Item1(SOURCE_CONFIG, h.source);
    ghost var two := one + Item1(TLS_CERT, Named(h.tlsCert));
    ghost var three := two + Item1(TLS_KEY, Named(h.tlsKey));
    RoomShrinks(one, Item1(TLS_CERT, Named(h.tlsCert)));
    RoomShrinks(two, Item1(TLS_KEY, Named(h.tlsKey)));
    RoomShrinks(three, Item1(CUSTOM_ANCHORS, Named(h.customAnchors)));
    ok := AddOwn(c, SOURCE_CONFIG, MAX_CONFIG, true, h.source, DATA_NAMES);
    if !ok { return; }
    ok := AddReference(c, TLS_CERT, h.tlsCert, DATA_NAMES + {SOURCE_CONFIG});
    if !ok { return; }
    ok := AddReference(c, TLS_KEY, h.tlsKey, DATA_NAMES + {SOURCE_CONFIG, TLS_CERT});
    if !ok { return; }
    ok := AddReference(c, CUSTOM_ANCHORS, h.customAnchors, DATA_NAMES + {SOURCE_CONFIG, TLS_CERT, TLS_KEY});
  }

  /** The files with a name of their own, all but the configuration. */
  method AddFixed(c: Collector, h: Host) returns (ok: bool)
    requires c.Valid() && c.items == []
    modifies c
    ensures c.Valid() && Names(c.items) <= NAMES
    ensures ok <==> FixedFine(h) && Room(FixedItems(h))
    ensures ok ==> c.items == FixedItems(h)
  {
    FixedHaveRoom(h);
    ok := AddData(c, h);
    if !ok { return; }
    ok := AddReferences(c, h);
  }

  lemma FixedHaveRoom(h: Host)
    ensures Room(FixedItems(h)) ==> Room(DataItems(h))
  {
    var one := DataItems(h) + Item1(SOURCE_CONFIG, h.source);
    var two := one + Item1(TLS_CERT, Named(h.tlsCert));
    RoomShrinks(DataItems(h), Item1(SOURCE_CONFIG, h.source));
    RoomShrinks(one, Item1(TLS_CERT, Named(h.tlsCert)));
    RoomShrinks(two, Item1(TLS_KEY, Named(h.tlsKey)));
    RoomShrinks(two + Item1(TLS_KEY, Named(h.tlsKey)), Item1(CUSTOM_ANCHORS, Named(h.customAnchors)));
  }

  function TreeItems(prefix: string, d: Directory): seq<Item> {
    if d.Holding? then Below(prefix, d.found) else []
  }

  predicate TreeFine(prefix: string, d: Directory, optional: bool) {
    match d
    case Absent => optional
    case Unusable => false
    case Holding(found) => AllAcceptable(prefix, found)
  }

  method AddTree(c: Collector, prefix: string, d: Directory, optional: bool) returns (ok: bool)
    requires c.Valid() && (prefix == FEEDS || prefix == LOCAL) && Walked(d)
    requires forall n :: n in Names(c.items) ==> !(prefix <= n)
    modifies c
    ensures c.Valid()
    ensures ok <==> TreeFine(prefix, d, optional) && Room(old(c.items) + TreeItems(prefix, d))
    ensures ok ==> c.items == old(c.items) + TreeItems(prefix, d)
    ensures ok ==> forall n :: n in Names(c.items) ==> n in old(Names(c.items)) || prefix <= n
  {
    assert c.items + [] == c.items;
    TreeNames(prefix, d, c.items);
    match d {
      case Absent => ok := optional;
      case Unusable => ok := false;
      case Holding(found) => ok := c.AddDirectory(prefix, found);
    }
  }

  lemma TreeNames(prefix: string, d: Directory, items: seq<Item>)
    ensures forall n :: n in Names(items + TreeItems(prefix, d)) ==> n in Names(items) || prefix <= n
  {
    Joins(items, TreeItems(prefix, d));
    if d.Holding? { BelowNames(prefix, d.found); }
  }

  // ---------- everything ----------

  function LocalItems(h: Host, useLocal: bool): seq<Item> {
    if useLocal then TreeItems(LOCAL, h.local) else []
  }

  /** Everything a backup of this host holds, in the order it is taken. */
  function Everything(h: Host, useLocal: bool): seq<Item> {
    FixedItems(h) + TreeItems(FEEDS, h.feeds) + LocalItems(h, useLocal) + Item1(CONFIG, h.config)
  }

  /** Every file can be taken, and there is room for all. */
  predicate Collectable(h: Host, useLocal: bool) {
    && FixedFine(h) && TreeFine(FEEDS, h.feeds, true) && (useLocal ==> TreeFine(LOCAL, h.local, false))
    && Acceptable(MAX_CONFIG, false, h.config) && Room(Everything(h, useLocal))
  }

  lemma RoomAlong(h: Host, useLocal: bool)
    ensures Room(Everything(h, useLocal)) ==>
              && Room(FixedItems(h)) && Room(FixedItems(h) + TreeItems(FEEDS, h.feeds))
              && Room(FixedItems(h) + TreeItems(FEEDS, h.feeds) + LocalItems(h, useLocal))
  {
    RoomShrinks(FixedItems(h), TreeItems(FEEDS, h.feeds));
    RoomShrinks(FixedItems(h) + TreeItems(FEEDS, h.feeds), LocalItems(h, useLocal));
    RoomShrinks(FixedItems(h) + TreeItems(FEEDS, h.feeds) + LocalItems(h, useLocal), Item1(CONFIG, h.config));
  }

  /** The configuration and the database are always part of it. */
  lemma HasBoth(h: Host, useLocal: bool)
    requires Collectable(h, useLocal)
    ensures CONFIG in Names(Everything(h, useLocal)) && DATABASE in Names(Everything(h, useLocal))
  {
    var d, s := Item1(DATABASE, h.database), FixedItems(h);
    assert [] + d == d;
    Joins(d, Item1(SECRETS, h.secrets));
    Joins(d + Item1(SECRETS, h.secrets), Item1(ANCHORS, h.anchors));
    Joins(d + Item1(SECRETS, h.secrets) + Item1(ANCHORS, h.anchors), Item1(LEARNING, h.learning));
    assert DATABASE in Names(DataItems(h));
    FixedKeep(h);
    Joins(s, TreeItems(FEEDS, h.feeds));
    Joins(s + TreeItems(FEEDS, h.feeds), LocalItems(h, useLocal));
    Joins(s + TreeItems(FEEDS, h.feeds) + LocalItems(h, useLocal), Item1(CONFIG, h.config));
  }

  lemma FixedKeep(h: Host)
    ensures Names(DataItems(h)) <= Names(FixedItems(h))
  {
    var one := DataItems(h) + Item1(SOURCE_CONFIG, h.source);
    var two := one + Item1(TLS_CERT, Named(h.tlsCert));
    var three := two + Item1(TLS_KEY, Named(h.tlsKey));
    Joins(DataItems(h), Item1(SOURCE_CONFIG, h.source));
    Joins(one, Item1(TLS_CERT, Named(h.tlsCert)));
    Joins(two, Item1(TLS_KEY, Named(h.tlsKey)));
    Joins(three, Item1(CUSTOM_ANCHORS, Named(h.customAnchors)));
  }

  /** Distinct offered files with names from a set. */
  ghost predicate Fine(items: seq<Item>, used: set<string>) {
    Distinct(items) && AllOffered(items) && Names(items) <= used
  }

  lemma OneMoreProbe(items: seq<Item>, name: string, probe: Probe)
    ensures Names(items + Item1(name, probe)) <= Names(items) + {name}
    ensures Distinct(items) && name !in Names(items) ==> Distinct(items + Item1(name, probe))
    ensures AllOffered(items) && ValidName(name) && Allowed(name) && Acceptable(FileLimit(name), true, probe) ==>
              AllOffered(items + Item1(name, probe))
  {
    if probe.Regular? {
      Appended(items, Item1(name, probe)[0]);
    } else {
      assert items + [] == items;
    }
  }

  lemma OneMoreFine(items: seq<Item>, name: string, limit: nat, optional: bool, probe: Probe, used: set<string>)
    requires Fixed(name) && name !in used && limit == FileLimit(name)
    ensures Names(items) <= used ==> Names(items + Item1(name, probe)) <= used + {name}
    ensures Fine(items, used) && Acceptable(limit, optional, probe) ==>
              Fine(items + Item1(name, probe), used + {name})
  {
    FixedNamesAreValid(name);
    OneMoreProbe(items, name, probe);
  }

  lemma DataItemsAreFine(h: Host)
    ensures Names(DataItems(h)) <= DATA_NAMES && (DataFine(h) ==> Fine(DataItems(h), DATA_NAMES))
  {
    var one := [] + Item1(DATABASE, h.database);
    var two := one + Item1(SECRETS, h.secrets);
    FixedNamesDiffer();
    Limits();
    OneMoreFine([], DATABASE, SealStream.MAX_ARCHIVE, false, h.database, {});
    OneMoreFine(one, SECRETS, MAX_KEY, true, h.secrets, {DATABASE});
    OneMoreFine(two, ANCHORS, MAX_STATE, true, h.anchors, {DATABASE, SECRETS});
    OneMoreFine(two + Item1(ANCHORS, h.anchors), LEARNING, MAX_STATE, true, h.learning, {DATABASE, SECRETS, ANCHORS});
  }

  lemma ReferencesAreFine(h: Host, used: set<string>)
    requires Names(DataItems(h)) <= used <= DATA_NAMES
    ensures Names(FixedItems(h)) <= used + REFERENCE_NAMES
    ensures FixedFine(h) && Fine(DataItems(h), used) ==> Fine(FixedItems(h), used + REFERENCE_NAMES)
  {
    var one := DataItems(h) + Item1(SOURCE_CONFIG, h.source);
    var two := one + Item1(TLS_CERT, Named(h.tlsCert));
    var three := two + Item1(TLS_KEY, Named(h.tlsKey));
    FixedNamesDiffer();
    Limits();
    OneMoreFine(DataItems(h), SOURCE_CONFIG, MAX_CONFIG, true, h.source, used);
    OneMoreFine(one, TLS_CERT, MAX_STATE, h.tlsCert.Unset?, Named(h.tlsCert), used + {SOURCE_CONFIG});
    OneMoreFine(two, TLS_KEY, MAX_STATE, h.tlsKey.Unset?, Named(h.tlsKey), used + {SOURCE_CONFIG, TLS_CERT});
    OneMoreFine(three, CUSTOM_ANCHORS, MAX_STATE, h.customAnchors.Unset?, Named(h.customAnchors),
                used + {SOURCE_CONFIG, TLS_CERT, TLS_KEY});
  }

  lemma FixedItemsAreFine(h: Host)
    ensures Names(FixedItems(h)) <= NAMES && (FixedFine(h) ==> Fine(FixedItems(h), NAMES))
  {
    DataItemsAreFine(h);
    ReferencesAreFine(h, DATA_NAMES);
  }

  lemma DataWithoutKey(h: Host)
    requires !h.secrets.Regular?
    ensures Names(DataItems(h)) <= {DATABASE, ANCHORS, LEARNING}
  {
    var d := [] + Item1(DATABASE, h.database);
    assert d + [] == d;
    OneMoreProbe([], DATABASE, h.database);
    OneMoreProbe(d, ANCHORS, h.anchors);
    OneMoreProbe(d + Item1(ANCHORS, h.anchors), LEARNING, h.learning);
  }

  lemma FixedWithoutKey(h: Host)
    requires !h.secrets.Regular?
    ensures SECRETS !in Names(FixedItems(h))
  {
    DataWithoutKey(h);
    FixedNamesDiffer();
    ReferencesAreFine(h, {DATABASE, ANCHORS, LEARNING});
  }

  /** Without a key file there is no file of that name. */
  lemma NoKeyNoItem(h: Host, useLocal: bool)
    requires !h.secrets.Regular?
    ensures SECRETS !in Names(Everything(h, useLocal))
  {
    FixedWithoutKey(h);
    EverythingNames(h, useLocal);
    FixedNamesDiffer();
    SixthCharacter(SECRETS);
    if SECRETS in Names(TreeItems(FEEDS, h.feeds)) { TreePlace(FEEDS, h.feeds, SECRETS); }
    if SECRETS in Names(TreeItems(LOCAL, h.local)) { TreePlace(LOCAL, h.local, SECRETS); }
  }

  /** Files of one walk can be put back side by side. */
  lemma TreeApart(prefix: string, d: Directory)
    requires Walked(d)
    ensures Apart(Names(TreeItems(prefix, d)))
  {
    forall a, b | a in Names(TreeItems(prefix, d)) && b in Names(TreeItems(prefix, d)) ensures !Beneath(a, b) {
      var i := FoundAs(prefix, d, a);
      var j := FoundAs(prefix, d, b);
      SamePrefix(prefix, d.found[i].path, d.found[j].path);
    }
  }

  lemma FoundAs(prefix: string, d: Directory, n: string) returns (i: nat)
    requires n in Names(TreeItems(prefix, d))
    ensures d.Holding? && i < |d.found| && n == prefix + d.found[i].path
  {
    BelowNames(prefix, d.found);
    var j :| 0 <= j < |d.found| && n == prefix + d.found[j].path;
    i := j;
  }

  lemma SamePrefix(prefix: string, p: string, q: string)
    ensures Beneath(prefix + p, prefix + q) ==> Beneath(p, q)
  {
    var a, b := prefix + p, prefix + q;
    if Beneath(a, b) {
      assert a[|prefix|..] == p && b[|prefix|..] == q && a[..|b|] == b;
      assert p[..|q|] == a[..|b|][|prefix|..];
    }
  }

  lemma EverythingNames(h: Host, useLocal: bool)
    ensures Names(Everything(h, useLocal)) ==
            Names(FixedItems(h)) + Names(TreeItems(FEEDS, h.feeds)) + Names(LocalItems(h, useLocal)) +
            Names(Item1(CONFIG, h.config))
  {
    var one := FixedItems(h) + TreeItems(FEEDS, h.feeds);
    Joins(FixedItems(h), TreeItems(FEEDS, h.feeds));
    Joins(one, LocalItems(h, useLocal));
    Joins(one + LocalItems(h, useLocal), Item1(CONFIG, h.config));
  }

  lemma TreePlace(prefix: string, d: Directory, n: string)
    requires n in Names(TreeItems(prefix, d))
    ensures prefix <= n
  {
    BelowNames(prefix, d.found);
  }

  /** Where a name of the backup comes from. */
  lemma Places(h: Host, useLocal: bool, n: string)
    requires n in Names(Everything(h, useLocal))
    ensures Fixed(n) || FEEDS <= n || LOCAL <= n
    ensures FEEDS <= n ==> n in Names(TreeItems(FEEDS, h.feeds))
    ensures LOCAL <= n ==> n in Names(TreeItems(LOCAL, h.local))
  {
    EverythingNames(h, useLocal);
    FixedItemsAreFine(h);
    NamesAreFixed();
    if n in Names(TreeItems(FEEDS, h.feeds)) {
      TreePlace(FEEDS, h.feeds, n);
      DirectoriesAreApart(n);
    } else if n in Names(LocalItems(h, useLocal)) {
      TreePlace(LOCAL, h.local, n);
      DirectoriesAreApart(n);
    } else {
      SixthCharacter(n);
    }
  }

  /** No file of a backup lies beneath another one's name, so that all can be put back. */
  lemma EverythingApart(h: Host, useLocal: bool)
    requires Walked(h.feeds) && Walked(h.local)
    ensures Apart(Names(Everything(h, useLocal)))
  {
    TreeApart(FEEDS, h.feeds);
    TreeApart(LOCAL, h.local);
    forall a, b | a in Names(Everything(h, useLocal)) && b in Names(Everything(h, useLocal)) ensures !Beneath(a, b) {
      Places(h, useLocal, a);
      Places(h, useLocal, b);
      if Beneath(a, b) { OnlyWithinDirectories(a, b); }
    }
  }

  lemma {:induction false} BelowIsFine(prefix: string, found: seq<Found>)
    requires (prefix == FEEDS || prefix == LOCAL) && DistinctPaths(found) && AllAcceptable(prefix, found)
    ensures Distinct(Below(prefix, found)) && AllOffered(Below(prefix, found))
  {
    if found != [] {
      var n := |found| - 1;
      var name := prefix + found[n].path;
      BelowIsFine(prefix, found[..n]);
      DirectoriesAreApart(name);
      NotTakenYet(prefix, found, n, []);
      assert [] + Below(prefix, found[..n]) == Below(prefix, found[..n]);
      OneMoreProbe(Below(prefix, found[..n]), name, found[n].probe);
    }
  }

  lemma TreeIsFine(prefix: string, d: Directory, optional: bool)
    requires (prefix == FEEDS || prefix == LOCAL) && Walked(d) && TreeFine(prefix, d, optional)
    ensures Distinct(TreeItems(prefix, d)) && AllOffered(TreeItems(prefix, d))
    ensures forall n :: n in Names(TreeItems(prefix, d)) ==> prefix <= n
  {
    TreeNames(prefix, d, []);
    assert [] + TreeItems(prefix, d) == TreeItems(prefix, d);
    if d.Holding? { BelowIsFine(prefix, d.found); }
  }

  lemma JoinFine(a: seq<Item>, m: set<string>, b: seq<Item>, n: set<string>)
    requires Fine(a, m) && Fine(b, n) && m !! n
    ensures Fine(a + b, m + n)
  {
    Joins(a, b);
    Parts(a, b);
  }

  lemma ConfigIsFine(h: Host)
    requires Acceptable(MAX_CONFIG, false, h.config)
    ensures Fine(Item1(CONFIG, h.config), {CONFIG})
  {
    FixedNamesAreValid(CONFIG);
    Limits();
  }

  lemma TreesAreFine(h: Host, useLocal: bool)
    requires Walked(h.feeds) && Walked(h.local) && Collectable(h, useLocal)
    ensures var feeds, local := TreeItems(FEEDS, h.feeds), LocalItems(h, useLocal);
            && Fine(feeds, Names(feeds)) && Fine(local, Names(local))
            && (forall n :: n in Names(feeds) ==> !Fixed(n)) && (forall n :: n in Names(local) ==> !Fixed(n))
            && Names(feeds) !! Names(local)
  {
    var feeds, local := TreeItems(FEEDS, h.feeds), LocalItems(h, useLocal);
    TreeIsFine(FEEDS, h.feeds, true);
    if useLocal { TreeIsFine(LOCAL, h.local, false); }
    forall n | n in Names(feeds) ensures !Fixed(n) && n !in Names(local) { DirectoriesAreApart(n); }
    forall n | n in Names(local) ensures !Fixed(n) { DirectoriesAreApart(n); }
  }

  /** What can be collected is distinct and within the limits. */
  lemma CollectableIsProper(h: Host, useLocal: bool)
    requires Walked(h.feeds) && Walked(h.local) && Collectable(h, useLocal)
    ensures Proper(Everything(h, useLocal)) && Proper(ItemsOf(h, useLocal))
  {
    var f, feeds, local := FixedItems(h), TreeItems(FEEDS, h.feeds), LocalItems(h, useLocal);
    var c := Item1(CONFIG, h.config);
    FixedItemsAreFine(h);
    NamesAreFixed();
    TreesAreFine(h, useLocal);
    ConfigIsFine(h);
    JoinFine(f, NAMES, feeds, Names(feeds));
    JoinFine(f + feeds, NAMES + Names(feeds), local, Names(local));
    JoinFine(f + feeds + local, NAMES + Names(feeds) + Names(local), c, {CONFIG});
    SortKeepsChecks(Everything(h, useLocal));
  }

  /** What a backup of the host holds, in the order of the archive. */
  function ItemsOf(h: Host, useLocal: bool): seq<Item> {
    ByName(Everything(h, useLocal))
  }

  // ---------- what the host holds ----------

  /** The item that a regular file becomes under this name. */
  predicate Records(x: Item, name: string, probe: Probe) {
    x.name == name && probe == Regular(x.before, x.size, x.hashed, x.copied)
  }

  predicate DataOnHost(h: Host, x: Item) {
    || Records(x, DATABASE, h.database) || Records(x, SECRETS, h.secrets) || Records(x, ANCHORS, h.anchors)
    || Records(x, LEARNING, h.learning)
  }

  predicate ReferenceOnHost(h: Host, x: Item) {
    || Records(x, SOURCE_CONFIG, h.source)
    || (h.tlsCert.Set? && Records(x, TLS_CERT, h.tlsCert.probe))
    || (h.tlsKey.Set? && Records(x, TLS_KEY, h.tlsKey.probe))
    || (h.customAnchors.Set? && Records(x, CUSTOM_ANCHORS, h.customAnchors.probe))
  }

  ghost predicate FoundOnHost(prefix: string, d: Directory, x: Item) {
    d.Holding? && exists i :: 0 <= i < |d.found| && Records(x, prefix + d.found[i].path, d.found[i].probe)
  }

  ghost predicate ListFile(name: string) {
    exists stem :: name == stem + ".list"
  }

  /** Of the feed directory only the effective caches are taken, of the other everything. */
  ghost predicate ToTake(prefix: string, d: Directory, x: Item) {
    FoundOnHost(prefix, d, x) && (prefix == LOCAL || ListFile(x.name))
  }

  /** The regular files a backup is for: those with a place of their own, the feed caches, and with
      a local directory every file below it. */
  ghost predicate OnHost(h: Host, useLocal: bool, x: Item) {
    || DataOnHost(h, x) || ReferenceOnHost(h, x) || Records(x, CONFIG, h.config)
    || (FoundOnHost(FEEDS, h.feeds, x) && ListFile(x.name)) || (useLocal && FoundOnHost(LOCAL, h.local, x))
  }

  lemma ListNames(name: string, suffix: string)
    ensures HasSuffix(name, suffix) <==> exists stem :: name == stem + suffix
  {
    if HasSuffix(name, suffix) { assert name == name[..|name| - |suffix|] + suffix; }
  }

  predicate TakenAs(prefix: string, f: Found, x: Item) {
    Captured(prefix, f) && Records(x, prefix + f.path, f.probe)
  }

  predicate Takes(prefix: string, found: seq<Found>, x: Item) {
    exists i :: 0 <= i < |found| && TakenAs(prefix, found[i], x)
  }

  lemma TakesBut(prefix: string, found: seq<Found>, x: Item)
    requires found != []
    ensures Takes(prefix, found, x) <==>
            Takes(prefix, found[..|found| - 1], x) || TakenAs(prefix, found[|found| - 1], x)
  {
    var rest := found[..|found| - 1];
    assert forall i :: 0 <= i < |rest| ==> rest[i] == found[i];
  }

  lemma BelowBut(prefix: string, found: seq<Found>, x: Item)
    requires found != []
    ensures x in Below(prefix, found) <==>
            x in Below(prefix, found[..|found| - 1]) || TakenAs(prefix, found[|found| - 1], x)
  {
  }

  lemma {:induction false} BelowHolds(prefix: string, found: seq<Found>, x: Item)
    ensures x in Below(prefix, found) <==> Takes(prefix, found, x)
  {
    if found != [] {
      BelowHolds(prefix, found[..|found| - 1], x);
      TakesBut(prefix, found, x);
      BelowBut(prefix, found, x);
    }
  }

  lemma TreeHolds(prefix: string, d: Directory, x: Item)
    requires prefix == FEEDS || prefix == LOCAL
    ensures x in TreeItems(prefix, d) <==> ToTake(prefix, d, x)
  {
    OtherPrefix(prefix);
    ListNames(x.name, ".list");
    if d.Holding? {
      BelowHolds(prefix, d.found, x);
      forall i | 0 <= i < |d.found| && Records(x, prefix + d.found[i].path, d.found[i].probe)
        ensures Captured(prefix, d.found[i]) <==> (prefix == LOCAL || ListFile(x.name))
      {
        assert x.name == prefix + d.found[i].path;
      }
    }
  }

  lemma FixedHold(h: Host, x: Item)
    ensures x in DataItems(h) <==> DataOnHost(h, x)
    ensures x in FixedItems(h) <==> DataOnHost(h, x) || ReferenceOnHost(h, x)
  {
  }

  /** A backup holds exactly the host's files, each with what was found of it. */
  lemma HoldsTheHost(h: Host, useLocal: bool, x: Item)
    ensures x in Everything(h, useLocal) <==> OnHost(h, useLocal, x)
    ensures x in ItemsOf(h, useLocal) <==> OnHost(h, useLocal, x)
  {
    FixedHold(h, x);
    TreeHolds(FEEDS, h.feeds, x);
    TreeHolds(LOCAL, h.local, x);
    OtherPrefix(FEEDS);
    SortMembers(Everything(h, useLocal), NamedBefore);
  }

  predicate Usable(probe: Probe, limit: nat) {
    probe.Regular? && probe.before <= limit
  }

  /** A file found below a directory has a valid name and, if it is one to be taken, is a regular file. */
  ghost predicate Sound(prefix: string, f: Found) {
    ValidName(prefix + f.path) &&
    (prefix == LOCAL || ListFile(prefix + f.path) ==> Usable(f.probe, SealStream.MAX_ARCHIVE))
  }

  ghost predicate AllSound(prefix: string, found: seq<Found>) {
    forall i :: 0 <= i < |found| ==> Sound(prefix, found[i])
  }

  /** Whatever a backup must have is there, and nothing it would take is something else than a
      regular file within its limit. */
  ghost predicate Gatherable(h: Host, useLocal: bool) {
    && Usable(h.database, SealStream.MAX_ARCHIVE) && Usable(h.config, MAX_CONFIG)
    && (h.secrets.Missing? || Usable(h.secrets, MAX_KEY)) && (h.source.Missing? || Usable(h.source, MAX_CONFIG))
    && (h.anchors.Missing? || Usable(h.anchors, MAX_STATE)) && (h.learning.Missing? || Usable(h.learning, MAX_STATE))
    && (h.tlsCert.Unset? || Usable(h.tlsCert.probe, MAX_STATE))
    && (h.tlsKey.Unset? || Usable(h.tlsKey.probe, MAX_STATE))
    && (h.customAnchors.Unset? || Usable(h.customAnchors.probe, MAX_STATE))
    && (h.feeds.Absent? || (h.feeds.Holding? && AllSound(FEEDS, h.feeds.found)))
    && (useLocal ==> h.local.Holding? && AllSound(LOCAL, h.local.found))
  }

  lemma OtherPrefix(prefix: string)
    requires prefix == FEEDS || prefix == LOCAL
    ensures prefix == LOCAL <==> prefix != FEEDS
  {
    assert FEEDS[5] == 'f' && LOCAL[5] == 'l';
  }

  lemma FoundIsSound(prefix: string, f: Found)
    requires prefix == FEEDS || prefix == LOCAL
    ensures Sound(prefix, f) <==>
            ValidName(prefix + f.path) && (Captured(prefix, f) ==> Acceptable(SealStream.MAX_ARCHIVE, false, f.probe))
  {
    OtherPrefix(prefix);
    ListNames(prefix + f.path, ".list");
  }

  lemma AllSoundBut(prefix: string, found: seq<Found>)
    requires found != []
    ensures AllSound(prefix, found) <==>
            AllSound(prefix, found[..|found| - 1]) && Sound(prefix, found[|found| - 1])
  {
    var rest := found[..|found| - 1];
    assert forall i :: 0 <= i < |rest| ==> rest[i] == found[i];
  }

  lemma {:induction false} AcceptableIsSound(prefix: string, found: seq<Found>)
    requires prefix == FEEDS || prefix == LOCAL
    ensures AllAcceptable(prefix, found) <==> AllSound(prefix, found)
  {
    if found != [] {
      AcceptableIsSound(prefix, found[..|found| - 1]);
      FoundIsSound(prefix, found[|found| - 1]);
      AllSoundBut(prefix, found);
    }
  }

  /** A host's files can be collected exactly if all of them are in order and there is room for them. */
  lemma CollectableExactly(h: Host, useLocal: bool)
    ensures Collectable(h, useLocal) <==> Gatherable(h, useLocal) && Room(Everything(h, useLocal))
  {
    if h.feeds.Holding? { AcceptableIsSound(FEEDS, h.feeds.found); }
    if h.local.Holding? { AcceptableIsSound(LOCAL, h.local.found); }
  }

  ghost predicate HoldsHost(items: seq<Item>, h: Host, useLocal: bool) {
    forall x :: x in items <==> OnHost(h, useLocal, x)
  }

  /** So what can be collected, and what is, can be read off the host. */
  lemma ItemsAreTheHost(h: Host, useLocal: bool)
    ensures Collectable(h, useLocal) <==> Gatherable(h, useLocal) && Room(ItemsOf(h, useLocal))
    ensures HoldsHost(ItemsOf(h, useLocal), h, useLocal)
  {
    CollectableExactly(h, useLocal);
    SortKeepsChecks(Everything(h, useLocal));
    forall x ensures x in ItemsOf(h, useLocal) <==> OnHost(h, useLocal, x) { HoldsTheHost(h, useLocal, x); }
  }

  /** Collects everything a backup holds, or nothing if any of it cannot be taken. */
  method Collect(h: Host, useLocal: bool) returns (ok: bool, items: seq<Item>)
    requires Walked(h.feeds) && Walked(h.local)
    ensures ok <==> Gatherable(h, useLocal) && Room(ItemsOf(h, useLocal))
    ensures ok <==> Collectable(h, useLocal)
    ensures ok ==> items == ItemsOf(h, useLocal) && Proper(items)
    ensures ok ==> HoldsHost(items, h, useLocal)
  {
    ItemsAreTheHost(h, useLocal);
    var c := new Collector();
    items := [];
    RoomAlong(h, useLocal);
    ok := AddFixed(c, h);
    if !ok { return; }
    NotBelow(Names(c.items));
    ok := AddTree(c, FEEDS, h.feeds, true);
    if !ok { return; }
    NotBelowLocal(Names(c.items));
    assert c.items + [] == c.items;
    if useLocal {
      ok := AddTree(c, LOCAL, h.local, false);
      if !ok { return; }
    }
    FixedNamesAreValid(CONFIG);
    Limits();
    ok := c.Add(CONFIG, MAX_CONFIG, false, h.config);
    SortKeepsChecks(c.items);
    items := ByName(c.items);
  }

  lemma NotBelow(names: set<string>)
    requires names <= NAMES
    ensures CONFIG !in names && forall n :: n in names ==> !(FEEDS <= n) && !(LOCAL <= n) && Fixed(n)
  {
    NamesAreFixed();
    forall n | n in names ensures !(FEEDS <= n) && !(LOCAL <= n) && Fixed(n) { SixthCharacter(n); }
  }

  lemma NotBelowLocal(names: set<string>)
    requires forall n :: n in names ==> (Fixed(n) && n != CONFIG) || FEEDS <= n
    ensures CONFIG !in names && forall n :: n in names ==> !(LOCAL <= n)
  {
    SixthCharacter(CONFIG);
    forall n | n in names ensures !(LOCAL <= n) { SixthCharacter(n); }
  }

  /** What a file held when it was hashed; nothing if it is missing. */
  function Hashed(probe: Probe): Bytes {
    if probe.Regular? then probe.hashed else []
  }

  /** The key file as the credentials were checked with it. The database they are checked in is
      the backup's own snapshot, which nobody else writes. */
  function KeyChecked(h: Host): Bytes {
    if h.secrets.Regular? then h.keyChecked else []
  }

  /** Makes the archive: the manifest and, behind it, each file as it was when hashed. */
  method Create(h: Host, useLocal: bool, vault: Credentials.Vault, digest: Bytes -> Bytes,
                manifestSize: seq<File> -> nat, fits: string -> bool)
    returns (ok: bool, p: Package)
    requires Walked(h.feeds) && Walked(h.local)
    ensures var items := ItemsOf(h, useLocal);
            && (ok <==> Collectable(h, useLocal) && Credentials.Fits(vault, Hashed(h.database), KeyChecked(h)) &&
                        manifestSize(Listed(digest, items)) <= MAX_MANIFEST &&
                        AllStable(digest, items) && forall i :: 0 <= i < |items| ==> fits(items[i].name))
            && (ok ==> Gatherable(h, useLocal) && HoldsHost(items, h, useLocal))
            && (ok ==> p == PackageOf(digest, items) && Proper(items) && Apart(Names(items)) &&
                       CONFIG in Names(items) && DATABASE in Names(items) &&
                       TarLength(manifestSize(p.files), items) <= SealStream.MAX_ARCHIVE)
  {
    p := Package([], []);
    var items;
    ok, items := Collect(h, useLocal);
    if !ok { return; }
    ok := Credentials.Validate(vault, Hashed(h.database), KeyChecked(h));
    if !ok { return; }
    EverythingApart(h, useLocal);
    var files := Listed(digest, items);
    if manifestSize(files) > MAX_MANIFEST { return false, p; }
    HasBoth(h, useLocal);
    SortKeepsChecks(Everything(h, useLocal));
    ArchiveFits(manifestSize(files), items);
    var entries;
    ok, entries := Copy(items, digest, fits);
    if ok { p := Package(files, entries); }
  }

  /** Copies the files behind the manifest; each must still be what was hashed. */
  method Copy(items: seq<Item>, digest: Bytes -> Bytes, fits: string -> bool) returns (ok: bool, entries: seq<Entry>)
    ensures ok <==> AllStable(digest, items) && forall i :: 0 <= i < |items| ==> fits(items[i].name)
    ensures ok ==> entries == Stored(items)
  {
    entries := [];
    assert items[0..] == items;
    for i := 0 to |items|
      invariant entries + Stored(items[i..]) == Stored(items)
      invariant AllStable(digest, items) <==> AllStable(digest, items[i..])
      invariant forall j :: 0 <= j < i ==> fits(items[j].name)
    {
      var x := items[i];
      assert items[i..][1..] == items[i + 1..];
      if !fits(x.name) || !Stable(digest, x) { return false, entries; }
      entries := entries + [Entry(x.name, x.copied)];
      assert entries + Stored(items[i + 1..]) == Stored(items);
    }
    assert entries + [] == entries;
    ok := true;
  }
}
