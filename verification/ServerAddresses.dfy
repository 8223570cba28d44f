/** The bounded lists of local addresses a server reports. */
module ServerAddresses {
  import opened Options
  import opened Ordering
  import opened BoundedSelection

  const ADDRESS_LIMIT: nat := 32
  const INTERFACE_ADDRESS_LIMIT: nat := 128

  datatype Address = Address(v4: bool, value: nat)

  datatype Kind = Private | Public | Loopback | LinkLocal

  /** How texts read as host addresses, what kind those are, and which reach a configured listener. */
  datatype Scene = Scene(
    parse: string -> Option<Address>,
    kind: Address -> Option<Kind>,
    shared: Address -> bool,
    reachable: (Address, string) -> bool)

  datatype Interface = Interface(name: string, up: bool, loopback: bool, addresses: seq<string>)

  /** All but loopback is shown to the client. */
  datatype ServerAddress = ServerAddress(address: Address, kind: Kind, name: string, endpoints: bool, loopback: bool)

  // ---------- one interface's texts ----------

  lemma LexIsStrict()
    ensures StrictOrder(LexLess)
  {
    forall x: string, y: string | LexLess(x, y) ensures !LexLess(y, x) { LexIsAsymmetric(x, y); }
    forall x: string, y: string, z: string | LexLess(x, y) && LexLess(y, z) ensures LexLess(x, z) {
      LexIsTransitive(x, y, z);
    }
    forall x: string, y: string ensures LexLess(x, y) || LexLess(y, x) || x == y { LexIsTotal(x, y); }
  }

  /** The texts short enough to be kept. */
  function Texts(values: seq<Option<string>>): set<string> {
    set i | 0 <= i < |values| && values[i].Some? && |values[i].value| <= 256 :: values[i].value
  }

  function Overlong(values: seq<Option<string>>): bool {
    exists i :: 0 <= i < |values| && values[i].Some? && |values[i].value| > 256
  }

  /** Keeps the least 128 distinct texts, and says whether any was too long or had to go. */
  method ReadAddresses(values: seq<Option<string>>) returns (kept: seq<string>, truncated: bool, partial: bool)
    ensures Selects(LexLess, kept, Texts(values), INTERFACE_ADDRESS_LIMIT)
    ensures truncated <==> |Texts(values)| > INTERFACE_ADDRESS_LIMIT
    ensures partial <==> Overlong(values)
  {
    LexIsStrict();
    kept, truncated, partial := [], false, false;
    assert Texts(values[..0]) == {};
    for i := 0 to |values|
      invariant Selects(LexLess, kept, Texts(values[..i]), INTERFACE_ADDRESS_LIMIT)
      invariant truncated <==> |Texts(values[..i])| > INTERFACE_ADDRESS_LIMIT
      invariant partial <==> Overlong(values[..i])
    {
      OneMoreText(values, i);
      if values[i].None? { continue; }
      var raw := values[i].value;
      if |raw| > 256 {
        partial := true;
        continue;
      }
      InsertSelects(LexLess, kept, Texts(values[..i]), raw, INTERFACE_ADDRESS_LIMIT);
      Splits(LexLess, kept, raw);
      var index := Position(LexLess, kept, raw);
      if FoundAt(kept, index, raw) { continue; }
      if |kept| == INTERFACE_ADDRESS_LIMIT {
        truncated := true;
        if index == |kept| { continue; }
        kept := kept[..|kept| - 1];
      }
      kept := Put(kept, index, raw);
    }
    assert values[..|values|] == values;
  }

  lemma OneMoreText(values: seq<Option<string>>, i: nat)
    requires i < |values|
    ensures Texts(values[..i + 1]) ==
            Texts(values[..i]) + if values[i].Some? && |values[i].value| <= 256 then {values[i].value} else {}
    ensures Overlong(values[..i + 1]) <==> Overlong(values[..i]) || (values[i].Some? && |values[i].value| > 256)
  {
  }

  // ---------- the order of addresses ----------

  predicate Preferred(a: ServerAddress) {
    !a.loopback && (a.kind == Private || a.kind == Public) && a.endpoints
  }

  function Rank(scene: Scene, a: ServerAddress): nat {
    match a.kind
    case Private => if scene.shared(a.address) then 1 else 0
    case Public => 2
    case Loopback => 3
    case LinkLocal => 4
  }

  function CompareStrings(a: string, b: string): int {
    if LexLess(a, b) then -1 else if a == b then 0 else 1
  }

  /** Preferred first, then by rank, family, value and interface. */
  function Compare(scene: Scene, a: ServerAddress, b: ServerAddress): int {
    if Preferred(a) != Preferred(b) then if Preferred(a) then -1 else 1
    else if Rank(scene, a) != Rank(scene, b) then Rank(scene, a) - Rank(scene, b)
    else if a.address.v4 != b.address.v4 then if a.address.v4 then -1 else 1
    else if a.address.value != b.address.value then if a.address.value < b.address.value then -1 else 1
    else CompareStrings(a.name, b.name)
  }

  datatype Key = Key(late: bool, rank: nat, v4: bool, value: nat, name: string)

  function KeyOf(scene: Scene, a: ServerAddress): Key {
    Key(!Preferred(a), Rank(scene, a), a.address.v4, a.address.value, a.name)
  }

  predicate KeyLess(a: Key, b: Key) {
    if a.late != b.late then b.late
    else if a.rank != b.rank then a.rank < b.rank
    else if a.v4 != b.v4 then a.v4
    else if a.value != b.value then a.value < b.value
    else LexLess(a.name, b.name)
  }

  lemma KeyLessIsStrict()
    ensures StrictOrder(KeyLess)
  {
    forall x: Key, y: Key | KeyLess(x, y) ensures !KeyLess(y, x) {
      if LexLess(x.name, y.name) { LexIsAsymmetric(x.name, y.name); }
    }
    forall x: Key, y: Key, z: Key | KeyLess(x, y) && KeyLess(y, z) ensures KeyLess(x, z) {
      if LexLess(x.name, y.name) && LexLess(y.name, z.name) { LexIsTransitive(x.name, y.name, z.name); }
    }
    forall x: Key, y: Key ensures KeyLess(x, y) || KeyLess(y, x) || x == y { LexIsTotal(x.name, y.name); }
  }

  /** The comparison orders addresses by their keys. */
  lemma ComparesKeys(scene: Scene, a: ServerAddress, b: ServerAddress)
    ensures Compare(scene, a, b) < 0 <==> KeyLess(KeyOf(scene, a), KeyOf(scene, b))
    ensures Compare(scene, a, b) == 0 <==> KeyOf(scene, a) == KeyOf(scene, b)
    ensures Compare(scene, a, b) > 0 <==> KeyLess(KeyOf(scene, b), KeyOf(scene, a))
  {
    LexIsTotal(a.name, b.name);
    if LexLess(a.name, b.name) { LexIsAsymmetric(a.name, b.name); }
    if LexLess(b.name, a.name) { LexIsAsymmetric(b.name, a.name); }
  }

  function Keys(scene: Scene, list: seq<ServerAddress>): seq<Key> {
    seq(|list|, i requires 0 <= i < |list| => KeyOf(scene, list[i]))
  }

  /** Where an address is, or belongs, by the comparison. */
  function Place(scene: Scene, list: seq<ServerAddress>, item: ServerAddress): (i: nat)
    ensures i <= |list|
  {
    if list == [] || Compare(scene, list[0], item) >= 0 then 0 else 1 + Place(scene, list[1..], item)
  }

  lemma {:induction false} PlaceIsPosition(scene: Scene, list: seq<ServerAddress>, item: ServerAddress)
    ensures Place(scene, list, item) == Position(KeyLess, Keys(scene, list), KeyOf(scene, item))
  {
    if list != [] {
      ComparesKeys(scene, list[0], item);
      assert Keys(scene, list)[1..] == Keys(scene, list[1..]);
      PlaceIsPosition(scene, list[1..], item);
    }
  }

  // ---------- what is eligible ----------

  /** What an interface's text shows, if it is a usable address. */
  function Shown(scene: Scene, iface: Interface, raw: string): Option<ServerAddress> {
    var address := scene.parse(raw);
    if address.None? then None
    else
      var kind := scene.kind(address.value);
      if kind.None? then None
      else
        var endpoints := kind.value != LinkLocal && scene.reachable(address.value, iface.name);
        Some(ServerAddress(address.value, kind.value, iface.name, endpoints, iface.loopback))
  }

  function Found(scene: Scene, iface: Interface, raw: string): set<Key> {
    if iface.up && Shown(scene, iface, raw).Some? then {KeyOf(scene, Shown(scene, iface, raw).value)} else {}
  }

  function FoundOn(scene: Scene, iface: Interface, n: nat): set<Key>
    requires n <= |iface.addresses|
  {
    if n == 0 then {} else FoundOn(scene, iface, n - 1) + Found(scene, iface, iface.addresses[n - 1])
  }

  function FoundIn(scene: Scene, interfaces: seq<Interface>): set<Key> {
    if interfaces == [] then {}
    else
      var last := interfaces[|interfaces| - 1];
      FoundIn(scene, interfaces[..|interfaces| - 1]) + FoundOn(scene, last, |last.addresses|)
  }

  // ---------- the list ----------

  lemma KeysOfPut(scene: Scene, list: seq<ServerAddress>, index: nat, item: ServerAddress)
    requires index <= |list|
    ensures Keys(scene, Put(list, index, item)) == Put(Keys(scene, list), index, KeyOf(scene, item))
  {
  }

  /** The comparison finds an item exactly where its key is. */
  lemma FoundByKey(scene: Scene, list: seq<ServerAddress>, item: ServerAddress)
    ensures var index := Place(scene, list, item);
            && index == Position(KeyLess, Keys(scene, list), KeyOf(scene, item))
            && (index < |list| && Compare(scene, list[index], item) == 0 <==>
               FoundAt(Keys(scene, list), index, KeyOf(scene, item)))
  {
    PlaceIsPosition(scene, list, item);
    var index := Place(scene, list, item);
    if index < |list| { ComparesKeys(scene, list[index], item); }
  }

  /** The list so far, and whether anything had to go. */
  datatype Listing = Listing(list: seq<ServerAddress>, truncated: bool)

  function WithAddress(scene: Scene, at: Listing, item: ServerAddress): Listing {
    var list, index := at.list, Place(scene, at.list, item);
    if index < |list| && Compare(scene, list[index], item) == 0 then at
    else if |list| < ADDRESS_LIMIT then at.(list := Put(list, index, item))
    else if index == |list| then at.(truncated := true)
    else Listing(Put(list[..|list| - 1], index, item), true)
  }

  function WithShown(scene: Scene, at: Listing, shown: Option<ServerAddress>): Listing {
    if shown.None? then at else WithAddress(scene, at, shown.value)
  }

  function AddedOn(scene: Scene, iface: Interface, n: nat, at: Listing): Listing
    requires n <= |iface.addresses|
  {
    if n == 0 || !iface.up then at
    else WithShown(scene, AddedOn(scene, iface, n - 1, at), Shown(scene, iface, iface.addresses[n - 1]))
  }

  function AddedIn(scene: Scene, interfaces: seq<Interface>, at: Listing): Listing {
    if interfaces == [] then at
    else
      var last := interfaces[|interfaces| - 1];
      AddedOn(scene, last, |last.addresses|, AddedIn(scene, interfaces[..|interfaces| - 1], at))
  }

  /** One address more, in place. */
  method InsertAddress(scene: Scene, at: Listing, item: ServerAddress) returns (next: Listing)
    requires |at.list| <= ADDRESS_LIMIT
    ensures next == WithAddress(scene, at, item) && |next.list| <= ADDRESS_LIMIT
  {
    var out, truncated := at.list, at.truncated;
    var index := Place(scene, out, item);
    if index < |out| && Compare(scene, out[index], item) == 0 { return at; }
    if |out| == ADDRESS_LIMIT {
      truncated := true;
      if index == |out| { return Listing(out, truncated); }
      out := out[..|out| - 1];
    }
    out := Put(out, index, item);
    next := Listing(out, truncated);
  }

  /** The 32 least distinct addresses of all interfaces in strict order, whether any had to
      go, and the preferred one. */
  method Collect(scene: Scene, interfaces: seq<Interface>, before: bool)
    returns (out: seq<ServerAddress>, truncated: bool, preferred: Option<Address>)
    ensures Selects(KeyLess, Keys(scene, out), FoundIn(scene, interfaces), ADDRESS_LIMIT)
    ensures truncated <==> before || |FoundIn(scene, interfaces)| > ADDRESS_LIMIT
    ensures forall x :: x in out ==> Usable(scene, x)
    ensures preferred == if out != [] && Preferred(out[0]) then Some(out[0].address) else None
    ensures preferred.Some? <==> exists k :: k in FoundIn(scene, interfaces) && !k.late
    ensures forall k :: k in FoundIn(scene, interfaces) <==> IsThere(scene, interfaces, k)
    ensures Best(scene, interfaces, preferred)
  {
    var start := Listing([], before);
    var at := start;
    for i := 0 to |interfaces|
      invariant at == AddedIn(scene, interfaces[..i], start) && |at.list| <= ADDRESS_LIMIT
    {
      assert interfaces[..i + 1][..i] == interfaces[..i];
      at := AddInterface(scene, interfaces[i], at);
    }
    assert interfaces[..|interfaces|] == interfaces;
    AddedInIsRight(scene, interfaces, before);
    out, truncated := at.list, at.truncated;
    PreferredLeads(scene, out, FoundIn(scene, interfaces));
    preferred := FirstPreferred(out);
    forall k ensures k in FoundIn(scene, interfaces) <==> IsThere(scene, interfaces, k) {
      FoundIsThere(scene, interfaces, k);
    }
    FirstIsBest(scene, interfaces, out);
  }

  method AddInterface(scene: Scene, iface: Interface, at: Listing) returns (next: Listing)
    requires |at.list| <= ADDRESS_LIMIT
    ensures next == AddedOn(scene, iface, |iface.addresses|, at) && |next.list| <= ADDRESS_LIMIT
  {
    next := at;
    if !iface.up { return; }
    for i := 0 to |iface.addresses|
      invariant next == AddedOn(scene, iface, i, at) && |next.list| <= ADDRESS_LIMIT
    {
      var shown := Shown(scene, iface, iface.addresses[i]);
      if shown.Some? { next := InsertAddress(scene, next, shown.value); }
    }
  }

  method FirstPreferred(list: seq<ServerAddress>) returns (preferred: Option<Address>)
    requires forall i, j :: 0 <= i < j < |list| && Preferred(list[j]) ==> Preferred(list[i])
    ensures preferred == if list != [] && Preferred(list[0]) then Some(list[0].address) else None
  {
    for i := 0 to |list|
      invariant forall j :: 0 <= j < i ==> !Preferred(list[j])
    {
      if Preferred(list[i]) { return Some(list[i].address); }
    }
    preferred := None;
  }

  // ---------- what there is to find ----------

  /** An interface that is up has a text that reads as this host address. */
  ghost predicate Sees(scene: Scene, interfaces: seq<Interface>, x: ServerAddress) {
    exists i, j :: 0 <= i < |interfaces| && 0 <= j < |interfaces[i].addresses| && Has(scene, interfaces[i], j, x)
  }

  predicate Has(scene: Scene, iface: Interface, j: nat, x: ServerAddress)
    requires j < |iface.addresses|
  {
    && iface.up && scene.parse(iface.addresses[j]) == Some(x.address)
    && x.name == iface.name && x.loopback == iface.loopback && Usable(scene, x)
  }

  ghost predicate IsThere(scene: Scene, interfaces: seq<Interface>, k: Key) {
    exists x :: Sees(scene, interfaces, x) && k == KeyOf(scene, x)
  }

  lemma SeenIsThere(scene: Scene, interfaces: seq<Interface>, t: (string, bool, string), x: ServerAddress)
    requires t in Sightings(interfaces) && Shown(scene, Interface(t.0, true, t.1, []), t.2) == Some(x)
    ensures Sees(scene, interfaces, x)
  {
    var i, j :| 0 <= i < |interfaces| && interfaces[i].up && 0 <= j < |interfaces[i].addresses| &&
                t == (interfaces[i].name, interfaces[i].loopback, interfaces[i].addresses[j]);
    assert Has(scene, interfaces[i], j, x);
  }

  lemma ThereIsSeen(scene: Scene, interfaces: seq<Interface>, x: ServerAddress)
    requires Sees(scene, interfaces, x)
    ensures KeyOf(scene, x) in KeysSeen(scene, Sightings(interfaces))
  {
    var i, j :| 0 <= i < |interfaces| && 0 <= j < |interfaces[i].addresses| && Has(scene, interfaces[i], j, x);
    var t := (interfaces[i].name, interfaces[i].loopback, interfaces[i].addresses[j]);
    assert t in Sightings(interfaces);
    assert Shown(scene, Interface(t.0, true, t.1, []), t.2) == Some(x);
  }

  lemma FoundIsThere(scene: Scene, interfaces: seq<Interface>, k: Key)
    ensures k in FoundIn(scene, interfaces) <==> IsThere(scene, interfaces, k)
  {
    FoundIsSeen(scene, interfaces);
    if k in FoundIn(scene, interfaces) {
      var t :| t in Sightings(interfaces) && Shown(scene, Interface(t.0, true, t.1, []), t.2).Some? &&
               k == KeyOf(scene, Shown(scene, Interface(t.0, true, t.1, []), t.2).value);
      SeenIsThere(scene, interfaces, t, Shown(scene, Interface(t.0, true, t.1, []), t.2).value);
    }
    if IsThere(scene, interfaces, k) {
      var x :| Sees(scene, interfaces, x) && k == KeyOf(scene, x);
      ThereIsSeen(scene, interfaces, x);
    }
  }

  /** The reported address is one to be preferred; if there is one it is not public beside a private one, nor in
      the shared range beside a private one that is not. */
  ghost predicate Best(scene: Scene, interfaces: seq<Interface>, preferred: Option<Address>) {
    && (preferred.Some? ==> exists x :: Sees(scene, interfaces, x) && Preferred(x) && x.address == preferred.value)
    && (forall x :: Sees(scene, interfaces, x) && Preferred(x) ==>
          preferred.Some? && NoWorse(scene, preferred.value, x))
  }

  predicate NoWorse(scene: Scene, a: Address, x: ServerAddress) {
    && (x.kind == Private ==> scene.kind(a) == Some(Private))
    && (x.kind == Private && !scene.shared(x.address) ==> !scene.shared(a))
  }

  lemma FirstIsBest(scene: Scene, interfaces: seq<Interface>, out: seq<ServerAddress>)
    requires Selects(KeyLess, Keys(scene, out), FoundIn(scene, interfaces), ADDRESS_LIMIT)
    requires forall x :: x in out ==> Usable(scene, x)
    ensures Best(scene, interfaces, if out != [] && Preferred(out[0]) then Some(out[0].address) else None)
  {
    var found, keys := FoundIn(scene, interfaces), Keys(scene, out);
    PreferredLeads(scene, out, found);
    if out != [] {
      assert keys[0] in keys && out[0] in out;
      FoundIsThere(scene, interfaces, keys[0]);
    }
    forall x | Sees(scene, interfaces, x) && Preferred(x)
      ensures out != [] && Preferred(out[0]) && NoWorse(scene, out[0].address, x)
    {
      var k := KeyOf(scene, x);
      FoundIsThere(scene, interfaces, k);
      assert k in found && !k.late;
      FirstIsLeast(scene, out, found, k);
    }
  }

  lemma FirstIsLeast(scene: Scene, out: seq<ServerAddress>, found: set<Key>, k: Key)
    requires Selects(KeyLess, Keys(scene, out), found, ADDRESS_LIMIT) && k in found && out != []
    ensures Keys(scene, out)[0] == k || KeyLess(Keys(scene, out)[0], k)
  {
    var keys := Keys(scene, out);
    if k in keys {
      var j :| 0 <= j < |keys| && keys[j] == k;
    } else {
      assert keys[0] in keys;
    }
  }

  // ---------- what the loops keep ----------

  /** An item as the scene shows its address on its interface. */
  predicate Usable(scene: Scene, x: ServerAddress) {
    && scene.kind(x.address) == Some(x.kind)
    && (x.endpoints <==> x.kind != LinkLocal && scene.reachable(x.address, x.name))
  }

  /** The list is right for what was found so far, and every item of it was shown. */
  ghost predicate Right(scene: Scene, at: Listing, before: bool, found: set<Key>) {
    match at
    case Listing(list, truncated) =>
      && Selects(KeyLess, Keys(scene, list), found, ADDRESS_LIMIT)
      && (truncated <==> before || |found| > ADDRESS_LIMIT)
      && forall x :: x in list ==> Usable(scene, x)
  }

  /** The list is full and does not have the item. */
  predicate Overflows(scene: Scene, at: Listing, item: ServerAddress) {
    && |at.list| == ADDRESS_LIMIT
    && !FoundAt(Keys(scene, at.list), Place(scene, at.list, item), KeyOf(scene, item))
  }

  /** By its keys, the list gets the item inserted where it belongs. */
  lemma InsertsKey(scene: Scene, at: Listing, item: ServerAddress)
    requires |at.list| <= ADDRESS_LIMIT
    ensures var next := WithAddress(scene, at, item);
            && Keys(scene, next.list) == Inserted(KeyLess, Keys(scene, at.list), KeyOf(scene, item), ADDRESS_LIMIT)
            && next.truncated == (at.truncated || Overflows(scene, at, item))
            && forall x :: x in next.list ==> x in at.list || x == item
  {
    var index := Place(scene, at.list, item);
    FoundByKey(scene, at.list, item);
    if |at.list| < ADDRESS_LIMIT {
      KeysOfPut(scene, at.list, index, item);
      PutMembers(at.list, index, item);
    } else if index < |at.list| {
      var rest := at.list[..|at.list| - 1];
      assert Keys(scene, rest) == Keys(scene, at.list)[..|at.list| - 1];
      KeysOfPut(scene, rest, index, item);
      PutMembers(rest, index, item);
    }
  }

  lemma InsertIsRight(scene: Scene, at: Listing, item: ServerAddress, before: bool, found: set<Key>)
    requires Right(scene, at, before, found) && Usable(scene, item)
    ensures Right(scene, WithAddress(scene, at, item), before, found + {KeyOf(scene, item)})
  {
    KeyLessIsStrict();
    InsertsKey(scene, at, item);
    PlaceIsPosition(scene, at.list, item);
    Splits(KeyLess, Keys(scene, at.list), KeyOf(scene, item));
    InsertSelects(KeyLess, Keys(scene, at.list), found, KeyOf(scene, item), ADDRESS_LIMIT);
  }

  lemma ShownIsRight(scene: Scene, iface: Interface, raw: string, at: Listing, before: bool, found: set<Key>)
    requires iface.up && Right(scene, at, before, found)
    ensures Right(scene, WithShown(scene, at, Shown(scene, iface, raw)), before, found + Found(scene, iface, raw))
  {
    if Shown(scene, iface, raw).Some? {
      InsertIsRight(scene, at, Shown(scene, iface, raw).value, before, found);
    } else {
      assert found + {} == found;
    }
  }

  /** Right after the first n addresses of an interface. */
  ghost predicate RightOn(scene: Scene, iface: Interface, n: nat, at: Listing, before: bool, found: set<Key>)
    requires n <= |iface.addresses|
  {
    Right(scene, AddedOn(scene, iface, n, at), before, found + FoundOn(scene, iface, n))
  }

  lemma OneMoreIsRight(scene: Scene, iface: Interface, n: nat, at: Listing, before: bool, found: set<Key>)
    requires 0 < n <= |iface.addresses| && iface.up && RightOn(scene, iface, n - 1, at, before, found)
    ensures RightOn(scene, iface, n, at, before, found)
  {
    ShownIsRight(scene, iface, iface.addresses[n - 1], AddedOn(scene, iface, n - 1, at), before,
                 found + FoundOn(scene, iface, n - 1));
    assert found + FoundOn(scene, iface, n) ==
           found + FoundOn(scene, iface, n - 1) + Found(scene, iface, iface.addresses[n - 1]);
  }

  lemma StaysRight(scene: Scene, iface: Interface, n: nat, at: Listing, before: bool, found: set<Key>)
    requires n <= |iface.addresses| && (n == 0 || !iface.up) && Right(scene, at, before, found)
    ensures RightOn(scene, iface, n, at, before, found)
  {
    NothingAdded(scene, iface, n, at, found);
  }

  lemma {:induction false} AddedOnIsRight(scene: Scene, iface: Interface, n: nat, at: Listing, before: bool,
                                          found: set<Key>)
    requires n <= |iface.addresses| && RightOn(scene, iface, 0, at, before, found)
    ensures iface.up ==> RightOn(scene, iface, n, at, before, found)
    decreases n
  {
    if n > 0 && iface.up {
      AddedOnIsRight(scene, iface, n - 1, at, before, found);
      OneMoreIsRight(scene, iface, n, at, before, found);
    }
  }

  /** Whatever an interface adds keeps the list right. */
  lemma InterfaceIsRight(scene: Scene, iface: Interface, at: Listing, before: bool, found: set<Key>)
    requires Right(scene, at, before, found)
    ensures RightOn(scene, iface, |iface.addresses|, at, before, found)
  {
    if iface.up {
      StaysRight(scene, iface, 0, at, before, found);
      AddedOnIsRight(scene, iface, |iface.addresses|, at, before, found);
    } else {
      StaysRight(scene, iface, |iface.addresses|, at, before, found);
    }
  }

  lemma NothingAdded(scene: Scene, iface: Interface, n: nat, at: Listing, found: set<Key>)
    requires n <= |iface.addresses| && (n == 0 || !iface.up)
    ensures found + FoundOn(scene, iface, n) == found && AddedOn(scene, iface, n, at) == at
  {
    if n > 0 { NothingOnDown(scene, iface, n); }
  }

  lemma {:induction false} NothingOnDown(scene: Scene, iface: Interface, n: nat)
    requires !iface.up && n <= |iface.addresses|
    ensures FoundOn(scene, iface, n) == {}
  {
    if n > 0 { NothingOnDown(scene, iface, n - 1); }
  }

  lemma {:induction false} AddedInIsRight(scene: Scene, interfaces: seq<Interface>, before: bool)
    ensures Right(scene, AddedIn(scene, interfaces, Listing([], before)), before, FoundIn(scene, interfaces))
  {
    if interfaces != [] {
      var rest, last := interfaces[..|interfaces| - 1], interfaces[|interfaces| - 1];
      AddedInIsRight(scene, rest, before);
      InterfaceIsRight(scene, last, AddedIn(scene, rest, Listing([], before)), before, FoundIn(scene, rest));
    }
  }

  /** If anything found is preferred, the list begins with a preferred address, and its
      preferred addresses all stand before the others. */
  lemma PreferredLeads(scene: Scene, out: seq<ServerAddress>, found: set<Key>)
    requires Selects(KeyLess, Keys(scene, out), found, ADDRESS_LIMIT)
    ensures (exists k :: k in found && !k.late) <==> out != [] && Preferred(out[0])
    ensures forall i, j :: 0 <= i < j < |out| && Preferred(out[j]) ==> Preferred(out[i])
  {
    var keys := Keys(scene, out);
    forall i, j | 0 <= i < j < |out| && Preferred(out[j]) ensures Preferred(out[i]) {
      assert KeyLess(keys[i], keys[j]);
    }
    if k :| k in found && !k.late {
      if k in keys {
        var j :| 0 <= j < |keys| && keys[j] == k;
        assert Preferred(out[j]);
      } else {
        if keys == [] { EmptySelection(keys, found, k); }
        assert keys[0] in keys && KeyLess(keys[0], k);
      }
    }
    if out != [] && Preferred(out[0]) { assert keys[0] in found && !keys[0].late; }
  }

  lemma EmptySelection(keys: seq<Key>, found: set<Key>, k: Key)
    requires Selects(KeyLess, keys, found, ADDRESS_LIMIT) && k in found
    ensures keys != []
  {
  }

  // ---------- the order of the input ----------

  /** What is seen, whatever the order it is listed in. */
  function Sightings(interfaces: seq<Interface>): set<(string, bool, string)> {
    set i, j | 0 <= i < |interfaces| && interfaces[i].up && 0 <= j < |interfaces[i].addresses| ::
      (interfaces[i].name, interfaces[i].loopback, interfaces[i].addresses[j])
  }

  function KeysSeen(scene: Scene, seen: set<(string, bool, string)>): set<Key> {
    set x | x in seen && Shown(scene, Interface(x.0, true, x.1, []), x.2).Some? ::
      KeyOf(scene, Shown(scene, Interface(x.0, true, x.1, []), x.2).value)
  }

  function SightingsOn(iface: Interface, n: nat): set<(string, bool, string)>
    requires n <= |iface.addresses|
  {
    set j | 0 <= j < n && iface.up :: (iface.name, iface.loopback, iface.addresses[j])
  }

  function Sighting(iface: Interface, raw: string): set<(string, bool, string)> {
    if iface.up then {(iface.name, iface.loopback, raw)} else {}
  }

  lemma SeenHere(scene: Scene, iface: Interface, raw: string)
    ensures Found(scene, iface, raw) == KeysSeen(scene, Sighting(iface, raw))
  {
  }

  lemma OneMoreSighting(iface: Interface, n: nat)
    requires 0 < n <= |iface.addresses|
    ensures SightingsOn(iface, n) == SightingsOn(iface, n - 1) + Sighting(iface, iface.addresses[n - 1])
  {
  }

  lemma OneMoreSeen(scene: Scene, iface: Interface, n: nat)
    requires 0 < n <= |iface.addresses|
    ensures KeysSeen(scene, SightingsOn(iface, n)) ==
            KeysSeen(scene, SightingsOn(iface, n - 1)) + Found(scene, iface, iface.addresses[n - 1])
  {
    OneMoreSighting(iface, n);
    KeysSeenJoin(scene, SightingsOn(iface, n - 1), Sighting(iface, iface.addresses[n - 1]));
    SeenHere(scene, iface, iface.addresses[n - 1]);
  }

  lemma {:induction false} FoundIsSeenOn(scene: Scene, iface: Interface, n: nat)
    requires n <= |iface.addresses|
    ensures FoundOn(scene, iface, n) == KeysSeen(scene, SightingsOn(iface, n))
  {
    if n > 0 {
      FoundIsSeenOn(scene, iface, n - 1);
      OneMoreSeen(scene, iface, n);
    }
  }

  lemma KeysSeenJoin(scene: Scene, a: set<(string, bool, string)>, b: set<(string, bool, string)>)
    ensures KeysSeen(scene, a + b) == KeysSeen(scene, a) + KeysSeen(scene, b)
  {
  }

  lemma SightingsJoin(interfaces: seq<Interface>)
    requires interfaces != []
    ensures var last := interfaces[|interfaces| - 1];
            Sightings(interfaces) == Sightings(interfaces[..|interfaces| - 1]) + SightingsOn(last, |last.addresses|)
  {
  }

  lemma {:induction false} FoundIsSeen(scene: Scene, interfaces: seq<Interface>)
    ensures FoundIn(scene, interfaces) == KeysSeen(scene, Sightings(interfaces))
  {
    if interfaces != [] {
      var last := interfaces[|interfaces| - 1];
      FoundIsSeen(scene, interfaces[..|interfaces| - 1]);
      FoundIsSeenOn(scene, last, |last.addresses|);
      SightingsJoin(interfaces);
      KeysSeenJoin(scene, Sightings(interfaces[..|interfaces| - 1]), SightingsOn(last, |last.addresses|));
    }
  }

  /** The order in which interfaces and addresses are listed changes nothing a client is shown. */
  lemma InputOrderIsIrrelevant(scene: Scene, a: seq<Interface>, b: seq<Interface>, out: seq<ServerAddress>,
                               other: seq<ServerAddress>)
    requires Sightings(a) == Sightings(b)
    requires Selects(KeyLess, Keys(scene, out), FoundIn(scene, a), ADDRESS_LIMIT)
    requires forall x :: x in out ==> Usable(scene, x)
    requires Selects(KeyLess, Keys(scene, other), FoundIn(scene, b), ADDRESS_LIMIT)
    requires forall x :: x in other ==> Usable(scene, x)
    ensures |out| == |other| && forall i :: 0 <= i < |out| ==>
              out[i].(loopback := false) == other[i].(loopback := false)
  {
    KeyLessIsStrict();
    FoundIsSeen(scene, a);
    FoundIsSeen(scene, b);
    OneSelection(KeyLess, Keys(scene, out), Keys(scene, other), FoundIn(scene, a), ADDRESS_LIMIT);
    SameShown(scene, out, other);
  }

  /** Lists of the same keys differ at most in the loopback marks. */
  lemma SameShown(scene: Scene, out: seq<ServerAddress>, other: seq<ServerAddress>)
    requires Keys(scene, out) == Keys(scene, other)
    requires (forall x :: x in out ==> Usable(scene, x)) && (forall x :: x in other ==> Usable(scene, x))
    ensures |out| == |other| && forall i :: 0 <= i < |out| ==>
              out[i].(loopback := false) == other[i].(loopback := false)
  {
    assert |Keys(scene, out)| == |out| && |Keys(scene, other)| == |other|;
    forall i | 0 <= i < |out| ensures out[i].(loopback := false) == other[i].(loopback := false) {
      assert Keys(scene, out)[i] == Keys(scene, other)[i];
      assert out[i] in out && other[i] in other;
    }
  }
}
