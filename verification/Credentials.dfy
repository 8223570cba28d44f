/** The check that every stored credential opens with the key a backup holds. */
module Credentials {
  import opened Octets
  import opened Options

  const KEY_LENGTH: nat := 32

  /** How much of a key file is looked at: one byte more than a key file may have. */
  const LOOK: nat := 4097

  datatype Credential = Credential(cipher: Bytes, keyId: Bytes, identity: Bytes)

  /** What a database stores, unless it cannot be read, and whether a key opens a credential:
      it has the credential's identifier, and the cipher text is authentic under it. */
  datatype Vault = Vault(stored: Bytes -> Option<seq<Credential>>, opens: (Bytes, Credential) -> bool)

  function Looked(key: Bytes): Bytes {
    if |key| <= LOOK then key else key[..LOOK]
  }

  /** The key is none or whole, and opens every credential; without one there are none. */
  predicate Fits(vault: Vault, database: Bytes, key: Bytes) {
    var stored := vault.stored(database);
    && stored.Some? && (key == [] || |key| == KEY_LENGTH)
    && forall c :: c in stored.value ==> key != [] && vault.opens(key, c)
  }

  /** Checks a backup's credentials; a missing key file is as good as an empty one. */
  method Validate(vault: Vault, database: Bytes, key: Bytes) returns (ok: bool)
    ensures ok <==> Fits(vault, database, key)
  {
    var stored := vault.stored(database);
    if stored.None? { return false; }
    var looked := Looked(key);
    if looked != [] && |looked| != KEY_LENGTH { return false; }
    for i := 0 to |stored.value|
      invariant forall j :: 0 <= j < i ==> key != [] && vault.opens(key, stored.value[j])
    {
      assert stored.value[i] in stored.value;
      if looked == [] || !vault.opens(looked, stored.value[i]) { return false; }
    }
    ok := true;
  }
}
