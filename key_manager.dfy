/**
 * KeyManager: a namespaced view over the storage area. Every key record lives
 * under `KeyPrefix + id`; the listing keeps the entries under that prefix and
 * strips it off again.
 */
module KeyManagement {

  import opened Wrappers
  import opened JsString
  import opened Storage
  import opened WebCrypto

  /** The namespace of key records in the storage area. */
  const KeyPrefix: string := "labyrinth_key_"

  /** The prefix of an id made up from the clock when no name is given. */
  const AutoIdPrefix: string := "key_"

  /** The storage key under which the record of `keyId` is kept. */
  function KeyEntry(keyId: string): (k: string)
    ensures StartsWith(k, KeyPrefix)
    ensures k[|KeyPrefix|..] == keyId
  {
    KeyPrefix + keyId
  }

  /** Distinct ids are kept under distinct storage keys. */
  lemma KeyEntryInjective(a: string, b: string)
    ensures KeyEntry(a) == KeyEntry(b) <==> a == b
  {
    if KeyEntry(a) == KeyEntry(b) {
      assert a == KeyEntry(a)[|KeyPrefix|..];
    }
  }

  /**
   * `generateKeyId(customName)`, with `Date.now()` passed in as `now`: a
   * non-empty (truthy) name is the id itself; otherwise the id is `key_`
   * followed by the decimal timestamp.
   */
  function GenerateKeyId(customName: string, now: nat): (id: string)
    ensures id != ""
    ensures customName != "" ==> id == customName
    ensures customName == "" ==> id == AutoIdPrefix + DecimalString(now)
    ensures customName == "" ==> StartsWith(id, AutoIdPrefix)
    ensures customName == "" ==> forall i :: |AutoIdPrefix| <= i < |id| ==> IsDigit(id[i])
    ensures customName == "" ==> ParseDecimal(id[|AutoIdPrefix|..]) == now
  {
    if customName != "" then customName
    else
      var digits := DecimalString(now);
      DecimalRoundTrip(now);
      assert (AutoIdPrefix + digits)[|AutoIdPrefix|..] == digits;
      AutoIdPrefix + digits
  }

  /** Two ids made up from the clock collide exactly when the two timestamps are equal. */
  lemma AutoIdsCollideIff(t1: nat, t2: nat)
    ensures GenerateKeyId("", t1) == GenerateKeyId("", t2) <==> t1 == t2
  {
    if GenerateKeyId("", t1) == GenerateKeyId("", t2) {
      assert GenerateKeyId("", t1)[|AutoIdPrefix|..] == GenerateKeyId("", t2)[|AutoIdPrefix|..];
    }
  }

  /** One element of `listKeys()`: `{ id, data }`. */
  datatype ListedKey = ListedKey(id: string, data: Value)

  /** Every element of `order` is a key of `snapshot`. */
  predicate KeysOf(order: seq<string>, snapshot: map<string, Value>) {
    forall k | k in order :: k in snapshot
  }

  /** `order` lists the keys of `snapshot`, each exactly once (as `Object.keys` does, in some order). */
  predicate EnumeratesKeys(order: seq<string>, snapshot: map<string, Value>) {
    && KeysOf(order, snapshot)
    && (forall k | k in snapshot :: k in order)
    && (forall i, j :: 0 <= i < j < |order| ==> order[i] != order[j])
  }

  /**
   * `Object.keys(result).filter(startsWith(prefix)).map(key => ({ id:
   * key.replace(prefix, ''), data: result[key] }))`, over the enumeration `order`.
   */
  function KeyListing(snapshot: map<string, Value>, order: seq<string>): (r: seq<ListedKey>)
    requires KeysOf(order, snapshot)
    ensures |r| <= |order|
  {
    if order == [] then []
    else
      var rest := KeyListing(snapshot, order[1..]);
      if StartsWith(order[0], KeyPrefix)
      then [ListedKey(ReplaceFirst(order[0], KeyPrefix, ""), snapshot[order[0]])] + rest
      else rest
  }

  /**
   * An element is listed exactly when its id's namespaced key is enumerated and
   * the element carries the record stored there.
   */
  lemma {:induction false} ListedIff(snapshot: map<string, Value>, order: seq<string>, e: ListedKey)
    requires KeysOf(order, snapshot)
    ensures e in KeyListing(snapshot, order) <==> KeyEntry(e.id) in order && e.data == snapshot[KeyEntry(e.id)]
  {
    if order != [] {
      ListedIff(snapshot, order[1..], e);
      var k := order[0];
      if StartsWith(k, KeyPrefix) {
        ReplacePrefixStrips(k, KeyPrefix);
        var id := ReplaceFirst(k, KeyPrefix, "");
        assert KeyEntry(id) == k;
        KeyEntryInjective(id, e.id);
      } else {
        assert KeyEntry(e.id) != k;
      }
    }
  }

  /** No id is listed twice when the enumeration names each key once. */
  lemma {:induction false} ListedIdsDistinct(snapshot: map<string, Value>, order: seq<string>)
    requires KeysOf(order, snapshot)
    requires forall i, j :: 0 <= i < j < |order| ==> order[i] != order[j]
    ensures forall i, j :: 0 <= i < j < |KeyListing(snapshot, order)| ==>
      KeyListing(snapshot, order)[i].id != KeyListing(snapshot, order)[j].id
  {
    if order != [] {
      var rest := KeyListing(snapshot, order[1..]);
      ListedIdsDistinct(snapshot, order[1..]);
      var k := order[0];
      if StartsWith(k, KeyPrefix) {
        var r := KeyListing(snapshot, order);
        forall j | 0 < j < |r| ensures r[0].id != r[j].id {
          ReplacePrefixStrips(k, KeyPrefix);
          assert r[j] == rest[j - 1];
          ListedIff(snapshot, order[1..], rest[j - 1]);
        }
      }
    }
  }

  /** After `saveKey(k, d)`, the listing holds `{ id: k, data: d }`. */
  lemma SavedKeyIsListed(items: map<string, Value>, keyId: string, data: Value, order: seq<string>)
    requires EnumeratesKeys(order, items[KeyEntry(keyId) := data])
    ensures ListedKey(keyId, data) in KeyListing(items[KeyEntry(keyId) := data], order)
  {
    ListedIff(items[KeyEntry(keyId) := data], order, ListedKey(keyId, data));
  }

  /** After `deleteKey(k)`, no element of the listing has id `k`. */
  lemma DeletedKeyNotListed(items: map<string, Value>, keyId: string, order: seq<string>)
    requires EnumeratesKeys(order, items - {KeyEntry(keyId)})
    ensures forall e | e in KeyListing(items - {KeyEntry(keyId)}, order) :: e.id != keyId
  {
    forall e | e in KeyListing(items - {KeyEntry(keyId)}, order) ensures e.id != keyId {
      ListedIff(items - {KeyEntry(keyId)}, order, e);
    }
  }

  /**
   * The namespace invariant that saveKey and generateKey keep: every entry under
   * the prefix is a key record whose id is non-empty (the empty id is the
   * "no key selected" option of the key list) and names that entry, and whose
   * key is a raw 256-bit AES key.
   */
  ghost predicate KeyRecordsWellFormed(items: map<string, Value>) {
    forall k | k in items && StartsWith(k, KeyPrefix) ::
      items[k].KeyRecord? && items[k].id != "" && KeyEntry(items[k].id) == k && |items[k].key| == AesKeyLength
  }

  /** Storing a generated key preserves the namespace invariant. */
  lemma GeneratedRecordKeepsWellFormed(items: map<string, Value>, keyId: string, key: CryptoKey)
    requires KeyRecordsWellFormed(items)
    requires keyId != ""
    requires |key.raw| == AesKeyLength
    ensures KeyRecordsWellFormed(items[KeyEntry(keyId) := KeyRecord(keyId, ExportRawKey(key))])
  {
  }

  /** Removing any entry preserves the namespace invariant. */
  lemma RemovalKeepsWellFormed(items: map<string, Value>, k: string)
    requires KeyRecordsWellFormed(items)
    ensures KeyRecordsWellFormed(items - {k})
  {
  }

  /** Under the invariant, every stored key record imports: getKey only ever fails by absence. */
  lemma WellFormedKeysImport(items: map<string, Value>, keyId: string)
    requires KeyRecordsWellFormed(items)
    requires KeyEntry(keyId) in items
    ensures ImportRawKey(KeyField(items[KeyEntry(keyId)])).Success?
  {
  }

  /** Under the invariant, the listing names exactly the stored records, and each by its own id. */
  lemma WellFormedListing(items: map<string, Value>, order: seq<string>, e: ListedKey)
    requires KeyRecordsWellFormed(items)
    requires EnumeratesKeys(order, items)
    requires e in KeyListing(items, order)
    ensures e.data.KeyRecord? && e.data.id == e.id
    ensures e.id != ""
  {
    ListedIff(items, order, e);
    KeyEntryInjective(e.data.id, e.id);
  }

  /** The key manager of the popup, over the storage area it was given. */
  class KeyManager {

    const storage: StorageArea

    constructor (storage: StorageArea)
      ensures this.storage == storage
    {
      this.storage := storage;
    }

    /**
     * `generateKey(customName)`: generates a 256-bit AES-GCM key from the random
     * source, exports it raw and saves `{ id, key }` under the chosen id,
     * silently replacing a record already stored there.
     */
    method GenerateKey(customName: string, now: nat, keyEntropy: Entropy) returns (keyId: string)
      modifies storage
      ensures keyId == GenerateKeyId(customName, now)
      ensures storage.items == old(storage.items)[KeyEntry(keyId) := KeyRecord(keyId, GenerateAesKey(keyEntropy).raw)]
      ensures KeyRecordsWellFormed(old(storage.items)) ==> KeyRecordsWellFormed(storage.items)
    {
      var key := GenerateAesKey(keyEntropy);
      var exportedKey := ExportRawKey(key);
      keyId := GenerateKeyId(customName, now);
      var keyData := KeyRecord(keyId, exportedKey);
      SaveKey(keyId, keyData);
      if KeyRecordsWellFormed(old(storage.items)) {
        GeneratedRecordKeepsWellFormed(old(storage.items), keyId, key);
      }
    }

    /** `saveKey(keyId, keyData)`: one write, at the namespaced key of `keyId`. */
    method SaveKey(keyId: string, keyData: Value)
      modifies storage
      ensures storage.items == old(storage.items)[KeyEntry(keyId) := keyData]
    {
      storage.Set(KeyPrefix + keyId, keyData);
    }

    /**
     * `getKey(keyId)`: `null` (here `Success(None)`) exactly when no record is
     * stored for `keyId`; otherwise the stored bytes imported as an AES-GCM key,
     * which rejects with a DataError when they are not an AES key.
     */
    method GetKey(keyId: string) returns (r: Result<Option<CryptoKey>, DomException>)
      ensures r == Success(None) <==> KeyEntry(keyId) !in storage.items
      ensures KeyEntry(keyId) in storage.items ==>
        (r.Success? <==> IsAesKeyLength(|KeyField(storage.items[KeyEntry(keyId)])|))
      ensures r.Success? && r.value.Some? ==>
        KeyEntry(keyId) in storage.items && r.value.value.raw == KeyField(storage.items[KeyEntry(keyId)])
      ensures r.Failure? ==> r.error == DataError
    {
      var result := storage.Get(KeyPrefix + keyId);
      if result.None? {
        return Success(None);
      }
      var keyArray := KeyField(result.value);
      var imported := ImportRawKey(keyArray);
      match imported
      case Failure(e) => r := Failure(e);
      case Success(key) => r := Success(Some(key));
    }

    /**
     * `listKeys()`, where `order` is the order in which the host enumerates the
     * stored keys: one element per namespaced entry, with the prefix stripped.
     */
    method ListKeys(order: seq<string>) returns (keys: seq<ListedKey>)
      requires EnumeratesKeys(order, storage.items)
      ensures forall e :: e in keys <==> KeyEntry(e.id) in storage.items && e.data == storage.items[KeyEntry(e.id)]
      ensures forall i, j :: 0 <= i < j < |keys| ==> keys[i].id != keys[j].id
    {
      var result := storage.GetAll();
      keys := KeyListing(result, order);
      forall e ensures e in keys <==> KeyEntry(e.id) in result && e.data == result[KeyEntry(e.id)] {
        ListedIff(result, order, e);
      }
      ListedIdsDistinct(result, order);
    }

    /** `deleteKey(keyId)`: removes the one namespaced entry; deleting an absent id is no error. */
    method DeleteKey(keyId: string)
      modifies storage
      ensures storage.items == old(storage.items) - {KeyEntry(keyId)}
      ensures KeyRecordsWellFormed(old(storage.items)) ==> KeyRecordsWellFormed(storage.items)
    {
      storage.Remove(KeyPrefix + keyId);
    }
  }
}
