/**
 * The extension's persistent key-value area (`chrome.storage.local`), as a
 * synchronous map from string keys to stored records.
 */
module Storage {

  import opened Wrappers
  import opened Uint8

  /**
   * The records the popup writes: a key record `{ id, key }` (saveKey) and an
   * encrypted payload `{ iv, data }` (the `encryptedData` slot).
   */
  datatype Value =
    | KeyRecord(id: string, key: Bytes)
    | EncryptedRecord(iv: Bytes, data: Bytes)

  /**
   * `new Uint8Array(v.key)`: the key bytes of a record; a record without a `key`
   * field gives `undefined`, from which an empty array is built.
   */
  function KeyField(v: Value): (b: Bytes)
    ensures v.KeyRecord? ==> b == v.key
    ensures v.EncryptedRecord? ==> b == []
  {
    match v
    case KeyRecord(_, key) => key
    case EncryptedRecord(_, _) => []
  }

  /** `new Uint8Array(v.iv)`, empty for a record without an `iv` field. */
  function IvField(v: Value): (b: Bytes)
    ensures v.EncryptedRecord? ==> b == v.iv
    ensures v.KeyRecord? ==> b == []
  {
    match v
    case EncryptedRecord(iv, _) => iv
    case KeyRecord(_, _) => []
  }

  /** `new Uint8Array(v.data)`, empty for a record without a `data` field. */
  function DataField(v: Value): (b: Bytes)
    ensures v.EncryptedRecord? ==> b == v.data
    ensures v.KeyRecord? ==> b == []
  {
    match v
    case EncryptedRecord(_, data) => data
    case KeyRecord(_, _) => []
  }

  /** One storage area; every surface of the popup shares the same instance. */
  class StorageArea {

    var items: map<string, Value>

    /** An empty area. */
    constructor ()
      ensures items == map[]
    {
      items := map[];
    }

    /** `get(key)`, read as `result[key]`: the stored record, or `undefined`. */
    method Get(key: string) returns (r: Option<Value>)
      ensures r.Some? <==> key in items
      ensures r.Some? ==> r.value == items[key]
    {
      r := if key in items then Some(items[key]) else None;
    }

    /** `get(null)`: a snapshot of every entry. */
    method GetAll() returns (snapshot: map<string, Value>)
      ensures snapshot == items
    {
      snapshot := items;
    }

    /** `set({ [key]: v })`: writes one entry, replacing any record already there. */
    method Set(key: string, v: Value)
      modifies this
      ensures items == old(items)[key := v]
    {
      items := items[key := v];
    }

    /** `remove(key)`: deletes one entry; removing an absent key changes nothing. */
    method Remove(key: string)
      modifies this
      ensures items == old(items) - {key}
      ensures key !in old(items) ==> items == old(items)
    {
      items := items - {key};
    }
  }
}
