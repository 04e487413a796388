/**
 * The store effects of the popup's event handlers. The DOM inputs become
 * parameters (the selected key id, the text in the data box, the key-name
 * box), the confirmation dialog becomes a boolean, and the message the
 * handler shows becomes the Notice it returns.
 */
module Popup {

  import opened Wrappers
  import opened JsString
  import opened Storage
  import opened WebCrypto
  import opened KeyManagement
  import opened Encryption

  /** The single slot in which the current encrypted payload is kept. */
  const SlotKey: string := "encryptedData"

  /** The message a handler shows, or none. */
  datatype Notice =
    | KeyGenerated(keyId: string)        // a new key was generated under this id
    | SelectKeyFirst                     // encrypt or decrypt without a selected key
    | EnterDataFirst                     // encrypt with an empty data box
    | DataEncrypted                      // the payload was encrypted and saved
    | NoEncryptedData                    // decrypt with nothing in the slot
    | DataDecrypted(plaintext: string)   // the plaintext, also put in the data box
    | DataCleared                        // the slot was cleared
    | SelectKeyToDelete                  // delete without a selected key
    | KeyDeleted(keyId: string)          // the key record was removed
    | Failed(error: Error)               // the message of a caught error
    | NoNotice                           // deletion was not confirmed

  /** The payload slot lies outside the key namespace, so no key operation touches it. */
  lemma SlotOutsideKeyNamespace(keyId: string)
    ensures KeyEntry(keyId) != SlotKey
    ensures !StartsWith(SlotKey, KeyPrefix)
  {
    assert KeyEntry(keyId)[0] == 'l';
  }

  /** The slot never appears in the key listing: every listed element names a key record's entry. */
  lemma SlotNeverListed(items: map<string, Value>, order: seq<string>)
    requires KeysOf(order, items)
    ensures forall e | e in KeyListing(items, order) :: KeyEntry(e.id) in items && KeyEntry(e.id) != SlotKey
  {
    forall e | e in KeyListing(items, order) ensures KeyEntry(e.id) in items && KeyEntry(e.id) != SlotKey {
      ListedIff(items, order, e);
      SlotOutsideKeyNamespace(e.id);
    }
  }

  /** Writing or clearing the slot leaves the key listing as it was, whatever the order of enumeration. */
  lemma SlotChangesKeepListing(items: map<string, Value>, items': map<string, Value>, order: seq<string>, order': seq<string>)
    requires items - {SlotKey} == items' - {SlotKey}
    requires EnumeratesKeys(order, items) && EnumeratesKeys(order', items')
    ensures forall e :: e in KeyListing(items, order) <==> e in KeyListing(items', order')
  {
    forall e ensures e in KeyListing(items, order) <==> e in KeyListing(items', order') {
      ListedIff(items, order, e);
      ListedIff(items', order', e);
      SlotOutsideKeyNamespace(e.id);
      var k := KeyEntry(e.id);
      assert k in items <==> k in items - {SlotKey};
      assert k in items' <==> k in items' - {SlotKey};
      if k in items {
        assert items[k] == (items - {SlotKey})[k];
      }
      if k in items' {
        assert items'[k] == (items' - {SlotKey})[k];
      }
    }
  }

  /**
   * The store invariant the handlers keep: key records are well formed and the
   * slot, when present, holds an encrypted payload with a 12-byte IV.
   */
  ghost predicate WellFormed(items: map<string, Value>) {
    && KeyRecordsWellFormed(items)
    && (SlotKey in items ==> items[SlotKey].EncryptedRecord? && |items[SlotKey].iv| == IvLength)
  }

  /**
   * The key-name box is trimmed before it is used: a box holding only white
   * space yields an id made up from the clock, any other box its trimmed text
   * (which may still equal a clock-made id such as `key_5`).
   */
  lemma BlankNameGetsClockId(keyNameInput: string, now: nat)
    ensures (forall i :: 0 <= i < |keyNameInput| ==> IsTrimmable(keyNameInput[i])) ==>
      GenerateKeyId(Trim(keyNameInput), now) == AutoIdPrefix + DecimalString(now)
    ensures (exists i :: 0 <= i < |keyNameInput| && !IsTrimmable(keyNameInput[i])) ==>
      GenerateKeyId(Trim(keyNameInput), now) == Trim(keyNameInput) != ""
  {
    TrimEmptyIff(keyNameInput);
  }

  /** The popup's controller, wired to one key manager and a crypto manager over it. */
  class UIManager {

    const keyManager: KeyManager
    const cryptoManager: CryptoManager

    constructor (keyManager: KeyManager, cryptoManager: CryptoManager)
      requires cryptoManager.keyManager == keyManager
      ensures this.keyManager == keyManager && this.cryptoManager == cryptoManager
      ensures Wired()
    {
      this.keyManager := keyManager;
      this.cryptoManager := cryptoManager;
    }

    /** Both managers act on the same key manager, as the start-up code wires them. */
    predicate Wired() {
      cryptoManager.keyManager == keyManager
    }

    /** `handleGenerateKey()`: generates a key named by the trimmed key-name box. */
    method HandleGenerateKey(keyNameInput: string, now: nat, keyEntropy: Entropy) returns (notice: Notice)
      modifies keyManager.storage
      ensures notice == KeyGenerated(GenerateKeyId(Trim(keyNameInput), now))
      ensures keyManager.storage.items ==
        old(keyManager.storage.items)[KeyEntry(notice.keyId) := KeyRecord(notice.keyId, GenerateAesKey(keyEntropy).raw)]
      ensures WellFormed(old(keyManager.storage.items)) ==> WellFormed(keyManager.storage.items)
    {
      var customName := Trim(keyNameInput);
      var keyId := keyManager.GenerateKey(customName, now, keyEntropy);
      SlotOutsideKeyNamespace(keyId);
      notice := KeyGenerated(keyId);
    }

    /**
     * `handleEncrypt()`: with a key selected and data entered, encrypts the data
     * and only then writes the slot; a missing input or a thrown error leaves
     * the store as it was.
     */
    method HandleEncrypt(keyId: string, data: string, aes: AesGcm, codec: TextCodec, ivEntropy: Entropy)
      returns (notice: Notice)
      requires Wired()
      modifies keyManager.storage
      ensures keyId == "" ==> notice == SelectKeyFirst
      ensures keyId != "" && data == "" ==> notice == EnterDataFirst
      ensures notice == DataEncrypted <==> keyId != "" && data != "" && KeyUsable(old(keyManager.storage.items), keyId)
      ensures keyId != "" && data != "" && KeyEntry(keyId) !in old(keyManager.storage.items) ==>
        notice == Failed(KeyNotFound)
      ensures keyId != "" && data != "" && KeyEntry(keyId) in old(keyManager.storage.items) ==>
        (KeyUsable(old(keyManager.storage.items), keyId) || notice == Failed(Rejected(DataError)))
      ensures notice != DataEncrypted ==> keyManager.storage.items == old(keyManager.storage.items)
      ensures notice == DataEncrypted ==>
        var iv := GetRandomValues(IvLength, ivEntropy);
        var key := StoredKey(old(keyManager.storage.items), keyId);
        keyManager.storage.items ==
          old(keyManager.storage.items)[SlotKey := EncryptedRecord(iv, WebCrypto.Encrypt(aes, iv, key, codec.encode(data)))]
      ensures WellFormed(old(keyManager.storage.items)) ==> WellFormed(keyManager.storage.items)
    {
      if keyId == "" {
        return SelectKeyFirst;
      }
      if data == "" {
        return EnterDataFirst;
      }
      var encryptedData := cryptoManager.Encrypt(data, keyId, aes, codec, ivEntropy);
      match encryptedData
      case Failure(e) =>
        notice := Failed(e);
      case Success(p) =>
        keyManager.storage.Set(SlotKey, EncryptedRecord(p.iv, p.data));
        SlotOutsideKeyNamespace(keyId);
        notice := DataEncrypted;
    }

    /**
     * `handleDecrypt()`: with a key selected and a payload in the slot, decrypts
     * it. It never writes the store; without a key or a payload it stops before
     * any decryption.
     */
    method HandleDecrypt(keyId: string, aes: AesGcm, codec: TextCodec) returns (notice: Notice)
      requires Wired()
      ensures keyId == "" ==> notice == SelectKeyFirst
      ensures keyId != "" && SlotKey !in keyManager.storage.items ==> notice == NoEncryptedData
      ensures keyId != "" && SlotKey in keyManager.storage.items ==>
        (notice == Failed(KeyNotFound) <==> KeyEntry(keyId) !in keyManager.storage.items)
      ensures keyId != "" && SlotKey in keyManager.storage.items && KeyUsable(keyManager.storage.items, keyId) ==>
        (notice.DataDecrypted? <==> Opened(aes, keyManager.storage.items, keyId, keyManager.storage.items[SlotKey]).Some?)
      ensures keyId != "" && SlotKey in keyManager.storage.items && KeyEntry(keyId) in keyManager.storage.items ==>
        (KeyUsable(keyManager.storage.items, keyId) || notice == Failed(Rejected(DataError)))
      ensures keyId != "" && SlotKey in keyManager.storage.items && KeyUsable(keyManager.storage.items, keyId) ==>
        (notice.DataDecrypted? || notice == Failed(Rejected(OperationError)))
      ensures notice.DataDecrypted? ==>
        && keyId != "" && SlotKey in keyManager.storage.items && KeyUsable(keyManager.storage.items, keyId)
        && Opened(aes, keyManager.storage.items, keyId, keyManager.storage.items[SlotKey]).Some?
        && notice.plaintext == codec.decode(Opened(aes, keyManager.storage.items, keyId, keyManager.storage.items[SlotKey]).value)
    {
      if keyId == "" {
        return SelectKeyFirst;
      }
      var result := keyManager.storage.Get(SlotKey);
      if result.None? {
        return NoEncryptedData;
      }
      var decryptedData := cryptoManager.Decrypt(result.value, keyId, aes, codec);
      match decryptedData
      case Failure(e) => notice := Failed(e);
      case Success(text) => notice := DataDecrypted(text);
    }

    /** `handleClear()`: removes the slot and leaves every key record alone. */
    method HandleClear() returns (notice: Notice)
      modifies keyManager.storage
      ensures notice == DataCleared
      ensures keyManager.storage.items == old(keyManager.storage.items) - {SlotKey}
      ensures forall keyId :: KeyEntry(keyId) in keyManager.storage.items <==> KeyEntry(keyId) in old(keyManager.storage.items)
      ensures forall keyId | KeyEntry(keyId) in keyManager.storage.items ::
        keyManager.storage.items[KeyEntry(keyId)] == old(keyManager.storage.items)[KeyEntry(keyId)]
      ensures WellFormed(old(keyManager.storage.items)) ==> WellFormed(keyManager.storage.items)
    {
      keyManager.storage.Remove(SlotKey);
      forall keyId ensures KeyEntry(keyId) != SlotKey {
        SlotOutsideKeyNamespace(keyId);
      }
      notice := DataCleared;
    }

    /**
     * `handleDeleteKey()`: deletes the selected key only when a key is selected
     * and the user confirms; the slot is left alone.
     */
    method HandleDeleteKey(keyId: string, confirmed: bool) returns (notice: Notice)
      modifies keyManager.storage
      ensures keyId == "" ==> notice == SelectKeyToDelete
      ensures keyId != "" && !confirmed ==> notice == NoNotice
      ensures keyId == "" || !confirmed ==> keyManager.storage.items == old(keyManager.storage.items)
      ensures keyId != "" && confirmed ==> notice == KeyDeleted(keyId)
      ensures keyId != "" && confirmed ==> keyManager.storage.items == old(keyManager.storage.items) - {KeyEntry(keyId)}
      ensures SlotKey in old(keyManager.storage.items) ==>
        SlotKey in keyManager.storage.items && keyManager.storage.items[SlotKey] == old(keyManager.storage.items)[SlotKey]
      ensures WellFormed(old(keyManager.storage.items)) ==> WellFormed(keyManager.storage.items)
    {
      SlotOutsideKeyNamespace(keyId);
      if keyId == "" {
        return SelectKeyToDelete;
      }
      if !confirmed {
        return NoNotice;
      }
      keyManager.DeleteKey(keyId);
      notice := KeyDeleted(keyId);
    }
  }

  /**
   * A whole session on a fresh store: generate `projectA`, encrypt `hello` with
   * it, decrypt the slot, delete the key; the id is the given name, the
   * plaintext comes back, and the key is gone afterwards.
   */
  method LifecycleScenario(aes: AesGcm, codec: TextCodec, now: nat, keyEntropy: Entropy, ivEntropy: Entropy)
    returns (keyId: string, decrypted: Notice, afterDelete: Result<Option<CryptoKey>, DomException>)
    requires OpensWhatItSeals(aes)
    requires DecodesWhatItEncodes(codec, "hello")
    ensures keyId == "projectA"
    ensures decrypted == DataDecrypted("hello")
    ensures afterDelete == Success(None)
  {
    var storage := new StorageArea();
    var keyManager := new KeyManager(storage);
    var cryptoManager := new CryptoManager(keyManager);
    var ui := new UIManager(keyManager, cryptoManager);
    keyId := keyManager.GenerateKey("projectA", now, keyEntropy);
    var key := GenerateAesKey(keyEntropy);
    assert storage.items == map[KeyEntry(keyId) := KeyRecord(keyId, key.raw)];
    assert KeyUsable(storage.items, keyId);
    SlotOutsideKeyNamespace(keyId);
    var encrypted := ui.HandleEncrypt(keyId, "hello", aes, codec, ivEntropy);
    assert encrypted == DataEncrypted;
    var iv := GetRandomValues(IvLength, ivEntropy);
    var sealed := EncryptedRecord(iv, WebCrypto.Encrypt(aes, iv, key, codec.encode("hello")));
    assert storage.items == map[KeyEntry(keyId) := KeyRecord(keyId, key.raw), SlotKey := sealed];
    assert Opened(aes, storage.items, keyId, sealed) == Some(codec.encode("hello"));
    decrypted := ui.HandleDecrypt(keyId, aes, codec);
    var deleted := ui.HandleDeleteKey(keyId, true);
    afterDelete := keyManager.GetKey(keyId);
  }
}
