/**
 * CryptoManager: resolves a key through the key manager and runs AES-GCM with a
 * fresh 12-byte IV. The cipher itself is the host's (see module WebCrypto).
 */
module Encryption {

  import opened Wrappers
  import opened Uint8
  import opened Storage
  import opened WebCrypto
  import opened KeyManagement

  /** What encrypt and decrypt throw. */
  datatype Error =
    | KeyNotFound                    // no record is stored for the key id
    | Rejected(cause: DomException)  // a subtle-crypto call rejected

  /** The `{ iv, data }` object that encrypt returns. */
  datatype EncryptedPayload = EncryptedPayload(iv: Bytes, data: Bytes)

  /** A record is stored for `keyId` and its bytes import as an AES key. */
  predicate KeyUsable(items: map<string, Value>, keyId: string) {
    KeyEntry(keyId) in items && IsAesKeyLength(|KeyField(items[KeyEntry(keyId)])|)
  }

  /** The key imported from the record of `keyId`. */
  function StoredKey(items: map<string, Value>, keyId: string): CryptoKey
    requires KeyEntry(keyId) in items
  {
    AesGcmKey(KeyField(items[KeyEntry(keyId)]))
  }

  /** The plaintext AES-GCM recovers from a stored payload under the key of `keyId`, if the tag verifies. */
  function Opened(aes: AesGcm, items: map<string, Value>, keyId: string, encrypted: Value): Option<Bytes>
    requires KeyEntry(keyId) in items
  {
    aes.open(StoredKey(items, keyId).raw, IvField(encrypted), DataField(encrypted))
  }

  class CryptoManager {

    const keyManager: KeyManager

    constructor (keyManager: KeyManager)
      ensures this.keyManager == keyManager
    {
      this.keyManager := keyManager;
    }

    /**
     * `encrypt(data, keyId)`: throws KeyNotFound, before any cipher call, when
     * getKey gives `null`; otherwise encrypts the UTF-8 bytes of `data` under a
     * 12-byte IV drawn from the random source. Nothing is stored.
     */
    method Encrypt(data: string, keyId: string, aes: AesGcm, codec: TextCodec, ivEntropy: Entropy)
      returns (r: Result<EncryptedPayload, Error>)
      ensures r == Failure(KeyNotFound) <==> KeyEntry(keyId) !in keyManager.storage.items
      ensures r.Success? <==> KeyUsable(keyManager.storage.items, keyId)
      ensures r.Failure? && r.error != KeyNotFound ==> r.error == Rejected(DataError)
      ensures r.Success? ==> |r.value.iv| == IvLength && r.value.iv == GetRandomValues(IvLength, ivEntropy)
      ensures r.Success? ==>
        r.value.data == WebCrypto.Encrypt(aes, r.value.iv, StoredKey(keyManager.storage.items, keyId), codec.encode(data))
    {
      var key := keyManager.GetKey(keyId);
      if key.Failure? {
        return Failure(Rejected(key.error));
      }
      if key.value.None? {
        return Failure(KeyNotFound);
      }
      var iv := GetRandomValues(IvLength, ivEntropy);
      var encodedData := codec.encode(data);
      var encryptedData := WebCrypto.Encrypt(aes, iv, key.value.value, encodedData);
      r := Success(EncryptedPayload(iv, encryptedData));
    }

    /**
     * `decrypt(encryptedObj, keyId)`: throws KeyNotFound, before any cipher call,
     * when getKey gives `null`; rejects with an OperationError when the tag does
     * not verify; otherwise decodes the recovered bytes as UTF-8.
     */
    method Decrypt(encryptedObj: Value, keyId: string, aes: AesGcm, codec: TextCodec)
      returns (r: Result<string, Error>)
      ensures r == Failure(KeyNotFound) <==> KeyEntry(keyId) !in keyManager.storage.items
      ensures KeyEntry(keyId) in keyManager.storage.items && !KeyUsable(keyManager.storage.items, keyId) ==>
        r == Failure(Rejected(DataError))
      ensures KeyUsable(keyManager.storage.items, keyId) ==>
        (r.Success? <==> Opened(aes, keyManager.storage.items, keyId, encryptedObj).Some?)
      ensures KeyUsable(keyManager.storage.items, keyId) && r.Failure? ==> r.error == Rejected(OperationError)
      ensures r.Success? ==> KeyUsable(keyManager.storage.items, keyId)
      ensures r.Success? ==>
        r.value == codec.decode(Opened(aes, keyManager.storage.items, keyId, encryptedObj).value)
    {
      var key := keyManager.GetKey(keyId);
      if key.Failure? {
        return Failure(Rejected(key.error));
      }
      if key.value.None? {
        return Failure(KeyNotFound);
      }
      var iv := IvField(encryptedObj);
      var encryptedData := DataField(encryptedObj);
      var decryptedData := WebCrypto.Decrypt(aes, iv, key.value.value, encryptedData);
      match decryptedData
      case Failure(e) => r := Failure(Rejected(e));
      case Success(plain) => r := Success(codec.decode(plain));
    }
  }

  /**
   * The round trip the popup relies on: decrypting what encrypt produced, with
   * the same key, gives the plaintext back, given that AES-GCM opens what it
   * sealed and the text survives UTF-8. With a missing or unusable key both fail.
   */
  method RoundTrip(cm: CryptoManager, data: string, keyId: string, aes: AesGcm, codec: TextCodec, ivEntropy: Entropy)
    returns (r: Result<string, Error>)
    requires OpensWhatItSeals(aes)
    requires DecodesWhatItEncodes(codec, data)
    ensures KeyUsable(cm.keyManager.storage.items, keyId) ==> r == Success(data)
    ensures KeyEntry(keyId) !in cm.keyManager.storage.items ==> r == Failure(KeyNotFound)
    ensures !KeyUsable(cm.keyManager.storage.items, keyId) ==> r.Failure?
  {
    var encrypted := cm.Encrypt(data, keyId, aes, codec, ivEntropy);
    if encrypted.Failure? {
      return Failure(encrypted.error);
    }
    var p := encrypted.value;
    r := cm.Decrypt(EncryptedRecord(p.iv, p.data), keyId, aes, codec);
  }
}
