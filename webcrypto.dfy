/**
 * The host services the popup calls: `crypto.getRandomValues`, the AES-GCM
 * operations of `crypto.subtle` and `TextEncoder`/`TextDecoder`. The cipher and
 * the text codec are not implemented here: they are values of function type
 * supplied by the caller, and the properties the model needs of them are stated
 * as predicates that a lemma or method takes as hypotheses.
 */
module WebCrypto {

  import opened Wrappers
  import opened Uint8

  /** `generateKey({ name: 'AES-GCM', length: 256 })`: 256 bits, so a 32-byte raw key. */
  const AesKeyLength: nat := 32

  /** The initialisation vector the popup draws for each encryption: `new Uint8Array(12)`. */
  const IvLength: nat := 12

  /** The exceptions the subtle-crypto calls reject with. */
  datatype DomException =
    | DataError       // importKey of raw bytes that are not an AES key
    | OperationError  // AES-GCM decryption whose authentication tag does not verify

  /** An imported or generated AES-GCM key, extractable, for encrypt and decrypt. */
  datatype CryptoKey = AesGcmKey(raw: Bytes)

  /** The raw key lengths Web Crypto accepts for AES: 128, 192 or 256 bits. */
  predicate IsAesKeyLength(n: nat) {
    n == 16 || n == 24 || n == 32
  }

  /** `importKey('raw', bytes, 'AES-GCM', true, ['encrypt', 'decrypt'])`. */
  function ImportRawKey(raw: Bytes): (r: Result<CryptoKey, DomException>)
    ensures r.Success? <==> IsAesKeyLength(|raw|)
    ensures r.Success? ==> r.value.raw == raw
    ensures r.Failure? ==> r.error == DataError
  {
    if IsAesKeyLength(|raw|) then Success(AesGcmKey(raw)) else Failure(DataError)
  }

  /** `exportKey('raw', key)`. */
  function ExportRawKey(key: CryptoKey): (raw: Bytes)
    ensures IsAesKeyLength(|key.raw|) ==> ImportRawKey(raw) == Success(key)
  {
    key.raw
  }

  /** The host's cryptographically secure random source, as the stream of bytes it yields. */
  type Entropy = nat -> uint8

  /** `getRandomValues(new Uint8Array(length))`: `length` bytes from the random source. */
  function GetRandomValues(length: nat, entropy: Entropy): (r: Bytes)
    ensures |r| == length
    ensures forall i :: 0 <= i < length ==> r[i] == entropy(i)
  {
    seq(length, i requires 0 <= i => entropy(i))
  }

  /** `generateKey({ name: 'AES-GCM', length: 256 }, true, ...)`: a fresh random 256-bit key. */
  function GenerateAesKey(entropy: Entropy): (k: CryptoKey)
    ensures |k.raw| == AesKeyLength
    ensures ImportRawKey(ExportRawKey(k)) == Success(k)
  {
    AesGcmKey(GetRandomValues(AesKeyLength, entropy))
  }

  /**
   * AES-GCM as the host implements it: `seal(key, iv, plaintext)` is the
   * ciphertext with its tag appended, `open(key, iv, ciphertext)` the plaintext,
   * or `None` when the tag does not verify.
   */
  datatype AesGcm = AesGcm(
    seal: (Bytes, Bytes, Bytes) -> Bytes,
    open: (Bytes, Bytes, Bytes) -> Option<Bytes>)

  /** `subtle.encrypt({ name: 'AES-GCM', iv }, key, plaintext)`. */
  function Encrypt(aes: AesGcm, iv: Bytes, key: CryptoKey, plaintext: Bytes): (ciphertext: Bytes)
    ensures OpensWhatItSeals(aes) ==> aes.open(key.raw, iv, ciphertext) == Some(plaintext)
  {
    aes.seal(key.raw, iv, plaintext)
  }

  /** `subtle.decrypt({ name: 'AES-GCM', iv }, key, ciphertext)`: rejects on a bad tag. */
  function Decrypt(aes: AesGcm, iv: Bytes, key: CryptoKey, ciphertext: Bytes): (r: Result<Bytes, DomException>)
    ensures r.Failure? <==> aes.open(key.raw, iv, ciphertext).None?
    ensures r.Failure? ==> r.error == OperationError
  {
    match aes.open(key.raw, iv, ciphertext)
    case None => Failure(OperationError)
    case Some(plaintext) => Success(plaintext)
  }

  /** The correctness the popup expects of AES-GCM: opening what was sealed under the same key and IV. */
  ghost predicate OpensWhatItSeals(aes: AesGcm) {
    forall key, iv, plaintext :: aes.open(key, iv, aes.seal(key, iv, plaintext)) == Some(plaintext)
  }

  /** `new TextEncoder().encode` and `new TextDecoder().decode` (UTF-8; decoding never throws). */
  datatype TextCodec = TextCodec(encode: string -> Bytes, decode: Bytes -> string)

  /** The text survives UTF-8 encoding and decoding. */
  ghost predicate DecodesWhatItEncodes(codec: TextCodec, text: string) {
    codec.decode(codec.encode(text)) == text
  }

  /** Decrypting what was encrypted under the same key and IV gives the plaintext back. */
  lemma DecryptEncrypt(aes: AesGcm, iv: Bytes, key: CryptoKey, plaintext: Bytes)
    requires OpensWhatItSeals(aes)
    ensures Decrypt(aes, iv, key, Encrypt(aes, iv, key, plaintext)) == Success(plaintext)
  {
  }
}
