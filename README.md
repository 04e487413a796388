# LocalStorage Labyrinth popup: a Dafny model

LocalStorage Labyrinth is a browser extension. Its popup generates AES-GCM keys, keeps them in the extension's `chrome.storage.local`, and encrypts or decrypts a text with a selected key, keeping the current ciphertext in one storage slot. This project models the bookkeeping of `popup.js` around the host's cryptography:

- **Storage** treats the storage area as one object. `StorageArea` holds a `map<string, Value>`, `Set` and `Remove` change that map in place; `Get` and `GetAll` only read it.
- **KeyManagement** is the `KeyManager` class, a namespaced view of the store. A key record lives under `labyrinth_key_` + id, and the id comes from `GenerateKeyId`. `KeyListing` is the `listKeys` filter/map pipeline. Lemmas about it cover membership, distinct ids, saving, deleting, and an invariant that keeps the namespace well formed.
- **Encryption** is the `CryptoManager` class. It resolves the key, throws `KeyNotFound` before any cipher call, draws a 12-byte IV, and returns `{ iv, data }`. The round trip is proved under stated hypotheses about the cipher.
- **Popup** is the `UIManager` handlers. Each one is stated as a change to the store: input checks and the confirmation step stop every change, the `encryptedData` slot is written only after a successful encrypt, and clearing removes only the slot. `LifecycleScenario` runs generate, encrypt, decrypt and delete on a fresh store.
- **JsString** contains the ECMAScript string built-ins that the namespace depends on: `startsWith`, `indexOf`, `replace` with a string pattern, `trim`, and the decimal form of a timestamp.
- **WebCrypto** contains the host services. `importKey` is modelled by the Web Crypto rule for raw AES keys (16, 24 or 32 bytes). Otherwise it rejects with a DataError. Chromium rejects 24-byte AES keys with an OperationError instead; the popup only ever stores 32-byte keys (`WellFormedKeysImport`), so nothing proved depends on that case. AES-GCM `seal`/`open` and the UTF-8 codec are values of function type supplied by the caller. The properties the proofs need from them are the predicates `OpensWhatItSeals` and `DecodesWhatItEncodes`, which are taken as hypotheses.

The popup's inputs become parameters:
- the DOM inputs (the selected key id, the data box, the key-name box);
- `Date.now()` (`now: nat`);
- the random source (an `Entropy` stream of bytes);
- the answer to the `confirm` dialog (`confirmed: bool`);
- the order in which the host enumerates the stored keys (`order`, required to list each key exactly once).

Each handler returns a `Notice` for the message it would have shown.

Behaviour of the code worth knowing:
- A key id that is already in use is silently overwritten. It does not fail with a duplicate-id error.
- `getKey` can reject: a stored record whose bytes are not an AES key makes `importKey` throw a DataError. The stores the popup itself writes rule this out (`WellFormedKeysImport`).
- Decryption never fails with a text-decoding error, because `TextDecoder` replaces bad input instead of throwing.
- A default `TextDecoder` drops a leading U+FEFF, so a text that starts with U+FEFF loses that character on the way through encrypt and decrypt. `RoundTrip` takes the codec round trip as a hypothesis for the one text at hand, so it does not cover such a text.

## Model

The rows for `JsString.StartsWith`, `Storage.KeyField`, `Storage.IvField`, `Storage.DataField`, `Storage.StorageArea.Get`, `Storage.StorageArea.GetAll`, `WebCrypto.ImportRawKey`, `WebCrypto.GetRandomValues`, `WebCrypto.Decrypt`, `WebCrypto.Encrypt` and `WebCrypto.ExportRawKey` describe the environment: the JavaScript and host behaviour `popup.js` calls into, as this model defines it. They are not claims proved about `popup.js` itself.

| member | source | states |
|---|---|---|
| `KeyManagement.GenerateKeyId` | popup.js:28-30 | the id is never empty; a non-empty name is the id itself; an empty name gives `key_` followed by decimal digits that read back as the timestamp |
| `KeyManagement.AutoIdsCollideIff` | popup.js:29 | two ids made up from the clock are equal exactly when the two timestamps are equal |
| `KeyManagement.KeyEntry` | popup.js:33 | the storage key of an id starts with `labyrinth_key_` and the id follows it |
| `KeyManagement.KeyEntryInjective` | popup.js:33 | distinct ids are stored under distinct namespaced keys, in both directions |
| `KeyManagement.KeyManager.constructor` | popup.js:3-5 | the key manager works over the given storage area, which stands for `chrome.storage.local`; its prefix is the constant `KeyPrefix` |
| `KeyManagement.KeyManager.GenerateKey` | popup.js:7-26 | returns the id `GenerateKeyId` chooses and writes exactly one entry, `labyrinth_key_` + id, holding `{ id, key }` with the 32 generated key bytes; any old record there is replaced, other entries are unchanged, and the namespace invariant is kept |
| `KeyManagement.KeyManager.SaveKey` | popup.js:32-34 | one write, at the namespaced key of the id; nothing else changes |
| `KeyManagement.KeyManager.GetKey` | popup.js:36-49 | returns `null` exactly when no entry exists at the namespaced key; otherwise the stored bytes imported as a key, or a DataError exactly when they are not an AES key length; the store is not modified |
| `KeyManagement.KeyListing` | popup.js:53-58 | the listing in enumeration order, never longer than the enumeration; what it contains is stated by `ListedIff` |
| `KeyManagement.ListedIff` | popup.js:51-58 | an element `{ id, data }` is listed exactly when `labyrinth_key_` + id is enumerated and `data` is the record stored there |
| `KeyManagement.ListedIdsDistinct` | popup.js:51-58 | when the enumeration names each key once, no id is listed twice |
| `KeyManagement.KeyManager.ListKeys` | popup.js:51-59 | exactly one element per stored key under the prefix, with the prefix stripped, carrying the stored record; ids are distinct |
| `KeyManagement.SavedKeyIsListed` | popup.js:32-34 | after `saveKey(k, d)` the listing contains `{ id: k, data: d }` |
| `KeyManagement.DeletedKeyNotListed` | popup.js:61-63 | after `deleteKey(k)` no listed element has id `k` |
| `KeyManagement.KeyManager.DeleteKey` | popup.js:61-63 | removes only `labyrinth_key_` + id; deleting an absent id changes nothing; the namespace invariant is kept |
| `KeyManagement.GeneratedRecordKeepsWellFormed` | popup.js:17-24 | storing a generated 32-byte key under its own non-empty id keeps every namespaced entry a key record with a non-empty id that names its entry |
| `KeyManagement.RemovalKeepsWellFormed` | popup.js:62 | removing an entry keeps the namespace invariant |
| `KeyManagement.WellFormedKeysImport` | popup.js:39-48 | under the namespace invariant a present record always imports, so getKey fails only by absence |
| `KeyManagement.WellFormedListing` | popup.js:53-58 | under the namespace invariant every listed element carries a key record whose own id is the listed id, and that id is never the empty "no key selected" value |
| `JsString.StartsWith` | popup.js:54 | `startsWith` holds exactly when the pattern is the input's first characters |
| `JsString.IndexOfFrom` | popup.js:56 | `indexOf` gives the first position where the pattern occurs, and `None` only when it occurs nowhere |
| `JsString.ReplaceFirst` | popup.js:56 | with no occurrence the input is returned unchanged; otherwise the first occurrence, as `indexOf` finds it, is replaced by the replacement text and the rest of the input is kept; a leading pattern is the one replaced |
| `JsString.ReplacePrefixStrips` | popup.js:56 | replacing a leading prefix by the empty string removes exactly that prefix |
| `JsString.DecimalString` | popup.js:29 | the decimal form of a timestamp is a non-empty run of digits without a leading zero |
| `JsString.DecimalRoundTrip` | popup.js:29 | the decimal form of a timestamp reads back as that timestamp |
| `JsString.DecimalInjective` | popup.js:29 | distinct timestamps have distinct decimal forms |
| `JsString.TrimStart` | popup.js:161 | the result is a suffix of the input, everything removed is white space, and it does not start with white space |
| `JsString.TrimEnd` | popup.js:161 | the result is a prefix of the input, everything removed is white space, and it does not end with white space |
| `JsString.Trim` | popup.js:161 | the result starts and ends with no white space, sits in the input right after the leading white space, and only white space follows it |
| `JsString.TrimEmptyIff` | popup.js:161 | trimming gives the empty string exactly when every character is white space |
| `Storage.KeyField` | popup.js:41 | the key bytes of a key record; a record without a `key` field gives an empty array |
| `Storage.IvField` | popup.js:98 | the IV bytes of a payload record; empty for a record without an `iv` field |
| `Storage.DataField` | popup.js:99 | the ciphertext bytes of a payload record; empty for a record without a `data` field |
| `Storage.StorageArea.constructor` | popup.js:33 | an area with no entries, as `chrome.storage.local` is before the popup's first `set`; `LifecycleScenario` starts from it |
| `Storage.StorageArea.Get` | popup.js:37-38 | a value exactly when the key is stored, and then the stored record |
| `Storage.StorageArea.GetAll` | popup.js:52 | a snapshot equal to the whole store |
| `Storage.StorageArea.Set` | popup.js:33 | one entry written, all others unchanged |
| `Storage.StorageArea.Remove` | popup.js:62 | one entry removed; removing an absent key changes nothing |
| `WebCrypto.ImportRawKey` | popup.js:42-48 | succeeds exactly for 16, 24 or 32 bytes, keeping the bytes; otherwise rejects with a DataError |
| `WebCrypto.ExportRawKey` | popup.js:17 | exporting a key of an AES length gives bytes that import back to the same key |
| `WebCrypto.GenerateAesKey` | popup.js:8-17 | a 256-bit key whose raw export imports back to the same key |
| `WebCrypto.GetRandomValues` | popup.js:76 | exactly the requested number of bytes, taken from the random source |
| `WebCrypto.Encrypt` | popup.js:79-86 | under the AES-GCM hypothesis, the ciphertext opens again with the same key and IV to the plaintext |
| `WebCrypto.Decrypt` | popup.js:101-108 | rejects with an OperationError exactly when the authentication tag does not verify |
| `WebCrypto.DecryptEncrypt` | popup.js:79-108 | under the AES-GCM hypothesis, decrypting what was encrypted with the same key and IV gives the plaintext |
| `Encryption.CryptoManager.constructor` | popup.js:68-70 | the crypto manager works over the given key manager |
| `Encryption.CryptoManager.Encrypt` | popup.js:72-92 | throws KeyNotFound exactly when no record is stored; succeeds exactly when the record imports; on success the IV is the 12 random bytes and the data is the AES-GCM encryption of the UTF-8 text under the stored key; nothing is stored |
| `Encryption.CryptoManager.Decrypt` | popup.js:94-111 | throws KeyNotFound exactly when no record is stored and a DataError when it does not import; with a usable key, succeeds exactly when the tag verifies, and then returns the UTF-8 decoding of the recovered bytes |
| `Encryption.RoundTrip` | popup.js:72-111 | with a usable key, decrypt after encrypt gives the text back; with no key the round trip fails with KeyNotFound |
| `Popup.SlotOutsideKeyNamespace` | popup.js:187 | the `encryptedData` slot is not any id's namespaced key |
| `Popup.SlotNeverListed` | popup.js:51-58 | no listed element comes from the `encryptedData` slot |
| `Popup.SlotChangesKeepListing` | popup.js:187 | writing or removing the slot leaves the key listing's elements unchanged, whatever the enumeration order |
| `Popup.BlankNameGetsClockId` | popup.js:159-165 | a key-name box holding only white space gives a clock-made id; any other box gives its non-empty trimmed text |
| `Popup.UIManager.constructor` | popup.js:116-120 | the controller is wired to one key manager and a crypto manager over it |
| `Popup.UIManager.HandleGenerateKey` | popup.js:159-169 | generates under the id chosen from the trimmed name, writes only that entry, and keeps the store invariant |
| `Popup.UIManager.HandleEncrypt` | popup.js:171-192 | an empty key id or empty data changes nothing; otherwise the slot is written, and only the slot, exactly when encryption succeeds, holding the 12-byte IV and ciphertext; a missing key reports KeyNotFound and a stored record that does not import reports a DataError, both persisting nothing; the store invariant is kept |
| `Popup.UIManager.HandleDecrypt` | popup.js:194-215 | never writes the store; no key id or no payload in the slot stops before decryption; a missing key reports KeyNotFound and a record that does not import a DataError; with a usable key it decrypts exactly when the tag verifies and yields the decoded plaintext, and otherwise reports an OperationError |
| `Popup.UIManager.HandleClear` | popup.js:217-221 | removes only the slot; every key record is present and unchanged afterwards |
| `Popup.UIManager.HandleDeleteKey` | popup.js:223-242 | without a selected key, or without confirmation, nothing changes; otherwise only that key's entry is removed; the slot is untouched |
| `Popup.LifecycleScenario` | popup.js:246-249 | on a fresh store, generating `projectA` gives the id `projectA`; encrypting and decrypting `hello` gives `hello` back; after deletion getKey returns `null` |

## Left out

- AES-GCM itself (NIST SP 800-38D; the 12-byte IV follows its 96-bit recommendation, section 5.2.1.1), so tamper detection and wrong-key detection are not modelled. The cipher is a caller-supplied `AesGcm` value, and its round trip is the hypothesis `OpensWhatItSeals`.
- `TextEncoder`/`TextDecoder` UTF-8 handling is a caller-supplied `TextCodec`. Its round trip for a given text is the hypothesis `DecodesWhatItEncodes`.
- Randomness: `getRandomValues` and the key material of `generateKey` come from an `Entropy` parameter. Freshness and uniqueness of IVs and keys are not modelled.
- `Date.now()` is the parameter `now`, and `confirm` is the parameter `confirmed`.
- The asynchrony of `chrome.storage.local` and its failures are left out. The store is a synchronous in-memory map that never rejects, so the `catch` paths of the handlers are reached only through encryption and decryption errors. The unhandled rejection possible in `handleClear` is not modelled.
- Each handler runs as one atomic step, so handlers interleaving at an `await` are not modelled. For example, a clear clicked while `handleEncrypt` is still awaiting its encryption is followed by that encrypt's `set` of the slot (popup.js:186-187), which the model cannot produce.
- A data text holding a lone surrogate is not modelled: a Dafny `string` cannot hold one, and `TextEncoder` would turn it into U+FFFD, so such a text does not come back unchanged from a round trip.
- The order of `Object.keys` is the parameter `order`, required to enumerate the snapshot's keys once each. Nothing is assumed about which order the host picks.
- The UI is left out: `initializeUI`, `setupEventListeners`, `updateKeyList` (rebuilding the select element), `showMessage` text and CSS classes, the `setTimeout` auto-dismiss, and writing the decrypted text or an empty string into the data box. What a handler shows is its returned `Notice`.
- JavaScript truthiness is modelled only for strings (empty is falsy) and for stored records (present is truthy), the only values these checks see.
- JsString.ReplaceFirst: the `$` patterns of a replacement string are not modelled, because the only replacement used is the empty string.
- content.js (copying a page's `localStorage` over extension messaging) and background.js (a stub message handler) are messaging plumbing with no store or key logic. They are not part of this model.
