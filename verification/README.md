# Field-level encryption in CryptographyChallenge, modelled in Dafny

CryptographyChallenge stores records that hold a user document and a credit card
token, plus a monetary value. Both strings are encrypted at rest. A cipher provider
(`ICryptographyProvider`, implemented by `AesCryptographyProvider`) encrypts and
decrypts strings. The `CryptData` entity encrypts in its setters and decrypts in its
`Decrypted*` accessors when it is bound to a provider, and passes values through
when it is not. `CryptDataDTO.FromEntity` turns an entity into the plaintext view
exchanged at the boundary. `CryptographyService` implements create, read, update and
delete over a repository.

The model has one module per part of the program:

- `Results` (`results.dfy`) holds what stands for null references (`Option`) and for
  thrown exceptions (`Result` with an `Error` per .NET exception type).
- `CryptographyProvider` (`cryptography_provider.dfy`) holds the cipher interface.
  It is a value with two function-valued fields. `Lawful` is its contract: decrypt
  undoes encrypt. Either operation may throw. The service and entity contracts
  hold for every provider, lawful or not; round-trip results require `Lawful`.
- `AesCryptographyProvider` (`aes_cryptography_provider.dfy`) holds the constructor's
  validation and `Encrypt`/`Decrypt`. The AES cipher is replaced by a small reversible
  stand-in cipher. A configuration is usable when its UTF-8 key and IV are sizes AES
  accepts. The decryption as written (`DecryptAsWritten`) drops a leading byte-order
  mark, so the provider as written keeps the interface's contract on no configuration
  (see Findings). The rest of the model uses the corrected decryption (`Decrypt`),
  with which the provider is proved lawful exactly on usable configurations.
- `Entities` (`crypt_data.dfy`) holds the `CryptData` class. Its provider binding is
  a `const` set by the constructors. Its four fields are mutable.
- `Dtos` (`crypt_data_dto.dfy`) holds the `CryptDataDto` value, its default
  (`Dtos.Default`: Id 0, empty strings, Value 0) and `FromEntity`.
- `Repositories` (`repository.dfy`) holds an in-memory repository class that keeps
  the `IRepository<CryptData>` contract. Rows are kept by id, ids are listed in
  insertion order, fresh positive ids come from a counter, and a ghost log records
  every write.
- `Services` (`cryptography_service.dfy`) holds the `CryptographyService` class and
  client methods that prove the Create→GetById and Update→GetById round trips for
  any lawful provider. For the AES provider on a usable key and IV they prove the
  Create→GetById round trip with the corrected decryption, and with the decryption
  as written for data whose strings do not start with a byte-order mark.

Determinism of `Encrypt` holds by construction: a provider's operations are Dafny
functions of their argument, and the AES configuration is an immutable value.

## Model

| member | source | states |
|---|---|---|
| CryptographyProvider.EncryptInjective | Cryptography.Domain/Interfaces/ICryptographyProvider.cs:5-6 | under the interface contract, two plaintexts have the same encryption if and only if they are equal |
| AesCryptographyProvider.NewAsWritten | Cryptography.Domain/Services/AesCryptographyProvider.cs:14-26 | null options give ArgumentNullException; a key whose String.Length is not 32 gives ArgumentException with the key message; then an IV whose length is not 16 gives ArgumentException with the IV message; otherwise the provider holds the key and IV |
| AesCryptographyProvider.Utf16AtMostUtf8 | Cryptography.Domain/Services/AesCryptographyProvider.cs:21-34 | a string's UTF-8 byte count is never below its String.Length, and the two are equal exactly when the string is ASCII |
| AesCryptographyProvider.NewAsWrittenAcceptsUnusableKey | Cryptography.Domain/Services/AesCryptographyProvider.cs:21-35 | the check as written accepts a 32-character key with one non-ASCII letter, whose UTF-8 encoding is 33 bytes, not an AES key size; the provider it builds throws CryptographicException on every Encrypt and so does not keep the interface's contract |
| AesCryptographyProvider.NonAsciiKeyLengths | Cryptography.Domain/Services/AesCryptographyProvider.cs:21-34 | that key is 32 UTF-16 code units and 33 UTF-8 bytes long |
| AesCryptographyProvider.TestIvLength | Cryptography.Tests/Domain/Services/AesCryptographyProviderTests.cs:16-20 | the IV the provider's tests configure is 16 characters long |
| AesCryptographyProvider.Utf16OfBmp | Cryptography.Domain/Services/AesCryptographyProvider.cs:21-25 | on text inside the Basic Multilingual Plane, String.Length is the number of characters |
| AesCryptographyProvider.New | Cryptography.Domain/Services/AesCryptographyProvider.cs:14-35 | corrected constructor: null options give ArgumentNullException; a key whose UTF-8 byte count is not 32 gives ArgumentException with the key message; then an IV whose UTF-8 byte count is not 16 gives ArgumentException with the IV message; otherwise the provider holds the key and IV, so every configuration it accepts is usable by the Aes setters |
| AesCryptographyProvider.NewAgreesOnAscii | Cryptography.Domain/Services/AesCryptographyProvider.cs:21-34 | on ASCII key and IV, the corrected check and the check as written give the same outcome |
| AesCryptographyProvider.NewIsLawful | Cryptography.Domain/Services/AesCryptographyProvider.cs:14-75 | corrected half of both findings: every provider the corrected constructor builds, with the corrected decryption, keeps the interface's round-trip contract |
| AesCryptographyProvider.Digit | Cryptography.Domain/Services/AesCryptographyProvider.cs:72 | lemma of the stand-in cipher: the base64 digit for a 6-bit value is a base64 character that decodes back to the value |
| AesCryptographyProvider.Quad | Cryptography.Domain/Services/AesCryptographyProvider.cs:72 | lemma of the stand-in cipher: four base64 digits carrying a 24-bit value decode back to that value |
| AesCryptographyProvider.Unmask | Cryptography.Domain/Services/AesCryptographyProvider.cs:28-75 | lemma of the stand-in cipher: removing the key/IV tag undoes adding it, for every 24-bit word |
| AesCryptographyProvider.DecodeBodyOfBody | Cryptography.Domain/Services/AesCryptographyProvider.cs:28-75 | lemma of the stand-in cipher: reading the encrypted characters back gives the plaintext |
| AesCryptographyProvider.Cipher | Cryptography.Domain/Services/AesCryptographyProvider.cs:52-75 | the stand-in encryption: 4 characters per plaintext character plus 8, ending with a padded final group |
| AesCryptographyProvider.Decipher | Cryptography.Domain/Services/AesCryptographyProvider.cs:28-50 | the stand-in decryption: text that is not base64 gives FormatException |
| AesCryptographyProvider.CipherIsBase64 | Cryptography.Domain/Services/AesCryptographyProvider.cs:72 | a stand-in ciphertext is base64 text with two '=' of padding, longer than its plaintext and so different from it |
| AesCryptographyProvider.RoundTrip | Cryptography.Domain/Services/AesCryptographyProvider.cs:28-75 | the stand-in decryption of the stand-in encryption of any string, empty, long or non-ASCII, gives the string back |
| AesCryptographyProvider.CorruptedLastCharacter | Cryptography.Tests/Domain/Services/AesCryptographyProviderTests.cs:135-146 | replacing a stand-in ciphertext's last character with anything but '=' gives FormatException |
| AesCryptographyProvider.Encrypt | Cryptography.Domain/Services/AesCryptographyProvider.cs:52-75 | null gives ArgumentNullException; then an unusable key or IV gives CryptographicException; it succeeds exactly otherwise, with base64 text longer than the plaintext that the corrected Decrypt turns back into the plaintext |
| AesCryptographyProvider.Decrypt | Cryptography.Domain/Services/AesCryptographyProvider.cs:28-50 | the corrected decryption, reading the decrypted text without byte-order-mark detection: null gives ArgumentNullException; then an unusable key or IV gives CryptographicException before the text is examined; then text that is not base64 gives FormatException |
| AesCryptographyProvider.ReadText | Cryptography.Domain/Services/AesCryptographyProvider.cs:43-45 | reading decoded text drops one leading byte-order mark and keeps any other text unchanged |
| AesCryptographyProvider.DecryptAsWritten | Cryptography.Domain/Services/AesCryptographyProvider.cs:28-50 | as written: the same failures as Decrypt, and on success Decrypt's text with a leading byte-order mark dropped |
| AesCryptographyProvider.RoundTripAsWritten | Cryptography.Domain/Services/AesCryptographyProvider.cs:28-75 | with a usable configuration, the round trip as written holds exactly for plaintexts that do not start with U+FEFF |
| AesCryptographyProvider.DecryptAsWrittenDropsByteOrderMark | Cryptography.Domain/Services/AesCryptographyProvider.cs:43-45 | as written, U+FEFF followed by any text decrypts to that text without the U+FEFF |
| AesCryptographyProvider.AsProviderIsLawful | Cryptography.Domain/Services/AesCryptographyProvider.cs:9-75 | corrected half: the configured provider with the corrected decryption keeps the interface's round-trip contract if and only if its key and IV are usable |
| AesCryptographyProvider.AsProviderAsWrittenIsNotLawful | Cryptography.Domain/Services/AesCryptographyProvider.cs:9-75 | as written, the configured provider keeps the interface's round-trip contract on no configuration: an unusable key or IV makes every Encrypt throw, and a usable one loses the U+FEFF of the plaintext "\uFEFF" |
| Entities.RevealStored | Cryptography.Domain/Entities/CryptData.cs:24-45 | whatever the binding (none, or a lawful provider), a setter succeeds and the accessor gives back what it was given |
| Entities.CryptData.constructor | Cryptography.Domain/Entities/CryptData.cs:9-15 | a default-constructed record is unbound, with Id 0, empty strings and Value 0 |
| Entities.CryptData.WithProvider | Cryptography.Domain/Entities/CryptData.cs:9-21 | the binding constructor fixes the provider; the fields start at their defaults |
| Entities.CryptData.DecryptedUserDocument | Cryptography.Domain/Entities/CryptData.cs:24-25 | the stored document when unbound, the provider's decryption of it (which may fail) when bound |
| Entities.CryptData.DecryptedCreditCardToken | Cryptography.Domain/Entities/CryptData.cs:27-28 | the stored token when unbound, the provider's decryption of it when bound |
| Entities.CryptData.SetUserDocument | Cryptography.Domain/Entities/CryptData.cs:31-37 | stores the encryption when bound and the plaintext when unbound; a throwing encryption propagates and leaves the field as it was; no other field changes; with a lawful provider the accessor then gives the plaintext back |
| Entities.CryptData.SetCreditCardToken | Cryptography.Domain/Entities/CryptData.cs:39-45 | the same on the token field, with every other field unchanged |
| Entities.CryptData.CreateWithEncryption | Cryptography.Domain/Entities/CryptData.cs:48-65 | a null provider gives ArgumentNullException; an exception from encrypting the document, then the token, propagates; otherwise a new record bound to the provider, with Id 0, the value, and the encryption of both strings, empty ones included |
| Dtos.Default | Cryptography.Domain/DTOs/CryptDataDTO.cs:7-10 | a DTO built with no initialisers has Id 0, empty strings and Value 0 |
| Dtos.FromEntity | Cryptography.Domain/DTOs/CryptDataDTO.cs:12-21 | when both Decrypted accessors succeed, the DTO holds the entity's Id and Value and the two decrypted strings; otherwise the exception of the first failing accessor (document first); an unbound entity's strings pass through verbatim; the entity is only read |
| Dtos.ProjectStored | Cryptography.Domain/DTOs/CryptDataDTO.cs:12-21 | the DTO of a record filled through the setters carries the plaintext, whether unbound or bound to a lawful provider |
| Repositories.Without | Cryptography.Data/Repositories/CryptDataRepository.cs:23-27 | removing an id from the listing keeps exactly the other ids, and keeps them distinct |
| Repositories.Repository.Records | Cryptography.Data/Repositories/CryptDataRepository.cs:29-32 | one row per listed id, in listing order |
| Repositories.Repository.constructor | Cryptography.Domain/Interfaces/IRepository.cs:3-10 | an empty table with no writes |
| Repositories.Repository.GetById | Cryptography.Data/Repositories/CryptDataRepository.cs:34-37 | a new unbound entity holding the row with the id if there is one, null otherwise |
| Repositories.Repository.GetAll | Cryptography.Data/Repositories/CryptDataRepository.cs:29-32 | one new unbound entity per row, in listing order |
| Repositories.Repository.Add | Cryptography.Tests/Data/Repositories/CryptDataRepositoryTests.cs:191-215 | gives the entity a fresh positive id, stores its fields under it, appends it to the listing, logs one Add, and returns the same instance |
| Repositories.Repository.Update | Cryptography.Data/Repositories/CryptDataRepository.cs:39-43 | overwrites the entity's row, logs one Update, and changes nothing else |
| Repositories.Repository.Delete | Cryptography.Data/Repositories/CryptDataRepository.cs:23-27 | removes the entity's row and its listing entry, logs one Delete, and changes nothing else |
| Services.SealedRoundTrip | Cryptography.Services/Services/CryptographyService.cs:23-30 | with a lawful provider, sealing succeeds, the row holds ciphertexts, and reading it gives the submitted plaintext under the row's id |
| Services.ProjectAtRest | Cryptography.Services/Services/CryptographyService.cs:39-47 | reading a row that holds ciphertexts succeeds, and encrypting what it reads gives the row back |
| Services.NewPlaintextNewCiphertext | Cryptography.Services/Services/CryptographyService.cs:83-90 | under a lawful provider, a plaintext that the stored string does not decrypt to yields a different stored ciphertext |
| Services.CryptographyService.constructor | Cryptography.Services/Services/CryptographyService.cs:13-17 | keeps the repository and provider it is given |
| Services.CryptographyService.Create | Cryptography.Services/Services/CryptographyService.cs:19-31 | null data gives ArgumentNullException, and a throwing encryption its exception, both with nothing stored; otherwise exactly one row is added under a fresh positive id, holding both encrypted strings and the value, with other rows untouched; the result is the DTO of that row, which for a lawful provider is the submitted data under the new id; all rows stay encrypted |
| Services.CryptographyService.GetById | Cryptography.Services/Services/CryptographyService.cs:33-48 | null when no row has the id; otherwise the row's Id and Value with both strings decrypted, or the decryption's exception; nothing changes |
| Services.CryptographyService.GetAll | Cryptography.Services/Services/CryptographyService.cs:50-65 | succeeds exactly when every row decrypts, then with one DTO per row in listing order, each as GetById gives it (an empty table gives an empty sequence); otherwise the exception of the first row that fails |
| Services.CryptographyService.Update | Cryptography.Services/Services/CryptographyService.cs:67-94 | null data gives ArgumentNullException with the repository unchanged; an absent id gives null, and a throwing encryption its exception, both with nothing written; otherwise only that row is overwritten, once, under the same id, with the new encrypted strings and value, and the result for a lawful provider is the new plaintext under the id; all rows stay encrypted |
| Services.CryptographyService.Delete | Cryptography.Services/Services/CryptographyService.cs:96-103 | true exactly when a row had the id, and then only that row is removed, by one delete; false with nothing written otherwise |
| Services.CreateThenGetById | Cryptography.Tests/Services/Services/CryptographyServiceTests.cs:28-106 | with a lawful provider, Create returns the submitted data under a new id, GetById on that id returns the same DTO, and the stored row holds the encryption |
| Services.SealedWithAesHidesPlaintext | Cryptography.Services/Services/CryptographyService.cs:23-29 | with the AES provider on a usable key and IV, a sealed row holds neither the document nor the token in plaintext; sealing uses only Encrypt, so this holds as written too |
| Services.CreateThenGetByIdWithAes | Cryptography.Tests/Services/Services/CryptographyServiceTests.cs:28-106 | with the AES provider, with the corrected decryption, on a usable key and IV, Create returns the submitted data under a new id, GetById returns the same DTO, and the stored row differs from the plaintext in both fields |
| Services.SealedRoundTripAsWritten | Cryptography.Services/Services/CryptographyService.cs:23-29 | with the AES provider as written on a usable key and IV, sealing succeeds, and the sealed row reads back as the submitted data exactly when neither string starts with a byte-order mark |
| Services.CreateThenGetByIdAsWritten | Cryptography.Tests/Services/Services/CryptographyServiceTests.cs:28-106 | with the AES provider as written on a usable key and IV and data whose strings do not start with a byte-order mark, Create returns the submitted data under a new id and GetById returns the same DTO |
| Services.UpdateThenGetById | Cryptography.Tests/Services/Services/CryptographyServiceTests.cs:150-189 | with a lawful provider and whatever the stored row holds, Update on a stored id returns the new data under the id, GetById returns the same, and each stored ciphertext (document and token) changes whenever its plaintext does |

## Left out

- AesCryptographyProvider.Cipher and AesCryptographyProvider.Decipher stand in for AES-256 (FIPS 197), CBC chaining (NIST SP 800-38A section 6.2), PKCS#7 padding (RFC 5652 section 6.3) and the base64 codec (RFC 4648 section 4), which are .NET library calls. The stand-in keeps determinism, the round trip, base64 output with padding, and FormatException on non-base64 input. It is not AES, and its ciphertext lengths and padding are not AES's. The lemmas Digit, Quad, Unmask, DecodeBodyOfBody, CipherIsBase64 and RoundTrip are about the stand-in.
- AesCryptographyProvider.Decipher: a base64 text that fails to decrypt gives CryptographicException in the model. The real decryptor may instead return garbage for such text; that depends on AES and is not captured.
- AesCryptographyProvider.CorruptedLastCharacter: the stand-in always ends in "==". AES ciphertexts are 16k bytes long, so their base64 ends in "==", "=" or no padding as k mod 3 is 1, 2 or 0. The lemma holds for AES only when the ciphertext ends in "==", as it does for the plaintext the provider's test corrupts. For a plaintext of 16 to 31 UTF-8 bytes, replacing the single '=' with a digit gives valid base64, and the source throws CryptographicException instead.
- AesCryptographyProvider.RoundTrip: .NET strings may hold lone surrogates, which StreamWriter's UTF-8 encoder rejects. Dafny strings cannot hold them, so that failure is not modelled. The byte-order-mark loss is listed under Findings.
- AesCryptographyProvider.Decrypt: the base64 whitespace that Convert.FromBase64String tolerates is not accepted.
- The MemoryStream, CryptoStream, StreamWriter and StreamReader plumbing inside Encrypt and Decrypt is I/O and is left out, except for StreamReader's byte-order-mark detection (ReadText).
- Entities.CryptData.DecryptedUserDocument and Entities.CryptData.DecryptedCreditCardToken: a provider whose Decrypt returns null makes the accessor fall back to the stored string (`??`). A provider's decrypt here returns a string or an exception, never null, so that fallback is not modelled. The source's own AES provider never returns null.
- Services.CryptographyService.Create: only a repository that returns the instance it was given is modelled, as CryptDataRepository.AddAsync does. A repository returning a different, unbound record would make the DTO carry its stored strings verbatim; that case is not modelled.
- Encrypt being called "exactly once" by the setters and by CreateAsync is not stated. Provider operations are pure functions, so a call count is not observable.
- `async`/`Task` is left out, and so is the lost-update race between concurrent UpdateAsync calls. Every operation is one sequential step.
- Services.CryptographyService.GetAll: the C# `Select` is lazy and runs each decryption when the result is enumerated. The model builds the whole sequence eagerly and raises the first row's failure at once.
- Ids and values are unbounded integers. The source's `long` fields are only copied and compared, never computed on, so 64-bit range does not matter. Id generation by the database is modelled as a counter.
- Null strings inside a DTO or inside the settings are not modelled. Strings are always present; null options, data, plaintexts and entity providers are modelled as `Option`.
- Services.CryptographyService.constructor: its repository and provider are never null, as dependency injection always supplies both. CryptographyService.cs:13-17 does not check them; with a null provider CreateAsync would throw ArgumentNullException through CreateWithEncryption, and GetByIdAsync would pass stored strings through. That case is not modelled.
- The repository is an in-memory stand-in for the Entity Framework wrapper. SaveChanges happens inside each write. The entities it hands out are always new instances, and EF's identity-map reuse of tracked instances is not modelled.
- Repositories.Repository.Update and Repositories.Repository.Delete require a stored id. EF's Update and Remove attach an untracked entity, and SaveChanges fails when its row does not exist. That failure is not modelled. The service only calls them after a successful GetById.
- The controller, Program.cs, the migrations and AppDbContext are HTTP, dependency-injection and schema plumbing, and are not part of this model. The 500-character column limit is among them.

## Findings

| source | as written | input that shows it | evidently intended | confidence | as-written member | corrected member |
|---|---|---|---|---|---|---|
| Cryptography.Domain/Services/AesCryptographyProvider.cs:21-34 | the key length is checked with String.Length (UTF-16 code units, "exactly 32 characters"), but the AES key is `Encoding.UTF8.GetBytes(key)` | key "é" followed by 31 × "a": 32 code units, 33 UTF-8 bytes, so the constructor accepts it and every Encrypt and Decrypt then throws CryptographicException from the Key setter | check the UTF-8 byte length, so that every accepted key is a 32-byte AES key and every IV 16 bytes | not executed | AesCryptographyProvider.NewAsWrittenAcceptsUnusableKey | AesCryptographyProvider.New |
| Cryptography.Domain/Services/AesCryptographyProvider.cs:43-45 | Decrypt reads the decrypted bytes with `new StreamReader(csDecrypt)`, which detects byte-order marks and drops a leading EF BB BF; Encrypt's StreamWriter writes U+FEFF as exactly those bytes | plaintext "\uFEFF" + "x": Encrypt then Decrypt gives "x" | Decrypt(Encrypt(s)) == s for every string, as the round-trip tests expect; read without byte-order-mark detection, as the corrected Decrypt does, whose round trip RoundTrip and AsProviderIsLawful prove | not executed | AesCryptographyProvider.DecryptAsWrittenDropsByteOrderMark | AesCryptographyProvider.Decrypt |
