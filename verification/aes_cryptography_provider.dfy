/** AesCryptographyProvider: the configured implementation of the cipher interface.

    Its constructor validates the configured key and IV; Encrypt and Decrypt reject
    null, then fail when the UTF-8 key or IV is not a size AES accepts, and Decrypt
    rejects text that is not base64. The AES block cipher, CBC
    chaining, PKCS#7 padding and the base64 codec are .NET library calls and are
    not modelled: in their place stands a small reversible cipher (Cipher and
    Decipher below) that keeps the properties the rest of the system relies on.
    It is deterministic in (key, IV, plaintext), its output is base64 text longer
    than the plaintext, Decipher is its left inverse, and it refuses non-base64
    input with FormatException. */
module AesCryptographyProvider {
  import opened Results
  import opened CryptographyProvider

  /** CryptographySettings: the configured key and initialization vector. */
  datatype Settings = Settings(encryptionKey: string, initializationVector: string)

  /** The provider's two readonly fields, fixed by the constructor. */
  datatype Config = Config(encryptionKey: string, initializationVector: string)

  const KeyLengthMessage := "Encryption key must be exactly 32 characters long"
  const IvLengthMessage := "Initialization vector must be exactly 16 characters long"

  // ---------------------------------------------------------------------------
  // String lengths as .NET measures them

  /** Code units one character takes in UTF-16 (what String.Length counts). */
  function Utf16Width(c: char): nat {
    if c as int >= 0x1_0000 then 2 else 1
  }

  /** Bytes one character takes in UTF-8 (what Encoding.UTF8.GetBytes produces). */
  function Utf8Width(c: char): nat {
    if c as int < 0x80 then 1
    else if c as int < 0x800 then 2
    else if c as int < 0x1_0000 then 3
    else 4
  }

  /** String.Length of s. */
  function Utf16Length(s: string): nat {
    if s == [] then 0 else Utf16Width(s[0]) + Utf16Length(s[1..])
  }

  /** The length of Encoding.UTF8.GetBytes(s). */
  function Utf8Length(s: string): nat {
    if s == [] then 0 else Utf8Width(s[0]) + Utf8Length(s[1..])
  }

  predicate IsAscii(s: string) {
    forall i :: 0 <= i < |s| ==> s[i] as int < 0x80
  }

  /** The byte length never falls below String.Length, and the two agree exactly on
      ASCII text. */
  lemma {:induction false} Utf16AtMostUtf8(s: string)
    ensures Utf16Length(s) <= Utf8Length(s)
    ensures Utf16Length(s) == Utf8Length(s) <==> IsAscii(s)
  {
    if s != [] {
      Utf16AtMostUtf8(s[1..]);
      assert IsAscii(s) <==> s[0] as int < 0x80 && IsAscii(s[1..]) by {
        if s[0] as int < 0x80 && IsAscii(s[1..]) {
          forall i | 0 <= i < |s| ensures s[i] as int < 0x80 {
            if i > 0 { assert s[i] == s[1..][i - 1]; }
          }
        }
      }
    }
  }

  /** Key sizes AES accepts, in bytes. */
  predicate IsAesKeySize(bytes: nat) {
    bytes == 16 || bytes == 24 || bytes == 32
  }

  /** The Aes Key and IV setters accept the UTF-8 encodings of this configuration:
      a key of 16, 24 or 32 bytes and an IV of one 16-byte block. */
  predicate Usable(cfg: Config) {
    IsAesKeySize(Utf8Length(cfg.encryptionKey)) && Utf8Length(cfg.initializationVector) == 16
  }

  // ---------------------------------------------------------------------------
  // Construction

  /** The constructor as written: null options are refused, then the key must be
      non-empty and exactly 32 long, then the IV non-empty and exactly 16 long, both
      measured with String.Length. */
  function NewAsWritten(settings: Option<Settings>): (r: Result<Config>)
    ensures settings.None? ==> r == Failure(ArgumentNull)
    ensures settings.Some? ==>
      var key, iv := settings.value.encryptionKey, settings.value.initializationVector;
      && (Utf16Length(key) != 32 ==> r == Failure(Argument(KeyLengthMessage)))
      && (Utf16Length(key) == 32 && Utf16Length(iv) != 16 ==> r == Failure(Argument(IvLengthMessage)))
      && (Utf16Length(key) == 32 && Utf16Length(iv) == 16 ==> r == Success(Config(key, iv)))
  {
    match settings
    case None => Failure(ArgumentNull)
    case Some(s) =>
      if |s.encryptionKey| == 0 || Utf16Length(s.encryptionKey) != 32 then
        Failure(Argument(KeyLengthMessage))
      else if |s.initializationVector| == 0 || Utf16Length(s.initializationVector) != 16 then
        Failure(Argument(IvLengthMessage))
      else
        Success(Config(s.encryptionKey, s.initializationVector))
  }

  /** A key of 32 UTF-16 code units: one non-ASCII letter and 31 ASCII ones. */
  const NonAsciiKey: string := ['\U{e9}'] + seq(31, _ => 'a')
  /** The IV the provider's tests configure. */
  const TestIv := "DSowoZNzqW1kvTGF"

  /** The check as written accepts a key whose UTF-8 encoding, which is what becomes
      the AES key, is 33 bytes long: not a size AES accepts. The provider it builds
      then throws on every Encrypt, so it does not keep the interface's contract. */
  lemma NewAsWrittenAcceptsUnusableKey()
    ensures NewAsWritten(Some(Settings(NonAsciiKey, TestIv))).Success?
    ensures Utf8Length(NonAsciiKey) == 33 && !IsAesKeySize(Utf8Length(NonAsciiKey))
    ensures var cfg := NewAsWritten(Some(Settings(NonAsciiKey, TestIv))).value;
      && !Usable(cfg)
      && (forall s :: Encrypt(cfg, Some(s)) == Failure(Cryptographic))
      && !Lawful(AsProvider(cfg))
  {
    NonAsciiKeyLengths();
    TestIvLength();
    AsProviderIsLawful(NewAsWritten(Some(Settings(NonAsciiKey, TestIv))).value);
  }

  lemma NonAsciiKeyLengths()
    ensures Utf16Length(NonAsciiKey) == 32 && Utf8Length(NonAsciiKey) == 33
  {
    var tail := seq(31, _ => 'a');
    assert NonAsciiKey[1..] == tail;
    assert IsAscii(tail);
    Utf16AtMostUtf8(tail);
    Utf16OfBmp(tail);
  }

  lemma TestIvLength()
    ensures Utf16Length(TestIv) == 16
  {
    assert forall i :: 0 <= i < |TestIv| ==> TestIv[i] as int < 0x80;
    Utf16OfBmp(TestIv);
  }

  /** On text without characters beyond the Basic Multilingual Plane, String.Length
      is the number of characters. */
  lemma {:induction false} Utf16OfBmp(s: string)
    requires forall i :: 0 <= i < |s| ==> s[i] as int < 0x1_0000
    ensures Utf16Length(s) == |s|
  {
    if s != [] {
      assert forall i :: 0 <= i < |s[1..]| ==> s[1..][i] == s[i + 1];
      Utf16OfBmp(s[1..]);
    }
  }

  /** The constructor with the lengths measured in bytes of the UTF-8 encoding, the
      encoding that turns key and IV into the AES key and IV. */
  function New(settings: Option<Settings>): (r: Result<Config>)
    ensures settings.None? ==> r == Failure(ArgumentNull)
    ensures settings.Some? ==>
      var key, iv := settings.value.encryptionKey, settings.value.initializationVector;
      && (Utf8Length(key) != 32 ==> r == Failure(Argument(KeyLengthMessage)))
      && (Utf8Length(key) == 32 && Utf8Length(iv) != 16 ==> r == Failure(Argument(IvLengthMessage)))
      && (Utf8Length(key) == 32 && Utf8Length(iv) == 16 ==> r == Success(Config(key, iv)))
    ensures r.Success? ==> Usable(r.value)
    ensures settings.Some? ==> (r.Success? <==>
      Utf8Length(settings.value.encryptionKey) == 32 && Utf8Length(settings.value.initializationVector) == 16)
  {
    match settings
    case None => Failure(ArgumentNull)
    case Some(s) =>
      if |s.encryptionKey| == 0 || Utf8Length(s.encryptionKey) != 32 then
        Failure(Argument(KeyLengthMessage))
      else if |s.initializationVector| == 0 || Utf8Length(s.initializationVector) != 16 then
        Failure(Argument(IvLengthMessage))
      else
        Success(Config(s.encryptionKey, s.initializationVector))
  }

  /** On ASCII settings the corrected check and the check as written agree. */
  lemma NewAgreesOnAscii(settings: Settings)
    requires IsAscii(settings.encryptionKey) && IsAscii(settings.initializationVector)
    ensures New(Some(settings)) == NewAsWritten(Some(settings))
  {
    Utf16AtMostUtf8(settings.encryptionKey);
    Utf16AtMostUtf8(settings.initializationVector);
  }

  // ---------------------------------------------------------------------------
  // Base64 text

  predicate IsBase64Digit(c: char) {
    'A' <= c <= 'Z' || 'a' <= c <= 'z' || '0' <= c <= '9' || c == '+' || c == '/'
  }

  predicate IsDigits(s: string) {
    forall i :: 0 <= i < |s| ==> IsBase64Digit(s[i])
  }

  /** The value of a base64 digit, in the order A-Z, a-z, 0-9, '+', '/'. */
  function DigitValue(c: char): (n: nat)
    requires IsBase64Digit(c)
    ensures n < 64
  {
    if 'A' <= c <= 'Z' then c as int - 'A' as int
    else if 'a' <= c <= 'z' then c as int - 'a' as int + 26
    else if '0' <= c <= '9' then c as int - '0' as int + 52
    else if c == '+' then 62
    else 63
  }

  /** The base64 digit of value n. */
  function Digit(n: nat): (c: char)
    requires n < 64
    ensures IsBase64Digit(c) && DigitValue(c) == n
  {
    if n < 26 then ('A' as int + n) as char
    else if n < 52 then ('a' as int + n - 26) as char
    else if n < 62 then ('0' as int + n - 52) as char
    else if n == 62 then '+'
    else '/'
  }

  /** Number of '=' padding characters ending c (at most two count). */
  function PadCount(c: string): (n: nat)
    ensures n <= 2 && n <= |c|
  {
    if |c| > 0 && c[|c| - 1] == '=' then
      if |c| > 1 && c[|c| - 2] == '=' then 2 else 1
    else 0
  }

  /** What Convert.FromBase64String accepts: a multiple of four characters, all base64
      digits except for at most two '=' at the end. */
  predicate IsBase64Text(c: string) {
    |c| % 4 == 0 && forall i :: 0 <= i < |c| - PadCount(c) ==> IsBase64Digit(c[i])
  }

  /** Four base64 digits carry 24 bits. */
  const WordLimit := 0x100_0000

  /** The value of a four-digit group. */
  function QuadValue(q: string): (v: nat)
    requires |q| == 4 && IsDigits(q)
    ensures v < WordLimit
  {
    ((DigitValue(q[0]) * 64 + DigitValue(q[1])) * 64 + DigitValue(q[2])) * 64 + DigitValue(q[3])
  }

  /** The four-digit group of a 24-bit value. */
  function Quad(v: nat): (q: string)
    requires v < WordLimit
    ensures |q| == 4 && IsDigits(q) && QuadValue(q) == v
  {
    var v1 := v / 64;
    var v2 := v1 / 64;
    var v3 := v2 / 64;
    [Digit(v3), Digit(v2 % 64), Digit(v1 % 64), Digit(v % 64)]
  }

  // ---------------------------------------------------------------------------
  // The stand-in cipher

  /** A 24-bit value derived from a string. */
  function Fold(s: string): (t: nat)
    ensures t < WordLimit
  {
    if s == [] then 0 else (Fold(s[..|s| - 1]) * 31 + s[|s| - 1] as int) % WordLimit
  }

  /** The 24-bit tag derived from the key and the IV. */
  function Tag(cfg: Config): (t: nat)
    ensures t < WordLimit
  {
    Fold(cfg.encryptionKey + cfg.initializationVector)
  }

  /** Adds the tag to a 24-bit word, modulo 2^24. */
  function Mask(t: nat, x: nat): (y: nat)
    requires t < WordLimit && x < WordLimit
    ensures y < WordLimit
  {
    if x + t < WordLimit then x + t else x + t - WordLimit
  }

  /** Subtracts the tag from a 24-bit word, modulo 2^24. */
  function Unmask(t: nat, y: nat): (x: nat)
    requires t < WordLimit && y < WordLimit
    ensures x < WordLimit
    ensures forall z :: 0 <= z < WordLimit && Mask(t, z) == y ==> x == z
  {
    if y >= t then y - t else y + WordLimit - t
  }

  /** The code points Dafny's (and .NET's decoded) characters may take. */
  predicate IsScalar(x: int) {
    0 <= x < 0xD800 || 0xE000 <= x < 0x11_0000
  }

  /** One four-digit group per plaintext character. */
  function Body(t: nat, s: string): (b: string)
    requires t < WordLimit
    ensures |b| == 4 * |s| && IsDigits(b)
  {
    if s == [] then [] else Quad(Mask(t, s[0] as int)) + Body(t, s[1..])
  }

  /** Reads the groups of Body back, failing on a group that is no character. */
  function DecodeBody(t: nat, d: string): (r: Result<string>)
    requires t < WordLimit && |d| % 4 == 0 && IsDigits(d)
    ensures r.Success? ==> |r.value| * 4 == |d|
    decreases |d|
  {
    if d == [] then Success([])
    else
      var x := Unmask(t, QuadValue(d[..4]));
      if !IsScalar(x) then Failure(Cryptographic)
      else
        match DecodeBody(t, d[4..])
        case Failure(e) => Failure(e)
        case Success(rest) => Success([x as char] + rest)
  }

  lemma {:induction false} DecodeBodyOfBody(t: nat, s: string)
    requires t < WordLimit
    ensures DecodeBody(t, Body(t, s)) == Success(s)
  {
    if s != [] {
      var m := Mask(t, s[0] as int);
      var b := Body(t, s);
      assert b[..4] == Quad(m);
      assert b[4..] == Body(t, s[1..]);
      DecodeBodyOfBody(t, s[1..]);
      assert Unmask(t, m) == s[0] as int;
      assert [(s[0] as int) as char] + s[1..] == s;
    }
  }

  /** Closes every ciphertext, as base64 of one final byte does. */
  const Trailer := "AQ=="

  /** Encryption of a non-null plaintext: the tag's group, one group per character,
      then the trailer. */
  function Cipher(cfg: Config, plainText: string): (c: string)
    ensures |c| == 4 * |plainText| + 8
    ensures c[|c| - 4..] == Trailer
  {
    Quad(Tag(cfg)) + Body(Tag(cfg), plainText) + Trailer
  }

  /** Decryption of a non-null ciphertext: FormatException unless it is base64 text,
      CryptographicException unless it has the shape Cipher gives under this key
      and IV. */
  function Decipher(cfg: Config, cipherText: string): (r: Result<string>)
    ensures !IsBase64Text(cipherText) ==> r == Failure(Format)
  {
    if !IsBase64Text(cipherText) then Failure(Format)
    else
      var n := |cipherText|;
      if n < 8 || cipherText[n - 4..] != Trailer || cipherText[..4] != Quad(Tag(cfg)) then
        Failure(Cryptographic)
      else
        assert PadCount(cipherText) == 2;
        var body := cipherText[4..n - 4];
        assert IsDigits(body) by {
          forall i | 0 <= i < |body| ensures IsBase64Digit(body[i]) {
            assert body[i] == cipherText[i + 4];
          }
        }
        DecodeBody(Tag(cfg), body)
  }

  /** Every ciphertext is base64 text, non-empty, and longer than its plaintext, so
      it never equals the plaintext. */
  lemma CipherIsBase64(cfg: Config, plainText: string)
    ensures IsBase64Text(Cipher(cfg, plainText)) && PadCount(Cipher(cfg, plainText)) == 2
    ensures |Cipher(cfg, plainText)| > |plainText| && Cipher(cfg, plainText) != plainText
  {
    var c := Cipher(cfg, plainText);
    var head := Quad(Tag(cfg)) + Body(Tag(cfg), plainText);
    assert c == head + Trailer;
    forall i | 0 <= i < |c| - 2 ensures IsBase64Digit(c[i]) {
      if i < |head| { assert c[i] == head[i]; }
    }
  }

  /** Decipher is the left inverse of Cipher, for every plaintext. */
  lemma RoundTrip(cfg: Config, plainText: string)
    ensures Decipher(cfg, Cipher(cfg, plainText)) == Success(plainText)
  {
    var c := Cipher(cfg, plainText);
    var n := |c|;
    CipherIsBase64(cfg, plainText);
    var q, b := Quad(Tag(cfg)), Body(Tag(cfg), plainText);
    assert c == q + b + Trailer;
    assert c[..4] == q;
    assert c[4..n - 4] == b;
    DecodeBodyOfBody(Tag(cfg), plainText);
  }

  /** Replacing the last character of a ciphertext with anything but '=' leaves a
      '=' in the middle of the text, which is not base64: FormatException. */
  lemma CorruptedLastCharacter(cfg: Config, plainText: string, x: char)
    ensures var c := Cipher(cfg, plainText);
      x != '=' ==> Decipher(cfg, c[..|c| - 1] + [x]) == Failure(Format)
  {
    var c := Cipher(cfg, plainText);
    var d := c[..|c| - 1] + [x];
    if x != '=' {
      assert d[|d| - 1] == x;
      assert d[|d| - 2] == c[|c| - 2] == Trailer[2] == '=';
      assert PadCount(d) == 0;
      assert !IsBase64Digit(d[|d| - 2]);
    }
  }

  // ---------------------------------------------------------------------------
  // The provider's public operations

  /** Encrypt: ArgumentNullException on null; CryptographicException from the Key or
      IV setter when the configuration is not usable; otherwise the ciphertext, which
      the corrected Decrypt turns back into the plaintext (DecryptAsWritten, the
      decryption as written, does so except for a leading byte-order mark). */
  function Encrypt(cfg: Config, plainText: Option<string>): (r: Result<string>)
    ensures plainText.None? ==> r == Failure(ArgumentNull)
    ensures plainText.Some? && !Usable(cfg) ==> r == Failure(Cryptographic)
    ensures r.Success? <==> plainText.Some? && Usable(cfg)
    ensures r.Success? ==> IsBase64Text(r.value) && |r.value| > |plainText.value|
    ensures r.Success? ==> Decrypt(cfg, Some(r.value)) == Success(plainText.value)
  {
    match plainText
    case None => Failure(ArgumentNull)
    case Some(s) =>
      if !Usable(cfg) then Failure(Cryptographic)
      else
        RoundTrip(cfg, s);
        CipherIsBase64(cfg, s);
        Success(Cipher(cfg, s))
  }

  /** The corrected decryption, reading the decrypted bytes back as they were written,
      without byte-order-mark detection: ArgumentNullException
      on null; CryptographicException from the Key or IV setter when the configuration
      is not usable, before the text is looked at; FormatException on text that is not
      base64. */
  function Decrypt(cfg: Config, cipherText: Option<string>): (r: Result<string>)
    ensures cipherText.None? ==> r == Failure(ArgumentNull)
    ensures cipherText.Some? && !Usable(cfg) ==> r == Failure(Cryptographic)
    ensures cipherText.Some? && Usable(cfg) && !IsBase64Text(cipherText.value) ==> r == Failure(Format)
  {
    match cipherText
    case None => Failure(ArgumentNull)
    case Some(c) => if !Usable(cfg) then Failure(Cryptographic) else Decipher(cfg, c)
  }

  /** U+FEFF, whose UTF-8 encoding EF BB BF is the byte-order mark. */
  const ByteOrderMark: char := '\U{FEFF}'

  /** What StreamReader, detecting byte-order marks as it does by default, makes of
      decoded text: one leading byte-order mark is taken as a preamble and dropped. */
  function ReadText(decoded: string): (t: string)
    ensures |decoded| > 0 && decoded[0] == ByteOrderMark ==> decoded == [ByteOrderMark] + t
    ensures |decoded| == 0 || decoded[0] != ByteOrderMark ==> t == decoded
  {
    if |decoded| > 0 && decoded[0] == ByteOrderMark then decoded[1..] else decoded
  }

  /** Decrypt as written: the decrypted text goes through a StreamReader that drops a
      leading byte-order mark; otherwise as Decrypt. */
  function DecryptAsWritten(cfg: Config, cipherText: Option<string>): (r: Result<string>)
    ensures Decrypt(cfg, cipherText).Failure? ==> r == Decrypt(cfg, cipherText)
    ensures Decrypt(cfg, cipherText).Success? ==> r == Success(ReadText(Decrypt(cfg, cipherText).value))
  {
    match Decrypt(cfg, cipherText)
    case Failure(e) => Failure(e)
    case Success(decoded) => Success(ReadText(decoded))
  }

  /** As written, the round trip holds exactly for the plaintexts that do not start
      with a byte-order mark. */
  lemma RoundTripAsWritten(cfg: Config, plainText: string)
    requires Usable(cfg)
    ensures DecryptAsWritten(cfg, Some(Encrypt(cfg, Some(plainText)).value)) == Success(plainText)
        <==> |plainText| == 0 || plainText[0] != ByteOrderMark
  {
    if |plainText| > 0 && plainText[0] == ByteOrderMark {
      assert |plainText[1..]| < |plainText|;
    }
  }

  /** As written, a plaintext that starts with a byte-order mark comes back without it. */
  lemma DecryptAsWrittenDropsByteOrderMark(cfg: Config, rest: string)
    requires Usable(cfg)
    ensures DecryptAsWritten(cfg, Some(Encrypt(cfg, Some([ByteOrderMark] + rest)).value)) == Success(rest)
  {
    assert ([ByteOrderMark] + rest)[1..] == rest;
  }

  /** The configured provider seen through the cipher interface, with the corrected
      decryption. */
  function AsProvider(cfg: Config): Provider {
    Provider(s => Encrypt(cfg, Some(s)), c => Decrypt(cfg, Some(c)))
  }

  /** With the corrected decryption, the configured provider keeps the interface's
      contract exactly when its key and IV are usable. */
  lemma AsProviderIsLawful(cfg: Config)
    ensures Lawful(AsProvider(cfg)) <==> Usable(cfg)
  {
    if !Usable(cfg) {
      assert !AsProvider(cfg).encrypt("").Success?;
    }
  }

  /** Every provider the corrected constructor builds, with the corrected decryption,
      keeps the interface's contract. */
  lemma NewIsLawful(settings: Option<Settings>)
    ensures New(settings).Success? ==> Lawful(AsProvider(New(settings).value))
  {
    if New(settings).Success? {
      AsProviderIsLawful(New(settings).value);
    }
  }

  /** The configured provider as written, decrypting through DecryptAsWritten. */
  function AsProviderAsWritten(cfg: Config): Provider {
    Provider(s => Encrypt(cfg, Some(s)), c => DecryptAsWritten(cfg, Some(c)))
  }

  /** As written, the provider keeps the interface's contract on no configuration: an
      unusable one throws on every Encrypt, and a usable one loses the byte-order mark
      of the one-character plaintext U+FEFF. */
  lemma AsProviderAsWrittenIsNotLawful(cfg: Config)
    ensures !Lawful(AsProviderAsWritten(cfg))
  {
    if Usable(cfg) {
      RoundTripAsWritten(cfg, [ByteOrderMark]);
      assert AsProviderAsWritten(cfg).decrypt(AsProviderAsWritten(cfg).encrypt([ByteOrderMark]).value)
          != Success([ByteOrderMark]);
    } else {
      assert !AsProviderAsWritten(cfg).encrypt("").Success?;
    }
  }
}
