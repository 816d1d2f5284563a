/** CryptData: the stored record. Two string fields and an amount, optionally bound at
    construction to a cipher provider. A bound record encrypts in its setters and
    decrypts in its Decrypted* accessors; an unbound one passes values through. */
module Entities {
  import opened Results
  import opened CryptographyProvider

  /** The persisted columns of a CryptData. */
  datatype Record = Record(id: int, userDocument: string, creditCardToken: string, value: int)

  /** What a setter stores for plainText under a binding: the plaintext itself, or
      the provider's encryption of it, which may throw. */
  function Stored(binding: Option<Provider>, plainText: string): Result<string> {
    match binding
    case None => Success(plainText)
    case Some(p) => p.encrypt(plainText)
  }

  /** What a Decrypted* accessor yields for a stored string under a binding. */
  function Revealed(binding: Option<Provider>, stored: string): Result<string> {
    match binding
    case None => Success(stored)
    case Some(p) => p.decrypt(stored)
  }

  /** Whatever the binding, an accessor gives back what its setter was given: verbatim
      when unbound, through the provider's round trip when bound. */
  lemma RevealStored(binding: Option<Provider>, plainText: string)
    requires binding.Some? ==> Lawful(binding.value)
    ensures Stored(binding, plainText).Success?
    ensures Revealed(binding, Stored(binding, plainText).value) == Success(plainText)
  {
  }

  class CryptData {
    /** The binding: fixed by the constructor (a readonly field), never persisted. */
    const provider: Option<Provider>
    var id: int
    var userDocument: string
    var creditCardToken: string
    var value: int

    /** The persisted columns of this instance. */
    function Fields(): Record
      reads this
    {
      Record(id, userDocument, creditCardToken, value)
    }

    /** The parameterless constructor (used when materialising rows): unbound, with
        Id 0, empty strings and Value 0. */
    constructor ()
      ensures provider == None
      ensures Fields() == Record(0, "", "", 0)
    {
      provider := None;
      id, userDocument, creditCardToken, value := 0, "", "", 0;
    }

    /** The constructor that binds a provider; the fields start at their defaults. */
    constructor WithProvider(cryptographyProvider: Provider)
      ensures provider == Some(cryptographyProvider)
      ensures Fields() == Record(0, "", "", 0)
    {
      provider := Some(cryptographyProvider);
      id, userDocument, creditCardToken, value := 0, "", "", 0;
    }

    /** DecryptedUserDocument: the stored string when unbound, its decryption when
        bound (which may throw). */
    function DecryptedUserDocument(): (r: Result<string>)
      reads this
      ensures provider.None? ==> r == Success(userDocument)
      ensures provider.Some? ==> r == provider.value.decrypt(userDocument)
    {
      Revealed(provider, userDocument)
    }

    /** DecryptedCreditCardToken: as DecryptedUserDocument, on the other field. */
    function DecryptedCreditCardToken(): (r: Result<string>)
      reads this
      ensures provider.None? ==> r == Success(creditCardToken)
      ensures provider.Some? ==> r == provider.value.decrypt(creditCardToken)
    {
      Revealed(provider, creditCardToken)
    }

    /** SetUserDocument: stores the encryption when bound, the plaintext when unbound.
        An exception from the provider propagates and leaves the field as it was; no
        other field changes. */
    method SetUserDocument(plainText: string) returns (r: Result<()>)
      modifies this`userDocument
      ensures provider.None? ==> r == Success(()) && userDocument == plainText
      ensures provider.Some? && provider.value.encrypt(plainText).Success? ==>
        r == Success(()) && userDocument == provider.value.encrypt(plainText).value
      ensures provider.Some? && provider.value.encrypt(plainText).Failure? ==>
        r == Failure(provider.value.encrypt(plainText).error) && userDocument == old(userDocument)
      ensures provider.Some? ==> Lawful(provider.value) ==>
        r.Success? && DecryptedUserDocument() == Success(plainText)
    {
      if provider.Some? {
        var encrypted := provider.value.encrypt(plainText);
        if encrypted.Failure? {
          return Failure(encrypted.error);
        }
        userDocument := encrypted.value;
      } else {
        userDocument := plainText;
      }
      return Success(());
    }

    /** SetCreditCardToken: as SetUserDocument, on the other field. */
    method SetCreditCardToken(plainText: string) returns (r: Result<()>)
      modifies this`creditCardToken
      ensures provider.None? ==> r == Success(()) && creditCardToken == plainText
      ensures provider.Some? && provider.value.encrypt(plainText).Success? ==>
        r == Success(()) && creditCardToken == provider.value.encrypt(plainText).value
      ensures provider.Some? && provider.value.encrypt(plainText).Failure? ==>
        r == Failure(provider.value.encrypt(plainText).error) && creditCardToken == old(creditCardToken)
      ensures provider.Some? ==> Lawful(provider.value) ==>
        r.Success? && DecryptedCreditCardToken() == Success(plainText)
    {
      if provider.Some? {
        var encrypted := provider.value.encrypt(plainText);
        if encrypted.Failure? {
          return Failure(encrypted.error);
        }
        creditCardToken := encrypted.value;
      } else {
        creditCardToken := plainText;
      }
      return Success(());
    }

    /** CreateWithEncryption: ArgumentNullException without a provider; an exception
        from encrypting the document, then from encrypting the token, propagates;
        otherwise a new record bound to the provider holding the encryption of both
        strings (empty ones included), the value, and Id 0. */
    static method CreateWithEncryption(cryptographyProvider: Option<Provider>, userDocument: string,
                                       creditCardToken: string, value: int)
      returns (r: Result<CryptData>)
      ensures cryptographyProvider.None? ==> r == Failure(ArgumentNull)
      ensures cryptographyProvider.Some? && cryptographyProvider.value.encrypt(userDocument).Failure? ==>
        r == Failure(cryptographyProvider.value.encrypt(userDocument).error)
      ensures cryptographyProvider.Some? && cryptographyProvider.value.encrypt(userDocument).Success?
              && cryptographyProvider.value.encrypt(creditCardToken).Failure? ==>
        r == Failure(cryptographyProvider.value.encrypt(creditCardToken).error)
      ensures cryptographyProvider.Some? && cryptographyProvider.value.encrypt(userDocument).Success?
              && cryptographyProvider.value.encrypt(creditCardToken).Success? ==>
        && r.Success? && fresh(r.value)
        && r.value.provider == cryptographyProvider
        && r.value.Fields() == Record(0, cryptographyProvider.value.encrypt(userDocument).value,
                                      cryptographyProvider.value.encrypt(creditCardToken).value, value)
    {
      if cryptographyProvider.None? {
        return Failure(ArgumentNull);
      }
      var cryptData := new CryptData.WithProvider(cryptographyProvider.value);
      cryptData.value := value;
      var documentSet := cryptData.SetUserDocument(userDocument);
      if documentSet.Failure? {
        return Failure(documentSet.error);
      }
      var tokenSet := cryptData.SetCreditCardToken(creditCardToken);
      if tokenSet.Failure? {
        return Failure(tokenSet.error);
      }
      return Success(cryptData);
    }
  }
}
