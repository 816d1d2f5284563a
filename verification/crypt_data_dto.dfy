/** CryptDataDTO: the immutable plaintext view of a record exchanged at the service
    boundary. */
module Dtos {
  import opened Results
  import opened CryptographyProvider
  import opened Entities

  datatype CryptDataDto = CryptDataDto(id: int, userDocument: string, creditCardToken: string, value: int)

  /** A DTO built with no initialisers: Id 0, empty strings, Value 0. */
  const Default := CryptDataDto(0, "", "", 0)

  /** FromEntity on the values an entity holds: Id and Value copied, the strings
      through the binding's decryption, document first. */
  function Project(binding: Option<Provider>, record: Record): Result<CryptDataDto> {
    match Revealed(binding, record.userDocument)
    case Failure(e) => Failure(e)
    case Success(userDocument) =>
      match Revealed(binding, record.creditCardToken)
      case Failure(e) => Failure(e)
      case Success(creditCardToken) =>
        Success(CryptDataDto(record.id, userDocument, creditCardToken, record.value))
  }

  /** FromEntity: reads the entity (changing nothing) and builds a DTO from its Id,
      Value and Decrypted* accessors; an exception from an accessor propagates. */
  function FromEntity(entity: CryptData): (r: Result<CryptDataDto>)
    reads entity
    ensures entity.DecryptedUserDocument().Failure? ==> r == Failure(entity.DecryptedUserDocument().error)
    ensures entity.DecryptedUserDocument().Success? && entity.DecryptedCreditCardToken().Failure? ==>
      r == Failure(entity.DecryptedCreditCardToken().error)
    ensures r.Success? ==>
      && r.value.id == entity.id && r.value.value == entity.value
      && Success(r.value.userDocument) == entity.DecryptedUserDocument()
      && Success(r.value.creditCardToken) == entity.DecryptedCreditCardToken()
    ensures entity.DecryptedUserDocument().Success? && entity.DecryptedCreditCardToken().Success? ==>
      r == Success(CryptDataDto(entity.id, entity.DecryptedUserDocument().value,
                                entity.DecryptedCreditCardToken().value, entity.value))
    ensures entity.provider.None? ==>
      r == Success(CryptDataDto(entity.id, entity.userDocument, entity.creditCardToken, entity.value))
  {
    Project(entity.provider, entity.Fields())
  }

  /** Projecting what the setters stored gives the plaintext back, whether the binding
      is absent or a provider keeping its contract. */
  lemma ProjectStored(binding: Option<Provider>, id: int, userDocument: string, creditCardToken: string, value: int)
    requires binding.Some? ==> Lawful(binding.value)
    ensures Stored(binding, userDocument).Success? && Stored(binding, creditCardToken).Success?
    ensures Project(binding, Record(id, Stored(binding, userDocument).value, Stored(binding, creditCardToken).value, value))
         == Success(CryptDataDto(id, userDocument, creditCardToken, value))
  {
    RevealStored(binding, userDocument);
    RevealStored(binding, creditCardToken);
  }
}
