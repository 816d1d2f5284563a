/** CryptographyService: create, read, update and delete over the repository, keeping
    records encrypted at rest and plaintext at the boundary. */
module Services {
  import opened Results
  import opened CryptographyProvider
  import opened Entities
  import opened Dtos
  import opened Repositories
  import Aes = AesCryptographyProvider

  /** The row CreateAsync and UpdateAsync persist under id for the plaintext data, or
      the exception from encrypting the document, then the token. */
  function Sealed(p: Provider, id: int, data: CryptDataDto): Result<Record> {
    match p.encrypt(data.userDocument)
    case Failure(e) => Failure(e)
    case Success(userDocument) =>
      match p.encrypt(data.creditCardToken)
      case Failure(e) => Failure(e)
      case Success(creditCardToken) => Success(Record(id, userDocument, creditCardToken, data.value))
  }

  /** A DTO outcome of an operation that reports "not found" with null. */
  function Found(r: Result<CryptDataDto>): Result<Option<CryptDataDto>> {
    match r
    case Success(d) => Success(Some(d))
    case Failure(e) => Failure(e)
  }

  /** Both strings of every row are ciphertexts of p. */
  ghost predicate EncryptedAtRest(p: Provider, store: map<int, Record>) {
    forall id :: id in store ==>
      IsCiphertext(p, store[id].userDocument) && IsCiphertext(p, store[id].creditCardToken)
  }

  /** A sealed row holds ciphertext, and reading it back gives the plaintext data under
      the row's id. */
  lemma SealedRoundTrip(p: Provider, id: int, data: CryptDataDto)
    requires Lawful(p)
    ensures Sealed(p, id, data).Success?
    ensures IsCiphertext(p, Sealed(p, id, data).value.userDocument)
    ensures IsCiphertext(p, Sealed(p, id, data).value.creditCardToken)
    ensures Project(Some(p), Sealed(p, id, data).value) == Success(data.(id := id))
  {
    ProjectStored(Some(p), id, data.userDocument, data.creditCardToken, data.value);
  }

  /** Reading a row that holds ciphertext succeeds, and sealing what it reads gives the
      row back. */
  lemma ProjectAtRest(p: Provider, row: Record)
    requires IsCiphertext(p, row.userDocument) && IsCiphertext(p, row.creditCardToken)
    ensures Project(Some(p), row).Success?
    ensures Sealed(p, row.id, Project(Some(p), row).value) == Success(row)
  {
  }

  /** Updating a row with a plaintext other than the one it encrypts changes the
      stored ciphertext. */
  lemma NewPlaintextNewCiphertext(p: Provider, stored: string, plainText: string)
    requires Lawful(p)
    requires p.decrypt(stored) != Success(plainText)
    ensures p.encrypt(plainText) != Success(stored)
  {
  }

  class CryptographyService {
    const repository: Repository
    const provider: Provider

    constructor (repository: Repository, cryptographyProvider: Provider)
      ensures this.repository == repository && provider == cryptographyProvider
    {
      this.repository := repository;
      provider := cryptographyProvider;
    }

    /** CreateAsync: ArgumentNullException on null data, and the provider's exception
        when an encryption throws, both before anything is stored. Otherwise adds
        exactly one row, under a fresh positive id, holding the encryption of both
        strings and the value, and returns FromEntity of the instance the repository
        gave back: with a provider keeping its contract, the submitted plaintext under
        the new id. Other rows are untouched. */
    method Create(data: Option<CryptDataDto>) returns (r: Result<CryptDataDto>)
      requires repository.Valid()
      modifies repository
      ensures repository.Valid()
      ensures data.None? ==> r == Failure(ArgumentNull) && unchanged(repository)
      ensures data.Some? && Sealed(provider, old(repository.nextId), data.value).Failure? ==>
        r == Failure(Sealed(provider, old(repository.nextId), data.value).error) && unchanged(repository)
      ensures data.Some? && Sealed(provider, old(repository.nextId), data.value).Success? ==>
        var id := old(repository.nextId);
        var row := Sealed(provider, id, data.value).value;
        && id > 0 && id !in old(repository.store)
        && repository.store == old(repository.store)[id := row]
        && repository.order == old(repository.order) + [id]
        && repository.writes == old(repository.writes) + [Added(row)]
        && r == Project(Some(provider), row)
      ensures Lawful(provider) && data.Some? ==> r == Success(data.value.(id := old(repository.nextId)))
      ensures Lawful(provider) && EncryptedAtRest(provider, old(repository.store)) ==>
        EncryptedAtRest(provider, repository.store)
    {
      if data.None? {
        return Failure(ArgumentNull);
      }
      var d := data.value;
      var made := CryptData.CreateWithEncryption(Some(provider), d.userDocument, d.creditCardToken, d.value);
      if made.Failure? {
        return Failure(made.error);
      }
      var created := repository.Add(made.value);
      r := FromEntity(created);
      if Lawful(provider) {
        SealedRoundTrip(provider, created.id, d);
      }
    }

    /** GetByIdAsync: null when no row has the id; otherwise the row's Id and Value with
        both strings decrypted. Nothing is stored. */
    method GetById(id: int) returns (r: Result<Option<CryptDataDto>>)
      requires repository.Valid()
      ensures id !in repository.store ==> r == Success(None)
      ensures id in repository.store ==> r == Found(Project(Some(provider), repository.store[id]))
      ensures id in repository.store && EncryptedAtRest(provider, repository.store) ==>
        r.Success? && r.value.Some? && Sealed(provider, id, r.value.value) == Success(repository.store[id])
    {
      var entity := repository.GetById(id);
      if entity.None? {
        return Success(None);
      }
      var e := entity.value;
      var entityWithCrypto := new CryptData.WithProvider(provider);
      entityWithCrypto.id, entityWithCrypto.userDocument := e.id, e.userDocument;
      entityWithCrypto.creditCardToken, entityWithCrypto.value := e.creditCardToken, e.value;
      r := Found(FromEntity(entityWithCrypto));
      if EncryptedAtRest(provider, repository.store) {
        ProjectAtRest(provider, repository.store[id]);
      }
    }

    /** GetAllAsync: one DTO per row, in listing order, each as GetById gives it; the
        first row that fails to decrypt raises its exception. An empty table gives an
        empty sequence. Nothing is stored. */
    method GetAll() returns (r: Result<seq<CryptDataDto>>)
      requires repository.Valid()
      ensures var rows := repository.Records();
        r.Success? <==> forall i :: 0 <= i < |rows| ==> Project(Some(provider), rows[i]).Success?
      ensures var rows := repository.Records();
        r.Success? ==>
          && |r.value| == |rows|
          && forall i :: 0 <= i < |rows| ==> Project(Some(provider), rows[i]) == Success(r.value[i])
      ensures var rows := repository.Records();
        r.Failure? ==> exists k :: (
          && 0 <= k < |rows| && Project(Some(provider), rows[k]) == Failure(r.error)
          && forall j :: 0 <= j < k ==> Project(Some(provider), rows[j]).Success?)
    {
      ghost var rows := repository.Records();
      var entities := repository.GetAll();
      var dtos := [];
      var i := 0;
      while i < |entities|
        invariant 0 <= i <= |entities| == |rows| && |dtos| == i
        invariant forall j :: 0 <= j < |entities| ==> entities[j].Fields() == rows[j]
        invariant forall j :: 0 <= j < i ==> Project(Some(provider), rows[j]) == Success(dtos[j])
      {
        var e := entities[i];
        var entityWithCrypto := new CryptData.WithProvider(provider);
        entityWithCrypto.id, entityWithCrypto.userDocument := e.id, e.userDocument;
        entityWithCrypto.creditCardToken, entityWithCrypto.value := e.creditCardToken, e.value;
        var dto := FromEntity(entityWithCrypto);
        if dto.Failure? {
          assert entityWithCrypto.Fields() == rows[i];
          assert !Project(Some(provider), rows[i]).Success?;
          assert rows == repository.Records();
          return Failure(dto.error);
        }
        dtos := dtos + [dto.value];
        i := i + 1;
      }
      return Success(dtos);
    }

    /** UpdateAsync: ArgumentNullException on null data, with the repository
        unchanged; null when no row has the id, with nothing written; the provider's
        exception, with nothing written, when an encryption throws. Otherwise
        overwrites that row, once, keeping its id, with the encryption of the new
        strings and the new value, and returns the DTO of the re-encrypted record:
        with a provider keeping its contract, the new plaintext under the id. Other
        rows are untouched. */
    method Update(id: int, data: Option<CryptDataDto>) returns (r: Result<Option<CryptDataDto>>)
      requires repository.Valid()
      modifies repository
      ensures repository.Valid()
      ensures data.None? ==> r == Failure(ArgumentNull) && unchanged(repository)
      ensures data.Some? && id !in old(repository.store) ==> r == Success(None) && unchanged(repository)
      ensures data.Some? && id in old(repository.store) && Sealed(provider, id, data.value).Failure? ==>
        r == Failure(Sealed(provider, id, data.value).error) && unchanged(repository)
      ensures data.Some? && id in old(repository.store) && Sealed(provider, id, data.value).Success? ==>
        var row := Sealed(provider, id, data.value).value;
        && repository.store == old(repository.store)[id := row]
        && repository.order == old(repository.order) && repository.nextId == old(repository.nextId)
        && repository.writes == old(repository.writes) + [Updated(row)]
        && r == Found(Project(Some(provider), row))
      ensures Lawful(provider) && data.Some? && id in old(repository.store) ==>
        r == Success(Some(data.value.(id := id)))
      ensures Lawful(provider) && EncryptedAtRest(provider, old(repository.store)) ==>
        EncryptedAtRest(provider, repository.store)
    {
      if data.None? {
        return Failure(ArgumentNull);
      }
      var d := data.value;
      var entity := repository.GetById(id);
      if entity.None? {
        return Success(None);
      }
      var e := entity.value;
      var entityWithCrypto := new CryptData.WithProvider(provider);
      entityWithCrypto.id, entityWithCrypto.userDocument := e.id, e.userDocument;
      entityWithCrypto.creditCardToken, entityWithCrypto.value := e.creditCardToken, e.value;

      var documentSet := entityWithCrypto.SetUserDocument(d.userDocument);
      if documentSet.Failure? {
        return Failure(documentSet.error);
      }
      var tokenSet := entityWithCrypto.SetCreditCardToken(d.creditCardToken);
      if tokenSet.Failure? {
        return Failure(tokenSet.error);
      }
      entityWithCrypto.value := d.value;

      e.userDocument := entityWithCrypto.userDocument;
      e.creditCardToken := entityWithCrypto.creditCardToken;
      e.value := entityWithCrypto.value;

      repository.Update(e);
      r := Found(FromEntity(entityWithCrypto));
      if Lawful(provider) {
        SealedRoundTrip(provider, id, d);
      }
    }

    /** DeleteAsync: true exactly when a row had the id, and then that row alone is
        removed by one delete; false with nothing written otherwise. */
    method Delete(id: int) returns (deleted: bool)
      requires repository.Valid()
      modifies repository
      ensures repository.Valid()
      ensures deleted <==> id in old(repository.store)
      ensures repository.store == old(repository.store) - {id}
      ensures deleted ==>
        && repository.order == Without(old(repository.order), id)
        && repository.nextId == old(repository.nextId)
        && repository.writes == old(repository.writes) + [Deleted(id)]
      ensures !deleted ==> unchanged(repository)
      ensures EncryptedAtRest(provider, old(repository.store)) ==> EncryptedAtRest(provider, repository.store)
    {
      var entity := repository.GetById(id);
      if entity.None? {
        return false;
      }
      repository.Delete(entity.value);
      return true;
    }
  }

  /** Create, then GetById on the id it returned: the submitted plaintext comes back,
      while the row stored under that id holds its encryption. */
  method CreateThenGetById(service: CryptographyService, data: CryptDataDto)
    returns (created: Result<CryptDataDto>, read: Result<Option<CryptDataDto>>)
    requires service.repository.Valid() && Lawful(service.provider)
    modifies service.repository
    ensures created.Success? && created.value == data.(id := created.value.id)
    ensures read == Success(Some(created.value))
    ensures created.value.id in service.repository.store
    ensures Sealed(service.provider, created.value.id, data) == Success(service.repository.store[created.value.id])
  {
    created := service.Create(Some(data));
    read := service.GetById(created.value.id);
  }

  /** Update of a stored id, then GetById: the new plaintext comes back, and each
      stored ciphertext changes whenever its plaintext does. */
  method UpdateThenGetById(service: CryptographyService, id: int, data: CryptDataDto)
    returns (updated: Result<Option<CryptDataDto>>, read: Result<Option<CryptDataDto>>)
    requires service.repository.Valid() && Lawful(service.provider)
    requires id in service.repository.store
    modifies service.repository
    ensures updated == Success(Some(data.(id := id)))
    ensures read == updated
    ensures id in service.repository.store
    ensures service.provider.decrypt(old(service.repository.store[id].userDocument)) != Success(data.userDocument) ==>
      service.repository.store[id].userDocument != old(service.repository.store[id].userDocument)
    ensures service.provider.decrypt(old(service.repository.store[id].creditCardToken)) != Success(data.creditCardToken) ==>
      service.repository.store[id].creditCardToken != old(service.repository.store[id].creditCardToken)
  {
    ghost var before := service.repository.store[id];
    updated := service.Update(id, Some(data));
    SealedRoundTrip(service.provider, id, data);
    read := service.GetById(id);
    if service.provider.decrypt(before.userDocument) != Success(data.userDocument) {
      NewPlaintextNewCiphertext(service.provider, before.userDocument, data.userDocument);
    }
    if service.provider.decrypt(before.creditCardToken) != Success(data.creditCardToken) {
      NewPlaintextNewCiphertext(service.provider, before.creditCardToken, data.creditCardToken);
    }
  }

  /** With the configured AES provider on a usable key and IV, a sealed row never
      holds either plaintext: each ciphertext is longer than its plaintext. */
  lemma SealedWithAesHidesPlaintext(cfg: Aes.Config, id: int, data: CryptDataDto)
    requires Aes.Usable(cfg)
    ensures Sealed(Aes.AsProvider(cfg), id, data).Success?
    ensures Sealed(Aes.AsProvider(cfg), id, data).value.userDocument != data.userDocument
    ensures Sealed(Aes.AsProvider(cfg), id, data).value.creditCardToken != data.creditCardToken
  {
    Aes.AsProviderIsLawful(cfg);
  }

  /** Create, then GetById, with the configured AES provider, with the corrected
      decryption, on a usable key and IV: the submitted plaintext comes back, and the
      stored row holds neither plaintext. */
  method CreateThenGetByIdWithAes(service: CryptographyService, cfg: Aes.Config, data: CryptDataDto)
    returns (created: Result<CryptDataDto>, read: Result<Option<CryptDataDto>>)
    requires service.repository.Valid() && Aes.Usable(cfg) && service.provider == Aes.AsProvider(cfg)
    modifies service.repository
    ensures created.Success? && created.value == data.(id := created.value.id)
    ensures read == Success(Some(created.value))
    ensures created.value.id in service.repository.store
    ensures service.repository.store[created.value.id].userDocument != data.userDocument
    ensures service.repository.store[created.value.id].creditCardToken != data.creditCardToken
  {
    Aes.AsProviderIsLawful(cfg);
    created, read := CreateThenGetById(service, data);
    SealedWithAesHidesPlaintext(cfg, created.value.id, data);
  }

  /** No leading byte-order mark: the strings the AES provider as written gives back. */
  predicate NoLeadingMark(s: string) {
    |s| == 0 || s[0] != Aes.ByteOrderMark
  }

  /** With the configured AES provider as written on a usable key and IV, a sealed row
      reads back as the plaintext data exactly when neither string starts with a
      byte-order mark. */
  lemma SealedRoundTripAsWritten(cfg: Aes.Config, id: int, data: CryptDataDto)
    requires Aes.Usable(cfg)
    ensures Sealed(Aes.AsProviderAsWritten(cfg), id, data).Success?
    ensures Project(Some(Aes.AsProviderAsWritten(cfg)), Sealed(Aes.AsProviderAsWritten(cfg), id, data).value)
         == Success(data.(id := id))
        <==> NoLeadingMark(data.userDocument) && NoLeadingMark(data.creditCardToken)
  {
    var p := Aes.AsProviderAsWritten(cfg);
    var u, c := Aes.Encrypt(cfg, Some(data.userDocument)), Aes.Encrypt(cfg, Some(data.creditCardToken));
    assert p.encrypt(data.userDocument) == u && p.encrypt(data.creditCardToken) == c;
    Aes.RoundTripAsWritten(cfg, data.userDocument);
    Aes.RoundTripAsWritten(cfg, data.creditCardToken);
    assert p.decrypt(u.value) == Aes.DecryptAsWritten(cfg, Some(u.value));
    assert p.decrypt(c.value) == Aes.DecryptAsWritten(cfg, Some(c.value));
  }

  /** Create, then GetById, with the configured AES provider as written on a usable key
      and IV: the submitted plaintext comes back whenever neither string starts with a
      byte-order mark. */
  method CreateThenGetByIdAsWritten(service: CryptographyService, cfg: Aes.Config, data: CryptDataDto)
    returns (created: Result<CryptDataDto>, read: Result<Option<CryptDataDto>>)
    requires service.repository.Valid() && Aes.Usable(cfg) && service.provider == Aes.AsProviderAsWritten(cfg)
    requires NoLeadingMark(data.userDocument) && NoLeadingMark(data.creditCardToken)
    modifies service.repository
    ensures created.Success? && created.value == data.(id := created.value.id)
    ensures read == Success(Some(created.value))
    ensures created.value.id in service.repository.store
  {
    ghost var id := service.repository.nextId;
    SealedRoundTripAsWritten(cfg, id, data);
    created := service.Create(Some(data));
    read := service.GetById(created.value.id);
  }
}
