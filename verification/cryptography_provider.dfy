/** The cipher interface the entity and the service are written against
    (ICryptographyProvider): encrypt a plaintext string, decrypt a ciphertext string. */
module CryptographyProvider {
  import opened Results

  /** An implementation of the interface, given by its two operations. Both take
      non-null strings; what an implementation does with null is its own affair
      (see AesCryptographyProvider.Encrypt). Either may throw, so each yields a
      Result. Both are functions of their argument alone, so a provider is
      deterministic by construction. */
  datatype Provider = Provider(encrypt: string -> Result<string>, decrypt: string -> Result<string>)

  /** The contract callers rely on: encrypt succeeds on every string, and decrypt
      undoes it. */
  ghost predicate Lawful(p: Provider) {
    forall s :: p.encrypt(s).Success? && p.decrypt(p.encrypt(s).value) == Success(s)
  }

  /** c is a ciphertext of p: it decrypts, and encrypting what it decrypts to gives c back. */
  predicate IsCiphertext(p: Provider, c: string) {
    p.decrypt(c).Success? && p.encrypt(p.decrypt(c).value) == Success(c)
  }

  /** Under the contract encrypt is injective: equal ciphertexts come from equal
      plaintexts, so with a fixed key and IV equal ciphertexts reveal equal plaintexts. */
  lemma EncryptInjective(p: Provider, s: string, t: string)
    requires Lawful(p)
    ensures p.encrypt(s) == p.encrypt(t) <==> s == t
  {
    if p.encrypt(s) == p.encrypt(t) {
      assert Success(s) == p.decrypt(p.encrypt(t).value) == Success(t);
    }
  }
}
