/**
 * bcrypt, idealised. The digest is an injective function of the password and the salt;
 * the services only ever compare through `Matches`, as `bcrypt.compare` does, and never read
 * a password back out of a digest.
 */
module Bcrypt {

  /** A salt: the one `bcrypt.hash(pw, 10)` or `bcrypt.genSalt()` draws at random. */
  type Salt = string

  datatype Digest = Digest(salt: Salt, key: string)

  function Hash(password: string, salt: Salt): Digest {
    Digest(salt, password)
  }

  /** `bcrypt.compare(password, digest)`: re-hash with the digest's own salt and compare. */
  predicate Matches(password: string, d: Digest) {
    Hash(password, d.salt) == d
  }

  /** A digest matches the password it was made from, and no other. */
  lemma MatchesExactly(candidate: string, password: string, salt: Salt)
    ensures Matches(candidate, Hash(password, salt)) <==> candidate == password
  {
  }
}
