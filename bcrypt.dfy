/** The password-hashing pair the application takes from the `bcryptjs`
    library, `hash(password, 12)` and `compare(password, digest)`.

    The library's algorithm is not part of this model. It is represented as an
    ideal salted hash: a digest records its cost factor, the salt drawn for
    it and (abstractly) the password it was computed from, so that `Compare`
    accepts exactly the hashed password. The random salt is a parameter. */
module Bcrypt {

  /** The cost factor both call sites pass to `hash`. */
  const Cost: nat := 12

  datatype Digest = Digest(cost: nat, salt: nat, preimage: string)

  /** `hash(password, Cost)` with the salt the library would draw at random. */
  function Hash(password: string, salt: nat): (d: Digest)
    ensures d.cost == Cost && d.salt == salt
  {
    Digest(Cost, salt, password)
  }

  /** `compare(password, digest)`. */
  predicate Compare(password: string, digest: Digest) {
    digest.preimage == password
  }

  /** Verifying a password against its own hash always succeeds. */
  lemma CompareHash(password: string, salt: nat)
    ensures Compare(password, Hash(password, salt))
  {
  }

  /** A different password never verifies against the hash. */
  lemma CompareOtherPassword(password: string, other: string, salt: nat)
    requires other != password
    ensures !Compare(other, Hash(password, salt))
  {
  }

  /** Hashing the same password with two salts gives two different digests. */
  lemma HashIsSalted(password: string, salt1: nat, salt2: nat)
    requires salt1 != salt2
    ensures Hash(password, salt1) != Hash(password, salt2)
  {
  }
}
