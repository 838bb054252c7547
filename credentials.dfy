/** Salted password hashing and verification. The key-derivation function
    (PBKDF2 of RFC 8018 section 5.2) and the Base64 encoding (section 4 of
    RFC 4648) are not modelled: they are carried as opaque, total functions
    in a `Crypto` value, about which nothing is assumed (in particular not
    injectivity) except where a lemma says so. */
module Credentials {
  import opened Models

  /** 128 / 8: the salt length in bytes. */
  const SaltLength: nat := 16
  /** The PBKDF2 iteration count. */
  const Iterations: nat := 100000
  /** 256 / 8: the derived key length in bytes. */
  const KeyLength: nat := 32

  /** The pseudo-random function PBKDF2 is run with. */
  datatype Prf = HmacSha256

  /** The two primitives: `pbkdf2(password, salt, prf, iterations, length)`
      and `toBase64(bytes)`. */
  datatype Crypto = Crypto(
    pbkdf2: (string, seq<byte>, Prf, nat, nat) -> seq<byte>,
    toBase64: seq<byte> -> string)

  /** What `GetNonZeroBytes` on a 16-byte buffer produces. */
  predicate ValidSalt(salt: seq<byte>) {
    |salt| == SaltLength && forall i :: 0 <= i < |salt| ==> salt[i] != 0
  }

  /** Base64(PBKDF2-HMAC-SHA256(password, salt, 100000 iterations, 32 bytes)). */
  function HashPassword(c: Crypto, password: string, salt: seq<byte>): string {
    c.toBase64(c.pbkdf2(password, salt, HmacSha256, Iterations, KeyLength))
  }

  /** `VerifyPassword`: rehash the candidate with the user's salt and compare
      it with the stored hash. */
  predicate VerifyPassword(c: Crypto, user: User, password: string) {
    HashPassword(c, password, user.salt) == user.hashedPassword
  }

  /** The record with its hash replaced by the hash of `password` under the
      record's own salt. Nothing else changes, and the record then verifies
      against `password`. */
  function WithPassword(c: Crypto, user: User, password: string): (r: User)
    ensures r.id == user.id && r.username == user.username && r.email == user.email
    ensures r.firstName == user.firstName && r.lastName == user.lastName
    ensures r.salt == user.salt
    ensures VerifyPassword(c, r, password)
  {
    user.(hashedPassword := HashPassword(c, password, user.salt))
  }

  /** Distinct passwords never hash alike under the same salt. The model never
      assumes this; lemmas that need it say so in their `requires`. A KDF with
      a fixed-length output cannot have this property; it is satisfiable here
      only because `pbkdf2`'s output length is left free, so the lemmas that
      assume it state the idealised form of their property. */
  ghost predicate CollisionFree(c: Crypto) {
    forall p, q, s :: HashPassword(c, p, s) == HashPassword(c, q, s) ==> p == q
  }

  /** Round trip: a record whose hash was derived from `p` accepts exactly the
      passwords whose hash under the same salt coincides with that of `p`;
      in particular it accepts `p` itself. */
  lemma VerifyRoundTrip(c: Crypto, user: User, p: string, q: string)
    ensures VerifyPassword(c, WithPassword(c, user, p), p)
    ensures VerifyPassword(c, WithPassword(c, user, p), q) <==>
              HashPassword(c, q, user.salt) == HashPassword(c, p, user.salt)
  {
  }

  /** Without collisions, a record hashed from `p` rejects every other password. */
  lemma WrongPasswordRejected(c: Crypto, user: User, p: string, q: string)
    requires CollisionFree(c)
    requires p != q
    ensures !VerifyPassword(c, WithPassword(c, user, p), q)
  {
  }

  /** Verification reads only the salt and the hash of a record. */
  lemma VerifyReadsSaltAndHash(c: Crypto, u: User, v: User, p: string)
    requires u.salt == v.salt && u.hashedPassword == v.hashedPassword
    ensures VerifyPassword(c, u, p) <==> VerifyPassword(c, v, p)
  {
  }
}
