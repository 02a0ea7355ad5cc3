/**
 * The two cryptographic collaborators of the core, modelled symbolically: a password
 * digest and a token signature are terms that only the right inputs reproduce, so that
 * the properties the core relies on (a hash verifies only its own password, a token
 * decodes only under the key and algorithm that signed it) follow from the terms' shape
 * rather than from arithmetic on bytes.
 */
module Crypto {
  import opened Wrappers

  /** The two settings the token codec reads: `hash_key` and `hash_algorithm`. */
  datatype Settings = Settings(hashKey: string, hashAlgorithm: string)

  // ---------------------------------------------------------------------------
  // Credential hasher (sha256_crypt)
  // ---------------------------------------------------------------------------

  /** The checksum sha256_crypt derives from a salt and a password, as an opaque term. */
  datatype Checksum = Sha256Digest(salt: string, password: string)

  /** A stored password hash: the salt it was made with and its checksum. */
  datatype PasswordHash = Sha256Crypt(salt: string, checksum: Checksum)

  /**
   * `sha256_crypt.hash(password)`, where the random salt the library draws is the
   * parameter `salt`. The hash verifies its own password and no other.
   */
  function HashPassword(salt: string, password: string): (h: PasswordHash)
    ensures VerifyPassword(password, h)
    ensures forall other :: VerifyPassword(other, h) ==> other == password
  {
    Sha256Crypt(salt, Sha256Digest(salt, password))
  }

  /**
   * `sha256_crypt.verify(plain, hashed)`: recompute the checksum under the stored salt and
   * compare. A password verifies exactly when the stored hash is the one it yields under
   * that salt.
   */
  predicate VerifyPassword(plain: string, hashed: PasswordHash)
    ensures VerifyPassword(plain, hashed) <==> hashed == Sha256Crypt(hashed.salt, Sha256Digest(hashed.salt, plain))
  {
    hashed.checksum == Sha256Digest(hashed.salt, plain)
  }

  // ---------------------------------------------------------------------------
  // Token codec (JWT)
  // ---------------------------------------------------------------------------

  /**
   * The claims of a token: `sub` and `scopes`, either of which a token may lack.
   * No `exp` claim: the core neither sets nor checks one.
   */
  datatype Claims = Claims(sub: Option<string>, scopes: Option<seq<string>>)

  /** An HMAC over the claims under an algorithm and a key, as an opaque term. */
  datatype Signature = Hmac(algorithm: string, key: string, signed: Claims)

  /**
   * A bearer token: a header naming the algorithm, the claims and a signature; or a
   * string that does not parse as a token at all.
   */
  datatype Token = Jwt(algorithm: string, claims: Claims, signature: Signature) | Malformed(text: string)

  /**
   * `jwt.encode(claims, hash_key, algorithm=hash_algorithm)`: a well-formed token whose
   * header names the configured algorithm and whose claims are readable as given; its
   * signature is what `Decode` checks.
   */
  function Encode(settings: Settings, claims: Claims): (t: Token)
    ensures t.Jwt? && t.algorithm == settings.hashAlgorithm && t.claims == claims
    ensures t.signature.key == settings.hashKey
  {
    Jwt(settings.hashAlgorithm, claims, Hmac(settings.hashAlgorithm, settings.hashKey, claims))
  }

  /**
   * `jwt.decode(token, hash_key, algorithms=[hash_algorithm])`: `None` stands for the
   * `JWTError` it raises. Whatever decodes was signed under these settings: a token decodes
   * only if it is exactly the encoding of its claims.
   */
  function Decode(settings: Settings, token: Token): (r: Option<Claims>)
    ensures r.Some? ==> token == Encode(settings, r.value)
  {
    match token
    case Malformed(_) => None
    case Jwt(algorithm, claims, signature) =>
      if algorithm == settings.hashAlgorithm && signature == Hmac(settings.hashAlgorithm, settings.hashKey, claims)
      then Some(claims)
      else None
  }

  /** Decoding inverts encoding. */
  lemma DecodeEncode(settings: Settings, claims: Claims)
    ensures Decode(settings, Encode(settings, claims)) == Some(claims)
  {
  }

  /** A token signed under another key or another algorithm does not decode. */
  lemma ForeignTokenRejected(settings: Settings, other: Settings, claims: Claims)
    requires other != settings
    ensures Decode(settings, Encode(other, claims)) == None
  {
  }

  /** A token whose claims were changed after signing does not decode. */
  lemma TamperedTokenRejected(settings: Settings, claims: Claims, forged: Claims)
    requires forged != claims
    ensures Decode(settings, Jwt(settings.hashAlgorithm, forged, Encode(settings, claims).signature)) == None
  {
  }
}
