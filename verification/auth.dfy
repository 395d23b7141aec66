/**
 * The authentication utilities: password hashing (bcrypt), session tokens
 * (JWT signed with the process secret, valid for seven days) and the
 * resolution of a request's `Authorization` header to a user id.
 *
 * bcrypt and jsonwebtoken are foreign libraries. Each is a datatype of
 * functions here, and the one property the application relies on is a ghost
 * predicate that the lemmas take as a hypothesis.
 */
module Auth {
  import opened Wrappers

  /* ---------------------------------------------------------------- hashing */

  /**
   * bcrypt: `hash(password, salt)` is the digest for a salt from
   * `genSalt(10)`, `compare(password, digest)` is `bcrypt.compare`.
   */
  datatype Hasher = Hasher(hash: (string, string) -> string, compare: (string, string) -> bool)

  /** What bcrypt guarantees: a password matches its own digest, whatever the salt. */
  ghost predicate SoundHasher(h: Hasher) {
    forall password, salt :: h.compare(password, h.hash(password, salt))
  }

  /** `hashPassword`: the salt, drawn at random by bcrypt, is an input. */
  function HashPassword(h: Hasher, password: string, salt: string): (digest: string)
    ensures SoundHasher(h) ==> h.compare(password, digest)
  {
    h.hash(password, salt)
  }

  /** `comparePassword`: a digest bcrypt made from the password, with any salt, is accepted. */
  function ComparePassword(h: Hasher, password: string, digest: string): (ok: bool)
    ensures SoundHasher(h) && (exists salt :: digest == h.hash(password, salt)) ==> ok
  {
    h.compare(password, digest)
  }

  /* ---------------------------------------------------------- session tokens */

  /** The JWT payload `{ userId }` with the `iat` and `exp` claims jsonwebtoken adds, in seconds. */
  datatype Claims = Claims(userId: string, iat: int, exp: int)

  /**
   * jsonwebtoken keyed by the secret: `sign` encodes and signs a payload,
   * `decode` checks a token's structure and signature and returns its payload,
   * None for a missing, malformed or forged token. The expiry check is not
   * part of `decode`; VerifyToken adds it as `jwt.verify` does.
   */
  datatype Codec = Codec(sign: Claims -> string, decode: string -> Option<Claims>)

  /**
   * What jsonwebtoken guarantees: a signed payload decodes to itself, and the
   * empty string is rejected ("jwt must be provided").
   */
  ghost predicate SoundCodec(c: Codec) {
    && c.decode("") == None
    && forall claims :: c.decode(c.sign(claims)) == Some(claims)
  }

  /** HMAC signatures cannot be forged: only a signed token decodes. */
  ghost predicate UnforgeableCodec(c: Codec) {
    forall token :: c.decode(token).Some? ==> c.sign(c.decode(token).value) == token
  }

  /** `expiresIn: '7d'`, in seconds. */
  const SessionLifetime := 7 * 24 * 60 * 60

  /** jsonwebtoken's clock: `Math.floor(Date.now() / 1000)` for a time in milliseconds. */
  function Seconds(nowMs: int): int {
    nowMs / 1000
  }

  /** `generateToken`: a token for `userId` issued at `nowMs`. */
  function GenerateToken(c: Codec, userId: string, nowMs: int): (token: string)
    ensures SoundCodec(c) ==> c.decode(token) == Some(Claims(userId, Seconds(nowMs), Seconds(nowMs) + SessionLifetime))
  {
    c.sign(Claims(userId, Seconds(nowMs), Seconds(nowMs) + SessionLifetime))
  }

  /**
   * `verifyToken`: the payload of a well-signed token whose `exp` is still in
   * the future. Every failure, whatever its cause, is the one value None.
   */
  function VerifyToken(c: Codec, token: string, nowMs: int): (r: Option<Claims>)
    ensures r.Some? ==> c.decode(token) == r && Seconds(nowMs) < r.value.exp
    ensures r.None? <==> c.decode(token).None? || c.decode(token).value.exp <= Seconds(nowMs)
  {
    match c.decode(token)
    case None => None
    case Some(claims) => if Seconds(nowMs) >= claims.exp then None else Some(claims)
  }

  /** A token is no longer accepted in the very second its `exp` names. */
  lemma ExpiryBoundary(c: Codec, token: string, nowMs: int)
    requires c.decode(token).Some? && c.decode(token).value.exp == Seconds(nowMs)
    ensures VerifyToken(c, token, nowMs) == None
  {
  }

  /* ---------------------------------------------------- request identity */

  const BearerPrefix := "Bearer "

  predicate StartsWith(s: string, prefix: string) {
    |prefix| <= |s| && s[..|prefix|] == prefix
  }

  /**
   * `getUserFromRequest`: the user id of the verified bearer token, or None
   * when the header is absent, lacks the exact prefix "Bearer ", the token
   * fails verification, or its `userId` is empty (`|| null`).
   */
  function GetUserFromRequest(c: Codec, authorization: Option<string>, nowMs: int): (r: Option<string>)
    ensures authorization.None? ==> r.None?
    ensures authorization.Some? && !StartsWith(authorization.value, BearerPrefix) ==> r.None?
    ensures r.Some? ==> r.value != ""
    ensures r.Some? ==> VerifyToken(c, authorization.value[|BearerPrefix|..], nowMs).Some?
    ensures r.Some? ==> VerifyToken(c, authorization.value[|BearerPrefix|..], nowMs).value.userId == r.value
  {
    if authorization.None? || !StartsWith(authorization.value, BearerPrefix) then None
    else
      match VerifyToken(c, authorization.value[7..], nowMs)
      case None => None
      case Some(claims) => if claims.userId == "" then None else Some(claims.userId)
  }

  /**
   * The token verified is the header minus exactly its seven-character
   * prefix: a prefixed header resolves to the user of its token, exactly when
   * that token verifies with a non-empty `userId`.
   */
  lemma {:induction false} BearerRoundTrip(c: Codec, token: string, nowMs: int)
    ensures var r := GetUserFromRequest(c, Some(BearerPrefix + token), nowMs);
            var v := VerifyToken(c, token, nowMs);
            && (r.Some? <==> v.Some? && v.value.userId != "")
            && (r.Some? ==> r.value == v.value.userId)
  {
    var h := BearerPrefix + token;
    assert StartsWith(h, BearerPrefix) by { assert h[..7] == BearerPrefix; }
    assert h[7..] == token;
  }

  /** "Bearer " alone carries the empty token, which a sound codec rejects. */
  lemma PrefixAloneIsRejected(c: Codec, nowMs: int)
    requires SoundCodec(c)
    ensures GetUserFromRequest(c, Some(BearerPrefix), nowMs) == None
  {
    BearerRoundTrip(c, "", nowMs);
    assert BearerPrefix + "" == BearerPrefix;
  }

  /** The instant (in ms) from which a token issued at `issuedMs` is rejected. */
  function SessionEnd(issuedMs: int): int {
    (Seconds(issuedMs) + SessionLifetime) * 1000
  }

  /**
   * A token from `generateToken(u)` at `issuedMs`, presented as a bearer
   * header at `nowMs`, resolves to `u` exactly before SessionEnd(issuedMs),
   * and to nothing afterwards. An empty `u` never resolves.
   */
  lemma {:induction false} IssuedTokenResolves(c: Codec, u: string, issuedMs: int, nowMs: int)
    requires SoundCodec(c)
    ensures var r := GetUserFromRequest(c, Some(BearerPrefix + GenerateToken(c, u, issuedMs)), nowMs);
            r == if u != "" && nowMs < SessionEnd(issuedMs) then Some(u) else None
  {
    var token := GenerateToken(c, u, issuedMs);
    BearerRoundTrip(c, token, nowMs);
    var k := Seconds(issuedMs) + SessionLifetime;
    assert nowMs < k * 1000 <==> nowMs / 1000 < k;
  }

  /**
   * With an unforgeable codec, a header that resolves to `u` carries a token
   * the application itself signed for `u`, and that token has not expired.
   */
  lemma ResolvedTokensAreIssued(c: Codec, authorization: Option<string>, nowMs: int)
    requires UnforgeableCodec(c)
    requires GetUserFromRequest(c, authorization, nowMs).Some?
    ensures var u := GetUserFromRequest(c, authorization, nowMs).value;
            exists claims :: && authorization == Some(BearerPrefix + c.sign(claims))
                             && claims.userId == u && Seconds(nowMs) < claims.exp
  {
    var h := authorization.value;
    var token := h[7..];
    var claims := c.decode(token).value;
    assert c.sign(claims) == token;
    assert h == BearerPrefix + token;
  }
}
