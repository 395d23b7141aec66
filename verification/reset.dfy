/**
 * The password-reset workflow: `POST /api/auth/forgot-password` issues a
 * one-hour grant for a registered email, superseding that email's earlier
 * grants, and `POST /api/auth/reset-password` consumes a live grant, rehashing
 * the new password onto the user it names and then deleting the grant.
 *
 * The store holds the user table, keyed by email, and the grant table, keyed
 * by token. The clock, the 32 random bytes and the bcrypt salt are inputs.
 */
module PasswordReset {
  import opened Wrappers
  import opened Validation
  import opened Http
  import Auth
  import Hex

  /** A user row, as far as this workflow reads or writes it. */
  datatype User = User(id: string, passwordHash: string)

  /** A `PasswordResetToken` row, without its key (the token). */
  datatype Grant = Grant(email: string, expiresAt: int)

  datatype Store = Store(users: map<string, User>, grants: map<string, Grant>)

  /** The success body of forgot-password: the message, and the raw token only in development. */
  datatype Ack = Ack(message: string, resetToken: Option<string>)

  /** The reset-password body once validated. */
  datatype ResetInput = ResetInput(token: string, password: string)

  const TokenBytes := 32
  /** One hour in milliseconds: `setHours(getHours() + 1)`. */
  const GrantLifetime := 60 * 60 * 1000
  const Development := "development"

  const AckMessage := "If the email exists, a password reset link has been sent"
  const ValidationError := "Validation error"
  const InvalidOrExpired := "Invalid or expired reset token"
  const ResetDone := "Password reset successfully"

  /* ---------------------------------------------------------- grant store */

  /** The tokens of the grants for `email`. */
  function GrantsFor(grants: map<string, Grant>, email: string): set<string> {
    set t | t in grants && grants[t].email == email
  }

  /** No email has two grants. */
  ghost predicate AtMostOneGrantPerEmail(grants: map<string, Grant>) {
    forall t1, t2 :: t1 in grants && t2 in grants && grants[t1].email == grants[t2].email ==> t1 == t2
  }

  /** `deleteMany({ where: { email } })`: drops every grant for `email` and no other. */
  function Supersede(grants: map<string, Grant>, email: string): (r: map<string, Grant>)
    ensures GrantsFor(r, email) == {}
    ensures forall t :: t in grants && grants[t].email != email ==> t in r && r[t] == grants[t]
    ensures forall t :: t in r ==> t in grants && grants[t].email != email
  {
    map t | t in grants && grants[t].email != email :: grants[t]
  }

  /** A grant is accepted unless its expiry is strictly before `now`. */
  predicate Live(g: Grant, now: int) {
    !(g.expiresAt < now)
  }

  /* ------------------------------------------------------ forgot-password */

  /** `forgotPasswordSchema.parse`: `email: z.string().email('Invalid email address')`. */
  function ParseForgot(isEmail: string -> bool, body: Json): (r: Parse<string>)
    ensures r.Parsed? <==> body.JObj? && StringField(body.fields, "email").Some? && isEmail(StringField(body.fields, "email").value)
    ensures r.Parsed? ==> Field(body.fields, "email") == Some(JStr(r.value))
  {
    match body
    case JObj(fields) =>
      (match StringIssue(Field(fields, "email"), isEmail, "Invalid email address")
       case Some(issue) => Rejected(issue)
       case None => Parsed(Field(fields, "email").value.s))
    case _ => Rejected(InvalidType("object", Some(body)))
  }

  /**
   * forgot-password. `isEmail` is zod's email check, `nodeEnv` is
   * `process.env.NODE_ENV`, `random` is `crypto.randomBytes(32)`.
   */
  function ForgotPassword(isEmail: string -> bool, nodeEnv: string, body: Option<Json>, now: int,
                          random: seq<Hex.byte>, st: Store): (r: Step<Ack, Store>)
    requires |random| == TokenBytes
    // the user table is never written
    ensures r.state.users == st.users
    // a body that does not parse or validate changes nothing
    ensures body.None? ==> r == Step(Failure(500, InternalError), st)
    ensures body.Some? && ParseForgot(isEmail, body.value).Rejected? ==> r == Step(Failure(400, ValidationError), st)
    // the acknowledgement is the same text in every successful case
    ensures r.response.Success? ==> r.response.status == 200 && r.response.body.message == AckMessage
    ensures r.response.Success? && nodeEnv != Development ==> r.response.body.resetToken == None
    // an unregistered email gets the acknowledgement and nothing happens
    ensures body.Some? && ParseForgot(isEmail, body.value).Parsed? && ParseForgot(isEmail, body.value).value !in st.users
            ==> r == Step(Success(200, Ack(AckMessage, None)), st)
    // grants for other emails are untouched in every case
    ensures forall t :: t in st.grants && (body.None? || ParseForgot(isEmail, body.value).Rejected?
                                            || st.grants[t].email != ParseForgot(isEmail, body.value).value)
                        ==> t in r.state.grants && r.state.grants[t] == st.grants[t]
  {
    match body
    case None => Step(Failure(500, InternalError), st)
    case Some(json) =>
      match ParseForgot(isEmail, json)
      case Rejected(_) => Step(Failure(400, ValidationError), st)
      case Parsed(email) =>
        if email !in st.users then Step(Success(200, Ack(AckMessage, None)), st)
        else
          var token := Hex.ToHex(random);
          var expiresAt := now + GrantLifetime;
          var remaining := Supersede(st.grants, email);
          if token in remaining then
            // `create` violates the unique token after `deleteMany` has run
            Step(Failure(500, InternalError), st.(grants := remaining))
          else
            var echo := if nodeEnv == Development then Some(token) else None;
            Step(Success(200, Ack(AckMessage, echo)), st.(grants := remaining[token := Grant(email, expiresAt)]))
  }

  /** The token a successful request for a registered email stores. */
  function IssuedToken(random: seq<Hex.byte>): (token: string)
    requires |random| == TokenBytes
    ensures |token| == 64 && Hex.IsLowerHex(token)
  {
    Hex.ToHex(random)
  }

  /**
   * For any body that parses to a registered email (zod drops unknown keys,
   * so extra fields do not matter) and a token not already in the store, the
   * email afterwards has exactly one grant, the new one, expiring one hour
   * after `now`; the token is echoed exactly when the environment is
   * development.
   */
  lemma {:induction false} ForgotIssuesSingleGrant(isEmail: string -> bool, nodeEnv: string, body: Json, email: string,
                                                   now: int, random: seq<Hex.byte>, st: Store)
    requires |random| == TokenBytes
    requires ParseForgot(isEmail, body) == Parsed(email) && email in st.users
    requires IssuedToken(random) !in st.grants
    ensures var r := ForgotPassword(isEmail, nodeEnv, Some(body), now, random, st);
            var token := IssuedToken(random);
            && r.response.Success?
            && (r.response.body.resetToken.Some? <==> nodeEnv == Development)
            && (r.response.body.resetToken.Some? ==> r.response.body.resetToken.value == token)
            && GrantsFor(r.state.grants, email) == {token}
            && r.state.grants[token] == Grant(email, now + GrantLifetime)
            && r.state.grants.Keys == (st.grants.Keys - GrantsFor(st.grants, email)) + {token}
  {
    var token := IssuedToken(random);
    var remaining := Supersede(st.grants, email);
    var after := remaining[token := Grant(email, now + GrantLifetime)];
    assert after.Keys == (st.grants.Keys - GrantsFor(st.grants, email)) + {token};
    assert GrantsFor(after, email) == {token};
  }

  /** Both branches of forgot-password keep "at most one grant per email". */
  lemma ForgotKeepsOneGrantPerEmail(isEmail: string -> bool, nodeEnv: string, body: Option<Json>, now: int,
                                    random: seq<Hex.byte>, st: Store)
    requires |random| == TokenBytes
    requires AtMostOneGrantPerEmail(st.grants)
    ensures AtMostOneGrantPerEmail(ForgotPassword(isEmail, nodeEnv, body, now, random, st).state.grants)
  {
  }

  /* ------------------------------------------------------- reset-password */

  /**
   * `resetPasswordSchema.parse`: `token: z.string().min(1)`,
   * `password: z.string().min(6)`, lengths in UTF-16 code units.
   */
  function ParseReset(body: Json): (r: Parse<ResetInput>)
    ensures r.Parsed? <==> && body.JObj?
                           && StringField(body.fields, "token").Some? && StringField(body.fields, "token").value != ""
                           && StringField(body.fields, "password").Some?
                           && JsLength(StringField(body.fields, "password").value) >= 6
    ensures r.Parsed? ==> && Field(body.fields, "token") == Some(JStr(r.value.token))
                          && Field(body.fields, "password") == Some(JStr(r.value.password))
  {
    match body
    case JObj(fields) =>
      var token, password := Field(fields, "token"), Field(fields, "password");
      (match (StringIssue(token, MinLength(1), "Token is required"),
              StringIssue(password, MinLength(6), "Password must be at least 6 characters"))
       case (Some(issue), _) => Rejected(issue)
       case (None, Some(issue)) => Rejected(issue)
       case (None, None) => Parsed(ResetInput(token.value.s, password.value.s)))
    case _ => Rejected(InvalidType("object", Some(body)))
  }

  /**
   * reset-password. `salt` is the one `bcrypt.genSalt(10)` draws. The update
   * of the user runs before the grant is deleted: when the user is missing
   * the update throws, the answer is 500 and the grant is still stored.
   */
  function ResetPassword(h: Auth.Hasher, body: Option<Json>, now: int, salt: string, st: Store): (r: Step<string, Store>)
    ensures body.None? ==> r == Step(Failure(500, InternalError), st)
    ensures body.Some? && ParseReset(body.value).Rejected? ==> r == Step(Failure(400, ValidationError), st)
    // a parsed body naming a live grant whose user exists succeeds
    ensures body.Some? && ParseReset(body.value).Parsed?
            && ParseReset(body.value).value.token in st.grants
            && Live(st.grants[ParseReset(body.value).value.token], now)
            && st.grants[ParseReset(body.value).value.token].email in st.users
            ==> r.response.Success?
    // an unknown token and an expired grant get one and the same answer
    ensures body.Some? && ParseReset(body.value).Parsed?
            && (ParseReset(body.value).value.token !in st.grants
                || !Live(st.grants[ParseReset(body.value).value.token], now))
            ==> r == Step(Failure(400, InvalidOrExpired), st)
    // every failure leaves the store as it was
    ensures r.response.Failure? ==> r.state == st
    ensures r.response.Success? ==> r == Step(Success(200, ResetDone), r.state)
    // success consumes exactly the presented, live grant and rewrites exactly its user's digest
    ensures r.response.Success? ==>
              && body.Some? && ParseReset(body.value).Parsed?
              && var input := ParseReset(body.value).value;
                 && input.token in st.grants && Live(st.grants[input.token], now)
                 && var email := st.grants[input.token].email;
                    && email in st.users
                    && r.state.grants == st.grants - {input.token}
                    && r.state.users == st.users[email := st.users[email].(passwordHash := Auth.HashPassword(h, input.password, salt))]
  {
    match body
    case None => Step(Failure(500, InternalError), st)
    case Some(json) =>
      match ParseReset(json)
      case Rejected(_) => Step(Failure(400, ValidationError), st)
      case Parsed(input) =>
        if input.token !in st.grants || st.grants[input.token].expiresAt < now then
          Step(Failure(400, InvalidOrExpired), st)
        else
          var email := st.grants[input.token].email;
          var digest := Auth.HashPassword(h, input.password, salt);
          if email !in st.users then
            // `user.update` finds no row and throws before the grant is deleted
            Step(Failure(500, InternalError), st)
          else
            var users := st.users[email := st.users[email].(passwordHash := digest)];
            Step(Success(200, ResetDone), Store(users, st.grants - {input.token}))
  }

  /**
   * An unknown token and an expired grant give the same 400 and change
   * nothing, whatever else the body holds; a grant whose expiry is exactly
   * `now` is still accepted.
   */
  lemma UnknownAndExpiredAreAlike(h: Auth.Hasher, body: Json, token: string, password: string, now: int, salt: string,
                                  st: Store)
    requires ParseReset(body) == Parsed(ResetInput(token, password))
    ensures var r := ResetPassword(h, Some(body), now, salt, st);
            && (token !in st.grants || st.grants[token].expiresAt < now ==> r == Step(Failure(400, InvalidOrExpired), st))
            && (token in st.grants && st.grants[token].expiresAt == now && st.grants[token].email in st.users
                ==> r.response == Success(200, ResetDone))
  {
  }

  /**
   * After a successful reset, the new password verifies against the user's
   * stored digest, every other user is unchanged, and every other grant is
   * unchanged.
   */
  lemma ResetRewritesOnlyItsUser(h: Auth.Hasher, body: Json, token: string, password: string, now: int, salt: string,
                                 st: Store)
    requires Auth.SoundHasher(h)
    requires ParseReset(body) == Parsed(ResetInput(token, password))
    requires ResetPassword(h, Some(body), now, salt, st).response.Success?
    ensures var r := ResetPassword(h, Some(body), now, salt, st);
            var email := st.grants[token].email;
            && email in r.state.users
            && Auth.ComparePassword(h, password, r.state.users[email].passwordHash)
            && r.state.users[email].id == st.users[email].id
            && r.state.users.Keys == st.users.Keys
            && (forall e :: e in st.users && e != email ==> r.state.users[e] == st.users[e])
            && token !in r.state.grants
            && (forall t :: t in st.grants && t != token ==> t in r.state.grants && r.state.grants[t] == st.grants[t])
  {
  }

  /** The update happens before the delete: a grant whose user is gone survives the failed reset. */
  lemma FailedUpdateKeepsGrant(h: Auth.Hasher, body: Json, token: string, password: string, now: int, salt: string,
                               st: Store)
    requires ParseReset(body) == Parsed(ResetInput(token, password))
    requires token in st.grants && Live(st.grants[token], now) && st.grants[token].email !in st.users
    ensures var r := ResetPassword(h, Some(body), now, salt, st);
            r.response == Failure(500, InternalError) && token in r.state.grants && r.state == st
  {
  }

  /**
   * Single use: a token that reset a password once is rejected on every
   * later attempt, with any body presenting it.
   */
  lemma GrantsAreSingleUse(h: Auth.Hasher, body: Json, token: string, password: string, now: int, salt: string,
                           body2: Json, password2: string, now2: int, salt2: string, st: Store)
    requires ParseReset(body) == Parsed(ResetInput(token, password))
    requires ParseReset(body2) == Parsed(ResetInput(token, password2))
    requires ResetPassword(h, Some(body), now, salt, st).response.Success?
    ensures var st1 := ResetPassword(h, Some(body), now, salt, st).state;
            ResetPassword(h, Some(body2), now2, salt2, st1) == Step(Failure(400, InvalidOrExpired), st1)
  {
  }

  /**
   * Supersession: after a second reset request for the same email, with
   * different random bytes, the first token no longer resets anything.
   */
  lemma {:induction false} SecondRequestSupersedesFirst(isEmail: string -> bool, nodeEnv: string, forgot: Json, email: string,
                                                        now1: int, random1: seq<Hex.byte>, now2: int, random2: seq<Hex.byte>,
                                                        h: Auth.Hasher, reset: Json, password: string, now3: int, salt: string,
                                                        st: Store)
    requires |random1| == TokenBytes && |random2| == TokenBytes && random1 != random2
    requires ParseForgot(isEmail, forgot) == Parsed(email) && email in st.users
    requires IssuedToken(random1) !in st.grants
    requires ParseReset(reset) == Parsed(ResetInput(IssuedToken(random1), password))
    ensures var st1 := ForgotPassword(isEmail, nodeEnv, Some(forgot), now1, random1, st).state;
            var st2 := ForgotPassword(isEmail, nodeEnv, Some(forgot), now2, random2, st1).state;
            ResetPassword(h, Some(reset), now3, salt, st2) == Step(Failure(400, InvalidOrExpired), st2)
  {
    var t1 := IssuedToken(random1);
    ForgotIssuesSingleGrant(isEmail, nodeEnv, forgot, email, now1, random1, st);
    var st1 := ForgotPassword(isEmail, nodeEnv, Some(forgot), now1, random1, st).state;
    assert st1.grants[t1].email == email;
    Hex.ToHexInjective(random1, random2);
    var st2 := ForgotPassword(isEmail, nodeEnv, Some(forgot), now2, random2, st1).state;
    assert t1 !in st2.grants;
  }

  /**
   * Request then consume: the token a request issues, presented within the
   * hour with a valid new password, resets that user's password to one that
   * verifies, and cannot be presented again.
   */
  lemma {:induction false} RequestThenConsume(isEmail: string -> bool, nodeEnv: string, forgot: Json, email: string, now: int,
                                              random: seq<Hex.byte>, h: Auth.Hasher, reset: Json, password: string, later: int,
                                              salt: string, st: Store)
    requires |random| == TokenBytes
    requires ParseForgot(isEmail, forgot) == Parsed(email) && email in st.users
    requires IssuedToken(random) !in st.grants
    requires Auth.SoundHasher(h) && ParseReset(reset) == Parsed(ResetInput(IssuedToken(random), password))
    requires later <= now + GrantLifetime
    ensures var st1 := ForgotPassword(isEmail, nodeEnv, Some(forgot), now, random, st).state;
            var r := ResetPassword(h, Some(reset), later, salt, st1);
            && r.response == Success(200, ResetDone)
            && Auth.ComparePassword(h, password, r.state.users[email].passwordHash)
            && GrantsFor(r.state.grants, email) == {}
  {
    var token := IssuedToken(random);
    ForgotIssuesSingleGrant(isEmail, nodeEnv, forgot, email, now, random, st);
    var st1 := ForgotPassword(isEmail, nodeEnv, Some(forgot), now, random, st).state;
    var r := ResetPassword(h, Some(reset), later, salt, st1);
    assert r.state.grants == st1.grants - {token};
    assert GrantsFor(r.state.grants, email) == {} by {
      forall t | t in r.state.grants
        ensures r.state.grants[t].email != email
      {
        assert t in st1.grants && t != token;
      }
    }
  }
}
