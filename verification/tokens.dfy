/** The signed tokens of the User model. `jsonwebtoken` is kept abstract: a
    token remembers the secret it was signed with and its payload, and
    verification succeeds exactly when it is checked against that secret. */
module Tokens {
  import opened Wrappers
  import opened UserModel

  datatype Secret = Secret(key: string)

  /** The two secrets of the process environment. Auth tokens, e-mail
      verification tokens and temporary auth tokens all use `jwtSecret`. */
  datatype Keys = Keys(jwtSecret: Secret, discordSecret: Secret)

  /** A string payload, or the claims object `{id, iat, exp}` (seconds). */
  datatype Payload = Text(s: string) | Claims(id: string, iat: int, exp: Option<int>)

  /** A token as received from a client: a well-formed signed token, or
      anything else. */
  datatype Jwt = Signed(secret: Secret, payload: Payload) | Malformed(raw: string)

  datatype TokenError = InvalidSignature | MalformedToken | Expired | EmptyPayload

  const TempTokenLifetimeSeconds: int := 60 * 60

  function Sign(payload: Payload, secret: Secret): Jwt {
    Signed(secret, payload)
  }

  /** `jwt.verify(token, secret)` as far as the signature goes. */
  function JwtVerify(token: Jwt, secret: Secret): (r: Result<Payload, TokenError>)
    ensures r.Ok? <==> token.Signed? && token.secret == secret
    ensures r.Ok? ==> r.value == token.payload
  {
    match token
    case Malformed(_) => Err(MalformedToken)
    case Signed(k, p) => if k == secret then Ok(p) else Err(InvalidSignature)
  }

  lemma SignVerifyRoundTrip(payload: Payload, secret: Secret)
    ensures JwtVerify(Sign(payload, secret), secret) == Ok(payload)
  {
  }

  function GenerateEmailVerificationToken(u: User, keys: Keys): Jwt {
    Sign(Text(u.email), keys.jwtSecret)
  }

  function GenerateAuthToken(u: User, keys: Keys): Jwt {
    Sign(Text(u.id), keys.jwtSecret)
  }

  /** The password-reset token, issued at `now` (ms) for 60 minutes; `iat`
      and `exp` are whole seconds. */
  function GenerateTempAuthToken(u: User, keys: Keys, now: Time): Jwt {
    var iat := now / 1000;
    Sign(Claims(u.id, iat, Some(iat + TempTokenLifetimeSeconds)), keys.jwtSecret)
  }

  function GenerateDiscordToken(u: User, keys: Keys): Jwt {
    Sign(Text(u.id), keys.discordSecret)
  }

  /** `verifyEmailVerificationToken`: the payload, whatever its shape. */
  function VerifyEmailVerificationToken(token: Jwt, keys: Keys): (r: Result<Payload, TokenError>)
    ensures r.Ok? <==> token.Signed? && token.secret == keys.jwtSecret
  {
    JwtVerify(token, keys.jwtSecret)
  }

  /** Truthiness of a payload: an empty string is falsy. */
  predicate Truthy(p: Payload) {
    !(p.Text? && p.s == "")
  }

  /** `verifyTempAuthToken`: the user id when the signature verifies and
      the `exp` claim lies in the future. A missing or zero `exp` counts as
      expired. `EmptyPayload` stands for the callback that gets neither an
      error nor an id, which the callers treat as a failure. */
  function VerifyTempAuthToken(token: Jwt, keys: Keys, now: Time): (r: Result<string, TokenError>)
    ensures r.Ok? <==>
      && token.Signed? && token.secret == keys.jwtSecret
      && token.payload.Claims? && token.payload.exp.Some?
      && token.payload.exp.value != 0 && now < token.payload.exp.value * 1000
    ensures r.Ok? ==> r.value == token.payload.id
    ensures r == Err(Expired) <==>
      && token.Signed? && token.secret == keys.jwtSecret && Truthy(token.payload)
      && (token.payload.Text? || token.payload.exp.None? || token.payload.exp.value == 0
          || now >= token.payload.exp.value * 1000)
  {
    match JwtVerify(token, keys.jwtSecret)
    case Err(e) => Err(e)
    case Ok(p) =>
      if !Truthy(p) then Err(EmptyPayload)
      else match p
        case Text(_) => Err(Expired)
        case Claims(id, _, exp) =>
          if exp.None? || exp.value == 0 || now >= exp.value * 1000 then Err(Expired)
          else Ok(id)
  }

  /** `verifyDiscordToken` of the model: the payload under the Discord
      secret, refused when verification fails or the payload is falsy. */
  function VerifyDiscordToken(token: Jwt, keys: Keys): (r: Result<Payload, TokenError>)
    ensures r.Ok? <==> token.Signed? && token.secret == keys.discordSecret && Truthy(token.payload)
    ensures r.Ok? ==> r.value == token.payload
  {
    match JwtVerify(token, keys.discordSecret)
    case Err(e) => Err(e)
    case Ok(p) => if Truthy(p) then Ok(p) else Err(EmptyPayload)
  }

  /** A reset token issued at `issued` is accepted exactly until the end of
      the 60-minute window counted from the whole second it was issued in. */
  lemma TempTokenWindow(u: User, keys: Keys, issued: Time, now: Time)
    requires issued >= 0
    ensures var r := VerifyTempAuthToken(GenerateTempAuthToken(u, keys, issued), keys, now);
            r == (if now < (issued / 1000 + 3600) * 1000 then Ok(u.id) else Err(Expired))
  {
  }

  /** In particular it is accepted during its first 3599 seconds and
      refused from 60 minutes on. */
  lemma TempTokenLifetime(u: User, keys: Keys, issued: Time, now: Time)
    requires issued >= 0
    ensures issued <= now < issued + 3599 * 1000 ==>
      VerifyTempAuthToken(GenerateTempAuthToken(u, keys, issued), keys, now) == Ok(u.id)
    ensures now >= issued + 3600 * 1000 ==>
      VerifyTempAuthToken(GenerateTempAuthToken(u, keys, issued), keys, now) == Err(Expired)
  {
    TempTokenWindow(u, keys, issued, now);
  }

  /** Auth tokens and e-mail verification tokens share one secret, so each
      passes the other's signature check; only the payload differs. */
  lemma SharedSecretInterchangeable(u: User, keys: Keys)
    ensures VerifyEmailVerificationToken(GenerateAuthToken(u, keys), keys) == Ok(Text(u.id))
    ensures JwtVerify(GenerateEmailVerificationToken(u, keys), keys.jwtSecret) == Ok(Text(u.email))
  {
  }

  /** An auth token carries no `exp`, so it is never accepted as a reset
      token. */
  lemma AuthTokenNotAResetToken(u: User, keys: Keys, now: Time)
    requires u.id != ""
    ensures VerifyTempAuthToken(GenerateAuthToken(u, keys), keys, now) == Err(Expired)
  {
  }

  /** The Discord secret separates Discord tokens from the rest, provided
      the two secrets differ. */
  lemma DiscordSecretSeparate(u: User, keys: Keys)
    requires keys.jwtSecret != keys.discordSecret
    ensures VerifyDiscordToken(GenerateAuthToken(u, keys), keys).Err?
    ensures VerifyEmailVerificationToken(GenerateDiscordToken(u, keys), keys).Err?
    ensures VerifyTempAuthToken(GenerateDiscordToken(u, keys), keys, 0).Err?
  {
  }

  lemma DiscordRoundTrip(u: User, keys: Keys)
    requires u.id != ""
    ensures VerifyDiscordToken(GenerateDiscordToken(u, keys), keys) == Ok(Text(u.id))
  {
  }
}
