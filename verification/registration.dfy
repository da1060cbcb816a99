/** Account creation and e-mail verification: `endsWith`, `canRegister`,
    `createUser`, `createSponsor` and `verifyByToken`. */
module Registration {
  import opened Wrappers
  import opened Text
  import opened UserModel
  import opened Tokens
  import opened RecordStore

  /** The Settings record as the controllers read it. */
  datatype Settings = Settings(
    timeOpen: Time,
    timeClose: Time,
    timeConfirm: Option<Time>,
    whitelist: Option<seq<string>>)

  /** `endsWith(s, test)`: `test.indexOf(s, test.length - s.length) !== -1`. */
  function EndsWith(s: string, test: string): bool {
    IndexOfFrom(test, s, |test| - |s|) != -1
  }

  /** The `indexOf` formulation is exactly the suffix test. */
  lemma EndsWithIsSuffix(s: string, test: string)
    ensures EndsWith(s, test) <==> IsSuffix(s, test)
  {
    var from := |test| - |s|;
    if IsSuffix(s, test) {
      assert OccursAt(test, s, from as nat);
    } else if from >= 0 {
      assert !OccursAt(test, s, from as nat);
      forall j: nat | from <= j ensures !OccursAt(test, s, j) {
        if j > from {
          assert j + |s| > |test|;
        }
      }
    }
  }

  /** Some whitelisted entry ends the address, which must also be valid. */
  function Whitelisted(email: string, list: seq<string>, isEmail: string -> bool): (ok: bool)
    ensures ok <==> isEmail(email) && exists i :: 0 <= i < |list| && IsSuffix(list[i], email)
  {
    if |list| == 0 then false
    else
      EndsWithIsSuffix(list[0], email);
      if isEmail(email) && EndsWith(list[0], email) then true
      else
        var ok := Whitelisted(email, list[1..], isEmail);
        assert ok ==> exists i :: 0 <= i < |list| && IsSuffix(list[i], email) by {
          if ok {
            var i :| 0 <= i < |list| - 1 && IsSuffix(list[1..][i], email);
            assert IsSuffix(list[i + 1], email);
          }
        }
        assert (isEmail(email) && exists i :: 0 <= i < |list| && IsSuffix(list[i], email)) ==> ok by {
          if isEmail(email) && exists i :: 0 <= i < |list| && IsSuffix(list[i], email) {
            var i :| 0 <= i < |list| && IsSuffix(list[i], email);
            assert i != 0;
            assert IsSuffix(list[1..][i - 1], email);
          }
        }
        ok
  }

  predicate PasswordOk(password: Option<string>) {
    password.Some? && |password.value| >= 6
  }

  /** `canRegister`: the password rule first, then the registration window
      `[timeOpen, timeClose]`, then the e-mail whitelist. */
  function CanRegister(email: string, password: Option<string>, now: Time, settings: Settings,
                       isEmail: string -> bool): (r: Result<bool, Error>)
    ensures r.Ok? <==>
      && PasswordOk(password)
      && settings.timeOpen <= now <= settings.timeClose
      && settings.whitelist.Some?
      && Whitelisted(email, settings.whitelist.value, isEmail)
    ensures r.Ok? ==> r.value
    ensures !PasswordOk(password) ==> r == Err(PasswordTooShort)
    ensures PasswordOk(password) && now < settings.timeOpen ==> r == Err(RegistrationNotOpen)
    ensures PasswordOk(password) && now > settings.timeClose && now >= settings.timeOpen ==> r == Err(RegistrationClosed)
  {
    if password.None? || |password.value| < 6 then Err(PasswordTooShort)
    else if now < settings.timeOpen then Err(RegistrationNotOpen)
    else if now > settings.timeClose then Err(RegistrationClosed)
    else if settings.whitelist.None? then Err(NoWhitelist)
    else if Whitelisted(email, settings.whitelist.value, isEmail) then Ok(true)
    else Err(NotWhitelisted)
  }

  /** With an empty whitelist nobody can register. */
  lemma EmptyWhitelistRejects(email: string, password: Option<string>, now: Time, settings: Settings,
                              isEmail: string -> bool)
    requires settings.whitelist == Some([])
    ensures CanRegister(email, password, now, settings, isEmail).Err?
  {
  }

  /** The suffix test has no domain boundary: a whitelisted "utexas.edu"
      also admits "mallory@notutexas.edu". */
  lemma WhitelistHasNoDomainBoundary(isEmail: string -> bool)
    requires isEmail("mallory@notutexas.edu")
    ensures Whitelisted("mallory@notutexas.edu", ["utexas.edu"], isEmail)
  {
    var e := "mallory@notutexas.edu";
    assert e[|e| - 10..] == "utexas.edu";
    assert IsSuffix(["utexas.edu"][0], e);
  }

  /** `createUser`: the lower-cased address must pass `canRegister` and be
      unused; the new record is unverified. */
  function CreateUser(st: Store, email: JsParam, password: Option<string>, now: Time,
                      settings: Settings, isEmail: string -> bool, newId: Id): (r: Result<Done, Error>)
    ensures email.NonString? ==> r == Err(EmailNotString)
    ensures r.Ok? <==>
      && email.Str?
      && CanRegister(ToLower(email.s), password, now, settings, isEmail).Ok?
      && !EmailInUse(st, ToLower(email.s)) && newId !in st
    ensures r.Ok? ==>
      && r.value.user == NewUser(newId, ToLower(email.s), Hashed(password.value), now)
      && r.value.store == st[newId := r.value.user]
    ensures (email.Str? && CanRegister(ToLower(email.s), password, now, settings, isEmail).Ok?
             && EmailInUse(st, ToLower(email.s))) ==> r == Err(EmailTaken)
  {
    match email
    case NonString(_) => Err(EmailNotString)
    case Str(raw) =>
      var lower := ToLower(raw);
      match CanRegister(lower, password, now, settings, isEmail)
      case Err(e) => Err(e)
      case Ok(_) =>
        if EmailInUse(st, lower) then Err(EmailTaken)
        else if newId in st then Err(IdTaken)
        else
          var u := NewUser(newId, lower, Hashed(password.value), now);
          Ok(Done(st[newId := u], u))
  }

  /** Every stored address that came through `createUser` is lower case. */
  lemma CreatedEmailIsLowerCase(st: Store, email: JsParam, password: Option<string>, now: Time,
                                settings: Settings, isEmail: string -> bool, newId: Id)
    requires CreateUser(st, email, password, now, settings, isEmail, newId).Ok?
    ensures var u := CreateUser(st, email, password, now, settings, isEmail, newId).value.user;
            ToLower(u.email) == u.email
  {
    ToLowerIdempotent(email.s);
  }

  /** `createSponsor`: a verified sponsor account with the given password
      (the source draws it at random). No window or whitelist applies; the
      schema still validates the address when saving. */
  function CreateSponsor(st: Store, email: JsParam, password: string, now: Time,
                         isEmail: string -> bool, newId: Id): (r: Result<Done, Error>)
    ensures email.NonString? ==> r == Err(EmailNotString)
    ensures r.Ok? <==>
      email.Str? && isEmail(ToLower(email.s)) && !EmailInUse(st, ToLower(email.s)) && newId !in st
    ensures email.Str? && isEmail(ToLower(email.s)) && EmailInUse(st, ToLower(email.s)) ==> r == Err(EmailTaken)
    ensures r.Ok? ==>
      && r.value.store == st[newId := r.value.user]
      && r.value.user == NewUser(newId, ToLower(email.s), Hashed(password), now).(sponsor := true, verified := true)
  {
    match email
    case NonString(_) => Err(EmailNotString)
    case Str(raw) =>
      var lower := ToLower(raw);
      if !isEmail(lower) then Err(InvalidEmail)
      else if EmailInUse(st, lower) then Err(EmailTaken)
      else if newId in st then Err(IdTaken)
      else
        var u := NewUser(newId, lower, Hashed(password), now).(sponsor := true, verified := true);
        Ok(Done(st[newId := u], u))
  }

  /** A new record keeps the collection well formed. */
  lemma InsertKeepsWellFormed(st: Store, u: User)
    requires WellFormed(st) && u.id !in st && !EmailInUse(st, u.email)
    ensures WellFormed(st[u.id := u])
  {
  }

  /** `verifyByToken`: the record whose address is the token's payload,
      lower-cased, becomes verified; an address no record holds matches
      nothing. A token that fails verification, or
      whose payload is not a string, makes the code call `toLowerCase` on a
      non-string. */
  ghost function VerifyByToken(st: Store, token: Jwt, keys: Keys): (r: Result<Done, Error>)
    ensures r.Ok? ==>
      && token.Signed? && token.secret == keys.jwtSecret && token.payload.Text?
      && (exists k :: k in st && st[k].email == ToLower(token.payload.s)
                      && r.value.user == st[k].(verified := true)
                      && r.value.store == st[k := r.value.user])
    ensures token.Signed? && token.secret == keys.jwtSecret && token.payload.Text? ==>
      && (r.Ok? <==> EmailInUse(st, ToLower(token.payload.s)))
      && (!EmailInUse(st, ToLower(token.payload.s)) ==> r == Err(NoMatch))
    ensures token.Signed? && token.secret == keys.jwtSecret && token.payload.Claims? ==> r == Err(Crash)
    ensures !(token.Signed? && token.secret == keys.jwtSecret) ==> r == Err(Crash)
  {
    match VerifyEmailVerificationToken(token, keys)
    case Err(_) => Err(Crash)
    case Ok(Claims(_, _, _)) => Err(Crash)
    case Ok(Text(e)) =>
      var lower := ToLower(e);
      if !EmailInUse(st, lower) then Err(NoMatch)
      else
        var k :| k in st && st[k].email == lower;
        var r := Patch(st, k, (u: User) => true, (u: User) => u.(verified := true));
        assert r.Ok? && r.value.user == st[k].(verified := true);
        r
  }

  /** The verification e-mail round trip: the token issued to a stored,
      lower-case address verifies exactly that record. */
  lemma VerificationRoundTrip(st: Store, id: Id, keys: Keys)
    requires WellFormed(st) && id in st && ToLower(st[id].email) == st[id].email
    ensures var r := VerifyByToken(st, GenerateEmailVerificationToken(st[id], keys), keys);
            r.Ok? && r.value.user == st[id].(verified := true) && r.value.store == st[id := r.value.user]
  {
  }
}
