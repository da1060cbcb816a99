/** Event-day operations: check-in and check-out, meal tracking and Discord
    account linking. */
module EventDay {
  import opened Wrappers
  import opened UserModel
  import opened Tokens
  import opened RecordStore

  /** `checkInById`: a verified record is checked in at `now`. */
  function CheckInById(st: Store, id: Id, now: Time): (r: Result<Done, Error>)
    ensures r.Ok? <==> id in st && st[id].verified
    ensures r.Err? ==> r.error == NoMatch
    ensures r.Ok? ==>
      && r.value.store == st[id := r.value.user]
      && r.value.user == st[id].(status := st[id].status.(checkedIn := true, checkInTime := Some(now)))
  {
    Patch(st, id, (u: User) => u.verified,
          (u: User) => u.(status := u.status.(checkedIn := true, checkInTime := Some(now))))
  }

  /** `checkOutById`: clears `checkedIn` of a verified record and keeps the
      check-in time. */
  function CheckOutById(st: Store, id: Id): (r: Result<Done, Error>)
    ensures r.Ok? <==> id in st && st[id].verified
    ensures r.Err? ==> r.error == NoMatch
    ensures r.Ok? ==>
      && r.value.store == st[id := r.value.user]
      && r.value.user == st[id].(status := st[id].status.(checkedIn := false))
  {
    Patch(st, id, (u: User) => u.verified, (u: User) => u.(status := u.status.(checkedIn := false)))
  }

  /** Checking out undoes a check-in except for the recorded time. */
  lemma CheckInThenOut(st: Store, id: Id, now: Time)
    requires id in st && st[id].verified && !st[id].status.checkedIn
    ensures var st1 := CheckInById(st, id, now).value.store;
            var st2 := CheckOutById(st1, id).value.store;
            st2 == st[id := st[id].(status := st[id].status.(checkInTime := Some(now)))]
  {
    var u1 := st[id].(status := st[id].status.(checkedIn := true, checkInTime := Some(now)));
    var st1 := CheckInById(st, id, now).value.store;
    assert st1 == st[id := u1];
    var u2 := u1.(status := u1.status.(checkedIn := false));
    assert CheckOutById(st1, id).value.store == st1[id := u2];
    assert u2 == st[id].(status := st[id].status.(checkInTime := Some(now)));
    assert st1[id := u2] == st[id := u2];
  }

  datatype Meal = Lunch | Dinner

  function Received(u: User, meal: Meal): bool {
    match meal
    case Lunch => u.userAtEvent.receivedLunch
    case Dinner => u.userAtEvent.receivedDinner
  }

  function MarkReceived(u: User, meal: Meal): User {
    match meal
    case Lunch => u.(userAtEvent := u.userAtEvent.(receivedLunch := true))
    case Dinner => u.(userAtEvent := u.userAtEvent.(receivedDinner := true))
  }

  /** `markReceivedLunch` / `markReceivedDinner`: a verified record whose
      meal flag is still false gets it set; a set flag is refused. */
  function MarkMeal(st: Store, id: Id, meal: Meal): (r: Result<Done, Error>)
    ensures r.Ok? <==> id in st && st[id].verified && !Received(st[id], meal)
    ensures id in st && st[id].verified && Received(st[id], meal) ==>
      r == Err(if meal == Lunch then AlreadyReceivedLunch else AlreadyReceivedDinner)
    ensures r.Ok? ==>
      && r.value.store == st[id := r.value.user]
      && Received(r.value.user, meal)
      && Received(r.value.user, if meal == Lunch then Dinner else Lunch)
         == Received(st[id], if meal == Lunch then Dinner else Lunch)
      && r.value.user.(userAtEvent := st[id].userAtEvent) == st[id]
  {
    if id !in st || !st[id].verified then Err(NoMatch)
    else if Received(st[id], meal) then
      Err(if meal == Lunch then AlreadyReceivedLunch else AlreadyReceivedDinner)
    else Patch(st, id, (u: User) => u.verified, (u: User) => MarkReceived(u, meal))
  }

  function MarkReceivedLunch(st: Store, id: Id): (r: Result<Done, Error>)
    ensures r.Ok? <==> id in st && st[id].verified && !st[id].userAtEvent.receivedLunch
  {
    MarkMeal(st, id, Lunch)
  }

  function MarkReceivedDinner(st: Store, id: Id): (r: Result<Done, Error>)
    ensures r.Ok? <==> id in st && st[id].verified && !st[id].userAtEvent.receivedDinner
  {
    MarkMeal(st, id, Dinner)
  }

  /** A meal is handed out at most once: after a success the same request
      is refused and the flag stays set. */
  lemma MealAtMostOnce(st: Store, id: Id, meal: Meal)
    requires MarkMeal(st, id, meal).Ok?
    ensures var st' := MarkMeal(st, id, meal).value.store;
            && MarkMeal(st', id, meal) == Err(if meal == Lunch then AlreadyReceivedLunch else AlreadyReceivedDinner)
            && Received(st'[id], meal) && !Received(st[id], meal)
  {
  }

  /** Parameters are missing when falsy; an empty token string is falsy
      too. */
  predicate DiscordParamsMissing(token: Option<Jwt>, discordID: Option<string>) {
    token.None? || token.value == Malformed("") || discordID.None? || discordID.value == ""
  }

  /** The account a Discord request names: its parameters are present and
      its token verifies under the Discord secret with a string payload. */
  function DiscordTarget(token: Option<Jwt>, discordID: Option<string>, keys: Keys): Option<Id> {
    if DiscordParamsMissing(token, discordID) then None
    else match VerifyDiscordToken(token.value, keys)
      case Ok(Text(id)) => Some(id)
      case _ => None
  }

  /** The update that links a Discord account also checks the user in. */
  function LinkDiscord(u: User, discordID: string, now: Time): User {
    u.(status := u.status.(checkedIn := true, checkInTime := Some(now)),
       discord := Discord(true, Some(discordID)))
  }

  /** `verifyDiscordToken` as written: the lookup already demands
      `verified: true`, so for an unverified (or unknown) account the code
      reads `verified` of `null`, and its "not verified" reply is dead. */
  function VerifyDiscordTokenAsWritten(st: Store, token: Option<Jwt>, discordID: Option<string>,
                                       keys: Keys, now: Time): (r: Result<Done, Error>)
    ensures DiscordParamsMissing(token, discordID) ==> r == Err(MissingDiscordParameters)
    ensures var t := DiscordTarget(token, discordID, keys);
            t.Some? && !(t.value in st && st[t.value].verified) ==> r == Err(Crash)
    ensures var t := DiscordTarget(token, discordID, keys);
            t.Some? && t.value in st && st[t.value].verified && st[t.value].discord.verified
            ==> r == Err(DiscordAlreadyLinked)
    ensures r.Ok? <==> var t := DiscordTarget(token, discordID, keys);
                       t.Some? && t.value in st && st[t.value].verified && !st[t.value].discord.verified
    ensures r != Err(AccountNotVerified)
  {
    if DiscordParamsMissing(token, discordID) then Err(MissingDiscordParameters)
    else match VerifyDiscordToken(token.value, keys)
      case Err(_) => Err(DiscordTokenInvalid)
      case Ok(Claims(_, _, _)) => Err(Crash)
      case Ok(Text(id)) =>
        if id !in st || !st[id].verified then Err(Crash)
        else if st[id].discord.verified then Err(DiscordAlreadyLinked)
        else Patch(st, id, (u: User) => u.verified && !u.discord.verified,
                   (u: User) => LinkDiscord(u, discordID.value, now))
  }

  /** `verifyDiscordToken` as evidently intended: an unverified account is
      told so. The rest of the model uses this version. */
  function VerifyDiscordTokenById(st: Store, token: Option<Jwt>, discordID: Option<string>,
                                  keys: Keys, now: Time): (r: Result<Done, Error>)
    ensures DiscordParamsMissing(token, discordID) ==> r == Err(MissingDiscordParameters)
    ensures var t := DiscordTarget(token, discordID, keys);
            r.Ok? <==> t.Some? && t.value in st && st[t.value].verified && !st[t.value].discord.verified
    ensures r.Ok? ==>
      && var id := DiscordTarget(token, discordID, keys).value;
         && r.value.user == LinkDiscord(st[id], discordID.value, now)
         && r.value.store == st[id := r.value.user]
    ensures var t := DiscordTarget(token, discordID, keys);
            t.Some? && t.value in st && !st[t.value].verified ==> r == Err(AccountNotVerified)
    ensures var t := DiscordTarget(token, discordID, keys);
            t.Some? && t.value in st && st[t.value].verified && st[t.value].discord.verified
            ==> r == Err(DiscordAlreadyLinked)
  {
    if DiscordParamsMissing(token, discordID) then Err(MissingDiscordParameters)
    else match VerifyDiscordToken(token.value, keys)
      case Err(_) => Err(DiscordTokenInvalid)
      case Ok(Claims(_, _, _)) => Err(Crash)
      case Ok(Text(id)) =>
        if id !in st then Err(NoMatch)
        else if !st[id].verified then Err(AccountNotVerified)
        else if st[id].discord.verified then Err(DiscordAlreadyLinked)
        else Patch(st, id, (u: User) => u.verified && !u.discord.verified,
                   (u: User) => LinkDiscord(u, discordID.value, now))
  }

  /** The input that shows the difference: a Discord token issued to an
      account that has not verified its e-mail. */
  lemma UnverifiedDiscordLink(st: Store, u: User, keys: Keys, now: Time)
    requires u.id != "" && u.id in st && st[u.id] == u && !u.verified
    ensures VerifyDiscordTokenAsWritten(st, Some(GenerateDiscordToken(u, keys)), Some("1234"), keys, now) == Err(Crash)
    ensures VerifyDiscordTokenById(st, Some(GenerateDiscordToken(u, keys)), Some("1234"), keys, now) == Err(AccountNotVerified)
  {
  }

  /** The two versions agree on every other input. */
  lemma DiscordVersionsAgreeOnVerified(st: Store, token: Option<Jwt>, discordID: Option<string>, keys: Keys, now: Time)
    requires var t := DiscordTarget(token, discordID, keys);
             t.Some? ==> t.value in st && st[t.value].verified
    ensures VerifyDiscordTokenAsWritten(st, token, discordID, keys, now)
         == VerifyDiscordTokenById(st, token, discordID, keys, now)
  {
  }

  /** A linked account cannot be linked again. */
  lemma DiscordLinkOnce(st: Store, token: Jwt, discordID: string, other: string, keys: Keys, now: Time, later: Time)
    requires VerifyDiscordTokenById(st, Some(token), Some(discordID), keys, now).Ok?
    ensures var st' := VerifyDiscordTokenById(st, Some(token), Some(discordID), keys, now).value.store;
            other != "" ==>
            VerifyDiscordTokenById(st', Some(token), Some(other), keys, later) == Err(DiscordAlreadyLinked)
  {
  }

  /** `setDiscordDefault`: clears `discord.verified` (the stored Discord id
      is kept) on any record, verified or not. */
  function SetDiscordDefault(st: Store, id: Id): (r: Result<Done, Error>)
    ensures r.Ok? <==> id in st
    ensures r.Ok? ==>
      && r.value.store == st[id := r.value.user]
      && r.value.user == st[id].(discord := st[id].discord.(verified := false))
  {
    Patch(st, id, (u: User) => true, (u: User) => u.(discord := u.discord.(verified := false)))
  }

  /** After a reset the account can be linked again. */
  lemma RelinkAfterReset(st: Store, u: User, discordID: string, keys: Keys, now: Time)
    requires u.id != "" && u.id in st && st[u.id] == u && u.verified && discordID != ""
    ensures var st' := SetDiscordDefault(st, u.id).value.store;
            VerifyDiscordTokenById(st', Some(GenerateDiscordToken(u, keys)), Some(discordID), keys, now).Ok?
  {
  }
}
