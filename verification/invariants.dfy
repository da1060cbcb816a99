/** The properties that hold of the collection across every operation the
    controllers expose: a confirmed record is admitted and not declined, a
    decline is never undone, "incomplete" is never written as a sponsor
    status, and no team outgrows the size limit. */
module Invariants {
  import opened Wrappers
  import opened Text
  import opened UserModel
  import opened Tokens
  import opened RecordStore
  import opened Registration
  import opened Admission
  import opened EventDay
  import opened Teams
  import opened Sponsors

  /** One request to the user controller. Both the corrected and the
      as-written versions of `verifyDiscordToken` and `grantResumeAccess`
      are requests here, so the invariants cover each of them. */
  datatype Op =
    | CreateUserOp(email: JsParam, password: Option<string>, newId: Id)
    | CreateSponsorOp(email: JsParam, sponsorPassword: string, newId: Id)
    | VerifyOp(token: Jwt)
    | UpdateProfileOp(id: Id, profile: Profile)
    | AdmitOp(id: Id, adminEmail: string)
    | ConfirmOp(id: Id, confirmation: Confirmation)
    | DeclineOp(id: Id)
    | ReminderOp(id: Id)
    | CheckInOp(id: Id)
    | CheckOutOp(id: Id)
    | MealOp(id: Id, meal: Meal)
    | DiscordOp(discordToken: Option<Jwt>, discordID: Option<string>)
    | DiscordAsWrittenOp(discordToken: Option<Jwt>, discordID: Option<string>)
    | DiscordResetOp(id: Id)
    | JoinTeamOp(id: Id, code: JsParam)
    | LeaveTeamOp(id: Id)
    | UpdateSponsorOp(id: Id, details: SponsorDetails, opening: Option<int>, closing: Option<int>)
    | GrantAccessOp(id: Id)
    | GrantAccessAsWrittenOp(id: Id)
    | RemoveAccessOp(id: Id)

  /** What a request sees besides the collection: the settings, the clock,
      the signing secrets, the address validator and the team size limit. */
  datatype Env = Env(settings: Settings, now: Time, keys: Keys, isEmail: string -> bool, maxTeamSize: nat)

  ghost function Apply(st: Store, env: Env, op: Op): Result<Done, Error> {
    match op
    case CreateUserOp(email, password, newId) =>
      CreateUser(st, email, password, env.now, env.settings, env.isEmail, newId)
    case CreateSponsorOp(email, password, newId) =>
      CreateSponsor(st, email, password, env.now, env.isEmail, newId)
    case VerifyOp(token) => VerifyByToken(st, token, env.keys)
    case UpdateProfileOp(id, profile) => UpdateProfileById(st, id, profile, env.now)
    case AdmitOp(id, adminEmail) => AdmitUser(st, id, adminEmail, env.settings.timeConfirm)
    case ConfirmOp(id, confirmation) => UpdateConfirmationById(st, id, confirmation, env.now)
    case DeclineOp(id) => DeclineById(st, id, env.now)
    case ReminderOp(id) => SendConfirmationReminder(st, id, env.settings.timeConfirm)
    case CheckInOp(id) => CheckInById(st, id, env.now)
    case CheckOutOp(id) => CheckOutById(st, id)
    case MealOp(id, meal) => MarkMeal(st, id, meal)
    case DiscordOp(token, discordID) => VerifyDiscordTokenById(st, token, discordID, env.keys, env.now)
    case DiscordAsWrittenOp(token, discordID) => VerifyDiscordTokenAsWritten(st, token, discordID, env.keys, env.now)
    case DiscordResetOp(id) => SetDiscordDefault(st, id)
    case JoinTeamOp(id, code) => CreateOrJoinTeam(st, id, code, env.maxTeamSize)
    case LeaveTeamOp(id) => LeaveTeam(st, id)
    case UpdateSponsorOp(id, details, opening, closing) => UpdateSponsorById(st, id, details, opening, closing)
    case GrantAccessOp(id) => GrantResumeAccessById(st, id)
    case GrantAccessAsWrittenOp(id) => GrantResumeAccessAsWritten(st, id)
    case RemoveAccessOp(id) => RemoveResumeAccessById(st, id)
  }

  /** The collection invariant. */
  ghost predicate Inv(st: Store, maxTeamSize: nat) {
    && WellFormed(st)
    && (forall k :: k in st ==> RecordOk(st[k]))
    && TeamsWithin(st, maxTeamSize)
  }

  /** Replacing a record by one with the same id, e-mail and team that is
      itself consistent keeps the invariant. */
  lemma ReplaceKeepsInv(st: Store, maxTeamSize: nat, id: Id, u: User)
    requires Inv(st, maxTeamSize) && id in st
    requires u.id == st[id].id && u.email == st[id].email && u.teamCode == st[id].teamCode
    requires RecordOk(u)
    ensures Inv(st[id := u], maxTeamSize)
  {
    var st' := st[id := u];
    UpdateKeepsWellFormed(st, id, u);
    SameTeamSameCounts(st, id, u);
    assert forall k :: k in st' ==> RecordOk(st'[k]);
    assert TeamsWithin(st', maxTeamSize) by {
      forall c ensures Count(st', c) <= maxTeamSize {
        assert Count(st', c) == Count(st, c);
      }
    }
  }

  /** Adding a fresh, consistent record on no team keeps the invariant. */
  lemma InsertKeepsInv(st: Store, maxTeamSize: nat, u: User)
    requires Inv(st, maxTeamSize) && u.id !in st && !EmailInUse(st, u.email)
    requires u.teamCode.None? && RecordOk(u)
    ensures Inv(st[u.id := u], maxTeamSize)
  {
    var st' := st[u.id := u];
    InsertKeepsWellFormed(st, u);
    NewRecordSameCounts(st, u.id, u);
    assert forall k :: k in st' ==> RecordOk(st'[k]);
    assert TeamsWithin(st', maxTeamSize) by {
      forall c ensures Count(st', c) <= maxTeamSize {
        assert Count(st', c) == Count(st, c);
      }
    }
  }

  lemma AccountOpsKeepInv(st: Store, env: Env, op: Op)
    requires Inv(st, env.maxTeamSize)
    ensures op.CreateUserOp? || op.CreateSponsorOp? || op.VerifyOp? ==> Inv(After(st, Apply(st, env, op)), env.maxTeamSize)
  {
    var r := Apply(st, env, op);
    if r.Ok? {
      match op
      case CreateUserOp(email, _, newId) =>
        InsertKeepsInv(st, env.maxTeamSize, r.value.user);
      case CreateSponsorOp(email, _, newId) =>
        InsertKeepsInv(st, env.maxTeamSize, r.value.user);
      case VerifyOp(token) =>
        var k :| k in st && st[k].email == ToLower(token.payload.s)
                 && r.value.user == st[k].(verified := true) && r.value.store == st[k := r.value.user];
        ReplaceKeepsInv(st, env.maxTeamSize, k, r.value.user);
      case _ =>
    }
  }

  lemma AdmissionOpsKeepInv(st: Store, env: Env, op: Op)
    requires Inv(st, env.maxTeamSize)
    ensures op.UpdateProfileOp? || op.AdmitOp? || op.ConfirmOp? || op.DeclineOp? || op.ReminderOp? ==> Inv(After(st, Apply(st, env, op)), env.maxTeamSize)
  {
    var r := Apply(st, env, op);
    if r.Ok? && (op.UpdateProfileOp? || op.AdmitOp? || op.ConfirmOp? || op.DeclineOp? || op.ReminderOp?) {
      ReplaceKeepsInv(st, env.maxTeamSize, op.id, r.value.user);
    }
  }

  lemma EventOpsKeepInv(st: Store, env: Env, op: Op)
    requires Inv(st, env.maxTeamSize)
    ensures op.CheckInOp? || op.CheckOutOp? || op.MealOp? || op.DiscordOp? || op.DiscordAsWrittenOp? || op.DiscordResetOp? ==> Inv(After(st, Apply(st, env, op)), env.maxTeamSize)
  {
    var r := Apply(st, env, op);
    if r.Ok? {
      match op
      case CheckInOp(id) => ReplaceKeepsInv(st, env.maxTeamSize, id, r.value.user);
      case CheckOutOp(id) => ReplaceKeepsInv(st, env.maxTeamSize, id, r.value.user);
      case MealOp(id, _) => ReplaceKeepsInv(st, env.maxTeamSize, id, r.value.user);
      case DiscordResetOp(id) => ReplaceKeepsInv(st, env.maxTeamSize, id, r.value.user);
      case DiscordOp(token, discordID) =>
        var id := DiscordTarget(token, discordID, env.keys).value;
        ReplaceKeepsInv(st, env.maxTeamSize, id, r.value.user);
      case DiscordAsWrittenOp(token, discordID) =>
        var id := DiscordTarget(token, discordID, env.keys).value;
        ReplaceKeepsInv(st, env.maxTeamSize, id, r.value.user);
      case _ =>
    }
  }

  lemma TeamOpsKeepInv(st: Store, env: Env, op: Op)
    requires Inv(st, env.maxTeamSize)
    ensures op.JoinTeamOp? || op.LeaveTeamOp? ==> Inv(After(st, Apply(st, env, op)), env.maxTeamSize)
  {
    var r := Apply(st, env, op);
    if r.Ok? && (op.JoinTeamOp? || op.LeaveTeamOp?) {
      UpdateKeepsWellFormed(st, op.id, r.value.user);
      if op.JoinTeamOp? {
        JoinKeepsTeamsWithin(st, op.id, op.code, env.maxTeamSize);
      }
    }
  }

  lemma SponsorOpsKeepInv(st: Store, env: Env, op: Op)
    requires Inv(st, env.maxTeamSize)
    ensures op.UpdateSponsorOp? || op.GrantAccessOp? || op.GrantAccessAsWrittenOp? || op.RemoveAccessOp? ==> Inv(After(st, Apply(st, env, op)), env.maxTeamSize)
  {
    var r := Apply(st, env, op);
    if r.Ok? && (op.UpdateSponsorOp? || op.GrantAccessOp? || op.GrantAccessAsWrittenOp? || op.RemoveAccessOp?) {
      ReplaceKeepsInv(st, env.maxTeamSize, op.id, r.value.user);
    }
  }

  /** Every operation keeps the invariant. */
  lemma ApplyKeepsInv(st: Store, env: Env, op: Op)
    requires Inv(st, env.maxTeamSize)
    ensures Inv(After(st, Apply(st, env, op)), env.maxTeamSize)
  {
    match op
    case CreateUserOp(_, _, _) => AccountOpsKeepInv(st, env, op);
    case CreateSponsorOp(_, _, _) => AccountOpsKeepInv(st, env, op);
    case VerifyOp(_) => AccountOpsKeepInv(st, env, op);
    case UpdateProfileOp(_, _) => AdmissionOpsKeepInv(st, env, op);
    case AdmitOp(_, _) => AdmissionOpsKeepInv(st, env, op);
    case ConfirmOp(_, _) => AdmissionOpsKeepInv(st, env, op);
    case DeclineOp(_) => AdmissionOpsKeepInv(st, env, op);
    case ReminderOp(_) => AdmissionOpsKeepInv(st, env, op);
    case CheckInOp(_) => EventOpsKeepInv(st, env, op);
    case CheckOutOp(_) => EventOpsKeepInv(st, env, op);
    case MealOp(_, _) => EventOpsKeepInv(st, env, op);
    case DiscordOp(_, _) => EventOpsKeepInv(st, env, op);
    case DiscordAsWrittenOp(_, _) => EventOpsKeepInv(st, env, op);
    case DiscordResetOp(_) => EventOpsKeepInv(st, env, op);
    case JoinTeamOp(_, _) => TeamOpsKeepInv(st, env, op);
    case LeaveTeamOp(_) => TeamOpsKeepInv(st, env, op);
    case UpdateSponsorOp(_, _, _, _) => SponsorOpsKeepInv(st, env, op);
    case GrantAccessOp(_) => SponsorOpsKeepInv(st, env, op);
    case GrantAccessAsWrittenOp(_) => SponsorOpsKeepInv(st, env, op);
    case RemoveAccessOp(_) => SponsorOpsKeepInv(st, env, op);
  }

  /** How one record may change: it keeps its id and e-mail, a decline
      stays, and "incomplete" only stays where it already was. */
  predicate Evolves(before: User, after: User) {
    && after.id == before.id
    && after.email == before.email
    && (before.status.declined ==> after.status.declined)
    && (after.sponsorFields.sponsorStatus == Some(Incomplete) ==> before.sponsorFields.sponsorStatus == Some(Incomplete))
  }

  /** A successful operation writes exactly one record, under key `k`: an
      existing record evolves, a new one starts undeclined with no sponsor
      status. */
  lemma WrittenRecord(st: Store, env: Env, op: Op) returns (k: Id)
    requires WellFormed(st)
    ensures var r := Apply(st, env, op);
            r.Ok? ==>
            && r.value.user.id == k
            && r.value.store == st[k := r.value.user]
            && (k in st ==> Evolves(st[k], r.value.user))
            && (k !in st ==> && !r.value.user.status.declined && r.value.user.sponsorFields.sponsorStatus.None?
                             && !EmailInUse(st, r.value.user.email))
  {
    var r := Apply(st, env, op);
    match op
    case CreateUserOp(_, _, newId) => k := newId;
    case CreateSponsorOp(_, _, newId) => k := newId;
    case VerifyOp(token) =>
      k := "";
      if r.Ok? {
        k :| k in st && st[k].email == ToLower(token.payload.s)
             && r.value.user == st[k].(verified := true) && r.value.store == st[k := r.value.user];
      }
    case UpdateProfileOp(id, _) => k := id;
    case AdmitOp(id, _) => k := id;
    case ConfirmOp(id, _) => k := id;
    case DeclineOp(id) => k := id;
    case ReminderOp(id) => k := id;
    case CheckInOp(id) => k := id;
    case CheckOutOp(id) => k := id;
    case MealOp(id, _) => k := id;
    case DiscordOp(token, discordID) =>
      k := if DiscordTarget(token, discordID, env.keys).Some? then DiscordTarget(token, discordID, env.keys).value else "";
    case DiscordAsWrittenOp(token, discordID) =>
      k := if DiscordTarget(token, discordID, env.keys).Some? then DiscordTarget(token, discordID, env.keys).value else "";
    case DiscordResetOp(id) => k := id;
    case JoinTeamOp(id, _) => k := id;
    case LeaveTeamOp(id) => k := id;
    case UpdateSponsorOp(id, _, _, _) => k := id;
    case GrantAccessOp(id) => k := id;
    case GrantAccessAsWrittenOp(id) => k := id;
    case RemoveAccessOp(id) => k := id;
  }

  /** Records are never removed, at most one is added, and every other
      record is left as it was. */
  lemma OnlyTargetChanges(st: Store, env: Env, op: Op)
    requires WellFormed(st)
    ensures var st' := After(st, Apply(st, env, op));
            && st.Keys <= st'.Keys
            && |st'.Keys - st.Keys| <= 1
            && forall j :: j in st && (Apply(st, env, op).Err? || j != Apply(st, env, op).value.user.id) ==> st'[j] == st[j]
  {
    var k := WrittenRecord(st, env, op);
    var r := Apply(st, env, op);
    if r.Ok? {
      assert r.value.store.Keys - st.Keys <= {k};
    }
  }

  /** Once declined, a record stays declined. */
  lemma DeclinedNeverCleared(st: Store, env: Env, op: Op, j: Id)
    requires WellFormed(st)
    requires j in st && st[j].status.declined
    ensures var st' := After(st, Apply(st, env, op));
            j in st' && st'[j].status.declined
  {
    var k := WrittenRecord(st, env, op);
  }

  /** No operation writes "incomplete" as a sponsor status. */
  lemma NeverWritesIncomplete(st: Store, env: Env, op: Op, j: Id)
    requires WellFormed(st)
    ensures var st' := After(st, Apply(st, env, op));
            j in st' && st'[j].sponsorFields.sponsorStatus == Some(Incomplete)
            ==> j in st && st[j].sponsorFields.sponsorStatus == Some(Incomplete)
  {
    var k := WrittenRecord(st, env, op);
  }

  /** A sequence of requests, each with its own clock and settings but the
      same team size limit. */
  datatype Step = Step(env: Env, op: Op)

  ghost function Run(st: Store, steps: seq<Step>): Store
    decreases |steps|
  {
    if |steps| == 0 then st
    else Run(After(st, Apply(st, steps[0].env, steps[0].op)), steps[1..])
  }

  /** The invariant holds after any run that starts from a collection where
      it holds, in particular from the empty one. */
  lemma {:induction false} RunKeepsInv(st: Store, maxTeamSize: nat, steps: seq<Step>)
    requires Inv(st, maxTeamSize)
    requires forall i :: 0 <= i < |steps| ==> steps[i].env.maxTeamSize == maxTeamSize
    ensures Inv(Run(st, steps), maxTeamSize)
    decreases |steps|
  {
    if |steps| > 0 {
      ApplyKeepsInv(st, steps[0].env, steps[0].op);
      RunKeepsInv(After(st, Apply(st, steps[0].env, steps[0].op)), maxTeamSize, steps[1..]);
    }
  }

  /** A decline survives any run. */
  lemma {:induction false} DeclineSurvivesRun(st: Store, steps: seq<Step>, k: Id)
    requires WellFormed(st) && k in st && st[k].status.declined
    ensures k in Run(st, steps) && Run(st, steps)[k].status.declined
    decreases |steps|
  {
    if |steps| > 0 {
      var st' := After(st, Apply(st, steps[0].env, steps[0].op));
      DeclinedNeverCleared(st, steps[0].env, steps[0].op, k);
      ApplyKeepsWellFormed(st, steps[0].env, steps[0].op);
      DeclineSurvivesRun(st', steps[1..], k);
    }
  }

  /** Well-formedness alone is preserved too. */
  lemma ApplyKeepsWellFormed(st: Store, env: Env, op: Op)
    requires WellFormed(st)
    ensures WellFormed(After(st, Apply(st, env, op)))
  {
    var r := Apply(st, env, op);
    var k := WrittenRecord(st, env, op);
    if r.Ok? {
      if k in st {
        UpdateKeepsWellFormed(st, k, r.value.user);
      } else {
        InsertKeepsWellFormed(st, r.value.user);
      }
    }
  }
}
