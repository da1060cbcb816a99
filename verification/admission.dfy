/** The admission lifecycle: profile submission, admission, confirmation,
    declining and the confirmation reminder. */
module Admission {
  import opened Wrappers
  import opened UserModel
  import opened RecordStore

  /** `updateProfileById`: a complete profile is stored on a verified
      record, which becomes "submitted". */
  function UpdateProfileById(st: Store, id: Id, profile: Profile, now: Time): (r: Result<Done, Error>)
    ensures !ValidateProfile(profile) ==> r == Err(InvalidProfile)
    ensures r.Ok? <==> ValidateProfile(profile) && id in st && st[id].verified
    ensures r.Err? && ValidateProfile(profile) ==> r.error == NoMatch
    ensures r.Ok? ==>
      && r.value.store == st[id := r.value.user]
      && r.value.user.profile == profile
      && r.value.user.status.completedProfile
      && r.value.user.lastUpdated == now
      && r.value.user.(profile := st[id].profile, lastUpdated := st[id].lastUpdated,
                       status := st[id].status) == st[id]
      && r.value.user.status.(completedProfile := st[id].status.completedProfile) == st[id].status
  {
    if !ValidateProfile(profile) then Err(InvalidProfile)
    else
      Patch(st, id, (u: User) => u.verified,
            (u: User) => u.(lastUpdated := now, profile := profile,
                            status := u.status.(completedProfile := true)))
  }

  /** `admitUser`: a verified record is admitted by `adminEmail` and gets
      the configured confirmation deadline (possibly unset). */
  function AdmitUser(st: Store, id: Id, adminEmail: string, timeConfirm: Option<Time>): (r: Result<Done, Error>)
    ensures r.Ok? <==> id in st && st[id].verified
    ensures r.Err? ==> r.error == NoMatch
    ensures r.Ok? ==>
      && r.value.store == st[id := r.value.user]
      && r.value.user.status.admitted
      && r.value.user.status.admittedBy == Some(adminEmail)
      && r.value.user.status.confirmBy == timeConfirm
      && r.value.user.(status := st[id].status) == st[id]
      && r.value.user.status.(admitted := st[id].status.admitted, admittedBy := st[id].status.admittedBy,
                              confirmBy := st[id].status.confirmBy) == st[id].status
  {
    Patch(st, id, (u: User) => u.verified,
          (u: User) => u.(status := u.status.(admitted := true, admittedBy := Some(adminEmail),
                                               confirmBy := timeConfirm)))
  }

  /** JavaScript's `now >= confirmBy`, false when `confirmBy` is undefined. */
  predicate PastDeadline(now: Time, confirmBy: Option<Time>) {
    confirmBy.Some? && now >= confirmBy.value
  }

  /** `updateConfirmationById`: refused past the deadline unless already
      confirmed; otherwise a verified, admitted, not declined record stores
      the confirmation and becomes confirmed. */
  function UpdateConfirmationById(st: Store, id: Id, confirmation: Confirmation, now: Time): (r: Result<Done, Error>)
    ensures r == Err(MissedConfirmationDeadline) <==>
      id in st && PastDeadline(now, st[id].status.confirmBy) && !st[id].status.confirmed
    ensures r.Ok? <==>
      && id in st
      && !(PastDeadline(now, st[id].status.confirmBy) && !st[id].status.confirmed)
      && st[id].verified && st[id].status.admitted && !st[id].status.declined
    ensures r.Ok? ==>
      && r.value.store == st[id := r.value.user]
      && r.value.user.confirmation == Some(confirmation)
      && r.value.user.status.confirmed
      && r.value.user.lastUpdated == now
      && r.value.user.(confirmation := st[id].confirmation, lastUpdated := st[id].lastUpdated,
                       status := st[id].status) == st[id]
      && r.value.user.status.(confirmed := st[id].status.confirmed) == st[id].status
  {
    if id !in st then Err(NoMatch)
    else if PastDeadline(now, st[id].status.confirmBy) && !st[id].status.confirmed then
      Err(MissedConfirmationDeadline)
    else
      Patch(st, id, (u: User) => u.verified && u.status.admitted && !u.status.declined,
            (u: User) => u.(lastUpdated := now, confirmation := Some(confirmation),
                            status := u.status.(confirmed := true)))
  }

  /** With no deadline recorded the deadline error never arises. */
  lemma NoDeadlineNoDeadlineError(st: Store, id: Id, confirmation: Confirmation, now: Time)
    requires id in st && st[id].status.confirmBy.None?
    ensures UpdateConfirmationById(st, id, confirmation, now) != Err(MissedConfirmationDeadline)
  {
  }

  /** An already confirmed user may resubmit logistics after the deadline. */
  lemma ConfirmedMayResubmitLate(st: Store, id: Id, confirmation: Confirmation, now: Time)
    requires id in st && st[id].status.confirmed && st[id].verified
    requires st[id].status.admitted && !st[id].status.declined
    ensures UpdateConfirmationById(st, id, confirmation, now).Ok?
  {
  }

  /** `declineById`: a verified, admitted record that has not declined
      becomes declined and unconfirmed. */
  function DeclineById(st: Store, id: Id, now: Time): (r: Result<Done, Error>)
    ensures r.Ok? <==> id in st && st[id].verified && st[id].status.admitted && !st[id].status.declined
    ensures r.Err? ==> r.error == NoMatch
    ensures r.Ok? ==>
      && r.value.store == st[id := r.value.user]
      && r.value.user.status.declined && !r.value.user.status.confirmed
      && r.value.user.lastUpdated == now
      && r.value.user.(status := st[id].status, lastUpdated := st[id].lastUpdated) == st[id]
      && r.value.user.status.(confirmed := st[id].status.confirmed,
                              declined := st[id].status.declined) == st[id].status
  {
    Patch(st, id, (u: User) => u.verified && u.status.admitted && !u.status.declined,
          (u: User) => u.(lastUpdated := now, status := u.status.(confirmed := false, declined := true)))
  }

  /** A second decline matches nothing and leaves the collection alone. */
  lemma DeclineTwice(st: Store, id: Id, now: Time, later: Time)
    requires DeclineById(st, id, now).Ok?
    ensures var st' := DeclineById(st, id, now).value.store;
            DeclineById(st', id, later) == Err(NoMatch)
  {
  }

  /** After declining, confirming is no longer possible. */
  lemma NoConfirmAfterDecline(st: Store, id: Id, now: Time, confirmation: Confirmation, later: Time)
    requires DeclineById(st, id, now).Ok?
    ensures UpdateConfirmationById(DeclineById(st, id, now).value.store, id, confirmation, later).Err?
  {
  }

  /** `sendConfirmationReminder`: a verified, admitted and confirmed record
      gets the configured deadline again (the e-mail itself is commented
      out in the source). */
  function SendConfirmationReminder(st: Store, id: Id, timeConfirm: Option<Time>): (r: Result<Done, Error>)
    ensures r.Ok? <==> id in st && st[id].verified && st[id].status.admitted && st[id].status.confirmed
    ensures r.Err? ==> r.error == NoMatch
    ensures r.Ok? ==>
      && r.value.store == st[id := r.value.user]
      && r.value.user == st[id].(status := st[id].status.(confirmBy := timeConfirm))
  {
    Patch(st, id, (u: User) => u.verified && u.status.admitted && u.status.confirmed,
          (u: User) => u.(status := u.status.(confirmBy := timeConfirm)))
  }
}
