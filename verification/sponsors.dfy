/** The sponsor workflow: `sponsorFields.sponsorStatus` moves between
    "completedProfile" and "grantedResumeAccess"; every write is an
    unconditional `$set`. */
module Sponsors {
  import opened Wrappers
  import opened UserModel
  import opened RecordStore

  /** A sponsor-status write leaves the record otherwise untouched. */
  function WithSponsorStatus(u: User, s: SponsorStatus): User {
    u.(sponsorFields := u.sponsorFields.(sponsorStatus := Some(s)))
  }

  /** `updateSponsorById`: stores the submitted company details and marks
      the profile complete, on any record, verified or not. The two
      statement times go through `Number`: `opening` and `closing` are its
      results, `None` standing for NaN, which Mongoose refuses to cast, so
      nothing is written at all. */
  function UpdateSponsorById(st: Store, id: Id, details: SponsorDetails,
                             opening: Option<int>, closing: Option<int>): (r: Result<Done, Error>)
    ensures opening.None? || closing.None? ==> r == Err(CastFailed)
    ensures r.Ok? <==> id in st && opening.Some? && closing.Some?
    ensures r.Ok? ==>
      && r.value.store == st[id := r.value.user]
      && r.value.user.sponsorFields.sponsorStatus == Some(CompletedProfile)
      && r.value.user.sponsorFields.details
         == details.(openingStatementTime := opening, closingStatementTime := closing)
      && r.value.user.(sponsorFields := st[id].sponsorFields) == st[id]
  {
    if opening.None? || closing.None? then Err(CastFailed)
    else
      var stored := details.(openingStatementTime := opening, closingStatementTime := closing);
      Patch(st, id, (u: User) => true,
            (u: User) => u.(sponsorFields := SponsorFields(Some(CompletedProfile), stored)))
  }

  /** `grantResumeAccessById`: a verified record gets resume access,
      whatever its current sponsor status. */
  function GrantResumeAccessById(st: Store, id: Id): (r: Result<Done, Error>)
    ensures r.Ok? <==> id in st && st[id].verified
    ensures r.Ok? ==>
      && r.value.store == st[id := r.value.user]
      && r.value.user.sponsorFields.sponsorStatus == Some(GrantedResumeAccess)
      && r.value.user.(sponsorFields := st[id].sponsorFields) == st[id]
      && r.value.user.sponsorFields.details == st[id].sponsorFields.details
  {
    Patch(st, id, (u: User) => u.verified, (u: User) => WithSponsorStatus(u, GrantedResumeAccess))
  }

  /** `removeResumeAccessById`: a verified record goes back to
      "completedProfile", whatever its current sponsor status. */
  function RemoveResumeAccessById(st: Store, id: Id): (r: Result<Done, Error>)
    ensures r.Ok? <==> id in st && st[id].verified
    ensures r.Ok? ==>
      && r.value.store == st[id := r.value.user]
      && r.value.user.sponsorFields.sponsorStatus == Some(CompletedProfile)
      && r.value.user.(sponsorFields := st[id].sponsorFields) == st[id]
      && r.value.user.sponsorFields.details == st[id].sponsorFields.details
  {
    Patch(st, id, (u: User) => u.verified, (u: User) => WithSponsorStatus(u, CompletedProfile))
  }

  /** Granting and then removing access restores a "completedProfile"
      sponsor exactly. */
  lemma GrantThenRemove(st: Store, id: Id)
    requires id in st && st[id].verified && st[id].sponsorFields.sponsorStatus == Some(CompletedProfile)
    ensures var st1 := GrantResumeAccessById(st, id).value.store;
            st1[id].sponsorFields.sponsorStatus == Some(GrantedResumeAccess)
            && RemoveResumeAccessById(st1, id).value.store == st
  {
    var u := st[id];
    var st1 := GrantResumeAccessById(st, id).value.store;
    var u2 := WithSponsorStatus(WithSponsorStatus(u, GrantedResumeAccess), CompletedProfile);
    assert u2 == u;
    assert st1[id := u2] == st;
  }

  /** `grantResumeAccess` as the source leaves it: the name is defined
      twice and the second definition, which wins, writes
      "completedProfile" to any record. */
  function GrantResumeAccessAsWritten(st: Store, id: Id): (r: Result<Done, Error>)
    ensures r.Ok? <==> id in st
    ensures r.Ok? ==>
      && r.value.store == st[id := r.value.user]
      && r.value.user.sponsorFields.sponsorStatus == Some(CompletedProfile)
      && r.value.user.(sponsorFields := st[id].sponsorFields) == st[id]
      && r.value.user.sponsorFields.details == st[id].sponsorFields.details
  {
    Patch(st, id, (u: User) => true, (u: User) => WithSponsorStatus(u, CompletedProfile))
  }

  /** The input that shows it: a sponsor awaiting access is not granted it. */
  lemma GrantAsWrittenDoesNotGrant(st: Store, id: Id)
    requires id in st && st[id].sponsor && st[id].sponsorFields.sponsorStatus == Some(CompletedProfile)
    ensures GrantResumeAccessAsWritten(st, id).Ok?
    ensures GrantResumeAccessAsWritten(st, id).value.user.sponsorFields.sponsorStatus != Some(GrantedResumeAccess)
    ensures GrantResumeAccessAsWritten(st, id).value.store == st
  {
    assert WithSponsorStatus(st[id], CompletedProfile) == st[id];
  }

  /** The two admin actions the pair of definitions evidently stands for:
      grant writes "grantedResumeAccess", and the second, under its own
      name, removes it. */
  function GrantResumeAccess(st: Store, id: Id): (r: Result<Done, Error>)
    ensures r.Ok? <==> id in st
    ensures r.Ok? ==>
      && r.value.store == st[id := r.value.user]
      && r.value.user.sponsorFields.sponsorStatus == Some(GrantedResumeAccess)
      && r.value.user.(sponsorFields := st[id].sponsorFields) == st[id]
  {
    Patch(st, id, (u: User) => true, (u: User) => WithSponsorStatus(u, GrantedResumeAccess))
  }

  function RemoveResumeAccess(st: Store, id: Id): (r: Result<Done, Error>)
    ensures r.Ok? <==> id in st
    ensures r.Ok? ==>
      && r.value.store == st[id := r.value.user]
      && r.value.user.sponsorFields.sponsorStatus == Some(CompletedProfile)
      && r.value.user.(sponsorFields := st[id].sponsorFields) == st[id]
  {
    Patch(st, id, (u: User) => true, (u: User) => WithSponsorStatus(u, CompletedProfile))
  }

  /** The corrected pair round-trips, like the by-id pair. */
  lemma GrantRemoveRoundTrip(st: Store, id: Id)
    requires id in st && st[id].sponsorFields.sponsorStatus == Some(CompletedProfile)
    ensures var st1 := GrantResumeAccess(st, id).value.store;
            st1[id].sponsorFields.sponsorStatus == Some(GrantedResumeAccess)
            && RemoveResumeAccess(st1, id).value.store == st
  {
    var u := st[id];
    var st1 := GrantResumeAccess(st, id).value.store;
    var u2 := WithSponsorStatus(WithSponsorStatus(u, GrantedResumeAccess), CompletedProfile);
    assert u2 == u;
    assert st1[id := u2] == st;
  }
}
