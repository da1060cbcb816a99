/** The per-user record of the Mongoose schema, its defaults, the profile
    completeness rule and the derived `status.name`. */
module UserModel {
  import opened Wrappers

  type Id = string
  /** Milliseconds since the epoch, as `Date.now()` returns. */
  type Time = int

  /** The self-reported profile. A missing string is modelled as "";
      in the source it is `undefined`, whose `.length` throws. */
  datatype Profile = Profile(
    name: string,
    firstName: string,
    lastName: string,
    adult: bool,
    gender: string,
    school: string,
    graduationTime: string,
    resume: bool,
    skills: seq<string>,
    usStudent: bool,
    swag: bool,
    streetAddress: string,
    city: string,
    state: string,
    zip: string)

  /** Logistics collected once the user is admitted; stored as given. */
  datatype Confirmation = Confirmation(
    dietaryRestrictions: seq<string>,
    shirtSize: string,
    wantsHardware: bool,
    hardware: string,
    github: string,
    notes: string)

  datatype Status = Status(
    completedProfile: bool,
    admitted: bool,
    admittedBy: Option<string>,
    confirmed: bool,
    declined: bool,
    checkedIn: bool,
    checkInTime: Option<Time>,
    confirmBy: Option<Time>,
    reimbursementGiven: bool)

  datatype SponsorStatus = Incomplete | CompletedProfile | GrantedResumeAccess

  /** The sponsor's company details, written as a whole by the sponsor form.
      The statement times are `Number` fields with no default: `None` is an
      unset field. */
  datatype SponsorDetails = SponsorDetails(
    companyName: string,
    representativeEmail: string,
    representativeFirstName: string,
    representativeLastName: string,
    tier: string,
    workshop: bool,
    paid: bool,
    openingStatementTime: Option<int>,
    closingStatementTime: Option<int>,
    estimatedCost: int,
    otherNotes: string)

  /** `sponsorStatus` is optional: the schema places its default inside the
      `enum` object, so Mongoose never applies it. */
  datatype SponsorFields = SponsorFields(sponsorStatus: Option<SponsorStatus>, details: SponsorDetails)

  datatype UserAtEvent = UserAtEvent(
    receivedLunch: bool,
    receivedDinner: bool,
    workshopsAttended: seq<string>,
    tablesVisited: seq<string>)

  datatype Discord = Discord(verified: bool, userID: Option<string>)

  /** A bcrypt hash, kept abstract: it remembers what was hashed. */
  datatype PasswordHash = Hashed(plain: string)

  datatype User = User(
    id: Id,
    email: string,
    password: PasswordHash,
    admin: bool,
    sponsor: bool,
    timestamp: Time,
    lastUpdated: Time,
    teamCode: Option<string>,
    verified: bool,
    profile: Profile,
    confirmation: Option<Confirmation>,
    status: Status,
    sponsorFields: SponsorFields,
    userAtEvent: UserAtEvent,
    discord: Discord)

  const DefaultProfile: Profile :=
    Profile("", "", "", false, "", "", "", false, [], false, false, "", "", "TX", "")

  const DefaultStatus: Status :=
    Status(false, false, None, false, false, false, None, None, false)

  const DefaultSponsorFields: SponsorFields :=
    SponsorFields(None, SponsorDetails("", "", "", "", "", false, false, None, None, 0, ""))

  const DefaultUserAtEvent: UserAtEvent := UserAtEvent(false, false, [], [])

  const DefaultDiscord: Discord := Discord(false, None)

  /** `new User()` as the schema defines it: the `timestamp` and
      `lastUpdated` defaults are `Date.now()` evaluated once, when the
      schema is built at process start (`bootTime`), not per record. */
  function NewUserAsWritten(id: Id, email: string, password: PasswordHash, bootTime: Time): (u: User)
    ensures u.timestamp == bootTime && u.lastUpdated == bootTime
    ensures !u.admin && !u.sponsor && !u.verified && u.teamCode.None?
  {
    User(id, email, password, false, false, bootTime, bootTime, None, false,
         DefaultProfile, None, DefaultStatus, DefaultSponsorFields, DefaultUserAtEvent, DefaultDiscord)
  }

  /** Two accounts created a day apart receive the same creation time. */
  lemma CreationTimeFrozen(bootTime: Time, created1: Time, created2: Time)
    requires bootTime < created1 < created2
    ensures NewUserAsWritten("a", "a@x.edu", Hashed("secret1"), bootTime).timestamp
         == NewUserAsWritten("b", "b@x.edu", Hashed("secret2"), bootTime).timestamp
    ensures NewUserAsWritten("a", "a@x.edu", Hashed("secret1"), bootTime).timestamp != created1
  {
  }

  /** `new User()` with the creation-time defaults evaluated when the
      record is created (`default: Date.now`), as evidently intended; the
      controllers of this model create records with it. */
  function NewUser(id: Id, email: string, password: PasswordHash, now: Time): (u: User)
    ensures u.id == id && u.email == email && u.password == password
    ensures u.timestamp == now && u.lastUpdated == now
    ensures !u.admin && !u.sponsor && !u.verified && u.teamCode.None?
    ensures u.profile == DefaultProfile && u.confirmation.None?
    ensures u.sponsorFields.sponsorStatus.None?
    ensures !u.userAtEvent.receivedLunch && !u.userAtEvent.receivedDinner
    ensures !u.discord.verified && u.discord.userID.None?
    ensures NoStatusFlag(u.status)
  {
    NewUserAsWritten(id, email, password, now)
  }

  /** None of the admission flags is set. */
  predicate NoStatusFlag(s: Status) {
    !s.completedProfile && !s.admitted && !s.confirmed && !s.declined && !s.checkedIn
    && s.confirmBy.None? && s.checkInTime.None? && s.admittedBy.None?
  }

  // ---------------------------------------------------------------------
  // Profile validation
  // ---------------------------------------------------------------------

  const GraduationTimes: seq<string> :=
    ["Fall 2020", "Spring 2021", "Fall 2021", "Spring 2022", "Fall 2022",
     "Spring 2023", "Fall 2023", "Spring 2024", "Other"]

  const Genders: seq<string> := ["M", "F", "O", "N"]

  const StateCodes: seq<string> :=
    ["TX", "AL", "AK", "AZ", "AR", "CA", "CO", "CT", "DE", "DC", "FL", "GA",
     "HI", "ID", "IL", "IN", "IA", "KS", "KY", "LA", "ME", "MD", "MA", "MI",
     "MN", "MS", "MO", "MT", "NE", "NV", "NH", "NJ", "NM", "NY", "NC", "ND",
     "OH", "OK", "OR", "PA", "RI", "SC", "SD", "TN", "UT", "VT", "VA", "WA",
     "WV", "WI", "WY"]

  /** `list.indexOf(x)` over an array of strings. */
  function ListIndexOf(list: seq<string>, x: string): (r: int)
    ensures r == -1 <==> x !in list
    ensures r >= 0 ==> r < |list| && list[r] == x && x !in list[..r]
  {
    if |list| == 0 then -1
    else if list[0] == x then 0
    else
      var r := ListIndexOf(list[1..], x);
      assert list[1..][..if r < 0 then 0 else r] == list[1..if r < 0 then 1 else r + 1];
      if r < 0 then -1 else r + 1
  }

  /** The mailing address is complete: demanded only when the user is a US
      student who asked for swag. */
  predicate AddressComplete(p: Profile) {
    |p.streetAddress| > 0 && |p.city| > 0 && |p.zip| == 5 && p.state in StateCodes
  }

  /** `validateProfile`: true when the profile is complete (the source
      passes the negation of this to its callback as the error). */
  function ValidateProfile(p: Profile): (ok: bool)
    ensures ok <==>
      && |p.name| > 0 && |p.firstName| > 0 && |p.lastName| > 0
      && p.resume && p.adult && |p.school| > 0
      && p.graduationTime in GraduationTimes
      && p.gender in Genders
      && (p.usStudent && p.swag ==> AddressComplete(p))
  {
    |p.name| > 0 &&
    |p.firstName| > 0 &&
    |p.lastName| > 0 &&
    p.resume &&
    p.adult &&
    |p.school| > 0 &&
    ListIndexOf(GraduationTimes, p.graduationTime) > -1 &&
    ListIndexOf(Genders, p.gender) > -1 &&
    (!p.usStudent || !p.swag ||
      (|p.streetAddress| > 0 && |p.city| > 0 && |p.zip| == 5 &&
       ListIndexOf(StateCodes, p.state) > -1))
  }

  /** The address fields are ignored unless both `usStudent` and `swag` hold. */
  lemma AddressIgnoredWithoutSwag(p: Profile, street: string, city: string, zip: string, state: string)
    requires !(p.usStudent && p.swag)
    ensures ValidateProfile(p.(streetAddress := street, city := city, zip := zip, state := state))
         == ValidateProfile(p)
  {
  }

  /** The default profile never validates: it has no name and no resume. */
  lemma DefaultProfileInvalid()
    ensures !ValidateProfile(DefaultProfile)
  {
  }

  // ---------------------------------------------------------------------
  // The derived status name
  // ---------------------------------------------------------------------

  datatype StatusName =
    | CheckedInName | DeclinedName | ConfirmedName | AdmittedName | SubmittedName
    | UnverifiedName | PendingName | ApprovedName | IncompleteName

  /** The string the `status.name` virtual yields. */
  function StatusText(n: StatusName): string {
    match n
    case CheckedInName => "checked in"
    case DeclinedName => "declined"
    case ConfirmedName => "confirmed"
    case AdmittedName => "admitted"
    case SubmittedName => "submitted"
    case UnverifiedName => "unverified"
    case PendingName => "pending"
    case ApprovedName => "approved"
    case IncompleteName => "incomplete"
  }

  /** The `status.name` virtual: the first matching test wins. */
  function StatusNameOf(u: User): StatusName {
    if u.status.checkedIn then CheckedInName
    else if u.status.declined then DeclinedName
    else if u.status.confirmed then ConfirmedName
    else if u.status.admitted then AdmittedName
    else if u.status.completedProfile then SubmittedName
    else if !u.verified then UnverifiedName
    else if u.sponsor && u.sponsorFields.sponsorStatus == Some(CompletedProfile) then PendingName
    else if u.sponsor && u.sponsorFields.sponsorStatus == Some(GrantedResumeAccess) then ApprovedName
    else IncompleteName
  }

  /** The precedence table of `status.name`, as an independent reference:
      row i holds when test i of the chain matches. */
  function Tests(u: User): seq<bool> {
    [ u.status.checkedIn,
      u.status.declined,
      u.status.confirmed,
      u.status.admitted,
      u.status.completedProfile,
      !u.verified,
      u.sponsor && u.sponsorFields.sponsorStatus == Some(CompletedProfile),
      u.sponsor && u.sponsorFields.sponsorStatus == Some(GrantedResumeAccess) ]
  }

  const Names: seq<StatusName> :=
    [CheckedInName, DeclinedName, ConfirmedName, AdmittedName, SubmittedName,
     UnverifiedName, PendingName, ApprovedName]

  /** The index of the first true entry, or |tests| when none is. */
  function FirstTrue(tests: seq<bool>): (i: nat)
    ensures i <= |tests|
    ensures i < |tests| ==> tests[i]
    ensures forall j :: 0 <= j < i ==> !tests[j]
  {
    if |tests| == 0 then 0
    else if tests[0] then 0
    else 1 + FirstTrue(tests[1..])
  }

  /** `status.name` is total and is the name of the first test that
      matches, or "incomplete" when none does. */
  lemma StatusNameIsFirstMatch(u: User)
    ensures var i := FirstTrue(Tests(u));
            StatusNameOf(u) == if i < |Names| then Names[i] else IncompleteName
  {
    var t := Tests(u);
    var i := FirstTrue(t);
    assert |t| == 8;
    if t[0] { assert i == 0; }
    else if t[1] { assert i == 1; }
    else if t[2] { assert i == 2; }
    else if t[3] { assert i == 3; }
    else if t[4] { assert i == 4; }
    else if t[5] { assert i == 5; }
    else if t[6] { assert i == 6; }
    else if t[7] { assert i == 7; }
    else { assert i == 8; }
  }

  lemma CheckedInWins(u: User)
    requires u.status.checkedIn
    ensures StatusText(StatusNameOf(u)) == "checked in"
  {
  }

  lemma DeclinedBeatsConfirmed(u: User)
    requires !u.status.checkedIn && u.status.declined
    ensures StatusNameOf(u) == DeclinedName
  {
  }

  /** "unverified" exactly when no applicant flag is set and the e-mail
      address is not verified. */
  lemma UnverifiedExactly(u: User)
    ensures StatusNameOf(u) == UnverifiedName <==>
      !u.verified && !u.status.checkedIn && !u.status.declined && !u.status.confirmed
      && !u.status.admitted && !u.status.completedProfile
  {
  }

  /** "pending" and "approved" are reached only by sponsors in the matching
      sponsor state; a verified record with no applicant flag and neither
      sponsor state is "incomplete". */
  lemma SponsorNames(u: User)
    ensures StatusNameOf(u) == PendingName ==> u.sponsor && u.sponsorFields.sponsorStatus == Some(CompletedProfile)
    ensures StatusNameOf(u) == ApprovedName ==> u.sponsor && u.sponsorFields.sponsorStatus == Some(GrantedResumeAccess)
    ensures u.verified && !u.status.checkedIn && !u.status.declined && !u.status.confirmed
            && !u.status.admitted && !u.status.completedProfile
            && !(u.sponsor && u.sponsorFields.sponsorStatus in {Some(CompletedProfile), Some(GrantedResumeAccess)})
            ==> StatusNameOf(u) == IncompleteName
  {
  }

  /** A freshly created record reads as "unverified". */
  lemma FreshUserUnverified(id: Id, email: string, password: PasswordHash, now: Time)
    ensures StatusText(StatusNameOf(NewUser(id, email, password, now))) == "unverified"
  {
  }

  /** `_id + "_" + lastName + "_" + firstName`: the key under which both the
      id-only listing and the resume browser name a user. */
  function UserKey(u: User): string {
    u.id + "_" + u.profile.lastName + "_" + u.profile.firstName
  }

  // ---------------------------------------------------------------------
  // Record invariants
  // ---------------------------------------------------------------------

  /** `confirmed` implies `admitted` and not `declined`. */
  predicate ConfirmationConsistent(u: User) {
    u.status.confirmed ==> u.status.admitted && !u.status.declined
  }

  /** `sponsorStatus` never holds "incomplete". */
  predicate SponsorStatusAdvanced(u: User) {
    u.sponsorFields.sponsorStatus != Some(Incomplete)
  }

  predicate RecordOk(u: User) {
    ConfirmationConsistent(u) && SponsorStatusAdvanced(u)
  }
}
