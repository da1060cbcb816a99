/** The users collection and its single-document conditional update
    (`findOneAndUpdate` with a match predicate and a `$set`). */
module RecordStore {
  import opened Wrappers
  import opened UserModel
  import opened Tokens

  /** The collection, keyed by `_id`. */
  type Store = map<Id, User>

  /** The errors a controller operation hands to its callback. */
  datatype Error =
    | NoMatch                     // the match predicate selected no record: no error and no user
    | CastFailed                  // Mongoose refuses to store NaN in a Number field
    | Crash                       // the code dereferences an undefined value
    | EmailNotString
    | InvalidEmail
    | EmailTaken
    | IdTaken                     // the fresh id is already a key; a new ObjectId never is
    | PasswordTooShort
    | RegistrationNotOpen
    | RegistrationClosed
    | NoWhitelist
    | NotWhitelisted
    | InvalidProfile
    | MissedConfirmationDeadline
    | EmptyTeamName
    | TeamNameNotString
    | TeamFull
    | NotOnTeam
    | AlreadyReceivedLunch
    | AlreadyReceivedDinner
    | MissingDiscordParameters
    | DiscordTokenInvalid
    | AccountNotVerified
    | DiscordAlreadyLinked
    | Token(e: TokenError)

  /** A successful update: the new collection and the updated document
      (`{new: true}`). */
  datatype Done = Done(store: Store, user: User)

  /** A request parameter as JavaScript sees it: a string, or some other
      value that is truthy or falsy (`undefined` and `null` are falsy). */
  datatype JsParam = Str(s: string) | NonString(truthy: bool)

  predicate ParamFalsy(p: JsParam) {
    match p
    case Str(s) => s == ""
    case NonString(t) => !t
  }

  /** Every record sits under its own id and e-mail addresses are unique
      (the schema's `unique: true`). */
  predicate WellFormed(st: Store) {
    && (forall k :: k in st ==> st[k].id == k)
    && (forall k1, k2 :: k1 in st && k2 in st && st[k1].email == st[k2].email ==> k1 == k2)
  }

  predicate EmailInUse(st: Store, email: string) {
    exists k :: k in st && st[k].email == email
  }

  /** `User.findOneAndUpdate({_id: id, ...guard}, {$set: ...}, {new: true})`:
      the record with that id, if the guard holds of it, is replaced by its
      updated version and returned. */
  function Patch(st: Store, id: Id, guard: User -> bool, update: User -> User): (r: Result<Done, Error>)
    ensures r.Ok? <==> id in st && guard(st[id])
    ensures r.Err? ==> r.error == NoMatch
    ensures r.Ok? ==> r.value.user == update(st[id]) && r.value.store == st[id := update(st[id])]
  {
    if id in st && guard(st[id]) then
      var u := update(st[id]);
      Ok(Done(st[id := u], u))
    else Err(NoMatch)
  }

  /** The collection after an operation: unchanged when it failed. */
  function After(st: Store, r: Result<Done, Error>): Store {
    if r.Ok? then r.value.store else st
  }

  /** Replacing one record by one with the same id and e-mail keeps the
      collection well formed. */
  lemma UpdateKeepsWellFormed(st: Store, id: Id, u: User)
    requires WellFormed(st) && id in st
    requires u.id == st[id].id && u.email == st[id].email
    ensures WellFormed(st[id := u])
  {
  }

  // ---------------------------------------------------------------------
  // Team membership counts
  // ---------------------------------------------------------------------

  function Members(st: Store, code: string): set<Id> {
    set k | k in st && st[k].teamCode == Some(code)
  }

  /** `User.find({teamCode: code}).length`. */
  function Count(st: Store, code: string): nat {
    |Members(st, code)|
  }

  ghost predicate TeamsWithin(st: Store, maxTeamSize: nat) {
    forall c :: Count(st, c) <= maxTeamSize
  }

  /** How one record's new team code moves the count of `code`. */
  lemma {:induction false} CountAfterUpdate(st: Store, id: Id, u: User, code: string)
    requires id in st
    ensures Count(st[id := u], code) ==
      Count(st, code)
      - (if st[id].teamCode == Some(code) then 1 else 0)
      + (if u.teamCode == Some(code) then 1 else 0)
  {
    var before := Members(st, code);
    var after := Members(st[id := u], code);
    var rest := before - {id};
    assert after - {id} == rest;
    if st[id].teamCode == Some(code) {
      assert before == rest + {id};
    } else {
      assert before == rest;
    }
    if u.teamCode == Some(code) {
      assert after == rest + {id};
    } else {
      assert after == rest;
    }
  }

  /** An update that keeps the record's team code keeps every count. */
  lemma SameTeamSameCounts(st: Store, id: Id, u: User)
    requires id in st && u.teamCode == st[id].teamCode
    ensures forall c :: Count(st[id := u], c) == Count(st, c)
  {
    forall c ensures Count(st[id := u], c) == Count(st, c) {
      CountAfterUpdate(st, id, u, c);
    }
  }

  /** Adding a record that is on no team keeps every count. */
  lemma {:induction false} NewRecordSameCounts(st: Store, id: Id, u: User)
    requires id !in st && u.teamCode.None?
    ensures forall c :: Count(st[id := u], c) == Count(st, c)
  {
    forall c ensures Count(st[id := u], c) == Count(st, c) {
      assert Members(st[id := u], c) == Members(st, c);
    }
  }
}
