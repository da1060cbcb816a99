/** Teams: a team is the set of records sharing a `teamCode`; joining
    counts the members first and then sets the code. */
module Teams {
  import opened Wrappers
  import opened UserModel
  import opened RecordStore

  /** `process.env.TEAM_MAX_SIZE || 4` when the variable is unset. */
  const DefaultMaxTeamSize: nat := 4

  /** `createOrJoinTeam`: a falsy code, a non-string code and a full team
      are refused; otherwise the verified caller takes the code. The count
      includes the caller when already on that team. */
  function CreateOrJoinTeam(st: Store, id: Id, code: JsParam, maxTeamSize: nat): (r: Result<Done, Error>)
    ensures ParamFalsy(code) ==> r == Err(EmptyTeamName)
    ensures code.NonString? && code.truthy ==> r == Err(TeamNameNotString)
    ensures code.Str? && code.s != "" && Count(st, code.s) >= maxTeamSize ==> r == Err(TeamFull)
    ensures r.Ok? <==>
      code.Str? && code.s != "" && Count(st, code.s) < maxTeamSize && id in st && st[id].verified
    ensures r.Ok? ==>
      && r.value.user == st[id].(teamCode := Some(code.s))
      && r.value.store == st[id := r.value.user]
  {
    if ParamFalsy(code) then Err(EmptyTeamName)
    else if code.NonString? then Err(TeamNameNotString)
    else if Count(st, code.s) >= maxTeamSize then Err(TeamFull)
    else Patch(st, id, (u: User) => u.verified, (u: User) => u.(teamCode := Some(code.s)))
  }

  /** Joining never takes any team past `maxTeamSize`, operations taken one
      at a time. */
  lemma JoinKeepsTeamsWithin(st: Store, id: Id, code: JsParam, maxTeamSize: nat)
    requires TeamsWithin(st, maxTeamSize)
    ensures TeamsWithin(After(st, CreateOrJoinTeam(st, id, code, maxTeamSize)), maxTeamSize)
  {
    var r := CreateOrJoinTeam(st, id, code, maxTeamSize);
    if r.Ok? {
      forall c ensures Count(r.value.store, c) <= maxTeamSize {
        CountAfterUpdate(st, id, r.value.user, c);
      }
    }
  }

  /** A full team turns the joiner away and changes nothing. */
  lemma FullTeamUnchanged(st: Store, id: Id, code: string, maxTeamSize: nat)
    requires code != "" && Count(st, code) >= maxTeamSize
    ensures CreateOrJoinTeam(st, id, Str(code), maxTeamSize) == Err(TeamFull)
    ensures After(st, CreateOrJoinTeam(st, id, Str(code), maxTeamSize)) == st
  {
  }

  /** A member who joins its own team again leaves every count as it was. */
  lemma RejoinSameCounts(st: Store, id: Id, code: string, maxTeamSize: nat)
    requires id in st && st[id].teamCode == Some(code)
    requires CreateOrJoinTeam(st, id, Str(code), maxTeamSize).Ok?
    ensures forall c :: Count(After(st, CreateOrJoinTeam(st, id, Str(code), maxTeamSize)), c) == Count(st, c)
  {
    var r := CreateOrJoinTeam(st, id, Str(code), maxTeamSize);
    SameTeamSameCounts(st, id, r.value.user);
  }

  /** `leaveTeam`: clears the team code of any record. */
  function LeaveTeam(st: Store, id: Id): (r: Result<Done, Error>)
    ensures r.Ok? <==> id in st
    ensures r.Ok? ==>
      && r.value.user == st[id].(teamCode := None)
      && r.value.store == st[id := r.value.user]
      && forall c :: Count(r.value.store, c) <= Count(st, c)
  {
    var r := Patch(st, id, (u: User) => true, (u: User) => u.(teamCode := None));
    if r.Ok? then
      assert forall c :: Count(r.value.store, c) <= Count(st, c) by {
        forall c ensures Count(r.value.store, c) <= Count(st, c) {
          CountAfterUpdate(st, id, r.value.user, c);
        }
      }
      r
    else r
  }

  /** The projection of a teammate: name, e-mail and status only. */
  datatype Teammate = Teammate(name: string, email: string, status: Status)

  /** `getTeammates`: every record sharing the caller's non-empty code,
      the caller included, keyed by id. */
  function GetTeammates(st: Store, id: Id): (r: Result<map<Id, Teammate>, Error>)
    ensures id !in st ==> r == Err(NoMatch)
    ensures id in st && (st[id].teamCode.None? || st[id].teamCode == Some("")) ==> r == Err(NotOnTeam)
    ensures r.Ok? <==> id in st && st[id].teamCode.Some? && st[id].teamCode.value != ""
    ensures r.Ok? ==>
      && id in st && st[id].teamCode.Some?
      && r.value.Keys == Members(st, st[id].teamCode.value)
      && id in r.value
      && forall k :: k in r.value ==> r.value[k] == Teammate(st[k].profile.name, st[k].email, st[k].status)
  {
    if id !in st then Err(NoMatch)
    else if st[id].teamCode.None? || st[id].teamCode.value == "" then Err(NotOnTeam)
    else
      var code := st[id].teamCode.value;
      Ok(map k | k in st && st[k].teamCode == Some(code) :: Teammate(st[k].profile.name, st[k].email, st[k].status))
  }

  /** With the size bound in force, nobody sees more than `maxTeamSize`
      teammates. */
  lemma TeammatesBounded(st: Store, id: Id, maxTeamSize: nat)
    requires TeamsWithin(st, maxTeamSize)
    requires GetTeammates(st, id).Ok?
    ensures |GetTeammates(st, id).value| <= maxTeamSize
  {
    var r := GetTeammates(st, id).value;
    assert |r| == |r.Keys|;
    assert Count(st, st[id].teamCode.value) <= maxTeamSize;
  }
}
