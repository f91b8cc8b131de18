/** The user management page's own state rules: the in-memory team list with
    its add and delete guards, and the payload sent when a user is created or
    updated. */
module UserManagement {
  import opened Common
  import opened Records
  import opened Seqs
  import UserForm

  /** The seed of the team list, which is also the set of teams that cannot be deleted. */
  const DefaultTeams: seq<string> := ["admin", "otp", "team"]

  predicate IsDefaultTeam(team: string) {
    team in DefaultTeams
  }

  /** `users.some(user => user.team === team)`. */
  function HasMembers(users: seq<UserRecord>, team: string): (b: bool)
    ensures b <==> exists u :: u in users && u.team == team
  {
    exists i :: 0 <= i < |users| && users[i].team == team
  }

  predicate NoDuplicates(teams: seq<string>) {
    forall i, j :: 0 <= i < j < |teams| ==> teams[i] != teams[j]
  }

  datatype AddOutcome = Added | AlreadyExists

  function AddOutcomeOf(teams: seq<string>, team: string): (o: AddOutcome)
    ensures o == Added <==> team !in teams
  {
    if team !in teams then Added else AlreadyExists
  }

  function AddNotice(o: AddOutcome): Notice {
    match o
    case Added => Notice(Success, "Team added successfully")
    case AlreadyExists => Notice(Error, "Team already exists")
  }

  /** The team list after `handleAddTeam(team)`: the existing entries keep their
      places, and `team` is at the end exactly when it was not there before. */
  function TeamsAfterAdd(teams: seq<string>, team: string): (r: seq<string>)
    ensures |r| == if team in teams then |teams| else |teams| + 1
    ensures r[..|teams|] == teams
    ensures team !in teams ==> r[|teams|] == team
    ensures forall x :: x in r <==> x in teams || x == team
  {
    if team !in teams then teams + [team] else teams
  }

  /** The order of `handleDeleteTeam`'s guards: default teams first, then teams in use. */
  datatype DeleteOutcome = DefaultTeam | InUse | Removed

  function DeleteOutcomeOf(users: seq<UserRecord>, team: string): (o: DeleteOutcome)
    ensures o == DefaultTeam <==> IsDefaultTeam(team)
    ensures o == InUse <==> !IsDefaultTeam(team) && HasMembers(users, team)
    ensures o == Removed <==> !IsDefaultTeam(team) && !HasMembers(users, team)
  {
    if IsDefaultTeam(team) then DefaultTeam
    else if HasMembers(users, team) then InUse
    else Removed
  }

  function DeleteNotice(o: DeleteOutcome): Notice {
    match o
    case DefaultTeam => Notice(Error, "Cannot delete default teams")
    case InUse => Notice(Error, "Cannot delete team with active users")
    case Removed => Notice(Success, "Team deleted successfully")
  }

  function IsNot(team: string): string -> bool {
    t => t != team
  }

  /** `teams.filter(t => t !== team)`. */
  function Without(teams: seq<string>, team: string): (r: seq<string>)
    ensures |r| <= |teams|
    ensures forall i :: 0 <= i < |r| ==> r[i] != team
  {
    Filter(teams, IsNot(team))
  }

  /** The team list after `handleDeleteTeam(team)` with the given users loaded:
      unchanged when a guard refuses, otherwise the same names without `team`. */
  function TeamsAfterDelete(teams: seq<string>, users: seq<UserRecord>, team: string): (r: seq<string>)
    ensures DeleteOutcomeOf(users, team) != Removed ==> r == teams
    ensures DeleteOutcomeOf(users, team) == Removed ==>
      team !in r && forall x :: x != team ==> (x in r <==> x in teams)
  {
    FilterCount(teams, IsNot(team));
    if DeleteOutcomeOf(users, team) == Removed then Without(teams, team) else teams
  }

  /** The state the page keeps for its team tab. */
  class TeamRegistry {
    var teams: seq<string>

    constructor ()
      ensures teams == ["admin", "otp", "team"]
    {
      teams := DefaultTeams;
    }

    method AddTeam(team: string) returns (notice: Notice)
      modifies this
      ensures teams == TeamsAfterAdd(old(teams), team)
      ensures notice == AddNotice(AddOutcomeOf(old(teams), team))
    {
      if team !in teams {
        teams := teams + [team];
        notice := AddNotice(Added);
      } else {
        notice := AddNotice(AlreadyExists);
      }
    }

    method DeleteTeam(team: string, users: seq<UserRecord>) returns (notice: Notice)
      modifies this
      ensures teams == TeamsAfterDelete(old(teams), users, team)
      ensures notice == DeleteNotice(DeleteOutcomeOf(users, team))
    {
      if team in DefaultTeams {
        notice := DeleteNotice(DefaultTeam);
        return;
      }
      var usersInTeam := exists i :: 0 <= i < |users| && users[i].team == team;
      if usersInTeam {
        notice := DeleteNotice(InUse);
        return;
      }
      teams := Without(teams, team);
      notice := DeleteNotice(Removed);
    }
  }

  /** Adding a name already in the list changes nothing and reports it. */
  lemma AddDuplicateUnchanged(teams: seq<string>, team: string)
    requires team in teams
    ensures TeamsAfterAdd(teams, team) == teams
    ensures AddNotice(AddOutcomeOf(teams, team)) == Notice(Error, "Team already exists")
  {
  }

  /** The add guard keeps the team list free of duplicates. */
  lemma AddKeepsNoDuplicates(teams: seq<string>, team: string)
    requires NoDuplicates(teams)
    ensures NoDuplicates(TeamsAfterAdd(teams, team))
  {
    var r := TeamsAfterAdd(teams, team);
    if team !in teams {
      forall i, j | 0 <= i < j < |r| ensures r[i] != r[j] {
        if j == |teams| {
          assert r[i] == teams[i];
        } else {
          assert r[i] == teams[i] && r[j] == teams[j];
        }
      }
    }
  }

  /** The default teams are refused whoever uses them, and the list is left alone. */
  lemma DeleteDefaultRefused(teams: seq<string>, users: seq<UserRecord>, team: string)
    requires team == "admin" || team == "otp" || team == "team"
    ensures TeamsAfterDelete(teams, users, team) == teams
    ensures DeleteNotice(DeleteOutcomeOf(users, team)) == Notice(Error, "Cannot delete default teams")
  {
  }

  /** A team some user belongs to is refused, and the list is left alone. */
  lemma DeleteInUseRefused(teams: seq<string>, users: seq<UserRecord>, u: UserRecord)
    requires u in users && !IsDefaultTeam(u.team)
    ensures TeamsAfterDelete(teams, users, u.team) == teams
    ensures DeleteNotice(DeleteOutcomeOf(users, u.team)) == Notice(Error, "Cannot delete team with active users")
  {
    var i :| 0 <= i < |users| && users[i] == u;
    assert HasMembers(users, u.team);
  }

  /** A permitted delete removes every occurrence of the name and nothing else,
      keeping the order of the remaining teams. */
  lemma DeleteRemovesExactly(teams: seq<string>, users: seq<UserRecord>, team: string)
    requires !IsDefaultTeam(team) && !HasMembers(users, team)
    ensures var r := TeamsAfterDelete(teams, users, team);
      && team !in r
      && IsSubsequence(r, teams)
      && forall x :: x != team ==> multiset(r)[x] == multiset(teams)[x]
  {
    FilterCount(teams, IsNot(team));
    FilterIsSubsequence(teams, IsNot(team));
  }

  /** Deleting a name that is not in the list leaves the list as it is. */
  lemma {:induction false} WithoutAbsent(teams: seq<string>, team: string)
    requires team !in teams
    ensures Without(teams, team) == teams
  {
    FilterKeepsAll(teams, IsNot(team));
  }

  /** Adding a fresh name that is neither a default team nor in use, then
      deleting it, restores the original list. */
  lemma AddThenDeleteRestores(teams: seq<string>, users: seq<UserRecord>, team: string)
    requires team !in teams && !IsDefaultTeam(team) && !HasMembers(users, team)
    ensures TeamsAfterDelete(TeamsAfterAdd(teams, team), users, team) == teams
  {
    FilterAppend(teams, [team], IsNot(team));
    WithoutAbsent(teams, team);
    assert Filter([team], IsNot(team)) == [] by {
      assert [team][1..] == [];
    }
  }

  /** The payload of the create and update requests. */
  datatype UserPayload = UserPayload(
    username: string,
    password: Option<string>,
    role: string,
    team: string,
    expiration: int,
    isWebAdmin: bool)

  /** `{...values, isWebAdmin: values.isWebAdmin || false}`. */
  function WithWebAdminDefault(values: UserForm.SubmittedValues): (p: UserPayload)
    ensures p.isWebAdmin <==> values.isWebAdmin == Some(true)
    ensures p.username == values.username && p.password == values.password && p.role == values.role
    ensures p.team == values.team && p.expiration == values.expiration
  {
    UserPayload(values.username, values.password, values.role, values.team, values.expiration,
                values.isWebAdmin.GetOr(false))
  }

  /** Defaulting an already defaulted value changes nothing. */
  lemma WebAdminDefaultIdempotent(values: UserForm.SubmittedValues)
    ensures var p := WithWebAdminDefault(values);
      WithWebAdminDefault(values.(isWebAdmin := Some(p.isWebAdmin))) == p
  {
  }

  datatype UserRequest =
    | CreateUser(payload: UserPayload)
    | UpdateUser(id: string, payload: UserPayload)

  /** `onSubmit={editingUser ? handleEditUser : handleAddUser}`: the request
      the modal's submission turns into. */
  function SubmitRequest(editingUser: Option<UserRecord>, values: UserForm.SubmittedValues): (req: UserRequest)
    ensures req.CreateUser? <==> editingUser.None?
    ensures req.UpdateUser? ==> req.id == editingUser.value.id
    ensures req.payload.isWebAdmin <==> values.isWebAdmin == Some(true)
    ensures req.payload.username == values.username && req.payload.password == values.password
    ensures req.payload.role == values.role && req.payload.team == values.team
    ensures req.payload.expiration == values.expiration
  {
    if editingUser.Some? then UpdateUser(editingUser.value.id, WithWebAdminDefault(values))
    else CreateUser(WithWebAdminDefault(values))
  }
}
