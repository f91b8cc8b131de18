/** The team tab: the new-team input with its acceptance guard, and the
    delete control. The tab hands accepted names to the page's
    `handleAddTeam` and delete confirmations to its `handleDeleteTeam`. */
module TeamManagement {
  import opened Common
  import opened Records
  import opened Text
  import opened UserManagement

  const InvalidTeamName: string := "Team name is invalid or already exists"

  /** `newTeam.trim() && !teams.includes(newTeam)`: the duplicate check looks
      at the text as typed, not at its trimmed form. A name is accepted only
      when it has a non-whitespace character and the untrimmed text is not
      already a team; whitespace-only input is refused. */
  function AcceptsName(text: string, teams: seq<string>): (accepted: bool)
    ensures accepted <==> !AllWhitespace(text) && text !in teams
  {
    Trim(text) != "" && text !in teams
  }

  /** An accepted name is handed on trimmed: no surrounding whitespace and not empty. */
  lemma AcceptedNameIsTrimmed(text: string, teams: seq<string>)
    requires AcceptsName(text, teams)
    ensures Trim(text) != [] && !IsWhitespace(Trim(text)[0]) && !IsWhitespace(Trim(text)[|Trim(text)| - 1])
  {
  }

  /** The delete button and its confirmation are disabled for these names. */
  function DeleteDisabled(team: string): (disabled: bool)
    ensures disabled <==> team == "admin" || team == "superadmin"
  {
    team in ["admin", "superadmin"]
  }

  /** The control's set and the page's protected set share only `admin`:
      `otp` and `team` can be clicked but are refused by the page, and a
      `superadmin` team could never be deleted from the tab although the page
      would allow it. */
  lemma ProtectionSetsDiffer()
    ensures forall t :: DeleteDisabled(t) && IsDefaultTeam(t) <==> t == "admin"
    ensures !DeleteDisabled("otp") && IsDefaultTeam("otp")
    ensures !DeleteDisabled("team") && IsDefaultTeam("team")
    ensures DeleteDisabled("superadmin") && !IsDefaultTeam("superadmin")
  {
  }

  /** What a click on a team's delete control leads to: nothing when the
      control is disabled, otherwise the page's decision. */
  function DeleteClick(users: seq<UserRecord>, team: string): (o: Option<DeleteOutcome>)
    ensures o.None? <==> team == "admin" || team == "superadmin"
    ensures o.Some? ==> o.value == DeleteOutcomeOf(users, team)
  {
    if DeleteDisabled(team) then None else Some(DeleteOutcomeOf(users, team))
  }

  /** Through the tab, a team can be removed only when it is none of
      `admin`, `otp`, `team`, `superadmin` and no user belongs to it. */
  lemma DeleteClickRemovesIff(users: seq<UserRecord>, team: string)
    ensures DeleteClick(users, team) == Some(Removed) <==>
      team !in ["admin", "otp", "team", "superadmin"] && !HasMembers(users, team)
  {
  }

  /** The text box of the team tab. */
  class TeamInput {
    var newTeam: string

    constructor ()
      ensures newTeam == ""
    {
      newTeam := "";
    }

    /** The input's `onChange`. */
    method SetText(text: string)
      modifies this
      ensures newTeam == text
    {
      newTeam := text;
    }

    /** The tab's `handleAddTeam`: an accepted name is trimmed and handed to
        the page, and the input is cleared whatever the page then decides; a
        refused name leaves both the input and the team list alone. */
    method HandleAddTeam(registry: TeamRegistry) returns (notice: Notice)
      modifies this, registry
      ensures AcceptsName(old(newTeam), old(registry.teams)) ==>
        && newTeam == ""
        && registry.teams == TeamsAfterAdd(old(registry.teams), Trim(old(newTeam)))
        && notice == AddNotice(AddOutcomeOf(old(registry.teams), Trim(old(newTeam))))
      ensures !AcceptsName(old(newTeam), old(registry.teams)) ==>
        && newTeam == old(newTeam)
        && registry.teams == old(registry.teams)
        && notice == Notice(Error, InvalidTeamName)
    {
      if Trim(newTeam) != "" && newTeam !in registry.teams {
        notice := registry.AddTeam(Trim(newTeam));
        newTeam := "";
      } else {
        notice := Notice(Error, InvalidTeamName);
      }
    }
  }

  /** The tab and the page together on one typed name. */
  function TeamsAfterInput(text: string, teams: seq<string>): (r: seq<string>)
    ensures !AcceptsName(text, teams) ==> r == teams
    ensures forall x :: x in r <==> x in teams || (AcceptsName(text, teams) && x == Trim(text))
  {
    if AcceptsName(text, teams) then TeamsAfterAdd(teams, Trim(text)) else teams
  }

  /** Whatever is typed, the team list stays free of duplicates: the page's
      exact check catches what the tab's untrimmed check lets through. */
  lemma InputKeepsNoDuplicates(text: string, teams: seq<string>)
    requires NoDuplicates(teams)
    ensures NoDuplicates(TeamsAfterInput(text, teams))
  {
    if AcceptsName(text, teams) {
      AddKeepsNoDuplicates(teams, Trim(text));
    }
  }

  /** `" otp"` passes the tab's check although `otp` is a team; the page then
      refuses the trimmed `otp`, so the list is unchanged while the input has
      already been cleared and the page reports "Team already exists". */
  lemma PaddedDuplicatePassesInputCheck()
    ensures AcceptsName(" otp", DefaultTeams)
    ensures Trim(" otp") == "otp"
    ensures TeamsAfterInput(" otp", DefaultTeams) == DefaultTeams
    ensures AddNotice(AddOutcomeOf(DefaultTeams, Trim(" otp"))) == Notice(Error, "Team already exists")
  {
    var s := " otp";
    assert IsWhitespace(s[0]) && !IsWhitespace(s[1]);
    assert LeadingWhitespace(s[1..]) == 0;
    assert LeadingWhitespace(s) == 1;
    var t := s[1..];
    assert t == "otp";
    assert TrailingWhitespace(t) == 0;
    assert t[..3] == "otp";
    assert Trim(s) == "otp";
  }
}
