/** The add/edit user modal: its field rules as a validator, the value
    transform applied on "Save", and the prefill/reset rule run whenever the
    modal opens or the record being edited changes. */
module UserForm {
  import opened Common
  import opened Records
  import opened FormRules
  import Text

  const DayMs: int := 86_400_000

  const UsernameRules: seq<Rule> :=
    [Required(true, "Please input username!"), MinLength(3, "Username must be at least 3 characters!")]

  /** The password rules; the field is only rendered when creating, so the
      `required: !initialValues` flag is always on where it applies. */
  function PasswordRules(initialValues: Option<UserRecord>): seq<Rule> {
    [Required(initialValues.None?, "Please input password!"), MinLength(6, "Password must be at least 6 characters!")]
  }

  const RoleRules: seq<Rule> := [Required(true, "Please select role!")]
  const TeamRules: seq<Rule> := [Required(true, "Please select team!")]
  const ExpirationRequired: string := "Please select expiration date!"

  /** The choices of the role select. The team select offers the current team list. */
  const RoleOptions: seq<string> := ["admin", "user"]

  /** The values the form's fields hold; an absent value is an untouched or cleared field. */
  datatype FormState = FormState(
    username: Option<string>,
    password: Option<string>,
    role: Option<string>,
    team: Option<string>,
    expiration: Option<int>,
    isWebAdmin: Option<bool>)

  datatype FieldError = FieldError(field: string, message: string)

  /** What `onSubmit` receives: the validated values, with `expiration`
      converted from a dayjs value to a Date for the same instant. */
  datatype SubmittedValues = SubmittedValues(
    username: string,
    password: Option<string>,
    role: string,
    team: string,
    expiration: int,
    isWebAdmin: Option<bool>)

  datatype OkOutcome = Submit(values: SubmittedValues) | Reject(errors: seq<FieldError>)

  /** The modal's title. */
  function Title(initialValues: Option<UserRecord>): (t: string)
    ensures t == "Edit User" <==> initialValues.Some?
    ensures t == "Add User" <==> initialValues.None?
  {
    if initialValues.Some? then "Edit User" else "Add User"
  }

  /** The expiration field's `initialValue`: 1000 days after `now`. */
  function DefaultExpiration(now: int): (t: int)
    ensures t > now && t - now == 1000 * DayMs
  {
    now + 1000 * DayMs
  }

  /** The date picker's `disabledDate`: a day is disabled when it lies before
      `endOfToday` (dayjs's `endOf('day')` of the current time). */
  function DateDisabled(current: Option<int>, endOfToday: int): (disabled: bool)
    ensures disabled <==> current.Some? && current.value < endOfToday
  {
    current.Some? && current.value < endOfToday
  }

  /** Selectable dates are closed upwards: a date after a selectable one is selectable too. */
  lemma LaterDateSelectable(d: int, later: int, endOfToday: int)
    requires !DateDisabled(Some(d), endOfToday) && d <= later
    ensures !DateDisabled(Some(later), endOfToday)
  {
  }

  /** The default expiration is a selectable date. */
  lemma DefaultExpirationSelectable(now: int, endOfToday: int)
    requires now <= endOfToday < now + DayMs
    ensures !DateDisabled(Some(DefaultExpiration(now)), endOfToday)
  {
  }

  /** `form.resetFields()`: every field empty except the expiration default,
      so a reset form cannot be saved until the fields are filled in. */
  function ResetState(now: int): (f: FormState)
    ensures f.expiration == Some(DefaultExpiration(now))
    ensures forall initialValues :: FieldErrors(f, initialValues) != []
  {
    FormState(None, None, None, None, Some(DefaultExpiration(now)), None)
  }

  /** The effect on `[visible, initialValues]`: prefill from the record being
      edited (a missing expiration becomes empty), or reset. */
  function PrefilledState(visible: bool, initialValues: Option<UserRecord>, now: int): (f: FormState)
    ensures visible && initialValues.Some? ==>
      var u := initialValues.value;
      f == FormState(Some(u.username), None, Some(u.role), Some(u.team), u.expiration, Some(u.isWebAdmin))
    ensures !(visible && initialValues.Some?) ==> f == ResetState(now)
  {
    if visible && initialValues.Some? then
      var u := initialValues.value;
      FormState(Some(u.username), None, Some(u.role), Some(u.team),
                if u.expiration.Some? then Some(u.expiration.value) else None, Some(u.isWebAdmin))
    else
      ResetState(now)
  }

  function Tagged(field: string, messages: seq<string>): (errs: seq<FieldError>)
    ensures |errs| == |messages|
    ensures forall e :: e in errs ==> e.field == field
  {
    seq(|messages|, i requires 0 <= i < |messages| => FieldError(field, messages[i]))
  }

  /** Every rule failure of the registered fields, field by field in form order. */
  function FieldErrors(state: FormState, initialValues: Option<UserRecord>): (errs: seq<FieldError>)
    ensures forall e :: e in errs ==> e.field in ["username", "password", "role", "team", "expiration"]
    ensures initialValues.Some? ==> forall e :: e in errs ==> e.field != "password"
  {
    Tagged("username", Errors(UsernameRules, state.username))
    + (if initialValues.None? then Tagged("password", Errors(PasswordRules(initialValues), state.password)) else [])
    + Tagged("role", Errors(RoleRules, state.role))
    + Tagged("team", Errors(TeamRules, state.team))
    + (if state.expiration.None? then [FieldError("expiration", ExpirationRequired)] else [])
  }

  /** The rules of one required select field accept exactly a non-empty choice. */
  lemma RequiredOnly(message: string, v: Option<string>)
    ensures Errors([Required(true, message)], v) == [] <==> v.Some? && v.value != ""
  {
    assert [Required(true, message)][1..] == [];
  }

  /** The form's fields pass validation exactly when the username has at least
      3 characters, the password (when creating) at least 6, a role and a team
      are chosen and an expiration is set. */
  lemma FieldErrorsEmptyIff(state: FormState, initialValues: Option<UserRecord>)
    ensures FieldErrors(state, initialValues) == [] <==>
      && state.username.Some? && |state.username.value| >= 3
      && (initialValues.None? ==> state.password.Some? && |state.password.value| >= 6)
      && state.role.Some? && state.role.value != ""
      && state.team.Some? && state.team.value != ""
      && state.expiration.Some?
  {
    RequiredMinLength("Please input username!", "Username must be at least 3 characters!", 3, state.username);
    if initialValues.None? {
      RequiredMinLength("Please input password!", "Password must be at least 6 characters!", 6, state.password);
    }
    RequiredOnly("Please select role!", state.role);
    RequiredOnly("Please select team!", state.team);
  }

  /** "Save": validate the fields; on success hand `onSubmit` the validated
      values with the expiration as a Date, otherwise report the failures. */
  function OnOk(state: FormState, initialValues: Option<UserRecord>): (o: OkOutcome)
    ensures o.Submit? <==>
      && state.username.Some? && |state.username.value| >= 3
      && (initialValues.None? ==> state.password.Some? && |state.password.value| >= 6)
      && state.role.Some? && state.role.value != ""
      && state.team.Some? && state.team.value != ""
      && state.expiration.Some?
    ensures o.Submit? ==>
      && o.values.username == state.username.value
      && o.values.password == (if initialValues.None? then state.password else None)
      && o.values.role == state.role.value
      && o.values.team == state.team.value
      && o.values.expiration == state.expiration.value
      && o.values.isWebAdmin == state.isWebAdmin
    ensures o.Reject? ==> o.errors != []
  {
    FieldErrorsEmptyIff(state, initialValues);
    var errs := FieldErrors(state, initialValues);
    if errs == [] then
      Submit(SubmittedValues(
        state.username.value,
        if initialValues.None? then state.password else None,
        state.role.value,
        state.team.value,
        state.expiration.value,
        state.isWebAdmin))
    else
      Reject(errs)
  }

  /** After "Save" the form is reset when the values were submitted, and kept otherwise. */
  function StateAfterOk(state: FormState, o: OkOutcome, now: int): (next: FormState)
    ensures o.Submit? ==> next == ResetState(now)
    ensures o.Reject? ==> next == state
  {
    if o.Submit? then ResetState(now) else state
  }

  /** Opening the edit modal on a complete record and saving without changes
      submits that record's own values, whatever its role: the role select's
      options are not a validation rule, so a prefilled `superadmin` passes. */
  lemma {:induction false} EditUnchangedResubmits(u: UserRecord, now: int)
    requires |u.username| >= 3 && u.role != "" && u.team != "" && u.expiration.Some?
    ensures OnOk(PrefilledState(true, Some(u), now), Some(u))
      == Submit(SubmittedValues(u.username, None, u.role, u.team, u.expiration.value, Some(u.isWebAdmin)))
  {
    var f := PrefilledState(true, Some(u), now);
    assert f == FormState(Some(u.username), None, Some(u.role), Some(u.team), u.expiration, Some(u.isWebAdmin));
  }

  /** Editing a record that has no expiration cannot be saved untouched. */
  lemma EditWithoutExpirationRejected(u: UserRecord, now: int)
    requires u.expiration.None?
    ensures OnOk(PrefilledState(true, Some(u), now), Some(u)).Reject?
  {
  }

  /** The team select's `filterOption`: a case-insensitive substring search on the label. */
  function TeamOptionShown(optionLabel: string, input: string): (shown: bool)
    ensures shown <==> exists i :: Text.OccursAt(Text.ToLower(optionLabel), Text.ToLower(input), i)
  {
    Text.ContainsIff(Text.ToLower(optionLabel), Text.ToLower(input));
    Text.Contains(Text.ToLower(optionLabel), Text.ToLower(input))
  }

  /** An empty search shows every team option. */
  lemma EmptySearchShowsAllTeams(optionLabel: string)
    ensures TeamOptionShown(optionLabel, "")
  {
    assert Text.OccursAt(Text.ToLower(optionLabel), Text.ToLower(""), 0);
  }
}
