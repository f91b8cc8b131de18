/** The login form: its field rules, and the classification of the login
    call's outcome in `onFinish`. */
module LoginForm {
  import opened Common
  import opened FormRules

  const UsernameRules: seq<Rule> :=
    [Required(true, "Please input your username!"), MinLength(3, "Username must be at least 3 characters!")]
  const PasswordRules: seq<Rule> :=
    [Required(true, "Please input your password!"), MinLength(6, "Password must be at least 6 characters!")]

  const RuleMessages: seq<string> :=
    ["Please input your username!", "Username must be at least 3 characters!",
     "Please input your password!", "Password must be at least 6 characters!"]

  /** The body the login endpoint returns; it is handed to the session store whole. */
  datatype LoginResponse = LoginResponse(username: Option<string>, token: Option<string>)

  /** How the awaited `login(username, password)` call ended. */
  datatype LoginCall =
    | Returned(response: LoginResponse)
    | FailedWithResponse(serverMessage: Option<string>)  // the error carries `error.response`
    | FailedWithoutResponse                              // no response: a transport failure

  /** What `onFinish` does: at most one call of the session store's `login`,
      and one notice. */
  datatype LoginEffect = LoginEffect(authLogin: Option<LoginResponse>, notice: Notice)

  /** The messages of failing rules, username first: at most one per field,
      and only messages the rules declare. */
  function FieldErrors(username: Option<string>, password: Option<string>): (errs: seq<string>)
    ensures |Errors(UsernameRules, username)| <= 1 && |Errors(PasswordRules, password)| <= 1
    ensures |errs| <= 2
    ensures forall m :: m in errs ==> m in RuleMessages
  {
    RequiredMinLength("Please input your username!", "Username must be at least 3 characters!", 3, username);
    RequiredMinLength("Please input your password!", "Password must be at least 6 characters!", 6, password);
    Errors(UsernameRules, username) + Errors(PasswordRules, password)
  }

  /** The form submits exactly when the username has at least 3 characters and the password at least 6. */
  lemma FieldErrorsEmptyIff(username: Option<string>, password: Option<string>)
    ensures FieldErrors(username, password) == [] <==>
      username.Some? && |username.value| >= 3 && password.Some? && |password.value| >= 6
  {
    RequiredMinLength("Please input your username!", "Username must be at least 3 characters!", 3, username);
    RequiredMinLength("Please input your password!", "Password must be at least 6 characters!", 6, password);
  }

  /** `onFinish`: a response with a truthy username logs in; every other
      outcome reports an error and does not log in. */
  function OnFinish(call: LoginCall): (e: LoginEffect)
    ensures e.authLogin.Some? <==> call.Returned? && Truthy(call.response.username)
    ensures e.authLogin.Some? ==> e.authLogin.value == call.response && e.notice == Notice(Success, "Login successful")
    ensures call.Returned? && !Truthy(call.response.username) ==> e.notice == Notice(Error, "Login failed")
    ensures call.FailedWithResponse? ==>
      e.notice == Notice(Error, if Truthy(call.serverMessage) then call.serverMessage.value else "Login failed")
    ensures call.FailedWithoutResponse? ==> e.notice == Notice(Error, "Network error, please try again")
  {
    match call
    case Returned(response) =>
      if Truthy(response.username) then LoginEffect(Some(response), Notice(Success, "Login successful"))
      else LoginEffect(None, Notice(Error, "Login failed"))
    case FailedWithResponse(serverMessage) =>
      LoginEffect(None, Notice(Error, OrDefault(serverMessage, "Login failed")))
    case FailedWithoutResponse =>
      LoginEffect(None, Notice(Error, "Network error, please try again"))
  }

  /** Submitting the form: antd runs `onFinish` only when every rule passes;
      otherwise nothing is sent and the rule messages are shown. */
  datatype SubmitOutcome = Blocked(errors: seq<string>) | Finished(effect: LoginEffect)

  function Submit(username: Option<string>, password: Option<string>, call: LoginCall): (o: SubmitOutcome)
    ensures o.Finished? <==> username.Some? && |username.value| >= 3 && password.Some? && |password.value| >= 6
    ensures o.Finished? ==> o.effect == OnFinish(call)
    ensures o.Blocked? ==> o.errors != []
  {
    FieldErrorsEmptyIff(username, password);
    var errs := FieldErrors(username, password);
    if errs == [] then Finished(OnFinish(call)) else Blocked(errs)
  }
}
