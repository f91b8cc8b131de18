/** The login page's guard: an already signed-in user is sent on to the
    user list instead of seeing the form. */
module LoginPage {
  import opened Common
  import opened Router

  /** The signed-in user held by the session context, if any. */
  datatype SessionUser = SessionUser(username: string, token: Option<string>)

  /** `user?.token` is truthy. */
  predicate HasToken(user: Option<SessionUser>) {
    user.Some? && Truthy(user.value.token)
  }

  function LoginElement(user: Option<SessionUser>): (e: Element)
    ensures HasToken(user) ==> e == Navigate("/users", true)
    ensures !HasToken(user) ==> e == Render(LoginScreen)
  {
    if HasToken(user) then Navigate("/users", true) else Render(LoginScreen)
  }

  /** With no user, or a user without a token, the form is shown. */
  lemma NoTokenShowsForm(user: Option<SessionUser>)
    requires user.None? || !Truthy(user.value.token)
    ensures LoginElement(user) == Render(LoginScreen)
  {
  }
}
