/** What a react-router route element evaluates to: a screen rendered in
    place, a `<Navigate>` redirect, or nothing when no route matches. */
module Router {

  datatype Screen = LoginScreen | UserManagementScreen

  datatype Element =
    | Render(screen: Screen)
    | Navigate(to: string, replace: bool)
    | Blank
}
