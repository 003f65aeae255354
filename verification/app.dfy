/** The application's session gate: one flag saying whether the user is logged in, which
    decides whether the credentials form or the dashboard is shown. */
module App {

  datatype Session = Session(loggedIn: bool)

  const Initial: Session := Session(false)

  /** The two screens the application can show. */
  datatype View = LoginView | DashboardView

  /** `handleLogin`: no check of any kind, every call logs in. */
  function HandleLogin(s: Session, username: string, password: string): (r: Session)
    ensures r.loggedIn
  {
    Session(true)
  }

  /** `handleLogout`: every call logs out. */
  function HandleLogout(s: Session): (r: Session)
    ensures !r.loggedIn
  {
    Session(false)
  }

  /** The rendered screen: the dashboard exactly when logged in. */
  function ViewOf(s: Session): (v: View)
    ensures v == DashboardView <==> s.loggedIn
    ensures v == LoginView <==> !s.loggedIn
  {
    if s.loggedIn then DashboardView else LoginView
  }

  /** Logging in and then out, from either state and with any credentials, comes back to
      the state the application starts in, which shows the credentials form. */
  lemma LoginThenLogout(s: Session, username: string, password: string)
    ensures HandleLogout(HandleLogin(s, username, password)) == Initial
    ensures ViewOf(Initial) == LoginView
    ensures ViewOf(HandleLogin(s, username, password)) == DashboardView
  {
  }
}
