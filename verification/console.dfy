/** The whole console: the session gate together with whichever child it renders. Switching
    between the credentials form and the dashboard unmounts one component and mounts the
    other, so the newly shown component always starts from its initial state. */
module Console {
  import opened JsText
  import Login
  import Dashboard
  import App

  /** The gate, the form, and the events the mounted dashboard has received since it was
      mounted; the dashboard's state is what those events make of its initial state. */
  datatype AppState = AppState(session: App.Session, form: Login.Form, dashEvents: seq<Dashboard.Event>)

  const Initial: AppState := AppState(App.Initial, Login.Initial, [])

  /** The state of the mounted dashboard. */
  function Dash(c: AppState): Dashboard.State {
    Dashboard.Run(Dashboard.Initial, c.dashEvents)
  }

  /** What the user can do: act on the credentials form, act on the dashboard, or press the
      dashboard's logout button. */
  datatype Event = OnForm(formEvent: Login.Event) | OnDashboard(dashEvent: Dashboard.Event) | ClickLogout

  /** One event. Events aimed at the screen that is not shown have no effect. The form's
      `onLogin` is the gate's `handleLogin`; the gate passes no `onSignup`, so an accepted
      sign-up leaves the session as it is. */
  function Step(c: AppState, ev: Event): (r: AppState)
    ensures r.session.loggedIn != c.session.loggedIn ==>
              (ev.OnForm? && !c.session.loggedIn) || (ev.ClickLogout? && c.session.loggedIn)
    ensures !c.session.loggedIn && r.session.loggedIn ==> r.dashEvents == []
    ensures c.session.loggedIn && !r.session.loggedIn ==> r.form == Login.Initial
    ensures c.session.loggedIn && ev.ClickLogout? ==> !r.session.loggedIn
  {
    match ev
    case OnForm(e) =>
      if c.session.loggedIn then c
      else
        var s := Login.Apply(c.form, e);
        if s.call.Some? && s.call.value.OnLogin? then
          AppState(App.HandleLogin(c.session, s.call.value.username, s.call.value.password), s.form, [])
        else c.(form := s.form)
    case OnDashboard(e) =>
      if c.session.loggedIn then c.(dashEvents := c.dashEvents + [e]) else c
    case ClickLogout =>
      if c.session.loggedIn then AppState(App.HandleLogout(c.session), Login.Initial, c.dashEvents) else c
  }

  /** Logging in mounts a fresh dashboard: its state is the dashboard's initial state. */
  lemma LoginMountsFreshDashboard(c: AppState, ev: Event)
    ensures !c.session.loggedIn && Step(c, ev).session.loggedIn ==> Dash(Step(c, ev)) == Dashboard.Initial
  {
  }

  /** While logged in, a dashboard event is dispatched on the mounted dashboard's current
      state and nothing else changes; while logged out it is ignored. */
  lemma DashboardEventDispatches(c: AppState, e: Dashboard.Event)
    ensures var r := Step(c, OnDashboard(e));
            && r.session == c.session && r.form == c.form
            && Dash(r) == (if c.session.loggedIn then Dashboard.Dispatch(Dash(c), e).next else Dash(c))
  {
    Dashboard.RunAppend(Dashboard.Initial, c.dashEvents, e);
  }

  /** The state after a sequence of events under the step function `step`, built from the
      last event backwards so that `Replay(step, c, evs[..i])` is the state in which `evs[i]`
      happens. */
  function Replay(step: (AppState, Event) -> AppState, c: AppState, evs: seq<Event>): AppState
    decreases |evs|
  {
    if |evs| == 0 then c else step(Replay(step, c, evs[..|evs| - 1]), evs[|evs| - 1])
  }

  /** The state after a sequence of events. */
  function Run(c: AppState, evs: seq<Event>): AppState {
    Replay(Step, c, evs)
  }

  /** `ev` is a submission of the sign-in form, on the login screen, that passes the sign-in
      validation. */
  predicate PassesSignIn(c: AppState, ev: Event) {
    && !c.session.loggedIn && ev == OnForm(Login.Submit) && c.form.isLogin
    && !AllWhitespace(c.form.username) && !AllWhitespace(c.form.password)
  }

  /** Under `step`, the only way from the login screen to the dashboard is a passing sign-in. */
  ghost predicate LoginsPass(step: (AppState, Event) -> AppState) {
    forall d: AppState, e: Event :: !d.session.loggedIn && step(d, e).session.loggedIn ==> PassesSignIn(d, e)
  }

  /** The only step from the login screen to the dashboard is a sign-in submission that
      passes validation. */
  lemma LoginStepPasses(c: AppState, ev: Event)
    ensures !c.session.loggedIn && Step(c, ev).session.loggedIn ==> PassesSignIn(c, ev)
  {
    if !c.session.loggedIn && Step(c, ev).session.loggedIn {
      var e := ev.formEvent;
      var s := Login.Apply(c.form, e);
      assert s.call.Some? && s.call.value.OnLogin?;
      Login.OnLoginOnlyFromSignIn(c.form, e, s.call.value.username, s.call.value.password);
      assert Login.ValidateSignIn(c.form.username, c.form.password) == Login.Accept;
    }
  }

  /** A passing sign-in submission on the login screen, from any state, logs in. */
  lemma PassingSignInLogsIn(c: AppState)
    ensures PassesSignIn(c, OnForm(Login.Submit)) ==> Step(c, OnForm(Login.Submit)).session.loggedIn
  {
    if PassesSignIn(c, OnForm(Login.Submit)) {
      var s := Login.SubmitSignIn(c.form);
      assert Login.Apply(c.form, Login.Submit) == s;
      assert s.call.Some? && s.call.value == Login.OnLogin(c.form.username, c.form.password);
      assert Step(c, OnForm(Login.Submit)) == AppState(App.HandleLogin(c.session, c.form.username, c.form.password), s.form, []);
    }
  }

  /** From the login screen, a step reaches the dashboard exactly when it is a sign-in
      submission that passes validation. */
  lemma LoginStepNeedsSignIn(c: AppState, ev: Event)
    ensures !c.session.loggedIn ==> (Step(c, ev).session.loggedIn <==> PassesSignIn(c, ev))
  {
    LoginStepPasses(c, ev);
    PassingSignInLogsIn(c);
  }

  /** The console's own step lets nobody in without a passing sign-in. */
  lemma StepLoginsPass()
    ensures LoginsPass(Step)
  {
    forall d: AppState, e: Event | !d.session.loggedIn && Step(d, e).session.loggedIn
      ensures PassesSignIn(d, e)
    {
      LoginStepPasses(d, e);
    }
  }

  /** For any step function that lets nobody in without a passing sign-in, a replay from the
      login screen that ends on the dashboard contains a passing sign-in, in the state the
      replay had reached just before it. */
  lemma {:induction false} ReplayNeedsSignIn(step: (AppState, Event) -> AppState, c: AppState, evs: seq<Event>)
    requires LoginsPass(step)
    requires !c.session.loggedIn && Replay(step, c, evs).session.loggedIn
    ensures exists i :: 0 <= i < |evs| && PassesSignIn(Replay(step, c, evs[..i]), evs[i])
    decreases |evs|
  {
    var n := |evs|;
    var front := evs[..n - 1];
    var prev := Replay(step, c, front);
    if prev.session.loggedIn {
      ReplayNeedsSignIn(step, c, front);
      var i :| 0 <= i < |front| && PassesSignIn(Replay(step, c, front[..i]), front[i]);
      assert front[..i] == evs[..i];
    } else {
      assert PassesSignIn(Replay(step, c, evs[..n - 1]), evs[n - 1]);
    }
  }

  /** Event `i` of `evs` is a passing sign-in, in the state the run from `c` had reached
      just before it. */
  predicate SignedInAt(c: AppState, evs: seq<Event>, i: int) {
    0 <= i < |evs| && PassesSignIn(Run(c, evs[..i]), evs[i])
  }

  /** Reaching the dashboard requires passing sign-in validation: whenever a run from a
      logged-out state ends logged in, some event of it was a sign-in submission that
      passed, in the state the run had reached at that point. */
  lemma DashboardNeedsSignIn(c: AppState, evs: seq<Event>)
    ensures !c.session.loggedIn && Run(c, evs).session.loggedIn ==> exists i :: SignedInAt(c, evs, i)
  {
    if !c.session.loggedIn && Run(c, evs).session.loggedIn {
      StepLoginsPass();
      ReplayNeedsSignIn(Step, c, evs);
      var i :| 0 <= i < |evs| && PassesSignIn(Replay(Step, c, evs[..i]), evs[i]);
      assert SignedInAt(c, evs, i);
    }
  }

  /** The application starts on the login screen, so every path to the dashboard goes
      through a passing sign-in. */
  lemma FromStartDashboardNeedsSignIn(evs: seq<Event>)
    ensures App.ViewOf(Run(Initial, evs).session) == App.DashboardView ==> exists i :: SignedInAt(Initial, evs, i)
  {
    DashboardNeedsSignIn(Initial, evs);
  }

  /** Submitting the sign-up form never changes the session, whatever it contains. */
  lemma SignUpNeverLogsIn(c: AppState)
    requires !c.form.isLogin
    ensures Step(c, OnForm(Login.Submit)).session == c.session
  {
  }

  /** Submitting the sign-in form with a password of only whitespace, e.g. ("alice", " "),
      keeps the login screen and shows the error. */
  lemma BlankPasswordStaysOut(c: AppState)
    requires !c.session.loggedIn && c.form.isLogin && AllWhitespace(c.form.password)
    ensures var r := Step(c, OnForm(Login.Submit));
            !r.session.loggedIn && r.form.error == Login.RequiredSignIn
  {
    var after := Login.SubmitSignIn(c.form);
    assert after.call.None?;
  }

  /** From application start, typing a username and a password that are not blank and
      submitting reaches a freshly mounted dashboard; e.g. ("alice", "secret"). */
  lemma SignInReachesDashboard(u: string, p: string)
    requires !AllWhitespace(u) && !AllWhitespace(p)
    ensures var c := Run(Initial, [OnForm(Login.TypeUsername(u)), OnForm(Login.TypePassword(p)),
                                   OnForm(Login.Submit)]);
            c.session.loggedIn && Dash(c) == Dashboard.Initial
  {
    var evs := [OnForm(Login.TypeUsername(u)), OnForm(Login.TypePassword(p)), OnForm(Login.Submit)];
    var typed := Initial.(form := Initial.form.(username := u));
    var both := typed.(form := typed.form.(password := p));
    assert evs[..0] == [] && evs[..1][..0] == [];
    assert evs[..2][..1] == evs[..1];
    assert Replay(Step, Initial, evs[..1]) == typed;
    assert Replay(Step, Initial, evs[..2]) == both;
    assert Login.ValidateSignIn(u, p) == Login.Accept;
    assert Replay(Step, Initial, evs) == Step(both, OnForm(Login.Submit));
  }
}
