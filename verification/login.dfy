/** The credentials form: its state, its two submit validators and the events the rendered
    form can produce. The form performs no network call; an accepted submission hands the
    entered values to the callback its parent passed in. */
module Login {
  import opened Values
  import opened JsText
  import opened EmailPattern

  const RequiredSignIn: string := "Username and password are required."
  const RequiredSignUp: string := "All fields are required."
  const PasswordMismatch: string := "Passwords do not match."
  const InvalidEmail: string := "Invalid email address."

  /** The component's state hooks. `isLogin` selects the sign-in form (true) or the sign-up
      form (false); `error` is the alert text, hidden when empty. */
  datatype Form = Form(
    username: string,
    password: string,
    confirmPassword: string,
    email: string,
    error: string,
    isLogin: bool)

  const Initial: Form := Form("", "", "", "", "", true)

  /** What a validator decides: go ahead, or stop with the alert text. */
  datatype Verdict = Accept | Reject(message: string)

  /** The callback an accepted submission invokes, with the values exactly as entered. */
  datatype Call = OnLogin(username: string, password: string)
                | OnSignup(username: string, password: string, email: string)

  datatype Submitted = Submitted(form: Form, call: Option<Call>)

  /** The sign-in check: both fields must keep something after trimming. */
  function ValidateSignIn(username: string, password: string): (v: Verdict)
    ensures v.Accept? <==> !AllWhitespace(username) && !AllWhitespace(password)
    ensures v.Reject? ==> v.message == RequiredSignIn
  {
    if IsBlank(username) || IsBlank(password) then Reject(RequiredSignIn) else Accept
  }

  /** None of the four sign-up fields is empty after trimming. */
  predicate AllFilled(username: string, password: string, confirmPassword: string, email: string) {
    !AllWhitespace(username) && !AllWhitespace(password)
    && !AllWhitespace(email) && !AllWhitespace(confirmPassword)
  }

  /** The sign-up check: emptiness first, then the untrimmed password comparison, then the
      email pattern, decided by the scan `EmailTest`. Each message is reported exactly when
      every earlier check passed and its own check fails. */
  function ValidateSignUp(username: string, password: string, confirmPassword: string,
                          email: string): (v: Verdict)
    ensures v == Reject(RequiredSignUp)
            <==> !AllFilled(username, password, confirmPassword, email)
    ensures v == Reject(PasswordMismatch)
            <==> AllFilled(username, password, confirmPassword, email) && password != confirmPassword
    ensures v == Reject(InvalidEmail)
            <==> AllFilled(username, password, confirmPassword, email)
                 && password == confirmPassword && !EmailTest(email)
    ensures v == Accept
            <==> AllFilled(username, password, confirmPassword, email)
                 && password == confirmPassword && EmailTest(email)
  {
    if IsBlank(username) || IsBlank(password) || IsBlank(email) || IsBlank(confirmPassword) then
      Reject(RequiredSignUp)
    else if password != confirmPassword then
      Reject(PasswordMismatch)
    else if !EmailTest(email) then
      Reject(InvalidEmail)
    else
      Accept
  }

  /** Submitting the sign-in form. Only the alert text changes. An accepted submission
      clears it and calls `onLogin` with the untrimmed username and password; a rejected
      one shows the message and calls nothing. */
  function SubmitSignIn(f: Form): (r: Submitted)
    ensures r.form == f.(error := r.form.error)
    ensures r.call.Some? <==> !AllWhitespace(f.username) && !AllWhitespace(f.password)
    ensures r.call.Some? ==> r.form.error == "" && r.call.value == OnLogin(f.username, f.password)
    ensures r.call.None? ==> r.form.error == RequiredSignIn
  {
    match ValidateSignIn(f.username, f.password)
    case Accept => Submitted(f.(error := ""), Some(OnLogin(f.username, f.password)))
    case Reject(m) => Submitted(f.(error := m), None)
  }

  /** Submitting the sign-up form. Only the alert text changes. An accepted submission
      clears it and calls `onSignup` with username, password and email; a rejected one shows
      the first failing check's message and calls nothing. */
  function SubmitSignUp(f: Form): (r: Submitted)
    ensures r.form == f.(error := r.form.error)
    ensures r.call.Some? <==> ValidateSignUp(f.username, f.password, f.confirmPassword, f.email) == Accept
    ensures r.call.Some? ==> r.form.error == "" && r.call.value == OnSignup(f.username, f.password, f.email)
    ensures r.call.None? ==> r.form.error == ValidateSignUp(f.username, f.password, f.confirmPassword, f.email).message
  {
    match ValidateSignUp(f.username, f.password, f.confirmPassword, f.email)
    case Accept => Submitted(f.(error := ""), Some(OnSignup(f.username, f.password, f.email)))
    case Reject(m) => Submitted(f.(error := m), None)
  }

  /** What the user can do on the form: type into a field, follow the mode link, submit. */
  datatype Event =
    | TypeUsername(text: string)
    | TypePassword(text: string)
    | TypeConfirmPassword(text: string)
    | TypeEmail(text: string)
    | ShowSignUp
    | ShowSignIn
    | Submit

  /** Which controls the current mode renders: the email and confirmation inputs and the
      "Sign in" link only on the sign-up form, the "Sign up" link only on the sign-in form. */
  predicate Shown(f: Form, ev: Event) {
    match ev
    case TypeConfirmPassword(_) => !f.isLogin
    case TypeEmail(_) => !f.isLogin
    case ShowSignIn => !f.isLogin
    case ShowSignUp => f.isLogin
    case _ => true
  }

  /** One event on the form. A control that is not rendered cannot fire; typing changes
      only the field typed into, a mode link changes only the mode, and only a submission
      can call back, through the handler bound to the current mode's form. */
  function Apply(f: Form, ev: Event): (r: Submitted)
    ensures !Shown(f, ev) ==> r == Submitted(f, None)
    ensures Shown(f, ev) && ev.TypeUsername? ==> r == Submitted(f.(username := ev.text), None)
    ensures Shown(f, ev) && ev.TypePassword? ==> r == Submitted(f.(password := ev.text), None)
    ensures Shown(f, ev) && ev.TypeConfirmPassword? ==> r == Submitted(f.(confirmPassword := ev.text), None)
    ensures Shown(f, ev) && ev.TypeEmail? ==> r == Submitted(f.(email := ev.text), None)
    ensures Shown(f, ev) && (ev == ShowSignUp || ev == ShowSignIn) ==>
              r == Submitted(f.(isLogin := ev == ShowSignIn), None)
    ensures ev == Submit ==> r == (if f.isLogin then SubmitSignIn(f) else SubmitSignUp(f))
    ensures r.call.Some? ==> ev == Submit
  {
    if !Shown(f, ev) then Submitted(f, None)
    else
      match ev
      case TypeUsername(t) => Submitted(f.(username := t), None)
      case TypePassword(t) => Submitted(f.(password := t), None)
      case TypeConfirmPassword(t) => Submitted(f.(confirmPassword := t), None)
      case TypeEmail(t) => Submitted(f.(email := t), None)
      case ShowSignUp => Submitted(f.(isLogin := false), None)
      case ShowSignIn => Submitted(f.(isLogin := true), None)
      case Submit => if f.isLogin then SubmitSignIn(f) else SubmitSignUp(f)
  }

  /** The entered values and the alert text agree. */
  predicate SameEntries(f: Form, g: Form) {
    && f.username == g.username && f.password == g.password
    && f.confirmPassword == g.confirmPassword && f.email == g.email
    && f.error == g.error
  }

  /** Following either mode link switches the mode and nothing else: the entered values and
      the alert text survive, and no callback runs. */
  lemma ToggleKeepsEntries(f: Form, ev: Event)
    requires ev == ShowSignUp || ev == ShowSignIn
    ensures var r := Apply(f, ev);
            SameEntries(f, r.form) && r.call.None?
            && r.form.isLogin == (if Shown(f, ev) then ev == ShowSignIn else f.isLogin)
  {
  }

  /** The only way the form calls `onLogin` is an accepted submission of the sign-in form,
      and then it passes the values as entered. */
  lemma OnLoginOnlyFromSignIn(f: Form, ev: Event, u: string, p: string)
    ensures Apply(f, ev).call == Some(OnLogin(u, p))
            <==> ev == Submit && f.isLogin && ValidateSignIn(f.username, f.password) == Accept
                 && u == f.username && p == f.password
  {
  }

  /** Concrete cases of both validators: for sign-up, a confirmation differing only by a
      trailing space is a mismatch, and an email without a dot after the `@` part is
      reported only once the passwords agree; for sign-in, an empty password is rejected
      and two non-blank fields are accepted. */
  lemma ValidatorExamples()
    ensures ValidateSignUp("alice", "pw", "pw ", "a@b.c") == Reject(PasswordMismatch)
    ensures ValidateSignUp("alice", "pw", "pw", "a@b") == Reject(InvalidEmail)
    ensures ValidateSignUp("alice", "pw", "pw", "a@b.c") == Accept
    ensures ValidateSignUp("alice", " ", "x", "a@b") == Reject(RequiredSignUp)
    ensures ValidateSignIn("alice", "") == Reject(RequiredSignIn)
    ensures ValidateSignIn("alice", "secret") == Accept
  {
    Examples();
    EmailTestIsRegex("a@b");
    EmailTestIsRegex("a@b.c");
    assert !AllWhitespace("alice") by { assert !IsWhitespace("alice"[0]); }
    assert !AllWhitespace("pw") by { assert !IsWhitespace("pw"[0]); }
    assert !AllWhitespace("pw ") by { assert !IsWhitespace("pw "[0]); }
    assert !AllWhitespace("a@b.c") by { assert !IsWhitespace("a@b.c"[0]); }
    assert !AllWhitespace("a@b") by { assert !IsWhitespace("a@b"[0]); }
    assert !AllWhitespace("secret") by { assert !IsWhitespace("secret"[0]); }
    assert AllWhitespace(" ");
    assert "pw" != "pw " by { assert |"pw"| != |"pw "|; }
  }
}
