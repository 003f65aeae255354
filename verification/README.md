# ML workflow console: a Dafny model of its client-side logic

The console is a React front end for a machine-learning backend. A user signs in on a
credentials form, then works on a dashboard with four tabs. On the dashboard they upload a
dataset, apply column transformations, train models with editable parameters, and "freeze"
the trained models. All real work happens on the backend. This model covers the three
pieces of client-side logic that can be stated precisely:

- **Credentials form** (`Login`, with `JsText` and `EmailPattern`). The form has sign-in and
  sign-up modes. The sign-in validator rejects a username or password that is blank after
  `trim()`. The sign-up validator runs three checks in a fixed order:
  1. none of the four fields is blank;
  2. the password equals its confirmation, compared untrimmed;
  3. the email passes the unanchored pattern `/\S+@\S+\.\S+/`.

  `trim()` and `\s` are modelled on the ECMAScript whitespace set. The pattern has an
  existential regex meaning (`RegexTest`), a simpler two-position shape (`EmailShape`), and a
  one-pass scanner (`EmailTest`), all proved to agree. The validator calls the scanner.
- **Dashboard** (`Dashboard`). It is a record of the component's state hooks. Each handler is
  a pure transition that takes the network outcome as an argument
  (`Response.Success(data)` or `Response.Failure`). Each handler returns the new state and
  the request it sent, or `None` when its guard stopped it. The module also has:
  - the payload builders: the freeze map model → `model_path`, the training body, and the
    comma-split feature list;
  - the training-parameter setters;
  - tab selection;
  - event dispatch that honours which controls the active tab renders.
- **Session gate** (`App`, composed in `Console`). `loggedIn` starts false. `handleLogin`
  sets it for any arguments and `handleLogout` clears it. The dashboard is shown exactly when
  logged in. `Console` puts the gate together with whichever child it renders. Switching
  screens remounts the child, so the child starts from its initial state. The mounted
  dashboard's state is what the events it has received since mounting make of its initial
  state. `Console` proves
  that every run reaching the dashboard contains a sign-in submission that passed validation.

Two facts about the source are modelled as written rather than idealised:

- **Transformation fault.** `handleTransformation` checks for a file but then reads
  `results['Random Forest'].model_path` with no guard. With a file but no results, or no
  "Random Forest" entry, it throws a `TypeError` before its `try`. `HandleTransformation`
  returns this as `Threw(fault)`: no state change and no request.
- **Edited parameters are text.** The parameter setters store `e.target.value`, which is a
  string. Defaults are numbers (`Num`), but an edited parameter is `Text`, and the training
  body sends it as text.

## Model

| member | source | states |
|---|---|---|
| JsText.Trim | src/components/login.js:17 | `trim()` returns a contiguous piece of its input with only whitespace around it; that piece neither starts nor ends with whitespace, and it is empty exactly when the input is all whitespace |
| JsText.Split | src/components/dashboard.js:162 | `split(',')` always yields at least one piece, and no piece contains the separator |
| JsText.JoinSplit | src/components/dashboard.js:162 | joining the pieces of a split with the separator gives back the original text, empty pieces included |
| JsText.SplitJoin | src/components/dashboard.js:166 | splitting a join of one or more separator-free pieces gives back those pieces, so split and join are inverse |
| JsText.SplitLength | src/components/dashboard.js:166 | a split has one more piece than the text has separators |
| EmailPattern.RegexIffShape | src/components/login.js:35 | the unanchored pattern matches iff some `@` at p ≥ 1 has a non-whitespace character before it and some `.` at q ≥ p+2 has only non-whitespace between them and a non-whitespace character after it |
| EmailPattern.RegexUnanchored | src/components/login.js:35 | adding text before or after an accepted email never makes the test fail |
| EmailPattern.Examples | src/components/login.js:35-38 | "a@b.c" and " x a@b.c y" are accepted; "a@b" and "@b.c" are rejected |
| EmailPattern.ScanDecides | src/components/login.js:35 | from any position where the scan's bookkeeping is accurate (current run, first usable `@`, no match ended earlier), the rest of the scan finds a match exactly when the text has the two-position shape |
| EmailPattern.EmailTestIsRegex | src/components/login.js:35 | the single left-to-right scan the validator uses accepts exactly the texts the regex matches somewhere (equivalently, those with the two-position shape) |
| Login.ValidateSignIn | src/components/login.js:17-20 | sign-in is accepted iff neither username nor password is all whitespace; otherwise it is rejected with "Username and password are required." |
| Login.ValidateSignUp | src/components/login.js:27-38 | "All fields are required." iff some field is blank; "Passwords do not match." iff all are filled and the untrimmed passwords differ; "Invalid email address." iff the first two checks pass and the email scan (which decides the pattern) fails; accepted iff all three pass |
| Login.SubmitSignIn | src/components/login.js:15-23 | only the error text changes; an accepted submission clears it and calls `onLogin` with the untrimmed username and password, and a rejected one shows the message and calls nothing |
| Login.SubmitSignUp | src/components/login.js:25-41 | only the error text changes; an accepted submission clears it and calls `onSignup(username, password, email)`, and a rejected one shows the first failing check's message |
| Login.Apply | src/components/login.js:48-115 | a control the current mode does not render does nothing; typing into a field sets that field alone to the typed text; a mode link changes only `isLogin`; submitting runs the handler bound to the current mode's form; only a submission can call back |
| Login.ToggleKeepsEntries | src/components/login.js:71 | following the "Sign up" or "Sign in" link changes only `isLogin`; the entered fields and the error text are kept, and no callback runs |
| Login.OnLoginOnlyFromSignIn | src/components/login.js:15-22 | the form calls `onLogin(u, p)` iff the event is a submission of the sign-in form that passes validation, with u and p the fields as entered |
| Login.ValidatorExamples | src/components/login.js:27-38 | a confirmation differing by a trailing space is a mismatch; "a@b" fails only once the passwords agree; ("alice", "") is rejected and ("alice", "secret") accepted |
| Dashboard.SetParam | src/components/dashboard.js:179-211 | a parameter setter gives the edited field the input's text and leaves the other four fields unchanged |
| Dashboard.TrainBody | src/components/dashboard.js:117-120 | the training body has exactly six keys: `file_path` holds the file reference and every parameter sits under its own key with its current value |
| Dashboard.TrainBodyRoundTrip | src/components/dashboard.js:117-120 | all five parameters can be read back from the training body, so `file_path` overwrites none of them |
| Dashboard.CollectModelPaths | src/components/dashboard.js:83-86 | the `for...in` loop builds a freeze payload whose keys are exactly the results' models, each mapped to that model's `model_path` |
| Dashboard.RenderedPanel | src/components/dashboard.js:132-239 | `renderContent` shows the panel whose tab name equals the active tab, and shows nothing (`null`) only when no tab has that name |
| Dashboard.RenderedPanelOfName | src/components/dashboard.js:248 | each of the four navigation names selects its own panel |
| Dashboard.HandleFileChange | src/components/dashboard.js:20-22 | choosing a file (or cancelling, which gives none) changes only `file` |
| Dashboard.HandleIngest | src/components/dashboard.js:24-46 | with no file: "Please select a file to upload.", no request, results unchanged; with a file: an upload of that file, then results := response with the success message, or on failure "Error uploading file." with results unchanged; nothing else changes |
| Dashboard.HandleTransformation | src/components/dashboard.js:48-75 | with no file: "Please upload a file first." and no request; with a file it throws iff results are null or lack "Random Forest"; otherwise it sends the transformation with that entry's `model_path` and shows the response message or "Error transforming data."; only the transformation message changes |
| Dashboard.HandleFreeze | src/components/dashboard.js:77-103 | a request is sent iff results exist; without them the message is "Please train models first."; the payload keys equal the results' keys with each value that model's path; only the freeze message changes |
| Dashboard.HandleAutoTrain | src/components/dashboard.js:105-130 | a request is sent iff a file is chosen; it carries the file reference and the current parameters; success stores the response with "Models trained successfully!", and failure gives "Error training models." with results unchanged |
| Dashboard.HandleParamEdit | src/components/dashboard.js:176-213 | editing a parameter input changes only that parameter, to the input's text |
| Dashboard.SelectTab | src/components/dashboard.js:248-253 | clicking a navigation button changes only the active tab, which then renders that tab's panel |
| Dashboard.Dispatch | src/components/dashboard.js:132-240 | every request sent meets its guard (file present for upload, transform and train; results present for freeze; payloads drawn from the current state); file, parameters and tab change only through their own controls |
| Dashboard.RunAppend | src/components/dashboard.js:132-240 | one more event after a run is one more dispatch on the state the run reached |
| Dashboard.RunInvariants | src/components/dashboard.js:248-253 | along any run the active tab stays one of the four names, and results, once present, are never removed |
| Dashboard.InitialIsValid | src/components/dashboard.js:11 | the initial tab is valid, so no run from the start reaches `renderContent`'s `null` default |
| Dashboard.ResultsOnlyFromResponses | src/components/dashboard.js:39-44 | results change only on a successful ingest or train response, with a file chosen and the control shown, and then they equal that response |
| Dashboard.TabSwitchesKeepWork | src/components/dashboard.js:248-253 | any sequence of tab clicks keeps file, results, parameters and all three messages; the last tab clicked is shown |
| Dashboard.FeatureListRoundTrip | src/components/dashboard.js:162 | the remove-features request carries the input text split on ",", and joining that list with "," gives back the text |
| Dashboard.InitialSendsNothing | src/components/dashboard.js:6-18 | the defaults are 80/20/"gini"/10/100; from the initial state ingest, train, transform and freeze each set their prompt and send nothing |
| App.HandleLogin | src/App.js:8-12 | logging in succeeds for any username and password |
| App.HandleLogout | src/App.js:14-16 | logging out always leaves the logged-out state |
| App.ViewOf | src/App.js:18 | the dashboard is shown iff logged in, and the login form otherwise |
| App.LoginThenLogout | src/App.js:6-18 | login then logout returns to the starting state, which shows the login form; after login the dashboard is shown |
| Console.Step | src/App.js:18 | the session changes only by a form event while logged out or a logout click while logged in; logging in mounts a dashboard that has received no events; a logout click while logged in always logs out, and logging out mounts a fresh form |
| Console.LoginMountsFreshDashboard | src/App.js:18 | the dashboard shown right after logging in is in the dashboard's initial state |
| Console.DashboardEventDispatches | src/App.js:18 | while logged in, a dashboard event is dispatched on the mounted dashboard's current state and the session and form are untouched; while logged out it is ignored |
| Console.LoginStepPasses | src/App.js:18 | the only step from the login screen to the dashboard is a sign-in submission that passes validation |
| Console.PassingSignInLogsIn | src/App.js:8-18 | from any logged-out state, a sign-in submission that passes validation logs in |
| Console.LoginStepNeedsSignIn | src/App.js:8-18 | from the login screen, a step reaches the dashboard if and only if it is a sign-in submission that passes validation |
| Console.StepLoginsPass | src/App.js:8-18 | the gate's step lets nobody onto the dashboard without a passing sign-in |
| Console.ReplayNeedsSignIn | src/App.js:18 | for any step function with that property, a replay from the login screen ending on the dashboard contains a passing sign-in, in the state reached just before it |
| Console.DashboardNeedsSignIn | src/App.js:18 | every run from a logged-out state that ends logged in contains a sign-in submission that passed validation in the state reached at that point |
| Console.FromStartDashboardNeedsSignIn | src/App.js:6-18 | from application start, showing the dashboard requires an earlier passing sign-in |
| Console.SignUpNeverLogsIn | src/App.js:18 | the gate passes no `onSignup`, so a sign-up submission never changes the session |
| Console.BlankPasswordStaysOut | src/components/login.js:17-20 | when the sign-in handler runs with a password that is empty or only whitespace, the login screen stays and shows "Username and password are required." |
| Console.SignInReachesDashboard | src/App.js:8-18 | from application start, typing any non-blank username and password and submitting reaches the dashboard in its initial state |

## Left out

- Network and browser I/O are not modelled. This covers `fetch`, `FormData`, `response.json()`, `URL.createObjectURL` and `console.error`/`console.log`. A request's outcome is the `Response` argument of its handler. The file reference for training is a string argument.
- The dashboard does not validate response bodies. Ingest and train store whatever JSON comes back. `data.message` may be undefined. The model types the body as model name → entry, and a message as a string.
- Each entry's metrics are opaque text. The backend nests them under `evaluation`, while the dashboard reads `accuracy`/`rmse` directly. That mismatch only affects display.
- Overlapping requests are not modelled. Neither is the "last response wins" overwrite. Each handler runs from guard to response as one step, because interleaving is event-loop concurrency rather than sequential logic.
- Rendering, CSS, images and the react-bootstrap components are left out, except for which controls each tab or mode shows (`Shown`) and `renderContent`'s `null` default.
- The behaviour after an accepted sign-up is left out. `onSignup` is undefined in `App`, so the real call throws. The model keeps the cleared error and leaves the session unchanged.
- The backend (`backend/main.py`) is not part of this model: Flask routing, pandas loading, sklearn/xgboost training, pickling and metric computation.
- Native form validation is not modelled. Every credential input is `required` (src/components/login.js:55, 64, 81, 90, 99, 108) and the email input has `type="email"` (line 87), so the browser withholds the submit event while an input is empty or the email is malformed. `Login.Submit` stands for the submit handler running, which over-approximates what the browser allows. A whitespace-only username, password or confirmation passes `required` and reaches the handler's blank check. The email input is different: its value is sanitized, so a spaces-only email reads as "" and `required` blocks the submission.
- Typed text over-approximates what the browser's inputs can deliver. `TypeUsername`, `TypePassword`, `TypeConfirmPassword`, `TypeEmail` and `EditParam` accept any string. Real input values are sanitized: text and password inputs drop line breaks. The email input also drops leading and trailing ASCII whitespace. The `type="number"` parameter inputs (src/components/dashboard.js:177, 185, 201, 209) yield "" or a numeral. Every property stated here holds for all strings, so it holds for the sanitized ones too.
- Strings are sequences of Unicode scalar values, whereas JavaScript strings are sequences of UTF-16 code units. A lone surrogate cannot be represented. On well-formed text `trim()`, `\s`/`\S`, `split(',')` and `!==` agree with the model, because every ECMAScript whitespace code point and the separator are single non-surrogate units.
- Dashboard.CollectModelPaths: promises the payload's keys equal the results' models for every results map. In JavaScript a model named `__proto__` is the exception. Assigning to that key calls the `Object.prototype.__proto__` setter, which ignores a string, so that model is missing from the payload. Own-property semantics of plain objects are not modelled.
- Dashboard.HandleFreeze: same `__proto__` exception as `CollectModelPaths` for the freeze payload's keys.
- Dashboard.Dispatch: its contract gives only the guard, frame and tab facts that hold for every event. What each event does to the messages and results is stated on the individual handlers.
