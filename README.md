# Login handshake of the MyFavoriteMovies login screen

This project models the login of the MyFavoriteMovies app against The Movie
Database's web API, as `LoginViewController` performs it, and proves
properties of that model in Dafny.

A tap on the login button with a non-empty username and password disables the
screen's controls and starts a chain of four requests, each started from the
callback of the previous one. Every callback runs the same guard chain on its
response: no transport error, a status code in the 2xx class (section 15.3 of
RFC 9110), a body, a body that parses as JSON, and the expected field with the
expected type. The four steps are:

1. a new request token (`request_token`, a string), stored in the app delegate;
2. validation of that token with the username and password (`success`, the Boolean `true`);
3. a new session for the same token (`session_id`, a string), stored in the app delegate;
4. the account of that session (`id`, an integer), stored in the app delegate, after
   which the login completes: the controls are re-enabled, the debug label is cleared
   and the movies screen is presented.

A failing guard runs the step's `displayError`, which re-enables the controls
and puts the step's message in the debug label; no later request is started.

Files:

- `http.dfy` (module `Http`): a response (transport-error flag, optional status
  code, optional body, optional parsed JSON object), the 2xx predicate and the
  typed field lookups (`as? String`, `as? Bool`, `as? Int`).
- `handshake.dfy` (module `Handshake`): the handshake as a state machine on
  values. Each step's guard chain is a function returning a `Verdict`; the
  state of the screen and the credential holder is a `State`; `Press` is a tap
  on the button, `Deliver` the arrival of the response to the outstanding
  request, `Run` the network answering with a sequence of responses, one per
  request, and `Login` a tap followed by `Run`.
- `handshake_facts.dfy` (module `HandshakeFacts`): lemmas about whole login
  attempts.
- `controller.dfy` (module `Controller`): the class `LoginViewController`, with
  the fields the Swift view controller and the app delegate update in place and
  one method per Swift handler. Each method is proved to change the object
  exactly as the corresponding `Handshake` function says, so the lemmas about
  `Handshake` hold of the object too.

Three behaviours of the code stand out, and the model keeps them:

- A missing body in step 1 is not reported: the callback only prints and
  returns, so nothing is outstanding, the controls stay disabled and no message
  is shown. `MissingTokenBodyStrandsScreen` proves the screen then `Stuck`: no
  tap or edit is accepted, and `StuckIgnoresResponses` shows that no response
  changes it either.
- The `catch` of step 1 queues the parse error for display but does not
  return. The parse result, an implicitly unwrapped optional, is still nil,
  and the field lookup that follows unwraps it and traps, which ends the
  program. The model has a `Trap` verdict and a `crashed` state in which the
  controls stay disabled and nothing is outstanding (`UnparsableTokenCrashes`).
  The queued display is counted but never shows.
- A second attempt cannot start while one is outstanding: the code disables
  the controls, and a disabled button delivers no taps. `LoginPressed` and
  `Press` therefore require the controls to be enabled, and `Inv` proves they
  are disabled whenever a request is outstanding.

## Model

| member | source | states |
|---|---|---|
| `Handshake.Screen` | MyFavoriteMovies/LoginViewController.swift:174-196 | The guard chain of steps 2 to 4 accepts exactly a response without transport error, with a 2xx status, a body and a parsed JSON object, and hands on that object; every rejection is reported once; a transport error and a non-2xx status are classified as such. |
| `Handshake.TokenVerdict` | MyFavoriteMovies/LoginViewController.swift:110-141 | Step 1 accepts exactly a delivered response whose JSON has a string `request_token`, and yields that string; a body that does not parse traps after one queued report; a missing body is not reported at all; any other rejection is reported once; a non-2xx status is classified as such. |
| `Handshake.ValidationVerdict` | MyFavoriteMovies/LoginViewController.swift:174-202 | Step 2 accepts exactly a delivered response whose `success` is the Boolean `true`; a parsed response with `success` absent, not a Boolean or false is rejected as an authentication rejection; each rejection is reported once. |
| `Handshake.SessionVerdict` | MyFavoriteMovies/LoginViewController.swift:236-265 | Step 3 accepts exactly a delivered response whose JSON has a string `session_id`, and yields it; each rejection is reported once. |
| `Handshake.AccountVerdict` | MyFavoriteMovies/LoginViewController.swift:299-327 | Step 4 accepts exactly a delivered response whose JSON has an integer `id`, and yields it; each rejection is reported once. |
| `Handshake.Initial` | MyFavoriteMovies/LoginViewController.swift:30-42 | A freshly loaded screen is idle and satisfies the invariant: controls enabled, nothing outstanding, no request issued. |
| `Handshake.StepEnding` | MyFavoriteMovies/LoginViewController.swift:102-138 | A step that does not accept its response leaves the requests, the outstanding callback, the credential holder and the movies screen as they were; it counts its reports; a trap marks the program crashed with the controls and label untouched; otherwise a report re-enables the controls with the step's message, and a silent step changes nothing on screen. |
| `Handshake.OnToken` | MyFavoriteMovies/LoginViewController.swift:110-142 | Step 1's callback, from a state with nothing outstanding, keeps the credentials, counts its reports, crashes exactly on a trap, issues a request exactly when it leaves a callback outstanding (the validation with the token it stores), ends as `StepEnding` says on any other response, and preserves the invariant. |
| `Handshake.OnValidation` | MyFavoriteMovies/LoginViewController.swift:174-206 | Step 2's callback keeps the credentials, counts its reports, never crashes, on acceptance issues exactly the session request for its token, otherwise ends as `StepEnding` says, and preserves the invariant. |
| `Handshake.OnSession` | MyFavoriteMovies/LoginViewController.swift:236-270 | Step 3's callback keeps the credentials, counts its reports, never crashes, on acceptance stores the session id and issues exactly the account request for it, otherwise ends as `StepEnding` says, and preserves the invariant. |
| `Handshake.OnAccount` | MyFavoriteMovies/LoginViewController.swift:299-332 | Step 4's callback keeps the credentials, counts its reports, never crashes, on acceptance stores the user id and completes the login, otherwise ends as `StepEnding` says, and preserves the invariant. |
| `Handshake.Press` | MyFavoriteMovies/LoginViewController.swift:50-73 | With an empty username or password only the debug text changes, to "Username or Password Empty.": no request, the enabled state unchanged. Otherwise the controls are disabled and the label cleared, exactly one request (a new token) is issued, nothing is stored; the invariant is preserved. |
| `Handshake.Deliver` | MyFavoriteMovies/LoginViewController.swift:99-336 | The arrival of the outstanding response keeps the credentials, counts the reports of the step's `displayError`, crashes the program exactly when step 1 traps, issues a request exactly when it leaves a callback outstanding (the one that callback awaits), and preserves the invariant: while a callback is outstanding the controls are disabled and it carries the stored token or session id, and after a crash nothing is outstanding and the controls stay disabled. |
| `Handshake.DeliverStops` | MyFavoriteMovies/LoginViewController.swift:110-138 | A trap changes nothing but marking the program crashed, ending the outstanding callback and counting the queued report. Any other rejection ends the attempt: nothing outstanding, no request, nothing stored, and after a report the controls enabled with the step's message (step 4 reusing step 2's). |
| `Handshake.DeliverGoesOn` | MyFavoriteMovies/LoginViewController.swift:140-142 | An accepted response of steps 1 to 3 issues exactly the next step's request and waits for it, the screen unchanged; an accepted step 4 completes the login: nothing outstanding, no further request, controls enabled, empty label, movies screen presented. |
| `Handshake.DeliverCarries` | MyFavoriteMovies/LoginViewController.swift:140-142 | The token of step 1 travels unchanged into steps 2 and 3 and the session id of step 3 into step 4; the token, session id and user id are written only by their own step and only on acceptance. |
| `Handshake.Run` | MyFavoriteMovies/LoginViewController.swift:140-146 | Answering the outstanding requests one response at a time keeps the credentials, only appends to the requests issued, and preserves the invariant. |
| `Handshake.Consumed` | MyFavoriteMovies/LoginViewController.swift:140-146 | No more responses are consumed than given, and when some are left over the attempt has ended. |
| `Handshake.Login` | MyFavoriteMovies/LoginViewController.swift:50-73 | A login attempt from an idle screen ends in a state satisfying the invariant and only appends requests; with an empty username or password it only sets the debug text to "Username or Password Empty.", issues no request, consumes no response and leaves the enabled state as it was. |
| `HandshakeFacts.ReachMidway` | MyFavoriteMovies/LoginViewController.swift:57-71 | After a tap and `k` accepted responses, the attempt waits at step `k + 1` with the first `k + 1` requests of the exchange issued and `k` responses consumed. |
| `HandshakeFacts.LoginCompletes` | MyFavoriteMovies/LoginViewController.swift:75-78 | Four accepted responses complete the login: controls enabled, empty debug text, movies screen presented, token, session id and user id stored, exactly the four requests issued in step order, four responses consumed, no error reported. |
| `HandshakeFacts.LoginStopsAtFirstRejection` | MyFavoriteMovies/LoginViewController.swift:104-106 | The first rejected response ends the attempt at its step: exactly the requests up to that step issued, only earlier steps' artifacts stored, the program crashed exactly when step 1 traps, and unless the step stays silent or traps the controls enabled with that step's message. |
| `HandshakeFacts.LoginAwaitsResponse` | MyFavoriteMovies/LoginViewController.swift:146 | When the responses run out with all accepted, the attempt still waits with the controls disabled. |
| `HandshakeFacts.LoginIssuesExchangePrefix` | MyFavoriteMovies/LoginViewController.swift:142 | Every attempt issues, in order, a prefix of new token, validation with the token of step 1, session for that same token, account for the session of step 3; every request is answered by one consumed response except the one outstanding. |
| `HandshakeFacts.RequestsMatchResponses` | MyFavoriteMovies/LoginViewController.swift:146 | Requests issued balance responses consumed, the outstanding request aside. |
| `HandshakeFacts.LaterResponsesIgnored` | MyFavoriteMovies/LoginViewController.swift:99-143 | Responses beyond those an ended attempt consumed change nothing. |
| `HandshakeFacts.DeliverIgnoresHistory` | MyFavoriteMovies/LoginViewController.swift:99-143 | One delivery to two states that agree on credentials, controls, debug text and the outstanding callback leaves them agreeing on these and issues the same request. |
| `HandshakeFacts.RunIgnoresHistory` | MyFavoriteMovies/LoginViewController.swift:141-142 | Runs from states that agree on credentials, controls, debug text and the outstanding callback agree on these afterwards, issue the same requests and consume as many responses, whatever tokens or sessions earlier attempts stored. |
| `HandshakeFacts.AttemptIgnoresHistory` | MyFavoriteMovies/LoginViewController.swift:57-71 | Two attempts with the same credentials against the same responses end alike and issue the same requests: each attempt starts from a new token and reuses nothing stored before. |
| `HandshakeFacts.ServerErrorStopsLogin` | MyFavoriteMovies/LoginViewController.swift:115-118 | A status 500 at any step ends the attempt there with that step's message, after exactly the requests up to that step. |
| `HandshakeFacts.RejectedCredentialsStopLogin` | MyFavoriteMovies/LoginViewController.swift:199-202 | `success: false` in step 2 ends the attempt with "Login Failed (Authenticate Token).", after exactly the token and validation requests, with only the token stored. |
| `HandshakeFacts.StuckIgnoresResponses` | MyFavoriteMovies/LoginViewController.swift:120-123 | A screen with disabled controls and nothing outstanding is left unchanged by any responses, and consumes none. |
| `HandshakeFacts.MissingTokenBodyStrandsScreen` | MyFavoriteMovies/LoginViewController.swift:120-123 | A step-1 response without a body leaves the screen stuck: nothing outstanding while the controls stay disabled; no message is shown, nothing is reported, the program has not crashed, and only the token request was issued. |
| `HandshakeFacts.UnparsableTokenCrashes` | MyFavoriteMovies/LoginViewController.swift:126-134 | A step-1 body that is not JSON crashes the program after one queued report: the controls stay disabled with an empty label, nothing is outstanding, no token is stored and only the token request was issued. |
| `HandshakeFacts.SampleLoginSucceeds` | MyFavoriteMovies/LoginViewController.swift:86-336 | Responses with token "T1", success, session "S1" and id 42 log in as user 42 with session "S1" after the four requests in order. |
| `Controller.LoginViewController.constructor` | MyFavoriteMovies/LoginViewController.swift:30-42 | The loaded screen is in the initial state. |
| `Controller.LoginViewController.EditCredentials` | MyFavoriteMovies/LoginViewController.swift:22-23 | Typing into the enabled text fields changes only the credentials. |
| `Controller.LoginViewController.LoginPressed` | MyFavoriteMovies/LoginViewController.swift:50-73 | Changes the object as `Press` says. |
| `Controller.LoginViewController.SetUIEnabled` | MyFavoriteMovies/LoginViewController.swift:396-401 | Sets the enabled state and clears the debug text, nothing else. |
| `Controller.LoginViewController.DisplayError` | MyFavoriteMovies/LoginViewController.swift:102-108 | Re-enables the controls, shows the stage's message and counts one report. |
| `Controller.LoginViewController.CompleteLogin` | MyFavoriteMovies/LoginViewController.swift:75-82 | Clears the debug text, re-enables the controls and presents the movies screen. |
| `Controller.LoginViewController.GetRequestToken` | MyFavoriteMovies/LoginViewController.swift:86-147 | Issues the new-token request and waits for its callback. |
| `Controller.LoginViewController.LoginWithToken` | MyFavoriteMovies/LoginViewController.swift:149-163 | Issues the validation request with the given token and the current credentials. |
| `Controller.LoginViewController.GetSessionID` | MyFavoriteMovies/LoginViewController.swift:212-225 | Issues the session request with the given token. |
| `Controller.LoginViewController.GetUserID` | MyFavoriteMovies/LoginViewController.swift:276-288 | Issues the account request with the given session id. |
| `Controller.LoginViewController.TokenTaskCompleted` | MyFavoriteMovies/LoginViewController.swift:99-143 | Runs step 1's guard chain: a missing body returns silently, and a parse failure queues one report and then traps on the nil parse result; the object changes as `OnToken` says. |
| `Controller.LoginViewController.ValidationTaskCompleted` | MyFavoriteMovies/LoginViewController.swift:163-207 | Runs step 2's guard chain and changes the object as `OnValidation` says. |
| `Controller.LoginViewController.SessionTaskCompleted` | MyFavoriteMovies/LoginViewController.swift:225-271 | Runs step 3's guard chain, stores the session id on success, and changes the object as `OnSession` says. |
| `Controller.LoginViewController.AccountTaskCompleted` | MyFavoriteMovies/LoginViewController.swift:288-333 | Runs step 4's guard chain, stores the user id and completes the login on success, and changes the object as `OnAccount` says. |
| `Controller.LoginViewController.ResponseArrived` | MyFavoriteMovies/LoginViewController.swift:99 | The outstanding task finishes and its callback runs: the object changes as `Deliver` says. |

## Left out

- The UIKit presentation: the gradient and text-field styling (lines 411-434), the button alpha, a float (lines 404-408), and the storyboard navigation (lines 79-80). Only the fact that the movies screen is presented is kept.
- Keyboard handling (lines 352-378), the notification subscriptions (lines 38-41, 44-47, 441-447), `textFieldShouldReturn` and `userDidTapView`: they move views and resign the first responder and do not touch the login state.
- The data tasks and their asynchrony: a response is a value handed to the outstanding callback, and the network is a sequence of responses consumed one per request. A response that never arrives is the end of that sequence.
- `performUIUpdatesOnMain`: the queued UI updates are applied when the callback runs, except after a trap, which ends the program before the main queue runs them. The race at line 136 between the queued `displayError` update and the direct write of another message to the debug label is not modelled; the step's queued message is taken as the final text.
- URL construction and the API key (`tmdbURLFromParameters`, `Constants`), which are not part of this model: a request records only its endpoint and the parameters that change between attempts.
- The JSON parser, a foreign call: its result is part of the response. A JSON document whose top level is not an object is represented as an object without fields.
- `Http.StringField`, `Http.BoolField`, `Http.IntField`: exact type tests; the Foundation bridging under which `as? Bool` also accepts a JSON number, `as? Int` a JSON Boolean, and `as? Int` a JSON number with a fraction, truncated towards zero (`{"id": 42.5}` logs in as user 42), is not modelled; the model rejects such values.
- `Handshake.AccountVerdict`: accepts any JSON integer as the user id; the bound of Swift's 64-bit `Int` is not modelled.
- `print` logging and the diagnostic strings passed to `displayError`, which reach only the console; the model counts how many times `displayError` runs instead.
- The app delegate is not part of this model; its `requestToken`, `sessionID` and `userID` are taken to start out empty, and the screen to start with enabled controls and an empty debug label.
- Cancelling an attempt when the screen goes away: the code has no such behaviour.
