/**
 The login handshake of the movie app's login screen as a state machine on
 values. A login attempt issues at most four requests, strictly one after
 the other, each only once the previous response has passed its guards:

   1. a new request token,
   2. validation of that token with the username and password,
   3. a new session for the validated token,
   4. the account (user id) of that session,

 and then completes the login. The asynchronous data-task callbacks become
 deliveries of responses (`Deliver`); the callback that is still outstanding,
 with the value it captured, is `pending`.
 */
module Handshake {
  import opened Http

  /** Why a step turned its response down. */
  datatype Failure = TransportFailed | StatusNot2xx | NoBody | NotJson | FieldMissing | AuthRejected

  /**
   What a step makes of its response: go on with the artifact it extracted,
   stop, or trap at run time, which ends the program. `reports` counts how
   many times the step's `displayError` runs before the callback stops.
   */
  datatype Verdict<T> = Accept(value: T) | Reject(failure: Failure, reports: nat) | Trap(reports: nat)

  /** The response came through the transport, with a 2xx status and a body. */
  predicate Delivered(r: Response) {
    !r.transportError && HasSuccessStatus(r) && r.body.Some?
  }

  /** ... and the body parsed as JSON. */
  predicate Parsed(r: Response) {
    Delivered(r) && r.json.Some?
  }

  /**
   The guard chain that steps 2, 3 and 4 share: transport error, status,
   body, parse. Every failure is reported exactly once.
   */
  function Screen(r: Response): (v: Verdict<JsonObject>)
    ensures v.Accept? <==> Parsed(r)
    ensures v.Accept? ==> v.value == r.json.value
    ensures !v.Trap?
    ensures v.Reject? ==> v.reports == 1
    ensures v.Reject? && v.failure == TransportFailed <==> r.transportError
    ensures v.Reject? && v.failure == StatusNot2xx <==> !r.transportError && !HasSuccessStatus(r)
  {
    if r.transportError then Reject(TransportFailed, 1)
    else if !HasSuccessStatus(r) then Reject(StatusNot2xx, 1)
    else if r.body.None? then Reject(NoBody, 1)
    else if r.json.None? then Reject(NotJson, 1)
    else Accept(r.json.value)
  }

  /**
   Step 1, the request-token callback. It differs from the shared chain
   twice: a missing body is not reported at all, and a parse failure is
   reported but does not return, so the field lookup that follows
   dereferences the result the parser never produced, which is still nil,
   and traps.
   */
  function TokenVerdict(r: Response): (v: Verdict<string>)
    ensures v.Accept? <==> Delivered(r) && StringField(r.json, "request_token").Some?
    ensures v.Accept? ==> StringField(r.json, "request_token") == Some(v.value)
    ensures v.Trap? <==> Delivered(r) && r.json.None?
    ensures v.Trap? ==> v.reports == 1
    ensures v.Reject? ==> v.reports <= 1
    ensures v.Reject? && v.reports == 0 <==> !r.transportError && HasSuccessStatus(r) && r.body.None?
    ensures v.Reject? && v.failure == StatusNot2xx <==> !r.transportError && !HasSuccessStatus(r)
  {
    if r.transportError then Reject(TransportFailed, 1)
    else if !HasSuccessStatus(r) then Reject(StatusNot2xx, 1)
    else if r.body.None? then Reject(NoBody, 0)
    else if r.json.None? then Trap(1)
    else match StringField(r.json, "request_token")
      case Some(token) => Accept(token)
      case None => Reject(FieldMissing, 1)
  }

  /** Step 2, token validation: it goes on only when `success` is the Boolean `true`. */
  function ValidationVerdict(r: Response): (v: Verdict<()>)
    ensures v.Accept? <==> Delivered(r) && BoolField(r.json, "success") == Some(true)
    ensures v.Reject? ==> v.reports == 1
    ensures v.Reject? && v.failure == StatusNot2xx <==> !r.transportError && !HasSuccessStatus(r)
    ensures Parsed(r) && BoolField(r.json, "success") != Some(true) ==> v == Reject(AuthRejected, 1)
    ensures !v.Trap?
  {
    var screened := Screen(r);
    if screened.Reject? then Reject(screened.failure, screened.reports)
    else if BoolField(Some(screened.value), "success") == Some(true) then Accept(())
    else Reject(AuthRejected, 1)
  }

  /** Step 3, session creation: it needs a string `session_id`. */
  function SessionVerdict(r: Response): (v: Verdict<string>)
    ensures v.Accept? <==> Delivered(r) && StringField(r.json, "session_id").Some?
    ensures v.Accept? ==> StringField(r.json, "session_id") == Some(v.value)
    ensures v.Reject? ==> v.reports == 1
    ensures v.Reject? && v.failure == StatusNot2xx <==> !r.transportError && !HasSuccessStatus(r)
    ensures !v.Trap?
  {
    var screened := Screen(r);
    if screened.Reject? then Reject(screened.failure, screened.reports)
    else match StringField(Some(screened.value), "session_id")
    case Some(sessionID) => Accept(sessionID)
    case None => Reject(FieldMissing, 1)
  }

  /** Step 4, the account lookup: it needs an integer `id`. */
  function AccountVerdict(r: Response): (v: Verdict<int>)
    ensures v.Accept? <==> Delivered(r) && IntField(r.json, "id").Some?
    ensures v.Accept? ==> IntField(r.json, "id") == Some(v.value)
    ensures v.Reject? ==> v.reports == 1
    ensures v.Reject? && v.failure == StatusNot2xx <==> !r.transportError && !HasSuccessStatus(r)
    ensures !v.Trap?
  {
    var screened := Screen(r);
    if screened.Reject? then Reject(screened.failure, screened.reports)
    else match IntField(Some(screened.value), "id")
    case Some(userID) => Accept(userID)
    case None => Reject(FieldMissing, 1)
  }

  /** The four steps, named as their failure messages name them. */
  datatype Stage = RequestToken | AuthenticateToken | SessionID | UserID

  /** The message a failing step leaves in the debug label; step 4 reuses step 2's. */
  function FailureMessage(stage: Stage): string {
    match stage
    case RequestToken => "Login Failed (Request Token)."
    case AuthenticateToken => "Login Failed (Authenticate Token)."
    case SessionID => "Login Failed (Session ID)."
    case UserID => "Login Failed (Authenticate Token)."
  }

  const EMPTY_CREDENTIALS_MESSAGE := "Username or Password Empty."

  /** A request sent to the movie database, with the parameters that vary between attempts. */
  datatype Request =
    | NewToken
    | ValidateWithLogin(token: string, username: string, password: string)
    | NewSession(token: string)
    | Account(sessionID: string)

  /** The data-task callback that is still outstanding, with the value it captured. */
  datatype Pending =
    | AwaitToken
    | AwaitValidation(token: string)
    | AwaitSession(token: string)
    | AwaitAccount(sessionID: string)

  function StepOf(p: Pending): (i: nat)
    ensures i < 4
  {
    match p
    case AwaitToken => 0
    case AwaitValidation(_) => 1
    case AwaitSession(_) => 2
    case AwaitAccount(_) => 3
  }

  function StageAt(i: nat): Stage
    requires i < 4
  {
    [RequestToken, AuthenticateToken, SessionID, UserID][i]
  }

  /** Whether step `i` accepts `resp`. */
  predicate AcceptsAt(i: nat, resp: Response)
    requires i < 4
  {
    match i
    case 0 => TokenVerdict(resp).Accept?
    case 1 => ValidationVerdict(resp).Accept?
    case 2 => SessionVerdict(resp).Accept?
    case 3 => AccountVerdict(resp).Accept?
  }

  /** Whether step `i` traps on `resp`. */
  predicate TrapsAt(i: nat, resp: Response) {
    i == 0 && TokenVerdict(resp).Trap?
  }

  /** How many times step `i` runs `displayError` on `resp`. */
  function ReportsAt(i: nat, resp: Response): nat
    requires i < 4
  {
    match i
    case 0 => (var v := TokenVerdict(resp); if v.Accept? then 0 else v.reports)
    case 1 => (var v := ValidationVerdict(resp); if v.Accept? then 0 else v.reports)
    case 2 => (var v := SessionVerdict(resp); if v.Accept? then 0 else v.reports)
    case 3 => (var v := AccountVerdict(resp); if v.Accept? then 0 else v.reports)
  }

  /** The request whose response `p` waits for. */
  function RequestFor(p: Pending, username: string, password: string): Request {
    match p
    case AwaitToken => NewToken
    case AwaitValidation(token) => ValidateWithLogin(token, username, password)
    case AwaitSession(token) => NewSession(token)
    case AwaitAccount(sessionID) => Account(sessionID)
  }

  /**
   What the login screen and the credential holder keep: the text fields,
   the enabled state of the controls, the debug label, the app delegate's
   request token, session id and user id, every request issued so far, the
   outstanding callback, how many error displays were queued, whether the
   movies screen was presented, and whether the program trapped.
   */
  datatype State = State(
    username: string,
    password: string,
    uiEnabled: bool,
    debugText: string,
    requestToken: Option<string>,
    sessionID: Option<string>,
    userID: Option<int>,
    requests: seq<Request>,
    pending: Option<Pending>,
    errorDisplays: nat,
    presented: bool,
    crashed: bool)

  /**
   The invariant of every reachable state: while a callback is outstanding
   the controls are disabled, the last request issued is the one it waits
   for, and the token or session id it captured is the one the credential
   holder keeps. After a trap the controls stay disabled and nothing is
   outstanding, so no tap, edit or response can follow.
   */
  predicate Inv(s: State) {
    && (s.crashed ==> !s.uiEnabled && s.pending.None?)
    && (s.pending.Some? ==>
          && !s.uiEnabled
          && |s.requests| > 0
          && s.requests[|s.requests| - 1] == RequestFor(s.pending.value, s.username, s.password))
    && match s.pending
       case Some(AwaitValidation(token)) => s.requestToken == Some(token)
       case Some(AwaitSession(token)) => s.requestToken == Some(token)
       case Some(AwaitAccount(sessionID)) => s.sessionID == Some(sessionID)
       case _ => true
  }

  /** The login button can be tapped and nothing is in flight. */
  predicate Idle(s: State) {
    Inv(s) && s.uiEnabled
  }

  function Initial(username: string, password: string): (s: State)
    ensures Idle(s) && s.pending.None? && s.requests == [] && !s.crashed
  {
    State(username, password, true, "", None, None, None, [], None, 0, false, false)
  }

  /** `setUIEnabled`: enables or disables the controls and clears the debug label. */
  function SetUIEnabled(s: State, enabled: bool): State {
    s.(uiEnabled := enabled, debugText := "")
  }

  /** A step's `displayError` running `times` times: each re-enables the UI and shows the stage's message. */
  function DisplayError(s: State, stage: Stage, times: nat): State {
    if times == 0 then s
    else SetUIEnabled(s, true).(debugText := FailureMessage(stage), errorDisplays := s.errorDisplays + times)
  }

  /**
   A trap: the program ends, so the `queued` error displays the callback
   handed to the main queue never reach the screen.
   */
  function Crash(s: State, queued: nat): State {
    s.(crashed := true, errorDisplays := s.errorDisplays + queued)
  }

  /** Starting the data task that `p` then waits for. */
  function Issue(s: State, p: Pending): State {
    s.(requests := s.requests + [RequestFor(p, s.username, s.password)], pending := Some(p))
  }

  /** `completeLogin`: clears the label, re-enables the UI and presents the movies screen. */
  function CompleteLogin(s: State): State {
    SetUIEnabled(s.(debugText := ""), true).(presented := true)
  }

  /**
   How step `i` ends on a response it does not accept: it traps, or runs its
   `displayError` as often as it reports. The request log, the outstanding
   callback, the credential holder and the movies screen stay as they are.
   */
  function StepEnding(s: State, i: nat, resp: Response): (r: State)
    requires i < 4
    ensures r.(uiEnabled := s.uiEnabled, debugText := s.debugText, errorDisplays := s.errorDisplays, crashed := s.crashed) == s
    ensures r.errorDisplays == s.errorDisplays + ReportsAt(i, resp)
    ensures r.crashed == (s.crashed || TrapsAt(i, resp))
    ensures TrapsAt(i, resp) ==> r.uiEnabled == s.uiEnabled && r.debugText == s.debugText
    ensures !TrapsAt(i, resp) ==>
      if ReportsAt(i, resp) > 0 then r.uiEnabled && r.debugText == FailureMessage(StageAt(i))
      else r.uiEnabled == s.uiEnabled && r.debugText == s.debugText
  {
    if TrapsAt(i, resp) then Crash(s, ReportsAt(i, resp)) else DisplayError(s, StageAt(i), ReportsAt(i, resp))
  }

  /** `loginPressed`. */
  function Press(s: State): (r: State)
    requires s.uiEnabled
    ensures r.username == s.username && r.password == s.password && r.crashed == s.crashed
    ensures s.username == "" || s.password == "" ==> r == s.(debugText := EMPTY_CREDENTIALS_MESSAGE)
    ensures s.username != "" && s.password != "" ==>
      && !r.uiEnabled && r.debugText == ""
      && r.pending == Some(AwaitToken) && r.requests == s.requests + [NewToken]
      && r.requestToken == s.requestToken && r.sessionID == s.sessionID && r.userID == s.userID
      && r.errorDisplays == s.errorDisplays && r.presented == s.presented
    ensures Inv(s) ==> Inv(r)
  {
    if s.username == "" || s.password == "" then s.(debugText := EMPTY_CREDENTIALS_MESSAGE)
    else Issue(SetUIEnabled(s, false), AwaitToken)
  }

  /** The body of the request-token callback, on the state after its task finished. */
  function OnToken(s: State, resp: Response): (r: State)
    ensures s.pending.None? ==>
      r.requests == s.requests + if r.pending.Some? then [RequestFor(r.pending.value, s.username, s.password)] else []
    ensures r.username == s.username && r.password == s.password
    ensures r.errorDisplays == s.errorDisplays + ReportsAt(0, resp)
    ensures r.crashed == (s.crashed || TrapsAt(0, resp))
    ensures Inv(s) && s.pending.None? && !s.uiEnabled && !s.crashed ==> Inv(r)
    ensures AcceptsAt(0, resp) ==>
      r == Issue(s.(requestToken := Some(TokenVerdict(resp).value)), AwaitValidation(TokenVerdict(resp).value))
    ensures !AcceptsAt(0, resp) ==> r == StepEnding(s, 0, resp)
  {
    var v := TokenVerdict(resp);
    if v.Accept? then Issue(s.(requestToken := Some(v.value)), AwaitValidation(v.value)) else StepEnding(s, 0, resp)
  }

  /** The body of the validation callback; `token` is the token it was started with. */
  function OnValidation(s: State, token: string, resp: Response): (r: State)
    ensures s.pending.None? ==>
      r.requests == s.requests + if r.pending.Some? then [RequestFor(r.pending.value, s.username, s.password)] else []
    ensures r.username == s.username && r.password == s.password
    ensures r.errorDisplays == s.errorDisplays + ReportsAt(1, resp)
    ensures r.crashed == (s.crashed || TrapsAt(1, resp))
    ensures Inv(s) && s.pending.None? && !s.uiEnabled && !s.crashed && s.requestToken == Some(token) ==> Inv(r)
    ensures AcceptsAt(1, resp) ==> r == Issue(s, AwaitSession(token))
    ensures !AcceptsAt(1, resp) ==> r == StepEnding(s, 1, resp)
  {
    var v := ValidationVerdict(resp);
    if v.Accept? then Issue(s, AwaitSession(token)) else StepEnding(s, 1, resp)
  }

  /** The body of the session callback. */
  function OnSession(s: State, resp: Response): (r: State)
    ensures s.pending.None? ==>
      r.requests == s.requests + if r.pending.Some? then [RequestFor(r.pending.value, s.username, s.password)] else []
    ensures r.username == s.username && r.password == s.password
    ensures r.errorDisplays == s.errorDisplays + ReportsAt(2, resp)
    ensures r.crashed == (s.crashed || TrapsAt(2, resp))
    ensures Inv(s) && s.pending.None? && !s.uiEnabled && !s.crashed ==> Inv(r)
    ensures AcceptsAt(2, resp) ==>
      r == Issue(s.(sessionID := Some(SessionVerdict(resp).value)), AwaitAccount(SessionVerdict(resp).value))
    ensures !AcceptsAt(2, resp) ==> r == StepEnding(s, 2, resp)
  {
    var v := SessionVerdict(resp);
    if v.Accept? then Issue(s.(sessionID := Some(v.value)), AwaitAccount(v.value))
    else StepEnding(s, 2, resp)
  }

  /** The body of the account callback. */
  function OnAccount(s: State, resp: Response): (r: State)
    ensures s.pending.None? ==>
      r.requests == s.requests + if r.pending.Some? then [RequestFor(r.pending.value, s.username, s.password)] else []
    ensures r.username == s.username && r.password == s.password
    ensures r.errorDisplays == s.errorDisplays + ReportsAt(3, resp)
    ensures r.crashed == (s.crashed || TrapsAt(3, resp))
    ensures Inv(s) && s.pending.None? && !s.uiEnabled && !s.crashed ==> Inv(r)
    ensures AcceptsAt(3, resp) ==> r == CompleteLogin(s.(userID := Some(AccountVerdict(resp).value)))
    ensures !AcceptsAt(3, resp) ==> r == StepEnding(s, 3, resp)
  {
    var v := AccountVerdict(resp);
    if v.Accept? then CompleteLogin(s.(userID := Some(v.value))) else StepEnding(s, 3, resp)
  }

  /** The response to the outstanding request arrives and its callback runs. */
  function Deliver(s: State, resp: Response): (r: State)
    requires s.pending.Some?
    ensures r.username == s.username && r.password == s.password
    ensures r.errorDisplays == s.errorDisplays + ReportsAt(StepOf(s.pending.value), resp)
    ensures r.crashed == (s.crashed || TrapsAt(StepOf(s.pending.value), resp))
    // a request goes out exactly when a callback is left outstanding, and it is the one that callback awaits
    ensures r.requests == s.requests + if r.pending.Some? then [RequestFor(r.pending.value, s.username, s.password)] else []
    ensures Inv(s) ==> Inv(r)
  {
    var finished := s.(pending := None);
    match s.pending.value
    case AwaitToken => OnToken(finished, resp)
    case AwaitValidation(token) => OnValidation(finished, token, resp)
    case AwaitSession(_) => OnSession(finished, resp)
    case AwaitAccount(_) => OnAccount(finished, resp)
  }

  /**
   A response its step does not accept ends the attempt: a trap ends the
   program, any other rejection ends the attempt without a request or a
   write.
   */
  lemma DeliverStops(s: State, resp: Response)
    requires s.pending.Some?
    // a trap ends the program: the queued report never shows and nothing else changes
    ensures var i := StepOf(s.pending.value);
      TrapsAt(i, resp) ==> Deliver(s, resp) == Crash(s.(pending := None), ReportsAt(i, resp))
    // a rejected response ends the attempt: nothing more is requested or stored
    ensures var r := Deliver(s, resp);
      var i := StepOf(s.pending.value);
      !AcceptsAt(i, resp) && !TrapsAt(i, resp) ==>
        && r.pending.None? && r.requests == s.requests && r.presented == s.presented
        && r.requestToken == s.requestToken && r.sessionID == s.sessionID && r.userID == s.userID
        && if ReportsAt(i, resp) > 0 then r.uiEnabled && r.debugText == FailureMessage(StageAt(i))
           else r.uiEnabled == s.uiEnabled && r.debugText == s.debugText
  {
  }

  /**
   A response its step accepts moves the attempt on: in steps 1 to 3 by
   exactly the next step's request, in step 4 by completing the login.
   */
  lemma DeliverGoesOn(s: State, resp: Response)
    requires s.pending.Some?
    // an accepted response of steps 1 to 3 issues exactly the next step's request
    ensures var r := Deliver(s, resp);
      var i := StepOf(s.pending.value);
      AcceptsAt(i, resp) && i < 3 ==>
        && r.pending.Some? && StepOf(r.pending.value) == i + 1
        && r.requests == s.requests + [RequestFor(r.pending.value, s.username, s.password)]
        && r.uiEnabled == s.uiEnabled && r.debugText == s.debugText && r.presented == s.presented
    // an accepted step 4 completes the login
    ensures var r := Deliver(s, resp);
      s.pending.value.AwaitAccount? && AcceptsAt(3, resp) ==>
      && r.pending.None? && r.requests == s.requests
      && r.uiEnabled && r.debugText == "" && r.presented
  {
  }

  /**
   The token of step 1 and the session id of step 3 travel unchanged into the
   later requests, and each field of the credential holder is written only by
   the step that owns it, and only on acceptance.
   */
  lemma DeliverCarries(s: State, resp: Response)
    requires s.pending.Some?
    // the token and session id travel unchanged into the later requests
    ensures var r := Deliver(s, resp);
      s.pending.value.AwaitToken? && AcceptsAt(0, resp) ==>
      r.pending == Some(AwaitValidation(TokenVerdict(resp).value))
    ensures var r := Deliver(s, resp);
      s.pending.value.AwaitValidation? && AcceptsAt(1, resp) ==>
      r.pending == Some(AwaitSession(s.pending.value.token))
    ensures var r := Deliver(s, resp);
      s.pending.value.AwaitSession? && AcceptsAt(2, resp) ==>
      r.pending == Some(AwaitAccount(SessionVerdict(resp).value))
    // the credential holder is written only by the step that owns the field, and only on acceptance
    ensures var r := Deliver(s, resp);
      r.requestToken ==
      if s.pending.value.AwaitToken? && AcceptsAt(0, resp) then Some(TokenVerdict(resp).value) else s.requestToken
    ensures var r := Deliver(s, resp);
      r.sessionID ==
      if s.pending.value.AwaitSession? && AcceptsAt(2, resp) then Some(SessionVerdict(resp).value) else s.sessionID
    ensures var r := Deliver(s, resp);
      r.userID ==
      if s.pending.value.AwaitAccount? && AcceptsAt(3, resp) then Some(AccountVerdict(resp).value) else s.userID
  {
  }

  /**
   The network answers the outstanding requests with `net`, one response per
   request, until nothing is outstanding or the responses run out.
   */
  function Run(s: State, net: seq<Response>): (r: State)
    ensures r.username == s.username && r.password == s.password
    ensures s.requests <= r.requests
    ensures s.errorDisplays <= r.errorDisplays
    ensures Inv(s) ==> Inv(r)
    decreases |net|
  {
    if s.pending.None? || net == [] then s else Run(Deliver(s, net[0]), net[1..])
  }

  /** How many of the responses in `net` `Run` consumes. */
  function Consumed(s: State, net: seq<Response>): (n: nat)
    ensures n <= |net|
    ensures n < |net| ==> Run(s, net).pending.None?
    decreases |net|
  {
    if s.pending.None? || net == [] then 0 else 1 + Consumed(Deliver(s, net[0]), net[1..])
  }

  /** A tap on the login button, followed by the network's answers. */
  function Login(s: State, net: seq<Response>): (r: State)
    requires Idle(s)
    ensures Inv(r)
    ensures s.username == "" || s.password == "" ==>
      r == s.(debugText := EMPTY_CREDENTIALS_MESSAGE) && Consumed(Press(s), net) == 0
    ensures s.requests <= r.requests
  {
    Run(Press(s), net)
  }
}
