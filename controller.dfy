/**
 The login screen as an object: the fields it and the app delegate update
 in place, and one method per handler of the Swift view controller. Each
 data-task callback is a method that runs the step's guard chain on the
 response step by step, as the source does; the response that completes the
 outstanding task is handed in through `ResponseArrived`. Every method is
 proved to change the state exactly as the corresponding function of module
 Handshake says.
 */
module Controller {
  import opened Http
  import opened Handshake

  class LoginViewController {
    // the two text fields
    var username: string
    var password: string
    // the enabled state of text fields, login button and debug label
    var uiEnabled: bool
    var debugText: string
    // the credential holder (the app delegate)
    var requestToken: Option<string>
    var sessionID: Option<string>
    var userID: Option<int>
    // the requests issued so far and the data task still outstanding
    var requests: seq<Request>
    var pending: Option<Pending>
    // how many error displays were queued, and whether the movies screen was presented
    var errorDisplays: nat
    var presented: bool
    // whether the program trapped
    var crashed: bool

    function Snapshot(): State
      reads this
    {
      State(username, password, uiEnabled, debugText, requestToken, sessionID, userID,
            requests, pending, errorDisplays, presented, crashed)
    }

    constructor (username: string, password: string)
      ensures Snapshot() == Initial(username, password)
    {
      this.username, this.password := username, password;
      uiEnabled, debugText := true, "";
      requestToken, sessionID, userID := None, None, None;
      requests, pending := [], None;
      errorDisplays, presented, crashed := 0, false, false;
    }

    /** The user types into the text fields, which accept input only while enabled. */
    method EditCredentials(username: string, password: string)
      requires uiEnabled
      modifies this
      ensures Snapshot() == old(Snapshot()).(username := username, password := password)
    {
      this.username, this.password := username, password;
    }

    /** A tap on the login button; the button takes taps only while enabled. */
    method LoginPressed()
      requires uiEnabled
      modifies this
      ensures Snapshot() == Press(old(Snapshot()))
    {
      if username == "" || password == "" {
        debugText := EMPTY_CREDENTIALS_MESSAGE;
      } else {
        SetUIEnabled(false);
        GetRequestToken();
      }
    }

    method SetUIEnabled(enabled: bool)
      modifies this
      ensures Snapshot() == Handshake.SetUIEnabled(old(Snapshot()), enabled)
    {
      uiEnabled := enabled;
      debugText := "";
    }

    /** One run of a step's `displayError`. */
    method DisplayError(stage: Stage)
      modifies this
      ensures Snapshot() == Handshake.DisplayError(old(Snapshot()), stage, 1)
    {
      SetUIEnabled(true);
      debugText := FailureMessage(stage);
      errorDisplays := errorDisplays + 1;
    }

    method CompleteLogin()
      modifies this
      ensures Snapshot() == Handshake.CompleteLogin(old(Snapshot()))
    {
      debugText := "";
      SetUIEnabled(true);
      presented := true;
    }

    method GetRequestToken()
      modifies this
      ensures Snapshot() == Issue(old(Snapshot()), AwaitToken)
    {
      requests := requests + [NewToken];
      pending := Some(AwaitToken);
    }

    method LoginWithToken(token: string)
      modifies this
      ensures Snapshot() == Issue(old(Snapshot()), AwaitValidation(token))
    {
      requests := requests + [ValidateWithLogin(token, username, password)];
      pending := Some(AwaitValidation(token));
    }

    method GetSessionID(token: string)
      modifies this
      ensures Snapshot() == Issue(old(Snapshot()), AwaitSession(token))
    {
      requests := requests + [NewSession(token)];
      pending := Some(AwaitSession(token));
    }

    method GetUserID(sessionID: string)
      modifies this
      ensures Snapshot() == Issue(old(Snapshot()), AwaitAccount(sessionID))
    {
      requests := requests + [Account(sessionID)];
      pending := Some(AwaitAccount(sessionID));
    }

    /** The callback of the request-token task. */
    method TokenTaskCompleted(resp: Response)
      modifies this
      ensures Snapshot() == OnToken(old(Snapshot()), resp)
    {
      if resp.transportError {
        DisplayError(RequestToken);
        return;
      }
      if !HasSuccessStatus(resp) {
        DisplayError(RequestToken);
        return;
      }
      if resp.body.None? {
        return;
      }
      if resp.json.None? {
        // the parse failure is queued for display, but the callback carries on
        // and the lookup on the still-nil parse result traps, ending the program
        errorDisplays := errorDisplays + 1;
        crashed := true;
        return;
      }
      var token := StringField(resp.json, "request_token");
      if token.None? {
        DisplayError(RequestToken);
        return;
      }
      requestToken := token;
      LoginWithToken(token.value);
    }

    /** The callback of the validation task started with `token`. */
    method ValidationTaskCompleted(token: string, resp: Response)
      modifies this
      ensures Snapshot() == OnValidation(old(Snapshot()), token, resp)
    {
      if resp.transportError || !HasSuccessStatus(resp) || resp.body.None? || resp.json.None? {
        DisplayError(AuthenticateToken);
        return;
      }
      if BoolField(resp.json, "success") != Some(true) {
        DisplayError(AuthenticateToken);
        return;
      }
      GetSessionID(token);
    }

    /** The callback of the session task. */
    method SessionTaskCompleted(resp: Response)
      modifies this
      ensures Snapshot() == OnSession(old(Snapshot()), resp)
    {
      if resp.transportError || !HasSuccessStatus(resp) || resp.body.None? || resp.json.None? {
        DisplayError(SessionID);
        return;
      }
      var session := StringField(resp.json, "session_id");
      if session.None? {
        DisplayError(SessionID);
        return;
      }
      sessionID := session;
      GetUserID(session.value);
    }

    /** The callback of the account task. */
    method AccountTaskCompleted(resp: Response)
      modifies this
      ensures Snapshot() == OnAccount(old(Snapshot()), resp)
    {
      if resp.transportError || !HasSuccessStatus(resp) || resp.body.None? || resp.json.None? {
        DisplayError(UserID);
        return;
      }
      var id := IntField(resp.json, "id");
      if id.None? {
        DisplayError(UserID);
        return;
      }
      userID := id;
      CompleteLogin();
    }

    /** The outstanding task finishes with `resp` and its callback runs. */
    method ResponseArrived(resp: Response)
      requires pending.Some?
      modifies this
      ensures Snapshot() == Deliver(old(Snapshot()), resp)
    {
      var task := pending.value;
      pending := None;
      match task
      case AwaitToken => TokenTaskCompleted(resp);
      case AwaitValidation(token) => ValidationTaskCompleted(token, resp);
      case AwaitSession(_) => SessionTaskCompleted(resp);
      case AwaitAccount(_) => AccountTaskCompleted(resp);
    }
  }
}
