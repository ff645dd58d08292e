/**
 What a whole login attempt does, proved about the state machine of module
 Handshake: which requests go out and in what order, which response ends the
 attempt, what the credential holder and the screen end up with, and that an
 attempt does not depend on what earlier attempts left behind.
 */
module HandshakeFacts {
  import opened Http
  import opened Handshake

  /** The four requests of a complete handshake, in the order they go out. */
  function Exchange(username: string, password: string, token: string, sessionID: string): seq<Request> {
    [NewToken, ValidateWithLogin(token, username, password), NewSession(token), Account(sessionID)]
  }

  /** The callback step `k` waits for. */
  function PendingAt(k: nat, token: string, sessionID: string): Pending
    requires k < 4
  {
    match k
    case 0 => AwaitToken
    case 1 => AwaitValidation(token)
    case 2 => AwaitSession(token)
    case 3 => AwaitAccount(sessionID)
  }

  /** The token that the first response would hand over. */
  function TokenOf(net: seq<Response>): string {
    if |net| > 0 && TokenVerdict(net[0]).Accept? then TokenVerdict(net[0]).value else ""
  }

  /** The session id that the third response would hand over. */
  function SessionOf(net: seq<Response>): string {
    if |net| > 2 && SessionVerdict(net[2]).Accept? then SessionVerdict(net[2]).value else ""
  }

  /** The user id that the fourth response would hand over. */
  function UserOf(net: seq<Response>): int {
    if |net| > 3 && AccountVerdict(net[3]).Accept? then AccountVerdict(net[3]).value else 0
  }

  /** The first `k` responses are each accepted by their step. */
  predicate AcceptedUpTo(net: seq<Response>, k: nat) {
    k <= 4 && k <= |net| && forall j | 0 <= j < k :: AcceptsAt(j, net[j])
  }

  /** The number of leading responses of `net`, from the `j`-th on, that their steps accept. */
  function AcceptedFrom(net: seq<Response>, j: nat): (k: nat)
    requires AcceptedUpTo(net, j)
    ensures j <= k && AcceptedUpTo(net, k)
    ensures k < 4 && k < |net| ==> !AcceptsAt(k, net[k])
    decreases 4 - j
  {
    if j < 4 && j < |net| && AcceptsAt(j, net[j]) then AcceptedFrom(net, j + 1) else j
  }

  /** The state of an attempt from `s` while step `k` waits, all earlier responses accepted. */
  function Midway(s: State, net: seq<Response>, k: nat): State
    requires k < 4
  {
    var token, sessionID := TokenOf(net), SessionOf(net);
    s.(uiEnabled := false, debugText := "",
       requestToken := if k >= 1 then Some(token) else s.requestToken,
       sessionID := if k >= 3 then Some(sessionID) else s.sessionID,
       requests := s.requests + Exchange(s.username, s.password, token, sessionID)[..k + 1],
       pending := Some(PendingAt(k, token, sessionID)))
  }

  /** An accepted response moves the attempt from one waiting step to the next. */
  lemma DeliverAdvances(s: State, net: seq<Response>, k: nat)
    requires k < 3 && AcceptedUpTo(net, k + 1)
    ensures Deliver(Midway(s, net, k), net[k]) == Midway(s, net, k + 1)
  {
    var e := Exchange(s.username, s.password, TokenOf(net), SessionOf(net));
    assert e[..k + 2] == e[..k + 1] + [e[k + 1]];
    assert AcceptsAt(k, net[k]);
  }

  /** Running the attempt is running from the state where step `k` waits on the rest of the responses. */
  lemma {:induction false} ReachMidway(s: State, net: seq<Response>, k: nat)
    requires s.uiEnabled && s.username != "" && s.password != ""
    requires k < 4 && AcceptedUpTo(net, k)
    ensures Run(Press(s), net) == Run(Midway(s, net, k), net[k..])
    ensures Consumed(Press(s), net) == k + Consumed(Midway(s, net, k), net[k..])
  {
    if k == 0 {
      assert net[0..] == net;
      assert Press(s) == Midway(s, net, 0);
    } else {
      ReachMidway(s, net, k - 1);
      DeliverAdvances(s, net, k - 1);
      assert net[k - 1..][1..] == net[k..];
    }
  }

  /** All four responses accepted: the login completes with everything stored, after exactly four requests. */
  lemma LoginCompletes(s: State, net: seq<Response>)
    requires Idle(s) && s.username != "" && s.password != ""
    requires AcceptedUpTo(net, 4)
    ensures var r := Login(s, net);
      && r.uiEnabled && r.debugText == "" && r.presented && r.pending.None?
      && r.requestToken == Some(TokenOf(net))
      && r.sessionID == Some(SessionOf(net))
      && r.userID == Some(UserOf(net))
      && r.requests == s.requests + Exchange(s.username, s.password, TokenOf(net), SessionOf(net))
      && r.errorDisplays == s.errorDisplays && !r.crashed
    ensures Consumed(Press(s), net) == 4
  {
    ReachMidway(s, net, 3);
    assert AcceptsAt(3, net[3]);
    var e := Exchange(s.username, s.password, TokenOf(net), SessionOf(net));
    assert e[..4] == e;
    assert net[3..][1..] == net[4..];
  }

  /**
   The first rejected response ends the attempt at its step: no later request
   goes out, only the earlier steps' artifacts are stored, and unless the
   step stays silent or traps the UI is re-enabled with that step's message.
   */
  lemma LoginStopsAtFirstRejection(s: State, net: seq<Response>, i: nat)
    requires Idle(s) && s.username != "" && s.password != ""
    requires i < 4 && i < |net| && AcceptedUpTo(net, i) && !AcceptsAt(i, net[i])
    ensures var r := Login(s, net);
      && r.pending.None?
      && r.requests == s.requests + Exchange(s.username, s.password, TokenOf(net), SessionOf(net))[..i + 1]
      && r.requestToken == (if i >= 1 then Some(TokenOf(net)) else s.requestToken)
      && r.sessionID == (if i >= 3 then Some(SessionOf(net)) else s.sessionID)
      && r.userID == s.userID && r.presented == s.presented
      && r.errorDisplays == s.errorDisplays + ReportsAt(i, net[i])
      && r.crashed == TrapsAt(i, net[i])
      && if ReportsAt(i, net[i]) > 0 && !TrapsAt(i, net[i]) then r.uiEnabled && r.debugText == FailureMessage(StageAt(i))
         else !r.uiEnabled && r.debugText == ""
    ensures Consumed(Press(s), net) == i + 1
  {
    LoginEndsInErrorDisplay(s, net, i);
    var e := Exchange(s.username, s.password, TokenOf(net), SessionOf(net));
    var m := Midway(s, net, i).(pending := None);
    assert m.requests == s.requests + e[..i + 1];
  }

  lemma LoginEndsInErrorDisplay(s: State, net: seq<Response>, i: nat)
    requires Idle(s) && s.username != "" && s.password != ""
    requires i < 4 && i < |net| && AcceptedUpTo(net, i) && !AcceptsAt(i, net[i])
    ensures Login(s, net) == StepEnding(Midway(s, net, i).(pending := None), i, net[i])
    ensures Consumed(Press(s), net) == i + 1
  {
    ReachMidway(s, net, i);
    var m := Midway(s, net, i);
    assert StepOf(m.pending.value) == i;
    RunRejected(m, net[i..]);
  }

  /** A run whose first response is rejected ends with that step's ending, after one response. */
  lemma RunRejected(m: State, rest: seq<Response>)
    requires m.pending.Some? && rest != [] && !AcceptsAt(StepOf(m.pending.value), rest[0])
    ensures Run(m, rest) == StepEnding(m.(pending := None), StepOf(m.pending.value), rest[0])
    ensures Consumed(m, rest) == 1
  {
    DeliverRejects(m, rest[0]);
  }

  /** A rejected response leaves the state as the step's ending makes it, with nothing outstanding. */
  lemma DeliverRejects(m: State, resp: Response)
    requires m.pending.Some? && !AcceptsAt(StepOf(m.pending.value), resp)
    ensures Deliver(m, resp) == StepEnding(m.(pending := None), StepOf(m.pending.value), resp)
  {
  }

  /** The responses ran out while every one so far was accepted: the attempt waits, the UI disabled. */
  lemma LoginAwaitsResponse(s: State, net: seq<Response>)
    requires Idle(s) && s.username != "" && s.password != ""
    requires |net| < 4 && AcceptedUpTo(net, |net|)
    ensures Login(s, net) == Midway(s, net, |net|)
    ensures Login(s, net).pending.Some? && !Login(s, net).uiEnabled
    ensures Consumed(Press(s), net) == |net|
  {
    ReachMidway(s, net, |net|);
  }

  /**
   Every attempt issues a prefix of the four-request exchange, in order, the
   token of step 1 carried unchanged into steps 2 and 3 and the session id of
   step 3 into step 4; each request is answered by one consumed response,
   except the one still outstanding.
   */
  lemma LoginIssuesExchangePrefix(s: State, net: seq<Response>)
    requires Idle(s) && s.username != "" && s.password != ""
    ensures var r := Login(s, net);
      var k := |r.requests| - |s.requests|;
      && 1 <= k <= 4
      && r.requests == s.requests + Exchange(s.username, s.password, TokenOf(net), SessionOf(net))[..k]
      && k == Consumed(Press(s), net) + (if r.pending.Some? then 1 else 0)
  {
    var k := AcceptedFrom(net, 0);
    if k == 4 {
      LoginCompletes(s, net);
      var e := Exchange(s.username, s.password, TokenOf(net), SessionOf(net));
      assert e[..4] == e;
    } else if k < |net| {
      LoginStopsAtFirstRejection(s, net, k);
    } else {
      LoginAwaitsResponse(s, net);
    }
  }

  /** Requests issued balance responses consumed, the outstanding request aside. */
  lemma {:induction false} RequestsMatchResponses(s: State, net: seq<Response>)
    ensures var r := Run(s, net);
      |r.requests| + (if s.pending.Some? then 1 else 0)
      == |s.requests| + Consumed(s, net) + (if r.pending.Some? then 1 else 0)
    decreases |net|
  {
    if s.pending.Some? && net != [] {
      RequestsMatchResponses(Deliver(s, net[0]), net[1..]);
    }
  }

  /** Responses beyond those an ended attempt consumed change nothing. */
  lemma {:induction false} LaterResponsesIgnored(s: State, net: seq<Response>, extra: seq<Response>)
    requires Run(s, net).pending.None?
    ensures Run(s, net + extra) == Run(s, net)
    ensures Consumed(s, net + extra) == Consumed(s, net)
    decreases |net|
  {
    if s.pending.Some? {
      assert net != [];
      assert (net + extra)[1..] == net[1..] + extra;
      LaterResponsesIgnored(Deliver(s, net[0]), net[1..], extra);
    }
  }

  /** What of a state the next deliveries depend on. */
  predicate SameView(a: State, b: State) {
    && a.username == b.username && a.password == b.password
    && a.uiEnabled == b.uiEnabled && a.debugText == b.debugText && a.pending == b.pending
  }

  lemma SuffixSplit(p: seq<Request>, q: seq<Request>, r: seq<Request>)
    requires p <= q <= r
    ensures r[|p|..] == q[|p|..] + r[|q|..]
  {
    assert r == q + r[|q|..];
  }

  /** One delivery to states alike in view leaves them alike, with the same request issued. */
  lemma DeliverIgnoresHistory(a: State, b: State, resp: Response)
    requires SameView(a, b) && a.pending.Some?
    ensures SameView(Deliver(a, resp), Deliver(b, resp))
    ensures Deliver(a, resp).requests[|a.requests|..] == Deliver(b, resp).requests[|b.requests|..]
  {
    DeliverStops(a, resp);
    DeliverStops(b, resp);
    DeliverGoesOn(a, resp);
    DeliverGoesOn(b, resp);
    DeliverCarries(a, resp);
    DeliverCarries(b, resp);
  }

  /** Two runs from states alike in view go alike, whatever history the states carry. */
  lemma {:induction false} RunIgnoresHistory(a: State, b: State, net: seq<Response>)
    requires SameView(a, b)
    ensures SameView(Run(a, net), Run(b, net))
    ensures Run(a, net).requests[|a.requests|..] == Run(b, net).requests[|b.requests|..]
    ensures Consumed(a, net) == Consumed(b, net)
    decreases |net|
  {
    if a.pending.Some? && net != [] {
      var a', b' := Deliver(a, net[0]), Deliver(b, net[0]);
      DeliverIgnoresHistory(a, b, net[0]);
      RunIgnoresHistory(a', b', net[1..]);
      SuffixSplit(a.requests, a'.requests, Run(a', net[1..]).requests);
      SuffixSplit(b.requests, b'.requests, Run(b', net[1..]).requests);
    } else {
      assert a.requests[|a.requests|..] == [];
      assert b.requests[|b.requests|..] == [];
    }
  }

  /**
   Two attempts with the same credentials against the same responses end
   alike and issue the same requests, whatever earlier attempts stored: no
   token or session of a previous attempt is reused.
   */
  lemma AttemptIgnoresHistory(a: State, b: State, net: seq<Response>)
    requires Idle(a) && Idle(b) && a.username == b.username && a.password == b.password
    ensures var ra, rb := Login(a, net), Login(b, net);
      && ra.uiEnabled == rb.uiEnabled && ra.debugText == rb.debugText && ra.pending == rb.pending
      && ra.requests[|a.requests|..] == rb.requests[|b.requests|..]
    ensures Consumed(Press(a), net) == Consumed(Press(b), net)
  {
    RunIgnoresHistory(Press(a), Press(b), net);
    SuffixSplit(a.requests, Press(a).requests, Login(a, net).requests);
    SuffixSplit(b.requests, Press(b).requests, Login(b, net).requests);
  }

  /** A response with status 500 at any step ends the attempt there, with that step's message. */
  lemma ServerErrorStopsLogin(s: State, net: seq<Response>, i: nat)
    requires Idle(s) && s.username != "" && s.password != ""
    requires i < 4 && i < |net| && AcceptedUpTo(net, i)
    requires !net[i].transportError && net[i].statusCode == Some(500)
    ensures var r := Login(s, net);
      && r.pending.None? && r.uiEnabled && r.debugText == FailureMessage(StageAt(i))
      && |r.requests| == |s.requests| + i + 1
    ensures Consumed(Press(s), net) == i + 1
  {
    assert !AcceptsAt(i, net[i]) && !TrapsAt(i, net[i]) && ReportsAt(i, net[i]) == 1;
    LoginStopsAtFirstRejection(s, net, i);
  }

  /** Validation answering `success: false` fails with step 2's message after exactly two requests. */
  lemma RejectedCredentialsStopLogin(s: State, net: seq<Response>)
    requires Idle(s) && s.username != "" && s.password != ""
    requires |net| >= 2 && AcceptsAt(0, net[0])
    requires Parsed(net[1]) && BoolField(net[1].json, "success") == Some(false)
    ensures var r := Login(s, net);
      && r.pending.None? && r.uiEnabled && r.debugText == "Login Failed (Authenticate Token)."
      && r.requests == s.requests + [NewToken, ValidateWithLogin(TokenOf(net), s.username, s.password)]
      && r.requestToken == Some(TokenOf(net)) && r.sessionID == s.sessionID && r.userID == s.userID
  {
    assert !AcceptsAt(1, net[1]) && ReportsAt(1, net[1]) == 1;
    LoginStopsAtFirstRejection(s, net, 1);
    var e := Exchange(s.username, s.password, TokenOf(net), SessionOf(net));
    assert e[..2] == [NewToken, ValidateWithLogin(TokenOf(net), s.username, s.password)];
  }

  /**
   Nothing can happen any more: the controls take no tap or edit, and with
   nothing outstanding no response is delivered.
   */
  predicate Stuck(s: State) {
    !s.uiEnabled && s.pending.None?
  }

  /** A stuck screen ignores whatever the network sends. */
  lemma StuckIgnoresResponses(s: State, net: seq<Response>)
    requires Stuck(s)
    ensures Run(s, net) == s && Consumed(s, net) == 0
  {
  }

  /**
   A request-token response with no body strands the screen: nothing is
   outstanding, yet the controls stay disabled and no message is shown, so
   the screen is stuck.
   */
  lemma MissingTokenBodyStrandsScreen(s: State, net: seq<Response>)
    requires Idle(s) && s.username != "" && s.password != ""
    requires |net| > 0 && !net[0].transportError && HasSuccessStatus(net[0]) && net[0].body.None?
    ensures var r := Login(s, net);
      && Stuck(r) && r.debugText == "" && !r.crashed
      && r.requests == s.requests + [NewToken] && r.errorDisplays == s.errorDisplays
  {
    assert !AcceptsAt(0, net[0]) && !TrapsAt(0, net[0]) && ReportsAt(0, net[0]) == 0;
    LoginStopsAtFirstRejection(s, net, 0);
  }

  /**
   A request-token body that is not JSON crashes the app: the parse error is
   queued for display once, then the program traps before the display
   shows, leaving the screen stuck with the controls disabled.
   */
  lemma UnparsableTokenCrashes(s: State, net: seq<Response>)
    requires Idle(s) && s.username != "" && s.password != ""
    requires |net| > 0 && Delivered(net[0]) && net[0].json.None?
    ensures var r := Login(s, net);
      && r.crashed && Stuck(r) && r.debugText == ""
      && r.requests == s.requests + [NewToken] && r.errorDisplays == s.errorDisplays + 1
      && r.requestToken == s.requestToken
  {
    assert !AcceptsAt(0, net[0]) && TrapsAt(0, net[0]) && ReportsAt(0, net[0]) == 1;
    LoginStopsAtFirstRejection(s, net, 0);
  }

  /** A response of status 200 carrying the JSON object `fields`. */
  function Ok(fields: JsonObject): Response {
    Response(false, Some(200), Some([]), Some(fields))
  }

  /** The handshake with token "T1", session "S1" and user 42 logs in as user 42 with session "S1". */
  lemma SampleLoginSucceeds()
    ensures var net := [Ok(map["request_token" := JString("T1")]), Ok(map["success" := JBool(true)]),
                        Ok(map["session_id" := JString("S1")]), Ok(map["id" := JInt(42)])];
      var r := Login(Initial("user", "secret"), net);
      && r.userID == Some(42) && r.sessionID == Some("S1") && r.requestToken == Some("T1")
      && r.uiEnabled && r.debugText == "" && r.presented
      && r.requests == [NewToken, ValidateWithLogin("T1", "user", "secret"), NewSession("T1"), Account("S1")]
  {
    var net := [Ok(map["request_token" := JString("T1")]), Ok(map["success" := JBool(true)]),
                Ok(map["session_id" := JString("S1")]), Ok(map["id" := JInt(42)])];
    assert AcceptsAt(0, net[0]) && AcceptsAt(1, net[1]) && AcceptsAt(2, net[2]) && AcceptsAt(3, net[3]);
    LoginCompletes(Initial("user", "secret"), net);
  }
}
