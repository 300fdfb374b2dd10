/** The browser API client `DodoCoAPI` (frontend/src/network/api.js).

    `fetch` is an oracle: a script of exchanges, consumed one per request,
    each giving what the network returned. Every exchange also carries the
    32 random words `window.crypto.getRandomValues` would produce if the
    session is reset right after it. A script that runs out leaves the call
    `Pending`: the promise has not settled within the observed exchanges.
    `alert` and the redirect to the sign-in page are recorded in the session
    (`alerts`, `redirected`), and every request handed to `fetch` is logged
    in `sent`. */
module Api {
  import opened Wrappers
  import opened Text
  import opened Json
  import opened Errors
  import opened ApiResponse
  import Roles

  type uint32 = x: int | 0 <= x < 0x1_0000_0000

  /** The contents of the `Uint32Array(32)` that one token is made from. */
  type Entropy = w: seq<uint32> | |w| == 32 witness seq(32, _ => 0)

  // ---------------------------------------------------------------- csrf token

  /** `generateRandomSecureToken(32)`: `buf2hex` of a `Uint32Array`. Copying
      it into a `Uint8Array` keeps the low byte of each word. */
  function GenerateRandomSecureToken(words: seq<uint32>): (t: string)
    ensures |t| == 2 * |words|
    ensures forall i :: 0 <= i < |words| ==>
              t[2 * i] == HexDigits[words[i] % 256 / 16] && t[2 * i + 1] == HexDigits[words[i] % 256 % 16]
  {
    Buf2Hex(seq(|words|, i requires 0 <= i < |words| => words[i] % 256))
  }

  /** 64 lowercase hex digits: two zero-padded digits per byte. */
  predicate IsCsrfToken(t: string) {
    |t| == 64 && forall k :: 0 <= k < |t| ==> IsLowerHex(t[k])
  }

  lemma GeneratedTokenIsCsrfToken(e: Entropy)
    ensures IsCsrfToken(GenerateRandomSecureToken(e))
  {
    Buf2HexIsLowerHex(seq(|e|, i requires 0 <= i < |e| => e[i] % 256));
  }

  /** The token is determined by, and determines, the low byte of each
      random word: the other 24 bits of every word are dropped. */
  lemma TokenKeepsLowBytes(a: Entropy, b: Entropy)
    ensures GenerateRandomSecureToken(a) == GenerateRandomSecureToken(b) <==>
            forall i :: 0 <= i < 32 ==> a[i] % 256 == b[i] % 256
  {
    var la: seq<byte> := seq(|a|, i requires 0 <= i < |a| => a[i] % 256);
    var lb: seq<byte> := seq(|b|, i requires 0 <= i < |b| => b[i] % 256);
    if GenerateRandomSecureToken(a) == GenerateRandomSecureToken(b) {
      Buf2HexInjective(la, lb);
      assert forall i :: 0 <= i < 32 ==> la[i] == a[i] % 256 && lb[i] == b[i] % 256;
    }
    if forall i :: 0 <= i < 32 ==> a[i] % 256 == b[i] % 256 {
      assert la == lb;
    }
  }

  // ---------------------------------------------------------------- requests

  const BaseUrl := "https://dodoco.mudev.cc/api/dev/"
  const RefreshUrl := "account/refresh"
  const SignoutUrl := "account/signout"

  /** `#API_USED_METHOD`: the only verbs `apiRequest` accepts. */
  const AllowedMethods := ["GET", "POST", "PUT", "PATCH", "DELETE"]

  /** The verbs whose requests carry a body. */
  const BodyMethods := ["POST", "PATCH", "PUT"]

  datatype Credentials = SameOrigin | Include

  /** What `apiRequest` hands to `fetch`: the full url and the per-request
      copy of the fetch options (the constant `mode`, `cache`, `redirect`
      and `referrerPolicy` entries are left out). */
  datatype FetchRequest = FetchRequest(
    target: string,
    verb: string,
    body: Option<Json>,
    headers: map<string, string>,
    credentials: Credentials)

  /** The request `apiRequest` builds from the session's tokens. */
  function BuildRequest(csrf: string, access: Option<Json>, verb: string, url: string,
                        tokenRequired: bool, data: Json): (r: FetchRequest)
    ensures r.target == BaseUrl + url && r.verb == verb
    ensures r.body.Some? <==> verb in BodyMethods
    ensures r.body.Some? ==> r.body.value == data
    ensures r.headers.Keys == {"Content-Type", "X-Csrf-Token"} + (if tokenRequired then {"Authorization"} else {})
    ensures r.headers["Content-Type"] == "application/json" && r.headers["X-Csrf-Token"] == csrf
    ensures tokenRequired ==> r.headers["Authorization"] == "Bearer " + JsText(access)
    ensures r.credentials == Include <==> Contains(url, "account") || Contains(url, "admin")
  {
    var headers := map["Content-Type" := "application/json", "X-Csrf-Token" := csrf];
    FetchRequest(
      BaseUrl + url,
      verb,
      if verb in BodyMethods then Some(data) else None,
      if tokenRequired then headers["Authorization" := "Bearer " + JsText(access)] else headers,
      if Contains(url, "account") || Contains(url, "admin") then Include else SameOrigin)
  }

  // ---------------------------------------------------------------- status dispatch

  /** What the response handler does with a status. */
  datatype Action = ReturnBody | Reject(error: DodoCoError) | RefreshThenRetry

  /** The statuses whose body is handed back to the caller as data. */
  predicate PassesBodyThrough(status: int) {
    (200 <= status <= 399) || status in {404, 409, 410, 412, 422}
  }

  /** The response handler's `if` chain (api.js:106-162). */
  function Dispatch(status: int, url: string, verb: string): (a: Action)
    ensures a == ReturnBody <==> PassesBodyThrough(status)
    ensures a == RefreshThenRetry <==> status == 401 && url != RefreshUrl
    ensures a.Reject? <==> !PassesBodyThrough(status) && (status != 401 || url == RefreshUrl)
    ensures a.Reject? ==> !a.error.accessTokenInvalidation
    ensures status == 401 && url == RefreshUrl ==> a == Reject(NewError(SessionExpired, RefreshEndpointRejected))
    ensures status == 403 ==> a == Reject(NewError(Forbidden, RequestStatus(url, verb, status)))
    ensures status in {405, 415} ==> a == Reject(NewError(BadRequest, RequestStatus(url, verb, status)))
    ensures 400 <= status <= 499 && status !in {401, 403, 404, 405, 409, 410, 412, 415, 422} ==>
              a == Reject(NewError(UnknownProblem, RequestStatus(url, verb, status)))
    ensures status < 200 || status > 499 ==> a == Reject(NewError(ServerProblem, StatusCode(status)))
  {
    if 200 <= status <= 399 then ReturnBody
    else if 400 <= status <= 499 then
      if status == 401 then
        if url != RefreshUrl then RefreshThenRetry
        else Reject(NewError(SessionExpired, RefreshEndpointRejected))
      else if status == 403 then Reject(NewError(Forbidden, RequestStatus(url, verb, status)))
      else if status == 404 then ReturnBody
      else if status == 405 then Reject(NewError(BadRequest, RequestStatus(url, verb, status)))
      else if status == 409 || status == 410 then ReturnBody
      else if status == 412 then ReturnBody
      else if status == 415 then Reject(NewError(BadRequest, RequestStatus(url, verb, status)))
      else if status == 422 then ReturnBody
      else Reject(NewError(UnknownProblem, RequestStatus(url, verb, status)))
    else Reject(NewError(ServerProblem, StatusCode(status)))
  }

  // ---------------------------------------------------------------- the network oracle

  /** What one call of `fetch` gives: a rejection, a promise resolved with
      nothing, or a response whose `json()` yields a value (None: the body
      is not JSON and `json()` rejects). */
  datatype FetchResult = NetworkFailure | NoResponse | Response(status: int, body: Option<Json>)

  datatype Exchange = Exchange(result: FetchResult, entropy: Entropy)

  /** How a call of `apiRequest` ends: the synchronous
      `throw 'NOT_ALLOWED_METHOD'`, a resolved body, a rejection (always a
      `DodoCoError`), or not at all within the script. */
  datatype Outcome = NotAllowedMethod | Resolved(body: Json) | Rejected(error: DodoCoError) | Pending

  datatype Step = Settled(outcome: Outcome) | Unauthorized

  /** One `fetch` and its handler, through the `catch` of api.js:167-175. */
  function Attempt(verb: string, url: string, result: FetchResult): (step: Step)
    ensures step.Settled? ==> step.outcome.Resolved? || step.outcome.Rejected?
    ensures step.Unauthorized? <==> result.Response? && result.status == 401 && url != RefreshUrl
    ensures result == NoResponse ==> step == Settled(Rejected(NewError(TransportAnomaly, FetchResultMissing)))
    ensures result == NetworkFailure ==> step == Settled(Rejected(NewError(UnexpectedProblem, Reason(NetworkError))))
    ensures result.Response? && PassesBodyThrough(result.status) ==>
              step == Settled(if result.body.Some? then Resolved(result.body.value)
                              else Rejected(NewError(UnexpectedProblem, Reason(SyntaxError))))
    ensures result.Response? && Dispatch(result.status, url, verb).Reject? ==>
              step == Settled(Rejected(Dispatch(result.status, url, verb).error))
  {
    match result
    case NetworkFailure => Settled(Rejected(Wrap(Uncategorized(NetworkError))))
    case NoResponse => Settled(Rejected(NewError(TransportAnomaly, FetchResultMissing)))
    case Response(status, body) =>
      match Dispatch(status, url, verb)
      case ReturnBody =>
        if body.Some? then Settled(Resolved(body.value)) else Settled(Rejected(Wrap(Uncategorized(SyntaxError))))
      case Reject(e) => Settled(Rejected(e))
      case RefreshThenRetry => Unauthorized
  }

  // ---------------------------------------------------------------- session

  /** The observable state of the client: the three private fields, plus
      the browser effects the client causes. */
  datatype Session = Session(
    csrf: string,
    access: Option<Json>,
    refreshResult: Option<Json>,
    redirected: bool,
    alerts: seq<Message>,
    sent: seq<FetchRequest>)

  function InitialSession(e: Entropy): Session {
    Session(GenerateRandomSecureToken(e), NoToken, None, false, [], [])
  }

  /** What `#accessToken` holds when no token is known: the empty string. */
  const NoToken: Option<Json> := Some(JStr(""))

  /** `data.user.access_token.token`: None when reading it throws (a
      missing or null `user` or `access_token`), otherwise the value read,
      which need not be a string and is `undefined` (Some(None)) when the
      last key is missing. */
  function TokenOf(data: Json): Option<Option<Json>> {
    Path(data, ["user", "access_token", "token"])
  }

  /** The tokens are consistent: the csrf token is well formed, and the
      access token is the one inside the cached refresh payload, or empty
      when there is none. */
  ghost predicate SessionOk(s: Session) {
    && IsCsrfToken(s.csrf)
    && (s.refreshResult.None? ==> s.access == NoToken)
    && (s.refreshResult.Some? ==> TokenOf(s.refreshResult.value) == Some(s.access))
  }

  /** The `catch` of `refreshAuthentications`: new csrf token, both tokens
      cleared, an alert, and the redirect to the sign-in page. */
  function ResetAfterFailedRefresh(s: Session, e: Entropy, reason: Thrown): (r: Session)
    ensures IsCsrfToken(r.csrf) && r.access == NoToken && r.refreshResult.None? && r.redirected
    ensures r.alerts == s.alerts + [if reason.Categorized? then reason.error.message else SessionExpired]
    ensures r.sent == s.sent
  {
    GeneratedTokenIsCsrfToken(e);
    var shown := if reason.Categorized? then reason.error.message else SessionExpired;
    s.(csrf := GenerateRandomSecureToken(e), access := NoToken, refreshResult := None,
       alerts := s.alerts + [shown], redirected := true)
  }

  datatype RefreshStatus = Refreshed | SignedOut | RefreshPending

  /** `apiRequest(verb, url, tokenRequired, data)` from session `s`. A 401 on
      any url but the refresh endpoint refreshes the session and then
      issues the same request again, whatever the refresh did. */
  function Request(s: Session, verb: string, url: string, tokenRequired: bool, data: Json,
                   script: seq<Exchange>): (res: (Outcome, Session, seq<Exchange>))
    ensures res.0.NotAllowedMethod? <==> verb !in AllowedMethods
    ensures verb !in AllowedMethods ==> res == (NotAllowedMethod, s, script)
    ensures |res.2| <= |script|
    ensures res.0.Resolved? || res.0.Rejected? ==> |res.2| < |script|
    decreases |script|, 0
  {
    if verb !in AllowedMethods then (NotAllowedMethod, s, script)
    else
      var s1 := s.(sent := s.sent + [BuildRequest(s.csrf, s.access, verb, url, tokenRequired, data)]);
      if script == [] then (Pending, s1, script)
      else
        match Attempt(verb, url, script[0].result)
        case Settled(o) => (o, s1, script[1..])
        case Unauthorized =>
          var (status, s2, rest) := Refresh(s1, script[1..]);
          if status == RefreshPending then (Pending, s2, rest)
          else Request(s2, verb, url, tokenRequired, data, rest)
  }

  /** `refreshAuthentications()`: POST to the refresh endpoint; on a
      successful envelope store the new access token and payload, on any
      failure reset the session. It never rejects. */
  function Refresh(s: Session, script: seq<Exchange>): (res: (RefreshStatus, Session, seq<Exchange>))
    ensures |res.2| <= |script|
    ensures res.0 != RefreshPending ==> |res.2| < |script|
    decreases |script|, 1
  {
    var (o, s1, rest) := Request(s, "POST", RefreshUrl, false, JObj(map[]), script);
    match o
    case Pending => (RefreshPending, s1, rest)
    case NotAllowedMethod => assert false; (RefreshPending, s1, rest)
    case Rejected(err) => (SignedOut, ResetAfterFailedRefresh(s1, script[0].entropy, Categorized(err)), rest)
    case Resolved(body) =>
      match NewApiResult(Some(body))
      case Err(reason) => (SignedOut, ResetAfterFailedRefresh(s1, script[0].entropy, reason), rest)
      case Ok(result) =>
        if Truthy(result.success) then
          match TokenOf(result.data)
          case Some(token) => (Refreshed, s1.(access := token, refreshResult := Some(result.data)), rest)
          case None => (SignedOut, ResetAfterFailedRefresh(s1, script[0].entropy, Uncategorized(TypeError)), rest)
        else
          var failure := NewError(SessionExpired, RefreshUnsuccessful(result.code.GetOr(0), result.code.Some?));
          (SignedOut, ResetAfterFailedRefresh(s1, script[0].entropy, Categorized(failure)), rest)
  }

  /** `signout()`: POST `{signout: true}` to the signout endpoint; when it
      resolves, or when starting it throws, reset both tokens and the csrf
      token (from `e`) and redirect. A rejection is not handled. */
  function Signout(s: Session, script: seq<Exchange>, e: Entropy): (res: (Outcome, Session, seq<Exchange>))
    ensures var (o, s1, rest) := Request(s, "POST", SignoutUrl, false, JObj(map["signout" := JBool(true)]), script);
            && !o.NotAllowedMethod?
            && res.0 == o && res.2 == rest
            && (o.Resolved? ==> res.1 == s1.(csrf := GenerateRandomSecureToken(e), access := NoToken,
                                             refreshResult := None, redirected := true))
            && (!o.Resolved? ==> res.1 == s1)
  {
    var (o, s1, rest) := Request(s, "POST", SignoutUrl, false, JObj(map["signout" := JBool(true)]), script);
    if o.Resolved? || o.NotAllowedMethod? then
      (o, s1.(csrf := GenerateRandomSecureToken(e), access := NoToken, refreshResult := None, redirected := true), rest)
    else (o, s1, rest)
  }

  // ---------------------------------------------------------------- verb helpers

  datatype Verb = Get | Post | Put | Patch | Delete

  function VerbName(v: Verb): (m: string)
    ensures m in AllowedMethods
  {
    match v
    case Get => "GET"
    case Post => "POST"
    case Put => "PUT"
    case Patch => "PATCH"
    case Delete => "DELETE"
  }

  /** The `accessTokenRequired` flag a helper passes on, as api.js:254-258
      write it: the default is the undeclared name `False`, so omitting the
      flag throws a ReferenceError before any request starts. */
  function TokenFlagAsWritten(flag: Option<bool>): (r: Result<bool, Foreign>)
    ensures flag.None? ==> r == Err(ReferenceError)
  {
    match flag
    case Some(b) => Ok(b)
    case None => Err(ReferenceError)
  }

  /** The flag with the evidently intended default `false`. */
  function TokenFlag(flag: Option<bool>): (b: bool)
    ensures TokenFlagAsWritten(flag).Ok? ==> b == TokenFlagAsWritten(flag).value
    ensures flag.None? ==> !b
  {
    flag.GetOr(false)
  }

  // ---------------------------------------------------------------- the client object

  class DodoCoApi {
    var csrfToken: string
    var accessToken: Option<Json>
    var refreshResult: Option<Json>
    var redirected: bool
    var alerts: seq<Message>
    var sent: seq<FetchRequest>

    function State(): Session
      reads this
    {
      Session(csrfToken, accessToken, refreshResult, redirected, alerts, sent)
    }

    /** A new client: a fresh csrf token and no access token. */
    constructor (e: Entropy)
      ensures State() == InitialSession(e)
    {
      csrfToken := GenerateRandomSecureToken(e);
      accessToken := NoToken;
      refreshResult := None;
      redirected := false;
      alerts := [];
      sent := [];
    }

    method ApiRequest(verb: string, url: string, tokenRequired: bool, data: Json, script: seq<Exchange>)
      returns (outcome: Outcome, rest: seq<Exchange>)
      modifies this
      ensures (outcome, State(), rest) == Request(old(State()), verb, url, tokenRequired, data, script)
      decreases |script|, 0
    {
      if verb !in AllowedMethods {
        return NotAllowedMethod, script;
      }
      var request := BuildRequest(csrfToken, accessToken, verb, url, tokenRequired, data);
      sent := sent + [request];
      if script == [] {
        return Pending, script;
      }
      var step := Attempt(verb, url, script[0].result);
      match step {
        case Settled(o) =>
          outcome, rest := o, script[1..];
        case Unauthorized =>
          var status, left := RefreshAuthentications(script[1..]);
          if status == RefreshPending {
            outcome, rest := Pending, left;
          } else {
            outcome, rest := ApiRequest(verb, url, tokenRequired, data, left);
          }
      }
    }

    method RefreshAuthentications(script: seq<Exchange>) returns (status: RefreshStatus, rest: seq<Exchange>)
      modifies this
      ensures (status, State(), rest) == Refresh(old(State()), script)
      decreases |script|, 1
    {
      var outcome;
      outcome, rest := ApiRequest("POST", RefreshUrl, false, JObj(map[]), script);
      var reason: Thrown;
      match outcome {
        case Pending =>
          return RefreshPending, rest;
        case NotAllowedMethod =>
          assert false;
        case Rejected(err) =>
          reason := Categorized(err);
        case Resolved(body) =>
          var result := NewApiResult(Some(body));
          if result.Err? {
            reason := result.error;
          } else if Truthy(result.value.success) {
            var token := TokenOf(result.value.data);
            if token.Some? {
              accessToken := token.value;
              refreshResult := Some(result.value.data);
              return Refreshed, rest;
            }
            reason := Uncategorized(TypeError);
          } else {
            // api.js:190-192: `NewApiResult` has already rejected an
            // envelope whose `success` is falsy
            assert false;
          }
      }
      ResetSession(script[0].entropy, reason);
      status := SignedOut;
    }

    /** The `catch` block of `refreshAuthentications()`: drop the tokens and
        the payload, show the error and redirect to the sign-in page. */
    method ResetSession(e: Entropy, reason: Thrown)
      modifies this
      ensures State() == ResetAfterFailedRefresh(old(State()), e, reason)
    {
      accessToken := NoToken;
      csrfToken := GenerateRandomSecureToken(e);
      refreshResult := None;
      alerts := alerts + [if reason.Categorized? then reason.error.message else SessionExpired];
      redirected := true;
    }

    method SignOut(script: seq<Exchange>, e: Entropy) returns (outcome: Outcome, rest: seq<Exchange>)
      modifies this
      ensures (outcome, State(), rest) == Signout(old(State()), script, e)
    {
      outcome, rest := ApiRequest("POST", SignoutUrl, false, JObj(map["signout" := JBool(true)]), script);
      if outcome.Resolved? || outcome.NotAllowedMethod? {
        csrfToken := GenerateRandomSecureToken(e);
        accessToken := NoToken;
        refreshResult := None;
        redirected := true;
      }
    }

    /** The `roles` getter. `claim` is the role claim the token decodes to. */
    method GetRoles(claim: Option<Json>, script: seq<Exchange>)
      returns (roles: seq<map<string, Roles.RoleValue>>, rest: seq<Exchange>)
      modifies this
      ensures (roles, State(), rest) == RolesGetter(old(State()), claim, script)
    {
      if TokenMissing(accessToken) {
        var status;
        status, rest := RefreshAuthentications(script);
        // `split` on the missing token throws, and the catch keeps `[]`
        roles := [];
      } else {
        roles := Roles.Roles(claim);
        rest := script;
      }
    }

    /** `get`, `post`, `put`, `patch` and `delete`, with the flag's default
        corrected to `false`. */
    method Call(v: Verb, url: string, data: Json, flag: Option<bool>, script: seq<Exchange>)
      returns (outcome: Outcome, rest: seq<Exchange>)
      modifies this
      ensures (outcome, State(), rest) == Request(old(State()), VerbName(v), url, TokenFlag(flag), data, script)
      ensures !outcome.NotAllowedMethod?
    {
      outcome, rest := ApiRequest(VerbName(v), url, TokenFlag(flag), data, script);
    }
  }

  /** The module-level `dodocoApiInstance`: the constructor hands back the
      first client ever made. */
  class ApiInstance {
    var instance: DodoCoApi?

    constructor ()
      ensures instance == null
    {
      instance := null;
    }

    method Get(e: Entropy) returns (api: DodoCoApi)
      modifies this
      ensures old(instance) != null ==> api == old(instance)
      ensures old(instance) == null ==> fresh(api) && api.State() == InitialSession(e)
      ensures instance == api
    {
      if instance != null {
        return instance;
      }
      api := new DodoCoApi(e);
      instance := api;
    }
  }

  // ---------------------------------------------------------------- properties of a request

  /** The request a refresh sends from session `s`. */
  function RefreshRequest(s: Session): FetchRequest {
    BuildRequest(s.csrf, s.access, "POST", RefreshUrl, false, JObj(map[]))
  }

  /** A pass-through status hands its body to the caller after exactly one
      exchange, and the only change to the session is the logged request. */
  lemma PassThroughResolves(s: Session, verb: string, url: string, flag: bool, data: Json,
                            status: int, body: Json, e: Entropy, more: seq<Exchange>)
    requires verb in AllowedMethods && PassesBodyThrough(status)
    ensures Request(s, verb, url, flag, data, [Exchange(Response(status, Some(body)), e)] + more)
         == (Resolved(body), s.(sent := s.sent + [BuildRequest(s.csrf, s.access, verb, url, flag, data)]), more)
  {
    var script := [Exchange(Response(status, Some(body)), e)] + more;
    assert script[0].result == Response(status, Some(body)) && script[1..] == more;
  }

  /** A 401 from the refresh endpoint is not retried: the refresh fails at
      once with the session-expired error, and the session is reset. */
  lemma RefreshEndpointUnauthorized(s: Session, b: Option<Json>, e: Entropy, more: seq<Exchange>)
    ensures Refresh(s, [Exchange(Response(401, b), e)] + more)
         == (SignedOut,
             ResetAfterFailedRefresh(s.(sent := s.sent + [RefreshRequest(s)]), e,
                                     Categorized(NewError(SessionExpired, RefreshEndpointRejected))),
             more)
  {
    var script := [Exchange(Response(401, b), e)] + more;
    assert script[0] == Exchange(Response(401, b), e) && script[1..] == more;
  }

  /** The refresh endpoint is asked exactly once: its 401 is never
      retried, so the refresh's own request settles with the first answer. */
  lemma RefreshRequestOnce(s: Session, script: seq<Exchange>)
    requires script != []
    ensures Attempt("POST", RefreshUrl, script[0].result).Settled?
    ensures Request(s, "POST", RefreshUrl, false, JObj(map[]), script)
         == (Attempt("POST", RefreshUrl, script[0].result).outcome, s.(sent := s.sent + [RefreshRequest(s)]), script[1..])
  {
  }

  /** The two ways a refresh ends, by what the network answered its single
      request. It is `Refreshed` exactly when the answer is a body that
      makes a successful envelope whose `data.user.access_token` can be
      read; the session then holds that payload and the token value read
      from it, and its csrf token, alerts and redirect are untouched.
      Otherwise it is `SignedOut`: a new csrf token from the exchange's
      entropy, both tokens cleared, the redirect, and one alert, which is
      the message of a `DodoCoError` and the session-expired text for any
      other exception. */
  lemma RefreshTransitions(s: Session, script: seq<Exchange>)
    ensures var (status, after, rest) := Refresh(s, script);
            var sent := s.sent + [RefreshRequest(s)];
            && after.sent == sent
            && (status == RefreshPending <==> script == [])
            && (status == RefreshPending ==> after == s.(sent := sent) && rest == [])
            && (status != RefreshPending ==> rest == script[1..])
    ensures script != [] ==>
            var (status, after, _) := Refresh(s, script);
            var sent := s.sent + [RefreshRequest(s)];
            var answer := script[0].result;
            var envelope := NewApiResult(if answer.Response? then answer.body else None);
            && (status == Refreshed <==>
                  answer.Response? && PassesBodyThrough(answer.status) && answer.body.Some?
                  && envelope.Ok? && TokenOf(envelope.value.data).Some?)
            && (status == Refreshed ==>
                  after == s.(sent := sent, access := TokenOf(envelope.value.data).value,
                              refreshResult := Some(envelope.value.data)))
            && (status == SignedOut ==>
                  var o := Attempt("POST", RefreshUrl, answer).outcome;
                  var shown :=
                    if o.Rejected? then o.error.message
                    else if envelope.Err? && envelope.error.Categorized? then envelope.error.error.message
                    else SessionExpired;
                  after == s.(sent := sent, csrf := GenerateRandomSecureToken(script[0].entropy), access := NoToken,
                              refreshResult := None, redirected := true, alerts := s.alerts + [shown]))
  {
    if script != [] {
      RefreshRequestOnce(s, script);
    }
  }

  /** The session after a refresh that returned `payload` with a token. */
  function RefreshedSession(s: Session, token: Option<Json>, data: Json): Session {
    s.(access := token, refreshResult := Some(data))
  }

  /** A 401 on any other url, answered by a successful refresh, leads to the
      very same request being issued again from the refreshed session, with
      the same verb, url, flag and data. Nothing counts the retries: the
      retried request is handled like the first one, so another 401 causes
      another refresh and another retry. */
  lemma UnauthorizedThenRefreshed(s: Session, verb: string, url: string, flag: bool, data: Json,
                                  b: Option<Json>, e1: Entropy, payload: Json, e2: Entropy,
                                  more: seq<Exchange>)
    requires verb in AllowedMethods && url != RefreshUrl
    requires NewApiResult(Some(payload)).Ok?
    requires TokenOf(NewApiResult(Some(payload)).value.data).Some?
    ensures var s1 := s.(sent := s.sent + [BuildRequest(s.csrf, s.access, verb, url, flag, data)]);
            var s2 := s1.(sent := s1.sent + [RefreshRequest(s1)]);
            var d := NewApiResult(Some(payload)).value.data;
            Request(s, verb, url, flag, data,
                    [Exchange(Response(401, b), e1), Exchange(Response(200, Some(payload)), e2)] + more)
            == Request(RefreshedSession(s2, TokenOf(d).value, d), verb, url, flag, data, more)
  {
    var script := [Exchange(Response(401, b), e1), Exchange(Response(200, Some(payload)), e2)] + more;
    var s1 := s.(sent := s.sent + [BuildRequest(s.csrf, s.access, verb, url, flag, data)]);
    assert script[0].result == Response(401, b);
    var tail := script[1..];
    assert tail[0].result == Response(200, Some(payload)) && tail[1..] == more;
    assert Request(s1, "POST", RefreshUrl, false, JObj(map[]), tail)
        == (Resolved(payload), s1.(sent := s1.sent + [RefreshRequest(s1)]), more);
  }

  /** Requests only ever append to the log of sent requests. */
  lemma {:induction false} RequestOnlyAppends(s: Session, verb: string, url: string, flag: bool,
                                              data: Json, script: seq<Exchange>)
    ensures s.sent <= Request(s, verb, url, flag, data, script).1.sent
    decreases |script|, 0
  {
    if verb in AllowedMethods && script != [] {
      var s1 := s.(sent := s.sent + [BuildRequest(s.csrf, s.access, verb, url, flag, data)]);
      if Attempt(verb, url, script[0].result).Unauthorized? {
        RefreshOnlyAppends(s1, script[1..]);
        var (status, s2, rest) := Refresh(s1, script[1..]);
        if status != RefreshPending {
          RequestOnlyAppends(s2, verb, url, flag, data, rest);
        }
      }
    }
  }

  lemma {:induction false} RefreshOnlyAppends(s: Session, script: seq<Exchange>)
    ensures s.sent <= Refresh(s, script).1.sent
    decreases |script|, 1
  {
    RequestOnlyAppends(s, "POST", RefreshUrl, false, JObj(map[]), script);
  }

  /** The first thing an accepted request does is hand its own request,
      built from the tokens held at that moment, to `fetch`. */
  lemma RequestSendsItselfFirst(s: Session, verb: string, url: string, flag: bool,
                                data: Json, script: seq<Exchange>)
    requires verb in AllowedMethods
    ensures var after := Request(s, verb, url, flag, data, script).1;
            |s.sent| < |after.sent| &&
            after.sent[..|s.sent| + 1] == s.sent + [BuildRequest(s.csrf, s.access, verb, url, flag, data)]
  {
    var s1 := s.(sent := s.sent + [BuildRequest(s.csrf, s.access, verb, url, flag, data)]);
    if script != [] && Attempt(verb, url, script[0].result).Unauthorized? {
      RefreshOnlyAppends(s1, script[1..]);
      var (status, s2, rest) := Refresh(s1, script[1..]);
      if status != RefreshPending {
        RequestOnlyAppends(s2, verb, url, flag, data, rest);
      }
    }
  }

  /** The session's tokens stay consistent through any request, whatever
      the network answers. */
  lemma {:induction false} RequestKeepsSessionOk(s: Session, verb: string, url: string, flag: bool,
                                                 data: Json, script: seq<Exchange>)
    requires SessionOk(s)
    ensures SessionOk(Request(s, verb, url, flag, data, script).1)
    decreases |script|, 0
  {
    if verb in AllowedMethods && script != [] {
      var s1 := s.(sent := s.sent + [BuildRequest(s.csrf, s.access, verb, url, flag, data)]);
      if Attempt(verb, url, script[0].result).Unauthorized? {
        RefreshKeepsSessionOk(s1, script[1..]);
        var (status, s2, rest) := Refresh(s1, script[1..]);
        if status != RefreshPending {
          RequestKeepsSessionOk(s2, verb, url, flag, data, rest);
        }
      }
    }
  }

  lemma {:induction false} RefreshKeepsSessionOk(s: Session, script: seq<Exchange>)
    requires SessionOk(s)
    ensures SessionOk(Refresh(s, script).1)
    decreases |script|, 1
  {
    RequestKeepsSessionOk(s, "POST", RefreshUrl, false, JObj(map[]), script);
    if script != [] {
      var (o, s1, rest) := Request(s, "POST", RefreshUrl, false, JObj(map[]), script);
      var e := script[0].entropy;
      GeneratedTokenIsCsrfToken(e);
      forall reason ensures SessionOk(ResetAfterFailedRefresh(s1, e, reason)) {
        GeneratedTokenIsCsrfToken(e);
      }
      if o.Resolved? && NewApiResult(Some(o.body)).Ok? {
        var result := NewApiResult(Some(o.body)).value;
        if Truthy(result.success) && TokenOf(result.data).Some? {
          assert Refresh(s, script).1 == s1.(access := TokenOf(result.data).value, refreshResult := Some(result.data));
        }
      }
    }
  }

  /** A new client starts consistent, and sign-out keeps it so. */
  lemma SignoutKeepsSessionOk(s: Session, script: seq<Exchange>, e: Entropy)
    requires SessionOk(s)
    ensures SessionOk(Signout(s, script, e).1)
  {
    RequestKeepsSessionOk(s, "POST", SignoutUrl, false, JObj(map["signout" := JBool(true)]), script);
    GeneratedTokenIsCsrfToken(e);
  }

  lemma InitialSessionOk(e: Entropy)
    ensures SessionOk(InitialSession(e))
  {
    GeneratedTokenIsCsrfToken(e);
  }

  /** Sign-out never takes its `catch` branch (POST is an accepted verb),
      sends its request without the access token, and once the server
      answers with a body both tokens are cleared and a new csrf token is
      in place. */
  lemma SignoutBehaviour(s: Session, script: seq<Exchange>, e: Entropy)
    ensures var (o, after, _) := Signout(s, script, e);
            && !o.NotAllowedMethod?
            && |s.sent| < |after.sent|
            && after.sent[|s.sent|].target == BaseUrl + SignoutUrl
            && "Authorization" !in after.sent[|s.sent|].headers
            && after.sent[|s.sent|].body == Some(JObj(map["signout" := JBool(true)]))
            && (o.Resolved? ==> after.access == NoToken && after.refreshResult.None? && after.redirected
                                && after.csrf == GenerateRandomSecureToken(e))
  {
    var data := JObj(map["signout" := JBool(true)]);
    RequestSendsItselfFirst(s, "POST", SignoutUrl, false, data, script);
    var after := Request(s, "POST", SignoutUrl, false, data, script).1;
    assert after.sent[|s.sent|] == after.sent[..|s.sent| + 1][|s.sent|];
  }

  // ---------------------------------------------------------------- userID

  /** What `userID` reads: `refreshResult.user.id`. With no cached payload
      the getter starts a refresh it does not wait for and then reads a
      property of `null`, which throws. */
  function UserIdOf(refreshResult: Option<Json>): (r: Result<Option<Json>, Foreign>)
    ensures refreshResult.None? ==> r == Err(TypeError)
  {
    match refreshResult
    case None => Err(TypeError)
    case Some(data) =>
      match Path(data, ["user", "id"])
      case None => Err(TypeError)
      case Some(id) => Ok(id)
  }

  /** In a consistent session that holds a refresh payload, `userID` does
      not throw: the payload carried the token under `user`. */
  lemma UserIdAfterRefresh(s: Session)
    requires SessionOk(s) && s.refreshResult.Some?
    ensures UserIdOf(s.refreshResult).Ok?
  {
    var data := s.refreshResult.value;
    assert TokenOf(data).Some?;
    var user := Field(data, "user");
    assert data != JNull && user.Some?;
    assert Path(user.value, ["access_token", "token"]).Some?;
    assert user.value.JObj?;
    assert Path(data, ["user", "id"]) == Path(user.value, ["id"]);
  }

  // ---------------------------------------------------------------- roles

  /** `#accessToken` is `undefined` or `null`. */
  predicate TokenMissing(access: Option<Json>) {
    access.None? || access == Some(JNull)
  }

  /** The `roles` getter from session `s`. `claim` is the role claim of the
      token, parsed, and None when decoding the token or parsing the claim
      throws. With no token the getter first starts a refresh it does not
      wait for; `split` on the missing token then throws, so it returns no
      roles, and the session is the one the refresh leaves once its
      exchange settles. With a token nothing is sent. */
  function RolesGetter(s: Session, claim: Option<Json>, script: seq<Exchange>)
    : (res: (seq<map<string, Roles.RoleValue>>, Session, seq<Exchange>))
    ensures TokenMissing(s.access) ==>
              && res.0 == []
              && res.1.sent == s.sent + [RefreshRequest(s)]
              && res.2 == (if script == [] then [] else script[1..])
    ensures !TokenMissing(s.access) ==> res == (Roles.RolesFrom(claim), s, script)
  {
    if TokenMissing(s.access) then
      RefreshTransitions(s, script);
      var (_, after, rest) := Refresh(s, script);
      ([], after, rest)
    else (Roles.RolesFrom(claim), s, script)
  }

  /** Reading `roles` keeps the session's tokens consistent, whatever the
      refresh it may start is answered. */
  lemma RolesGetterKeepsSessionOk(s: Session, claim: Option<Json>, script: seq<Exchange>)
    requires SessionOk(s)
    ensures SessionOk(RolesGetter(s, claim, script).1)
  {
    if TokenMissing(s.access) {
      RefreshKeepsSessionOk(s, script);
    }
  }
}
