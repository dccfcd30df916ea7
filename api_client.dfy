/** The authenticated request client of `src/hooks/useApi.ts`.

    `apiCall` reads the access token from browser storage, sends the request with a
    bearer header, and on any non-ok answer refreshes the access token once and retries
    once. Control flow in the source is by thrown `Error`s and their message strings;
    here a thrown value is a `Thrown` and a computation that may throw yields a `Try`.
    `fetch` is a scripted server (a sequence of replies, consumed one per request, that
    records every request it receives), `localStorage` is a map from keys to strings,
    and `logout` is a counter. */
module ApiClient {
  import opened Wrappers
  import JsText

  // ----------------------------------------------------------------------------
  // JavaScript values
  // ----------------------------------------------------------------------------

  /** A JSON value as `response.json()` produces it (numbers restricted to integers). */
  datatype Json =
    | JNull
    | JBool(b: bool)
    | JNum(n: int)
    | JStr(s: string)
    | JArr(items: seq<Json>)
    | JObj(fields: map<string, Json>)

  /** A JavaScript value that the client passes around: `undefined` or a JSON value. */
  datatype JsValue = Undefined | Defined(json: Json)

  /** A thrown value: an `Error` with its message, or something that is not an `Error`. */
  datatype Thrown = Error(message: string) | NonError

  /** The outcome of JavaScript code that either returns a value or throws. */
  datatype Try<+T> = Value(value: T) | Throw(thrown: Thrown)

  /** JavaScript truthiness: `null`, `undefined`, `false`, `0` and `""` are falsy. */
  predicate Truthy(v: JsValue)
    ensures !Truthy(v) <==>
              || v == Undefined || v == Defined(JNull) || v == Defined(JBool(false))
              || v == Defined(JNum(0)) || v == Defined(JStr(""))
  {
    match v
    case Undefined => false
    case Defined(j) =>
      match j
      case JNull => false
      case JBool(b) => b
      case JNum(n) => n != 0
      case JStr(s) => s != ""
      case JArr(_) => true
      case JObj(_) => true
  }

  /** `String(j)` for a JSON value; inside an array `null` renders as the empty string.
      A string is its own rendering, and the rendering of a number parses back to it. */
  function JsonString(j: Json): (r: string)
    ensures j.JStr? ==> r == j.s
    ensures j.JNum? ==> JsText.ParseInt(r) == Some(j.n)
  {
    match j
    case JNull => "null"
    case JBool(b) => if b then "true" else "false"
    case JNum(n) => JsText.IntRoundTrip(n); JsText.IntToString(n)
    case JStr(s) => s
    case JArr(items) =>
      JsText.Join(seq(|items|, i requires 0 <= i < |items| =>
                        if items[i].JNull? then "" else JsonString(items[i])), ",")
    case JObj(_) => "[object Object]"
  }

  /** `String(v)`, which is also what `localStorage.setItem` stores and what a template
      literal inserts. */
  function JsString(v: JsValue): string {
    match v
    case Undefined => "undefined"
    case Defined(j) => JsonString(j)
  }

  // ----------------------------------------------------------------------------
  // The world one call acts on
  // ----------------------------------------------------------------------------

  /** What `response.json()` does with a response body: parse it, or throw. */
  datatype Body = Parsed(json: Json) | Unparsable(error: Thrown)

  /** What the server does with one `fetch`: answer with a status and a body, or make
      `fetch` reject (network failure). */
  datatype Reply = Response(status: int, body: Body) | Rejected(error: Thrown)

  /** `response.ok`: the status is in the 200-299 range. */
  predicate IsOk(status: int) {
    200 <= status <= 299
  }

  /** A request as the server receives it. `authorization` is the `Authorization` header
      when there is one; `body` is the JSON body when there is one. */
  datatype Request = Request(
    url: string,
    httpMethod: string,
    contentType: string,
    authorization: Option<string>,
    body: Option<Json>)

  /** The `{data, error, isLoading}` value `apiCall` resolves to. `data` is `JNull` when
      it is `null`, which is also what a successful request whose body is `null` yields;
      an absent `error` is `null`. */
  datatype Envelope = Envelope(data: Json, error: Option<string>, isLoading: bool)

  /** Browser storage, the server's replies still to come, the requests it has received,
      and how many times `logout` has been called. */
  datatype World = World(
    storage: map<string, string>,
    replies: seq<Reply>,
    sent: seq<Request>,
    logouts: nat)

  /** The world after a step, and what the step returned or threw. */
  datatype Step<+T> = Step(world: World, result: Try<T>)

  /** The world after a call, and the envelope the call resolved to. */
  datatype Outcome = Outcome(world: World, envelope: Envelope)

  const AccessKey := "accessToken"
  const RefreshKey := "refreshToken"
  const RefreshUrl := "/api/v1/accounts/token/refresh/"
  const JsonContentType := "application/json"

  const ApiRequestFailed := "API request failed"
  const NoRefreshToken := "No refresh token available"
  const FailedToRefresh := "Failed to refresh token"
  const UnknownError := "An unknown error occurred"

  /** The message of the TypeError thrown when reading `access` of a `null` body (the
      wording of V8, the engine of the browsers the application targets). */
  const NullAccessMessage := "Cannot read properties of null (reading 'access')"

  /** `localStorage.getItem(key)`: the stored string, or `null`. */
  function GetItem(storage: map<string, string>, key: string): (v: JsValue)
    ensures v.Defined? && (v.json == JNull <==> key !in storage)
    ensures key in storage ==> v.json.JStr? && JsString(v) == storage[key]
  {
    if key in storage then Defined(JStr(storage[key])) else Defined(JNull)
  }

  /** The `Authorization` header for a token: `Bearer <token>` when the token is truthy,
      none otherwise. */
  function AuthHeader(token: JsValue): (h: Option<string>)
    ensures token == Undefined || token == Defined(JNull) ==> h == None
    ensures token.Defined? && token.json.JStr? ==>
              (h.Some? <==> token.json.s != "") && (h.Some? ==> h.value == "Bearer " + token.json.s)
  {
    if Truthy(token) then Some("Bearer " + JsString(token)) else None
  }

  /** The request `makeRequest(token)` sends: JSON content type always, the bearer header
      when the token is truthy, the body when the caller's body is truthy (an object, not
      `null`). */
  function TargetRequest(url: string, httpMethod: string, body: Json, token: JsValue): (r: Request)
    ensures r.url == url && r.httpMethod == httpMethod && r.contentType == JsonContentType
    ensures token == Undefined || token == Defined(JNull) || token == Defined(JStr("")) ==> r.authorization == None
    ensures token.Defined? && token.json.JStr? && token.json.s != "" ==> r.authorization == Some("Bearer " + token.json.s)
    ensures body == JNull ==> r.body == None
    ensures body.JObj? || body.JArr? ==> r.body == Some(body)
    ensures r.body.Some? ==> r.body.value == body
  {
    Request(url, httpMethod, JsonContentType, AuthHeader(token), if Truthy(Defined(body)) then Some(body) else None)
  }

  /** The token-exchange request: a POST of `{refresh: <refresh token>}`, no bearer header. */
  function RefreshRequest(refreshToken: string): (r: Request)
    ensures r.url == RefreshUrl && r.httpMethod == "POST" && r.contentType == JsonContentType
    ensures r.authorization == None
    ensures r.body.Some? && r.body.value.JObj? && r.body.value.fields.Keys == {"refresh"}
    ensures r.body.value.fields["refresh"] == JStr(refreshToken)
  {
    Request(RefreshUrl, "POST", JsonContentType, None, Some(JObj(map["refresh" := JStr(refreshToken)])))
  }

  /** One `fetch`: the server records `req` and answers with its next reply. */
  function Fetch(w: World, req: Request): (r: (World, Reply))
    requires |w.replies| >= 1
    ensures r.0 == w.(replies := w.replies[1..], sent := w.sent + [req])
    ensures r.1 == w.replies[0]
  {
    (w.(replies := w.replies[1..], sent := w.sent + [req]), w.replies[0])
  }

  /** How many replies a step consumed, and that it consumed them in order: the requests
      it sent are appended to `sent`, one reply dropped for each. */
  ghost predicate Consumed(w: World, w': World, k: nat)
  {
    && |w.replies| >= k
    && w'.replies == w.replies[k..]
    && |w'.sent| == |w.sent| + k
    && w'.sent[..|w.sent|] == w.sent
  }

  // ----------------------------------------------------------------------------
  // makeRequest, refreshAccessToken, apiCall as functions of the world
  // ----------------------------------------------------------------------------

  /** What `makeRequest` makes of the server's reply: a non-ok answer throws
      `Error('API request failed')`, an ok answer yields the parsed body, a rejected
      `fetch` or an unparsable body throws what they throw. */
  function Answer(reply: Reply): (t: Try<Json>)
    ensures t.Value? <==> reply.Response? && IsOk(reply.status) && reply.body.Parsed?
    ensures reply.Response? && !IsOk(reply.status) ==> t == Throw(Error(ApiRequestFailed))
  {
    match reply
    case Rejected(e) => Throw(e)
    case Response(status, b) =>
      if !IsOk(status) then Throw(Error(ApiRequestFailed))
      else match b
        case Parsed(j) => Value(j)
        case Unparsable(e) => Throw(e)
  }

  /** `makeRequest(token)`: one request to the target, answered by the next reply. */
  function Attempt(w: World, url: string, httpMethod: string, body: Json, token: JsValue)
    : (r: Step<Json>)
    requires |w.replies| >= 1
    ensures Consumed(w, r.world, 1)
    ensures r.world.sent[|w.sent|] == TargetRequest(url, httpMethod, body, token)
    ensures r.world.storage == w.storage && r.world.logouts == w.logouts
    ensures r.result == Answer(w.replies[0])
  {
    var (w1, reply) := Fetch(w, TargetRequest(url, httpMethod, body, token));
    Step(w1, Answer(reply))
  }

  /** `data.access` of a parsed body: `null` throws a TypeError, an object yields its
      `access` member or `undefined`, any other value has no such property. */
  function AccessOf(j: Json): (r: Try<JsValue>)
    ensures r.Throw? <==> j == JNull
    ensures r.Throw? ==> r.thrown == Error(NullAccessMessage)
    ensures r.Value? && r.value.Defined? <==> j.JObj? && "access" in j.fields
    ensures r.Value? && r.value.Defined? ==> r.value.json == j.fields["access"]
  {
    match j
    case JNull => Throw(Error(NullAccessMessage))
    case JObj(fields) => Value(if "access" in fields then Defined(fields["access"]) else Undefined)
    case _ => Value(Undefined)
  }

  /** There is a refresh token: `localStorage.getItem('refreshToken')` is truthy. */
  predicate HasRefreshToken(storage: map<string, string>)
    ensures HasRefreshToken(storage) <==> Truthy(GetItem(storage, RefreshKey))
  {
    RefreshKey in storage && storage[RefreshKey] != ""
  }

  /** `refreshAccessToken()`: without a refresh token, throw before any request; otherwise
      exchange it, throw `Error('Failed to refresh token')` on a non-ok answer, and on
      success store `String(data.access)` under `accessToken` and return `data.access`. */
  function Refresh(w: World): (r: Step<JsValue>)
    requires |w.replies| >= 1
    ensures r.world.logouts == w.logouts
    ensures !HasRefreshToken(w.storage) ==> r == Step(w, Throw(Error(NoRefreshToken)))
    ensures HasRefreshToken(w.storage) ==>
              && Consumed(w, r.world, 1)
              && r.world.sent[|w.sent|] == RefreshRequest(w.storage[RefreshKey])
    ensures HasRefreshToken(w.storage) && w.replies[0].Response? && !IsOk(w.replies[0].status) ==>
              r.result == Throw(Error(FailedToRefresh))
    ensures r.result.Throw? ==> r.world.storage == w.storage
    ensures r.result.Value? ==> r.world.storage == w.storage[AccessKey := JsString(r.result.value)]
  {
    if !HasRefreshToken(w.storage) then Step(w, Throw(Error(NoRefreshToken)))
    else
      var (w1, reply) := Fetch(w, RefreshRequest(w.storage[RefreshKey]));
      match reply
      case Rejected(e) => Step(w1, Throw(e))
      case Response(status, b) =>
        if !IsOk(status) then Step(w1, Throw(Error(FailedToRefresh)))
        else match b
          case Unparsable(e) => Step(w1, Throw(e))
          case Parsed(j) =>
            match AccessOf(j)
            case Throw(e) => Step(w1, Throw(e))
            case Value(access) => Step(w1.(storage := w1.storage[AccessKey := JsString(access)]), Value(access))
  }

  /** The end of `apiCall`: a value becomes `{data, error: null}`; an `Error` becomes an
      envelope carrying its message and calls `logout` when that message is
      'Failed to refresh token'; anything else becomes 'An unknown error occurred'. */
  function Resolve(w: World, t: Try<Json>): (r: Outcome)
    ensures !r.envelope.isLoading
    ensures r.envelope.error.None? <==> t.Value?
    ensures r.envelope.error.Some? ==> r.envelope.data == JNull
    ensures t.Value? ==> r.envelope.data == t.value
    ensures t.Throw? && t.thrown.Error? ==> r.envelope.error == Some(t.thrown.message)
    ensures t == Throw(NonError) ==> r.envelope.error == Some(UnknownError)
    ensures r.world == w.(logouts := w.logouts + if r.envelope.error == Some(FailedToRefresh) then 1 else 0)
  {
    match t
    case Value(data) => Outcome(w, Envelope(data, None, false))
    case Throw(Error(m)) =>
      Outcome(w.(logouts := w.logouts + if m == FailedToRefresh then 1 else 0), Envelope(JNull, Some(m), false))
    case Throw(NonError) => Outcome(w, Envelope(JNull, Some(UnknownError), false))
  }

  /** `apiCall(url, method, body)`: one request; when it throws 'API request failed', one
      refresh and one retry whose result is final; every other throw is settled as it is. */
  function Call(w: World, url: string, httpMethod: string, body: Json): (r: Outcome)
    requires |w.replies| >= 3
    ensures !r.envelope.isLoading
    ensures r.envelope.error.Some? ==> r.envelope.data == JNull
    ensures |w.sent| + 1 <= |r.world.sent| <= |w.sent| + 3
    ensures Consumed(w, r.world, |r.world.sent| - |w.sent|)
    ensures r.world.sent[|w.sent|] == TargetRequest(url, httpMethod, body, GetItem(w.storage, AccessKey))
    ensures |r.world.sent| >= |w.sent| + 2 ==>
              && Answer(w.replies[0]) == Throw(Error(ApiRequestFailed)) && HasRefreshToken(w.storage)
              && r.world.sent[|w.sent| + 1] == RefreshRequest(w.storage[RefreshKey])
    ensures |r.world.sent| == |w.sent| + 2 ==> r.world.storage == w.storage
    ensures |r.world.sent| == |w.sent| + 3 ==>
              var refreshed := Refresh(Attempt(w, url, httpMethod, body, GetItem(w.storage, AccessKey)).world);
              && refreshed.result.Value?
              && r.world.sent[|w.sent| + 2] == TargetRequest(url, httpMethod, body, refreshed.result.value)
              && r.world.storage == w.storage[AccessKey := JsString(refreshed.result.value)]
    ensures r.world.logouts == w.logouts + if r.envelope.error == Some(FailedToRefresh) then 1 else 0
    ensures r.world.storage - {AccessKey} == w.storage - {AccessKey}
  {
    var first := Attempt(w, url, httpMethod, body, GetItem(w.storage, AccessKey));
    if first.result != Throw(Error(ApiRequestFailed)) then Resolve(first.world, first.result)
    else
      var refreshed := Refresh(first.world);
      match refreshed.result
      case Throw(e) => Resolve(refreshed.world, Throw(e))
      case Value(token) =>
        var second := Attempt(refreshed.world, url, httpMethod, body, token);
        Resolve(second.world, second.result)
  }

  // ----------------------------------------------------------------------------
  // Properties of one call
  // ----------------------------------------------------------------------------

  /** The world after the first request alone. */
  function AfterFirst(w: World, url: string, httpMethod: string, body: Json): World
    requires |w.replies| >= 1
  {
    w.(replies := w.replies[1..],
       sent := w.sent + [TargetRequest(url, httpMethod, body, GetItem(w.storage, AccessKey))])
  }

  /** A 2xx first answer with a parsable body resolves the call with that body after
      exactly one request: no refresh, no storage write, no logout. */
  lemma FirstSuccessShortCircuits(w: World, url: string, httpMethod: string, body: Json)
    requires |w.replies| >= 3
    requires w.replies[0].Response? && IsOk(w.replies[0].status) && w.replies[0].body.Parsed?
    ensures Call(w, url, httpMethod, body) ==
              Outcome(AfterFirst(w, url, httpMethod, body), Envelope(w.replies[0].body.json, None, false))
  {
  }

  /** The first request carries `Authorization: Bearer <stored token>` exactly when a
      non-empty access token is stored, and carries the caller's body exactly when there
      is one. */
  lemma FirstRequestHeaders(w: World, url: string, httpMethod: string, body: Json)
    requires |w.replies| >= 3
    ensures var req := Call(w, url, httpMethod, body).world.sent[|w.sent|];
            && req.url == url && req.httpMethod == httpMethod && req.contentType == JsonContentType
            && (req.authorization.Some? <==> AccessKey in w.storage && w.storage[AccessKey] != "")
            && (req.authorization.Some? ==> req.authorization.value == "Bearer " + w.storage[AccessKey])
            && (body.JObj? || body.JArr? ==> req.body == Some(body))
            && (body == JNull ==> req.body == None)
  {
  }

  /** A non-ok first answer, a stored refresh token and an exchange that yields an access
      value lead to exactly three requests: the target with the stored token, the
      exchange with the stored refresh token, and the target again with the new token.
      The new token is stored, `refreshToken` is untouched, and the retry's answer is
      final: it resolves the call however it turns out. */
  lemma RefreshThenRetry(w: World, url: string, httpMethod: string, body: Json)
    requires |w.replies| >= 3
    requires w.replies[0].Response? && !IsOk(w.replies[0].status)
    requires HasRefreshToken(w.storage)
    requires w.replies[1].Response? && IsOk(w.replies[1].status) && w.replies[1].body.Parsed?
    requires AccessOf(w.replies[1].body.json).Value?
    ensures var token := AccessOf(w.replies[1].body.json).value;
            var r := Call(w, url, httpMethod, body);
            var w3 := w.(storage := w.storage[AccessKey := JsString(token)],
                         replies := w.replies[3..],
                         sent := w.sent + [TargetRequest(url, httpMethod, body, GetItem(w.storage, AccessKey)),
                                           RefreshRequest(w.storage[RefreshKey]),
                                           TargetRequest(url, httpMethod, body, token)]);
            r == Resolve(w3, Answer(w.replies[2]))
  {
    var first := Attempt(w, url, httpMethod, body, GetItem(w.storage, AccessKey));
    var refreshed := Refresh(first.world);
    assert refreshed.world.sent == first.world.sent + [RefreshRequest(w.storage[RefreshKey])];
  }

  /** A retry that is answered non-ok ends the call with 'API request failed': three
      requests in all, one refresh, no second refresh and no logout. */
  lemma SecondFailureIsFinal(w: World, url: string, httpMethod: string, body: Json)
    requires |w.replies| >= 3
    requires w.replies[0].Response? && !IsOk(w.replies[0].status)
    requires HasRefreshToken(w.storage)
    requires w.replies[1].Response? && IsOk(w.replies[1].status) && w.replies[1].body.Parsed?
    requires AccessOf(w.replies[1].body.json).Value?
    requires w.replies[2].Response? && !IsOk(w.replies[2].status)
    ensures var r := Call(w, url, httpMethod, body);
            && r.envelope == Envelope(JNull, Some(ApiRequestFailed), false)
            && |r.world.sent| == |w.sent| + 3
            && r.world.logouts == w.logouts
  {
    RefreshThenRetry(w, url, httpMethod, body);
  }

  /** After a successful exchange the retry presents exactly the token just stored
      whenever that token is truthy. */
  lemma RetryUsesStoredToken(w: World, url: string, httpMethod: string, body: Json)
    requires |w.replies| >= 3
    requires w.replies[0].Response? && !IsOk(w.replies[0].status)
    requires HasRefreshToken(w.storage)
    requires w.replies[1].Response? && IsOk(w.replies[1].status) && w.replies[1].body.Parsed?
    requires AccessOf(w.replies[1].body.json).Value?
    requires Truthy(AccessOf(w.replies[1].body.json).value)
    ensures var r := Call(w, url, httpMethod, body);
            && |r.world.sent| == |w.sent| + 3
            && r.world.sent[|w.sent| + 2].authorization == Some("Bearer " + r.world.storage[AccessKey])
  {
    RefreshThenRetry(w, url, httpMethod, body);
  }

  /** An exchange whose body has no `access` member stores the string "undefined" as the
      access token; the retry goes out without a bearer header, and the next call
      presents `Bearer undefined`. */
  lemma RefreshWithoutAccessMember(w: World, url: string, httpMethod: string, body: Json)
    requires |w.replies| >= 3
    requires w.replies[0].Response? && !IsOk(w.replies[0].status)
    requires HasRefreshToken(w.storage)
    requires w.replies[1] == Response(200, Parsed(JObj(map[])))
    ensures var r := Call(w, url, httpMethod, body);
            && r.world.storage[AccessKey] == "undefined"
            && r.world.sent[|w.sent| + 2].authorization == None
            && AuthHeader(GetItem(r.world.storage, AccessKey)) == Some("Bearer undefined")
  {
    var first := Attempt(w, url, httpMethod, body, GetItem(w.storage, AccessKey));
    assert first.world.replies[0] == w.replies[1];
    assert AccessOf(JObj(map[])) == Value(Undefined);
    assert Refresh(first.world).result == Value(Undefined);
    RefreshThenRetry(w, url, httpMethod, body);
    var r := Call(w, url, httpMethod, body);
    assert |r.world.sent| == |w.sent| + 3;
    assert GetItem(r.world.storage, AccessKey) == Defined(JStr("undefined"));
    assert "Bearer " + "undefined" == "Bearer undefined";
  }

  /** Without a stored refresh token a non-ok first answer ends the call with
      'No refresh token available' after that one request: no exchange, no retry, no
      storage write and no logout. */
  lemma MissingRefreshToken(w: World, url: string, httpMethod: string, body: Json)
    requires |w.replies| >= 3
    requires w.replies[0].Response? && !IsOk(w.replies[0].status)
    requires !HasRefreshToken(w.storage)
    ensures Call(w, url, httpMethod, body) ==
              Outcome(AfterFirst(w, url, httpMethod, body), Envelope(JNull, Some(NoRefreshToken), false))
  {
  }

  /** An exchange answered non-ok ends the call with 'Failed to refresh token' after two
      requests: stored tokens unchanged, no retry, and `logout` called exactly once. */
  lemma RefreshRejected(w: World, url: string, httpMethod: string, body: Json)
    requires |w.replies| >= 3
    requires w.replies[0].Response? && !IsOk(w.replies[0].status)
    requires HasRefreshToken(w.storage)
    requires w.replies[1].Response? && !IsOk(w.replies[1].status)
    ensures var w1 := AfterFirst(w, url, httpMethod, body);
            Call(w, url, httpMethod, body) ==
              Outcome(w1.(replies := w.replies[2..],
                          sent := w1.sent + [RefreshRequest(w.storage[RefreshKey])],
                          logouts := w.logouts + 1),
                      Envelope(JNull, Some(FailedToRefresh), false))
  {
    var first := Attempt(w, url, httpMethod, body, GetItem(w.storage, AccessKey));
    assert first.world == AfterFirst(w, url, httpMethod, body);
  }

  /** An exchange that fails other than by a non-ok answer (a rejected `fetch`, an
      unparsable body, or a `null` body whose `access` cannot be read) is not retried
      and does not log out: the call ends after two requests with the thrown `Error`'s
      message, or 'An unknown error occurred' for a non-`Error`, storage unchanged. */
  lemma FailedExchangeNotRetried(w: World, url: string, httpMethod: string, body: Json, e: Thrown)
    requires |w.replies| >= 3
    requires w.replies[0].Response? && !IsOk(w.replies[0].status)
    requires HasRefreshToken(w.storage)
    requires || w.replies[1] == Rejected(e)
             || (w.replies[1].Response? && IsOk(w.replies[1].status) && w.replies[1].body == Unparsable(e))
             || (w.replies[1].Response? && IsOk(w.replies[1].status) && w.replies[1].body == Parsed(JNull)
                 && e == Error(NullAccessMessage))
    requires e != Error(FailedToRefresh)
    ensures var r := Call(w, url, httpMethod, body);
            && |r.world.sent| == |w.sent| + 2
            && r.world.storage == w.storage
            && r.world.logouts == w.logouts
            && r.envelope == Envelope(JNull, Some(if e.Error? then e.message else UnknownError), false)
  {
    var first := Attempt(w, url, httpMethod, body, GetItem(w.storage, AccessKey));
    var refreshed := Refresh(first.world);
    assert first.world.replies[0] == w.replies[1];
    assert refreshed.result == Throw(e);
  }

  /** A first request that fails other than by a non-ok answer (a rejected `fetch`, an
      unparsable body) is not retried: the call ends after that request with the thrown
      `Error`'s message, or 'An unknown error occurred' for a non-`Error`. */
  lemma OtherFailuresNotRetried(w: World, url: string, httpMethod: string, body: Json, e: Thrown)
    requires |w.replies| >= 3
    requires w.replies[0] == Rejected(e) || (w.replies[0].Response? && IsOk(w.replies[0].status) && w.replies[0].body == Unparsable(e))
    requires e != Error(ApiRequestFailed)
    ensures var r := Call(w, url, httpMethod, body);
            && r.world.sent == AfterFirst(w, url, httpMethod, body).sent
            && r.world.storage == w.storage
            && r.envelope == Envelope(JNull, Some(if e.Error? then e.message else UnknownError), false)
  {
  }

  /** The retry is decided by the message alone: a rejected `fetch` whose `Error` happens
      to say 'API request failed' is treated like a non-ok answer and leads to a refresh
      attempt, here ending in 'No refresh token available'. */
  lemma ForeignMessageTriggersRefresh(w: World, url: string, httpMethod: string, body: Json)
    requires |w.replies| >= 3
    requires w.replies[0] == Rejected(Error(ApiRequestFailed))
    requires !HasRefreshToken(w.storage)
    ensures Call(w, url, httpMethod, body).envelope == Envelope(JNull, Some(NoRefreshToken), false)
  {
  }

  /** Whether a reply makes `fetch` or `response.json()` throw an `Error` with this message. */
  predicate ThrowsMessage(reply: Reply, message: string) {
    match reply
    case Rejected(e) => e == Error(message)
    case Response(_, b) => b == Unparsable(Error(message))
  }

  /** As long as no transport failure happens to carry one of the client's own messages
      'API request failed' or 'Failed to refresh token', `logout` is called exactly when
      the exchange itself is answered non-ok. */
  lemma LogoutOnlyOnRejectedRefresh(w: World, url: string, httpMethod: string, body: Json)
    requires |w.replies| >= 3
    requires forall i :: 0 <= i < 3 ==>
               !ThrowsMessage(w.replies[i], FailedToRefresh) && !ThrowsMessage(w.replies[i], ApiRequestFailed)
    ensures var r := Call(w, url, httpMethod, body);
            r.world.logouts == w.logouts + 1 <==>
              && w.replies[0].Response? && !IsOk(w.replies[0].status)
              && HasRefreshToken(w.storage)
              && w.replies[1].Response? && !IsOk(w.replies[1].status)
  {
    assert !ThrowsMessage(w.replies[0], FailedToRefresh) && !ThrowsMessage(w.replies[0], ApiRequestFailed);
    assert !ThrowsMessage(w.replies[1], FailedToRefresh);
    assert !ThrowsMessage(w.replies[2], FailedToRefresh);
    assert NullAccessMessage != FailedToRefresh;
    assert ApiRequestFailed != FailedToRefresh;
    assert NoRefreshToken != FailedToRefresh;
    var first := Attempt(w, url, httpMethod, body, GetItem(w.storage, AccessKey));
    assert first.world.replies == w.replies[1..] && first.world.storage == w.storage;
    if first.result == Throw(Error(ApiRequestFailed)) {
      var refreshed := Refresh(first.world);
      assert refreshed.world.logouts == w.logouts;
      if !HasRefreshToken(w.storage) {
        assert refreshed.result == Throw(Error(NoRefreshToken));
      } else {
        assert refreshed.world.replies == w.replies[2..];
        var reply := w.replies[1];
        assert reply == first.world.replies[0];
        if reply.Response? && !IsOk(reply.status) {
          assert refreshed.result == Throw(Error(FailedToRefresh));
          var r := Resolve(refreshed.world, Throw(Error(FailedToRefresh)));
          assert Call(w, url, httpMethod, body) == r;
          assert r.world.logouts == w.logouts + 1;
        } else if refreshed.result.Value? {
          var second := Attempt(refreshed.world, url, httpMethod, body, refreshed.result.value);
          assert refreshed.world.replies[0] == w.replies[2];
          assert second.result != Throw(Error(FailedToRefresh));
        } else {
          assert refreshed.result != Throw(Error(FailedToRefresh));
        }
      }
    }
  }

  /** The expired-token scenario: stored tokens `a1` and `r1`, a 401, an exchange that
      yields `{access: a2}`, then a 200 with `data`. The call resolves with `data`, stores
      `a2` beside the untouched refresh token, presents `a1`, then `r1` to the exchange,
      then `a2`, and does not log out. */
  lemma ExpiredTokenScenario(a1: string, r1: string, a2: string, data: Json, url: string, httpMethod: string, body: Json)
    requires a1 != "" && r1 != "" && a2 != ""
    ensures var w := World(map[AccessKey := a1, RefreshKey := r1],
                           [Response(401, Parsed(JObj(map[]))),
                            Response(200, Parsed(JObj(map["access" := JStr(a2)]))),
                            Response(200, Parsed(data))],
                           [], 0);
            var r := Call(w, url, httpMethod, body);
            && r.envelope == Envelope(data, None, false)
            && r.world.storage == map[AccessKey := a2, RefreshKey := r1]
            && r.world.logouts == 0
            && |r.world.sent| == 3
            && r.world.sent[0].authorization == Some("Bearer " + a1)
            && r.world.sent[1] == RefreshRequest(r1)
            && r.world.sent[2].authorization == Some("Bearer " + a2)
  {
    var w := World(map[AccessKey := a1, RefreshKey := r1],
                   [Response(401, Parsed(JObj(map[]))),
                    Response(200, Parsed(JObj(map["access" := JStr(a2)]))),
                    Response(200, Parsed(data))],
                   [], 0);
    assert HasRefreshToken(w.storage);
    assert AccessOf(w.replies[1].body.json) == Value(Defined(JStr(a2)));
    RefreshThenRetry(w, url, httpMethod, body);
    assert w.storage[AccessKey := a2] == map[AccessKey := a2, RefreshKey := r1];
  }

  // ----------------------------------------------------------------------------
  // The client as the source runs it: a backend and browser state updated in place
  // ----------------------------------------------------------------------------

  /** The scripted backend: it answers each `fetch` with its next reply and keeps every
      request it receives. */
  class Server {
    var replies: seq<Reply>
    var received: seq<Request>

    constructor (script: seq<Reply>)
      ensures replies == script && received == []
    {
      replies := script;
      received := [];
    }

    /** `fetch(req)`. */
    method Fetch(req: Request) returns (reply: Reply)
      requires |replies| >= 1
      modifies this
      ensures reply == old(replies[0])
      ensures replies == old(replies[1..]) && received == old(received) + [req]
    {
      reply := replies[0];
      replies := replies[1..];
      received := received + [req];
    }
  }

  /** The state `useApi` acts on: browser storage, the `isLoading` flag, the number of
      `logout` calls, and the backend. */
  class Client {
    var storage: map<string, string>
    var isLoading: bool
    var logouts: nat
    const server: Server

    constructor (storage: map<string, string>, server: Server)
      ensures this.storage == storage && this.server == server
      ensures !isLoading && logouts == 0
    {
      this.storage := storage;
      this.server := server;
      isLoading := false;
      logouts := 0;
    }

    /** The client's state and the backend's, as one value. */
    ghost function Snapshot(): World
      reads this, server
    {
      World(storage, server.replies, server.received, logouts)
    }

    /** The session owner's `logout`, counted. */
    method Logout()
      modifies this
      ensures logouts == old(logouts) + 1
      ensures storage == old(storage) && isLoading == old(isLoading)
    {
      logouts := logouts + 1;
    }

    /** `makeRequest(token)`. */
    method MakeRequest(url: string, httpMethod: string, body: Json, token: JsValue)
      returns (result: Try<Json>)
      requires |server.replies| >= 1
      modifies server
      ensures Step(Snapshot(), result) == Attempt(old(Snapshot()), url, httpMethod, body, token)
    {
      var response := server.Fetch(TargetRequest(url, httpMethod, body, token));
      if response.Rejected? {
        return Throw(response.error);
      }
      if !IsOk(response.status) {
        return Throw(Error(ApiRequestFailed));
      }
      match response.body
      case Parsed(j) => result := Value(j);
      case Unparsable(e) => result := Throw(e);
    }

    /** `refreshAccessToken()`. */
    method RefreshAccessToken() returns (result: Try<JsValue>)
      requires |server.replies| >= 1
      modifies this, server
      ensures isLoading == old(isLoading)
      ensures Step(Snapshot(), result) == Refresh(old(Snapshot()))
    {
      var refreshToken := GetItem(storage, RefreshKey);
      if !Truthy(refreshToken) {
        return Throw(Error(NoRefreshToken));
      }
      var response := server.Fetch(RefreshRequest(refreshToken.json.s));
      if response.Rejected? {
        return Throw(response.error);
      }
      if !IsOk(response.status) {
        return Throw(Error(FailedToRefresh));
      }
      match response.body
      case Unparsable(e) => result := Throw(e);
      case Parsed(data) =>
        result := AccessOf(data);
        if result.Value? {
          storage := storage[AccessKey := JsString(result.value)];
        }
    }

    /** The outer `catch` of `apiCall`: a value becomes `{data, error: null}`; an `Error`
        becomes its message, after `logout` when that message is 'Failed to refresh
        token'; anything else becomes 'An unknown error occurred'. */
    method Settle(outcome: Try<Json>) returns (envelope: Envelope)
      modifies this
      ensures Outcome(Snapshot(), envelope) == Resolve(old(Snapshot()), outcome)
      ensures isLoading == old(isLoading)
    {
      match outcome {
        case Value(data) =>
          envelope := Envelope(data, None, false);
        case Throw(Error(m)) =>
          if m == FailedToRefresh {
            Logout();
          }
          envelope := Envelope(JNull, Some(m), false);
        case Throw(NonError) =>
          envelope := Envelope(JNull, Some(UnknownError), false);
      }
    }

    /** `apiCall(url, method, body)`: raises `isLoading`, runs the call, and lowers
        `isLoading` again on every path. */
    method ApiCall(url: string, httpMethod: string, body: Json) returns (envelope: Envelope)
      requires |server.replies| >= 3
      modifies this, server
      ensures Outcome(Snapshot(), envelope) == Call(old(Snapshot()), url, httpMethod, body)
      ensures !isLoading
    {
      ghost var w0 := Snapshot();
      isLoading := true;
      var accessToken := GetItem(storage, AccessKey);
      var outcome := MakeRequest(url, httpMethod, body, accessToken);
      ghost var first := Attempt(w0, url, httpMethod, body, accessToken);
      if outcome == Throw(Error(ApiRequestFailed)) {
        var refreshed := RefreshAccessToken();
        ghost var afterRefresh := Refresh(first.world);
        if refreshed.Throw? {
          outcome := Throw(refreshed.thrown);
        } else {
          accessToken := refreshed.value;
          outcome := MakeRequest(url, httpMethod, body, accessToken);
          assert Step(Snapshot(), outcome) == Attempt(afterRefresh.world, url, httpMethod, body, accessToken);
        }
      }
      assert Call(w0, url, httpMethod, body) == Resolve(Snapshot(), outcome);
      envelope := Settle(outcome);
      isLoading := false;
    }
  }
}
