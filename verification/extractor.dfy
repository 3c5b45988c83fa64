/** extractor.py: the GitHub GraphQL extractor. HTTP is a function `server`
    from the request sent to the transport's outcome; `time.time()` is the
    integer `now`; `time.sleep` is returned as a `Pause`. */
module Extractor {
  import opened Wrappers
  import opened Text
  import opened Values

  /** The extractor object: the API URL and the headers fixed at construction. */
  datatype GitHubExtractor = GitHubExtractor(apiUrl: string, headers: map<string, string>)

  const BEARER: string := "Bearer "

  /** `GitHubExtractor(api_url, api_token)`. */
  function NewExtractor(apiUrl: string, apiToken: string): (e: GitHubExtractor)
    ensures e.apiUrl == apiUrl
    ensures e.headers.Keys == {"Authorization", "Content-Type"}
    ensures e.headers["Content-Type"] == "application/json"
    ensures var auth := e.headers["Authorization"];
            |auth| == |BEARER| + |apiToken| && auth[..|BEARER|] == BEARER && auth[|BEARER|..] == apiToken
  {
    GitHubExtractor(apiUrl, map["Authorization" := BEARER + apiToken, "Content-Type" := "application/json"])
  }

  /** One POST: URL, headers and the JSON payload. */
  datatype Request = Request(url: string, headers: map<string, string>, payload: map<string, Value>)

  /** What `response.json()` makes of the body. */
  datatype Body = JsonBody(json: Value) | UndecodableBody

  /** What `requests.post` does: raise a `RequestException` (connection error,
      timeout or any other), or answer with a status and a body. */
  datatype HttpOutcome = TransportError | Response(status: int, body: Body)

  /** The exceptions `_make_graphql_request`, the rate-limit handler and the
      fetcher's lookups can raise. */
  datatype Failure =
    | Transport                          // re-raised RequestException
    | HttpStatus(status: int)            // raise_for_status: HTTPError
    | InvalidJson                        // JSONDecodeError
    | GraphQLErrors(messages: seq<string>)  // ValueError("GraphQL API errors: ...")
    | Malformed                          // TypeError, AttributeError, KeyError, ValueError from int()
    | SleepOverflow                      // time.sleep: OverflowError for a too long pause

  /** The payload `_make_graphql_request` posts. */
  function PayloadOf(query: string, variables: Value): (payload: map<string, Value>)
    ensures "query" in payload && payload["query"] == Str(query)
    ensures "variables" in payload <==> Truthy(variables)
    ensures "variables" in payload ==> payload["variables"] == variables
    ensures payload.Keys <= {"query", "variables"}
  {
    if Truthy(variables) then map["query" := Str(query), "variables" := variables]
    else map["query" := Str(query)]
  }

  /** Builds the payload as the source does: `query` first, then `variables`
      added in place when the argument is truthy. */
  method MakePayload(query: string, variables: Value) returns (payload: map<string, Value>)
    ensures payload == PayloadOf(query, variables)
  {
    payload := map["query" := Str(query)];
    if Truthy(variables) {
      payload := payload["variables" := variables];
    }
  }

  /** `[err.get("message", "Unknown error") for err in errors]`, `None` when
      that comprehension or the `"; ".join` over it raises. */
  function ErrorMessages(errors: Value): (r: Option<seq<string>>)
    ensures errors.List? ==> r == MessagesOf(errors.items)
    ensures r.Some? ==> errors.List? || r.value == []
    ensures errors.Null? || errors.Int? || errors.Bool? || errors.Time? ==> r.None?
    ensures !errors.List? ==>
      (r.Some? <==> (errors.Object? && errors.fields == map[]) || (errors.Str? && errors.s == []))
  {
    match errors
    case List(items) => MessagesOf(items)
    // iterating a dict or a string yields strings, which have no `.get`
    case Object(fields) => if fields == map[] then Some([]) else None
    case Str(s) => if s == [] then Some([]) else None
    case _ => None
  }

  /** The comprehension over a list of errors: each must be a dict (`.get`) whose
      message, if any, is a string (`"; ".join`). */
  function MessagesOf(items: seq<Value>): (r: Option<seq<string>>)
    ensures r.Some? <==> forall k :: 0 <= k < |items| ==> WellFormedError(items[k])
    ensures r.Some? ==> |r.value| == |items|
  {
    if items == [] then Some([])
    else
      match items[0]
      case Object(err) =>
        (match GetOr(err, "message", Str("Unknown error"))
         case Str(message) =>
           (match MessagesOf(items[1..])
            case Some(rest) => Some([message] + rest)
            case None => None)
         case _ => None)
      case _ => None
  }

  /** The decoded body after the `"errors" in data` check. */
  function CheckErrors(data: Value): (r: Result<Value, Failure>)
    ensures r.Ok? ==> r.value == data
    ensures data.Object? ==> (r.Ok? <==> "errors" !in data.fields)
    ensures r.Err? && r.error.GraphQLErrors? ==>
      data.Object? && "errors" in data.fields && ErrorMessages(data.fields["errors"]) == Some(r.error.messages)
    ensures r.Err? ==> r.error.GraphQLErrors? || r.error == Malformed
  {
    match data
    case Object(fields) =>
      if "errors" in fields then
        match ErrorMessages(fields["errors"])
        case Some(messages) => Err(GraphQLErrors(messages))
        case None => Err(Malformed)
      else Ok(data)
    // `"errors" in data` is list membership or substring search; the
    // following `data["errors"]` then raises TypeError
    case List(items) => if Str("errors") in items then Err(Malformed) else Ok(data)
    case Str(s) => if ContainsSubstring(s, "errors") then Err(Malformed) else Ok(data)
    case _ => Err(Malformed)
  }

  /** The body of `_make_graphql_request` after the POST. */
  function InterpretResponse(outcome: HttpOutcome): (r: Result<Value, Failure>)
    ensures r.Ok? ==> outcome.Response? && !(400 <= outcome.status < 600) && outcome.body == JsonBody(r.value)
    ensures r.Ok? && r.value.Object? ==> "errors" !in r.value.fields
    ensures outcome.TransportError? ==> r == Err(Transport)
    ensures outcome.Response? && 400 <= outcome.status < 600 ==> r == Err(HttpStatus(outcome.status))
  {
    match outcome
    case TransportError => Err(Transport)
    case Response(status, body) =>
      if 400 <= status < 600 then Err(HttpStatus(status))
      else
        match body
        case UndecodableBody => Err(InvalidJson)
        case JsonBody(data) => CheckErrors(data)
  }

  /** `_make_graphql_request(query, variables)` on the extractor `ex`. */
  method MakeGraphqlRequest(ex: GitHubExtractor, query: string, variables: Value,
                            server: Request -> HttpOutcome)
    returns (r: Result<Value, Failure>)
    ensures r == InterpretResponse(server(Request(ex.apiUrl, ex.headers, PayloadOf(query, variables))))
  {
    var payload := MakePayload(query, variables);
    var outcome := server(Request(ex.apiUrl, ex.headers, payload));
    r := InterpretResponse(outcome);
  }

  /** A successful response whose body carries `errors` is never returned. */
  lemma ErrorsNeverReturned(status: int, fields: map<string, Value>)
    requires "errors" in fields
    ensures InterpretResponse(Response(status, JsonBody(Object(fields)))).Err?
  {
  }

  /** An error object whose message, if any, is a string. */
  predicate WellFormedError(err: Value) {
    err.Object? && ("message" in err.fields ==> err.fields["message"].Str?)
  }

  /** The message of a well-formed error, `"Unknown error"` when it has none. */
  function MessageOf(err: Value): string
    requires WellFormedError(err)
  {
    if "message" in err.fields then err.fields["message"].s else "Unknown error"
  }

  /** A list of well-formed errors gives one message per error, in order, with
      `"Unknown error"` for an error without a message. */
  lemma {:induction false} ErrorMessagesInOrder(items: seq<Value>)
    requires forall k :: 0 <= k < |items| ==> WellFormedError(items[k])
    ensures MessagesOf(items).Some?
    ensures forall k :: 0 <= k < |items| ==>
              MessagesOf(items).value[k] == MessageOf(items[k])
  {
    if items != [] {
      ErrorMessagesInOrder(items[1..]);
      forall k | 1 <= k < |items|
        ensures MessagesOf(items).value[k] == MessagesOf(items[1..]).value[k - 1]
      {
      }
    }
  }

  /** With a list of well-formed errors, the raised text is the messages joined by "; ". */
  lemma GraphQLErrorText(status: int, fields: map<string, Value>)
    requires "errors" in fields && fields["errors"].List?
    requires forall k :: 0 <= k < |fields["errors"].items| ==> WellFormedError(fields["errors"].items[k])
    requires !(400 <= status < 600)
    ensures MessagesOf(fields["errors"].items).Some?
    ensures InterpretResponse(Response(status, JsonBody(Object(fields)))) ==
              Err(GraphQLErrors(MessagesOf(fields["errors"].items).value))
  {
    ErrorMessagesInOrder(fields["errors"].items);
  }

  /** A successful response whose body is a dict without `errors` is returned unchanged. */
  lemma NoErrorsReturnedUnchanged(status: int, fields: map<string, Value>)
    requires "errors" !in fields && !(400 <= status < 600)
    ensures InterpretResponse(Response(status, JsonBody(Object(fields)))) == Ok(Object(fields))
  {
  }

  /** Whether `_handle_rate_limit` sleeps, and for how long. */
  datatype Pause = NoPause | Sleep(seconds: int)

  const PAUSE_THRESHOLD: int := 50
  const PAUSE_BUFFER: int := 5

  /** The range of `datetime.fromtimestamp(t, tz=timezone.utc)`: 0001-01-01T00:00:00Z
      to 9999-12-31T23:59:59Z; the log line raises outside it. */
  const MIN_TIMESTAMP: int := -62135596800
  const MAX_TIMESTAMP: int := 253402300799

  function Max(a: int, b: int): int {
    if a < b then b else a
  }

  /** Python's `int(v)`; `None` where it raises. */
  function IntOf(v: Value): (r: Option<int>)
    ensures r.Some? <==> v.Int? || v.Bool? || (v.Str? && IntReadable(v.s))
    ensures v.Int? ==> r == Some(v.i)
    ensures v.Bool? ==> r == Some(if v.b then 1 else 0)
  {
    match v
    case Int(i) => Some(i)
    case Bool(b) => Some(if b then 1 else 0)
    case Str(s) => ParseInt(s)
    case _ => None
  }

  /** `int(headers.get(key, 0))`. */
  function ReadHeader(headers: map<string, Value>, key: string): (r: Option<int>)
    ensures key !in headers ==> r == Some(0)
    ensures key in headers ==> r == IntOf(headers[key])
  {
    IntOf(GetOr(headers, key, Int(0)))
  }

  /** The longest pause `time.sleep` accepts, in whole seconds: it converts its
      argument to a signed 64-bit count of nanoseconds and raises
      `OverflowError` beyond 2^63 - 1 of them. */
  const MAX_SLEEP_SECONDS: int := 9223372036

  /** The decision of `_handle_rate_limit` as written, both branches included. */
  function PauseFor(remaining: int, reset: int, now: int): (p: Pause)
    ensures p.Sleep? <==> remaining < PAUSE_THRESHOLD
    ensures p.Sleep? ==> p.seconds >= PAUSE_BUFFER && p.seconds >= reset - now + PAUSE_BUFFER
  {
    if remaining < PAUSE_THRESHOLD then Sleep(Max(0, reset - now) + PAUSE_BUFFER)
    else if remaining == 0 then Sleep(Max(0, reset - now) + PAUSE_BUFFER)
    else NoPause
  }

  /** `_handle_rate_limit(response_headers)` at time `now`. */
  function HandleRateLimit(headers: Value, now: int): (r: Result<Pause, Failure>)
    ensures r.Err? <==>
      || !headers.Object?
      || ReadHeader(headers.fields, "x-ratelimit-limit").None?
      || ReadHeader(headers.fields, "x-ratelimit-remaining").None?
      || ReadHeader(headers.fields, "x-ratelimit-reset").None?
      || !(MIN_TIMESTAMP <= ReadHeader(headers.fields, "x-ratelimit-reset").value <= MAX_TIMESTAMP)
      || (ReadHeader(headers.fields, "x-ratelimit-remaining").value < 50
          && Max(0, ReadHeader(headers.fields, "x-ratelimit-reset").value - now) + 5 > MAX_SLEEP_SECONDS)
    ensures r.Ok? ==>
      var remaining := ReadHeader(headers.fields, "x-ratelimit-remaining").value;
      var reset := ReadHeader(headers.fields, "x-ratelimit-reset").value;
      && (r.value.Sleep? <==> remaining < 50)
      && (r.value.Sleep? ==> r.value.seconds == Max(0, reset - now) + 5 && 5 <= r.value.seconds <= MAX_SLEEP_SECONDS)
  {
    match headers
    case Object(h) =>
      var limit := ReadHeader(h, "x-ratelimit-limit");
      var remaining := ReadHeader(h, "x-ratelimit-remaining");
      var reset := ReadHeader(h, "x-ratelimit-reset");
      if limit.None? || remaining.None? || reset.None? then Err(Malformed)
      else if !(MIN_TIMESTAMP <= reset.value <= MAX_TIMESTAMP) then Err(Malformed)
      else
        (match PauseFor(remaining.value, reset.value, now)
         case Sleep(seconds) => if seconds > MAX_SLEEP_SECONDS then Err(SleepOverflow) else Ok(Sleep(seconds))
         case NoPause => Ok(NoPause))
    case _ => Err(Malformed)
  }

  /** The `remaining == 0` branch is dead: the `< 50` branch already took that
      case, so the decision is "sleep exactly when fewer than 50 remain". */
  lemma ExhaustedBranchIsDead(remaining: int, reset: int, now: int)
    ensures PauseFor(remaining, reset, now) ==
              if remaining < 50 then Sleep(Max(0, reset - now) + 5) else NoPause
  {
  }

  /** Missing rate-limit keys read as 0, so a dict without them always sleeps
      (unless the pause is too long for `time.sleep`). */
  lemma MissingKeysReadAsZero(headers: map<string, Value>, now: int)
    requires "x-ratelimit-limit" !in headers
    requires "x-ratelimit-remaining" !in headers
    requires "x-ratelimit-reset" !in headers
    ensures HandleRateLimit(Object(headers), now) ==
              if Max(0, -now) + 5 <= MAX_SLEEP_SECONDS then Ok(Sleep(Max(0, -now) + 5)) else Err(SleepOverflow)
  {
  }

  /** The fields the fetch query selects under `rateLimit`. */
  const RATE_LIMIT_FIELDS: seq<string> := ["limit", "cost", "remaining", "resetAt"]

  /** A `rateLimit` object, which has none of the `x-ratelimit-*` keys the
      handler reads, makes it sleep exactly 5 seconds for any `now >= 0`. */
  lemma RateLimitObjectSleepsFive(rateLimit: map<string, Value>, now: int)
    requires forall key :: key in rateLimit ==> key in RATE_LIMIT_FIELDS
    requires now >= 0
    ensures HandleRateLimit(Object(rateLimit), now) == Ok(Sleep(5))
  {
    MissingKeysReadAsZero(rateLimit, now);
  }

  /** The GraphQL query `fetch_repository_metadata` sends (layout whitespace collapsed). */
  const REPOSITORY_QUERY: string :=
    "query GetRepositoryMetadata($owner: String!, $name: String!) { "
    + "repository(owner: $owner, name: $name) { id name owner { login } description "
    + "stargazerCount forkCount primaryLanguage { name } createdAt pushedAt "
    + "licenseInfo { name } isArchived isDisabled isFork url } "
    + "rateLimit { limit cost remaining resetAt } }"

  function RepositoryVariables(owner: string, name: string): Value {
    Object(map["owner" := Str(owner), "name" := Str(name)])
  }

  /** The request `fetch_repository_metadata(owner, name)` sends. */
  function RepositoryRequest(ex: GitHubExtractor, owner: string, name: string): (req: Request)
    ensures req.url == ex.apiUrl && req.headers == ex.headers
    ensures req.payload.Keys == {"query", "variables"}
    ensures req.payload["query"] == Str(REPOSITORY_QUERY)
    ensures req.payload["variables"] == Object(map["owner" := Str(owner), "name" := Str(name)])
  {
    var variables := RepositoryVariables(owner, name);
    assert "owner" in variables.fields;
    Request(ex.apiUrl, ex.headers, PayloadOf(REPOSITORY_QUERY, variables))
  }

  /** What one fetch returns (the repository object or None) and how long it slept. */
  datatype Fetched = Fetched(repository: Value, pause: Pause)

  /** The rest of `fetch_repository_metadata` once the request has returned or
      raised: every exception becomes `None` without a sleep. */
  function FetchOutcome(r: Result<Value, Failure>, now: int): (out: Fetched)
    ensures r.Err? ==> out == Fetched(Null, NoPause)
    ensures out.pause.Sleep? || out.repository != Null ==>
      && r.Ok? && r.value.Object?
      && "data" in r.value.fields && r.value.fields["data"].Object?
      && "rateLimit" in r.value.fields["data"].fields
      && HandleRateLimit(r.value.fields["data"].fields["rateLimit"], now) == Ok(out.pause)
      && out.repository == Get(r.value.fields["data"].fields, "repository")
    ensures (&& r.Ok? && r.value.Object?
             && "data" in r.value.fields && r.value.fields["data"].Object?
             && "rateLimit" in r.value.fields["data"].fields
             && HandleRateLimit(r.value.fields["data"].fields["rateLimit"], now).Ok?) ==>
      out == Fetched(Get(r.value.fields["data"].fields, "repository"),
                     HandleRateLimit(r.value.fields["data"].fields["rateLimit"], now).value)
  {
    match r
    case Err(_) => Fetched(Null, NoPause)
    case Ok(response) =>
      match response
      case Object(top) =>
        if "data" in top && top["data"].Object? && "rateLimit" in top["data"].fields then
          var data := top["data"].fields;
          match HandleRateLimit(data["rateLimit"], now)
          case Err(_) => Fetched(Null, NoPause)
          case Ok(pause) => Fetched(Get(data, "repository"), pause)
        else Fetched(Null, NoPause)
      case _ => Fetched(Null, NoPause)
  }

  /** `fetch_repository_metadata(owner, name)`: never raises; returns
      `data.repository` or None, and the pause the rate-limit handler took. */
  method FetchRepositoryMetadata(ex: GitHubExtractor, owner: string, name: string,
                                 server: Request -> HttpOutcome, now: int)
    returns (repository: Value, pause: Pause)
    ensures Fetched(repository, pause) ==
              FetchOutcome(InterpretResponse(server(RepositoryRequest(ex, owner, name))), now)
  {
    var r := MakeGraphqlRequest(ex, REPOSITORY_QUERY, RepositoryVariables(owner, name), server);
    repository, pause := Null, NoPause;
    if r.Err? || !r.value.Object? {
      return;
    }
    var top := r.value.fields;
    if "data" !in top || !top["data"].Object? || "rateLimit" !in top["data"].fields {
      return;
    }
    var data := top["data"].fields;
    var handled := HandleRateLimit(data["rateLimit"], now);
    if handled.Err? {
      return;
    }
    pause := handled.value;
    repository := Get(data, "repository");
  }

  /** On the success path the handler reads the GraphQL `rateLimit` object,
      so every successful fetch sleeps exactly 5 seconds. */
  lemma SuccessfulFetchSleepsFive(response: map<string, Value>, now: int)
    requires "data" in response && response["data"].Object?
    requires "rateLimit" in response["data"].fields
    requires response["data"].fields["rateLimit"].Object?
    requires forall key :: key in response["data"].fields["rateLimit"].fields ==> key in RATE_LIMIT_FIELDS
    requires now >= 0
    ensures FetchOutcome(Ok(Object(response)), now) ==
              Fetched(Get(response["data"].fields, "repository"), Sleep(5))
  {
    RateLimitObjectSleepsFive(response["data"].fields["rateLimit"].fields, now);
  }
}
