/** The HTTP client: the base URL, the request interceptor's headers, the
    response interceptor's mapping from a status to a thrown error, the
    error-body defaults, the retry of network and server failures with a
    doubling delay, and the body rule of the verb helpers. A fetch is an
    input outcome; `JSON.stringify` is the function parameter `stringify`. */
module HttpClient {
  import opened Wrappers
  import opened Text
  import opened Json
  import opened AuthTypes
  import opened ApiTypes
  import ErrorHandler

  const ApiBaseUrlVar := "VITE_API_BASE_URL"
  const DefaultBaseUrl := "/api"
  const DefaultMaxRetries := 3
  const RetryDelayMs := 1000

  /** Header names as a `Headers` object stores them, lower-cased. */
  const ContentTypeHeader := "content-type"
  const AuthorizationHeader := "authorization"

  const NetworkFailure := "Network error: Unable to connect to server"

  /** `API_BASE_URL`: the variable when set and non-empty, else '/api'. */
  function ApiBaseUrl(env: map<string, string>): (url: string)
    ensures ApiBaseUrlVar in env && env[ApiBaseUrlVar] != "" ==> url == env[ApiBaseUrlVar]
    ensures (ApiBaseUrlVar !in env || env[ApiBaseUrlVar] == "") ==> url == DefaultBaseUrl
  {
    var v := if ApiBaseUrlVar in env then Some(env[ApiBaseUrlVar]) else None;
    if Present(v) then v.value else DefaultBaseUrl
  }

  // ---------------------------------------------------------------- request interceptor

  /** A `Headers` object, changed in place by `set`. */
  class Headers {
    var entries: map<string, string>

    constructor(init: map<string, string>)
      ensures entries == init
    {
      entries := init;
    }

    predicate Has(name: string)
      reads this
    {
      name in entries
    }

    method Set(name: string, value: string)
      modifies this
      ensures entries == old(entries)[name := value]
    {
      entries := entries[name := value];
    }
  }

  /** The headers after the request interceptor: a Content-Type of JSON unless
      one is given, and a bearer token unless `skipAuth` or no token. */
  function InterceptedHeaders(h: map<string, string>, skipAuth: bool, accessToken: Option<string>): (r: map<string, string>)
    ensures ContentTypeHeader in r
    ensures ContentTypeHeader in h ==> r[ContentTypeHeader] == h[ContentTypeHeader]
    ensures ContentTypeHeader !in h ==> r[ContentTypeHeader] == "application/json"
    ensures !skipAuth && Present(accessToken) ==> AuthorizationHeader in r && r[AuthorizationHeader] == "Bearer " + accessToken.value
    ensures skipAuth || !Present(accessToken) ==>
      (AuthorizationHeader in r <==> AuthorizationHeader in h) && (AuthorizationHeader in h ==> r[AuthorizationHeader] == h[AuthorizationHeader])
    ensures forall n :: n in h ==> n in r
    ensures forall n :: n in r && n != ContentTypeHeader && n != AuthorizationHeader ==> n in h && r[n] == h[n]
  {
    var withType := if ContentTypeHeader in h then h else h[ContentTypeHeader := "application/json"];
    if !skipAuth && Present(accessToken) then withType[AuthorizationHeader := "Bearer " + accessToken.value] else withType
  }

  /** `requestInterceptor(config)` on the `Headers` built from `config.headers`. */
  method RequestInterceptor(headers: Headers, skipAuth: bool, accessToken: Option<string>)
    modifies headers
    ensures headers.entries == InterceptedHeaders(old(headers.entries), skipAuth, accessToken)
  {
    if !headers.Has(ContentTypeHeader) {
      headers.Set(ContentTypeHeader, "application/json");
    }
    if !skipAuth {
      if Present(accessToken) {
        headers.Set(AuthorizationHeader, "Bearer " + accessToken.value);
      }
    }
  }

  // ---------------------------------------------------------------- response interceptor

  /** A response: status, status text, Content-Type header, and what
      `response.json()` yields (a failure when the body is not JSON). */
  datatype HttpResponse = HttpResponse(ok: bool, status: int, statusText: string, contentType: Option<string>, body: Result<Json, Thrown>)

  /** `errorData.message || fallback` rendered as a string. */
  function TextOr(v: Option<Json>, fallback: string): (s: string)
    ensures !TruthyOpt(v) ==> s == fallback
    ensures v.Some? && v.value.Str? && v.value.s != "" ==> s == v.value.s
  {
    if TruthyOpt(v) then Display(v.value) else fallback
  }

  /** `parseErrorResponse(response)`: the status, the body's message (the
      status text when the body is not JSON) defaulting to 'An error occurred',
      its code defaulting to 'UNKNOWN_ERROR', and its details. A body that is
      JSON `null` makes `errorData.message` throw a TypeError. */
  function ParseErrorResponse(response: HttpResponse): (r: Result<ApiError, Thrown>)
    ensures r.Failure? <==> response.body == Success(Null)
    ensures r.Failure? ==> r.error == NullRead("message")
    ensures r.Success? ==> r.value.status == response.status
    ensures response.body.Failure? ==> r.value.message == (if response.statusText != "" then response.statusText else "An error occurred")
    ensures response.body.Failure? ==> r.value.code == "UNKNOWN_ERROR" && r.value.details.None?
    ensures r.Success? && response.body.Success? ==> r.value.message == TextOr(Member(response.body.value, "message"), "An error occurred")
    ensures r.Success? && response.body.Success? ==> r.value.code == TextOr(Member(response.body.value, "code"), "UNKNOWN_ERROR")
    ensures r.Success? && response.body.Success? ==> r.value.details == Member(response.body.value, "details")
  {
    var errorData := if response.body.Success? then response.body.value else Obj(map["message" := Str(response.statusText)]);
    if errorData.Null? then Failure(NullRead("message"))
    else
      Success(ApiError(response.status,
        TextOr(Member(errorData, "message"), "An error occurred"),
        TextOr(Member(errorData, "code"), "UNKNOWN_ERROR"),
        Member(errorData, "details")))
  }

  /** The message of an `ApiError` is never falsy: an absent or falsy body
      message is replaced by 'An error occurred'. */
  lemma ErrorMessageTruthy(response: HttpResponse)
    requires ParseErrorResponse(response).Success?
    requires response.body.Success? ==> var m := Member(response.body.value, "message");
      !(m.Some? && m.value.Arr? && Display(m.value) == "")
    ensures ParseErrorResponse(response).value.message != ""
  {
  }

  /** `createValidationError` / `createApiError`: an `Error` named after its
      kind, with the message and the status copied onto it. */
  function StatusError(name: string, apiError: ApiError): (e: Thrown)
    ensures e.Error? && e.cls == BaseError && e.name == name
    ensures e.message == apiError.message && e.status == Some(apiError.status)
  {
    Error(BaseError, name, apiError.message, Some(apiError.status))
  }

  /** `responseInterceptor(response)`. The fallbacks 'Authentication required'
      and 'Access denied' are never taken: the parsed message is never falsy
      as a value, so `apiError.message || …` keeps it. */
  function ResponseInterceptor(response: HttpResponse): (r: Result<Json, Thrown>)
    ensures response.ok && !(response.contentType.Some? && Contains(response.contentType.value, "application/json")) ==>
      r == Success(Obj(map[]))
    ensures response.ok && response.contentType.Some? && Contains(response.contentType.value, "application/json") ==> r == response.body
    ensures !response.ok ==> r.Failure?
    ensures !response.ok && ParseErrorResponse(response).Failure? ==> r.error == ParseErrorResponse(response).error
    ensures !response.ok && ParseErrorResponse(response).Success? && response.status == 401 ==>
      r.error == AuthError(ParseErrorResponse(response).value.message)
    ensures !response.ok && ParseErrorResponse(response).Success? && response.status == 403 ==>
      r.error == ForbiddenError(ParseErrorResponse(response).value.message)
    ensures !response.ok && ParseErrorResponse(response).Success? && (response.status == 400 || response.status == 422) ==>
      r.error == StatusError("ValidationError", ParseErrorResponse(response).value)
    ensures !response.ok && ParseErrorResponse(response).Success? && response.status !in {400, 401, 403, 422} ==>
      r.error == StatusError("ApiError", ParseErrorResponse(response).value)
  {
    if response.ok then
      if response.contentType.Some? && response.contentType.value != "" && Contains(response.contentType.value, "application/json") then
        response.body
      else Success(Obj(map[]))
    else
      match ParseErrorResponse(response)
      case Failure(e) => Failure(e)
      case Success(apiError) =>
        if response.status == 401 then Failure(AuthError(apiError.message))
        else if response.status == 403 then Failure(ForbiddenError(apiError.message))
        else if response.status == 400 || response.status == 422 then
          Failure(StatusError("ValidationError", apiError))
        else Failure(StatusError("ApiError", apiError))
  }

  /** An error response with a `null` body is not retried: the TypeError it
      throws mentions neither `fetch` nor a network error. */
  lemma NullBodyNotRetried(fetches: nat -> Fetch, retryCount: nat, maxRetries: int)
    requires fetches(0).Responded? && !fetches(0).response.ok && fetches(0).response.body == Success(Null)
    ensures Send(fetches, retryCount, maxRetries) == RequestRun(Failure(NullRead("message")), 1, [])
  {
    NullReadNotNetwork();
  }

  /** The TypeError of reading `message` off `null` mentions neither `fetch` nor "Network error". */
  lemma NullReadNotNetwork()
    ensures !Contains(NullRead("message").message, "fetch")
    ensures !Contains(NullRead("message").message, ErrorHandler.NetworkErrorMarker)
  {
    var m := NullRead("message").message;
    assert Free("Cannot read ", 'c') && Free("properties ", 'c') && Free("of null ", 'c');
    assert Free("(reading '", 'c') && Free("')", 'c') && Free("message", 'c');
    NullReadFree("message", 'c');
    assert Free("Cannot read ", 'N') && Free("properties ", 'N') && Free("of null ", 'N');
    assert Free("(reading '", 'N') && Free("')", 'N') && Free("message", 'N');
    NullReadFree("message", 'N');
    LacksChar(m, "fetch", 3);
    LacksFirstChar(m, ErrorHandler.NetworkErrorMarker);
  }

  // ---------------------------------------------------------------- request with retries

  /** What one `fetch` does: a response, or a rejection. */
  datatype Fetch = Responded(response: HttpResponse) | Rejected(error: Thrown)

  /** A request: its outcome, the number of fetches, the sleeps between them. */
  datatype RequestRun = RequestRun(result: Result<Json, Thrown>, fetches: nat, delays: seq<int>)

  /** A `TypeError` whose message mentions 'fetch', as a failed `fetch` rejects. */
  predicate IsFetchFailure(e: Thrown) {
    e.Error? && e.cls == TypeError && Contains(e.message, "fetch")
  }

  /** The catch block: the failure a fetch attempt ends in, before retrying. */
  function Caught(e: Thrown): (c: Thrown)
    ensures IsFetchFailure(e) ==> c == PlainError(NetworkFailure)
    ensures !IsFetchFailure(e) ==> c == e
  {
    if IsFetchFailure(e) then PlainError(NetworkFailure) else e
  }

  /** One fetch passed through the response interceptor. */
  function Attempt(fetch: Fetch): Result<Json, Thrown> {
    match fetch
    case Responded(response) => ResponseInterceptor(response)
    case Rejected(e) => Failure(e)
  }

  /** The fetches after the first. */
  function Later(fetches: nat -> Fetch): nat -> Fetch {
    (k: nat) => fetches(k + 1)
  }

  /** `request(endpoint, config)` from `retryCount` on, where `fetches(k)` is
      the outcome of the k-th fetch made from here. */
  function Send(fetches: nat -> Fetch, retryCount: nat, maxRetries: int): (r: RequestRun)
    ensures r.fetches >= 1
    ensures Attempt(fetches(0)).Success? ==> r == RequestRun(Attempt(fetches(0)), 1, [])
    ensures retryCount >= maxRetries && Attempt(fetches(0)).Failure? ==>
      r == RequestRun(Failure(Caught(Attempt(fetches(0)).error)), 1, [])
    decreases if retryCount < maxRetries then maxRetries - retryCount else 0
  {
    var attempt := Attempt(fetches(0));
    if attempt.Success? then RequestRun(attempt, 1, [])
    else
      var failure := Caught(attempt.error);
      if retryCount < maxRetries && ErrorHandler.IsRetryableError(failure) then
        var rest := Send(Later(fetches), retryCount + 1, maxRetries);
        RequestRun(rest.result, rest.fetches + 1, [RetryDelayMs * ErrorHandler.Pow2(retryCount)] + rest.delays)
      else RequestRun(Failure(failure), 1, [])
  }

  /** The request a verb helper issues: its URL, method, body and headers. */
  datatype RequestConfig = RequestConfig(
    verb: Option<string>,
    headers: map<string, string>,
    body: Option<string>,
    skipAuth: bool,
    retryCount: Option<nat>,
    maxRetries: Option<int>)

  /** What `request(endpoint, config)` does: the URL it fetches, the headers
      every fetch carries, and the run of fetches. */
  datatype Sent = Sent(url: string, headers: map<string, string>, run: RequestRun)

  /** `request(endpoint, config)` with the session's access token: the URL is
      the base URL followed by the endpoint, each fetch carries the headers of
      the request interceptor, and `maxRetries` defaults to 3 and `retryCount` to 0. */
  function Request(baseUrl: string, endpoint: string, config: RequestConfig, accessToken: Option<string>, fetches: nat -> Fetch): (r: Sent)
    ensures r.url == baseUrl + endpoint
    ensures r.headers == InterceptedHeaders(config.headers, config.skipAuth, accessToken)
    ensures r.run == Send(fetches, config.retryCount.GetOr(0), config.maxRetries.GetOr(DefaultMaxRetries))
  {
    Sent(baseUrl + endpoint, InterceptedHeaders(config.headers, config.skipAuth, accessToken),
      Send(fetches, config.retryCount.GetOr(0), config.maxRetries.GetOr(DefaultMaxRetries)))
  }

  /** A request sends the session's bearer token unless `skipAuth` is set,
      and never one of its own making when it is. */
  lemma RequestCarriesToken(baseUrl: string, endpoint: string, config: RequestConfig, token: string, fetches: nat -> Fetch)
    requires token != "" && AuthorizationHeader !in config.headers
    ensures var h := Request(baseUrl, endpoint, config, Some(token), fetches).headers;
      (AuthorizationHeader in h <==> !config.skipAuth) && (!config.skipAuth ==> h[AuthorizationHeader] == "Bearer " + token)
  {
  }

  /** At most `maxRetries - retryCount + 1` fetches; the retry made at count
      r sleeps 1000·2^r ms first, and none follows the last fetch. */
  lemma {:induction false} SendShape(fetches: nat -> Fetch, retryCount: nat, maxRetries: int)
    ensures var r := Send(fetches, retryCount, maxRetries);
      && 1 <= r.fetches <= (if retryCount < maxRetries then maxRetries - retryCount else 0) + 1
      && |r.delays| == r.fetches - 1
      && (forall j :: 0 <= j < |r.delays| ==> r.delays[j] == RetryDelayMs * ErrorHandler.Pow2(retryCount + j))
    decreases if retryCount < maxRetries then maxRetries - retryCount else 0
  {
    var r := Send(fetches, retryCount, maxRetries);
    if r.fetches > 1 {
      SendShape(Later(fetches), retryCount + 1, maxRetries);
      var rest := Send(Later(fetches), retryCount + 1, maxRetries);
      assert r.delays == [RetryDelayMs * ErrorHandler.Pow2(retryCount)] + rest.delays;
      forall j | 0 < j < |r.delays| ensures r.delays[j] == RetryDelayMs * ErrorHandler.Pow2(retryCount + j) {
        assert r.delays[j] == rest.delays[j - 1];
      }
    }
  }

  /** With the defaults a request makes at most four fetches. */
  lemma DefaultRetryBound(baseUrl: string, endpoint: string, config: RequestConfig, accessToken: Option<string>, fetches: nat -> Fetch)
    requires config.retryCount.None? && config.maxRetries.None?
    ensures Request(baseUrl, endpoint, config, accessToken, fetches).run.fetches <= 4
  {
    SendShape(fetches, 0, DefaultMaxRetries);
  }

  /** A failure that is not retryable ends the request after its one fetch. */
  lemma StopsUnlessRetryable(fetches: nat -> Fetch, retryCount: nat, maxRetries: int)
    requires Attempt(fetches(0)).Failure? && !ErrorHandler.IsRetryableError(Caught(Attempt(fetches(0)).error))
    ensures Send(fetches, retryCount, maxRetries) == RequestRun(Failure(Caught(Attempt(fetches(0)).error)), 1, [])
  {
  }

  /** A 401 or 403 response is not retried, unless its message mentions
      "Network error" (the network test comes first in `isRetryableError`). */
  lemma AccessDeniedNotRetried(fetches: nat -> Fetch, retryCount: nat, maxRetries: int)
    requires fetches(0).Responded? && !fetches(0).response.ok
    requires fetches(0).response.status == 401 || fetches(0).response.status == 403
    requires ParseErrorResponse(fetches(0).response).Success? ==>
      !Contains(ParseErrorResponse(fetches(0).response).value.message, ErrorHandler.NetworkErrorMarker)
    ensures Send(fetches, retryCount, maxRetries) == RequestRun(ResponseInterceptor(fetches(0).response), 1, [])
  {
    var response := fetches(0).response;
    if ParseErrorResponse(response).Failure? {
      NullBodyNotRetried(fetches, retryCount, maxRetries);
    } else {
      StopsUnlessRetryable(fetches, retryCount, maxRetries);
    }
  }

  /** A client error other than 401 and 403 is retried only when its message
      mentions "Network error": its status is below 500. */
  lemma ClientErrorRetriedOnlyOnNetworkText(response: HttpResponse, fetches: nat -> Fetch, retryCount: nat, maxRetries: int)
    requires fetches(0) == Responded(response) && !response.ok && 400 <= response.status < 500
    requires response.status != 401 && response.status != 403
    requires retryCount < maxRetries
    ensures Send(fetches, retryCount, maxRetries).fetches > 1 <==>
      ParseErrorResponse(response).Success? && Contains(ParseErrorResponse(response).value.message, ErrorHandler.NetworkErrorMarker)
  {
    if ParseErrorResponse(response).Failure? {
      NullBodyNotRetried(fetches, retryCount, maxRetries);
    }
  }

  /** A 5xx response is retried while retries remain, unless its body is
      `null`, whose TypeError ends the request. */
  lemma ServerErrorRetried(response: HttpResponse, fetches: nat -> Fetch, retryCount: nat, maxRetries: int)
    requires fetches(0) == Responded(response) && !response.ok && 500 <= response.status < 600
    requires retryCount < maxRetries
    ensures Send(fetches, retryCount, maxRetries).fetches > 1 <==> response.body != Success(Null)
  {
    if response.body == Success(Null) {
      NullBodyNotRetried(fetches, retryCount, maxRetries);
    }
  }

  /** A failed `fetch` becomes the network error, retried while retries remain. */
  lemma NetworkFailureRetried(fetches: nat -> Fetch, retryCount: nat, maxRetries: int)
    requires fetches(0).Rejected? && IsFetchFailure(fetches(0).error)
    ensures retryCount < maxRetries ==> Send(fetches, retryCount, maxRetries).fetches > 1
    ensures retryCount >= maxRetries ==> Send(fetches, retryCount, maxRetries) == RequestRun(Failure(PlainError(NetworkFailure)), 1, [])
  {
    assert Contains(NetworkFailure, ErrorHandler.NetworkErrorMarker) by {
      assert OccursAt(NetworkFailure, ErrorHandler.NetworkErrorMarker, 0);
    }
  }

  // ---------------------------------------------------------------- verbs

  /** `get(endpoint, config)` and `delete(endpoint, config)`: the method set, nothing else changed. */
  function WithMethod(config: RequestConfig, verb: string): (c: RequestConfig)
    ensures c.verb == Some(verb) && c.body == config.body && c.headers == config.headers
    ensures c.skipAuth == config.skipAuth && c.retryCount == config.retryCount && c.maxRetries == config.maxRetries
  {
    config.(verb := Some(verb))
  }

  /** `post`, `put` and `patch`: the method set and the body `JSON.stringify(data)`
      when `data` is truthy, no body otherwise. */
  function WithBody(config: RequestConfig, verb: string, data: Option<Json>, stringify: Json -> string): (c: RequestConfig)
    ensures c.verb == Some(verb)
    ensures TruthyOpt(data) ==> c.body == Some(stringify(data.value))
    ensures !TruthyOpt(data) ==> c.body.None?
    ensures c.headers == config.headers && c.skipAuth == config.skipAuth
    ensures c.retryCount == config.retryCount && c.maxRetries == config.maxRetries
  {
    config.(verb := Some(verb), body := if TruthyOpt(data) then Some(stringify(data.value)) else None)
  }

  function Get(config: RequestConfig): (c: RequestConfig)
    ensures c.verb == Some("GET") && c.body == config.body && c.headers == config.headers
  {
    WithMethod(config, "GET")
  }

  function Delete(config: RequestConfig): (c: RequestConfig)
    ensures c.verb == Some("DELETE") && c.body == config.body && c.headers == config.headers
  {
    WithMethod(config, "DELETE")
  }

  function Post(config: RequestConfig, data: Option<Json>, stringify: Json -> string): (c: RequestConfig)
    ensures c.verb == Some("POST") && c.headers == config.headers
    ensures c.body == (if TruthyOpt(data) then Some(stringify(data.value)) else None)
  {
    WithBody(config, "POST", data, stringify)
  }

  function Put(config: RequestConfig, data: Option<Json>, stringify: Json -> string): (c: RequestConfig)
    ensures c.verb == Some("PUT") && c.headers == config.headers
    ensures c.body == (if TruthyOpt(data) then Some(stringify(data.value)) else None)
  {
    WithBody(config, "PUT", data, stringify)
  }

  function Patch(config: RequestConfig, data: Option<Json>, stringify: Json -> string): (c: RequestConfig)
    ensures c.verb == Some("PATCH") && c.headers == config.headers
    ensures c.body == (if TruthyOpt(data) then Some(stringify(data.value)) else None)
  {
    WithBody(config, "PATCH", data, stringify)
  }
}
