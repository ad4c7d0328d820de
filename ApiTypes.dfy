/** What the core throws and what the network hands back, as values. */
module ApiTypes {
  import opened Wrappers
  import opened Json
  import opened AuthTypes
  import Text

  /** The class an `Error` instance was constructed from; `instanceof` tests it. */
  datatype ErrorClass = BaseError | TypeError | AuthenticationError | AuthorizationError

  /** A thrown value: an `Error` instance, with its `name`, its `message` and the
      numeric `status` property `Object.assign` may have copied onto it; or a
      thrown non-Error value, which may be an object with a numeric `status`. */
  datatype Thrown =
    | Error(cls: ErrorClass, name: string, message: string, status: Option<int>)
    | NonError(status: Option<int>)

  /** `new Error(message)`. */
  function PlainError(message: string): (e: Thrown)
    ensures e.Error? && e.cls == BaseError && e.message == message && e.status.None?
  {
    Error(BaseError, "Error", message, None)
  }

  /** `new AuthenticationError(message)`. */
  function AuthError(message: string): (e: Thrown)
    ensures e.Error? && e.cls == AuthenticationError && e.message == message && e.status.None?
  {
    Error(AuthenticationError, "AuthenticationError", message, None)
  }

  /** `new AuthorizationError(message)`. */
  function ForbiddenError(message: string): (e: Thrown)
    ensures e.Error? && e.cls == AuthorizationError && e.message == message && e.status.None?
  {
    Error(AuthorizationError, "AuthorizationError", message, None)
  }

  /** The TypeError a property read of `null` throws, naming the property. */
  function NullRead(key: string): (e: Thrown)
    ensures e.Error? && e.cls == TypeError && e.name == "TypeError" && e.status.None?
  {
    Error(TypeError, "TypeError", "Cannot read " + "properties " + "of null " + "(reading '" + key + "')", None)
  }

  /** A character absent from the fixed words of the message and from `key`
      is absent from the message of `NullRead(key)`. */
  lemma NullReadFree(key: string, c: char)
    requires Text.Free("Cannot read ", c) && Text.Free("properties ", c) && Text.Free("of null ", c)
    requires Text.Free("(reading '", c) && Text.Free("')", c) && Text.Free(key, c)
    ensures Text.Free(NullRead(key).message, c)
  {
    var m := NullRead(key).message;
    forall i | 0 <= i < |m|
      ensures m[i] != c
    {
      var p := ["Cannot read ", "properties ", "of null ", "(reading '", key, "')"];
      if i < 12 { assert m[i] == p[0][i]; }
      else if i < 23 { assert m[i] == p[1][i - 12]; }
      else if i < 31 { assert m[i] == p[2][i - 23]; }
      else if i < 41 { assert m[i] == p[3][i - 31]; }
      else if i < 41 + |key| { assert m[i] == key[i - 41]; }
      else { assert m[i] == p[5][i - 41 - |key|]; }
    }
  }

  /** `v[key]` as JavaScript evaluates it: reading a property of `null`
      throws a TypeError, and any other value is read by `Member`. */
  function Read(v: Json, key: string): (r: Result<Option<Json>, Thrown>)
    ensures r.Failure? <==> v.Null?
    ensures r.Failure? ==> r.error == NullRead(key)
    ensures r.Success? ==> r.value == Member(v, key)
  {
    if v.Null? then Failure(NullRead(key)) else Success(Member(v, key))
  }

  /** The `ApiError` record an error response is parsed into. */
  datatype ApiError = ApiError(status: int, message: string, code: string, details: Option<Json>)

  /** The outcome of a request to a token endpoint: an ok response carrying the
      token response; a non-ok response with its JSON body, `None` when the body
      is not JSON; an ok response whose body `response.json()` rejects; or a
      `fetch` that rejects. */
  datatype TokenReply =
    | Granted(tokens: TokenResponse)
    | Refused(status: int, statusText: string, body: Option<Json>)
    | Unreadable(parseError: Thrown)
    | Unreachable(fetchError: Thrown)

  /** The outcome of a request answered with JSON: a response with its status
      and its body, a `Failure` carrying what `response.json()` rejects with
      when the body is not JSON; or a `fetch` that rejects. */
  datatype JsonReply =
    | Response(ok: bool, status: int, statusText: string, body: Result<Json, Thrown>)
    | FetchFailed(fetchError: Thrown)
}
