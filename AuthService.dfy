/** The plain OAuth 2.0 service the session store uses: configuration from
    the `VITE_OAUTH_*` variables, the failure rules of the token exchange, the
    Microsoft Graph profile mapping, and the profile update. Each network
    reply is an input; the environment is a map from variable names to values. */
module AuthService {
  import opened Wrappers
  import opened Json
  import opened AuthTypes
  import opened ApiTypes
  import ClaimsMapper

  const OAuthAuthorizationEndpointVar := "VITE_OAUTH_AUTHORIZATION_ENDPOINT"
  const OAuthTokenEndpointVar := "VITE_OAUTH_TOKEN_ENDPOINT"
  const OAuthClientIdVar := "VITE_OAUTH_CLIENT_ID"
  const OAuthRedirectUriVar := "VITE_OAUTH_REDIRECT_URI"
  const OAuthPostLogoutUriVar := "VITE_OAUTH_POST_LOGOUT_URI"
  const OAuthScopeVar := "VITE_OAUTH_SCOPE"

  /** `import.meta.env[name]`: `None` when the variable is not set. */
  function EnvGet(env: map<string, string>, name: string): (v: Option<string>)
    ensures v.Some? <==> name in env
    ensures v.Some? ==> v.value == env[name]
  {
    if name in env then Some(env[name]) else None
  }

  /** `getOAuthConfig()`: each field is its variable, unset ones undefined. */
  function GetOAuthConfig(env: map<string, string>): (c: OAuthConfig)
    ensures c.clientId.Some? <==> OAuthClientIdVar in env
    ensures c == OAuthConfig(EnvGet(env, OAuthAuthorizationEndpointVar), EnvGet(env, OAuthTokenEndpointVar),
                             EnvGet(env, OAuthClientIdVar), EnvGet(env, OAuthRedirectUriVar),
                             EnvGet(env, OAuthPostLogoutUriVar), EnvGet(env, OAuthScopeVar))
  {
    OAuthConfig(EnvGet(env, OAuthAuthorizationEndpointVar), EnvGet(env, OAuthTokenEndpointVar),
                EnvGet(env, OAuthClientIdVar), EnvGet(env, OAuthRedirectUriVar),
                EnvGet(env, OAuthPostLogoutUriVar), EnvGet(env, OAuthScopeVar))
  }

  /** `${error.error || response.statusText}` where `error` is the parsed error
      body, or `{error: fallback}` when the body is not JSON. A body that is
      JSON `null` makes `error.error` throw a TypeError. */
  function ErrorDetail(body: Option<Json>, fallback: string, statusText: string): (r: Result<string, Thrown>)
    ensures r.Failure? <==> body == Some(Null)
    ensures r.Failure? ==> r.error == NullRead("error")
    ensures body.None? && fallback != "" ==> r == Success(fallback)
    ensures body.Some? && !body.value.Null? && !TruthyOpt(Member(body.value, "error")) ==> r == Success(statusText)
    ensures body.Some? && NonEmptyText(Member(body.value, "error")).Some? ==> r == Success(NonEmptyText(Member(body.value, "error")).value)
  {
    var error := if body.Some? then body.value else Obj(map["error" := Str(fallback)]);
    match Read(error, "error")
    case Failure(t) => Failure(t)
    case Success(e) => Success(if TruthyOpt(e) then Display(e.value) else statusText)
  }

  /** The error a non-ok reply makes a service throw: `new Error(prefix + detail)`,
      or the TypeError of reading `error` off a `null` body. */
  function RefusalError(prefix: string, detail: Result<string, Thrown>): (e: Thrown)
    ensures detail.Success? ==> e == PlainError(prefix + detail.value)
    ensures detail.Failure? ==> e == detail.error
  {
    match detail
    case Success(d) => PlainError(prefix + d)
    case Failure(t) => t
  }

  /** `exchangeCodeForTokens(code, verifier)` given the token endpoint's reply:
      the token response of an ok reply, "Token exchange failed: …" for a
      non-ok one (a TypeError when its body is `null`), and the rejection of
      `fetch` or `response.json()` unchanged. */
  function ExchangeCodeForTokens(reply: TokenReply): (r: Result<TokenResponse, Thrown>)
    ensures r.Success? <==> reply.Granted?
    ensures reply.Granted? ==> r.value == reply.tokens
    ensures reply.Refused? && reply.body != Some(Null) ==>
      r == Failure(PlainError("Token exchange failed: " + ErrorDetail(reply.body, "token_exchange_failed", reply.statusText).value))
    ensures reply.Refused? && reply.body == Some(Null) ==> r == Failure(NullRead("error"))
    ensures reply.Unreadable? ==> r == Failure(reply.parseError)
    ensures reply.Unreachable? ==> r == Failure(reply.fetchError)
  {
    match reply
    case Granted(tokens) => Success(tokens)
    case Refused(_, statusText, body) =>
      Failure(RefusalError("Token exchange failed: ", ErrorDetail(body, "token_exchange_failed", statusText)))
    case Unreadable(e) => Failure(e)
    case Unreachable(e) => Failure(e)
  }

  /** The token request `exchangeCodeForTokens(code, verifier)` sends: the
      authorization-code grant to the `VITE_OAUTH_TOKEN_ENDPOINT`, naming the
      `VITE_OAUTH_CLIENT_ID` and `VITE_OAUTH_REDIRECT_URI` ("undefined" when unset). */
  function ExchangeRequest(env: map<string, string>, code: string, verifier: string): (request: FormPost)
    ensures request.endpoint == Shown(EnvGet(env, OAuthTokenEndpointVar))
    ensures request.params == [("grant_type", "authorization_code"), ("client_id", Shown(EnvGet(env, OAuthClientIdVar))),
                               ("code", code), ("redirect_uri", Shown(EnvGet(env, OAuthRedirectUriVar))),
                               ("code_verifier", verifier)]
  {
    var config := GetOAuthConfig(env);
    FormPost(Shown(config.tokenEndpoint),
      [("grant_type", "authorization_code"), ("client_id", Shown(config.clientId)), ("code", code),
       ("redirect_uri", Shown(config.redirectUri)), ("code_verifier", verifier)])
  }

  /** A Graph string property; a missing or non-string value is taken as ''. */
  function GraphText(v: Option<Json>): (s: string)
    ensures v.Some? && v.value.Str? ==> s == v.value.s
    ensures !(v.Some? && v.value.Str?) ==> s == ""
  {
    if v.Some? && v.value.Str? then v.value.s else ""
  }

  /** `data.roles || []` for a list of strings: a falsy value gives [], and an
      array gives exactly the strings it holds. */
  function GraphList(v: Option<Json>): (l: seq<string>)
    ensures !TruthyOpt(v) ==> l == []
    ensures v.Some? && v.value.Arr? ==> forall x :: x in l <==> Str(x) in v.value.items
  {
    if v.Some? && v.value.Arr? then
      ClaimsMapper.StringsOfMembers(v.value.items);
      ClaimsMapper.StringsOf(v.value.items)
    else []
  }

  /** The Microsoft Graph `/me` document as a profile: id, mail or else
      userPrincipalName, displayName, and roles and permissions defaulting to [].
      A `null` document makes `data.id` throw a TypeError. */
  function GraphProfile(data: Json): (r: Result<UserProfile, Thrown>)
    ensures r.Failure? <==> data.Null?
    ensures r.Failure? ==> r.error == NullRead("id")
    ensures r.Success? ==> var p := r.value;
      && p.id == GraphText(Member(data, "id")) && p.name == GraphText(Member(data, "displayName"))
      && (NonEmptyText(Member(data, "mail")).Some? ==> p.email == NonEmptyText(Member(data, "mail")).value)
      && (NonEmptyText(Member(data, "mail")).None? ==> p.email == GraphText(Member(data, "userPrincipalName")))
      && p.roles == GraphList(Member(data, "roles"))
      && p.permissions == GraphList(Member(data, "permissions"))
  {
    if data.Null? then Failure(NullRead("id"))
    else
      var mail := NonEmptyText(Member(data, "mail"));
      Success(UserProfile(
        GraphText(Member(data, "id")),
        if mail.Some? then mail.value else GraphText(Member(data, "userPrincipalName")),
        GraphText(Member(data, "displayName")),
        GraphList(Member(data, "roles")),
        GraphList(Member(data, "permissions"))))
  }

  /** A Graph document granting roles as an array grants exactly its string entries,
      and one without roles grants none. */
  lemma GraphRoles(data: Json, role: string)
    requires !data.Null?
    ensures Member(data, "roles").Some? && Member(data, "roles").value.Arr? ==>
      (role in GraphProfile(data).value.roles <==> Str(role) in Member(data, "roles").value.items)
    ensures Member(data, "roles").None? ==> role !in GraphProfile(data).value.roles
  {
  }

  /** `getUserProfile(accessToken)` given the Graph reply: a non-ok reply fails
      with "Failed to fetch user profile"; otherwise the document is mapped,
      a `null` document failing with the TypeError of `data.id`. */
  function GetUserProfile(reply: JsonReply): (r: Result<UserProfile, Thrown>)
    ensures reply.Response? && !reply.ok ==> r == Failure(PlainError("Failed to fetch user profile"))
    ensures r.Success? <==> reply.Response? && reply.ok && reply.body.Success? && !reply.body.value.Null?
    ensures reply.Response? && reply.ok && reply.body == Success(Null) ==> r == Failure(NullRead("id"))
    ensures r.Success? ==> r == GraphProfile(reply.body.value)
  {
    match reply
    case FetchFailed(e) => Failure(e)
    case Response(ok, _, _, body) =>
      if !ok then Failure(PlainError("Failed to fetch user profile"))
      else match body
        case Failure(e) => Failure(e)
        case Success(data) => GraphProfile(data)
  }

  /** The error body of a PATCH reply as `ErrorDetail` sees it: `None` when it is not JSON. */
  function PatchBody(reply: JsonReply): Option<Json>
    requires reply.Response?
  {
    if reply.body.Success? then Some(reply.body.value) else None
  }

  /** `updateProfile(accessToken, updates)` given the PATCH reply and the reply
      of the profile fetch that follows it: a non-ok PATCH fails with
      "Profile update failed: …" (a TypeError when its body is `null`); an ok
      one returns the re-fetched profile. */
  function UpdateProfile(patchReply: JsonReply, refetchReply: JsonReply): (r: Result<UserProfile, Thrown>)
    ensures patchReply.Response? && patchReply.ok ==> r == GetUserProfile(refetchReply)
    ensures patchReply.Response? && !patchReply.ok && patchReply.body != Success(Null) ==>
      r == Failure(PlainError("Profile update failed: " +
        ErrorDetail(PatchBody(patchReply), "profile_update_failed", patchReply.statusText).value))
    ensures patchReply.Response? && !patchReply.ok && patchReply.body == Success(Null) ==> r == Failure(NullRead("error"))
    ensures patchReply.FetchFailed? ==> r == Failure(patchReply.fetchError)
  {
    match patchReply
    case FetchFailed(e) => Failure(e)
    case Response(ok, _, statusText, body) =>
      if !ok then
        Failure(RefusalError("Profile update failed: ", ErrorDetail(PatchBody(patchReply), "profile_update_failed", statusText)))
      else GetUserProfile(refetchReply)
  }

  /** `revokeTokens(accessToken)`: a placeholder that sends no request and never fails. */
  function RevokeTokens(accessToken: string): (requests: seq<FormPost>)
    ensures |requests| == 0
  {
    []
  }
}
