/** The OpenID Connect service: configuration with OIDC-over-OAuth precedence,
    ID-token decoding and claim validation (section 3.1.3.7 of OpenID Connect
    Core 1.0), the UserInfo fallback (section 5.3), the token refresh, the
    revocation requests of section 2.1 of RFC 7009 and the end-session
    redirect of OpenID Connect RP-Initiated Logout 1.0, section 2. Each
    network reply, the clock and `JSON.parse` are inputs. A request is given
    as its endpoint and its form parameters, in order. */
module OidcService {
  import opened Wrappers
  import opened Text
  import opened Json
  import opened AuthTypes
  import opened ApiTypes
  import TokenHandler
  import ClaimsMapper
  import AuthService

  const OidcIssuerVar := "VITE_OIDC_ISSUER"
  const OidcAuthorizationEndpointVar := "VITE_OIDC_AUTHORIZATION_ENDPOINT"
  const OidcTokenEndpointVar := "VITE_OIDC_TOKEN_ENDPOINT"
  const OidcUserinfoEndpointVar := "VITE_OIDC_USERINFO_ENDPOINT"
  const OidcEndSessionEndpointVar := "VITE_OIDC_END_SESSION_ENDPOINT"
  const OidcRevocationEndpointVar := "VITE_OIDC_REVOCATION_ENDPOINT"
  const OidcClientIdVar := "VITE_OIDC_CLIENT_ID"
  const OidcRedirectUriVar := "VITE_OIDC_REDIRECT_URI"
  const OidcPostLogoutRedirectUriVar := "VITE_OIDC_POST_LOGOUT_REDIRECT_URI"
  const OidcScopeVar := "VITE_OIDC_SCOPE"
  const OidcRolesClaimVar := "VITE_OIDC_ROLES_CLAIM"
  const OidcPermissionsClaimVar := "VITE_OIDC_PERMISSIONS_CLAIM"

  /** Every `VITE_OIDC_*` variable the configuration reads. */
  const OidcVars := {OidcIssuerVar, OidcAuthorizationEndpointVar, OidcTokenEndpointVar, OidcUserinfoEndpointVar,
    OidcEndSessionEndpointVar, OidcRevocationEndpointVar, OidcClientIdVar, OidcRedirectUriVar,
    OidcPostLogoutRedirectUriVar, OidcScopeVar, OidcRolesClaimVar, OidcPermissionsClaimVar}

  const DefaultScope := "openid profile email"

  /** Allowed clock skew for `iat`, in seconds. */
  const ClockSkewTolerance := 5 * 60

  // ---------------------------------------------------------------- configuration

  /** `r` is `a || b`: the first when it is set and non-empty, else the second. */
  predicate Prefers(r: Option<string>, a: Option<string>, b: Option<string>) {
    (Present(a) ==> r == a) && (!Present(a) ==> r == b)
  }

  /** The configuration and whether the deprecation warning is logged. */
  datatype Resolution = Resolution(config: OidcConfig, deprecationWarning: bool)

  function Env(env: map<string, string>, name: string): Option<string> {
    AuthService.EnvGet(env, name)
  }

  /** `getOIDCConfig()`. */
  function GetOidcConfig(env: map<string, string>): (r: Resolution)
    ensures r.deprecationWarning <==> Present(Env(env, AuthService.OAuthClientIdVar)) && !Present(Env(env, OidcClientIdVar))
    ensures Prefers(r.config.authorizationEndpoint, Env(env, OidcAuthorizationEndpointVar), Env(env, AuthService.OAuthAuthorizationEndpointVar))
    ensures Prefers(r.config.tokenEndpoint, Env(env, OidcTokenEndpointVar), Env(env, AuthService.OAuthTokenEndpointVar))
    ensures Prefers(r.config.clientId, Env(env, OidcClientIdVar), Env(env, AuthService.OAuthClientIdVar))
    ensures Prefers(r.config.redirectUri, Env(env, OidcRedirectUriVar), Env(env, AuthService.OAuthRedirectUriVar))
    ensures Prefers(r.config.postLogoutRedirectUri, Env(env, OidcPostLogoutRedirectUriVar), Env(env, AuthService.OAuthPostLogoutUriVar))
    ensures Present(Env(env, OidcScopeVar)) ==> r.config.scope == env[OidcScopeVar]
    ensures !Present(Env(env, OidcScopeVar)) && Present(Env(env, AuthService.OAuthScopeVar)) ==> r.config.scope == env[AuthService.OAuthScopeVar]
    ensures !Present(Env(env, OidcScopeVar)) && !Present(Env(env, AuthService.OAuthScopeVar)) ==> r.config.scope == DefaultScope
    ensures r.config.rolesClaim == if Present(Env(env, OidcRolesClaimVar)) then env[OidcRolesClaimVar] else ClaimsMapper.DefaultRolesClaim
    ensures r.config.permissionsClaim == if Present(Env(env, OidcPermissionsClaimVar)) then env[OidcPermissionsClaimVar] else ClaimsMapper.DefaultPermissionsClaim
    ensures r.config.issuer == Env(env, OidcIssuerVar) && r.config.userinfoEndpoint == Env(env, OidcUserinfoEndpointVar)
    ensures r.config.endSessionEndpoint == Env(env, OidcEndSessionEndpointVar) && r.config.revocationEndpoint == Env(env, OidcRevocationEndpointVar)
  {
    var hasOidcConfig := Present(Env(env, OidcClientIdVar));
    var hasOAuthConfig := Present(Env(env, AuthService.OAuthClientIdVar));
    var scope := Or(Env(env, OidcScopeVar), Env(env, AuthService.OAuthScopeVar));
    var roles := Env(env, OidcRolesClaimVar);
    var permissions := Env(env, OidcPermissionsClaimVar);
    Resolution(
      OidcConfig(
        Env(env, OidcIssuerVar),
        Or(Env(env, OidcAuthorizationEndpointVar), Env(env, AuthService.OAuthAuthorizationEndpointVar)),
        Or(Env(env, OidcTokenEndpointVar), Env(env, AuthService.OAuthTokenEndpointVar)),
        Env(env, OidcUserinfoEndpointVar),
        Env(env, OidcEndSessionEndpointVar),
        Env(env, OidcRevocationEndpointVar),
        Or(Env(env, OidcClientIdVar), Env(env, AuthService.OAuthClientIdVar)),
        Or(Env(env, OidcRedirectUriVar), Env(env, AuthService.OAuthRedirectUriVar)),
        Or(Env(env, OidcPostLogoutRedirectUriVar), Env(env, AuthService.OAuthPostLogoutUriVar)),
        if Present(scope) then scope.value else DefaultScope,
        if Present(roles) then roles.value else ClaimsMapper.DefaultRolesClaim,
        if Present(permissions) then permissions.value else ClaimsMapper.DefaultPermissionsClaim),
      hasOAuthConfig && !hasOidcConfig)
  }

  /** With no `VITE_OIDC_*` variable set, the OIDC configuration falls back to
      the OAuth configuration field by field, and the warning is logged exactly
      when an OAuth client id is set. */
  lemma FallsBackToOAuth(env: map<string, string>)
    requires forall name :: name in env ==> name !in OidcVars
    ensures var r := GetOidcConfig(env); var o := AuthService.GetOAuthConfig(env);
      && r.config.authorizationEndpoint == o.authorizationEndpoint
      && r.config.tokenEndpoint == o.tokenEndpoint
      && r.config.clientId == o.clientId
      && r.config.redirectUri == o.redirectUri
      && r.config.postLogoutRedirectUri == o.postLogoutUri
      && (r.deprecationWarning <==> Present(o.clientId))
      && (Present(o.scope) ==> r.config.scope == o.scope.value)
      && r.config.issuer.None? && r.config.userinfoEndpoint.None?
      && r.config.endSessionEndpoint.None? && r.config.revocationEndpoint.None?
  {
    assert OidcIssuerVar !in env && OidcAuthorizationEndpointVar !in env && OidcTokenEndpointVar !in env;
    assert OidcUserinfoEndpointVar !in env && OidcEndSessionEndpointVar !in env && OidcRevocationEndpointVar !in env;
    assert OidcClientIdVar !in env && OidcRedirectUriVar !in env && OidcPostLogoutRedirectUriVar !in env;
    assert OidcScopeVar !in env;
  }

  // ---------------------------------------------------------------- token exchange

  /** `exchangeCodeForTokens(code, verifier)`: the same failure rule as the
      plain OAuth exchange, against the resolved token endpoint. */
  function ExchangeCodeForTokens(reply: TokenReply): (r: Result<TokenResponse, Thrown>)
    ensures r == AuthService.ExchangeCodeForTokens(reply)
  {
    match reply
    case Granted(tokens) => Success(tokens)
    case Refused(_, statusText, body) =>
      Failure(AuthService.RefusalError("Token exchange failed: ", AuthService.ErrorDetail(body, "token_exchange_failed", statusText)))
    case Unreadable(e) => Failure(e)
    case Unreachable(e) => Failure(e)
  }

  /** The token request `exchangeCodeForTokens(code, verifier)` sends: the
      authorization-code grant with the PKCE verifier (section 4.5 of RFC 7636). */
  function ExchangeRequest(env: map<string, string>, code: string, verifier: string): (request: FormPost)
    ensures var c := GetOidcConfig(env).config;
      && request.endpoint == Shown(c.tokenEndpoint)
      && request.params == [("grant_type", "authorization_code"), ("client_id", Shown(c.clientId)), ("code", code),
                            ("redirect_uri", Shown(c.redirectUri)), ("code_verifier", verifier)]
  {
    var config := GetOidcConfig(env).config;
    FormPost(Shown(config.tokenEndpoint),
      [("grant_type", "authorization_code"), ("client_id", Shown(config.clientId)), ("code", code),
       ("redirect_uri", Shown(config.redirectUri)), ("code_verifier", verifier)])
  }

  /** Without `VITE_OIDC_*` variables the OIDC exchange sends the plain OAuth request. */
  lemma ExchangeRequestFallsBack(env: map<string, string>, code: string, verifier: string)
    requires forall name :: name in env ==> name !in OidcVars
    ensures ExchangeRequest(env, code, verifier) == AuthService.ExchangeRequest(env, code, verifier)
  {
    FallsBackToOAuth(env);
  }

  // ---------------------------------------------------------------- ID token

  /** `decodeIDToken(idToken)`: a decoding failure is rethrown as
      "Failed to decode ID token: " followed by its message. */
  function DecodeIdToken(idToken: string, parse: string -> Option<Json>): (r: Result<Json, Thrown>)
    ensures r.Success? <==> TokenHandler.DecodeJwt(idToken, parse).Success?
    ensures r.Success? ==> r.value == TokenHandler.DecodeJwt(idToken, parse).value
    ensures r.Failure? ==> r.error == PlainError("Failed to decode ID token: " + TokenHandler.DecodeJwt(idToken, parse).error.message)
  {
    match TokenHandler.DecodeJwt(idToken, parse)
    case Success(p) => Success(p)
    case Failure(e) => Failure(PlainError("Failed to decode ID token: " + e.message))
  }

  /** `parts.join(sep)` for a separator of several characters. */
  function JoinWith(parts: seq<string>, sep: string): (r: string)
    ensures |parts| == 1 ==> r == parts[0]
    ensures |parts| == 0 ==> r == ""
  {
    if |parts| == 0 then "" else if |parts| == 1 then parts[0] else parts[0] + sep + JoinWith(parts[1..], sep)
  }

  /** `clientId` as `includes` compares it: a string, or undefined. */
  function AsClaim(v: Option<string>): Option<Json> {
    if v.Some? then Some(Str(v.value)) else None
  }

  /** `Array.isArray(aud) ? aud : [aud]`. */
  function Audiences(payload: map<string, Json>): (a: seq<Option<Json>>)
    ensures |a| >= 1 || Get(payload, "aud") == Some(Arr([]))
  {
    match Get(payload, "aud")
    case Some(Arr(items)) => seq(|items|, i requires 0 <= i < |items| => Some(items[i]))
    case aud => [aud]
  }

  /** The issuer check passes when no issuer is configured, and otherwise
      only for an `iss` claim that is that very string. */
  predicate IssuerOk(payload: map<string, Json>, config: OidcConfig)
    ensures !Present(config.issuer) ==> IssuerOk(payload, config)
    ensures Present(config.issuer) && IssuerOk(payload, config) ==> "iss" in payload && payload["iss"] == Str(config.issuer.value)
  {
    !Present(config.issuer) || Get(payload, "iss") == Some(Str(config.issuer.value))
  }

  /** The audience check passes when `aud` is the client id itself. */
  predicate AudienceOk(payload: map<string, Json>, config: OidcConfig)
    ensures config.clientId.Some? && Get(payload, "aud") == Some(Str(config.clientId.value)) ==> AudienceOk(payload, config)
  {
    AsClaim(config.clientId) in Audiences(payload)
  }

  /** The `iat` check: a falsy `iat` passes; a numeric one passes when at most
      the tolerance ahead of the current second. */
  predicate IatOk(payload: map<string, Json>, nowMs: int)
    ensures !TruthyOpt(Get(payload, "iat")) ==> IatOk(payload, nowMs)
    ensures forall i :: i != 0 && Get(payload, "iat") == Some(Num(i)) ==>
      (IatOk(payload, nowMs) <==> i <= nowMs / 1000 + ClockSkewTolerance)
  {
    var iat := Get(payload, "iat");
    !(TruthyOpt(iat) && ToNumber(iat.value).Some? && ToNumber(iat.value).value > nowMs / 1000 + ClockSkewTolerance)
  }

  /** `audiences.join(', ')`: undefined and null elements print as ''. */
  function JoinAudiences(a: seq<Option<Json>>): string {
    JoinWith(seq(|a|, i requires 0 <= i < |a| => if a[i].None? || a[i].value.Null? then "" else Display(a[i].value)), ", ")
  }

  function IssuerMessage(payload: map<string, Json>, config: OidcConfig): string
    requires Present(config.issuer)
  {
    "Invalid token issuer. Expected: " + config.issuer.value + ", Got: " + DisplayOpt(Get(payload, "iss"))
  }

  function AudienceMessage(payload: map<string, Json>, config: OidcConfig): string {
    "Invalid token audience. Expected: " + DisplayOpt(AsClaim(config.clientId)) + ", Got: " + JoinAudiences(Audiences(payload))
  }

  /** `validateIDToken(payload, config)` at the time `nowMs`: issuer, then
      audience, then expiry with the five-minute buffer, then `iat` against
      the clock-skew tolerance; the first failing check is the one reported. */
  function ValidateIdToken(payload: map<string, Json>, config: OidcConfig, nowMs: int): (r: Outcome<Thrown>)
    ensures r.Pass? <==> (IssuerOk(payload, config) && AudienceOk(payload, config)
      && !TokenHandler.PayloadExpired(Obj(payload), TokenHandler.DefaultBufferMinutes, nowMs) && IatOk(payload, nowMs))
    ensures !IssuerOk(payload, config) ==> r == Fail(PlainError(IssuerMessage(payload, config)))
    ensures IssuerOk(payload, config) && !AudienceOk(payload, config) ==> r == Fail(PlainError(AudienceMessage(payload, config)))
    ensures (IssuerOk(payload, config) && AudienceOk(payload, config)
      && TokenHandler.PayloadExpired(Obj(payload), TokenHandler.DefaultBufferMinutes, nowMs)) ==> r == Fail(PlainError("ID token has expired"))
    ensures (IssuerOk(payload, config) && AudienceOk(payload, config)
      && !TokenHandler.PayloadExpired(Obj(payload), TokenHandler.DefaultBufferMinutes, nowMs) && !IatOk(payload, nowMs))
      ==> r == Fail(PlainError("ID token issued in the future"))
  {
    if !IssuerOk(payload, config) then Fail(PlainError(IssuerMessage(payload, config)))
    else if !AudienceOk(payload, config) then Fail(PlainError(AudienceMessage(payload, config)))
    else if TokenHandler.PayloadExpired(Obj(payload), TokenHandler.DefaultBufferMinutes, nowMs) then Fail(PlainError("ID token has expired"))
    else if !IatOk(payload, nowMs) then Fail(PlainError("ID token issued in the future"))
    else Pass
  }

  /** The audience check in plain terms: for a configured client id, the `aud`
      claim is that string, or an array holding it. */
  lemma AudienceAccepts(payload: map<string, Json>, config: OidcConfig)
    requires config.clientId.Some?
    ensures AudienceOk(payload, config) <==>
      Get(payload, "aud") == Some(Str(config.clientId.value))
      || (Get(payload, "aud").Some? && Get(payload, "aud").value.Arr? && Str(config.clientId.value) in Get(payload, "aud").value.items)
  {
    var c := Str(config.clientId.value);
    match Get(payload, "aud")
    case Some(Arr(items)) =>
      var a := Audiences(payload);
      if Some(c) in a {
        var i :| 0 <= i < |a| && a[i] == Some(c);
        assert items[i] == c;
      }
      if c in items {
        var i :| 0 <= i < |items| && items[i] == c;
        assert a[i] == Some(c);
      }
    case _ =>
  }

  /** An unconfigured client id is found in a token without `aud`: `[undefined].includes(undefined)`. */
  lemma MissingAudienceMatchesMissingClientId(payload: map<string, Json>, config: OidcConfig)
    requires "aud" !in payload && config.clientId.None?
    ensures AudienceOk(payload, config)
  {
    assert Audiences(payload) == [None];
  }

  /** A token passing validation at `nowMs` has a truthy `exp`, and a numeric
      one lies more than five minutes after `nowMs`. */
  lemma ValidMeansUnexpired(payload: map<string, Json>, config: OidcConfig, nowMs: int)
    requires ValidateIdToken(payload, config, nowMs).Pass?
    ensures TruthyOpt(Get(payload, "exp"))
    ensures forall e :: Get(payload, "exp") == Some(Num(e)) ==> nowMs < e * 1000 - 300000
  {
    assert Member(Obj(payload), "exp") == Get(payload, "exp");
  }

  /** A numeric-text `exp` is converted before the comparison: a token with
      `exp: "<e>"` passes the expiry check only while `nowMs < e * 1000 - 300000`. */
  lemma NumericTextExpChecked(payload: map<string, Json>, config: OidcConfig, e: int, nowMs: int)
    requires Get(payload, "exp") == Some(Str(Text.IntToDecimal(e)))
    requires ValidateIdToken(payload, config, nowMs).Pass?
    ensures nowMs < e * 1000 - 300000
  {
    assert Member(Obj(payload), "exp") == Get(payload, "exp");
    TokenHandler.NumericTextExp(Obj(payload), e, TokenHandler.DefaultBufferMinutes, nowMs);
  }

  /** An `iat` written as numeric text is compared as the number it spells, so
      a future one beyond the tolerance is refused like a numeric one. */
  lemma NumericTextIatChecked(payload: map<string, Json>, i: int, nowMs: int)
    requires Get(payload, "iat") == Some(Str(Text.IntToDecimal(i)))
    ensures IatOk(payload, nowMs) <==> i <= nowMs / 1000 + ClockSkewTolerance
  {
    Text.IntDecimalShape(i);
    NumericTextConverts(i);
  }

  // ---------------------------------------------------------------- UserInfo

  /** The UserInfo data as `extractUserProfile` sees it: an object's claims; any
      other value contributes no claim. */
  function UserInfoClaims(data: Json): Option<map<string, Json>> {
    if data.Obj? then Some(data.fields) else None
  }

  /** `getUserProfile(accessToken, idTokenPayload)` given the UserInfo reply:
      with no endpoint configured, a non-ok reply, or a failed fetch or body,
      the ID-token-only profile; otherwise UserInfo merged over the ID token. */
  function GetUserProfile(env: map<string, string>, idToken: map<string, Json>, reply: JsonReply): (p: UserProfile)
    ensures var c := GetOidcConfig(env).config;
      var idOnly := ClaimsMapper.ExtractUserProfile(idToken, None, c.rolesClaim, c.permissionsClaim);
      && (!Present(c.userinfoEndpoint) ==> p == idOnly)
      && (reply.FetchFailed? || !reply.ok || reply.body.Failure? ==> p == idOnly)
      && (Present(c.userinfoEndpoint) && reply.Response? && reply.ok && reply.body.Success? ==>
            p == ClaimsMapper.ExtractUserProfile(idToken, UserInfoClaims(reply.body.value), c.rolesClaim, c.permissionsClaim))
  {
    var config := GetOidcConfig(env).config;
    var idOnly := ClaimsMapper.ExtractUserProfile(idToken, None, config.rolesClaim, config.permissionsClaim);
    if !Present(config.userinfoEndpoint) then idOnly
    else match reply
      case FetchFailed(_) => idOnly
      case Response(ok, _, _, body) =>
        if !ok then idOnly
        else match body
          case Failure(_) => idOnly
          case Success(data) => ClaimsMapper.ExtractUserProfile(idToken, UserInfoClaims(data), config.rolesClaim, config.permissionsClaim)
  }

  // ---------------------------------------------------------------- refresh

  const SessionExpired := PlainError("Session expired, please log in again")

  /** `refreshAccessToken(refreshToken)` as written: every failure inside the
      `try` becomes "Session expired, please log in again", except that
      `return response.json()` hands back the pending body without awaiting it,
      so a body that is not JSON rejects after the `try` and escapes the `catch`. */
  function RefreshAccessTokenAsWritten(reply: TokenReply): (r: Result<TokenResponse, Thrown>)
    ensures reply.Granted? ==> r == Success(reply.tokens)
    ensures reply.Refused? || reply.Unreachable? ==> r == Failure(SessionExpired)
    ensures reply.Unreadable? ==> r == Failure(reply.parseError)
  {
    match reply
    case Granted(tokens) => Success(tokens)
    case Refused(_, _, _) => Failure(SessionExpired)
    case Unreachable(_) => Failure(SessionExpired)
    case Unreadable(e) => Failure(e)
  }

  /** An ok reply with a body that is not JSON is not folded into "Session expired". */
  lemma RefreshParseErrorEscapes()
    ensures RefreshAccessTokenAsWritten(Unreadable(Error(BaseError, "SyntaxError", "Unexpected token", None))).error != SessionExpired
  {
  }

  /** `refreshAccessToken` as its documentation intends (`return await response.json()`):
      it yields the new tokens or fails with "Session expired, please log in again". */
  function RefreshAccessToken(reply: TokenReply): (r: Result<TokenResponse, Thrown>)
    ensures r.Success? <==> reply.Granted?
    ensures r.Success? ==> r.value == reply.tokens
    ensures r.Failure? ==> r.error == SessionExpired
  {
    if reply.Granted? then Success(reply.tokens) else Failure(SessionExpired)
  }

  /** The token request `refreshAccessToken(refreshToken)` sends. */
  function RefreshRequest(env: map<string, string>, refreshToken: string): (request: FormPost)
    ensures var c := GetOidcConfig(env).config;
      && request.endpoint == Shown(c.tokenEndpoint)
      && request.params == [("grant_type", "refresh_token"), ("refresh_token", refreshToken), ("client_id", Shown(c.clientId))]
  {
    var config := GetOidcConfig(env).config;
    FormPost(Shown(config.tokenEndpoint),
      [("grant_type", "refresh_token"), ("refresh_token", refreshToken), ("client_id", Shown(config.clientId))])
  }

  // ---------------------------------------------------------------- revocation and logout

  /** `revokeTokens(accessToken, refreshToken)`: the requests it sends, in
      order. Their replies are ignored, so it never fails. */
  function RevokeTokens(env: map<string, string>, accessToken: string, refreshToken: Option<string>): (requests: seq<FormPost>)
    ensures var c := GetOidcConfig(env).config;
      && (|requests| == 0 <==> !Present(c.revocationEndpoint))
      && (Present(c.revocationEndpoint) ==>
            && |requests| == (if Present(refreshToken) then 2 else 1)
            && requests[0] == FormPost(c.revocationEndpoint.value,
                 [("token", accessToken), ("client_id", Shown(c.clientId)), ("token_type_hint", "access_token")])
            && (Present(refreshToken) ==> requests[1] == FormPost(c.revocationEndpoint.value,
                 [("token", refreshToken.value), ("client_id", Shown(c.clientId)), ("token_type_hint", "refresh_token")])))
  {
    var config := GetOidcConfig(env).config;
    if !Present(config.revocationEndpoint) then []
    else
      var endpoint := config.revocationEndpoint.value;
      var access := FormPost(endpoint, [("token", accessToken), ("client_id", Shown(config.clientId)), ("token_type_hint", "access_token")]);
      if Present(refreshToken) then
        [access, FormPost(endpoint, [("token", refreshToken.value), ("client_id", Shown(config.clientId)), ("token_type_hint", "refresh_token")])]
      else [access]
  }

  /** Every revocation request goes to the configured endpoint and names the client. */
  lemma RevocationsNameClient(env: map<string, string>, accessToken: string, refreshToken: Option<string>)
    ensures var c := GetOidcConfig(env).config; var rs := RevokeTokens(env, accessToken, refreshToken);
      forall i :: 0 <= i < |rs| ==> rs[i].endpoint == c.revocationEndpoint.value && rs[i].params[1] == ("client_id", Shown(c.clientId))
  {
  }

  /** `endSession(idToken)`: the provider logout redirect, or none (local logout only)
      when no end-session endpoint is configured. */
  function EndSession(env: map<string, string>, idToken: string): (r: Option<Redirect>)
    ensures var c := GetOidcConfig(env).config;
      && (r.Some? <==> Present(c.endSessionEndpoint))
      && (r.Some? ==> (r.value.endpoint == c.endSessionEndpoint.value
            && r.value.query == [("id_token_hint", idToken), ("post_logout_redirect_uri", Shown(c.postLogoutRedirectUri))]))
  {
    var config := GetOidcConfig(env).config;
    if !Present(config.endSessionEndpoint) then None
    else Some(Redirect(config.endSessionEndpoint.value,
      [("id_token_hint", idToken), ("post_logout_redirect_uri", Shown(config.postLogoutRedirectUri))]))
  }
}
