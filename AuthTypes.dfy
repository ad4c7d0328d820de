/** The records shared by the authentication services and the session store
    (the interfaces of `auth.types.ts`). An environment value that is not set
    (`undefined`) is `None`. */
module AuthTypes {
  import opened Wrappers

  datatype UserProfile = UserProfile(
    id: string,
    email: string,
    name: string,
    roles: seq<string>,
    permissions: seq<string>)

  /** The token endpoint's reply; `expires_in` is in seconds. */
  datatype TokenResponse = TokenResponse(
    accessToken: string,
    idToken: string,
    tokenType: string,
    expiresIn: int,
    refreshToken: Option<string>,
    scope: Option<string>)

  /** The plain OAuth configuration read from the `VITE_OAUTH_*` variables. */
  datatype OAuthConfig = OAuthConfig(
    authorizationEndpoint: Option<string>,
    tokenEndpoint: Option<string>,
    clientId: Option<string>,
    redirectUri: Option<string>,
    postLogoutUri: Option<string>,
    scope: Option<string>)

  /** The OIDC configuration; the claim paths always have a value. */
  datatype OidcConfig = OidcConfig(
    issuer: Option<string>,
    authorizationEndpoint: Option<string>,
    tokenEndpoint: Option<string>,
    userinfoEndpoint: Option<string>,
    endSessionEndpoint: Option<string>,
    revocationEndpoint: Option<string>,
    clientId: Option<string>,
    redirectUri: Option<string>,
    postLogoutRedirectUri: Option<string>,
    scope: string,
    rolesClaim: string,
    permissionsClaim: string)

  /** `!!v` for an optional string. */
  predicate Present(v: Option<string>) {
    v.Some? && v.value != ""
  }

  /** `a || b` on optional strings: `a` when truthy, `b` otherwise. */
  function Or(a: Option<string>, b: Option<string>): (r: Option<string>)
    ensures Present(a) ==> r == a
    ensures !Present(a) ==> r == b
  {
    if Present(a) then a else b
  }

  /** A `URLSearchParams` value: an undefined configuration value is sent as "undefined". */
  function Shown(v: Option<string>): (s: string)
    ensures v.Some? ==> s == v.value
    ensures v.None? ==> s == "undefined"
  {
    if v.Some? then v.value else "undefined"
  }

  /** A navigation of `window.location.href`: the target and the query
      parameters after its '?' (none for a plain URL). */
  datatype Redirect = Redirect(endpoint: string, query: seq<(string, string)>)

  /** A form-encoded POST (`application/x-www-form-urlencoded`) to an endpoint. */
  datatype FormPost = FormPost(endpoint: string, params: seq<(string, string)>)
}
