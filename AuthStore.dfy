/** The authentication session store: five reactive fields, the
    `sessionStorage` slot holding the PKCE verifier between the redirect and
    the callback, the interval timers of the expiry monitor and the window
    slot remembering the latest one, and the navigation the store performs.
    It talks to the plain OAuth service. Replies, the clock and the random
    bytes are parameters of the methods. */
module AuthStore {
  import opened Wrappers
  import opened Bytes
  import opened Text
  import opened AuthTypes
  import opened ApiTypes
  import AuthService
  import Pkce
  import Base64
  import Utf8

  const VerifierKey := "pkce_verifier"

  /** A token counts as expired this long before `tokenExpiry`. */
  const ExpiryBufferMs := 5 * 60 * 1000

  /** The monitor's period. */
  const CheckIntervalMs := 60 * 1000

  /** The number of random bytes in the `state` parameter. */
  const StateBytes := 16

  /** `generateState()` given its random bytes: each byte as two lowercase,
      zero-padded hex digits, concatenated. */
  function GenerateState(randomValues: seq<byte>): (s: string)
    ensures |s| == 2 * |randomValues|
    ensures forall i :: 0 <= i < |s| ==> IsLowerHex(s[i])
    ensures forall k :: 0 <= k < |randomValues| ==> s[2 * k..2 * k + 2] == Hex2(randomValues[k])
  {
    if |randomValues| == 0 then ""
    else
      var rest := GenerateState(randomValues[1..]);
      var s := Hex2(randomValues[0]) + rest;
      assert forall k :: 1 <= k < |randomValues| ==> s[2 * k..2 * k + 2] == rest[2 * (k - 1)..2 * (k - 1) + 2];
      s
  }

  /** The state string determines its bytes: reading each pair of hex digits back gives byte k. */
  lemma StateRoundTrip(randomValues: seq<byte>, k: nat)
    requires k < |randomValues|
    ensures var s := GenerateState(randomValues);
      HexValue(s[2 * k]) * 16 + HexValue(s[2 * k + 1]) == randomValues[k]
  {
    var s := GenerateState(randomValues);
    var pair := s[2 * k..2 * k + 2];
    assert pair == Hex2(randomValues[k]);
    assert s[2 * k] == pair[0] && s[2 * k + 1] == pair[1];
  }

  /** The login flow's state value is 32 lowercase hex characters. */
  lemma StateLength(randomValues: seq<byte>)
    requires |randomValues| == StateBytes
    ensures |GenerateState(randomValues)| == 32
  {
  }

  /** `sessionStorage.getItem('pkce_verifier')`, with '' for a missing item (both are falsy). */
  function StoredVerifier(session: map<string, string>): (v: string)
    ensures VerifierKey in session ==> v == session[VerifierKey]
    ensures VerifierKey !in session ==> v == ""
  {
    if VerifierKey in session then session[VerifierKey] else ""
  }

  class Store {
    /** `import.meta.env`. */
    const env: map<string, string>

    var isAuthenticated: bool
    var user: Option<UserProfile>
    var accessToken: Option<string>
    var idToken: Option<string>
    var tokenExpiry: Option<int>

    /** `sessionStorage`. */
    var session: map<string, string>

    /** The interval timers still running, by id. */
    var intervals: set<nat>

    /** `window.__tokenMonitoringInterval`. */
    var monitorHandle: Option<nat>

    /** The id `setInterval` hands out next; ids start at 1. */
    var nextTimer: nat

    /** The latest assignment to `window.location.href`. */
    var location: Option<Redirect>

    ghost predicate Valid()
      reads this
    {
      && nextTimer >= 1
      && (forall t :: t in intervals ==> 1 <= t < nextTimer)
      && (monitorHandle.Some? ==> 1 <= monitorHandle.value < nextTimer)
      && (isAuthenticated ==> user.Some? && accessToken.Some? && idToken.Some? && tokenExpiry.Some?)
    }

    constructor(env: map<string, string>, session: map<string, string>)
      ensures Valid()
      ensures this.env == env && this.session == session
      ensures !isAuthenticated && user.None? && accessToken.None? && idToken.None? && tokenExpiry.None?
      ensures intervals == {} && monitorHandle.None? && nextTimer == 1 && location.None?
    {
      this.env := env;
      this.session := session;
      isAuthenticated := false;
      user := None;
      accessToken := None;
      idToken := None;
      tokenExpiry := None;
      intervals := {};
      monitorHandle := None;
      nextTimer := 1;
      location := None;
    }

    // ------------------------------------------------------------ getters

    /** `userRoles`: the user's roles, [] without a user. */
    function UserRoles(): (roles: seq<string>)
      reads this
      ensures user.None? ==> roles == []
      ensures user.Some? ==> roles == user.value.roles
    {
      if user.Some? then user.value.roles else []
    }

    /** `userPermissions`: the user's permissions, [] without a user. */
    function UserPermissions(): (permissions: seq<string>)
      reads this
      ensures user.None? ==> permissions == []
      ensures user.Some? ==> permissions == user.value.permissions
    {
      if user.Some? then user.value.permissions else []
    }

    /** `hasPermission(permission)`: false without a user, list membership otherwise. */
    predicate HasPermission(permission: string)
      reads this
      ensures HasPermission(permission) <==> permission in UserPermissions()
      ensures user.None? ==> !HasPermission(permission)
    {
      user.Some? && permission in user.value.permissions
    }

    /** `hasRole(role)`: false without a user, list membership otherwise. */
    predicate HasRole(role: string)
      reads this
      ensures HasRole(role) <==> role in UserRoles()
      ensures user.None? ==> !HasRole(role)
    {
      user.Some? && role in user.value.roles
    }

    /** `!!tokenExpiry.value`: set and not 0. */
    predicate HasExpiry()
      reads this
      ensures tokenExpiry.None? || tokenExpiry == Some(0) ==> !HasExpiry()
      ensures HasExpiry() ==> tokenExpiry.Some?
    {
      tokenExpiry.Some? && tokenExpiry.value != 0
    }

    /** `isTokenExpired()` at the time `now`: with no expiry recorded, expired;
        otherwise expired from five minutes before `tokenExpiry` on. */
    predicate IsTokenExpired(now: int)
      reads this
      ensures !HasExpiry() ==> IsTokenExpired(now)
      ensures HasExpiry() ==> (IsTokenExpired(now) <==> now >= tokenExpiry.value - ExpiryBufferMs)
    {
      !HasExpiry() || now >= tokenExpiry.value - ExpiryBufferMs
    }

    /** What `logout` leaves behind, from the verifier slot, the timers and
        the monitor handle it started with. */
    predicate LoggedOut(session0: map<string, string>, intervals0: set<nat>, handle0: Option<nat>)
      reads this
      ensures LoggedOut(session0, intervals0, handle0) ==> !isAuthenticated && user.None? && VerifierKey !in session
      ensures LoggedOut(session0, intervals0, handle0) && handle0.Some? ==> handle0.value !in intervals
    {
      && !isAuthenticated && user.None? && accessToken.None? && idToken.None? && tokenExpiry.None?
      && session == session0 - {VerifierKey}
      && monitorHandle.None?
      && intervals == (if handle0.Some? then intervals0 - {handle0.value} else intervals0)
      && location == Some(Redirect(Shown(AuthService.GetOAuthConfig(env).postLogoutUri), []))
    }

    // ------------------------------------------------------------ actions

    /** `initiateLogin()` given the 128 verifier bytes, the 16 state bytes and
        SHA-256: the verifier goes to `sessionStorage` and the browser is sent
        to the authorization endpoint with the S256 challenge. */
    method InitiateLogin(verifierBytes: seq<byte>, stateBytes: seq<byte>, sha256: seq<byte> -> seq<byte>)
      requires Valid() && |verifierBytes| == Pkce.VerifierLength && |stateBytes| == StateBytes
      modifies this
      ensures Valid()
      ensures var verifier := Pkce.GenerateRandomString(verifierBytes);
        var config := AuthService.GetOAuthConfig(env);
        && session == old(session)[VerifierKey := verifier]
        && location == Some(Redirect(Shown(config.authorizationEndpoint),
             [("client_id", Shown(config.clientId)), ("response_type", "code"),
              ("redirect_uri", Shown(config.redirectUri)), ("scope", Shown(config.scope)),
              ("code_challenge", Base64.UrlEncode(sha256(Utf8.Encode(verifier)))),
              ("code_challenge_method", "S256"), ("state", GenerateState(stateBytes))]))
      ensures isAuthenticated == old(isAuthenticated) && user == old(user) && accessToken == old(accessToken)
      ensures idToken == old(idToken) && tokenExpiry == old(tokenExpiry)
      ensures intervals == old(intervals) && monitorHandle == old(monitorHandle) && nextTimer == old(nextTimer)
    {
      var config := AuthService.GetOAuthConfig(env);
      var verifier, challenge := Pkce.GeneratePkceChallenge(verifierBytes, sha256);
      session := session[VerifierKey := verifier];
      var params := [("client_id", Shown(config.clientId)), ("response_type", "code"),
        ("redirect_uri", Shown(config.redirectUri)), ("scope", Shown(config.scope)),
        ("code_challenge", challenge), ("code_challenge_method", "S256"), ("state", GenerateState(stateBytes))];
      location := Some(Redirect(Shown(config.authorizationEndpoint), params));
    }

    /** `startTokenMonitoring()`: a new interval timer, remembered in the window slot. */
    method StartTokenMonitoring()
      requires Valid()
      modifies this
      ensures Valid()
      ensures intervals == old(intervals) + {old(nextTimer)} && monitorHandle == Some(old(nextTimer))
      ensures nextTimer == old(nextTimer) + 1
      ensures isAuthenticated == old(isAuthenticated) && user == old(user) && accessToken == old(accessToken)
      ensures idToken == old(idToken) && tokenExpiry == old(tokenExpiry) && session == old(session) && location == old(location)
    {
      intervals := intervals + {nextTimer};
      monitorHandle := Some(nextTimer);
      nextTimer := nextTimer + 1;
    }

    /** `handleCallback(code)` at the time `now`, given the token endpoint's
        reply and the Graph profile reply. Without a stored verifier it fails
        before any request. Otherwise the verifier is removed whatever
        happens; the tokens are stored once the exchange succeeds, and the
        session becomes authenticated only once the profile fetch succeeds
        too. `request` is the token request sent, if any. */
    method HandleCallback(code: string, exchange: TokenReply, profile: JsonReply, now: int)
      returns (r: Outcome<Thrown>, request: Option<FormPost>)
      requires Valid()
      modifies this
      ensures Valid()
      ensures StoredVerifier(old(session)) == "" ==>
        && r == Fail(PlainError("PKCE verifier not found")) && request.None?
        && session == old(session) && accessToken == old(accessToken) && idToken == old(idToken) && tokenExpiry == old(tokenExpiry)
      ensures StoredVerifier(old(session)) != "" ==>
        && request == Some(AuthService.ExchangeRequest(env, code, StoredVerifier(old(session))))
        && session == old(session) - {VerifierKey}
      ensures (StoredVerifier(old(session)) != "" && !exchange.Granted?) ==>
        && r == Fail(AuthService.ExchangeCodeForTokens(exchange).error)
        && accessToken == old(accessToken) && idToken == old(idToken) && tokenExpiry == old(tokenExpiry)
      ensures (StoredVerifier(old(session)) != "" && exchange.Granted?) ==>
        && accessToken == Some(exchange.tokens.accessToken) && idToken == Some(exchange.tokens.idToken)
        && tokenExpiry == Some(now + exchange.tokens.expiresIn * 1000)
        && (AuthService.GetUserProfile(profile).Failure? ==> r == Fail(AuthService.GetUserProfile(profile).error))
      ensures r.Pass? <==> (StoredVerifier(old(session)) != "" && exchange.Granted? && AuthService.GetUserProfile(profile).Success?)
      ensures r.Fail? ==> (isAuthenticated == old(isAuthenticated) && user == old(user)
        && intervals == old(intervals) && monitorHandle == old(monitorHandle) && nextTimer == old(nextTimer))
      ensures r.Pass? ==> (isAuthenticated && user == Some(AuthService.GetUserProfile(profile).value)
        && intervals == old(intervals) + {old(nextTimer)} && monitorHandle == Some(old(nextTimer)) && nextTimer == old(nextTimer) + 1)
      ensures location == old(location)
    {
      var verifier := StoredVerifier(session);
      if verifier == "" {
        return Fail(PlainError("PKCE verifier not found")), None;
      }
      request := Some(AuthService.ExchangeRequest(env, code, verifier));
      session := session - {VerifierKey};
      var tokens := AuthService.ExchangeCodeForTokens(exchange);
      if tokens.Failure? {
        return Fail(tokens.error), request;
      }
      StoreTokens(tokens.value, now);
      var fetched := AuthService.GetUserProfile(profile);
      if fetched.Failure? {
        return Fail(fetched.error), request;
      }
      SignIn(fetched.value);
      r := Pass;
    }

    /** The token part of a successful callback: the expiry is `now` plus `expires_in` seconds. */
    method StoreTokens(tokens: TokenResponse, now: int)
      requires Valid()
      modifies this
      ensures Valid()
      ensures accessToken == Some(tokens.accessToken) && idToken == Some(tokens.idToken)
      ensures tokenExpiry == Some(now + tokens.expiresIn * 1000)
      ensures isAuthenticated == old(isAuthenticated) && user == old(user) && session == old(session) && location == old(location)
      ensures intervals == old(intervals) && monitorHandle == old(monitorHandle) && nextTimer == old(nextTimer)
    {
      accessToken := Some(tokens.accessToken);
      idToken := Some(tokens.idToken);
      tokenExpiry := Some(now + tokens.expiresIn * 1000);
    }

    /** The end of a successful callback: the user is in and the monitor runs. */
    method SignIn(profile: UserProfile)
      requires Valid() && accessToken.Some? && idToken.Some? && tokenExpiry.Some?
      modifies this
      ensures Valid()
      ensures isAuthenticated && user == Some(profile)
      ensures intervals == old(intervals) + {old(nextTimer)} && monitorHandle == Some(old(nextTimer)) && nextTimer == old(nextTimer) + 1
      ensures accessToken == old(accessToken) && idToken == old(idToken) && tokenExpiry == old(tokenExpiry)
      ensures session == old(session) && location == old(location)
    {
      user := Some(profile);
      isAuthenticated := true;
      StartTokenMonitoring();
    }

    /** `logout()`: the placeholder revocation sends nothing and cannot fail,
        so the store always ends logged out, with the monitor stopped, the
        verifier removed and the browser sent to the post-logout URI. */
    method Logout()
      requires Valid()
      modifies this
      ensures Valid()
      ensures LoggedOut(old(session), old(intervals), old(monitorHandle))
      ensures nextTimer == old(nextTimer)
    {
      if monitorHandle.Some? {
        intervals := intervals - {monitorHandle.value};
        monitorHandle := None;
      }
      isAuthenticated := false;
      user := None;
      accessToken := None;
      idToken := None;
      tokenExpiry := None;
      session := session - {VerifierKey};
      var config := AuthService.GetOAuthConfig(env);
      location := Some(Redirect(Shown(config.postLogoutUri), []));
    }

    /** `refreshToken()` at the time `now`: fails with no expiry recorded,
        does nothing before `tokenExpiry` (no buffer) and logs out from it on. */
    method RefreshToken(now: int) returns (r: Outcome<Thrown>)
      requires Valid()
      modifies this
      ensures Valid()
      ensures !old(HasExpiry()) ==> r == Fail(PlainError("No token expiry information available"))
      ensures r.Pass? <==> old(HasExpiry())
      ensures (!old(HasExpiry()) || now < old(tokenExpiry).value) ==>
        && isAuthenticated == old(isAuthenticated) && user == old(user) && accessToken == old(accessToken)
        && idToken == old(idToken) && tokenExpiry == old(tokenExpiry) && session == old(session)
        && intervals == old(intervals) && monitorHandle == old(monitorHandle) && location == old(location)
      ensures old(HasExpiry()) && now >= old(tokenExpiry).value ==> LoggedOut(old(session), old(intervals), old(monitorHandle))
      ensures nextTimer == old(nextTimer)
    {
      if !HasExpiry() {
        return Fail(PlainError("No token expiry information available"));
      }
      if now < tokenExpiry.value {
        return Pass;
      }
      Logout();
      r := Pass;
    }

    /** One firing, at the time `now`, of the monitor timer `timer`: when the
        session is authenticated and the token counts as expired it refreshes,
        and a failed refresh stops that timer. */
    method MonitorTick(timer: nat, now: int)
      requires Valid() && timer in intervals
      modifies this
      ensures Valid()
      ensures !old(isAuthenticated) || !old(IsTokenExpired(now)) || (old(HasExpiry()) && now < old(tokenExpiry).value) ==>
        && isAuthenticated == old(isAuthenticated) && user == old(user) && accessToken == old(accessToken)
        && idToken == old(idToken) && tokenExpiry == old(tokenExpiry) && session == old(session)
        && intervals == old(intervals) && monitorHandle == old(monitorHandle) && location == old(location)
      ensures old(isAuthenticated) && old(HasExpiry()) && now >= old(tokenExpiry).value ==>
        LoggedOut(old(session), old(intervals), old(monitorHandle))
      ensures old(isAuthenticated) && !old(HasExpiry()) ==>
        && intervals == old(intervals) - {timer}
        && isAuthenticated && user == old(user) && accessToken == old(accessToken)
        && idToken == old(idToken) && tokenExpiry == old(tokenExpiry)
        && session == old(session) && monitorHandle == old(monitorHandle) && location == old(location)
      ensures nextTimer == old(nextTimer)
    {
      if isAuthenticated && IsTokenExpired(now) {
        var r := RefreshToken(now);
        if r.Fail? {
          intervals := intervals - {timer};
        }
      }
    }

    /** `updateUserProfile(updates)` given the PATCH reply and the re-fetch
        reply: fails without an access token; otherwise the user becomes the
        re-fetched profile, or the failure is rethrown and nothing changes. */
    method UpdateUserProfile(patchReply: JsonReply, refetchReply: JsonReply) returns (r: Outcome<Thrown>)
      requires Valid()
      modifies this
      ensures Valid()
      ensures !Present(old(accessToken)) ==> r == Fail(PlainError("No access token available")) && user == old(user)
      ensures Present(old(accessToken)) ==>
        var u := AuthService.UpdateProfile(patchReply, refetchReply);
        && (u.Success? ==> r == Pass && user == Some(u.value))
        && (u.Failure? ==> r == Fail(u.error) && user == old(user))
      ensures isAuthenticated == old(isAuthenticated) && accessToken == old(accessToken) && idToken == old(idToken)
      ensures tokenExpiry == old(tokenExpiry) && session == old(session) && location == old(location)
      ensures intervals == old(intervals) && monitorHandle == old(monitorHandle) && nextTimer == old(nextTimer)
    {
      if !Present(accessToken) {
        return Fail(PlainError("No access token available"));
      }
      var updated := AuthService.UpdateProfile(patchReply, refetchReply);
      if updated.Failure? {
        return Fail(updated.error);
      }
      user := Some(updated.value);
      r := Pass;
    }
  }
}
