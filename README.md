# Admin UI authentication and data core, modelled in Dafny

This project models the client-side core of a Vue admin console. The console signs users in through OAuth 2.0 / OpenID Connect with PKCE. It then guards routes by permission and talks to a REST API through an HTTP client that retries. The core has these parts:

- **Tokens** (`TokenHandler`): decoding of base64url JWT segments (`atob` plus UTF-8 decoding), the three-part structure check, claim extraction and the expiry test with its 5-minute buffer.
- **Claims** (`ClaimsMapper`): the nested-claim walk over dot-separated paths, the role and permission extraction, and the merge of ID-token and userinfo claims into a user profile.
- **Login flows** (`Pkce`, `AuthService`, `OidcService`):
  - the PKCE verifier alphabet and the S256 challenge;
  - the authorization, token, refresh, userinfo, revocation and logout requests;
  - the ID-token checks (issuer, audience, expiry);
  - reading the configuration from environment variables.
- **Session store** (`AuthStore`): a class whose fields are the store's state, `sessionStorage`, the browser location and the interval timers. Its methods are the store's actions.
- **Access control** (`Permissions`, `AuthGuard`): the any-of and all-of permission and role checks, and the route guard's decision.
- **Errors and HTTP** (`ErrorHandler`, `UseErrorHandler`, `HttpClient`):
  - global error classification and the bounded exponential backoff;
  - the user-facing error texts;
  - the request and response interceptors and the retried request.
- **UI state** (`Notifications`, `UseTheme`): the notification queue with its never-reset id counter, and the theme cycle with its persistence.
- **Users and activity** (`UserService`, `UserStore`, `ActivityService`, `ActivityStore`): the query strings of the paged list calls, and the two paginated stores.

Helper modules model the JavaScript built-ins the core relies on:

- `Text`: `split`, `join`, `includes`, `replace`, decimal and hex printing.
- `Json`: values after `JSON.parse` and JavaScript truthiness.
- `Base64`: `btoa` and `atob` (section 4 of RFC 4648), and the base64url alphabet (section 5).
- `Utf8`: `TextEncoder` and strict decoding (RFC 3629).
- `Bytes`: binary strings.
- `Lists`: `findIndex`, `splice` and `URLSearchParams.get`.
- `ApiTypes` and `AuthTypes`: the thrown values and records.

Effects become parameters or state:

- Every network call is described by the `Call` or request the model builds. Its reply is a parameter.
- The clock (`now`), the random bytes, SHA-256 and `JSON.parse` are parameters.
- Browser storage, the location and the timers are fields of the classes that own them.
- Asynchronous actions are run to completion. An action's thrown error is its `Outcome`. The reaction `handleApiError` produces is returned alongside.

## Model

| member | source | states |
|---|---|---|
| TokenHandler.ToStandardAlphabet | src/features/auth/services/tokenHandler.ts:32 | the text keeps its length and holds no '-' and no '_' afterwards |
| TokenHandler.RestorePadding | src/features/auth/services/tokenHandler.ts:35-38 | the input followed by 0 to 3 '=' up to a length divisible by 4; an input already of such a length is unchanged |
| TokenHandler.Base64UrlDecode | src/features/auth/services/tokenHandler.ts:30-54 | every failure, of `atob` or of the UTF-8 decoding, is the DECODE_ERROR with the message 'Failed to decode base64URL string' |
| TokenHandler.Base64UrlRoundTrip | src/features/auth/services/tokenHandler.ts:30-50 | decoding the unpadded base64url encoding of a string's UTF-8 octets gives exactly that string |
| TokenHandler.RestoredPadding | src/features/auth/services/tokenHandler.ts:35-38 | the padding restored on an unpadded encoding is exactly the padding `btoa` would have written |
| TokenHandler.PadGroup | src/features/auth/services/tokenHandler.ts:35-38 | an encoding of 3q+1 bytes gets '==', of 3q+2 bytes '=', of 3q bytes nothing |
| TokenHandler.CompactSplit | src/features/auth/services/tokenHandler.ts:67 | splitting `h.p.s` on '.' gives back the three segments when none is empty or holds a '.' |
| TokenHandler.StructureIsCompact | src/features/auth/services/tokenHandler.ts:62-69 | the structure check holds exactly when the token is three non-empty dot-free segments joined by '.' |
| TokenHandler.ValidateTokenStructure | src/features/auth/services/tokenHandler.ts:62-69 | a token that passes has at least five characters: three non-empty parts and two dots |
| TokenHandler.DecodeJwt | src/features/auth/services/tokenHandler.ts:79-96 | INVALID_FORMAT exactly when the structure check fails; DECODE_ERROR exactly when the structure is right and the middle segment does not decode; no other error than the three |
| TokenHandler.ExtractClaims | src/features/auth/services/tokenHandler.ts:105-107 | the same result as `decodeJWT` on every token |
| TokenHandler.DecodePayload | src/features/auth/services/tokenHandler.ts:87-95 | DECODE_ERROR exactly when the segment does not decode; otherwise PARSE_ERROR or the parsed value |
| TokenHandler.DecodeCompact | src/features/auth/services/tokenHandler.ts:79-85 | a token of three segments passes the structure check and decodes as its middle segment does |
| TokenHandler.OnlyPayloadMatters | src/features/auth/services/tokenHandler.ts:84-89 | two tokens with the same payload segment decode alike whatever their header and signature |
| TokenHandler.DecodeEncodedPayload | src/features/auth/services/tokenHandler.ts:79-96 | a token whose payload segment encodes a text decodes to what parsing that text gives, or PARSE_ERROR when it does not parse |
| TokenHandler.PayloadExpired | src/features/auth/services/tokenHandler.ts:121-131 | a missing or falsy `exp` (0 included) is expired; a non-zero numeric `exp` is expired exactly when now >= exp*1000 - buffer*60000; a truthy `exp` that converts to NaN is never expired |
| TokenHandler.NumericTextExp | src/features/auth/services/tokenHandler.ts:127-131 | an `exp` written as numeric text is expired exactly when the number it spells is |
| TokenHandler.SingletonArrayExp | src/features/auth/services/tokenHandler.ts:127-131 | an `exp` of `[e]` is judged as the number e |
| TokenHandler.IsTokenExpired | src/features/auth/services/tokenHandler.ts:117-135 | a token that does not decode is expired; otherwise its payload is judged by the expiry rule, `exp` converted as `*` converts it; a decoded payload is judged directly |
| TokenHandler.ExpiredStaysExpired | src/features/auth/services/tokenHandler.ts:117-135 | an expired token is still expired at every later time |
| TokenHandler.LargerBufferStaysExpired | src/features/auth/services/tokenHandler.ts:128-131 | an expired token stays expired under a larger buffer |
| Pkce.CharsetChar | src/features/auth/services/authService.ts:138 | every charset position holds an unreserved character |
| Pkce.CharsetAt | src/features/auth/services/authService.ts:138 | the charset has 66 characters and position v holds the computed character |
| Pkce.CharsetLayout | src/features/auth/services/authService.ts:138 | the charset is, position by position, the four runs A-Z, a-z, 0-9 and "-._~" |
| Pkce.CharsetIsUnreserved | src/features/auth/services/authService.ts:138 | the charset is exactly the unreserved characters of RFC 3986, each once |
| Pkce.GenerateRandomString | src/features/auth/services/authService.ts:137-145 | one character per random byte, character i being `charset[b mod 66]` and unreserved |
| Pkce.EveryCharsetCharReachable | src/features/auth/services/authService.ts:142-144 | a byte v below 66 produces the v-th charset character |
| Pkce.ReplaceAllAppend | src/features/auth/services/authService.ts:160-163 | a global one-character replace distributes over concatenation |
| Pkce.RemoveAllOnly | src/features/auth/services/authService.ts:163 | removing '=' from a run of '=' leaves nothing |
| Pkce.UrlFromPadded | src/features/auth/services/authService.ts:160-163 | mapping '+' and '/' and removing '=' from `btoa`'s output is the unpadded base64url encoding |
| Pkce.Base64UrlEncode | src/features/auth/services/authService.ts:153-164 | the loop and replacements produce the unpadded base64url encoding: no '+', '/' or '=', and ceil(4n/3) characters for n bytes |
| Pkce.DigestChallengeLength | src/features/auth/services/authService.ts:15-16 | a 32-byte SHA-256 digest gives a 43-character challenge |
| Pkce.GeneratePkceChallenge | src/features/auth/services/authService.ts:10-19 | a 128-character unreserved verifier and, as challenge, the base64url encoding of the digest of its UTF-8 octets |
| AuthService.EnvGet | src/features/auth/services/authService.ts:124-133 | a variable is found exactly when it is set, with its value |
| AuthService.GetOAuthConfig | src/features/auth/services/authService.ts:124-133 | each field is its `VITE_OAUTH_*` variable, unset ones undefined |
| AuthService.ErrorDetail | src/features/auth/services/authService.ts:47-48 | an unreadable body gives the fallback code; a JSON `null` body throws the TypeError of reading `error`; a body with a falsy `error` gives the status text; a non-empty string `error` is used as is |
| AuthService.RefusalError | src/features/auth/services/authService.ts:47-48 | the thrown value is `new Error(prefix + detail)`, or the TypeError when the detail could not be read |
| AuthService.ExchangeCodeForTokens | src/features/auth/services/authService.ts:24-52 | success exactly for an ok reply, with its tokens; a refused reply fails with 'Token exchange failed: ' and the detail, or with the TypeError when its body is `null`; a failed fetch or an unreadable body is rethrown |
| AuthService.ExchangeRequest | src/features/auth/services/authService.ts:28-44 | a POST to `VITE_OAUTH_TOKEN_ENDPOINT` carrying grant_type 'authorization_code', the `VITE_OAUTH_CLIENT_ID`, the code, the `VITE_OAUTH_REDIRECT_URI` and the verifier, in that order, unset variables sent as 'undefined' |
| AuthService.GraphText | src/features/auth/services/authService.ts:74-76 | a string property is taken as it is, anything else gives '' |
| AuthService.GraphList | src/features/auth/services/authService.ts:77-78 | a falsy list property gives []; an array gives exactly the strings it holds |
| AuthService.GraphProfile | src/features/auth/services/authService.ts:70-79 | a `null` document throws the TypeError of reading `id`; otherwise id and name from `id` and `displayName`, email from a non-empty `mail`, else `userPrincipalName`, roles and permissions by the list rule |
| AuthService.GraphRoles | src/features/auth/services/authService.ts:77 | a role is granted exactly when the `roles` array holds it as a string, and none is granted without `roles` |
| AuthService.GetUserProfile | src/features/auth/services/authService.ts:57-80 | a non-ok reply fails with 'Failed to fetch user profile'; an ok reply with a `null` body fails with the TypeError of `data.id`; success exactly for an ok reply with a readable non-null body, giving the Graph profile |
| AuthService.UpdateProfile | src/features/auth/services/authService.ts:95-119 | an ok PATCH is followed by the profile fetch's result; a refused one fails with 'Profile update failed: ' and the detail, or with the TypeError when its body is `null`; a failed fetch is rethrown |
| AuthService.RevokeTokens | src/features/auth/services/authService.ts:85-90 | no request is sent |
| OidcService.GetOidcConfig | src/features/auth/services/oidcService.ts:14-59 | each OIDC field prefers its `VITE_OIDC_*` variable over the OAuth one when set and non-empty; scope falls back to 'openid profile email', the claim names to 'roles' and 'permissions'; the warning is logged exactly for an OAuth client id without an OIDC one |
| OidcService.FallsBackToOAuth | src/features/auth/services/oidcService.ts:14-59 | with no `VITE_OIDC_*` variable the endpoints, client id and redirect URIs are the OAuth configuration's, and OIDC-only endpoints are unset |
| OidcService.ExchangeCodeForTokens | src/features/auth/services/oidcService.ts:80-108 | the same outcome as the plain OAuth exchange on every reply |
| OidcService.ExchangeRequest | src/features/auth/services/oidcService.ts:84-100 | a POST to the resolved token endpoint with grant_type, client_id, code, redirect_uri and code_verifier in that order |
| OidcService.ExchangeRequestFallsBack | src/features/auth/services/oidcService.ts:84-100 | without `VITE_OIDC_*` variables the request is the plain OAuth one |
| OidcService.DecodeIdToken | src/features/auth/services/oidcService.ts:114-120 | succeeds exactly when `decodeJWT` does, with its payload; otherwise 'Failed to decode ID token: ' and the decoding error's message |
| OidcService.JoinWith | src/features/auth/services/oidcService.ts:138 | a single part is itself and no part is '' |
| OidcService.Audiences | src/features/auth/services/oidcService.ts:135 | at least one audience unless `aud` is the empty array |
| OidcService.ValidateIdToken | src/features/auth/services/oidcService.ts:126-153 | passes exactly when issuer, audience, expiry and `iat` are all accepted (`exp` and `iat` converted to numbers), and otherwise reports the first failing check with its message |
| OidcService.AudienceAccepts | src/features/auth/services/oidcService.ts:135-136 | a configured client id is accepted exactly when `aud` is that string or an array holding it |
| OidcService.IssuerOk | src/features/auth/services/oidcService.ts:128-132 | passes without a configured issuer, and otherwise only for an `iss` equal to it |
| OidcService.AudienceOk | src/features/auth/services/oidcService.ts:135-140 | an `aud` equal to the client id passes |
| OidcService.IatOk | src/features/auth/services/oidcService.ts:147-152 | a falsy `iat` passes; a non-zero numeric one passes exactly when at most the current second plus 300 |
| OidcService.MissingAudienceMatchesMissingClientId | src/features/auth/services/oidcService.ts:135-136 | a token without `aud` passes the audience check when no client id is configured |
| OidcService.ValidMeansUnexpired | src/features/auth/services/oidcService.ts:142-145 | a token that passes has a truthy `exp`, and a numeric one more than five minutes ahead |
| OidcService.NumericTextExpChecked | src/features/auth/services/oidcService.ts:142-145 | a token whose `exp` is numeric text passes only while now is more than five minutes before the time it spells |
| OidcService.NumericTextIatChecked | src/features/auth/services/oidcService.ts:147-152 | an `iat` written as numeric text passes exactly when the number is at most the current second plus the tolerance |
| OidcService.GetUserProfile | src/features/auth/services/oidcService.ts:164-220 | the ID-token-only profile without a UserInfo endpoint or after a failed, non-ok or unreadable reply; otherwise UserInfo merged over the ID token claims |
| OidcService.RefreshAccessTokenAsWritten | src/features/auth/services/oidcService.ts:239-258 | the tokens of an ok reply; 'Session expired, please log in again' for a refused reply or a failed fetch; an unreadable ok body escapes as its own error |
| OidcService.RefreshParseErrorEscapes | src/features/auth/services/oidcService.ts:253 | an ok reply whose body is not JSON does not fail with 'Session expired' |
| OidcService.RefreshAccessToken | src/features/auth/services/oidcService.ts:230-259 | success exactly for an ok reply, with its tokens; every failure is 'Session expired, please log in again' |
| OidcService.RefreshRequest | src/features/auth/services/oidcService.ts:233-246 | a POST to the resolved token endpoint with grant_type 'refresh_token', the refresh token and the client id |
| OidcService.RevokeTokens | src/features/auth/services/oidcService.ts:268-329 | no request without a revocation endpoint; otherwise the access-token revocation, then the refresh-token one exactly when a refresh token is given |
| OidcService.RevocationsNameClient | src/features/auth/services/oidcService.ts:282-311 | every revocation request goes to the revocation endpoint and names the client |
| OidcService.EndSession | src/features/auth/services/oidcService.ts:337-356 | a redirect exactly when an end-session endpoint is configured, there with id_token_hint and post_logout_redirect_uri |
| ClaimsMapper.NestedClaim | src/features/auth/services/claimsMapper.ts:36-52 | an empty path or falsy claims give undefined |
| ClaimsMapper.GetNestedClaim | src/features/auth/services/claimsMapper.ts:36-52 | the loop over the path segments returns the value the segment-by-segment walk defines |
| ClaimsMapper.WalkAppend | src/features/auth/services/claimsMapper.ts:44-49 | walking a + b is walking b from where a ends |
| ClaimsMapper.SingleSegment | src/features/auth/services/claimsMapper.ts:41-51 | a path without dots is a plain property lookup |
| ClaimsMapper.NestedClaimCompose | src/features/auth/services/claimsMapper.ts:41-51 | looking up `p.q` is looking up `q` in what `p` gives |
| ClaimsMapper.StringsOf | src/features/auth/services/claimsMapper.ts:68 | the filter never lengthens the list |
| ClaimsMapper.StringsOfMembers | src/features/auth/services/claimsMapper.ts:68 | the filter keeps exactly the string elements of the array |
| ClaimsMapper.StringsOfAppend | src/features/auth/services/claimsMapper.ts:68 | the filter keeps order: it distributes over concatenation |
| ClaimsMapper.StringsOfStrings | src/features/auth/services/claimsMapper.ts:68 | an array of strings only is kept whole |
| ClaimsMapper.ExtractRoles | src/features/auth/services/claimsMapper.ts:63-78 | the string elements of an array claim, a string claim as a one-element list, [] for anything else |
| ClaimsMapper.ExtractPermissions | src/features/auth/services/claimsMapper.ts:89-107 | the same rule as `extractRoles` under the permissions path |
| ClaimsMapper.FirstText | src/features/auth/services/claimsMapper.ts:138-149 | '' exactly when no candidate is a non-empty string, otherwise the first such candidate |
| ClaimsMapper.Combined | src/features/auth/services/claimsMapper.ts:132-135 | the keys of both, UserInfo values overriding the ID token's |
| ClaimsMapper.ExtractUserProfile | src/features/auth/services/claimsMapper.ts:125-164 | id from the combined then the ID-token `sub`; email and name by their fallback chains; roles and permissions from the combined claims |
| ClaimsMapper.SameRoot | src/features/auth/services/claimsMapper.ts:41-51 | the claim at a path depends only on the value under its first segment |
| ClaimsMapper.UserInfoOverridesRoles | src/features/auth/services/claimsMapper.ts:132-152 | UserInfo holding the roles path's first segment replaces the ID token's roles wholly; otherwise the ID token's roles are used |
| ClaimsMapper.EmailFallback | src/features/auth/services/claimsMapper.ts:141 | UserInfo's email, else the ID token's, else ''; an empty string counts as absent |
| ClaimsMapper.NameFallback | src/features/auth/services/claimsMapper.ts:144-149 | each of the four name candidates wins when those before it are absent or empty |
| ClaimsMapper.FirstAt | src/features/auth/services/claimsMapper.ts:138-149 | the first non-empty candidate is the one chosen |
| AuthStore.GenerateState | src/features/auth/stores/authStore.ts:249-253 | two lowercase hex characters per random byte, characters 2k and 2k+1 being byte k zero-padded |
| AuthStore.StateRoundTrip | src/features/auth/stores/authStore.ts:252 | reading each hex pair back gives its byte, so the state determines the bytes |
| AuthStore.StateLength | src/features/auth/stores/authStore.ts:250-252 | sixteen bytes give 32 characters |
| AuthStore.StoredVerifier | src/features/auth/stores/authStore.ts:82 | the stored verifier when present, '' (falsy) when missing |
| AuthStore.Store.constructor | src/features/auth/stores/authStore.ts:19-23 | not authenticated, no user, no tokens, no expiry, no timers |
| AuthStore.Store.UserRoles | src/features/auth/stores/authStore.ts:26 | the user's roles, [] without a user |
| AuthStore.Store.UserPermissions | src/features/auth/stores/authStore.ts:27 | the user's permissions, [] without a user |
| AuthStore.Store.HasPermission | src/features/auth/stores/authStore.ts:32-37 | holds exactly when the permission is among `userPermissions`, never without a user |
| AuthStore.Store.HasRole | src/features/auth/stores/authStore.ts:42-47 | holds exactly when the role is among `userRoles`, never without a user |
| AuthStore.Store.IsTokenExpired | src/features/auth/stores/authStore.ts:175-181 | expired without a (non-zero) expiry; otherwise exactly when now >= tokenExpiry - 300000 |
| AuthStore.Store.HasExpiry | src/features/auth/stores/authStore.ts:176 | an unset or zero expiry is no expiry |
| AuthStore.Store.InitiateLogin | src/features/auth/stores/authStore.ts:54-76 | the verifier is stored under 'pkce_verifier' and the browser is sent to the authorization endpoint with the seven parameters, the S256 challenge of that verifier and the state; the sign-in state (isAuthenticated, user, tokens) is untouched |
| AuthStore.Store.StartTokenMonitoring | src/features/auth/stores/authStore.ts:186-205 | one new interval timer, remembered in the window slot; nothing else changes |
| AuthStore.Store.HandleCallback | src/features/auth/stores/authStore.ts:81-112 | no verifier: 'PKCE verifier not found' with no request and no change; otherwise the verifier is removed whatever happens, the tokens and expiry are stored once the exchange succeeds, and the session is authenticated, with the monitor started, exactly when the profile fetch succeeds too; failures are rethrown |
| AuthStore.Store.StoreTokens | src/features/auth/stores/authStore.ts:93-95 | the access and ID tokens are stored and the expiry is now + expires_in * 1000 |
| AuthStore.Store.SignIn | src/features/auth/stores/authStore.ts:99-103 | the user is set, the session authenticated and one monitor timer started |
| AuthStore.Store.Logout | src/features/auth/stores/authStore.ts:117-145 | always ends logged out: flags, user, tokens and expiry cleared, the remembered timer stopped, the verifier removed and the browser sent to the post-logout URI |
| AuthStore.Store.LoggedOut | src/features/auth/stores/authStore.ts:124-143 | after logout nobody is signed in, the verifier is gone and the remembered monitor interval is cleared |
| AuthStore.Store.RefreshToken | src/features/auth/stores/authStore.ts:150-170 | fails with 'No token expiry information available' without an expiry; before the expiry nothing changes; from it on the store logs out |
| AuthStore.Store.MonitorTick | src/features/auth/stores/authStore.ts:190-199 | a tick changes nothing unless the session is authenticated and expired; inside the five-minute window before the expiry the session stays intact; past it the store logs out; a failed refresh stops that timer only |
| AuthStore.Store.UpdateUserProfile | src/features/auth/stores/authStore.ts:210-221 | fails with 'No access token available' without a token; otherwise the user becomes the updated profile or the failure is rethrown with the user unchanged |
| Permissions.AnyIn | src/shared/composables/usePermissions.ts:28 | any-of over a list: true exactly when some wanted entry is held |
| Permissions.AllIn | src/shared/composables/usePermissions.ts:37 | all-of over a list: true exactly when every wanted entry is held |
| Permissions.EmptyQueries | src/shared/composables/usePermissions.ts:27-38 | any-of an empty list is false, all-of an empty list is true |
| Permissions.AllImpliesAny | src/shared/composables/usePermissions.ts:27-38 | on a non-empty list, all-of implies any-of |
| Permissions.SingletonQueries | src/shared/composables/usePermissions.ts:27-38 | on one element, any-of and all-of are the single check |
| Permissions.HasPermission | src/shared/composables/usePermissions.ts:18-20 | the store's `hasPermission` |
| Permissions.HasAnyPermission | src/shared/composables/usePermissions.ts:27-29 | true exactly when the store grants some listed permission |
| Permissions.HasAllPermissions | src/shared/composables/usePermissions.ts:36-38 | true exactly when the store grants every listed permission |
| Permissions.HasRole | src/shared/composables/usePermissions.ts:45-47 | the store's `hasRole` |
| Permissions.HasAnyRole | src/shared/composables/usePermissions.ts:54-56 | true exactly when the store grants some listed role |
| Permissions.HasAllRoles | src/shared/composables/usePermissions.ts:63-65 | true exactly when the store grants every listed role |
| Permissions.NoUserHoldsNothing | src/shared/composables/usePermissions.ts:18-65 | with nobody logged in every check is false except all-of an empty list |
| AuthGuard.Decide | src/shared/guards/authGuard.ts:10-62 | only `requiresAuth: false` makes a route public; unauthenticated visitors go to 'login', saving the full path unless the target is '/login', or to 'error' when saving throws; a missing required permission goes to 'dashboard' with 'insufficient_permissions'; navigation proceeds exactly when public or authenticated with the permission held |
| AuthGuard.RequiresAuth | src/shared/guards/authGuard.ts:19 | a route without the flag and one with `true` require authentication; `false` makes it public |
| AuthGuard.Guard | src/shared/guards/authGuard.ts:15-53 | the single `next` argument is the decision's, the session storage gains exactly the saved path, and nothing else in the session store changes |
| AuthGuard.DashboardMeansMissingPermission | src/shared/guards/authGuard.ts:42 | for an authenticated visitor with a required permission, the guard redirects exactly when the store's `hasPermission` says no |
| Notifications.IdInjective | src/shared/composables/useNotification.ts:23 | different counter values give different `notification-${n}` ids |
| Notifications.IdsNeverRepeat | src/shared/composables/useNotification.ts:14-23 | an id issued later differs from every earlier one |
| Notifications.Without | src/shared/composables/useNotification.ts:43-48 | unchanged when no notification has the id, otherwise the first one with the id removed and the rest kept in order |
| Notifications.DismissRemovesOne | src/shared/composables/useNotification.ts:43-48 | with distinct ids, dismissing a queued id removes exactly that notification and leaves no notification with the id |
| Notifications.Center.constructor | src/shared/composables/useNotification.ts:13-14 | an empty queue, counter 0, no pending timers |
| Notifications.Center.NextIdFresh | src/shared/composables/useNotification.ts:23 | the next id is held by no queued notification and no timer |
| Notifications.Center.Show | src/shared/composables/useNotification.ts:17-41 | counter + 1, one notification appended under the new id, a timer exactly when the duration is positive, the new id fresh; queued ids stay distinct |
| Notifications.Center.ShowDefault | src/shared/composables/useNotification.ts:19-21 | the defaults: 'info', 5000 ms, dismissible |
| Notifications.Center.ShowKind | src/shared/composables/useNotification.ts:50-64 | `show` with that type, the duration or 5000, dismissible |
| Notifications.Center.Dismiss | src/shared/composables/useNotification.ts:43-48 | the queue minus the first notification with the id; counter and timers unchanged |
| Notifications.Center.Fire | src/shared/composables/useNotification.ts:35-37 | the timer is gone and its id dismissed |
| Notifications.Center.Clear | src/shared/composables/useNotification.ts:66-68 | the queue is empty; the counter is not reset and pending timers stay |
| UseErrorHandler.ActionMessage | src/shared/composables/useErrorHandler.ts:68 | the action text, which begins 'F' and so differs from every fixed text |
| UseErrorHandler.GetUserFriendlyMessage | src/shared/composables/useErrorHandler.ts:42-73 | each fixed text exactly when its keyword group is the first to match (network, auth, permission, validation); with none, the action text when an action is given and the generic text exactly when none is |
| UseErrorHandler.Normalise | src/shared/composables/useErrorHandler.ts:24 | always an Error: the thrown Error itself, or a plain Error of the rendering |
| UseErrorHandler.FailedFetchIsNetwork | src/shared/composables/useErrorHandler.ts:47-48 | a browser's 'Failed to fetch' TypeError reads as a network error whatever the action |
| UseErrorHandler.NonErrorJudgedByRendering | src/shared/composables/useErrorHandler.ts:24-35 | a thrown non-Error is judged by its string form |
| UseErrorHandler.HandleError | src/shared/composables/useErrorHandler.ts:20-37 | exactly one error notification with the friendly text, the default duration and its timer |
| UseErrorHandler.WithErrorHandling | src/shared/composables/useErrorHandler.ts:78-88 | the value and no notification or timer on success; null, exactly one error notification and its 5000 ms timer on failure |
| UserStore.CeilDiv | src/features/users/stores/userStore.ts:24 | `Math.ceil(total / pageSize)`: none for page size 0, otherwise the integer k with (k-1)*b < a <= k*b (mirrored for a negative size) |
| UserStore.PagesCoverAll | src/features/users/stores/userStore.ts:24 | the page count is the least number of pages holding every entry |
| UserStore.FailureText | src/features/users/stores/userStore.ts:45 | an Error's message, the fallback text for anything else |
| UserStore.Replaced | src/features/users/stores/userStore.ts:86-89 | same length; unchanged when no user has the id; otherwise the first user with the id replaced |
| UserStore.ReplacesFirstOnly | src/features/users/stores/userStore.ts:86-89 | every other position, later users with the same id included, keeps its entry |
| UserStore.Store.constructor | src/features/users/stores/userStore.ts:14-20 | no users, total 0, page 1, size 10, no query, not loading, no error |
| UserStore.Store.FetchUsers | src/features/users/stores/userStore.ts:29-51 | the request for that page at the current size; a success copies data, total and page; a failure keeps them, records the message or 'Failed to fetch users', hands the error to `handleApiError` and rethrows; loading ends false |
| UserStore.Store.SearchUsers | src/features/users/stores/userStore.ts:53-76 | the query is recorded whatever happens; a success shows page 1 of the results; a failure records 'Failed to search users' or the message and rethrows |
| UserStore.Store.UpdateUserRoles | src/features/users/stores/userStore.ts:78-100 | a success replaces the first user with the id and shows one success notification with its 5000 ms timer; a failure changes no user, notification or timer and returns the `handleApiError` reaction; total and page never change |
| UserStore.Store.SetPageSize | src/features/users/stores/userStore.ts:102-105 | the size is taken and the page resets to 1; nothing else changes |
| UserStore.Store.TotalPages | src/features/users/stores/userStore.ts:24 | none for a page size of 0; otherwise the least page count holding every entry |
| UserStore.Store.ClearSearch | src/features/users/stores/userStore.ts:107-110 | the query is emptied and page 1 requested; a success takes the page, the total and the page number; a failure keeps users, total and page, records the message and returns the reaction, but is not rethrown |
| ActivityStore.LogRequest | src/features/activity/stores/activityStore.ts:33-39 | the page, the current size and filters, sorted by timestamp descending |
| ActivityStore.FetchSortsNewestFirst | src/features/activity/stores/activityStore.ts:36-37 | the query sent carries sortBy=timestamp and sortOrder=desc whatever the filters |
| ActivityStore.Store.constructor | src/features/activity/stores/activityStore.ts:13-19 | no logs, total 0, page 1, size 10, no filters, not loading, no error |
| ActivityStore.Store.FetchLogs | src/features/activity/stores/activityStore.ts:28-53 | the GET of '/activity/logs' with that query; a success copies data, total and page; a failure keeps them, records the message or 'Failed to fetch activity logs', hands the error to `handleApiError` and rethrows |
| ActivityStore.Store.ApplyFilters | src/features/activity/stores/activityStore.ts:55-58 | the filters are replaced and page 1 fetched with them; a success takes the logs, total and page and clears the error; a failure keeps them, records the message, returns the reaction and is rethrown |
| ActivityStore.Store.ClearFilters | src/features/activity/stores/activityStore.ts:60-63 | the filters are emptied and the query sent holds only the paging and sort entries; a success takes the logs, total and page; a failure keeps them and returns the reaction, and is not rethrown |
| ActivityStore.Store.SetPageSize | src/features/activity/stores/activityStore.ts:65-68 | the size is taken and the page resets to 1; nothing else changes |
| ActivityStore.Store.TotalPages | src/features/activity/stores/activityStore.ts:23 | none for a page size of 0; otherwise the least page count holding every entry |
| ErrorHandler.IsRetryableError | src/shared/utils/errorHandler.ts:87-99 | an Error mentioning 'Network error' is retryable; anything else exactly when it carries a status from 500 to 599 |
| ErrorHandler.AsError | src/shared/utils/errorHandler.ts:63 | always an Error: the thrown Error, or 'Unknown error' |
| ErrorHandler.HandleApiError | src/shared/utils/errorHandler.ts:16-47 | logs out exactly for an AuthenticationError; the session-expired, forbidden, offline, own-message and unexpected texts in that order of tests |
| ErrorHandler.Pow2 | src/shared/utils/errorHandler.ts:76 | `Math.pow(2, k)` is at least 1 |
| ErrorHandler.RunRetryWithBackoff | src/shared/utils/errorHandler.ts:52-82 | the loop's result, call count and sleeps are those of the recursive definition of the backoff |
| ErrorHandler.RetryWithBackoff | src/shared/utils/errorHandler.ts:52-82 | no call and 'Max retry attempts reached' when maxAttempts <= 0; a first success is returned after one call |
| ErrorHandler.AttemptsShape | src/shared/utils/errorHandler.ts:59-78 | from any attempt: no call when none is left, otherwise between one and the remaining number of calls, one sleep fewer than calls, each doubling the last |
| ErrorHandler.RetryBounds | src/shared/utils/errorHandler.ts:52-82 | `fn` is called at most maxAttempts times, never for maxAttempts <= 0 (which fails with 'Max retry attempts reached'), and the k-th sleep is delayMs * 2^k |
| ErrorHandler.AttemptsOutcome | src/shared/utils/errorHandler.ts:59-81 | the result is that of the last call: success as is, an access error rethrown as is, any other failure only at the last attempt and as an Error; every earlier call failed with a non-access error |
| ErrorHandler.FirstSuccessReturned | src/shared/utils/errorHandler.ts:61 | the first success is returned and no call follows it |
| ErrorHandler.AccessErrorStops | src/shared/utils/errorHandler.ts:66-68 | an access error on the first call is rethrown after that one call, without sleeping |
| HttpClient.ApiBaseUrl | src/shared/utils/httpClient.ts:10 | the configured base URL when set and non-empty, '/api' otherwise |
| HttpClient.Headers.constructor | src/shared/utils/httpClient.ts:81 | the headers given in the request configuration |
| HttpClient.Headers.Set | src/shared/utils/httpClient.ts:85 | that one header set, the others kept |
| HttpClient.InterceptedHeaders | src/shared/utils/httpClient.ts:80-100 | a JSON Content-Type only when none is given, a bearer token exactly when auth is not skipped and a token is held, every given header kept and no other header added |
| HttpClient.RequestInterceptor | src/shared/utils/httpClient.ts:80-100 | the headers object ends as the intercepted headers |
| HttpClient.TextOr | src/shared/utils/httpClient.ts:147-148 | the fallback exactly for a falsy value; a non-empty string as is |
| HttpClient.ParseErrorResponse | src/shared/utils/httpClient.ts:136-151 | a JSON `null` body throws the TypeError of reading `message`; otherwise the status, the body's message and code with their defaults, or the status text (else 'An error occurred') and 'UNKNOWN_ERROR' when the body is not JSON, and the body's details |
| HttpClient.StatusError | src/shared/utils/httpClient.ts:156-172 | an Error of the given name carrying the parsed message and status |
| HttpClient.ErrorMessageTruthy | src/shared/utils/httpClient.ts:145-148 | the parsed message is never empty unless the body's message is an array that prints as '', so the 401 and 403 fallbacks are not reached |
| HttpClient.ResponseInterceptor | src/shared/utils/httpClient.ts:105-131 | an ok response yields its JSON body only when the Content-Type mentions JSON, {} otherwise; a failed one always throws: the parse TypeError for a `null` body, else AuthenticationError or AuthorizationError with the parsed message for 401 and 403, a ValidationError for 400 and 422, an ApiError carrying the status for the rest |
| HttpClient.NullBodyNotRetried | src/shared/utils/httpClient.ts:45-66 | an error response with a `null` body ends the request after one fetch with the TypeError |
| HttpClient.Caught | src/shared/utils/httpClient.ts:48-49 | a failed fetch becomes the 'Network error: Unable to connect to server' error; anything else is kept |
| HttpClient.Request | src/shared/utils/httpClient.ts:33-37 | the URL is the base URL and the endpoint; every fetch carries the intercepted headers; retries default to 3 and the count to 0 |
| HttpClient.RequestCarriesToken | src/shared/utils/httpClient.ts:88-93 | the session token is sent as a bearer header exactly when `skipAuth` is not set |
| HttpClient.Send | src/shared/utils/httpClient.ts:41-67 | at least one fetch; a success after the first returns it; with no retries left the first failure, network-mapped, is thrown |
| HttpClient.SendShape | src/shared/utils/httpClient.ts:41-67 | at least one and at most maxRetries - retryCount + 1 fetches, one sleep fewer, the retry at count r sleeping 1000 * 2^r ms |
| HttpClient.DefaultRetryBound | src/shared/utils/httpClient.ts:23-36 | with the defaults, at most four fetches |
| HttpClient.StopsUnlessRetryable | src/shared/utils/httpClient.ts:61-66 | a failure that is not retryable is thrown after its one fetch |
| HttpClient.AccessDeniedNotRetried | src/shared/utils/httpClient.ts:121-124 | a 401 or 403 is thrown after one fetch unless its parsed message mentions 'Network error' |
| HttpClient.ClientErrorRetriedOnlyOnNetworkText | src/shared/utils/httpClient.ts:61 | another 4xx response is retried exactly when its body is not `null` and its message mentions 'Network error' |
| HttpClient.ServerErrorRetried | src/shared/utils/httpClient.ts:61-63 | a 5xx response is retried while retries remain exactly when its body is not `null` |
| HttpClient.NetworkFailureRetried | src/shared/utils/httpClient.ts:48-57 | a failed fetch is retried while retries remain, and otherwise throws the network error |
| HttpClient.WithMethod | src/shared/utils/httpClient.ts:177-179 | the method set, every other field of the configuration kept |
| HttpClient.WithBody | src/shared/utils/httpClient.ts:181-203 | the method set and the body JSON.stringify(data) exactly when data is truthy, no body otherwise |
| HttpClient.Get | src/shared/utils/httpClient.ts:177-179 | method GET, body and headers unchanged |
| HttpClient.Post | src/shared/utils/httpClient.ts:181-187 | method POST, the stringified data as body when truthy |
| HttpClient.Put | src/shared/utils/httpClient.ts:189-195 | method PUT, the stringified data as body when truthy |
| HttpClient.Patch | src/shared/utils/httpClient.ts:197-203 | method PATCH, the stringified data as body when truthy |
| HttpClient.Delete | src/shared/utils/httpClient.ts:205-207 | method DELETE, body and headers unchanged |
| UseTheme.Parse | src/shared/composables/useTheme.ts:27 | a theme exactly for 'light', 'dark' and 'corporate', named by the text |
| UseTheme.ParseName | src/shared/composables/useTheme.ts:15-27 | every stored theme name reads back as that theme |
| UseTheme.IndexOf | src/shared/composables/useTheme.ts:19-20 | the position of the theme in the toggling list |
| UseTheme.ToggleCycle | src/shared/composables/useTheme.ts:18-23 | light, dark, corporate, light: a toggle always changes the theme and three toggles return to the start |
| UseTheme.Next | src/shared/composables/useTheme.ts:18-23 | the next theme is one of the three and differs from the current one |
| UseTheme.Loaded | src/shared/composables/useTheme.ts:25-32 | the saved theme when it names one of the three, 'light' otherwise |
| UseTheme.LoadIdempotent | src/shared/composables/useTheme.ts:25-32 | a second load applies the same theme and leaves the storage as the first left it |
| UseTheme.ThemeState.constructor | src/shared/composables/useTheme.ts:6-9 | the current theme starts as 'light' |
| UseTheme.ThemeState.SetTheme | src/shared/composables/useTheme.ts:12-16 | the current theme, the data-theme attribute and the stored value all become it |
| UseTheme.ThemeState.ToggleTheme | src/shared/composables/useTheme.ts:18-23 | the next theme of the cycle, set as `setTheme` sets it |
| UseTheme.ThemeState.LoadTheme | src/shared/composables/useTheme.ts:25-32 | the loaded theme applied and stored |
| UserService.IfPresent | src/features/users/services/userService.ts:16-17 | the one pair exactly when the value is truthy, nothing otherwise |
| UserService.PageQuery | src/features/users/services/userService.ts:13-18 | page and pageSize first as decimal text, then one pair per truthy sort field, and no other name |
| UserService.PageQueryLookups | src/features/users/services/userService.ts:13-18 | read back by name, the query gives the page, the page size and each sort field exactly when it is truthy |
| UserService.GetUsers | src/features/users/services/userService.ts:12-21 | a GET of '/users' with the paging query and no body |
| UserService.SearchUsers | src/features/users/services/userService.ts:26-39 | a GET of '/users/search' with 'q' first, the search text read back under 'q' and every other name read back as in the paging query |
| UserService.UpdateUserRoles | src/features/users/services/userService.ts:44-46 | a PUT to '/users/{id}/roles' whose body's 'roles' member is the roles list |
| ActivityService.GetLogs | src/features/activity/services/activityService.ts:13-39 | a GET of '/activity/logs' whose query is the paging query followed by one pair per truthy filter in the fixed order |
| ActivityService.LogQuery | src/features/activity/services/activityService.ts:13-36 | the paging query comes first, followed by at most the five filter pairs |
| ActivityService.EmptyFiltersOnlyPaging | src/features/activity/services/activityService.ts:22-36 | with no filter set the query is the paging query alone |
| ActivityService.PagingFirst | src/features/activity/services/activityService.ts:14-19 | the query begins with the paging query, which holds no filter name |
| ActivityService.FilterLookups | src/features/activity/services/activityService.ts:22-36 | read back by name, each filter is sent exactly when it is truthy |
| Base64.SextetChar | src/features/auth/services/authService.ts:160 | a character of the standard alphabet that reads back as the value |
| Base64.Quad | src/features/auth/services/authService.ts:160 | four alphabet characters per full 3-byte group |
| Base64.Encode | src/features/auth/services/authService.ts:160 | the encoding uses only alphabet characters |
| Base64.EncodeLength | src/features/auth/services/authService.ts:160 | four characters per full group and one more than the bytes of a partial one |
| Base64.UrlEncode | src/features/auth/services/authService.ts:160-163 | the url-safe encoding holds no '+', '/', '=' or '.' and is as long as the unpadded encoding |
| Base64.UrlAlphabetBack | src/features/auth/services/tokenHandler.ts:32 | mapping '-' and '_' back gives the standard encoding |
| Base64.Btoa | src/features/auth/services/authService.ts:160 | succeeds exactly on binary strings, with a length that is a multiple of four |
| Base64.StripWhitespace | src/features/auth/services/tokenHandler.ts:43 | never longer, and the identity on a text without ASCII whitespace |
| Base64.Atob | src/features/auth/services/tokenHandler.ts:43 | succeeds exactly when the text, without whitespace and final padding, is alphabet characters of a length not 1 modulo 4 |
| Base64.DecodeEncode | src/features/auth/services/tokenHandler.ts:43 | decoding the groups of an encoding gives back the bytes |
| Base64.PaddingCompletes | src/features/auth/services/authService.ts:160 | the padding completes the encoding to a multiple of four |
| Base64.BtoaBinary | src/features/auth/services/authService.ts:155-160 | `btoa` of the binary string of some bytes is their padded encoding |
| Base64.AtobBtoa | src/features/auth/services/tokenHandler.ts:43 | `atob` undoes `btoa` on every binary string |
| Bytes.BinaryString | src/features/auth/services/authService.ts:155-158 | one character per byte, of that code |
| Bytes.BinaryBytes | src/features/auth/services/tokenHandler.ts:48 | one byte per character, its code |
| Bytes.BinaryRoundTrip | src/features/auth/services/tokenHandler.ts:45-50 | the bytes of the binary string of some bytes are those bytes |
| Utf8.EncodeChar | src/features/auth/services/authService.ts:148-149 | one to four octets per character |
| Utf8.Encode | src/features/auth/services/authService.ts:148-149 | at least one and at most four octets per character |
| Utf8.DecodeChar | src/features/auth/services/tokenHandler.ts:45-50 | the octets of a character decode to that character and its length, whatever follows |
| Utf8.Decode | src/features/auth/services/tokenHandler.ts:45-50 | no octets decode to the empty text, and a decoded text is never longer than its octets |
| Utf8.DecodeEncode | src/features/auth/services/tokenHandler.ts:45-50 | strict decoding undoes encoding |
| Text.Split | src/features/auth/services/tokenHandler.ts:67 | always at least one part |
| Text.SplitPartsFree | src/features/auth/services/tokenHandler.ts:67 | no part contains the separator |
| Text.JoinSplit | src/features/auth/services/tokenHandler.ts:67 | joining the parts gives back the text |
| Text.SplitFree | src/features/auth/services/claimsMapper.ts:41 | a text without the separator is its own single part |
| Text.SplitAppend | src/features/auth/services/claimsMapper.ts:41 | splitting at a separator occurrence splits the parts list in two |
| Text.SplitJoin | src/features/auth/services/tokenHandler.ts:67 | splitting the join of separator-free parts gives them back |
| Text.ContainsAt | src/shared/composables/useErrorHandler.ts:47 | `includes` holds exactly when the text occurs at some position |
| Text.LacksFirstChar | src/shared/utils/errorHandler.ts:34 | a text without the first character of the needle does not include it |
| Text.ReplaceAll | src/features/auth/services/tokenHandler.ts:32 | same length, each occurrence of the character replaced and every other character kept |
| Text.RemoveAll | src/features/auth/services/authService.ts:163 | no occurrence left, never longer |
| Text.RemoveAllFree | src/features/auth/services/authService.ts:163 | the identity on a text without the character |
| Text.RemoveAllAppend | src/features/auth/services/authService.ts:163 | removal distributes over concatenation |
| Text.Repeat | src/features/auth/services/tokenHandler.ts:36-38 | n copies of the character |
| Text.NatToDecimal | src/features/users/services/userService.ts:14-15 | a non-empty run of decimal digits |
| Text.DecimalValue | src/features/users/services/userService.ts:14-15 | the digits denote the number, with no leading zero |
| Text.DecimalIsIndexKey | src/features/auth/services/claimsMapper.ts:48 | a number's decimal form is an array-index key denoting it |
| Text.DecimalInjective | src/shared/composables/useNotification.ts:23 | distinct numbers print differently |
| Text.HexValue | src/features/auth/stores/authStore.ts:252 | a lowercase hex digit's value is below 16 |
| Text.Hex2 | src/features/auth/stores/authStore.ts:252 | two lowercase hex digits that read back as the byte |
| Json.Member | src/features/auth/services/claimsMapper.ts:48 | an object's own property exactly when present, nothing on a non-object |
| Json.StringToNumber | src/features/auth/services/tokenHandler.ts:127 | `Number(s)`: blank text is 0 and trimmed decimal digits are their value |
| Json.ToNumber | src/features/auth/services/tokenHandler.ts:127 | a number is itself, a string is read by `StringToNumber`, an array or object by its `String(v)` text |
| Json.NumberOfDecimal | src/features/auth/services/tokenHandler.ts:127 | the text of an integer converts back to it |
| Json.NumericTextConverts | src/features/auth/services/oidcService.ts:150 | numeric text and one-element arrays of a number or its text convert to that number |
| Json.BlankIsZero | src/features/auth/services/oidcService.ts:150 | blank text and `[]` convert to 0, while other text and objects are NaN |
| Json.NonEmptyText | src/features/auth/services/claimsMapper.ts:138-149 | a value exactly for a non-empty string claim, that string |
| Json.Display | src/features/auth/services/oidcService.ts:138 | a string renders as itself |
| Json.DisplayOpt | src/features/auth/services/oidcService.ts:138 | undefined renders as 'undefined', a value as `Display` renders it |
| Lists.FirstIndex | src/features/users/stores/userStore.ts:86 | -1 exactly when no element satisfies the test; otherwise an index whose element satisfies it and before which none does |
| Lists.FindIndex | src/shared/composables/useNotification.ts:44 | the scan returns `FirstIndex` |
| Lists.RemoveAt | src/shared/composables/useNotification.ts:46 | one element shorter, the elements before kept and those after shifted down by one |
| Lists.LookupFindsFirst | src/features/users/services/userService.ts:20 | a lookup finds nothing exactly when no pair has the key, and otherwise the value of the first pair that has it |
| Lists.LookupAppend | src/features/activity/services/activityService.ts:22-36 | a key missing from the front is looked up in the rest |
| Lists.LookupFront | src/features/activity/services/activityService.ts:22-36 | a key the front has is answered by the front, whatever follows |
| Lists.LookupHead | src/features/users/services/userService.ts:13-14 | a first pair with the key gives its value |
| Lists.NoKeyAppend | src/features/activity/services/activityService.ts:22-36 | no pair of a concatenation has the key exactly when neither part has |
| Lists.LookupBetween | src/features/activity/services/activityService.ts:22-36 | the only pair with the key, between pairs without it, is the one found |
| ApiTypes.PlainError | src/shared/utils/errorHandler.ts:63 | a plain Error with that message and no status |
| ApiTypes.AuthError | src/shared/types/api.types.ts:12-17 | an AuthenticationError with that message and no status |
| ApiTypes.ForbiddenError | src/shared/types/api.types.ts:19-24 | an AuthorizationError with that message and no status |
| ApiTypes.NullRead | src/features/auth/services/authService.ts:48 | reading a property of `null` throws a TypeError with no status |
| ApiTypes.Read | src/features/auth/services/authService.ts:48 | a property read fails exactly on `null`, and otherwise reads the value's property |
| AuthTypes.Or | src/features/auth/services/oidcService.ts:31-57 | the first value when truthy, the second otherwise |
| AuthTypes.Shown | src/features/auth/stores/authStore.ts:72 | a value as itself, an undefined one as 'undefined' |

## Left out

- Network I/O, `fetch`, `crypto.getRandomValues`, `crypto.subtle.digest` and the clock are not modelled as effects. Replies, random bytes, digests and times are parameters.
- `JSON.parse` and `JSON.stringify` are function parameters. JSON numbers are integers, because `exp`, `iat` and `expires_in` are whole numbers.
- `URLSearchParams` serialisation and percent-encoding are left out. A query is kept as its ordered list of name/value pairs, and `get` is `Lists.Lookup`.
- Asynchronous interleaving is not modelled. Each action runs to completion, so the intermediate `loading = true` of a store is not observable between calls.
- `clearSearch` and `clearFilters` start a fetch without awaiting it. The model runs that fetch and drops its rejection, which reaches no caller in the source either.
- The stores do not perform the `handleApiError` reaction. They return it as a `Reaction`, which holds its one error notification and whether it logs out; `ErrorHandler.HandleApiError` states it.
- All `console` logging and the `new Date().toISOString()` timestamp of `handleError` are left out.
- UserStore.Store.TotalPages: `Math.ceil` of a float quotient. It is modelled on integers, and a page size of 0 (Infinity or NaN in JavaScript) gives `None`.
- The `Headers` object's case-insensitive names are modelled by storing the two names the interceptor uses in lower case. Other headers are kept as given.
- HttpClient.StatusError: `Object.assign(error, apiError)` also copies `code` and `details` onto the thrown error. Only `status` is carried, because no caller reads the others.
- TokenHandler.DecodeJwt: the `typeof token !== 'string'` test is left out, because a Dafny `string` is always a string.
- String(err) of a thrown non-Error is the parameter `rendered`. A non-string truthy `message` field of an error body is rendered by `Json.Display`.
- Vue reactivity (`ref`, `computed`, `onMounted`) is left out. A getter is a function of the state, and mounting is a call of `LoadTheme`.
- The `userStore`'s `filteredUsers` getter and the `activityStore`'s `filteredLogs` getter return the list unchanged, so they have no members of their own.
- The session store calls `authService` for login, token exchange and profile calls. The functions of `oidcService.ts` are modelled on their own and are not wired into the store, as in the code.
- ToNumber: numeric text in fraction, exponent, `0x`/`0o`/`0b` or `Infinity` notation converts to NaN here, where `Number()` gives a number. Numbers are integers in this model, so only optionally signed decimal digits, with white space around them, are converted.
- Json.Member: inherited properties (`constructor`, `toString`) and the `length` and indices of strings are not modelled. A non-object value other than an array has no properties here.
- ApiTypes.NullRead: the message is the V8 wording. Other engines word it differently. The model relies only on it mentioning neither 'fetch' nor 'Network error'.
- GraphText: in the source a missing Graph field stays `undefined` and a non-string one is kept as it is. The profile's fields are strings here, so both become ''.
- GraphProfile: a truthy `mail` that is not a string is kept by `data.mail || data.userPrincipalName` in the source. The model skips it and takes `userPrincipalName`, because the profile's fields are strings.
- GraphList: in the source a truthy `roles` or `permissions` that is not an array (a string, say) is kept, and a later `includes` on it becomes a substring test. The model gives [] for it, and keeps only the strings of an array.
- FirstText: a truthy claim that is not a string is kept by `||` in the source. The model skips it and moves to the next candidate, because the profile's fields are strings.
- ExtractUserProfile: for the same reason, a truthy non-string `sub`, `email`, `name` or `preferred_username` is skipped rather than kept.
- The OIDC configuration does not prepend 'openid' to the scope. The code passes the configured scope through unchanged, and the model follows the code.

## Findings

| source | as written | input that shows it | evidently intended | confidence | as-written member | corrected member |
|---|---|---|---|---|---|---|
| src/features/auth/services/oidcService.ts:253 | `return response.json()` inside the `try` is not awaited, so a rejected JSON parse of an ok response escapes the `catch` | an ok reply whose body is not JSON, such as an HTML error page with status 200 | every refresh failure becomes 'Session expired, please log in again', as the catch block and the doc comment promise | not executed | OidcService.RefreshAccessTokenAsWritten (shown by OidcService.RefreshParseErrorEscapes) | OidcService.RefreshAccessToken |
