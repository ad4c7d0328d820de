/** The route guard: public routes pass, unauthenticated visitors go to the
    login page (leaving the path they wanted in `sessionStorage`), and a
    route's required permission is checked against the session store. The
    guard's single call of `next` is its result. */
module AuthGuard {
  import opened Wrappers
  import opened Json
  import opened AuthTypes
  import AuthStore

  const RedirectKey := "redirect_after_login"
  const LoginPath := "/login"

  /** The target route: its path, its full path with query and hash, and
      the `requiresAuth` and `permission` entries of its meta data. */
  datatype Route = Route(path: string, fullPath: string, requiresAuth: Option<Json>, permission: Option<string>)

  /** An argument of `next`: no argument (proceed), or a named route with a query. */
  datatype Next = Proceed | Named(name: string, query: seq<(string, string)>)

  /** What the guard does: the one `next` call and the path it saves, if any. */
  datatype Step = Step(next: Next, saved: Option<string>)

  /** `to.meta.requiresAuth !== false`: only the boolean false makes a route public. */
  predicate RequiresAuth(to: Route)
    ensures to.requiresAuth.None? ==> RequiresAuth(to)
    ensures to.requiresAuth == Some(Bool(true)) ==> RequiresAuth(to)
    ensures to.requiresAuth == Some(Bool(false)) ==> !RequiresAuth(to)
  {
    to.requiresAuth != Some(Bool(false))
  }

  /** The guard's decision, given whether the user is authenticated, the
      permissions held, and whether writing to `sessionStorage` throws
      (which sends the navigation to the error page). */
  function Decide(to: Route, authenticated: bool, held: seq<string>, storageThrows: bool): (s: Step)
    ensures !RequiresAuth(to) ==> s == Step(Proceed, None)
    ensures RequiresAuth(to) && !authenticated && to.path != LoginPath && storageThrows ==>
      s == Step(Named("error", [("message", "Authentication check failed")]), None)
    ensures RequiresAuth(to) && !authenticated && (to.path == LoginPath || !storageThrows) ==> s.next == Named("login", [])
    ensures s.saved.Some? <==> RequiresAuth(to) && !authenticated && to.path != LoginPath && !storageThrows
    ensures s.saved.Some? ==> s.saved.value == to.fullPath
    ensures RequiresAuth(to) && authenticated && Present(to.permission) && to.permission.value !in held ==>
      s == Step(Named("dashboard", [("error", "insufficient_permissions")]), None)
    ensures s.next == Proceed <==> !RequiresAuth(to) || (authenticated && (!Present(to.permission) || to.permission.value in held))
  {
    if !RequiresAuth(to) then Step(Proceed, None)
    else if !authenticated then
      if to.path != LoginPath then
        if storageThrows then Step(Named("error", [("message", "Authentication check failed")]), None)
        else Step(Named("login", []), Some(to.fullPath))
      else Step(Named("login", []), None)
    else if Present(to.permission) && to.permission.value !in held then
      Step(Named("dashboard", [("error", "insufficient_permissions")]), None)
    else Step(Proceed, None)
  }

  /** `authGuard(to, from, next)` against the session store, whose
      `sessionStorage` receives the saved path. */
  method Guard(store: AuthStore.Store, to: Route, storageThrows: bool) returns (next: Next)
    modifies store
    ensures var s := Decide(to, old(store.isAuthenticated), old(store.UserPermissions()), storageThrows);
      && next == s.next
      && store.session == (if s.saved.Some? then old(store.session)[RedirectKey := s.saved.value] else old(store.session))
    ensures store.isAuthenticated == old(store.isAuthenticated) && store.user == old(store.user)
    ensures store.accessToken == old(store.accessToken) && store.idToken == old(store.idToken)
    ensures store.tokenExpiry == old(store.tokenExpiry) && store.location == old(store.location)
    ensures store.intervals == old(store.intervals) && store.monitorHandle == old(store.monitorHandle)
    ensures store.nextTimer == old(store.nextTimer)
  {
    var s := Decide(to, store.isAuthenticated, store.UserPermissions(), storageThrows);
    if s.saved.Some? {
      store.session := store.session[RedirectKey := s.saved.value];
    }
    next := s.next;
  }

  /** The permission step asks exactly the store's `hasPermission`. */
  lemma DashboardMeansMissingPermission(store: AuthStore.Store, to: Route, storageThrows: bool)
    requires RequiresAuth(to) && store.isAuthenticated && Present(to.permission)
    ensures Decide(to, true, store.UserPermissions(), storageThrows).next.Named?
      <==> !store.HasPermission(to.permission.value)
  {
  }
}
