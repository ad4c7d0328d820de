/** The permission composable: single, any-of and all-of checks, for
    permissions and for roles, each asked of the session store. One pair of
    list functions serves both families, since the role checks mirror the
    permission checks over the roles list. */
module Permissions {
  import AuthStore

  /** `wanted.some(w => held.includes(w))`. */
  function AnyIn(wanted: seq<string>, held: seq<string>): (b: bool)
    ensures b <==> exists w :: w in wanted && w in held
    decreases |wanted|
  {
    if |wanted| == 0 then false
    else if wanted[0] in held then true
    else
      assert forall w :: w in wanted && w != wanted[0] ==> w in wanted[1..];
      AnyIn(wanted[1..], held)
  }

  /** `wanted.every(w => held.includes(w))`. */
  function AllIn(wanted: seq<string>, held: seq<string>): (b: bool)
    ensures b <==> forall w :: w in wanted ==> w in held
    decreases |wanted|
  {
    if |wanted| == 0 then true
    else if wanted[0] !in held then false
    else
      assert forall w :: w in wanted && w != wanted[0] ==> w in wanted[1..];
      AllIn(wanted[1..], held)
  }

  /** `some` over [] is false and `every` over [] is true. */
  lemma EmptyQueries(held: seq<string>)
    ensures !AnyIn([], held) && AllIn([], held)
  {
  }

  /** On a non-empty list, all-of implies any-of. */
  lemma AllImpliesAny(wanted: seq<string>, held: seq<string>)
    requires |wanted| > 0 && AllIn(wanted, held)
    ensures AnyIn(wanted, held)
  {
    assert wanted[0] in wanted;
  }

  /** On a one-element list, any-of and all-of are the single check. */
  lemma SingletonQueries(w: string, held: seq<string>)
    ensures AnyIn([w], held) == AllIn([w], held) == (w in held)
  {
  }

  /** `hasPermission(permission)`. */
  predicate HasPermission(store: AuthStore.Store, permission: string)
    reads store
    ensures HasPermission(store, permission) <==> store.HasPermission(permission)
  {
    store.HasPermission(permission)
  }

  /** `hasAnyPermission(permissions)`: some permission is held. */
  function HasAnyPermission(store: AuthStore.Store, permissions: seq<string>): (b: bool)
    reads store
    ensures b <==> exists p :: p in permissions && store.HasPermission(p)
  {
    AnyIn(permissions, store.UserPermissions())
  }

  /** `hasAllPermissions(permissions)`: every permission is held. */
  function HasAllPermissions(store: AuthStore.Store, permissions: seq<string>): (b: bool)
    reads store
    ensures b <==> forall p :: p in permissions ==> store.HasPermission(p)
  {
    AllIn(permissions, store.UserPermissions())
  }

  /** `hasRole(role)`. */
  predicate HasRole(store: AuthStore.Store, role: string)
    reads store
    ensures HasRole(store, role) <==> store.HasRole(role)
  {
    store.HasRole(role)
  }

  /** `hasAnyRole(roles)`: some role is held. */
  function HasAnyRole(store: AuthStore.Store, roles: seq<string>): (b: bool)
    reads store
    ensures b <==> exists r :: r in roles && store.HasRole(r)
  {
    AnyIn(roles, store.UserRoles())
  }

  /** `hasAllRoles(roles)`: every role is held. */
  function HasAllRoles(store: AuthStore.Store, roles: seq<string>): (b: bool)
    reads store
    ensures b <==> forall r :: r in roles ==> store.HasRole(r)
  {
    AllIn(roles, store.UserRoles())
  }

  /** With nobody logged in every query is false, except all-of over []. */
  lemma NoUserHoldsNothing(store: AuthStore.Store, permissions: seq<string>, roles: seq<string>, p: string, r: string)
    requires store.user.None?
    ensures !HasPermission(store, p) && !HasRole(store, r)
    ensures !HasAnyPermission(store, permissions) && !HasAnyRole(store, roles)
    ensures HasAllPermissions(store, permissions) <==> permissions == []
    ensures HasAllRoles(store, roles) <==> roles == []
  {
    if permissions != [] {
      assert permissions[0] in permissions;
    }
    if roles != [] {
      assert roles[0] in roles;
    }
  }
}
