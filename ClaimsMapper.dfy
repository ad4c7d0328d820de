/** Extraction of user data from ID-token claims and UserInfo data: dotted
    claim paths, string lists of roles and permissions, and the profile built
    from a shallow merge in which UserInfo overrides the ID token. */
module ClaimsMapper {
  import opened Wrappers
  import opened Text
  import opened Json
  import opened AuthTypes

  const DefaultRolesClaim := "roles"
  const DefaultPermissionsClaim := "permissions"

  // ---------------------------------------------------------------- claim paths

  /** Following the segments from `current`: undefined as soon as the value
      reached is undefined, null or not an object. */
  function Walk(current: Option<Json>, parts: seq<string>): Option<Json>
    decreases |parts|
  {
    if |parts| == 0 then current
    else if current.None? || !IsObject(current.value) then None
    else Walk(Member(current.value, parts[0]), parts[1..])
  }

  /** The value `getNestedClaim(claims, path)` returns. */
  function NestedClaim(claims: Json, path: string): (r: Option<Json>)
    ensures path == "" || !Truthy(claims) ==> r.None?
  {
    if path == "" || !Truthy(claims) then None else Walk(Some(claims), Split(path, '.'))
  }

  /** `getNestedClaim`: the loop over the path segments. */
  method GetNestedClaim(claims: Json, path: string) returns (r: Option<Json>)
    ensures r == NestedClaim(claims, path)
  {
    if path == "" || !Truthy(claims) {
      return None;
    }
    var parts := Split(path, '.');
    var current := Some(claims);
    var i := 0;
    while i < |parts|
      invariant 0 <= i <= |parts|
      invariant Walk(current, parts[i..]) == Walk(Some(claims), parts)
    {
      if current.None? || !IsObject(current.value) {
        return None;
      }
      assert parts[i..][1..] == parts[i + 1..];
      current := Member(current.value, parts[i]);
      i := i + 1;
    }
    return current;
  }

  lemma {:induction false} WalkAppend(current: Option<Json>, a: seq<string>, b: seq<string>)
    ensures Walk(current, a + b) == Walk(Walk(current, a), b)
    decreases |a|
  {
    if |a| == 0 {
      assert a + b == b;
    } else if current.None? || !IsObject(current.value) {
      if |b| > 0 { assert Walk(None, b) == None; }
    } else {
      assert (a + b)[1..] == a[1..] + b;
      WalkAppend(Member(current.value, a[0]), a[1..], b);
    }
  }

  /** A path without dots is a plain property lookup. */
  lemma SingleSegment(claims: Json, key: string)
    requires key != "" && Free(key, '.') && Truthy(claims)
    ensures NestedClaim(claims, key) == Member(claims, key)
  {
    SplitFree(key, '.');
    if IsObject(claims) {
      assert Walk(Some(claims), [key]) == Walk(Member(claims, key), [key][1..]);
      assert [key][1..] == [];
    }
  }

  /** Paths compose: looking up `p.q` is looking up `q` in what `p` gives. */
  lemma NestedClaimCompose(claims: Json, p: string, q: string)
    requires p != "" && q != ""
    ensures NestedClaim(claims, p + "." + q) ==
      match NestedClaim(claims, p)
      case None => None
      case Some(v) => NestedClaim(v, q)
  {
    if Truthy(claims) {
      SplitAppend(p, '.', q);
      assert p + "." + q == p + ['.'] + q;
      WalkAppend(Some(claims), Split(p, '.'), Split(q, '.'));
      var mid := Walk(Some(claims), Split(p, '.'));
      if mid.Some? && !Truthy(mid.value) {
        assert !IsObject(mid.value);
      }
    }
  }

  // ---------------------------------------------------------------- string lists

  /** `items.filter(x => typeof x === 'string')`. */
  function StringsOf(items: seq<Json>): (r: seq<string>)
    ensures |r| <= |items|
    decreases |items|
  {
    if |items| == 0 then []
    else
      var rest := StringsOf(items[..|items| - 1]);
      match items[|items| - 1]
      case Str(s) => rest + [s]
      case _ => rest
  }

  /** The filter keeps exactly the strings of the array. */
  lemma {:induction false} StringsOfMembers(items: seq<Json>)
    ensures forall s :: s in StringsOf(items) <==> Str(s) in items
    decreases |items|
  {
    if |items| > 0 {
      var front := items[..|items| - 1];
      StringsOfMembers(front);
      assert items == front + [items[|items| - 1]];
    }
  }

  /** The filter keeps order: it distributes over concatenation. */
  lemma {:induction false} StringsOfAppend(a: seq<Json>, b: seq<Json>)
    ensures StringsOf(a + b) == StringsOf(a) + StringsOf(b)
    decreases |b|
  {
    if |b| == 0 {
      assert a + b == a;
    } else {
      assert (a + b)[..|a + b| - 1] == a + b[..|b| - 1];
      StringsOfAppend(a, b[..|b| - 1]);
    }
  }

  /** An array of strings only is kept whole. */
  lemma {:induction false} StringsOfStrings(items: seq<Json>)
    requires forall i :: 0 <= i < |items| ==> items[i].Str?
    ensures |StringsOf(items)| == |items|
    ensures forall i :: 0 <= i < |items| ==> StringsOf(items)[i] == items[i].s
    decreases |items|
  {
    if |items| > 0 {
      var n := |items|;
      var front := items[..n - 1];
      StringsOfStrings(front);
      var r := StringsOf(items);
      assert r == StringsOf(front) + [items[n - 1].s];
      forall i | 0 <= i < n - 1 ensures r[i] == items[i].s {
        assert r[i] == StringsOf(front)[i] && front[i] == items[i];
      }
    }
  }

  /** `extractRoles(claims, rolesClaim)`: the string elements of an array claim,
      a string claim as a one-element list, and nothing for anything else. */
  function ExtractRoles(claims: Json, rolesClaim: string): (r: seq<string>)
    ensures var v := NestedClaim(claims, rolesClaim);
      && (v.Some? && v.value.Arr? ==> r == StringsOf(v.value.items))
      && (v.Some? && v.value.Str? ==> r == [v.value.s])
      && (!(v.Some? && (v.value.Arr? || v.value.Str?)) ==> r == [])
  {
    match NestedClaim(claims, rolesClaim)
    case Some(Arr(items)) => StringsOf(items)
    case Some(Str(s)) => [s]
    case _ => []
  }

  /** `extractPermissions(claims, permissionsClaim)`: the same rule as `extractRoles`. */
  function ExtractPermissions(claims: Json, permissionsClaim: string): (r: seq<string>)
    ensures r == ExtractRoles(claims, permissionsClaim)
  {
    match NestedClaim(claims, permissionsClaim)
    case Some(Arr(items)) => StringsOf(items)
    case Some(Str(s)) => [s]
    case _ => []
  }

  // ---------------------------------------------------------------- profile

  /** The first candidate that is a non-empty string, or ''. */
  function FirstText(candidates: seq<Option<Json>>): (r: string)
    ensures r == "" <==> forall i :: 0 <= i < |candidates| ==> NonEmptyText(candidates[i]).None?
    ensures r != "" ==> exists i :: (0 <= i < |candidates| && NonEmptyText(candidates[i]) == Some(r)
      && forall j :: 0 <= j < i ==> NonEmptyText(candidates[j]).None?)
    decreases |candidates|
  {
    if |candidates| == 0 then ""
    else match NonEmptyText(candidates[0])
      case Some(s) => s
      case None =>
        var r := FirstText(candidates[1..]);
        assert forall i :: 1 <= i < |candidates| ==> candidates[i] == candidates[1..][i - 1];
        r
  }

  /** `userinfoData?.[key]`. */
  function UserInfoGet(userinfo: Option<map<string, Json>>, key: string): Option<Json> {
    if userinfo.Some? then Get(userinfo.value, key) else None
  }

  /** `{...idToken, ...(userinfoData || {})}`: UserInfo keys override. */
  function Combined(idToken: map<string, Json>, userinfo: Option<map<string, Json>>): (c: map<string, Json>)
    ensures c.Keys == idToken.Keys + (if userinfo.Some? then userinfo.value.Keys else {})
    ensures forall k :: k in c ==> c[k] == if userinfo.Some? && k in userinfo.value then userinfo.value[k] else idToken[k]
  {
    if userinfo.Some? then idToken + userinfo.value else idToken
  }

  /** `extractUserProfile(idToken, userinfoData, rolesClaim, permissionsClaim)`. */
  function ExtractUserProfile(idToken: map<string, Json>, userinfo: Option<map<string, Json>>,
                              rolesClaim: string, permissionsClaim: string): (p: UserProfile)
    ensures p.id == FirstText([Get(Combined(idToken, userinfo), "sub"), Get(idToken, "sub")])
    ensures p.email == FirstText([UserInfoGet(userinfo, "email"), Get(idToken, "email")])
    ensures p.name == FirstText([UserInfoGet(userinfo, "name"), Get(idToken, "name"),
                                 UserInfoGet(userinfo, "preferred_username"), Get(idToken, "preferred_username")])
    ensures p.roles == ExtractRoles(Obj(Combined(idToken, userinfo)), rolesClaim)
    ensures p.permissions == ExtractRoles(Obj(Combined(idToken, userinfo)), permissionsClaim)
  {
    var combined := Obj(Combined(idToken, userinfo));
    UserProfile(
      FirstText([Get(Combined(idToken, userinfo), "sub"), Get(idToken, "sub")]),
      FirstText([UserInfoGet(userinfo, "email"), Get(idToken, "email")]),
      FirstText([UserInfoGet(userinfo, "name"), Get(idToken, "name"),
                 UserInfoGet(userinfo, "preferred_username"), Get(idToken, "preferred_username")]),
      ExtractRoles(combined, rolesClaim),
      ExtractPermissions(combined, permissionsClaim))
  }

  /** The claim at a path depends only on the value under the path's first segment. */
  lemma SameRoot(a: map<string, Json>, b: map<string, Json>, path: string)
    requires path != ""
    requires var root := Split(path, '.')[0]; (root in a <==> root in b) && (root in a ==> a[root] == b[root])
    ensures NestedClaim(Obj(a), path) == NestedClaim(Obj(b), path)
  {
    var parts := Split(path, '.');
    assert Walk(Some(Obj(a)), parts) == Walk(Member(Obj(a), parts[0]), parts[1..]);
    assert Walk(Some(Obj(b)), parts) == Walk(Member(Obj(b), parts[0]), parts[1..]);
  }

  /** When UserInfo has the first segment of the roles path, the ID token's
      roles are wholly replaced; otherwise UserInfo plays no part in them. */
  lemma UserInfoOverridesRoles(idToken: map<string, Json>, userinfo: map<string, Json>, rolesClaim: string)
    requires rolesClaim != ""
    ensures var root := Split(rolesClaim, '.')[0];
      && (root in userinfo ==>
            ExtractUserProfile(idToken, Some(userinfo), rolesClaim, rolesClaim).roles == ExtractRoles(Obj(userinfo), rolesClaim))
      && (root !in userinfo ==>
            ExtractUserProfile(idToken, Some(userinfo), rolesClaim, rolesClaim).roles == ExtractRoles(Obj(idToken), rolesClaim))
  {
    SameRoot(Combined(idToken, Some(userinfo)), if Split(rolesClaim, '.')[0] in userinfo then userinfo else idToken, rolesClaim);
  }

  /** The e-mail fallback: UserInfo's, then the ID token's, then ''; an empty string counts as absent. */
  lemma EmailFallback(idToken: map<string, Json>, userinfo: Option<map<string, Json>>, rolesClaim: string, permissionsClaim: string)
    ensures var email := ExtractUserProfile(idToken, userinfo, rolesClaim, permissionsClaim).email;
      && (NonEmptyText(UserInfoGet(userinfo, "email")).Some? ==> email == NonEmptyText(UserInfoGet(userinfo, "email")).value)
      && (NonEmptyText(UserInfoGet(userinfo, "email")).None? && NonEmptyText(Get(idToken, "email")).Some? ==>
            email == NonEmptyText(Get(idToken, "email")).value)
      && (NonEmptyText(UserInfoGet(userinfo, "email")).None? && NonEmptyText(Get(idToken, "email")).None? ==> email == "")
  {
    var c := [UserInfoGet(userinfo, "email"), Get(idToken, "email")];
    if NonEmptyText(c[0]).None? {
      assert FirstText(c) == FirstText(c[1..]);
      assert c[1..] == [c[1]];
    }
  }

  /** The name fallback: each of the four candidates wins when the ones before it are absent or empty. */
  lemma NameFallback(idToken: map<string, Json>, userinfo: Option<map<string, Json>>, rolesClaim: string, permissionsClaim: string)
    ensures var name := ExtractUserProfile(idToken, userinfo, rolesClaim, permissionsClaim).name;
      var c := [UserInfoGet(userinfo, "name"), Get(idToken, "name"),
                UserInfoGet(userinfo, "preferred_username"), Get(idToken, "preferred_username")];
      forall k :: 0 <= k < 4 && NonEmptyText(c[k]).Some? && (forall j :: 0 <= j < k ==> NonEmptyText(c[j]).None?) ==>
        name == NonEmptyText(c[k]).value
  {
    var c := [UserInfoGet(userinfo, "name"), Get(idToken, "name"),
              UserInfoGet(userinfo, "preferred_username"), Get(idToken, "preferred_username")];
    FirstAt(c);
  }

  /** The first non-empty candidate is the one `FirstText` picks. */
  lemma {:induction false} FirstAt(c: seq<Option<Json>>)
    ensures forall k :: 0 <= k < |c| && NonEmptyText(c[k]).Some? && (forall j :: 0 <= j < k ==> NonEmptyText(c[j]).None?) ==>
      FirstText(c) == NonEmptyText(c[k]).value
    decreases |c|
  {
    if |c| > 0 {
      FirstAt(c[1..]);
      forall k | 0 <= k < |c| && NonEmptyText(c[k]).Some? && (forall j :: 0 <= j < k ==> NonEmptyText(c[j]).None?)
        ensures FirstText(c) == NonEmptyText(c[k]).value
      {
        if k > 0 {
          assert c[1..][k - 1] == c[k];
          assert forall j :: 0 <= j < k - 1 ==> c[1..][j] == c[j + 1];
        }
      }
    }
  }
}
