/** The user service: the query parameters and paths of the list, search and
    role-update calls. A query is the list of name and value pairs handed to
    `URLSearchParams`, in order; a call pairs it with its path. */
module UserService {
  import opened Wrappers
  import opened Text
  import opened Json
  import opened AuthTypes
  import opened Lists

  /** A user as the API returns it. */
  datatype User = User(
    id: string,
    email: string,
    name: string,
    roles: seq<string>,
    status: string,
    createdAt: string,
    lastLoginAt: Option<string>)

  datatype PaginationParams = PaginationParams(page: int, pageSize: int, sortBy: Option<string>, sortOrder: Option<string>)

  /** A page of results. */
  datatype Page<T> = Page(data: seq<T>, total: int, page: int, pageSize: int, totalPages: int)

  /** A call of the HTTP client: its verb, its path, the query after the '?'
      and its JSON body. */
  datatype Call = Call(verb: string, path: string, query: seq<(string, string)>, body: Option<Json>)

  /** `...(v && { name: v })`: the pair when the value is truthy. */
  function IfPresent(name: string, v: Option<string>): (q: seq<(string, string)>)
    ensures Present(v) ==> q == [(name, v.value)]
    ensures !Present(v) ==> q == []
  {
    if Present(v) then [(name, v.value)] else []
  }

  /** The parameters `getUsers` sends: page and pageSize as decimal text, then
      sortBy and sortOrder when truthy. */
  function PageQuery(p: PaginationParams): (q: seq<(string, string)>)
    ensures |q| >= 2 && q[0] == ("page", IntToDecimal(p.page)) && q[1] == ("pageSize", IntToDecimal(p.pageSize))
    ensures |q| == 2 + (if Present(p.sortBy) then 1 else 0) + (if Present(p.sortOrder) then 1 else 0)
    ensures forall k :: 0 <= k < |q| ==> q[k].0 in {"page", "pageSize", "sortBy", "sortOrder"}
  {
    [("page", IntToDecimal(p.page)), ("pageSize", IntToDecimal(p.pageSize))] + IfPresent("sortBy", p.sortBy) + IfPresent("sortOrder", p.sortOrder)
  }

  /** Read back with `URLSearchParams.get`, the paging query gives the page and
      the page size as decimal text, and each sort key exactly when it is truthy. */
  lemma PageQueryLookups(p: PaginationParams)
    ensures Lookup(PageQuery(p), "page") == Some(IntToDecimal(p.page))
    ensures Lookup(PageQuery(p), "pageSize") == Some(IntToDecimal(p.pageSize))
    ensures Lookup(PageQuery(p), "sortBy") == (if Present(p.sortBy) then p.sortBy else None)
    ensures Lookup(PageQuery(p), "sortOrder") == (if Present(p.sortOrder) then p.sortOrder else None)
  {
    var first := [("page", IntToDecimal(p.page))];
    var paging := first + [("pageSize", IntToDecimal(p.pageSize))];
    var sortBy := IfPresent("sortBy", p.sortBy);
    var sortOrder := IfPresent("sortOrder", p.sortOrder);
    var afterPage := [("pageSize", IntToDecimal(p.pageSize))] + (sortBy + sortOrder);
    assert PageQuery(p) == first + afterPage;
    assert PageQuery(p) == paging + (sortBy + sortOrder);
    LookupHead(PageQuery(p), "page");
    LookupAppend(first, afterPage, "pageSize");
    LookupHead(afterPage, "pageSize");
    LookupAppend(paging, sortBy + sortOrder, "sortBy");
    LookupAppend(paging, sortBy + sortOrder, "sortOrder");
    LookupAppend(sortBy, sortOrder, "sortOrder");
    if Present(p.sortBy) {
      LookupHead(sortBy + sortOrder, "sortBy");
    }
    if Present(p.sortOrder) {
      LookupHead(sortOrder, "sortOrder");
    }
  }

  /** `getUsers(params)`: a GET of '/users' with the paging query. */
  function GetUsers(p: PaginationParams): (c: Call)
    ensures c.verb == "GET" && c.path == "/users" && c.query == PageQuery(p) && c.body.None?
  {
    Call("GET", "/users", PageQuery(p), None)
  }

  /** `searchUsers(query, params)`: a GET of '/users/search' with 'q' first and
      then the paging query. */
  function SearchUsers(query: string, p: PaginationParams): (c: Call)
    ensures c.verb == "GET" && c.path == "/users/search" && c.body.None?
    ensures c.query == [("q", query)] + PageQuery(p)
    ensures Lookup(c.query, "q") == Some(query)
    ensures forall name :: name != "q" ==> Lookup(c.query, name) == Lookup(PageQuery(p), name)
  {
    var c := Call("GET", "/users/search", [("q", query)] + PageQuery(p), None);
    forall name | name != "q" ensures Lookup(c.query, name) == Lookup(PageQuery(p), name) {
      LookupAppend([("q", query)], PageQuery(p), name);
    }
    c
  }

  /** `updateUserRoles(userId, roles)`: a PUT of `{ roles }` to '/users/{userId}/roles'. */
  function UpdateUserRoles(userId: string, roles: seq<string>): (c: Call)
    ensures c.verb == "PUT" && c.path == "/users/" + userId + "/roles" && c.query == []
    ensures c.body.Some? && Member(c.body.value, "roles") == Some(Arr(seq(|roles|, k requires 0 <= k < |roles| => Str(roles[k]))))
  {
    Call("PUT", "/users/" + userId + "/roles", [], Some(Obj(map["roles" := Arr(seq(|roles|, k requires 0 <= k < |roles| => Str(roles[k])))])))
  }
}
