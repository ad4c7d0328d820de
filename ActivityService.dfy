/** The activity service: `getLogs` builds the paging query of the user
    service and then appends each truthy filter, in a fixed order. */
module ActivityService {
  import opened Wrappers
  import opened AuthTypes
  import opened Lists
  import opened UserService

  datatype ActivityFilters = ActivityFilters(
    startDate: Option<string>,
    endDate: Option<string>,
    userId: Option<string>,
    actionType: Option<string>,
    status: Option<string>)

  /** `{}`. */
  const NoFilters := ActivityFilters(None, None, None, None, None)

  datatype ActivityQueryParams = ActivityQueryParams(
    page: int,
    pageSize: int,
    sortBy: Option<string>,
    sortOrder: Option<string>,
    filters: ActivityFilters)

  function Paging(p: ActivityQueryParams): PaginationParams {
    PaginationParams(p.page, p.pageSize, p.sortBy, p.sortOrder)
  }

  /** The whole query of `getLogs`: the paging pairs, then the filter pairs in order. */
  function LogQuery(p: ActivityQueryParams): (q: seq<(string, string)>)
    ensures PageQuery(Paging(p)) <= q && |q| <= |PageQuery(Paging(p))| + 5
  {
    var f := p.filters;
    PageQuery(Paging(p)) + IfPresent("startDate", f.startDate) + IfPresent("endDate", f.endDate) + IfPresent("userId", f.userId)
      + IfPresent("actionType", f.actionType) + IfPresent("status", f.status)
  }

  /** `getLogs(params)`: the initial parameters, then one `append` per truthy
      filter, sent as a GET of '/activity/logs'. */
  method GetLogs(params: ActivityQueryParams) returns (call: Call)
    ensures call == Call("GET", "/activity/logs", LogQuery(params), None)
  {
    var f := params.filters;
    var queryParams := PageQuery(Paging(params));
    ghost var expected := queryParams;
    if Present(f.startDate) {
      queryParams := queryParams + [("startDate", f.startDate.value)];
    }
    expected := expected + IfPresent("startDate", f.startDate);
    assert queryParams == expected;
    if Present(f.endDate) {
      queryParams := queryParams + [("endDate", f.endDate.value)];
    }
    expected := expected + IfPresent("endDate", f.endDate);
    assert queryParams == expected;
    if Present(f.userId) {
      queryParams := queryParams + [("userId", f.userId.value)];
    }
    expected := expected + IfPresent("userId", f.userId);
    assert queryParams == expected;
    if Present(f.actionType) {
      queryParams := queryParams + [("actionType", f.actionType.value)];
    }
    expected := expected + IfPresent("actionType", f.actionType);
    assert queryParams == expected;
    if Present(f.status) {
      queryParams := queryParams + [("status", f.status.value)];
    }
    expected := expected + IfPresent("status", f.status);
    assert queryParams == expected;
    call := Call("GET", "/activity/logs", queryParams, None);
  }

  /** With no filter set the query is the paging query alone. */
  lemma EmptyFiltersOnlyPaging(p: ActivityQueryParams)
    requires p.filters == NoFilters
    ensures LogQuery(p) == PageQuery(Paging(p))
  {
  }

  /** The query starts with the paging query, and no paging name is a filter name. */
  lemma PagingFirst(p: ActivityQueryParams)
    ensures LogQuery(p)[..|PageQuery(Paging(p))|] == PageQuery(Paging(p))
    ensures NoKey(PageQuery(Paging(p)), "startDate") && NoKey(PageQuery(Paging(p)), "endDate") && NoKey(PageQuery(Paging(p)), "userId")
    ensures NoKey(PageQuery(Paging(p)), "actionType") && NoKey(PageQuery(Paging(p)), "status")
  {
  }

  /** Each filter is sent, under its own name, exactly when it is truthy. */
  lemma FilterLookups(p: ActivityQueryParams)
    ensures Lookup(LogQuery(p), "startDate") == (if Present(p.filters.startDate) then p.filters.startDate else None)
    ensures Lookup(LogQuery(p), "endDate") == (if Present(p.filters.endDate) then p.filters.endDate else None)
    ensures Lookup(LogQuery(p), "userId") == (if Present(p.filters.userId) then p.filters.userId else None)
    ensures Lookup(LogQuery(p), "actionType") == (if Present(p.filters.actionType) then p.filters.actionType else None)
    ensures Lookup(LogQuery(p), "status") == (if Present(p.filters.status) then p.filters.status else None)
  {
    PagingFirst(p);
    var f := p.filters;
    var q := PageQuery(Paging(p));
    var a, b, c, d, e := IfPresent("startDate", f.startDate), IfPresent("endDate", f.endDate),
      IfPresent("userId", f.userId), IfPresent("actionType", f.actionType), IfPresent("status", f.status);
    StartDateLookup(q, a, b, c, d, e);
    EndDateLookup(q, a, b, c, d, e);
    UserIdLookup(q, a, b, c, d, e);
    ActionTypeLookup(q, a, b, c, d, e);
    StatusLookup(q, a, b, c, d, e);
  }

  lemma StartDateLookup(q: seq<(string, string)>, a: seq<(string, string)>, b: seq<(string, string)>, c: seq<(string, string)>,
                        d: seq<(string, string)>, e: seq<(string, string)>)
    requires NoKey(q, "startDate") && |a| <= 1 && forall k :: 0 <= k < |a| ==> a[k].0 == "startDate"
    requires NoKey(b, "startDate") && NoKey(c, "startDate") && NoKey(d, "startDate") && NoKey(e, "startDate")
    ensures Lookup(q + a + b + c + d + e, "startDate") == (if |a| == 1 then Some(a[0].1) else None)
  {
    NoKeyAppend(b, c, "startDate");
    NoKeyAppend(b + c, d, "startDate");
    NoKeyAppend(b + c + d, e, "startDate");
    assert q + a + b + c + d + e == q + a + (b + c + d + e);
    LookupBetween(q, a, b + c + d + e, "startDate");
  }

  lemma EndDateLookup(q: seq<(string, string)>, a: seq<(string, string)>, b: seq<(string, string)>, c: seq<(string, string)>,
                      d: seq<(string, string)>, e: seq<(string, string)>)
    requires NoKey(q, "endDate") && NoKey(a, "endDate") && |b| <= 1 && forall k :: 0 <= k < |b| ==> b[k].0 == "endDate"
    requires NoKey(c, "endDate") && NoKey(d, "endDate") && NoKey(e, "endDate")
    ensures Lookup(q + a + b + c + d + e, "endDate") == (if |b| == 1 then Some(b[0].1) else None)
  {
    NoKeyAppend(q, a, "endDate");
    NoKeyAppend(c, d, "endDate");
    NoKeyAppend(c + d, e, "endDate");
    assert q + a + b + c + d + e == (q + a) + b + (c + d + e);
    LookupBetween(q + a, b, c + d + e, "endDate");
  }

  lemma UserIdLookup(q: seq<(string, string)>, a: seq<(string, string)>, b: seq<(string, string)>, c: seq<(string, string)>,
                     d: seq<(string, string)>, e: seq<(string, string)>)
    requires NoKey(q, "userId") && NoKey(a, "userId") && NoKey(b, "userId") && |c| <= 1 && forall k :: 0 <= k < |c| ==> c[k].0 == "userId"
    requires NoKey(d, "userId") && NoKey(e, "userId")
    ensures Lookup(q + a + b + c + d + e, "userId") == (if |c| == 1 then Some(c[0].1) else None)
  {
    NoKeyAppend(q, a, "userId");
    NoKeyAppend(q + a, b, "userId");
    NoKeyAppend(d, e, "userId");
    assert q + a + b + c + d + e == (q + a + b) + c + (d + e);
    LookupBetween(q + a + b, c, d + e, "userId");
  }

  lemma ActionTypeLookup(q: seq<(string, string)>, a: seq<(string, string)>, b: seq<(string, string)>, c: seq<(string, string)>,
                         d: seq<(string, string)>, e: seq<(string, string)>)
    requires NoKey(q, "actionType") && NoKey(a, "actionType") && NoKey(b, "actionType") && NoKey(c, "actionType")
    requires |d| <= 1 && (forall k :: 0 <= k < |d| ==> d[k].0 == "actionType") && NoKey(e, "actionType")
    ensures Lookup(q + a + b + c + d + e, "actionType") == (if |d| == 1 then Some(d[0].1) else None)
  {
    NoKeyAppend(q, a, "actionType");
    NoKeyAppend(q + a, b, "actionType");
    NoKeyAppend(q + a + b, c, "actionType");
    LookupBetween(q + a + b + c, d, e, "actionType");
  }

  lemma StatusLookup(q: seq<(string, string)>, a: seq<(string, string)>, b: seq<(string, string)>, c: seq<(string, string)>,
                     d: seq<(string, string)>, e: seq<(string, string)>)
    requires NoKey(q, "status") && NoKey(a, "status") && NoKey(b, "status") && NoKey(c, "status") && NoKey(d, "status")
    requires |e| <= 1 && forall k :: 0 <= k < |e| ==> e[k].0 == "status"
    ensures Lookup(q + a + b + c + d + e, "status") == (if |e| == 1 then Some(e[0].1) else None)
  {
    NoKeyAppend(q, a, "status");
    NoKeyAppend(q + a, b, "status");
    NoKeyAppend(q + a + b, c, "status");
    NoKeyAppend(q + a + b + c, d, "status");
    assert q + a + b + c + d + e == (q + a + b + c + d) + e + [];
    LookupBetween(q + a + b + c + d, e, [], "status");
  }
}
