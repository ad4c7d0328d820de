/** The activity-log store: the current page of log entries, the paging state
    and the active filters. `fetchLogs` always asks for the newest entries
    first; changing the filters fetches page 1 again. As in the user store,
    the service call's outcome is a parameter and the reaction
    `handleApiError` produces is returned. */
module ActivityStore {
  import opened Wrappers
  import opened Json
  import opened ApiTypes
  import opened UserService
  import opened ActivityService
  import UserStore
  import ErrorHandler

  /** An audit log entry as the API returns it. */
  datatype ActivityLog = ActivityLog(
    id: string,
    userId: string,
    userName: string,
    action: string,
    resourceType: string,
    resourceId: Option<string>,
    status: string,
    timestamp: string,
    ipAddress: string,
    userAgent: string,
    details: Option<Json>)

  const FetchFallback := "Failed to fetch activity logs"

  /** The parameters `fetchLogs(page)` sends: the newest entries first, the
      current page size and the current filters. */
  function LogRequest(page: int, pageSize: int, filters: ActivityFilters): (p: ActivityQueryParams)
    ensures p.sortBy == Some("timestamp") && p.sortOrder == Some("desc")
    ensures p.page == page && p.pageSize == pageSize && p.filters == filters
  {
    ActivityQueryParams(page, pageSize, Some("timestamp"), Some("desc"), filters)
  }

  /** Read back from the query, a fetch always sorts by timestamp, descending. */
  lemma FetchSortsNewestFirst(page: int, pageSize: int, filters: ActivityFilters)
    ensures Lists.Lookup(LogQuery(LogRequest(page, pageSize, filters)), "sortBy") == Some("timestamp")
    ensures Lists.Lookup(LogQuery(LogRequest(page, pageSize, filters)), "sortOrder") == Some("desc")
  {
    var p := LogRequest(page, pageSize, filters);
    PagingFirst(p);
    PageQueryLookups(Paging(p));
    var rest := LogQuery(p)[|PageQuery(Paging(p))|..];
    assert LogQuery(p) == PageQuery(Paging(p)) + rest;
    Lists.LookupFront(PageQuery(Paging(p)), rest, "sortBy");
    Lists.LookupFront(PageQuery(Paging(p)), rest, "sortOrder");
  }

  class Store {
    var logs: seq<ActivityLog>
    var totalCount: int
    var currentPage: int
    var pageSize: int
    var filters: ActivityFilters
    var loading: bool
    var error: Option<string>

    constructor()
      ensures logs == [] && totalCount == 0 && currentPage == 1 && pageSize == 10
      ensures filters == NoFilters && !loading && error.None?
    {
      logs := [];
      totalCount := 0;
      currentPage := 1;
      pageSize := 10;
      filters := NoFilters;
      loading := false;
      error := None;
    }

    /** The `totalPages` getter. */
    function TotalPages(): (pages: Option<int>)
      reads this
      ensures pages.None? <==> pageSize == 0
      ensures pageSize > 0 ==> (pages.value - 1) * pageSize < totalCount <= pages.value * pageSize
    {
      UserStore.CeilDiv(totalCount, pageSize)
    }

    /** `fetchLogs(page)`, given the outcome of the `getLogs` call it makes. */
    method FetchLogs(page: int, reply: Result<Page<ActivityLog>, Thrown>)
      returns (call: Call, r: Outcome<Thrown>, reaction: Option<ErrorHandler.Reaction>)
      modifies this
      ensures call == Call("GET", "/activity/logs", LogQuery(LogRequest(page, old(pageSize), old(filters))), None)
      ensures !loading && pageSize == old(pageSize) && filters == old(filters)
      ensures reply.Success? ==>
        (&& logs == reply.value.data && totalCount == reply.value.total && currentPage == reply.value.page
         && error.None? && r.Pass? && reaction.None?)
      ensures reply.Failure? ==>
        (&& logs == old(logs) && totalCount == old(totalCount) && currentPage == old(currentPage)
         && error == Some(UserStore.FailureText(reply.error, FetchFallback)) && r == Fail(reply.error)
         && reaction == Some(ErrorHandler.HandleApiError(reply.error)))
    {
      loading := true;
      error := None;
      call := GetLogs(LogRequest(page, pageSize, filters));
      if reply.Success? {
        logs := reply.value.data;
        totalCount := reply.value.total;
        currentPage := reply.value.page;
        r, reaction := Pass, None;
      } else {
        error := Some(UserStore.FailureText(reply.error, FetchFallback));
        reaction := Some(ErrorHandler.HandleApiError(reply.error));
        r := Fail(reply.error);
      }
      loading := false;
    }

    /** `applyFilters(newFilters)`: the filters are replaced and page 1 is
        fetched with them; a failure is rethrown to the caller. */
    method ApplyFilters(newFilters: ActivityFilters, reply: Result<Page<ActivityLog>, Thrown>)
      returns (call: Call, r: Outcome<Thrown>, reaction: Option<ErrorHandler.Reaction>)
      modifies this
      ensures filters == newFilters && !loading && pageSize == old(pageSize)
      ensures call == Call("GET", "/activity/logs", LogQuery(LogRequest(1, old(pageSize), newFilters)), None)
      ensures reply.Success? ==>
        (&& logs == reply.value.data && totalCount == reply.value.total && currentPage == reply.value.page
         && error.None? && r.Pass? && reaction.None?)
      ensures reply.Failure? ==>
        (&& logs == old(logs) && totalCount == old(totalCount) && currentPage == old(currentPage)
         && error == Some(UserStore.FailureText(reply.error, FetchFallback)) && r == Fail(reply.error)
         && reaction == Some(ErrorHandler.HandleApiError(reply.error)))
    {
      filters := newFilters;
      call, r, reaction := FetchLogs(1, reply);
    }

    /** `clearFilters()`: the filters are emptied and page 1 fetched; the fetch
        is not awaited, so its failure reaches no caller. */
    method ClearFilters(reply: Result<Page<ActivityLog>, Thrown>)
      returns (call: Call, reaction: Option<ErrorHandler.Reaction>)
      modifies this
      ensures filters == NoFilters && !loading && pageSize == old(pageSize)
      ensures call == Call("GET", "/activity/logs", PageQuery(PaginationParams(1, old(pageSize), Some("timestamp"), Some("desc"))), None)
      ensures reply.Success? ==>
        (&& logs == reply.value.data && totalCount == reply.value.total && currentPage == reply.value.page
         && error.None? && reaction.None?)
      ensures reply.Failure? ==>
        (&& logs == old(logs) && totalCount == old(totalCount) && currentPage == old(currentPage)
         && error == Some(UserStore.FailureText(reply.error, FetchFallback))
         && reaction == Some(ErrorHandler.HandleApiError(reply.error)))
    {
      filters := NoFilters;
      var dropped;
      call, dropped, reaction := FetchLogs(1, reply);
      EmptyFiltersOnlyPaging(LogRequest(1, old(pageSize), NoFilters));
    }

    /** `setPageSize(size)`: the size is taken and the page resets to 1. */
    method SetPageSize(size: int)
      modifies this
      ensures pageSize == size && currentPage == 1
      ensures logs == old(logs) && totalCount == old(totalCount) && filters == old(filters)
      ensures loading == old(loading) && error == old(error)
    {
      pageSize := size;
      currentPage := 1;
    }
  }
}
