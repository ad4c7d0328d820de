/** The user-management store: the current page of users, the paging state
    and the search query. Each action runs its service call to completion
    (the call's outcome is a parameter), copies the response into the state
    or records the failure, and rethrows. The `loading` flag is set for the
    duration of an action and is false again when it returns. The reaction
    `handleApiError` produces is returned alongside. */
module UserStore {
  import opened Wrappers
  import opened Lists
  import opened ApiTypes
  import opened UserService
  import ErrorHandler
  import Notifications

  /** `Math.ceil(a / b)` on whole numbers. None when b is 0, where the quotient
      is not a finite number. */
  function CeilDiv(a: int, b: int): (r: Option<int>)
    ensures r.None? <==> b == 0
    ensures b > 0 ==> (r.value - 1) * b < a <= r.value * b
    ensures b < 0 ==> r.value * b <= a < (r.value - 1) * b
  {
    if b > 0 then Some(-((-a) / b))
    else if b < 0 then Some(-(a / (-b)))
    else None
  }

  /** For a positive page size, the page count is the least number of pages
      that holds every entry. */
  lemma PagesCoverAll(a: int, b: int, k: int)
    requires b > 0 && a <= k * b
    ensures CeilDiv(a, b).value <= k
  {
  }

  /** `err instanceof Error ? err.message : fallback`. */
  function FailureText(e: Thrown, fallback: string): (m: string)
    ensures e.Error? ==> m == e.message
    ensures e.NonError? ==> m == fallback
  {
    if e.Error? then e.message else fallback
  }

  /** The list after the first user with id `id` is replaced by `u`; unchanged
      when no user has that id. */
  function Replaced(users: seq<User>, id: string, u: User): (r: seq<User>)
    ensures |r| == |users|
    ensures (forall k :: 0 <= k < |users| ==> users[k].id != id) ==> r == users
    ensures (exists k :: 0 <= k < |users| && users[k].id == id) ==>
      exists i :: 0 <= i < |users| && users[i].id == id && (forall k :: 0 <= k < i ==> users[k].id != id) && r == users[i := u]
  {
    var i := FirstIndex(users, (v: User) => v.id == id);
    if i == -1 then users else users[i := u]
  }

  /** Only the first user with the id is replaced: every earlier entry and
      every later one keeps its place, including later users with the same id. */
  lemma ReplacesFirstOnly(users: seq<User>, id: string, u: User, i: nat)
    requires i < |users| && users[i].id == id && forall k :: 0 <= k < i ==> users[k].id != id
    ensures Replaced(users, id, u) == users[i := u]
    ensures forall k :: 0 <= k < |users| && k != i ==> Replaced(users, id, u)[k] == users[k]
  {
    var r := Replaced(users, id, u);
    var j :| 0 <= j < |users| && users[j].id == id && (forall k :: 0 <= k < j ==> users[k].id != id) && r == users[j := u];
    assert j == i;
  }

  const FetchFallback := "Failed to fetch users"
  const SearchFallback := "Failed to search users"
  const UpdateFallback := "Failed to update user roles"
  const RolesUpdatedMessage := "User roles updated successfully"

  class Store {
    var users: seq<User>
    var totalCount: int
    var currentPage: int
    var pageSize: int
    var searchQuery: string
    var loading: bool
    var error: Option<string>

    constructor()
      ensures users == [] && totalCount == 0 && currentPage == 1 && pageSize == 10
      ensures searchQuery == "" && !loading && error.None?
    {
      users := [];
      totalCount := 0;
      currentPage := 1;
      pageSize := 10;
      searchQuery := "";
      loading := false;
      error := None;
    }

    /** The `totalPages` getter. */
    function TotalPages(): (pages: Option<int>)
      reads this
      ensures pages.None? <==> pageSize == 0
      ensures pageSize > 0 ==> (pages.value - 1) * pageSize < totalCount <= pages.value * pageSize
    {
      CeilDiv(totalCount, pageSize)
    }

    /** `fetchUsers(page)`, given the outcome of the `getUsers` call it makes. */
    method FetchUsers(page: int, reply: Result<Page<User>, Thrown>)
      returns (call: Call, r: Outcome<Thrown>, reaction: Option<ErrorHandler.Reaction>)
      modifies this
      ensures call == GetUsers(PaginationParams(page, old(pageSize), None, None))
      ensures !loading && pageSize == old(pageSize) && searchQuery == old(searchQuery)
      ensures reply.Success? ==>
        (&& users == reply.value.data && totalCount == reply.value.total && currentPage == reply.value.page
         && error.None? && r.Pass? && reaction.None?)
      ensures reply.Failure? ==>
        (&& users == old(users) && totalCount == old(totalCount) && currentPage == old(currentPage)
         && error == Some(FailureText(reply.error, FetchFallback)) && r == Fail(reply.error)
         && reaction == Some(ErrorHandler.HandleApiError(reply.error)))
    {
      loading := true;
      error := None;
      call := GetUsers(PaginationParams(page, pageSize, None, None));
      if reply.Success? {
        users := reply.value.data;
        totalCount := reply.value.total;
        currentPage := reply.value.page;
        r, reaction := Pass, None;
      } else {
        error := Some(FailureText(reply.error, FetchFallback));
        reaction := Some(ErrorHandler.HandleApiError(reply.error));
        r := Fail(reply.error);
      }
      loading := false;
    }

    /** `searchUsers(query)`: the query is recorded whatever the outcome, and a
        success shows page 1 of the results. */
    method SearchUsers(query: string, reply: Result<Page<User>, Thrown>)
      returns (call: Call, r: Outcome<Thrown>, reaction: Option<ErrorHandler.Reaction>)
      modifies this
      ensures call == UserService.SearchUsers(query, PaginationParams(1, old(pageSize), None, None))
      ensures !loading && pageSize == old(pageSize) && searchQuery == query
      ensures reply.Success? ==>
        (&& users == reply.value.data && totalCount == reply.value.total && currentPage == 1
         && error.None? && r.Pass? && reaction.None?)
      ensures reply.Failure? ==>
        (&& users == old(users) && totalCount == old(totalCount) && currentPage == old(currentPage)
         && error == Some(FailureText(reply.error, SearchFallback)) && r == Fail(reply.error)
         && reaction == Some(ErrorHandler.HandleApiError(reply.error)))
    {
      loading := true;
      error := None;
      searchQuery := query;
      call := UserService.SearchUsers(query, PaginationParams(1, pageSize, None, None));
      if reply.Success? {
        users := reply.value.data;
        totalCount := reply.value.total;
        currentPage := 1;
        r, reaction := Pass, None;
      } else {
        error := Some(FailureText(reply.error, SearchFallback));
        reaction := Some(ErrorHandler.HandleApiError(reply.error));
        r := Fail(reply.error);
      }
      loading := false;
    }

    /** `updateUserRoles(userId, roles)`: on success the first listed user with
        that id is replaced in place by the updated user and a success
        notification is shown; the paging state never changes. */
    method UpdateUserRoles(userId: string, roles: seq<string>, reply: Result<User, Thrown>, center: Notifications.Center)
      returns (call: Call, r: Outcome<Thrown>, reaction: Option<ErrorHandler.Reaction>)
      requires center.Valid()
      modifies this, center
      ensures center.Valid()
      ensures call == UserService.UpdateUserRoles(userId, roles)
      ensures !loading && pageSize == old(pageSize) && searchQuery == old(searchQuery)
      ensures totalCount == old(totalCount) && currentPage == old(currentPage)
      ensures reply.Success? ==>
        (&& users == Replaced(old(users), userId, reply.value) && error.None? && r.Pass? && reaction.None?
         && center.counter == old(center.counter) + 1
         && center.notifications == old(center.notifications) +
            [Notifications.Notification(Notifications.IdOf(center.counter), Notifications.Success,
              RolesUpdatedMessage, Notifications.DefaultDuration, true)]
         && center.timers == old(center.timers) + [Notifications.Timer(Notifications.IdOf(center.counter), Notifications.DefaultDuration)])
      ensures reply.Failure? ==>
        (&& users == old(users) && error == Some(FailureText(reply.error, UpdateFallback)) && r == Fail(reply.error)
         && reaction == Some(ErrorHandler.HandleApiError(reply.error))
         && center.notifications == old(center.notifications) && center.counter == old(center.counter)
         && center.timers == old(center.timers))
    {
      loading := true;
      error := None;
      call := UserService.UpdateUserRoles(userId, roles);
      if reply.Success? {
        var index := FindIndex(users, (v: User) => v.id == userId);
        if index != -1 {
          users := users[index := reply.value];
        }
        var _ := center.Show(RolesUpdatedMessage, Notifications.Success, Notifications.DefaultDuration, true);
        r, reaction := Pass, None;
      } else {
        error := Some(FailureText(reply.error, UpdateFallback));
        reaction := Some(ErrorHandler.HandleApiError(reply.error));
        r := Fail(reply.error);
      }
      loading := false;
    }

    /** `setPageSize(size)`: the size is taken and the page resets to 1. */
    method SetPageSize(size: int)
      modifies this
      ensures pageSize == size && currentPage == 1
      ensures users == old(users) && totalCount == old(totalCount) && searchQuery == old(searchQuery)
      ensures loading == old(loading) && error == old(error)
    {
      pageSize := size;
      currentPage := 1;
    }

    /** `clearSearch()`: the query is emptied and page 1 fetched; the fetch is
        not awaited, so its failure reaches no caller. */
    method ClearSearch(reply: Result<Page<User>, Thrown>)
      returns (call: Call, reaction: Option<ErrorHandler.Reaction>)
      modifies this
      ensures searchQuery == "" && !loading && pageSize == old(pageSize)
      ensures call == GetUsers(PaginationParams(1, old(pageSize), None, None))
      ensures reply.Success? ==>
        (&& users == reply.value.data && totalCount == reply.value.total && currentPage == reply.value.page
         && error.None? && reaction.None?)
      ensures reply.Failure? ==>
        (&& users == old(users) && totalCount == old(totalCount) && currentPage == old(currentPage)
         && error == Some(FailureText(reply.error, FetchFallback))
         && reaction == Some(ErrorHandler.HandleApiError(reply.error)))
    {
      searchQuery := "";
      var dropped;
      call, dropped, reaction := FetchUsers(1, reply);
    }
  }
}
