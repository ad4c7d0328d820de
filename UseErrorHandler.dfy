/** The error-handling composable: a thrown value becomes an `Error`, its
    message is turned into one of five user-facing texts by case-sensitive
    keyword tests in a fixed order (or into a text naming the failed action),
    and exactly one error notification is shown. `String(err)` of a thrown
    non-Error is the parameter `rendered`. */
module UseErrorHandler {
  import opened Wrappers
  import opened Text
  import opened AuthTypes
  import opened ApiTypes
  import Notifications

  // Each text is written in two pieces, which lets the verifier read its first character.
  const NetworkMessage := "Network error." + " Please check your connection and try again."
  const AuthMessage := "Authentication error." + " Please log in again."
  const PermissionMessage := "You do not have permission" + " to perform this action."
  const ValidationMessage := "Invalid input." + " Please check your data and try again."
  const GenericMessage := "An unexpected error occurred." + " Please try again."

  predicate MentionsNetwork(m: string) {
    Contains(m, "fetch") || Contains(m, "network")
  }

  predicate MentionsAuth(m: string) {
    Contains(m, "auth") || Contains(m, "token")
  }

  predicate MentionsPermission(m: string) {
    Contains(m, "permission") || Contains(m, "forbidden")
  }

  predicate MentionsValidation(m: string) {
    Contains(m, "validation") || Contains(m, "invalid")
  }

  /** No keyword of any of the four groups occurs. */
  predicate Unrecognised(m: string) {
    !MentionsNetwork(m) && !MentionsAuth(m) && !MentionsPermission(m) && !MentionsValidation(m)
  }

  /** `Failed to ${action}. Please try again.` */
  function ActionMessage(action: string): (s: string)
    ensures |s| > 10 && s[0] == 'F'
  {
    "Failed to " + action + ". Please try again."
  }

  /** `getUserFriendlyMessage(error, context)` on the error's message and the
      context's `action`: each fixed text is returned exactly when its group is
      the first whose keywords occur; with none, the action text when an action
      is given, the generic text otherwise. */
  function GetUserFriendlyMessage(message: string, action: Option<string>): (r: string)
    ensures r == NetworkMessage <==> MentionsNetwork(message)
    ensures r == AuthMessage <==> !MentionsNetwork(message) && MentionsAuth(message)
    ensures r == PermissionMessage <==> !MentionsNetwork(message) && !MentionsAuth(message) && MentionsPermission(message)
    ensures r == ValidationMessage <==>
      (!MentionsNetwork(message) && !MentionsAuth(message) && !MentionsPermission(message) && MentionsValidation(message))
    ensures r == GenericMessage <==> Unrecognised(message) && !Present(action)
    ensures Unrecognised(message) && Present(action) ==> r == ActionMessage(action.value)
  {
    if MentionsNetwork(message) then NetworkMessage
    else if MentionsAuth(message) then AuthMessage
    else if MentionsPermission(message) then PermissionMessage
    else if MentionsValidation(message) then ValidationMessage
    else if Present(action) then
      var s := ActionMessage(action.value);
      assert s[0] != NetworkMessage[0] && s[0] != PermissionMessage[0] && s[0] != ValidationMessage[0] && s[0] != GenericMessage[0];
      s
    else GenericMessage
  }

  /** `err instanceof Error ? err : new Error(String(err))`. */
  function Normalise(err: Thrown, rendered: string): (e: Thrown)
    ensures e.Error?
    ensures err.Error? ==> e == err
    ensures err.NonError? ==> e == PlainError(rendered)
  {
    if err.Error? then err else PlainError(rendered)
  }

  /** The text `handleError(err, context)` shows. */
  function UserMessage(err: Thrown, action: Option<string>, rendered: string): string {
    GetUserFriendlyMessage(Normalise(err, rendered).message, action)
  }

  /** A browser's failed `fetch` ("Failed to fetch") reads as a network error,
      whatever the action, since the network group is tested first. */
  lemma FailedFetchIsNetwork(action: Option<string>)
    ensures UserMessage(Error(TypeError, "TypeError", "Failed to fetch", None), action, "") == NetworkMessage
  {
    assert OccursAt("Failed to fetch", "fetch", 10);
    ContainsAt("Failed to fetch", "fetch");
  }

  /** A thrown non-Error is judged by its string form. */
  lemma NonErrorJudgedByRendering(status: Option<int>, action: Option<string>, rendered: string)
    ensures UserMessage(NonError(status), action, rendered) == GetUserFriendlyMessage(rendered, action)
  {
  }

  /** `handleError(err, context)`: one error notification with that text,
      under the next id, with the default duration. */
  method HandleError(center: Notifications.Center, err: Thrown, action: Option<string>, rendered: string)
    requires center.Valid()
    modifies center
    ensures center.Valid()
    ensures center.counter == old(center.counter) + 1
    ensures center.notifications == old(center.notifications) +
      [Notifications.Notification(Notifications.IdOf(center.counter), Notifications.Error,
        UserMessage(err, action, rendered), Notifications.DefaultDuration, true)]
    ensures center.timers == old(center.timers) + [Notifications.Timer(Notifications.IdOf(center.counter), Notifications.DefaultDuration)]
  {
    var error := Normalise(err, rendered);
    var userMessage := GetUserFriendlyMessage(error.message, action);
    var _ := center.ShowKind(userMessage, Notifications.Error, None);
  }

  /** `withErrorHandling(operation, context)` on the operation's outcome: the
      value on success with nothing shown; on failure null, after one
      notification as `handleError` shows it. */
  method WithErrorHandling<T>(center: Notifications.Center, outcome: Result<T, Thrown>, action: Option<string>, rendered: string)
    returns (r: Option<T>)
    requires center.Valid()
    modifies center
    ensures center.Valid()
    ensures outcome.Success? ==> r == Some(outcome.value)
    ensures outcome.Success? ==>
      (center.notifications == old(center.notifications) && center.counter == old(center.counter) && center.timers == old(center.timers))
    ensures outcome.Failure? ==> r.None? && center.counter == old(center.counter) + 1
    ensures outcome.Failure? ==>
      (center.notifications == old(center.notifications) +
        [Notifications.Notification(Notifications.IdOf(center.counter), Notifications.Error,
          UserMessage(outcome.error, action, rendered), Notifications.DefaultDuration, true)]
       && center.timers == old(center.timers) + [Notifications.Timer(Notifications.IdOf(center.counter), Notifications.DefaultDuration)])
  {
    if outcome.Success? {
      return Some(outcome.value);
    }
    HandleError(center, outcome.error, action, rendered);
    r := None;
  }
}
