/** The global error policy: which failures are worth retrying, the bounded
    exponential backoff around an operation, and the one notification (and,
    for an expired session, the logout) that `handleApiError` produces. The
    operation is the function `fn` from the attempt index (0 for the first
    call) to that call's outcome; the sleeps are returned as their lengths. */
module ErrorHandler {
  import opened Wrappers
  import opened Text
  import opened ApiTypes

  const MaxRetryAttempts := 3
  const RetryDelayMs := 1000

  const NetworkErrorMarker := "Network error"

  // ---------------------------------------------------------------- classification

  /** `isRetryableError(error)`: an Error mentioning "Network error", or a value
      carrying a `status` from 500 to 599. */
  predicate IsRetryableError(e: Thrown)
    ensures e.Error? && Contains(e.message, NetworkErrorMarker) ==> IsRetryableError(e)
    ensures !(e.Error? && Contains(e.message, NetworkErrorMarker)) ==>
      (IsRetryableError(e) <==> e.status.Some? && 500 <= e.status.value < 600)
  {
    (e.Error? && Contains(e.message, NetworkErrorMarker)) || (e.status.Some? && 500 <= e.status.value < 600)
  }

  /** An `AuthenticationError` or `AuthorizationError` instance. */
  predicate IsAccessError(e: Thrown) {
    e.Error? && (e.cls == AuthenticationError || e.cls == AuthorizationError)
  }

  /** `error instanceof Error ? error : new Error('Unknown error')`. */
  function AsError(e: Thrown): (r: Thrown)
    ensures r.Error?
    ensures e.Error? ==> r == e
    ensures e.NonError? ==> r == PlainError("Unknown error")
  {
    if e.Error? then e else PlainError("Unknown error")
  }

  // ---------------------------------------------------------------- handleApiError

  /** The single notification `handleApiError` shows (always of type 'error')
      and whether it logs out. */
  datatype Reaction = Reaction(message: string, logsOut: bool)

  const SessionExpiredMessage := "Your session has expired. Please log in again."
  const ForbiddenMessage := "You do not have permission to perform this action."
  const OfflineMessage := "Unable to connect to server. Please check your connection."
  const UnexpectedMessage := "An unexpected error occurred. Please try again."

  /** `handleApiError(error)`: authentication, then authorization, then network,
      then any other Error, then anything else. */
  function HandleApiError(e: Thrown): (r: Reaction)
    ensures r.logsOut <==> e.Error? && e.cls == AuthenticationError
    ensures e.Error? && e.cls == AuthenticationError ==> r.message == SessionExpiredMessage
    ensures e.Error? && e.cls == AuthorizationError ==> r.message == ForbiddenMessage
    ensures e.Error? && !IsAccessError(e) && Contains(e.message, NetworkErrorMarker) ==> r.message == OfflineMessage
    ensures e.Error? && !IsAccessError(e) && !Contains(e.message, NetworkErrorMarker) ==> r.message == e.message
    ensures e.NonError? ==> r.message == UnexpectedMessage
  {
    if e.Error? && e.cls == AuthenticationError then Reaction(SessionExpiredMessage, true)
    else if e.Error? && e.cls == AuthorizationError then Reaction(ForbiddenMessage, false)
    else if e.Error? && Contains(e.message, NetworkErrorMarker) then Reaction(OfflineMessage, false)
    else if e.Error? then Reaction(e.message, false)
    else Reaction(UnexpectedMessage, false)
  }

  // ---------------------------------------------------------------- retryWithBackoff

  function Pow2(k: nat): (p: nat)
    ensures p >= 1
  {
    if k == 0 then 1 else 2 * Pow2(k - 1)
  }

  /** A run of the backoff loop: its outcome, how many times it called `fn`,
      and the sleeps between the calls. */
  datatype Run<T> = Run(result: Result<T, Thrown>, calls: nat, delays: seq<int>)

  /** The loop from attempt number `attempt` (1-based) on. */
  function Attempts<T>(fn: nat -> Result<T, Thrown>, attempt: nat, maxAttempts: int, delayMs: int): (r: Run<T>)
    requires attempt >= 1
    decreases if attempt <= maxAttempts then maxAttempts - attempt + 1 else 0
  {
    if attempt > maxAttempts then Run(Failure(PlainError("Max retry attempts reached")), 0, [])
    else
      var outcome := fn(attempt - 1);
      if outcome.Success? then Run(outcome, 1, [])
      else if IsAccessError(outcome.error) then Run(Failure(outcome.error), 1, [])
      else if attempt == maxAttempts then Run(Failure(AsError(outcome.error)), 1, [])
      else
        var rest := Attempts(fn, attempt + 1, maxAttempts, delayMs);
        Run(rest.result, rest.calls + 1, [delayMs * Pow2(attempt - 1)] + rest.delays)
  }

  /** `retryWithBackoff(fn, maxAttempts, delayMs)`. */
  function RetryWithBackoff<T>(fn: nat -> Result<T, Thrown>, maxAttempts: int, delayMs: int): (r: Run<T>)
    ensures maxAttempts <= 0 ==> r == Run(Failure(PlainError("Max retry attempts reached")), 0, [])
    ensures maxAttempts >= 1 && fn(0).Success? ==> r == Run(fn(0), 1, [])
  {
    Attempts(fn, 1, maxAttempts, delayMs)
  }

  /** The loop as the source writes it: `lastError` is reassigned on each failure. */
  method RunRetryWithBackoff<T>(fn: nat -> Result<T, Thrown>, maxAttempts: int, delayMs: int)
    returns (result: Result<T, Thrown>, calls: nat, delays: seq<int>)
    ensures Run(result, calls, delays) == RetryWithBackoff(fn, maxAttempts, delayMs)
  {
    var lastError: Option<Thrown> := None;
    calls := 0;
    delays := [];
    var attempt := 1;
    while attempt <= maxAttempts
      invariant attempt >= 1 && calls == attempt - 1
      invariant attempt <= maxAttempts || attempt == 1
      invariant lastError.None? <==> attempt == 1
      invariant var whole := Attempts(fn, 1, maxAttempts, delayMs); var rest := Attempts(fn, attempt, maxAttempts, delayMs);
        whole.result == rest.result && whole.calls == calls + rest.calls && whole.delays == delays + rest.delays
      decreases maxAttempts - attempt + 1
    {
      var outcome := fn(attempt - 1);
      calls := calls + 1;
      if outcome.Success? {
        return outcome, calls, delays;
      }
      lastError := Some(AsError(outcome.error));
      if IsAccessError(outcome.error) {
        return Failure(outcome.error), calls, delays;
      }
      if attempt == maxAttempts {
        assert Attempts(fn, attempt, maxAttempts, delayMs) == Run(Failure(AsError(outcome.error)), 1, []);
        break;
      }
      delays := delays + [delayMs * Pow2(attempt - 1)];
      attempt := attempt + 1;
    }
    result := Failure(if lastError.Some? then lastError.value else PlainError("Max retry attempts reached"));
  }

  /** Bounds and delays of a run from `attempt`: at most `maxAttempts - attempt + 1`
      calls, at least one if any attempt is left, and before call number j (after
      the first) a sleep of delayMs·2^(attempt+j-2); none after the last call. */
  lemma {:induction false} AttemptsShape<T>(fn: nat -> Result<T, Thrown>, attempt: nat, maxAttempts: int, delayMs: int)
    requires attempt >= 1
    ensures var r := Attempts(fn, attempt, maxAttempts, delayMs);
      && (attempt > maxAttempts ==> r.calls == 0)
      && (attempt <= maxAttempts ==> 1 <= r.calls <= maxAttempts - attempt + 1 && |r.delays| == r.calls - 1)
      && (forall j :: 0 <= j < |r.delays| ==> r.delays[j] == delayMs * Pow2(attempt - 1 + j))
    decreases if attempt <= maxAttempts then maxAttempts - attempt + 1 else 0
  {
    if attempt <= maxAttempts {
      var outcome := fn(attempt - 1);
      if outcome.Failure? && !IsAccessError(outcome.error) && attempt != maxAttempts {
        AttemptsShape(fn, attempt + 1, maxAttempts, delayMs);
        var rest := Attempts(fn, attempt + 1, maxAttempts, delayMs);
        var r := Attempts(fn, attempt, maxAttempts, delayMs);
        assert r.delays == [delayMs * Pow2(attempt - 1)] + rest.delays;
        forall j | 0 < j < |r.delays| ensures r.delays[j] == delayMs * Pow2(attempt - 1 + j) {
          assert r.delays[j] == rest.delays[j - 1];
        }
      }
    }
  }

  /** `fn` is called at most `maxAttempts` times, never when `maxAttempts <= 0`
      (which fails with "Max retry attempts reached"), and the sleep before
      attempt k+1 is delayMs·2^(k−1). */
  lemma RetryBounds<T>(fn: nat -> Result<T, Thrown>, maxAttempts: int, delayMs: int)
    ensures var r := RetryWithBackoff(fn, maxAttempts, delayMs);
      && (maxAttempts <= 0 ==> r.calls == 0 && r.result == Failure(PlainError("Max retry attempts reached")))
      && (maxAttempts >= 1 ==> 1 <= r.calls <= maxAttempts && |r.delays| == r.calls - 1)
      && (forall k :: 0 <= k < |r.delays| ==> r.delays[k] == delayMs * Pow2(k))
  {
    AttemptsShape(fn, 1, maxAttempts, delayMs);
  }

  /** The outcome of a run from `attempt` is that of its last call: a success is
      returned as is, an access error is rethrown as is, any other failure
      ends the run only at the last attempt and is thrown as an Error. Every
      call before the last failed with a retryable kind of error. */
  lemma {:induction false} AttemptsOutcome<T>(fn: nat -> Result<T, Thrown>, attempt: nat, maxAttempts: int, delayMs: int)
    requires 1 <= attempt <= maxAttempts
    ensures var r := Attempts(fn, attempt, maxAttempts, delayMs); var last := fn(attempt + r.calls - 2);
      && (forall i :: attempt - 1 <= i < attempt + r.calls - 2 ==> fn(i).Failure? && !IsAccessError(fn(i).error))
      && (last.Success? ==> r.result == last)
      && (last.Failure? && IsAccessError(last.error) ==> r.result == last)
      && (last.Failure? && !IsAccessError(last.error) ==> r.result == Failure(AsError(last.error)) && attempt + r.calls - 1 == maxAttempts)
    decreases maxAttempts - attempt + 1
  {
    var outcome := fn(attempt - 1);
    if outcome.Failure? && !IsAccessError(outcome.error) && attempt != maxAttempts {
      AttemptsOutcome(fn, attempt + 1, maxAttempts, delayMs);
    }
  }

  /** The first success is returned, and no call follows it. */
  lemma FirstSuccessReturned<T>(fn: nat -> Result<T, Thrown>, maxAttempts: int, delayMs: int, k: nat)
    requires k < maxAttempts && fn(k).Success?
    requires forall i :: 0 <= i < k ==> fn(i).Failure? && !IsAccessError(fn(i).error)
    ensures RetryWithBackoff(fn, maxAttempts, delayMs).result == fn(k)
    ensures RetryWithBackoff(fn, maxAttempts, delayMs).calls == k + 1
  {
    AttemptsOutcome(fn, 1, maxAttempts, delayMs);
    AttemptsShape(fn, 1, maxAttempts, delayMs);
  }

  /** An access error on the first call is rethrown after that one call. */
  lemma AccessErrorStops<T>(fn: nat -> Result<T, Thrown>, maxAttempts: int, delayMs: int)
    requires maxAttempts >= 1 && fn(0).Failure? && IsAccessError(fn(0).error)
    ensures RetryWithBackoff(fn, maxAttempts, delayMs) == Run(fn(0), 1, [])
  {
  }
}
