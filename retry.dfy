/**
 * Retrying a Gemini call with exponential backoff. The three services share
 * the same loop; the context-tree pipeline does not retry invalid-argument
 * errors, the analysis and agent services do.
 */
module Retry {
  import opened Wrappers

  /** How many times a call is attempted. */
  const MaxRetries: nat := 3
  /** The first backoff delay, in seconds. */
  const BaseDelay: nat := 1

  /** The kinds of failure the client library reports. */
  datatype ErrorKind =
    | ResourceExhausted
    | DeadlineExceeded
    | ServiceUnavailable
    | InvalidArgument
    | OtherError

  datatype ApiError = ApiError(kind: ErrorKind, message: string)

  /** What one attempt of the call did: returned a value or raised. */
  datatype Outcome<T> = Returned(value: T) | Raised(error: ApiError)

  /** Errors that lead to another attempt. */
  predicate Retryable(kind: ErrorKind, retryInvalidArgument: bool) {
    kind == ResourceExhausted || kind == DeadlineExceeded || kind == ServiceUnavailable
    || (retryInvalidArgument && kind == InvalidArgument)
  }

  predicate RetryableFailure<T>(o: Outcome<T>, retryInvalidArgument: bool) {
    o.Raised? && Retryable(o.error.kind, retryInvalidArgument)
  }

  function Pow2(n: nat): (p: nat)
    ensures p >= 1
  {
    if n == 0 then 1 else 2 * Pow2(n - 1)
  }

  /** The delay slept after a retryable failure of attempt `attempt`: `BASE_DELAY * 2 ** attempt`. */
  function Delay(attempt: nat): nat {
    BaseDelay * Pow2(attempt)
  }

  /** The delays of the first `n` retries. */
  function Delays(n: nat): (d: seq<nat>)
    ensures |d| == n && forall i :: 0 <= i < n ==> d[i] == Delay(i)
  {
    seq(n, i requires 0 <= i < n => Delay(i))
  }

  /** The first attempt at or after `from` that does not end in a retryable failure, or `MaxRetries`. */
  function FirstStop<T>(call: nat -> Outcome<T>, retryInvalidArgument: bool, from: nat): (k: nat)
    requires from <= MaxRetries
    ensures from <= k <= MaxRetries
    ensures forall j :: from <= j < k ==> RetryableFailure(call(j), retryInvalidArgument)
    ensures k < MaxRetries ==> !RetryableFailure(call(k), retryInvalidArgument)
    decreases MaxRetries - from
  {
    if from == MaxRetries then MaxRetries
    else if RetryableFailure(call(from), retryInvalidArgument) then FirstStop(call, retryInvalidArgument, from + 1)
    else from
  }

  /**
   * The result of the retry loop: the first value returned, the first error
   * that is not retried, or, when every attempt failed in a retryable way,
   * the last of those errors.
   */
  function RetryOutcome<T>(call: nat -> Outcome<T>, retryInvalidArgument: bool): Result<T, ApiError> {
    var k := FirstStop(call, retryInvalidArgument, 0);
    if k == MaxRetries then Failure(call(MaxRetries - 1).error)
    else match call(k)
      case Returned(v) => Success(v)
      case Raised(e) => Failure(e)
  }

  /** The delays slept: one per retryable failure, doubling each time. */
  function SleepPlan<T>(call: nat -> Outcome<T>, retryInvalidArgument: bool): seq<nat> {
    Delays(FirstStop(call, retryInvalidArgument, 0))
  }

  /**
   * `_retry_with_backoff`: attempt the call up to three times, sleeping
   * `BASE_DELAY * 2 ** attempt` after each retryable failure (the last one
   * included), re-raising any other error at once.
   */
  method RetryWithBackoff<T>(call: nat -> Outcome<T>, retryInvalidArgument: bool)
    returns (r: Result<T, ApiError>, sleeps: seq<nat>)
    ensures r == RetryOutcome(call, retryInvalidArgument)
    ensures sleeps == SleepPlan(call, retryInvalidArgument)
  {
    var lastError: Option<ApiError> := None;
    sleeps := [];
    var attempt := 0;
    while attempt < MaxRetries
      invariant 0 <= attempt <= MaxRetries
      invariant forall j :: 0 <= j < attempt ==> RetryableFailure(call(j), retryInvalidArgument)
      invariant attempt > 0 ==> lastError == Some(call(attempt - 1).error)
      invariant sleeps == Delays(attempt)
    {
      match call(attempt) {
        case Returned(v) =>
          r := Success(v);
          return;
        case Raised(e) =>
          if !Retryable(e.kind, retryInvalidArgument) {
            r := Failure(e);
            return;
          }
          lastError := Some(e);
          sleeps := sleeps + [Delay(attempt)];
      }
      attempt := attempt + 1;
    }
    r := Failure(lastError.value);
  }

  /** The call succeeds exactly when some attempt returns after nothing but retryable failures. */
  lemma RetrySucceedsIff<T>(call: nat -> Outcome<T>, retryInvalidArgument: bool)
    ensures RetryOutcome(call, retryInvalidArgument).Success? <==>
      exists i :: 0 <= i < MaxRetries && call(i).Returned?
        && forall j :: 0 <= j < i ==> RetryableFailure(call(j), retryInvalidArgument)
    ensures RetryOutcome(call, retryInvalidArgument).Success? ==>
      exists i :: 0 <= i < MaxRetries && call(i) == Returned(RetryOutcome(call, retryInvalidArgument).value)
  {
    var k := FirstStop(call, retryInvalidArgument, 0);
    if exists i :: 0 <= i < MaxRetries && call(i).Returned?
        && forall j :: 0 <= j < i ==> RetryableFailure(call(j), retryInvalidArgument) {
      var i :| 0 <= i < MaxRetries && call(i).Returned?
        && forall j :: 0 <= j < i ==> RetryableFailure(call(j), retryInvalidArgument);
      assert k == i;
    }
  }

  /** A failure that is not retried is raised on the spot, with no sleep. */
  lemma NonRetryableFailsAtOnce<T>(call: nat -> Outcome<T>, retryInvalidArgument: bool)
    requires call(0).Raised? && !Retryable(call(0).error.kind, retryInvalidArgument)
    ensures RetryOutcome(call, retryInvalidArgument) == Failure(call(0).error)
    ensures SleepPlan(call, retryInvalidArgument) == []
  {
  }

  /** Three retryable failures cost three sleeps of 1, 2 and 4 seconds and raise the last error. */
  lemma ExhaustedRetries<T>(call: nat -> Outcome<T>, retryInvalidArgument: bool)
    requires RetryableFailure(call(0), retryInvalidArgument) && RetryableFailure(call(1), retryInvalidArgument)
    requires RetryableFailure(call(2), retryInvalidArgument)
    ensures RetryOutcome(call, retryInvalidArgument) == Failure(call(2).error)
    ensures SleepPlan(call, retryInvalidArgument) == [1, 2, 4]
  {
    var k := FirstStop(call, retryInvalidArgument, 0);
    assert k == MaxRetries;
    assert Delay(1) == 2 && Delay(2) == 4;
  }

  /** The two retry policies agree on any run in which no attempt raises an invalid-argument error. */
  lemma PoliciesAgreeWithoutInvalidArgument<T>(call: nat -> Outcome<T>)
    requires forall j :: 0 <= j < MaxRetries ==> !(call(j).Raised? && call(j).error.kind == InvalidArgument)
    ensures RetryOutcome(call, true) == RetryOutcome(call, false)
    ensures SleepPlan(call, true) == SleepPlan(call, false)
  {
    var a := FirstStop(call, true, 0);
    var b := FirstStop(call, false, 0);
    assert a == b;
  }
}
