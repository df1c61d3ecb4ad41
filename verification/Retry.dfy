/** Retrying one endpoint's call with a doubling back-off and a wall-clock budget. */
module Retry {
  const MAX_RETRIES: nat := 3
  const MAX_BACKOFF_SECONDS: real := 5.0

  datatype CallError = Quota | Connection | CallTimeout | Fatal

  /** One attempt: what came back, and for a failure the time since the first attempt began. */
  datatype Attempt<T> = Returned(value: T) | Threw(error: CallError, elapsed: real)

  datatype Verdict<T> = Answer(value: T) | TimedOut | Reraised(error: CallError)

  predicate Retryable(e: CallError) { e != Fatal }

  /** The pause after attempt `k`. */
  function Delay(base: real, k: nat): real { if k == 0 then base else 2.0 * Delay(base, k - 1) }

  /** All pauses before attempt `k`. */
  function Slept(base: real, k: nat): real { if k == 0 then 0.0 else Slept(base, k - 1) + Delay(base, k - 1) }

  /** Attempt `k` ends the call: it succeeded, or may not be repeated, or the next pause would not fit. */
  predicate Ends<T>(base: real, attempts: seq<Attempt<T>>, k: nat)
    requires k < |attempts|
  {
    match attempts[k]
    case Returned(_) => true
    case Threw(e, elapsed) => !Retryable(e) || k + 1 >= MAX_RETRIES || elapsed + Delay(base, k) > MAX_BACKOFF_SECONDS
  }

  function VerdictOf<T>(a: Attempt<T>): Verdict<T> {
    match a
    case Returned(v) => Answer(v)
    case Threw(e, elapsed) => if e == CallTimeout || elapsed >= MAX_BACKOFF_SECONDS then TimedOut else Reraised(e)
  }

  /** `_retry_call`: the verdict is that of the first attempt that ends the call. The statement after
      the loop is never reached. */
  method RetryCall<T>(base: real, attempts: seq<Attempt<T>>) returns (v: Verdict<T>, used: nat)
    requires |attempts| == MAX_RETRIES
    ensures 1 <= used <= MAX_RETRIES
    ensures Ends(base, attempts, used - 1) && v == VerdictOf(attempts[used - 1])
    ensures forall k :: 0 <= k < used - 1 ==> !Ends(base, attempts, k)
  {
    v, used := TimedOut, MAX_RETRIES;
    var delay := base;
    for attempt := 0 to MAX_RETRIES
      invariant attempt != MAX_RETRIES
      invariant delay == Delay(base, attempt)
      invariant forall k :: 0 <= k < attempt ==> !Ends(base, attempts, k)
    {
      match attempts[attempt] {
        case Returned(value) =>
          return Answer(value), attempt + 1;
        case Threw(e, elapsed) =>
          if !Retryable(e) || attempt + 1 >= MAX_RETRIES || elapsed + delay > MAX_BACKOFF_SECONDS {
            return if e == CallTimeout || elapsed >= MAX_BACKOFF_SECONDS then TimedOut else Reraised(e), attempt + 1;
          }
      }
      delay := delay * 2.0;
    }
    assert false;
  }

  /** The clock never shows less than the pauses taken. */
  ghost predicate ClockCounts<T>(base: real, attempts: seq<Attempt<T>>) {
    forall k :: 0 <= k < |attempts| && attempts[k].Threw? ==> attempts[k].elapsed >= Slept(base, k)
  }

  /** So however the attempts go, the pauses together never exceed the budget. */
  lemma PausesFitTheBudget<T>(base: real, attempts: seq<Attempt<T>>, used: nat)
    requires ClockCounts(base, attempts) && 1 <= used <= |attempts|
    requires forall k :: 0 <= k < used - 1 ==> !Ends(base, attempts, k)
    ensures Slept(base, used - 1) <= MAX_BACKOFF_SECONDS
  {
    if used > 1 {
      assert !Ends(base, attempts, used - 2);
    }
  }

  // ---------------------------------------------------------------- which errors are repeated

  /** The three attempts one by one: an error outside the three retryable kinds is never repeated, a third
      attempt never followed, and an attempt is followed only if the pause after it, which doubles each time,
      still ends within five seconds. */
  lemma AttemptEndsExactlyWhen<T>(base: real, attempts: seq<Attempt<T>>, k: nat)
    requires k < 3 && k < |attempts|
    ensures var pause := if k == 0 then base else if k == 1 then 2.0 * base else 4.0 * base;
      Ends(base, attempts, k) <==>
        match attempts[k]
        case Returned(_) => true
        case Threw(e, elapsed) => e !in {Quota, Connection, CallTimeout} || k == 2 || elapsed + pause > 5.0
  {
    assert Delay(base, 1) == 2.0 * base && Delay(base, 2) == 2.0 * Delay(base, 1);
  }

  /** How an attempt that ends the call ends it: a time-out, and any error five seconds or more after the start,
      is reported as a time-out; any other error is raised as it is. */
  lemma EndsAs<T>(a: Attempt<T>)
    ensures a.Returned? ==> VerdictOf(a) == Answer(a.value)
    ensures a.Threw? && (a.error == CallTimeout || a.elapsed >= 5.0) ==> VerdictOf(a) == TimedOut
    ensures a.Threw? && a.error in {Quota, Connection, Fatal} && a.elapsed < 5.0 ==> VerdictOf(a) == Reraised(a.error)
  {
  }
}
