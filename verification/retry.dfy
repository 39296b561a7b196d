/**
 * `fetchWithRetry` (src/lib/ingest/index.ts): call an operation up to
 * `attempts` times, sleeping `backoffMs * 2^i` after the i-th failure, and
 * rethrow the last error.  The operation is given as the outcome of its i-th
 * call; the sleeps are recorded instead of performed.
 */
module Retrying {
  import opened Wrappers

  function Pow2(i: nat): (r: nat)
    ensures r >= 1
  {
    if i == 0 then 1 else 2 * Pow2(i - 1)
  }

  /** A finished run: its result (the error None when nothing was called), the calls made, the sleeps taken. */
  datatype RetryRun<+T, +E> = RetryRun(result: Result<T, Option<E>>, calls: nat, delays: seq<int>)

  /** The run from call `i` on, `lastErr` being the error of call `i - 1`. */
  function RetryFrom<T, E>(call: nat -> Result<T, E>, attempts: int, backoffMs: int, i: nat, lastErr: Option<E>)
    : RetryRun<T, E>
    decreases attempts - i
  {
    if i >= attempts then RetryRun(Failure(lastErr), i, [])
    else
      match call(i)
      case Success(v) => RetryRun(Success(v), i + 1, [])
      case Failure(e) =>
        var rest := RetryFrom(call, attempts, backoffMs, i + 1, Some(e));
        RetryRun(rest.result, rest.calls, [backoffMs * Pow2(i)] + rest.delays)
  }

  function Retry<T, E>(call: nat -> Result<T, E>, attempts: int, backoffMs: int): RetryRun<T, E> {
    RetryFrom(call, attempts, backoffMs, 0, None)
  }

  /** `fetchWithRetry(fn, attempts, backoffMs)` */
  method FetchWithRetry<T, E>(call: nat -> Result<T, E>, attempts: int, backoffMs: int)
    returns (result: Result<T, Option<E>>, calls: nat, delays: seq<int>)
    ensures RetryRun(result, calls, delays) == Retry(call, attempts, backoffMs)
  {
    var lastErr: Option<E> := None;
    delays := [];
    var i := 0;
    while i < attempts
      invariant 0 <= i && (attempts >= 0 ==> i <= attempts)
      invariant i > 0 ==> call(i - 1).Failure? && lastErr == Some(call(i - 1).error)
      invariant var rest := RetryFrom(call, attempts, backoffMs, i, lastErr);
                Retry(call, attempts, backoffMs) == RetryRun(rest.result, rest.calls, delays + rest.delays)
      decreases attempts - i
    {
      var outcome := call(i);
      if outcome.Success? {
        return Success(outcome.value), i + 1, delays;
      }
      lastErr := Some(outcome.error);
      delays := delays + [backoffMs * Pow2(i)];
      i := i + 1;
    }
    result, calls := Failure(lastErr), i;
  }

  /**
   * What a run means: at most `attempts` calls; a success is the first
   * successful call, all earlier ones having failed; a failure follows
   * `attempts` failed calls and carries the last call's error; the i-th
   * failed call is followed by a sleep of `backoffMs * 2^i`, the last one too.
   */
  lemma {:induction false} RetryFromMeaning<T, E>(call: nat -> Result<T, E>, attempts: int, backoffMs: int,
                                                 i: nat, lastErr: Option<E>)
    requires i <= attempts || i == 0
    ensures var run := RetryFrom(call, attempts, backoffMs, i, lastErr);
            && i <= run.calls
            && (attempts >= 0 ==> run.calls <= attempts)
            && (forall k :: i <= k < run.calls - 1 ==> call(k).Failure?)
            && (run.result.Success? ==> run.calls >= i + 1 && call(run.calls - 1) == Success(run.result.value))
            && (run.result.Failure? ==> run.calls == (if attempts < i then i else attempts)
                                        && (run.calls > i ==> call(run.calls - 1).Failure?
                                                              && run.result.error == Some(call(run.calls - 1).error))
                                        && (run.calls == i ==> run.result.error == lastErr))
            && |run.delays| == (if run.result.Success? then run.calls - 1 - i else run.calls - i)
            && (forall k :: 0 <= k < |run.delays| ==> run.delays[k] == backoffMs * Pow2(i + k))
    decreases attempts - i
  {
    if i < attempts && call(i).Failure? {
      RetryFromMeaning(call, attempts, backoffMs, i + 1, Some(call(i).error));
    }
  }

  lemma RetryMeaning<T, E>(call: nat -> Result<T, E>, attempts: int, backoffMs: int)
    ensures var run := Retry(call, attempts, backoffMs);
            && run.calls <= (if attempts < 0 then 0 else attempts)
            && (forall k :: 0 <= k < run.calls - 1 ==> call(k).Failure?)
            && (run.result.Success? ==> run.calls >= 1 && call(run.calls - 1) == Success(run.result.value))
            && (run.result.Failure? && attempts > 0 ==>
                  run.calls == attempts && call(attempts - 1).Failure? && run.result.error == Some(call(attempts - 1).error))
            && (attempts <= 0 ==> run.result == Failure(None) && run.calls == 0)
            && |run.delays| == (if run.result.Success? then run.calls - 1 else run.calls)
            && (forall k :: 0 <= k < |run.delays| ==> run.delays[k] == backoffMs * Pow2(k))
  {
    RetryFromMeaning(call, attempts, backoffMs, 0, None);
  }

  /** With the defaults, an operation that fails twice then succeeds is called three times after sleeping 800 and 1600 ms. */
  lemma TwoFailuresThenSuccess<T, E>(call: nat -> Result<T, E>)
    requires call(0).Failure? && call(1).Failure? && call(2).Success?
    ensures Retry(call, 3, 800) == RetryRun(Success(call(2).value), 3, [800, 1600])
  {
  }

  /** With the defaults, three failures sleep 800, 1600 and 3200 ms and rethrow the third error. */
  lemma ThreeFailures<T, E>(call: nat -> Result<T, E>)
    requires call(0).Failure? && call(1).Failure? && call(2).Failure?
    ensures Retry(call, 3, 800) == RetryRun(Failure(Some(call(2).error)), 3, [800, 1600, 3200])
  {
  }
}
