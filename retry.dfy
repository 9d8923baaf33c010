/**
 * `withRetry(cfg, fn)` (`packages/macrofx/src/retry.ts`): calls a function
 * until it returns, retrying after a throw up to `cfg.retries` times, as long
 * as `cfg.shouldRetry` (when given) accepts the error, and sleeping
 * `cfg.delayMs` between attempts when that is truthy.
 */
module Retry {
  import opened JsValue
  import opened MacroFx

  datatype RetryConfig = RetryConfig(retries: int, delayMs: Option<int>, shouldRetry: Option<Value -> bool>)

  /** What a retrying call does, in order: invoke the function, or sleep. */
  datatype Step = Invoke | Sleep(ms: int)

  /** `cfg.shouldRetry && !cfg.shouldRetry(e)`: the error may not be retried. */
  predicate Rejects(cfg: RetryConfig, e: Value) {
    cfg.shouldRetry.Some? && !cfg.shouldRetry.value(e)
  }

  /**
   * The number of invocations a call makes in all, once `attempt` invocations
   * have failed and been retried: the next one is the last if it returns, if
   * it is past the retry budget, or if its error is rejected.
   */
  function Attempts(cfg: RetryConfig, fn: Op, args: seq<Value>, calls0: nat, attempt: nat): (n: nat)
    ensures n > attempt
    decreases if cfg.retries >= attempt then cfg.retries - attempt + 1 else 0
  {
    var o := fn.run(args, calls0 + attempt);
    if o.Returned? || attempt + 1 > cfg.retries || Rejects(cfg, o.error) then attempt + 1
    else Attempts(cfg, fn, args, calls0, attempt + 1)
  }

  /** `n` invocations, with a sleep of `delayMs` between consecutive ones when it is truthy. */
  function RetryTrace(n: nat, delayMs: Option<int>): (t: seq<Step>)
    ensures |t| == (if n == 0 then 0 else if TruthyNum(delayMs) then 2 * n - 1 else n)
  {
    if n == 0 then []
    else if n == 1 then [Invoke]
    else RetryTrace(n - 1, delayMs) + (if TruthyNum(delayMs) then [Sleep(delayMs.value)] else []) + [Invoke]
  }

  /**
   * `withRetry(cfg, fn)(deps)(...args)`, `fn` having run `calls0` times
   * before. Returns the outcome the caller sees (the first value returned, or
   * the error that ended the retries), the number of invocations and the
   * sequence of invocations and sleeps.
   */
  method WithRetry(cfg: RetryConfig, fn: Op, args: seq<Value>, calls0: nat)
    returns (out: Outcome, attempts: nat, trace: seq<Step>)
    ensures attempts == Attempts(cfg, fn, args, calls0, 0)
    ensures out == fn.run(args, calls0 + attempts - 1)
    ensures trace == RetryTrace(attempts, cfg.delayMs)
  {
    var attempt: nat := 0;
    trace := [];
    while true
      invariant Attempts(cfg, fn, args, calls0, 0) == Attempts(cfg, fn, args, calls0, attempt)
      invariant trace == RetryTrace(attempt, cfg.delayMs)
                         + (if attempt > 0 && TruthyNum(cfg.delayMs) then [Sleep(cfg.delayMs.value)] else [])
      decreases if cfg.retries >= attempt then cfg.retries - attempt + 1 else 0
    {
      var o := fn.run(args, calls0 + attempt);
      trace := trace + [Invoke];
      if o.Returned? {
        return o, attempt + 1, trace;
      }
      attempt := attempt + 1;
      if attempt > cfg.retries || (cfg.shouldRetry.Some? && !cfg.shouldRetry.value(o.error)) {
        return o, attempt, trace;
      }
      if cfg.delayMs.Some? && cfg.delayMs.value != 0 {
        trace := trace + [Sleep(cfg.delayMs.value)];
      }
    }
  }

  /** A call never invokes the function more than `retries + 1` times, and always at least once. */
  lemma {:induction false} AttemptsBounded(cfg: RetryConfig, fn: Op, args: seq<Value>, calls0: nat, attempt: nat)
    ensures Attempts(cfg, fn, args, calls0, attempt) <= if cfg.retries + 1 > attempt then cfg.retries + 1 else attempt + 1
    decreases if cfg.retries >= attempt then cfg.retries - attempt + 1 else 0
  {
    var o := fn.run(args, calls0 + attempt);
    if !(o.Returned? || attempt + 1 > cfg.retries || Rejects(cfg, o.error)) {
      AttemptsBounded(cfg, fn, args, calls0, attempt + 1);
    }
  }

  /** The `n`-th invocation throws an error the configuration lets it retry. */
  predicate FailsRetryably(cfg: RetryConfig, fn: Op, args: seq<Value>, n: nat) {
    fn.run(args, n).Threw? && !Rejects(cfg, fn.run(args, n).error)
  }

  /**
   * If the invocations from `calls0 + attempt` up to `calls0 + k - 1` all fail
   * and may be retried, and `k` is within the budget, the call goes on to make
   * invocation `k` and decides there.
   */
  lemma {:induction false} AttemptsReach(cfg: RetryConfig, fn: Op, args: seq<Value>, calls0: nat, attempt: nat, k: nat)
    requires attempt <= k <= cfg.retries
    requires forall n :: calls0 + attempt <= n < calls0 + k ==> FailsRetryably(cfg, fn, args, n)
    ensures Attempts(cfg, fn, args, calls0, attempt) == Attempts(cfg, fn, args, calls0, k)
    decreases k - attempt
  {
    if attempt < k {
      assert FailsRetryably(cfg, fn, args, calls0 + attempt);
      AttemptsReach(cfg, fn, args, calls0, attempt + 1, k);
    }
  }

  /** A function that keeps failing is invoked exactly `retries + 1` times. */
  lemma AlwaysFailingExhaustsRetries(cfg: RetryConfig, fn: Op, args: seq<Value>, calls0: nat)
    requires cfg.retries >= 0
    requires forall n :: calls0 <= n <= calls0 + cfg.retries ==> FailsRetryably(cfg, fn, args, n)
    ensures Attempts(cfg, fn, args, calls0, 0) == cfg.retries + 1
  {
    AttemptsReach(cfg, fn, args, calls0, 0, cfg.retries);
    assert FailsRetryably(cfg, fn, args, calls0 + cfg.retries);
  }

  /** A function that first returns on invocation `k` (within the budget) is invoked `k + 1` times. */
  lemma SucceedsOnAttempt(cfg: RetryConfig, fn: Op, args: seq<Value>, calls0: nat, k: nat)
    requires k <= cfg.retries
    requires forall n :: calls0 <= n < calls0 + k ==> FailsRetryably(cfg, fn, args, n)
    requires fn.run(args, calls0 + k).Returned?
    ensures Attempts(cfg, fn, args, calls0, 0) == k + 1
  {
    AttemptsReach(cfg, fn, args, calls0, 0, k);
  }

  /** An error that `shouldRetry` rejects ends the call at once, with no further invocation. */
  lemma RejectedErrorStops(cfg: RetryConfig, fn: Op, args: seq<Value>, calls0: nat, k: nat)
    requires k <= cfg.retries
    requires forall n :: calls0 <= n < calls0 + k ==> FailsRetryably(cfg, fn, args, n)
    requires fn.run(args, calls0 + k).Threw? && Rejects(cfg, fn.run(args, calls0 + k).error)
    ensures Attempts(cfg, fn, args, calls0, 0) == k + 1
  {
    AttemptsReach(cfg, fn, args, calls0, 0, k);
  }
}
