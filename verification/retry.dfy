/** `core/network/NetworkErrorHandler.kt`: bounded retries with exponential
    backoff around a call that may throw.

    The call is a script `block(attempt)` giving each attempt's outcome, so a
    run is a pure function of the script. Delays are recorded, not slept. */
module NetworkErrorHandler {
  import opened Common

  /** `RetryConfig`. The `Double` multiplier is taken as a natural number. */
  datatype RetryConfig = RetryConfig(
    maxRetries: int,
    initialDelayMillis: int,
    maxDelayMillis: int,
    multiplier: nat,
    retryableExceptions: set<ExceptionClass>)

  const DefaultRetryConfig := RetryConfig(3, 1000, 10000, 2, {IOException, SocketTimeoutException})

  /** `Exception("Unknown error")`. */
  const UnknownError := Exception(OtherException, Some("Unknown error"))

  predicate IsRetryable(config: RetryConfig, e: Exception) {
    exists c :: c in config.retryableExceptions && IsInstance(e.cls, c)
  }

  /** An outcome after which the suspend loop may go on: a failure that is
      neither a cancellation nor outside the retryable classes. */
  predicate IsTransient<T>(config: RetryConfig, o: Outcome<T>) {
    o.Thrown? && !IsCancellation(o.error) && IsRetryable(config, o.error)
  }

  function Pow(m: nat, k: nat): nat {
    if k == 0 then 1 else m * Pow(m, k - 1)
  }

  /** What a run did: how it ended, how many times it invoked the block, and
      the delays it waited between invocations, in order. */
  datatype RetryRun<T> = RetryRun(outcome: Outcome<T>, calls: nat, delays: seq<int>)

  function Budget(config: RetryConfig, attempt: nat): nat {
    if config.maxRetries > attempt then config.maxRetries - attempt else 0
  }

  /** The delay the suspend loop computes after a failed `attempt`: the
      previous delay times `multiplier^attempt`, capped. */
  function NextDelay(config: RetryConfig, currentDelay: int, attempt: nat): (d: int)
    ensures d <= config.maxDelayMillis
  {
    Min(currentDelay * Pow(config.multiplier, attempt), config.maxDelayMillis)
  }

  /** The `repeat(maxRetries)` loop of `retryWithExponentialBackoff`, from
      `attempt` on. */
  function RetryLoop<T>(config: RetryConfig, block: nat -> Outcome<T>, attempt: nat,
                        currentDelay: int, lastException: Option<Exception>): (run: RetryRun<T>)
    ensures run.calls <= Budget(config, attempt)
    ensures run.calls == 0 <==> Budget(config, attempt) == 0
    ensures run.calls == 0 ==> run.delays == []
    ensures run.calls > 0 ==> |run.delays| == run.calls - 1
    ensures forall i :: 0 <= i < |run.delays| ==> run.delays[i] <= config.maxDelayMillis
    decreases Budget(config, attempt)
  {
    if attempt >= config.maxRetries then
      RetryRun(Thrown(lastException.GetOr(UnknownError)), 0, [])
    else
      match block(attempt)
      case Returned(v) => RetryRun(Returned(v), 1, [])
      case Thrown(e) =>
        if IsCancellation(e) then RetryRun(Thrown(e), 1, [])
        else if !IsRetryable(config, e) || attempt == config.maxRetries - 1 then RetryRun(Thrown(e), 1, [])
        else
          var d := NextDelay(config, currentDelay, attempt);
          var rest := RetryLoop(config, block, attempt + 1, d, Some(e));
          RetryRun(rest.outcome, rest.calls + 1, [d] + rest.delays)
  }

  /** A whole run of `retryWithExponentialBackoff(config, block)`. */
  function RetrySpec<T>(config: RetryConfig, block: nat -> Outcome<T>): RetryRun<T> {
    RetryLoop(config, block, 0, config.initialDelayMillis, None)
  }

  /** `calls` invocations and `delays` already behind a run that continues as `rest`. */
  function Behind<T>(calls: nat, delays: seq<int>, rest: RetryRun<T>): RetryRun<T> {
    RetryRun(rest.outcome, calls + rest.calls, delays + rest.delays)
  }

  /** `retryWithExponentialBackoff`, as the loop the source runs. */
  method RetryWithExponentialBackoff<T>(config: RetryConfig, block: nat -> Outcome<T>) returns (run: RetryRun<T>)
    ensures run == RetrySpec(config, block)
    ensures run.calls <= Budget(config, 0)
    ensures forall i :: 0 <= i < |run.delays| ==> run.delays[i] <= config.maxDelayMillis
  {
    var currentDelay := config.initialDelayMillis;
    var lastException: Option<Exception> := None;
    var delays: seq<int> := [];
    var attempt: nat := 0;
    while attempt < config.maxRetries
      invariant |delays| == attempt
      invariant RetrySpec(config, block) ==
        Behind(attempt, delays, RetryLoop(config, block, attempt, currentDelay, lastException))
      decreases config.maxRetries - attempt
    {
      ghost var here := RetryLoop(config, block, attempt, currentDelay, lastException);
      match block(attempt) {
        case Returned(v) =>
          assert here == RetryRun(Returned(v), 1, []);
          return RetryRun(Returned(v), attempt + 1, delays);
        case Thrown(e) =>
          if IsCancellation(e) {
            assert here == RetryRun(Thrown(e), 1, []);
            return RetryRun(Thrown(e), attempt + 1, delays);
          }
          lastException := Some(e);
          if !IsRetryable(config, e) || attempt == config.maxRetries - 1 {
            assert here == RetryRun(Thrown(e), 1, []);
            return RetryRun(Thrown(e), attempt + 1, delays);
          }
          currentDelay := NextDelay(config, currentDelay, attempt);
          ghost var rest := RetryLoop(config, block, attempt + 1, currentDelay, lastException);
          assert here == RetryRun(rest.outcome, rest.calls + 1, [currentDelay] + rest.delays);
          assert (delays + [currentDelay]) + rest.delays == delays + ([currentDelay] + rest.delays);
          delays := delays + [currentDelay];
          attempt := attempt + 1;
      }
    }
    assert RetryLoop(config, block, attempt, currentDelay, lastException)
        == RetryRun(Thrown(lastException.GetOr(UnknownError)), 0, []);
    run := RetryRun(Thrown(lastException.GetOr(UnknownError)), attempt, delays);
  }

  /** The run stops at the first attempt that is not a transient failure, or
      at the last attempt the budget allows, and surfaces exactly that
      attempt's outcome: the first success, the cancellation, the
      non-retryable error, or the last retryable error. */
  lemma {:induction false} RetryOutcomeIsFirstDecisiveAttempt<T>(
    config: RetryConfig, block: nat -> Outcome<T>, attempt: nat, currentDelay: int,
    lastException: Option<Exception>, k: nat)
    requires attempt <= k < config.maxRetries
    requires forall i :: attempt <= i < k ==> IsTransient(config, block(i))
    requires k == config.maxRetries - 1 || !IsTransient(config, block(k))
    ensures RetryLoop(config, block, attempt, currentDelay, lastException).outcome == block(k)
    ensures RetryLoop(config, block, attempt, currentDelay, lastException).calls == k - attempt + 1
    decreases k - attempt
  {
    if attempt < k {
      assert IsTransient(config, block(attempt));
      var d := NextDelay(config, currentDelay, attempt);
      RetryOutcomeIsFirstDecisiveAttempt(config, block, attempt + 1, d, Some(block(attempt).error), k);
    }
  }

  /** With no budget the block is never invoked and "Unknown error" is thrown. */
  lemma NoBudgetNeverCalls<T>(config: RetryConfig, block: nat -> Outcome<T>)
    requires config.maxRetries <= 0
    ensures RetrySpec(config, block) == RetryRun(Thrown(UnknownError), 0, [])
  {
  }

  /** Each delay is the previous one (the initial delay before the first)
      multiplied by `multiplier^attempt` and capped: the delays compound. */
  lemma {:induction false} DelaysCompound<T>(
    config: RetryConfig, block: nat -> Outcome<T>, attempt: nat, currentDelay: int,
    lastException: Option<Exception>)
    ensures var run := RetryLoop(config, block, attempt, currentDelay, lastException);
      && (|run.delays| > 0 ==> run.delays[0] == NextDelay(config, currentDelay, attempt))
      && (forall i :: 0 < i < |run.delays| ==>
            run.delays[i] == NextDelay(config, run.delays[i - 1], attempt + i))
    decreases Budget(config, attempt)
  {
    var run := RetryLoop(config, block, attempt, currentDelay, lastException);
    if |run.delays| > 0 {
      var e := block(attempt).error;
      var d := NextDelay(config, currentDelay, attempt);
      var rest := RetryLoop(config, block, attempt + 1, d, Some(e));
      assert run.delays == [d] + rest.delays;
      DelaysCompound(config, block, attempt + 1, d, Some(e));
      forall i | 0 < i < |run.delays|
        ensures run.delays[i] == NextDelay(config, run.delays[i - 1], attempt + i)
      {
        if i > 1 {
          assert run.delays[i] == rest.delays[i - 1];
          assert run.delays[i - 1] == rest.delays[i - 2];
        }
      }
    }
  }

  /** `retryWhen` in `Flow.retryWithBackoff`: `None` stops retrying,
      `Some(d)` retries after `d` milliseconds. */
  function FlowRetryDecision(config: RetryConfig, cause: Exception, attempt: nat): (r: Option<int>)
    ensures r.Some? <==> IsRetryable(config, cause) && attempt < config.maxRetries
    ensures r.Some? ==> r.value <= config.maxDelayMillis
  {
    if !IsRetryable(config, cause) || attempt >= config.maxRetries then None
    else Some(FlowBackoffDelay(config, attempt))
  }

  /** The Flow variant's delay: the initial delay times `multiplier^attempt`,
      capped, with no compounding. */
  function FlowBackoffDelay(config: RetryConfig, attempt: nat): int {
    Min(config.initialDelayMillis * Pow(config.multiplier, attempt), config.maxDelayMillis)
  }

  /** Collecting a flow under `retryWithBackoff`, from retry number `attempt`. */
  function FlowRetry<T>(config: RetryConfig, upstream: nat -> Outcome<T>, attempt: nat): (run: RetryRun<T>)
    ensures 1 <= run.calls <= Budget(config, attempt) + 1
    ensures |run.delays| == run.calls - 1
    decreases Budget(config, attempt)
  {
    match upstream(attempt)
    case Returned(v) => RetryRun(Returned(v), 1, [])
    case Thrown(e) =>
      match FlowRetryDecision(config, e, attempt)
      case None => RetryRun(Thrown(e), 1, [])
      case Some(d) =>
        var rest := FlowRetry(config, upstream, attempt + 1);
        RetryRun(rest.outcome, rest.calls + 1, [d] + rest.delays)
  }

  lemma PowMonotone(m: nat, k: nat)
    requires m >= 1
    ensures Pow(m, k) <= Pow(m, k + 1)
  {
    assert Pow(m, k + 1) == m * Pow(m, k);
  }

  /** For a non-negative initial delay and a multiplier of at least one, the
      Flow variant never shortens its delay. */
  lemma FlowDelayNonDecreasing(config: RetryConfig, attempt: nat)
    requires config.initialDelayMillis >= 0 && config.multiplier >= 1
    ensures FlowBackoffDelay(config, attempt) <= FlowBackoffDelay(config, attempt + 1)
  {
    PowMonotone(config.multiplier, attempt);
    var d := config.initialDelayMillis;
    assert d * Pow(config.multiplier, attempt) <= d * Pow(config.multiplier, attempt + 1) by {
      MulLeftMonotone(d, Pow(config.multiplier, attempt), Pow(config.multiplier, attempt + 1));
    }
  }

  lemma MulLeftMonotone(d: nat, a: nat, b: nat)
    requires a <= b
    ensures d * a <= d * b
  {
  }

  /** A block that always fails with an I/O error. */
  function AlwaysIoFailure(attempt: nat): Outcome<int> {
    Thrown(Exception(IOException, Some("timeout")))
  }

  /** Under the defaults a persistently failing call is made three times,
      waiting 1000 ms and then 2000 ms, and its last error surfaces. */
  lemma DefaultRunAgainstPersistentFailure()
    ensures RetrySpec(DefaultRetryConfig, AlwaysIoFailure)
         == RetryRun(Thrown(Exception(IOException, Some("timeout"))), 3, [1000, 2000])
  {
    assert IsRetryable(DefaultRetryConfig, Exception(IOException, Some("timeout")));
  }

  /** The source's comment promises `initialDelay * multiplier^attempt`, which
      is what the Flow variant computes; the suspend loop compounds instead.
      The defaults hide it (two delays, 1000 and 2000 ms either way); a fourth
      attempt shows it: 8000 ms waited where the comment promises 4000 ms. */
  lemma CompoundingDiffersFromCommentedFormula()
    ensures var config := DefaultRetryConfig.(maxRetries := 4);
      && RetrySpec(config, AlwaysIoFailure).delays == [1000, 2000, 8000]
      && [FlowBackoffDelay(config, 0), FlowBackoffDelay(config, 1), FlowBackoffDelay(config, 2)]
         == [1000, 2000, 4000]
  {
    var config := DefaultRetryConfig.(maxRetries := 4);
    assert IsRetryable(config, Exception(IOException, Some("timeout")));
  }

  /** The Flow variant counts retries, not attempts: a flow that always fails
      transiently is collected `maxRetries + 1` times, one more than the
      suspend loop invokes its block. */
  lemma {:induction false} FlowCollectsOnceMoreThanSuspendLoop(config: RetryConfig, attempt: nat)
    requires IsRetryable(config, Exception(IOException, Some("timeout")))
    ensures FlowRetry(config, AlwaysIoFailure, attempt).calls == Budget(config, attempt) + 1
    ensures RetryLoop(config, AlwaysIoFailure, attempt, config.initialDelayMillis, None).calls
         == Budget(config, attempt)
    decreases Budget(config, attempt)
  {
    if attempt < config.maxRetries {
      FlowCollectsOnceMoreThanSuspendLoop(config, attempt + 1);
      if attempt < config.maxRetries - 1 {
        RetryOutcomeIsFirstDecisiveAttempt(config, AlwaysIoFailure, attempt,
          config.initialDelayMillis, None, config.maxRetries - 1);
      }
    }
  }
}
