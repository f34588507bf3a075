/**
 * The reconnect policy handed to the Redis client (config/redis.js): given
 * what the client knows about the failed connection, decide whether to give
 * up with an error, stop retrying, or retry after a delay.
 */
module RedisConfig {
  import opened Wrappers

  /** The error the client saw, identified by its code (e.g. "ECONNREFUSED"). */
  datatype ConnectionError = ConnectionError(code: string)

  /** The options object the client passes to the strategy. */
  datatype RetryOptions = RetryOptions(error: Option<ConnectionError>, totalRetryTime: nat, attempt: nat)

  /** Returning an Error object, returning undefined, or returning a number of milliseconds. */
  datatype RetryDecision = GiveUp(message: string) | Stop | Delay(ms: nat)

  const RefusedCode := "ECONNREFUSED"
  /** One hour, `1000 * 60 * 60` milliseconds. */
  const MaxRetryTime: nat := 1000 * 60 * 60
  const MaxAttempts: nat := 10
  const StepMs: nat := 100
  const MaxDelayMs: nat := 3000

  predicate Refused(o: RetryOptions) {
    o.error.Some? && o.error.value.code == RefusedCode
  }

  function Min(a: nat, b: nat): nat { if a <= b then a else b }

  /**
   * The strategy itself, with the source's case order: a refused connection
   * first, then the total retry time, then the attempt count, then the
   * linear backoff capped at three seconds.
   */
  function RetryStrategy(o: RetryOptions): (d: RetryDecision)
    ensures Refused(o) ==> d == GiveUp("Redis server connection refused")
    ensures d.GiveUp? <==> Refused(o) || o.totalRetryTime > MaxRetryTime
    ensures !Refused(o) && o.totalRetryTime > MaxRetryTime ==> d == GiveUp("Redis retry time exhausted")
    ensures d.Stop? <==> !Refused(o) && o.totalRetryTime <= MaxRetryTime && MaxAttempts < o.attempt
    ensures d.Delay? ==> d.ms <= MaxDelayMs
    // the three-second cap is never reached: only attempts up to ten get here
    ensures d.Delay? ==> d.ms == o.attempt * StepMs <= MaxAttempts * StepMs
  {
    if Refused(o) then GiveUp("Redis server connection refused")
    else if o.totalRetryTime > MaxRetryTime then GiveUp("Redis retry time exhausted")
    else if o.attempt > MaxAttempts then Stop
    else Delay(Min(o.attempt * StepMs, MaxDelayMs))
  }

  /** Among the retrying cases, a later attempt never waits less. */
  lemma DelayMonotone(o1: RetryOptions, o2: RetryOptions)
    requires RetryStrategy(o1).Delay? && RetryStrategy(o2).Delay?
    requires o1.attempt <= o2.attempt
    ensures RetryStrategy(o1).ms <= RetryStrategy(o2).ms
  {
  }

  /** An error other than a refused connection does not make the client give up early. */
  lemma OtherErrorsRetry(o: RetryOptions)
    requires o.error.Some? && o.error.value.code != RefusedCode
    requires o.totalRetryTime <= MaxRetryTime && o.attempt <= MaxAttempts
    ensures RetryStrategy(o) == Delay(o.attempt * StepMs)
  {
  }

  /** A refused connection gives up whatever the elapsed time and the attempt count. */
  lemma RefusedWins(o: RetryOptions, total: nat, attempt: nat)
    requires Refused(o)
    ensures RetryStrategy(o.(totalRetryTime := total, attempt := attempt)) == RetryStrategy(o)
  {
  }
}
