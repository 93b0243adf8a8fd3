/** scraper/core/rate_limit.py: the permit counter behind the two global
    limiters, and the retry policy with capped exponential backoff and jitter. */
module RateLimit {
  import opened Outcomes

  /** Defaults from scraper/config/settings.py. */
  const MAX_CONCURRENT_PAGES := 5
  const MAX_CONCURRENT_SERP := 1
  const MAX_RETRIES := 3
  const RETRY_BASE_DELAY: real := 5.0
  const RETRY_MAX_DELAY: real := 10.0

  /** A counting gate: `available` permits are free out of `capacity` given at
      creation. Waiting is not modelled: an acquire with no free permit is
      reported as not granted and changes nothing. */
  class RateLimiter {
    const capacity: nat
    var available: int

    constructor(maxConcurrent: nat)
      ensures capacity == maxConcurrent && available == maxConcurrent
    {
      capacity := maxConcurrent;
      available := maxConcurrent;
    }

    method Acquire() returns (granted: bool)
      modifies this
      ensures granted <==> old(available) > 0
      ensures granted ==> available == old(available) - 1
      ensures !granted ==> available == old(available)
    {
      if available > 0 {
        available := available - 1;
        granted := true;
      } else {
        granted := false;
      }
    }

    /** An unbounded semaphore: release always adds a permit. */
    method Release()
      modifies this
      ensures available == old(available) + 1
    {
      available := available + 1;
    }

    /** `async with limiter:` around a body that ends with `outcome`: the permit
        taken on entry is given back on every exit path, error or not. None when
        no permit is free (the source would wait). */
    method Guarded<T>(outcome: Outcome<T>) returns (r: Option<Outcome<T>>)
      modifies this
      ensures r.Some? <==> old(available) > 0
      ensures r.Some? ==> r.value == outcome
      ensures available == old(available)
    {
      var granted := Acquire();
      if !granted {
        return None;
      }
      r := Some(outcome);
      Release();
    }
  }

  /** The two global limiters. */
  method GlobalLimiters() returns (pageLimiter: RateLimiter, serpLimiter: RateLimiter)
    ensures fresh(pageLimiter) && fresh(serpLimiter)
    ensures pageLimiter.capacity == 5 && pageLimiter.available == 5
    ensures serpLimiter.capacity == 1 && serpLimiter.available == 1
  {
    pageLimiter := new RateLimiter(MAX_CONCURRENT_PAGES);
    serpLimiter := new RateLimiter(MAX_CONCURRENT_SERP);
  }

  function Pow2(k: nat): (p: nat)
    ensures p >= 1
  {
    if k == 0 then 1 else 2 * Pow2(k - 1)
  }

  /** `min(base_delay * 2**k, max_delay)`: the delay before retry k, before jitter. */
  function Backoff(baseDelay: real, maxDelay: real, k: nat): (d: real)
    ensures d <= maxDelay
    ensures d <= baseDelay * (Pow2(k) as real)
    ensures d == maxDelay || d == baseDelay * (Pow2(k) as real)
  {
    var raw := baseDelay * (Pow2(k) as real);
    if raw < maxDelay then raw else maxDelay
  }

  /** The sleep before retry k with the jitter drawn as a fraction `u` of
      0.5 * delay (`random.uniform(0, 0.5 * delay)`). */
  function SleepBefore(baseDelay: real, maxDelay: real, u: real, k: nat): real {
    var d := Backoff(baseDelay, maxDelay, k);
    d + u * 0.5 * d
  }

  /** How a run of attempts ends and how many calls it made. */
  datatype RetryRun<T> = RetryRun(result: Outcome<T>, calls: nat)

  /** The policy from attempt k on: a success or a non-retryable error ends the
      run; a retryable error is retried until `maxRetries` retries have been made. */
  function RetryFrom<T>(attempt: nat -> Outcome<T>, maxRetries: int, k: nat): RetryRun<T>
    decreases if maxRetries > k then maxRetries - k else 0
  {
    match attempt(k)
    case Ok(v) => RetryRun(Ok(v), k + 1)
    case Fatal(e) => RetryRun(Fatal(e), k + 1)
    case Retryable(e) =>
      if k >= maxRetries then RetryRun(Retryable(e), k + 1)
      else RetryFrom(attempt, maxRetries, k + 1)
  }

  /** `with_retry(max_retries, base_delay, max_delay)` around the calls
      `attempt(0), attempt(1), ...`; also returns the sleeps it made. */
  method WithRetry<T>(attempt: nat -> Outcome<T>, maxRetries: int, baseDelay: real, maxDelay: real,
                      jitter: nat -> real)
    returns (r: Outcome<T>, calls: nat, sleeps: seq<real>)
    requires forall k :: 0.0 <= jitter(k) <= 1.0
    ensures RetryRun(r, calls) == RetryFrom(attempt, maxRetries, 0)
    ensures |sleeps| == calls - 1
    ensures forall j :: 0 <= j < |sleeps| ==> sleeps[j] == SleepBefore(baseDelay, maxDelay, jitter(j), j)
  {
    var retries: nat := 0;
    sleeps := [];
    while true
      invariant |sleeps| == retries
      invariant forall j :: 0 <= j < retries ==> sleeps[j] == SleepBefore(baseDelay, maxDelay, jitter(j), j)
      invariant RetryFrom(attempt, maxRetries, 0) == RetryFrom(attempt, maxRetries, retries)
      decreases if maxRetries > retries then maxRetries - retries else 0
    {
      var outcome := attempt(retries);
      match outcome {
        case Ok(v) =>
          return Ok(v), retries + 1, sleeps;
        case Fatal(e) =>
          return Fatal(e), retries + 1, sleeps;
        case Retryable(e) =>
          if retries >= maxRetries {
            return Retryable(e), retries + 1, sleeps;
          }
          var delay := Backoff(baseDelay, maxDelay, retries);
          var sleepTime := delay + jitter(retries) * 0.5 * delay;
          sleeps := sleeps + [sleepTime];
          retries := retries + 1;
      }
    }
  }

  /** The result is exactly the last call's outcome, every earlier call failed
      with a retryable error, and there are at most max(maxRetries, 0) + 1 calls;
      a retryable result means the retries ran out. */
  lemma {:induction false} RetryShape<T>(attempt: nat -> Outcome<T>, maxRetries: int, k: nat)
    requires k <= (if maxRetries > 0 then maxRetries else 0)
    requires forall j :: 0 <= j < k ==> attempt(j).Retryable?
    ensures var run := RetryFrom(attempt, maxRetries, k);
      k + 1 <= run.calls <= (if maxRetries > 0 then maxRetries else 0) + 1 &&
      run.result == attempt(run.calls - 1) &&
      (forall j :: 0 <= j < run.calls - 1 ==> attempt(j).Retryable?) &&
      (run.result.Retryable? ==> run.calls == (if maxRetries > 0 then maxRetries else 0) + 1)
    decreases if maxRetries > k then maxRetries - k else 0
  {
    if attempt(k).Retryable? && k < maxRetries {
      RetryShape(attempt, maxRetries, k + 1);
    }
  }

  /** A success on the first call is returned unchanged, with no sleep. */
  lemma FirstCallWins<T>(attempt: nat -> Outcome<T>, maxRetries: int)
    requires attempt(0).Ok?
    ensures RetryFrom(attempt, maxRetries, 0) == RetryRun(attempt(0), 1)
  {
  }

  /** A non-retryable error is re-raised on its first occurrence. */
  lemma {:induction false} FatalNotRetried<T>(attempt: nat -> Outcome<T>, maxRetries: int, i: nat)
    requires i <= (if maxRetries > 0 then maxRetries else 0)
    requires attempt(i).Fatal?
    requires forall j :: 0 <= j < i ==> attempt(j).Retryable?
    ensures RetryFrom(attempt, maxRetries, 0) == RetryRun(attempt(i), i + 1)
  {
    RetryAfterFailures(attempt, maxRetries, 0, i);
  }

  lemma {:induction false} RetryAfterFailures<T>(attempt: nat -> Outcome<T>, maxRetries: int, k: nat, i: nat)
    requires k <= i <= (if maxRetries > 0 then maxRetries else 0)
    requires forall j :: k <= j < i ==> attempt(j).Retryable?
    ensures RetryFrom(attempt, maxRetries, k) == RetryFrom(attempt, maxRetries, i)
    decreases i - k
  {
    if k < i {
      RetryAfterFailures(attempt, maxRetries, k + 1, i);
    }
  }

  /** With the defaults (3 retries, 5 s base, 10 s cap) the run makes at most 4
      calls and the sleeps lie in [5, 7.5], [10, 15] and [10, 15]. */
  lemma DefaultSchedule(u: real, k: nat)
    requires 0.0 <= u <= 1.0
    ensures k == 0 ==> 5.0 <= SleepBefore(RETRY_BASE_DELAY, RETRY_MAX_DELAY, u, k) <= 7.5
    ensures 1 <= k ==> 10.0 <= SleepBefore(RETRY_BASE_DELAY, RETRY_MAX_DELAY, u, k) <= 15.0
  {
    if k >= 1 {
      Pow2AtLeast2(k);
    }
  }

  lemma {:induction false} Pow2AtLeast2(k: nat)
    requires k >= 1
    ensures Pow2(k) >= 2
  {
  }

  /** Every sleep lies between the capped delay and 1.5 times it. */
  lemma SleepBounds(baseDelay: real, maxDelay: real, u: real, k: nat)
    requires 0.0 <= u <= 1.0
    requires baseDelay >= 0.0 && maxDelay >= 0.0
    ensures var d := Backoff(baseDelay, maxDelay, k);
      d >= 0.0 && d <= SleepBefore(baseDelay, maxDelay, u, k) <= 1.5 * d
  {
    NonNegProduct(baseDelay, Pow2(k) as real);
    var d := Backoff(baseDelay, maxDelay, k);
    assert d >= 0.0;
    ScaleBelow(u * 0.5, 0.5, d);
  }

  lemma NonNegProduct(a: real, b: real)
    requires a >= 0.0 && b >= 0.0
    ensures a * b >= 0.0
  {
  }

  /** A share f no larger than c of a non-negative amount h lies between
      nothing and the share c of it. */
  lemma ScaleBelow(f: real, c: real, h: real)
    requires 0.0 <= f <= c && h >= 0.0
    ensures 0.0 <= f * h <= c * h
  {
    NonNegProduct(f, h);
    NonNegProduct(c - f, h);
    assert c * h - f * h == (c - f) * h;
  }
}
