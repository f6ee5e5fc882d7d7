/**
 * Properties of the `download_dataset` retry loop over whole outcome
 * sequences: how many fetches and waits each ending costs, the retry
 * bound, and exactly when `RuntimeError` is raised.
 */
module DownloadProperties {
  import opened Wrappers
  import opened HfDataDownload

  /** The first `k` outcomes are all HTTP 429. */
  predicate RateLimitedPrefix(outcomes: seq<Outcome>, k: nat)
  {
    k <= |outcomes| && forall i :: 0 <= i < k ==> IsRateLimit(outcomes[i])
  }

  /** The effects of `k` rate-limited attempts in a row. */
  function Blocks(k: nat, delay: nat): seq<Event>
  {
    if k == 0 then [] else RateLimitBlock(delay) + Blocks(k - 1, delay)
  }

  /** `k` rate-limited attempts fetch `k` times and wait `k` times, each
      wait lasting `delay`. */
  lemma {:induction false} BlocksCounts(k: nat, delay: nat)
    ensures Fetches(Blocks(k, delay)) == k && Sleeps(Blocks(k, delay)) == k
    ensures WaitsFor(Blocks(k, delay), delay)
  {
    if k > 0 {
      BlocksCounts(k - 1, delay);
      BlockCounts(delay, Blocks(k - 1, delay));
    }
  }

  /** Appending one more block at the end gives the same trace. */
  lemma {:induction false} BlocksSnoc(k: nat, delay: nat)
    ensures Blocks(k + 1, delay) == Blocks(k, delay) + RateLimitBlock(delay)
  {
    if k > 0 {
      BlocksSnoc(k - 1, delay);
      calc {
        Blocks(k + 1, delay);
        RateLimitBlock(delay) + Blocks(k, delay);
        RateLimitBlock(delay) + (Blocks(k - 1, delay) + RateLimitBlock(delay));
        (RateLimitBlock(delay) + Blocks(k - 1, delay)) + RateLimitBlock(delay);
        Blocks(k, delay) + RateLimitBlock(delay);
      }
    }
  }

  /** `r`, with `effects` happening before it. */
  function After(effects: seq<Event>, r: Run): Run
  {
    Run(r.ending, effects + r.trace, r.attempts)
  }

  lemma AfterAfter(first: seq<Event>, second: seq<Event>, r: Run)
    ensures After(first, After(second, r)) == After(first + second, r)
  {
    assert first + (second + r.trace) == (first + second) + r.trace;
  }

  /** One 429 below the bound: a block of effects, one more attempt, and
      the loop goes on with the next outcome. */
  lemma RateLimitStep(outcomes: seq<Outcome>, maxRetries: Option<int>, delay: nat, attempts: nat)
    requires outcomes != [] && IsRateLimit(outcomes[0])
    requires Bounded(maxRetries) ==> attempts + 1 < maxRetries.value
    ensures Loop(outcomes, maxRetries, delay, attempts)
      == After(RateLimitBlock(delay), Loop(outcomes[1..], maxRetries, delay, attempts + 1))
  {
  }

  /** A prefix of 429s stays one after dropping its first outcome. */
  lemma PrefixTail(outcomes: seq<Outcome>, k: nat)
    requires k > 0 && RateLimitedPrefix(outcomes, k)
    ensures IsRateLimit(outcomes[0]) && RateLimitedPrefix(outcomes[1..], k - 1)
  {
    assert IsRateLimit(outcomes[0]);
    forall i | 0 <= i < k - 1 ensures IsRateLimit(outcomes[1..][i]) {
      assert outcomes[1..][i] == outcomes[i + 1];
    }
  }

  /** While the bound is not reached, `k` leading 429s only count attempts
      and append their blocks: the loop then continues exactly as it would
      on the remaining outcomes with `attempts + k`. */
  lemma {:induction false} Unroll(outcomes: seq<Outcome>, k: nat, maxRetries: Option<int>, delay: nat, attempts: nat)
    requires RateLimitedPrefix(outcomes, k)
    requires k > 0 && Bounded(maxRetries) ==> attempts + k < maxRetries.value
    ensures Loop(outcomes, maxRetries, delay, attempts)
      == After(Blocks(k, delay), Loop(outcomes[k..], maxRetries, delay, attempts + k))
  {
    if k == 0 {
      NoEffects(Loop(outcomes, maxRetries, delay, attempts));
      assert outcomes[0..] == outcomes;
    } else {
      PrefixTail(outcomes, k);
      Unroll(outcomes[1..], k - 1, maxRetries, delay, attempts + 1);
      UnrollStep(outcomes, k, maxRetries, delay, attempts);
    }
  }

  /** Nothing happening first changes nothing. */
  lemma NoEffects(r: Run)
    ensures After([], r) == r
  {
    assert [] + r.trace == r.trace;
  }

  /** The step of `Unroll`: one more leading 429 in front of `k - 1`. */
  lemma UnrollStep(outcomes: seq<Outcome>, k: nat, maxRetries: Option<int>, delay: nat, attempts: nat)
    requires 0 < k <= |outcomes| && IsRateLimit(outcomes[0])
    requires Bounded(maxRetries) ==> attempts + k < maxRetries.value
    requires Loop(outcomes[1..], maxRetries, delay, attempts + 1)
      == After(Blocks(k - 1, delay), Loop(outcomes[1..][k - 1..], maxRetries, delay, attempts + k))
    ensures Loop(outcomes, maxRetries, delay, attempts)
      == After(Blocks(k, delay), Loop(outcomes[k..], maxRetries, delay, attempts + k))
  {
    var tail := outcomes[1..];
    assert tail[k - 1..] == outcomes[k..];
    var rest := Loop(outcomes[k..], maxRetries, delay, attempts + k);
    calc {
      Loop(outcomes, maxRetries, delay, attempts);
      { RateLimitStep(outcomes, maxRetries, delay, attempts); }
      After(RateLimitBlock(delay), Loop(tail, maxRetries, delay, attempts + 1));
      After(RateLimitBlock(delay), After(Blocks(k - 1, delay), rest));
      { AfterAfter(RateLimitBlock(delay), Blocks(k - 1, delay), rest); }
      After(Blocks(k, delay), rest);
    }
  }

  /** A download that succeeds after `k` rate-limited attempts (fewer than
      the bound, if there is one) fetches `k + 1` times, waits `k` times and
      returns normally with `attempts == k`. */
  lemma SucceedsAfterRateLimits(outcomes: seq<Outcome>, k: nat, maxRetries: Option<int>, delay: nat)
    requires RateLimitedPrefix(outcomes, k) && k < |outcomes| && outcomes[k] == Success
    requires k > 0 && Bounded(maxRetries) ==> k < maxRetries.value
    ensures DownloadDataset(outcomes, maxRetries, delay) == Run(Downloaded, Blocks(k, delay) + [Fetch, Report(Finished)], k)
    ensures Fetches(DownloadDataset(outcomes, maxRetries, delay).trace) == k + 1
    ensures Sleeps(DownloadDataset(outcomes, maxRetries, delay).trace) == k
  {
    Unroll(outcomes, k, maxRetries, delay, 0);
    var done: seq<Event> := [Fetch, Report(Finished)];
    assert done[1..][1..] == [];
    BlocksCounts(k, delay);
    CountsAppend(Blocks(k, delay), done);
  }

  /** A fetch that fails with anything but a 429 (after `k` rate-limited
      attempts below the bound) ends the download at once: its error is
      re-raised, no further wait happens and `attempts` stays `k`; only an
      `Exception` that is not an HTTP error is reported first. An HTTP error
      without a response instead makes the 429 test raise `AttributeError`,
      with the same effects as a silent re-raise. */
  lemma ReraisesAfterRateLimits(outcomes: seq<Outcome>, k: nat, maxRetries: Option<int>, delay: nat)
    requires RateLimitedPrefix(outcomes, k) && k < |outcomes|
    requires !IsRateLimit(outcomes[k]) && outcomes[k] != Success
    requires k > 0 && Bounded(maxRetries) ==> k < maxRetries.value
    ensures DownloadDataset(outcomes, maxRetries, delay).ending
      == if outcomes[k].HttpNoResponse? then NoResponseAttributeError(outcomes[k]) else Reraised(outcomes[k])
    ensures DownloadDataset(outcomes, maxRetries, delay).attempts == k
    ensures DownloadDataset(outcomes, maxRetries, delay).trace
      == Blocks(k, delay) + (if outcomes[k].Failure? then [Fetch, Report(Unknown(outcomes[k].detail))] else [Fetch])
    ensures Fetches(DownloadDataset(outcomes, maxRetries, delay).trace) == k + 1
    ensures Sleeps(DownloadDataset(outcomes, maxRetries, delay).trace) == k
  {
    Unroll(outcomes, k, maxRetries, delay, 0);
    LoopCounts(outcomes, maxRetries, delay, 0);
  }

  /** How many further consecutive 429s the loop accepts, `attempts` having
      been counted, before raising `RuntimeError`: always at least one, as
      the bound is checked only after a 429 is counted. */
  function RateLimitsToExhaust(maxRetries: Option<int>, attempts: nat): (n: nat)
    requires Bounded(maxRetries)
    ensures n >= 1
    ensures attempts < maxRetries.value ==> attempts + n == maxRetries.value
  {
    if maxRetries.value - attempts <= 1 then 1 else maxRetries.value - attempts
  }

  /** With a bound, exactly `RateLimitsToExhaust` consecutive 429s raise
      `RuntimeError`, after as many fetches and waits. */
  lemma ExhaustsAtLimit(outcomes: seq<Outcome>, maxRetries: Option<int>, delay: nat)
    requires Bounded(maxRetries) && RateLimitedPrefix(outcomes, RateLimitsToExhaust(maxRetries, 0))
    ensures DownloadDataset(outcomes, maxRetries, delay)
      == Run(RetriesExhausted(maxRetries.value), Blocks(RateLimitsToExhaust(maxRetries, 0), delay), RateLimitsToExhaust(maxRetries, 0))
    ensures Fetches(DownloadDataset(outcomes, maxRetries, delay).trace) == RateLimitsToExhaust(maxRetries, 0)
    ensures Sleeps(DownloadDataset(outcomes, maxRetries, delay).trace) == RateLimitsToExhaust(maxRetries, 0)
  {
    var n := RateLimitsToExhaust(maxRetries, 0);
    Unroll(outcomes, n - 1, maxRetries, delay, 0);
    var last := outcomes[n - 1..];
    assert last[0] == outcomes[n - 1];
    BlocksSnoc(n - 1, delay);
    assert RateLimitBlock(delay) + [] == RateLimitBlock(delay);
    BlocksCounts(n, delay);
  }

  /** `RuntimeError` is raised only after `RateLimitsToExhaust` consecutive
      429s. */
  lemma {:induction false} ExhaustedOnlyAtLimit(outcomes: seq<Outcome>, maxRetries: Option<int>, delay: nat, attempts: nat)
    requires Loop(outcomes, maxRetries, delay, attempts).ending.RetriesExhausted?
    ensures Bounded(maxRetries) && RateLimitedPrefix(outcomes, RateLimitsToExhaust(maxRetries, attempts))
    decreases |outcomes|
  {
    assert IsRateLimit(outcomes[0]);
    if attempts + 1 < maxRetries.value {
      var tail := outcomes[1..];
      ExhaustedOnlyAtLimit(tail, maxRetries, delay, attempts + 1);
      var n := RateLimitsToExhaust(maxRetries, attempts);
      assert n == RateLimitsToExhaust(maxRetries, attempts + 1) + 1;
      forall i | 0 <= i < n ensures IsRateLimit(outcomes[i]) {
        if i > 0 {
          assert outcomes[i] == tail[i - 1];
        }
      }
    }
  }

  /** The download raises `RuntimeError` if and only if there is a bound
      and the first `RateLimitsToExhaust` fetches all answer 429. */
  lemma ExhaustedIff(outcomes: seq<Outcome>, maxRetries: Option<int>, delay: nat)
    ensures DownloadDataset(outcomes, maxRetries, delay).ending.RetriesExhausted?
      <==> Bounded(maxRetries) && RateLimitedPrefix(outcomes, RateLimitsToExhaust(maxRetries, 0))
  {
    if DownloadDataset(outcomes, maxRetries, delay).ending.RetriesExhausted? {
      ExhaustedOnlyAtLimit(outcomes, maxRetries, delay, 0);
    }
    if Bounded(maxRetries) && RateLimitedPrefix(outcomes, RateLimitsToExhaust(maxRetries, 0)) {
      ExhaustsAtLimit(outcomes, maxRetries, delay);
    }
  }

  /** With a bound N, whatever the outcomes, `attempts` never exceeds N and
      at most N - attempts more fetches are made. */
  lemma {:induction false} FetchBound(outcomes: seq<Outcome>, maxRetries: Option<int>, delay: nat, attempts: nat)
    requires Bounded(maxRetries) && attempts < maxRetries.value
    ensures Loop(outcomes, maxRetries, delay, attempts).attempts <= maxRetries.value
    ensures Fetches(Loop(outcomes, maxRetries, delay, attempts).trace) <= maxRetries.value - attempts
    decreases |outcomes|
  {
    LoopCounts(outcomes, maxRetries, delay, attempts);
    if outcomes != [] && IsRateLimit(outcomes[0]) && attempts + 1 < maxRetries.value {
      FetchBound(outcomes[1..], maxRetries, delay, attempts + 1);
      RateLimitStep(outcomes, maxRetries, delay, attempts);
      BlockCounts(delay, Loop(outcomes[1..], maxRetries, delay, attempts + 1).trace);
    }
  }

  /** With the module's own settings, twenty 429s in a row raise
      `RuntimeError` after twenty fetches and twenty minutes of waiting. */
  lemma DefaultConfiguration(outcomes: seq<Outcome>)
    requires RateLimitedPrefix(outcomes, 20)
    ensures DownloadDataset(outcomes, MaxRetries, RetryDelay).ending == RetriesExhausted(20)
    ensures Fetches(DownloadDataset(outcomes, MaxRetries, RetryDelay).trace) == 20
    ensures Sleeps(DownloadDataset(outcomes, MaxRetries, RetryDelay).trace) == 20
    ensures SleepTime(DownloadDataset(outcomes, MaxRetries, RetryDelay).trace) == 1200
  {
    ExhaustsAtLimit(outcomes, MaxRetries, RetryDelay);
  }
}
