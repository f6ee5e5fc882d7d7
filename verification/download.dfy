/**
 * `download_dataset`: fetch a dataset snapshot, waiting and retrying while
 * the hub answers HTTP 429 (rate limited).
 *
 * `snapshot_download` is a foreign call; each call is reduced to the
 * `Outcome` it ends with, and the environment is the sequence of those
 * outcomes in call order. `print` and `time.sleep` become events of a
 * trace, so the number of fetches, reports and waits can be counted.
 */
module HfDataDownload {
  import opened Wrappers

  /** How one call of `snapshot_download` ends: it returns; it raises
      `HfHubHTTPError` with an HTTP status; it raises an `HfHubHTTPError`
      that carries no response (as `LocalEntryNotFoundError` does when the
      hub is unreachable and nothing is cached); it raises some other
      `Exception` (carrying its message); or it raises a `BaseException`
      that is not an `Exception`, such as `KeyboardInterrupt` or
      `SystemExit` (named by its type), which `except Exception` does not
      catch. */
  datatype Outcome =
    | Success
    | HttpStatus(code: int)
    | HttpNoResponse(detail: string)
    | Failure(detail: string)
    | Interrupt(kind: string)

  /** The status code the loop treats as "rate limited". */
  const TooManyRequests := 429

  /** The module's configuration: at most 20 rate-limited attempts (the
      comment on `MAX_RETRIES` in HF_data_download.py says that `None` means
      "retry forever"), 60 seconds apart. */
  const MaxRetries: Option<int> := Some(20)
  const RetryDelay: nat := 60

  /** What `print` reports: completion, the rate-limit wait, or the unknown
      error's message. */
  datatype Notice = Finished | RateLimited(delay: nat) | Unknown(detail: string)

  /** Observable effects of the loop, in order. */
  datatype Event = Fetch | Report(notice: Notice) | Sleep(seconds: nat)

  /** How `download_dataset` ends: it returns, raises `RuntimeError` with
      the configured limit, re-raises the fetch's own error, raises
      `AttributeError` from reading the status of an HTTP error that has no
      response (the fetch's error survives only as its context), or is
      still waiting for an outcome when the supplied ones run out. */
  datatype Ending =
    | Downloaded
    | RetriesExhausted(limit: int)
    | Reraised(error: Outcome)
    | NoResponseAttributeError(cause: Outcome)
    | Pending

  /** The ending, the effects in order and the final value of `attempts`. */
  datatype Run = Run(ending: Ending, trace: seq<Event>, attempts: nat)

  /** `if MAX_RETRIES and ...`: the bound is checked only when MAX_RETRIES
      is truthy, so `None` and `0` both mean "no bound". */
  predicate Bounded(maxRetries: Option<int>)
  {
    maxRetries.Some? && maxRetries.value != 0
  }

  predicate IsRateLimit(o: Outcome)
  {
    o == HttpStatus(TooManyRequests)
  }

  function Fetches(trace: seq<Event>): nat
  {
    if trace == [] then 0 else (if trace[0].Fetch? then 1 else 0) + Fetches(trace[1..])
  }

  function Sleeps(trace: seq<Event>): nat
  {
    if trace == [] then 0 else (if trace[0].Sleep? then 1 else 0) + Sleeps(trace[1..])
  }

  /** Total time spent in `time.sleep`. */
  function SleepTime(trace: seq<Event>): nat
  {
    if trace == [] then 0 else (if trace[0].Sleep? then trace[0].seconds else 0) + SleepTime(trace[1..])
  }

  /** The counts are additive over concatenated traces. */
  lemma {:induction false} CountsAppend(a: seq<Event>, b: seq<Event>)
    ensures Fetches(a + b) == Fetches(a) + Fetches(b)
    ensures Sleeps(a + b) == Sleeps(a) + Sleeps(b)
    ensures SleepTime(a + b) == SleepTime(a) + SleepTime(b)
  {
    if a == [] {
      assert a + b == b;
    } else {
      assert (a + b)[0] == a[0] && (a + b)[1..] == a[1..] + b;
      CountsAppend(a[1..], b);
    }
  }

  /** Every wait in `trace` lasts `delay` seconds. */
  predicate WaitsFor(trace: seq<Event>, delay: nat)
  {
    trace == [] || ((trace[0].Sleep? ==> trace[0].seconds == delay) && WaitsFor(trace[1..], delay))
  }

  /** The fetch that ends a run without a wait: 1 when the run returns or
      re-raises, 0 when it raises `RuntimeError` (whose fetch was followed
      by a wait) or has no outcome left. */
  function Terminal(e: Ending): nat
  {
    if e.Pending? || e.RetriesExhausted? then 0 else 1
  }

  /** The effects of one rate-limited attempt: the fetch, the notice, the
      wait. */
  function RateLimitBlock(delay: nat): seq<Event>
  {
    [Fetch, Report(RateLimited(delay)), Sleep(delay)]
  }

  /** A rate-limited attempt fetches once and waits once, for `delay`. */
  lemma BlockCounts(delay: nat, rest: seq<Event>)
    ensures Fetches(RateLimitBlock(delay) + rest) == 1 + Fetches(rest)
    ensures Sleeps(RateLimitBlock(delay) + rest) == 1 + Sleeps(rest)
    ensures WaitsFor(rest, delay) ==> WaitsFor(RateLimitBlock(delay) + rest, delay)
  {
    var b := RateLimitBlock(delay);
    CountsAppend(b, rest);
    assert (b + rest)[1..] == [Report(RateLimited(delay)), Sleep(delay)] + rest;
    assert (b + rest)[1..][1..] == [Sleep(delay)] + rest;
    assert (b + rest)[1..][1..][1..] == rest;
    var wait := [Sleep(delay)];
    assert wait[1..] == [];
    assert Fetches(wait) == 0 && Sleeps(wait) == 1;
    var report := [Report(RateLimited(delay))] + wait;
    assert report[0].Report? && report[1..] == wait;
    assert b[0].Fetch? && b[1..] == report;
  }

  /** The `while True` loop entered with `attempts` already counted.
      Each outcome is consumed by one fetch; a 429 prints, sleeps, counts
      the attempt and then checks the bound. */
  function Loop(outcomes: seq<Outcome>, maxRetries: Option<int>, delay: nat, attempts: nat): (r: Run)
    ensures r.attempts >= attempts
    ensures r.ending.RetriesExhausted? ==> Bounded(maxRetries) && r.ending.limit == maxRetries.value && r.attempts >= maxRetries.value
    ensures r.ending.Reraised? ==> !IsRateLimit(r.ending.error) && r.ending.error != Success && !r.ending.error.HttpNoResponse?
    ensures r.ending.NoResponseAttributeError? ==> r.ending.cause.HttpNoResponse?
    decreases |outcomes|
  {
    if outcomes == [] then Run(Pending, [], attempts)
    else match outcomes[0]
      case Success => Run(Downloaded, [Fetch, Report(Finished)], attempts)
      case HttpStatus(code) =>
        if code == TooManyRequests then
          var counted := attempts + 1;
          if Bounded(maxRetries) && counted >= maxRetries.value then
            Run(RetriesExhausted(maxRetries.value), RateLimitBlock(delay), counted)
          else
            var rest := Loop(outcomes[1..], maxRetries, delay, counted);
            Run(rest.ending, RateLimitBlock(delay) + rest.trace, rest.attempts)
        else
          Run(Reraised(outcomes[0]), [Fetch], attempts)
      case HttpNoResponse(_) => Run(NoResponseAttributeError(outcomes[0]), [Fetch], attempts)
      case Failure(detail) => Run(Reraised(outcomes[0]), [Fetch, Report(Unknown(detail))], attempts)
      case Interrupt(_) => Run(Reraised(outcomes[0]), [Fetch], attempts)
  }

  /** The counts of a run `r` of the loop entered with `attempts` counted
      and `n` outcomes available: every counted attempt slept once; the
      fetches are the waits plus the run's final fetch, if it returned or
      re-raised; no outcome is fetched twice; and a run still waiting for
      an outcome fetched them all. */
  predicate Counted(r: Run, n: nat, attempts: nat)
  {
    && Sleeps(r.trace) == r.attempts - attempts
    && Fetches(r.trace) == Sleeps(r.trace) + Terminal(r.ending)
    && Fetches(r.trace) <= n
    && (r.ending.Pending? ==> Fetches(r.trace) == n)
  }

  /** How many fetches and waits the loop makes, as `Counted` states. */
  lemma {:induction false} LoopCounts(outcomes: seq<Outcome>, maxRetries: Option<int>, delay: nat, attempts: nat)
    ensures Counted(Loop(outcomes, maxRetries, delay, attempts), |outcomes|, attempts)
    decreases |outcomes|
  {
    if outcomes != [] && IsRateLimit(outcomes[0]) {
      if Bounded(maxRetries) && attempts + 1 >= maxRetries.value {
        ExhaustedCounts(outcomes, maxRetries, delay, attempts);
      } else {
        LoopCounts(outcomes[1..], maxRetries, delay, attempts + 1);
        RateLimitedCounts(outcomes, maxRetries, delay, attempts);
      }
    } else if outcomes != [] {
      FinalCounts(outcomes, maxRetries, delay, attempts);
    }
  }

  /** A 429 that reaches the bound: one fetch, one wait, no more. */
  lemma ExhaustedCounts(outcomes: seq<Outcome>, maxRetries: Option<int>, delay: nat, attempts: nat)
    requires outcomes != [] && IsRateLimit(outcomes[0])
    requires Bounded(maxRetries) && attempts + 1 >= maxRetries.value
    ensures Counted(Loop(outcomes, maxRetries, delay, attempts), |outcomes|, attempts)
  {
    BlockCounts(delay, []);
    assert RateLimitBlock(delay) + [] == RateLimitBlock(delay);
    assert Loop(outcomes, maxRetries, delay, attempts)
      == Run(RetriesExhausted(maxRetries.value), RateLimitBlock(delay), attempts + 1);
  }

  /** A 429 below the bound adds one fetch and one wait to the rest. */
  lemma RateLimitedCounts(outcomes: seq<Outcome>, maxRetries: Option<int>, delay: nat, attempts: nat)
    requires outcomes != [] && IsRateLimit(outcomes[0])
    requires !(Bounded(maxRetries) && attempts + 1 >= maxRetries.value)
    requires Counted(Loop(outcomes[1..], maxRetries, delay, attempts + 1), |outcomes| - 1, attempts + 1)
    ensures Counted(Loop(outcomes, maxRetries, delay, attempts), |outcomes|, attempts)
  {
    var rest := Loop(outcomes[1..], maxRetries, delay, attempts + 1);
    BlockCounts(delay, rest.trace);
    assert Loop(outcomes, maxRetries, delay, attempts)
      == Run(rest.ending, RateLimitBlock(delay) + rest.trace, rest.attempts);
  }

  /** Any other outcome ends the run after one fetch and no wait. */
  lemma FinalCounts(outcomes: seq<Outcome>, maxRetries: Option<int>, delay: nat, attempts: nat)
    requires outcomes != [] && !IsRateLimit(outcomes[0])
    ensures Counted(Loop(outcomes, maxRetries, delay, attempts), |outcomes|, attempts)
  {
    FinalFetchCounts();
    match outcomes[0]
    case Success =>
      assert Loop(outcomes, maxRetries, delay, attempts) == Run(Downloaded, [Fetch, Report(Finished)], attempts);
    case HttpStatus(_) =>
      assert Loop(outcomes, maxRetries, delay, attempts) == Run(Reraised(outcomes[0]), [Fetch], attempts);
    case HttpNoResponse(_) =>
      assert Loop(outcomes, maxRetries, delay, attempts) == Run(NoResponseAttributeError(outcomes[0]), [Fetch], attempts);
    case Failure(detail) =>
      assert Loop(outcomes, maxRetries, delay, attempts) == Run(Reraised(outcomes[0]), [Fetch, Report(Unknown(detail))], attempts);
    case Interrupt(_) =>
      assert Loop(outcomes, maxRetries, delay, attempts) == Run(Reraised(outcomes[0]), [Fetch], attempts);
  }

  /** The effects of a run's last fetch: one fetch, no wait. */
  lemma FinalFetchCounts()
    ensures Fetches([Fetch]) == 1 && Sleeps([Fetch]) == 0
    ensures forall n :: Fetches([Fetch, Report(n)]) == 1 && Sleeps([Fetch, Report(n)]) == 0
  {
    forall n ensures Fetches([Fetch, Report(n)]) == 1 && Sleeps([Fetch, Report(n)]) == 0 {
      var last := [Report(n)];
      assert last[1..] == [];
      assert Fetches(last) == 0 && Sleeps(last) == 0;
      var t := [Fetch] + last;
      assert t[0].Fetch? && t[1..] == last;
    }
    assert [Fetch][1..] == [];
  }

  /** Every wait the loop makes lasts `delay` seconds. */
  lemma {:induction false} LoopWaits(outcomes: seq<Outcome>, maxRetries: Option<int>, delay: nat, attempts: nat)
    ensures WaitsFor(Loop(outcomes, maxRetries, delay, attempts).trace, delay)
    decreases |outcomes|
  {
    var r := Loop(outcomes, maxRetries, delay, attempts);
    if outcomes != [] && IsRateLimit(outcomes[0]) {
      if Bounded(maxRetries) && attempts + 1 >= maxRetries.value {
        BlockCounts(delay, []);
        assert RateLimitBlock(delay) + [] == RateLimitBlock(delay);
      } else {
        var rest := Loop(outcomes[1..], maxRetries, delay, attempts + 1);
        LoopWaits(outcomes[1..], maxRetries, delay, attempts + 1);
        BlockCounts(delay, rest.trace);
      }
    } else if outcomes != [] && !outcomes[0].Success? && !outcomes[0].Failure? {
      assert r.trace == [Fetch] && r.trace[1..] == [];
    } else if outcomes != [] {
      assert r.trace[0].Fetch? && r.trace[1..][0].Report? && r.trace[1..][1..] == [];
    }
  }

  /** When every wait lasts `delay`, the total time asleep is `delay` per
      wait. */
  lemma {:induction false} UniformWaits(trace: seq<Event>, delay: nat)
    requires WaitsFor(trace, delay)
    ensures SleepTime(trace) == delay * Sleeps(trace)
  {
    if trace != [] {
      UniformWaits(trace[1..], delay);
    }
  }

  /** `download_dataset(repo_id, local_dir)`: the loop from `attempts = 0`.
      The repository and directory only parameterise the foreign call, so
      they are not modelled. */
  function DownloadDataset(outcomes: seq<Outcome>, maxRetries: Option<int>, delay: nat): (r: Run)
    ensures Sleeps(r.trace) == r.attempts
    ensures SleepTime(r.trace) == delay * r.attempts
    ensures r.ending.RetriesExhausted? ==> Bounded(maxRetries) && r.ending.limit == maxRetries.value
  {
    LoopCounts(outcomes, maxRetries, delay, 0);
    LoopWaits(outcomes, maxRetries, delay, 0);
    UniformWaits(Loop(outcomes, maxRetries, delay, 0).trace, delay);
    Loop(outcomes, maxRetries, delay, 0)
  }
}
