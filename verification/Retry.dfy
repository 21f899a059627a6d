/** Retrying: a bounded number of attempts for a command, and the waits between reconnects. */
module Retry {
  import opened Wrappers

  // ----- attempts -----

  function ResolveRetryCount(retryCount: int): (n: nat)
    ensures n <= 5 && (0 <= retryCount <= 5 ==> n == retryCount)
    ensures (retryCount < 0 ==> n == 0) && (retryCount > 5 ==> n == 5)
  {
    if retryCount < 0 then 0 else if retryCount > 5 then 5 else retryCount
  }

  function ResolveBackoff(ms: int): (n: nat)
    ensures 100 <= n <= 30000 && (100 <= ms <= 30000 ==> n == ms) && (ms <= 0 ==> n == 1000)
    ensures (0 < ms < 100 ==> n == 100) && (ms > 30000 ==> n == 30000)
  {
    var wanted := if ms <= 0 then 1000 else ms;
    if wanted < 100 then 100 else if wanted > 30000 then 30000 else wanted
  }

  datatype RunError = RunFailed(text: string) | CanceledBeforeRetry

  datatype Outcome = Outcome(res: string, err: Option<RunError>)

  /** Runs until the first success, the last permitted attempt, or a cancellation during the wait after an
      attempt; `attempt` and `canceled` are what the attempts and waits turn out to be. */
  method ExecuteWithRetry(retryCount: nat, attempt: nat -> Outcome, canceled: nat -> bool)
    returns (res: string, err: Option<RunError>, attempts: nat)
    ensures 1 <= attempts <= retryCount + 1
    ensures forall k | 1 <= k < attempts :: attempt(k).err.Some? && !canceled(k)
    ensures res == attempt(attempts).res
    ensures attempt(attempts).err == None ==> err == None
    ensures attempt(attempts).err.Some? ==>
              err == (if attempts == retryCount + 1 then attempt(attempts).err else Some(CanceledBeforeRetry))
              && (attempts <= retryCount ==> canceled(attempts))
  {
    attempts := 0;
    while true
      invariant attempts <= retryCount
      invariant forall k | 1 <= k <= attempts :: attempt(k).err.Some? && !canceled(k)
      decreases retryCount + 1 - attempts
    {
      attempts := attempts + 1;
      var outcome := attempt(attempts);
      res, err := outcome.res, outcome.err;
      if err == None {
        return;
      }
      if attempts > retryCount {
        return;
      }
      if canceled(attempts) {
        err := Some(CanceledBeforeRetry);
        return;
      }
    }
  }

  /** A requested retry count leads to at most six attempts. */
  method ExecutePrepared(retryCount: int, attempt: nat -> Outcome, canceled: nat -> bool)
    returns (res: string, err: Option<RunError>, attempts: nat)
    ensures 1 <= attempts <= 6
    ensures err == None <==> attempt(attempts).err == None
    ensures (exists k | 1 <= k <= ResolveRetryCount(retryCount) + 1 ::
               attempt(k).err == None && forall j | 1 <= j < k :: !canceled(j)) ==> err == None
  {
    res, err, attempts := ExecuteWithRetry(ResolveRetryCount(retryCount), attempt, canceled);
  }

  // ----- waits -----

  const SECOND: int := 1000000000
  const DEFAULT_MIN_BACKOFF: int := 400000000
  const DEFAULT_MAX_BACKOFF: int := 8 * SECOND
  const TWO_62: int := 0x4000_0000_0000_0000
  const TWO_64: int := 0x1_0000_0000_0000_0000

  /** Durations are 64-bit: doubling one can wrap around, at most once. */
  function Wrap(n: int): (w: int)
    ensures -6 * TWO_62 <= n < 6 * TWO_62 ==> IsDuration(w) && (w == n || w == n - TWO_64 || w == n + TWO_64)
  {
    if n >= 2 * TWO_62 then n - TWO_64 else if n < -2 * TWO_62 then n + TWO_64 else n
  }

  predicate IsDuration(n: int) {
    -2 * TWO_62 <= n < 2 * TWO_62
  }

  datatype Backoff = Backoff(min: int, max: int)

  function NormalizeBackoff(opts: Backoff): (out: Backoff)
    ensures 0 < out.min <= out.max
    ensures 0 < opts.min <= opts.max ==> out == opts
    ensures opts.min > 0 ==> out.min == opts.min
    ensures opts.min <= 0 ==> out.min == DEFAULT_MIN_BACKOFF
    ensures out.max == out.min || out.max == if opts.max > 0 then opts.max else DEFAULT_MAX_BACKOFF
    ensures 0 < opts.max ==> opts.max <= out.max
    ensures opts.max <= 0 ==> DEFAULT_MAX_BACKOFF <= out.max
    ensures IsDuration(opts.min) && IsDuration(opts.max) ==> IsDuration(out.min) && IsDuration(out.max)
  {
    var min := if opts.min <= 0 then DEFAULT_MIN_BACKOFF else opts.min;
    var max := if opts.max <= 0 then DEFAULT_MAX_BACKOFF else opts.max;
    Backoff(min, if max < min then min else max)
  }

  function Doubled(backoff: int, max: int): int {
    if Wrap(backoff * 2) > max then max else Wrap(backoff * 2)
  }

  /** The wait after the failed attempt number `k`, counted from 0. */
  function Wait(o: Backoff, k: nat): int {
    if k == 0 then o.min else Doubled(Wait(o, k - 1), o.max)
  }

  function Pow2(k: nat): (p: nat)
    ensures p > k
  {
    if k == 0 then 1 else 2 * Pow2(k - 1)
  }

  function Capped(o: Backoff, k: nat): int {
    if o.min * Pow2(k) > o.max then o.max else o.min * Pow2(k)
  }

  function Waits(o: Backoff, n: nat): (waits: seq<int>)
    ensures |waits| == n
  {
    if n == 0 then [] else Waits(o, n - 1) + [Wait(o, n - 1)]
  }

  lemma WaitStep(o: Backoff, k: nat)
    ensures Wait(o, k + 1) == Doubled(Wait(o, k), o.max)
    ensures Waits(o, k + 1) == Waits(o, k) + [Wait(o, k)]
  {
  }

  /** What a pass through the reconnect loop finds: the bridge is closed or connected again, its own attempt
      succeeds, or the attempt fails. */
  datatype Pass = Over | Succeeds | Fails

  /** The number of failed attempts before the loop leaves. */
  function Failures(pass: nat -> Pass, from: nat, last: nat): (n: nat)
    requires from <= last && pass(last) != Fails
    ensures from <= n <= last && pass(n) != Fails && forall k | from <= k < n :: pass(k) == Fails
    decreases last - from
  {
    if pass(from) != Fails then from else Failures(pass, from + 1, last)
  }

  /** The waits of a reconnect loop that leaves at the latest in pass `last`: it waits after each failed
      attempt, and leaves without waiting as soon as it is over or succeeds. */
  method ReconnectLoop(o: Backoff, pass: nat -> Pass, last: nat) returns (waits: seq<int>, connected: bool)
    requires pass(last) != Fails
    ensures waits == Waits(o, Failures(pass, 0, last))
    ensures connected == pass(|waits|).Succeeds?
  {
    waits := [];
    var backoff := o.min;
    var i := 0;
    while true
      invariant i <= last && waits == Waits(o, i) && backoff == Wait(o, i)
      invariant Failures(pass, i, last) == Failures(pass, 0, last)
      decreases last - i
    {
      match pass(i) {
        case Over => return waits, false;
        case Succeeds => return waits, true;
        case Fails =>
      }
      WaitStep(o, i);
      waits := waits + [backoff];
      backoff := Wrap(backoff * 2);
      if backoff > o.max {
        backoff := o.max;
      }
      i := i + 1;
    }
  }

  lemma Scale(min: int, k: nat)
    requires 0 < min
    ensures min * Pow2(k) > k && min * Pow2(k + 1) == 2 * (min * Pow2(k))
  {
    var p := Pow2(k);
    assert Pow2(k + 1) == 2 * p;
    assert min * p >= p;
    assert min * (2 * p) == 2 * (min * p);
  }

  lemma {:induction false} WaitIsCapped(o: Backoff, k: nat)
    requires 0 < o.min <= o.max < TWO_62
    ensures Wait(o, k) == Capped(o, k)
  {
    if k > 0 {
      WaitIsCapped(o, k - 1);
      Scale(o.min, k - 1);
    }
  }

  /** With a larger limit some wait comes out wrong: the doubling wraps around. */
  lemma WaitWraps(o: Backoff) returns (k: nat)
    requires 0 < o.min <= o.max && IsDuration(o.max) && TWO_62 <= o.max
    ensures Wait(o, k) != Capped(o, k)
  {
    Scale(o.min, o.max);
    Scale(o.min, o.max + 1);
    assert Capped(o, o.max) == Capped(o, o.max + 1) == o.max;
    k := if Wait(o, o.max) != o.max then o.max else o.max + 1;
  }

  /** The k-th wait is the minimum doubled k times and capped at the maximum, for every k, exactly when
      the maximum is below 2^62 nanoseconds. */
  lemma BackoffIsExactExactlyBelow(o: Backoff)
    requires 0 < o.min <= o.max && IsDuration(o.max)
    ensures (forall k: nat :: Wait(o, k) == Capped(o, k)) <==> o.max < TWO_62
  {
    if o.max < TWO_62 {
      forall k: nat ensures Wait(o, k) == Capped(o, k) { WaitIsCapped(o, k); }
    } else {
      var k := WaitWraps(o);
    }
  }
}
