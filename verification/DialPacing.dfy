/** The token bucket that paces TCP opens and the recovery breaker that pauses them
    (internal/tunengine/dialer_native.go, acquireOpenPace and recordDialAdmission).
    Times and durations are integers; tokens are exact rationals. */
module DialPacing {
  import opened Options

  // ---- the token bucket ---------------------------------------------------------

  const BURST := 24.0

  /** `at` is None until the first use. */
  datatype Bucket = Bucket(tokens: real, at: Option<int>)

  const FRESH_BUCKET := Bucket(0.0, None)

  function Rate(elapsed: int, interval: int): real
    requires interval > 0
  {
    elapsed as real / interval as real
  }

  /** The tokens available at a time: what was left plus what has accrued, at most
      a full burst. */
  function Level(b: Bucket, now: int, interval: int): real
    requires interval > 0
  {
    if b.at.None? then BURST else
      var raw := b.tokens + Rate(now - b.at.value, interval);
      if raw > BURST then BURST else raw
  }

  predicate Grants(b: Bucket, now: int, interval: int)
    requires interval > 0
  {
    Level(b, now, interval) >= 1.0
  }

  function Poll(b: Bucket, now: int, interval: int): Bucket
    requires interval > 0
  {
    var level := Level(b, now, interval);
    Bucket(if level >= 1.0 then level - 1.0 else level, Some(now))
  }

  class OpenPace {
    const interval: int
    var tokens: real
    var at: Option<int>

    function Contents(): Bucket
      reads this
    {
      Bucket(tokens, at)
    }

    constructor (interval: int)
      ensures this.interval == interval && Contents() == FRESH_BUCKET
    {
      this.interval, tokens, at := interval, 0.0, None;
    }

    /** One pass under the lock: a grant, or how long to wait for the missing
        fraction of a token. */
    method Acquire(now: int) returns (granted: bool, wait: real)
      modifies this
      ensures interval <= 0 ==> granted && Contents() == old(Contents())
      ensures interval > 0 ==>
              granted == Grants(old(Contents()), now, interval) && Contents() == Poll(old(Contents()), now, interval)
      ensures !granted ==> tokens * interval as real + wait == interval as real
    {
      wait := 0.0;
      if interval <= 0 {
        return true, wait;
      }
      if at.None? {
        tokens, at := BURST, Some(now);
      }
      RateZero(interval);
      tokens := tokens + (now - at.value) as real / interval as real;
      if tokens > BURST {
        tokens := BURST;
      }
      at := Some(now);
      if tokens >= 1.0 {
        tokens := tokens - 1.0;
        return true, wait;
      }
      wait := (1.0 - tokens) * interval as real;
      granted := false;
    }
  }

  lemma RateZero(interval: int)
    requires interval > 0
    ensures Rate(0, interval) == 0.0
  {}

  lemma RateAdds(x: int, y: int, interval: int)
    requires interval > 0
    ensures Rate(x + y, interval) == Rate(x, interval) + Rate(y, interval)
  {}

  predicate Ascending(polls: seq<int>, from: int) {
    && (forall i :: 0 <= i < |polls| ==> from <= polls[i])
    && (forall i, j :: 0 <= i < j < |polls| ==> polls[i] <= polls[j])
  }

  /** The times of the polls that were granted. */
  function GrantTimes(b: Bucket, polls: seq<int>, interval: int): (r: seq<int>)
    requires interval > 0
    decreases polls
  {
    if polls == [] then [] else
      var rest := GrantTimes(Poll(b, polls[0], interval), polls[1..], interval);
      if Grants(b, polls[0], interval) then [polls[0]] + rest else rest
  }

  /** The first j + 1 grants cost no more than the tokens at hand plus what
      accrues until the last of them. */
  lemma {:induction false} GrantsWithinBudget(b: Bucket, polls: seq<int>, interval: int, j: nat)
    requires interval > 0 && b.at.Some? && Ascending(polls, b.at.value)
    requires j < |GrantTimes(b, polls, interval)|
    ensures (j + 1) as real <= b.tokens + Rate(GrantTimes(b, polls, interval)[j] - b.at.value, interval)
    decreases polls
  {
    var t, a := polls[0], b.at.value;
    var next := Poll(b, t, interval);
    var g := GrantTimes(b, polls, interval);
    if Grants(b, t, interval) {
      if j > 0 {
        GrantsWithinBudget(next, polls[1..], interval, j - 1);
        RateAdds(g[j] - t, t - a, interval);
      }
    } else {
      GrantsWithinBudget(next, polls[1..], interval, j);
      RateAdds(g[j] - t, t - a, interval);
    }
  }

  /** Pacing: any stretch of grants i..j is at most a burst of 24 plus one per
      interval of the time it spans, whenever the polls came. */
  lemma {:induction false} PacingBound(b: Bucket, polls: seq<int>, interval: int, i: nat, j: nat)
    requires interval > 0 && polls != [] && Ascending(polls, polls[0])
    requires b.at.Some? ==> b.at.value <= polls[0]
    requires i <= j < |GrantTimes(b, polls, interval)|
    ensures var g := GrantTimes(b, polls, interval);
            (j - i + 1) as real <= BURST + Rate(g[j] - g[i], interval)
    decreases polls
  {
    var t := polls[0];
    var next := Poll(b, t, interval);
    var rest := polls[1..];
    var g := GrantTimes(b, polls, interval);
    RateZero(interval);
    if Grants(b, t, interval) {
      if i == 0 {
        if j > 0 {
          GrantsWithinBudget(next, rest, interval, j - 1);
        }
      } else {
        PacingBound(next, rest, interval, i - 1, j - 1);
      }
    } else {
      PacingBound(next, rest, interval, i, j);
    }
  }

  // ---- the recovery breaker --------------------------------------------------------

  datatype Limits = Limits(threshold: int, backoff: int) {
    predicate Active() { threshold > 0 && backoff > 0 }
  }

  datatype Breaker = Breaker(failures: nat, until: int)

  datatype Outcome = Outcome(success: bool, now: int)

  const CLOSED := Breaker(0, 0)

  function RecordOutcome(b: Breaker, l: Limits, o: Outcome): Breaker {
    if !l.Active() then b
    else if o.success then b.(failures := 0)
    else if o.now < b.until then b
    else if b.failures + 1 < l.threshold then b.(failures := b.failures + 1)
    else Breaker(0, o.now + l.backoff)
  }

  class Recovery {
    const limits: Limits
    var failures: nat
    var until: int

    function Contents(): Breaker
      reads this
    {
      Breaker(failures, until)
    }

    constructor (limits: Limits)
      ensures this.limits == limits && Contents() == CLOSED
    {
      this.limits, failures, until := limits, 0, 0;
    }

    method Record(success: bool, now: int)
      modifies this
      ensures Contents() == RecordOutcome(old(Contents()), limits, Outcome(success, now))
    {
      if limits.threshold <= 0 || limits.backoff <= 0 {
        return;
      }
      if success {
        failures := 0;
        return;
      }
      if now < until {
        return;
      }
      failures := failures + 1;
      if failures < limits.threshold {
        return;
      }
      failures := 0;
      until := now + limits.backoff;
    }
  }

  /** The breaker after the first k outcomes of a log. */
  function After(l: Limits, log: seq<Outcome>, k: nat): Breaker
    requires k <= |log|
  {
    if k == 0 then CLOSED else RecordOutcome(After(l, log, k - 1), l, log[k - 1])
  }

  /** The outcome at k starts a pause. */
  predicate Trips(l: Limits, log: seq<Outcome>, k: nat)
    requires k < |log|
  {
    After(l, log, k + 1).until != After(l, log, k).until
  }

  /** A failure recorded outside a pause. */
  predicate Counts(l: Limits, log: seq<Outcome>, k: nat)
    requires k < |log|
  {
    !log[k].success && log[k].now >= After(l, log, k).until
  }

  function CountedBetween(l: Limits, log: seq<Outcome>, from: nat, to: nat): nat
    requires from <= to <= |log|
  {
    if from == to then 0 else CountedBetween(l, log, from, to - 1) + if Counts(l, log, to - 1) then 1 else 0
  }

  /** No success and no pause begins in this stretch of the log. */
  predicate Unbroken(l: Limits, log: seq<Outcome>, from: nat, to: nat)
    requires to <= |log|
  {
    forall i :: from <= i < to ==> !log[i].success && !Trips(l, log, i)
  }

  /** The failure count is the number of failures recorded outside a pause since
      the last success or pause. */
  lemma {:induction false} CountSinceReset(l: Limits, log: seq<Outcome>, k: nat) returns (from: nat)
    requires l.Active() && k <= |log|
    ensures from <= k && Unbroken(l, log, from, k)
    ensures After(l, log, k).failures == CountedBetween(l, log, from, k) < l.threshold
    ensures from == 0 || log[from - 1].success || Trips(l, log, from - 1)
  {
    if k == 0 {
      from := 0;
    } else {
      if log[k - 1].success || Trips(l, log, k - 1) {
        from := k;
      } else {
        from := CountSinceReset(l, log, k - 1);
      }
    }
  }

  /** Each pause is preceded by exactly `threshold` failures recorded outside a
      pause, the last of them now, with no success and no other pause among them. */
  lemma PauseNeedsThreshold(l: Limits, log: seq<Outcome>, k: nat) returns (from: nat)
    requires l.Active() && k < |log| && Trips(l, log, k)
    ensures from <= k && Unbroken(l, log, from, k) && !log[k].success
    ensures CountedBetween(l, log, from, k + 1) == l.threshold
    ensures from == 0 || log[from - 1].success || Trips(l, log, from - 1)
  {
    from := CountSinceReset(l, log, k);
  }

  /** recoveryUntil only grows, and a new pause always ends after the old one. */
  lemma {:induction false} PauseOnlyGrows(l: Limits, log: seq<Outcome>, j: nat, k: nat)
    requires j <= k <= |log|
    ensures After(l, log, j).until <= After(l, log, k).until
    ensures j < k && Trips(l, log, k - 1) ==> After(l, log, j).until < After(l, log, k).until
    decreases k
  {
    if j < k {
      PauseOnlyGrows(l, log, j, k - 1);
    }
  }
}
