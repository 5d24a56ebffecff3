/**
 * The daily post quota of rateLimiter.js: at most 17 posts per epoch, an epoch
 * being the 24 hours since the last rollover. Two scalars persist in the
 * extension's global state, `tweetCount` and `lastResetTimestamp`; the clock
 * reading `Date.now()` is the parameter `now`, in milliseconds.
 */
module RateLimiter {
  import opened Wrappers
  import opened Text

  /** Posts allowed per epoch. */
  const RateLimitMax: int := 17
  /** The length of an epoch: 24 hours in milliseconds. */
  const ResetInterval: int := 86_400_000
  const MsPerHour: int := 3_600_000
  const MsPerMinute: int := 60_000

  /** The persisted pair; `lastReset` is `None` while `lastResetTimestamp` was never stored. */
  datatype Quota = Quota(tweetCount: int, lastReset: Option<int>)

  /** JavaScript truthiness of the stored timestamp: an absent value and `0` both read as "never set". */
  predicate IsSet(lastReset: Option<int>) {
    lastReset.Some? && lastReset.value != 0
  }

  /** The state `resetIfNeeded` leaves behind at time `now`. */
  function AfterReset(q: Quota, now: int): (r: Quota)
    ensures r.lastReset.Some?
    ensures now - r.lastReset.value < ResetInterval
    ensures r.tweetCount == q.tweetCount || r.tweetCount == 0
    ensures r.lastReset == q.lastReset || r.lastReset == Some(now)
  {
    if !IsSet(q.lastReset) then Quota(q.tweetCount, Some(now))
    else if now - q.lastReset.value >= ResetInterval then Quota(0, Some(now))
    else q
  }

  /**
   * The three ways `resetIfNeeded` can go: a first check only stores the
   * timestamp, an expired epoch zeroes the counter whatever it held, and a
   * running epoch (also one "in the future" after the clock went back) is left
   * alone.
   */
  lemma ResetCases(q: Quota, now: int)
    ensures !IsSet(q.lastReset) ==> AfterReset(q, now) == Quota(q.tweetCount, Some(now))
    ensures IsSet(q.lastReset) && now - q.lastReset.value >= ResetInterval ==> AfterReset(q, now) == Quota(0, Some(now))
    ensures IsSet(q.lastReset) && now - q.lastReset.value < ResetInterval ==> AfterReset(q, now) == q
  {
  }

  /** A second check at the same instant changes nothing. */
  lemma AfterResetIdempotent(q: Quota, now: int)
    ensures AfterReset(AfterReset(q, now), now) == AfterReset(q, now)
  {
  }

  /** `Math.max(0, RATE_LIMIT_MAX - count)`: the posts left in the epoch. */
  function Remaining(count: int): (r: int)
    ensures r >= 0
    ensures count >= 0 ==> r <= RateLimitMax
    ensures r > 0 <==> count < RateLimitMax
    ensures r > 0 ==> count + r == RateLimitMax
  {
    if RateLimitMax - count > 0 then RateLimitMax - count else 0
  }

  /** The end of the epoch that started at `lastReset`. */
  function EpochEnd(lastReset: int): int {
    lastReset + ResetInterval
  }

  /** What `canPostTweet` reports. */
  datatype RateStatus = RateStatus(canPost: bool, remaining: int, resetTime: int)

  /**
   * The report computed from a quota state; a timestamp that was never stored
   * reads as `now`, the default the store lookup supplies.
   */
  function Status(q: Quota, now: int): (s: RateStatus)
    ensures s.canPost <==> q.tweetCount < RateLimitMax
    ensures s.canPost <==> s.remaining > 0
    ensures s.remaining == Remaining(q.tweetCount)
    ensures q.tweetCount >= 0 ==> 0 <= s.remaining <= RateLimitMax
    ensures s.resetTime - ResetInterval == (if q.lastReset.Some? then q.lastReset.value else now)
  {
    var lastReset := if q.lastReset.Some? then q.lastReset.value else now;
    RateStatus(q.tweetCount < RateLimitMax, Remaining(q.tweetCount), EpochEnd(lastReset))
  }

  /**
   * After the check the reported reset time is the end of the epoch in force,
   * and it is still ahead of `now`.
   */
  lemma ResetTimeAfterCheck(q: Quota, now: int)
    ensures var r := AfterReset(q, now);
      && Status(r, now).resetTime == r.lastReset.value + ResetInterval
      && now < Status(r, now).resetTime
  {
  }

  /** The state after `incrementTweetCount`. */
  function Incremented(q: Quota): (r: Quota)
    ensures r.tweetCount == q.tweetCount + 1 && r.lastReset == q.lastReset
  {
    Quota(q.tweetCount + 1, q.lastReset)
  }

  /** The state after `n` calls of `incrementTweetCount`. */
  ghost function IncrementedTimes(q: Quota, n: nat): Quota {
    if n == 0 then q else Incremented(IncrementedTimes(q, n - 1))
  }

  /** `n` increments add exactly `n` and never touch the timestamp: there is no cap check inside. */
  lemma {:induction false} IncrementsAdd(q: Quota, n: nat)
    ensures IncrementedTimes(q, n) == Quota(q.tweetCount + n, q.lastReset)
  {
    if n > 0 {
      IncrementsAdd(q, n - 1);
    }
  }

  /**
   * One post attempt as the post command makes it: the quota check (with its
   * rollover), then one increment if the check allowed it and the post went through.
   */
  function PostAttempt(q: Quota, now: int, posted: bool): (r: Quota)
    ensures r.lastReset == AfterReset(q, now).lastReset
    ensures r.tweetCount - AfterReset(q, now).tweetCount == (if posted && Status(AfterReset(q, now), now).canPost then 1 else 0)
  {
    var checked := AfterReset(q, now);
    if posted && Status(checked, now).canPost then Incremented(checked) else checked
  }

  /** A sequence of post attempts, each at its own time and with its own outcome. */
  function Run(q: Quota, attempts: seq<(int, bool)>): Quota
    decreases |attempts|
  {
    if attempts == [] then q
    else PostAttempt(Run(q, attempts[..|attempts| - 1]), attempts[|attempts| - 1].0, attempts[|attempts| - 1].1)
  }

  /**
   * Because every increment is preceded by a check that allows it, the counter
   * never leaves `0..RATE_LIMIT_MAX`, whatever the times and outcomes.
   */
  lemma {:induction false} CounterStaysWithinCap(q: Quota, attempts: seq<(int, bool)>)
    requires 0 <= q.tweetCount <= RateLimitMax
    ensures 0 <= Run(q, attempts).tweetCount <= RateLimitMax
    decreases |attempts|
  {
    if attempts != [] {
      CounterStaysWithinCap(q, attempts[..|attempts| - 1]);
    }
  }

  /** `%` on JavaScript numbers: the remainder takes the sign of the dividend. */
  function JsRemainder(a: int, b: int): (r: int)
    requires b > 0
    ensures a >= 0 ==> 0 <= r < b
    ensures a < 0 ==> -b < r <= 0
    ensures a >= 0 ==> r == a % b
  {
    if a >= 0 then a % b else -((-a) % b)
  }

  /**
   * `formatTimeUntilReset`: the time from `now` to `resetTime` as whole hours
   * and minutes, `"Hh Mm"` when there is at least one hour and `"Mm"`
   * otherwise. `Math.floor` of a quotient by a positive number is Dafny's `/`.
   * Nothing clamps a negative difference.
   */
  function FormatTimeUntilReset(resetTime: int, now: int): string {
    var diff := resetTime - now;
    var hours := diff / MsPerHour;
    var minutes := JsRemainder(diff, MsPerHour) / MsPerMinute;
    if hours > 0 then IntToDecimal(hours) + "h " + IntToDecimal(minutes) + "m"
    else IntToDecimal(minutes) + "m"
  }

  /**
   * A non-negative time span of `h` whole hours, `m` whole minutes and less
   * than one more minute renders as `h` and `m`, with the hours left out when
   * there are none.
   */
  lemma FormatHoursAndMinutes(resetTime: int, now: int, h: nat, m: nat)
    requires m < 60
    requires h * MsPerHour + m * MsPerMinute <= resetTime - now < h * MsPerHour + (m + 1) * MsPerMinute
    ensures FormatTimeUntilReset(resetTime, now)
         == if h > 0 then NatToDecimal(h) + "h " + NatToDecimal(m) + "m" else NatToDecimal(m) + "m"
  {
    var diff := resetTime - now;
    assert diff / MsPerHour == h by {
      DivisionIsUnique(diff, MsPerHour, h);
    }
    assert JsRemainder(diff, MsPerHour) == m * MsPerMinute + (diff - h * MsPerHour - m * MsPerMinute);
    assert JsRemainder(diff, MsPerHour) / MsPerMinute == m by {
      DivisionIsUnique(JsRemainder(diff, MsPerHour), MsPerMinute, m);
    }
  }

  lemma DivisionIsUnique(a: int, b: int, q: int)
    requires b > 0
    requires q * b <= a < q * b + b
    ensures a / b == q
  {
    var k := a / b;
    assert a == k * b + a % b;
    if k < q {
      assert (k + 1) * b <= q * b by { MultiplyMonotonic(k + 1, q, b); }
    } else if k > q {
      assert (q + 1) * b <= k * b by { MultiplyMonotonic(q + 1, k, b); }
    }
  }

  lemma MultiplyMonotonic(x: int, y: int, b: int)
    requires x <= y && b > 0
    ensures x * b <= y * b
  {
  }

  /** Sample renderings, and a negative span, which is not clamped. */
  lemma FormatExamples(now: int)
    ensures FormatTimeUntilReset(now + 2 * MsPerHour + 5 * MsPerMinute, now) == "2h 5m"
    ensures FormatTimeUntilReset(now + 45 * MsPerMinute, now) == "45m"
    ensures FormatTimeUntilReset(now, now) == "0m"
    ensures FormatTimeUntilReset(now - 1, now) == "-1m"
  {
    assert FormatTimeUntilReset(now + 2 * MsPerHour + 5 * MsPerMinute, now) == "2h 5m" by {
      FormatHoursAndMinutes(now + 2 * MsPerHour + 5 * MsPerMinute, now, 2, 5);
      assert NatToDecimal(2) == "2" && NatToDecimal(5) == "5";
    }
    assert FormatTimeUntilReset(now + 45 * MsPerMinute, now) == "45m" by {
      FormatHoursAndMinutes(now + 45 * MsPerMinute, now, 0, 45);
      assert NatToDecimal(45) == NatToDecimal(4) + [DigitChar(5)] == "45";
    }
    assert FormatTimeUntilReset(now, now) == "0m" by {
      FormatHoursAndMinutes(now, now, 0, 0);
      assert NatToDecimal(0) == "0";
    }
    assert NatToDecimal(1) == "1";
  }

  /**
   * The wait shown when the cap is reached is computed from the reset time of
   * the check just made, so it is never negative.
   */
  lemma ReachedCapWaitIsNonNegative(q: Quota, now: int)
    ensures var s := Status(AfterReset(q, now), now); FormatTimeUntilReset(s.resetTime, now)[0] != '-'
  {
    ResetTimeAfterCheck(q, now);
  }

  /** The persisted quota fields as the extension's global state holds them. */
  class QuotaStore {
    var tweetCount: int
    var lastResetTimestamp: Option<int>

    /** The counter is never negative: it starts at 0 and only grows or is zeroed. */
    ghost predicate Valid()
      reads this
    {
      tweetCount >= 0
    }

    function State(): Quota
      reads this
    {
      Quota(tweetCount, lastResetTimestamp)
    }

    /** A fresh global state: no counter (it reads as 0) and no timestamp. */
    constructor ()
      ensures Valid() && State() == Quota(0, None)
    {
      tweetCount := 0;
      lastResetTimestamp := None;
    }

    /** `resetIfNeeded`. */
    method ResetIfNeeded(now: int)
      requires Valid()
      modifies this
      ensures Valid()
      ensures State() == AfterReset(old(State()), now)
    {
      var lastReset := lastResetTimestamp;
      if lastReset.None? || lastReset.value == 0 {
        lastResetTimestamp := Some(now);
        return;
      }
      if now - lastReset.value >= ResetInterval {
        tweetCount := 0;
        lastResetTimestamp := Some(now);
      }
    }

    /** `canPostTweet`: the rollover first, then the report on the state it left. */
    method CanPostTweet(now: int) returns (status: RateStatus)
      requires Valid()
      modifies this
      ensures Valid()
      ensures State() == AfterReset(old(State()), now)
      ensures status == Status(State(), now)
      ensures status.canPost <==> tweetCount < RateLimitMax
      ensures status.remaining == Remaining(tweetCount)
      ensures now < status.resetTime
    {
      ResetIfNeeded(now);
      var count := tweetCount;
      var lastReset := if lastResetTimestamp.Some? then lastResetTimestamp.value else now;
      status := RateStatus(count < RateLimitMax, Remaining(count), EpochEnd(lastReset));
    }

    /** `incrementTweetCount`: one more post, no cap check, timestamp untouched. */
    method IncrementTweetCount()
      requires Valid()
      modifies this
      ensures Valid()
      ensures State() == Incremented(old(State()))
    {
      tweetCount := tweetCount + 1;
    }

    /** `getRemainingTweets`: reads the counter as stored, with no rollover. */
    function RemainingTweets(): (r: int)
      reads this
      requires Valid()
      ensures 0 <= r <= RateLimitMax
      ensures r > 0 <==> tweetCount < RateLimitMax
      ensures r == Remaining(tweetCount)
    {
      Remaining(tweetCount)
    }

    /** `getResetTime`: the end of the stored epoch, with no rollover; an unset timestamp reads as `now`. */
    function ResetTime(now: int): (r: int)
      reads this
      ensures r - ResetInterval == (if lastResetTimestamp.Some? then lastResetTimestamp.value else now)
    {
      EpochEnd(if lastResetTimestamp.Some? then lastResetTimestamp.value else now)
    }
  }
}
