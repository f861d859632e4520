/**
  The token side of Limiter (pkg/limits/ratelimit/limiter.go): up to two windows of tokens.
  The request side shares no state with it and is in RequestLimiter.dfy.
 */
module Limiters {
  import opened Windows
  import opened SlidingWindows

  datatype Config = Config(requestsPerSecond: int, requestsPerMinute: int, requestsPerHour: int,
                           tokensPerMinute: int, tokensPerHour: int)

  datatype CheckResult = Allowed | Refused(reason: string, limit: int, remaining: int, retryAfter: int)

  // ---------------------------------------------------------------- token windows

  /** The check's question about one window: would `estimated` more tokens pass the limit? */
  ghost predicate Exceeds(h: History, now: nat, estimated: int, limit: int) {
    Usage(h, now) + estimated as real > limit as real
  }

  /**
    What an answer means for the tokens really recorded: a window that does not exceed has
    room for the request within its last window minus one bucket, and one that does exceed
    is over within its last whole window.
   */
  lemma {:induction false} ExceedsMeaning(h: History, now: nat, estimated: int, limit: int)
    requires h.clock <= now && NonNegative(h.log)
    requires 0 < h.shape.window && h.shape.window % h.shape.bucket == 0
    requires h.shape.slots == SlotCount(h.shape.window, h.shape.bucket)
    ensures !Exceeds(h, now, estimated, limit) ==>
      TotalSince(h.log, now - h.shape.window + h.shape.bucket) + estimated as real <= limit as real
    ensures Exceeds(h, now, estimated, limit) ==>
      TotalSince(h.log, now - h.shape.window) + estimated as real > limit as real
  {
    UsageInSandwich(h, now);
    WholeBuckets(h.shape);
  }

  ghost function Storage(w: SlidingWindow?): set<object> {
    if w == null then {} else {w, w.buckets}
  }

  /** A configured window is present and has seen exactly `log` by `clock`. */
  ghost predicate Records(w: SlidingWindow?, limit: int, window: nat, bucket: nat, log: seq<Event>, clock: nat)
    requires 0 < bucket
    reads Storage(w)
  {
    && (w != null <==> limit > 0)
    && (w != null ==>
          && w.Valid() && w.history.shape == Shape(window, bucket, SlotCount(window, bucket))
          && w.history.log == log && w.history.clock <= clock)
  }

  method Exceeded(w: SlidingWindow?, limit: int, estimated: int, now: nat,
                  ghost window: nat, ghost bucket: nat, ghost log: seq<Event>, ghost until: nat)
    returns (over: bool, usage: int)
    requires 0 < bucket && Records(w, limit, window, bucket, log, now) && now <= until
    modifies Storage(w)
    ensures Records(w, limit, window, bucket, log, until)
    ensures over <==> w != null && Exceeds(old(w.history), now, estimated, limit)
    ensures over ==> usage as real == Usage(old(w.history), now)
  {
    over, usage := false, 0;
    if w != null {
      usage := w.Sum(now);
      over := usage + estimated > limit;
    }
  }

  method Record(w: SlidingWindow?, actual: int, now: nat, ghost limit: int,
                ghost window: nat, ghost bucket: nat, ghost log: seq<Event>, ghost until: nat)
    requires 0 < bucket <= now && Records(w, limit, window, bucket, log, now) && now <= until
    modifies Storage(w)
    ensures Records(w, limit, window, bucket, log + [Event(now, actual as real)], until)
  {
    if w != null { w.Add(now, actual); }
  }

  const MINUTE_REASON := "tokens per minute limit exceeded"
  const HOUR_REASON := "tokens per hour limit exceeded"

  /** A refusal names the window's limit and what is left of it. */
  ghost predicate Explains(result: CheckResult, reason: string, limit: int, usage: real, window: nat) {
    && result.Refused? && result.reason == reason && result.limit == limit && result.retryAfter == window
    && result.remaining as real == limit as real - usage
  }

  /** The token side of the limiter. */
  class TokenLimiter {
    const config: Config
    const tokensPerMinute: SlidingWindow?
    const tokensPerHour: SlidingWindow?

    ghost const Repr: set<object>
    // What each window has been given, and the time of the last call.
    ghost var minuteLog: seq<Event>
    ghost var hourLog: seq<Event>
    ghost var clock: nat

    ghost predicate Separate() {
      && Repr == Storage(tokensPerMinute) + Storage(tokensPerHour) && this !in Repr
      && Storage(tokensPerMinute) !! Storage(tokensPerHour)
    }

    ghost predicate Valid()
      reads this, Repr
    {
      && Separate()
      && Records(tokensPerMinute, config.tokensPerMinute, MINUTE, SECOND, minuteLog, clock)
      && Records(tokensPerHour, config.tokensPerHour, HOUR, MINUTE, hourLog, clock)
    }

    constructor (config: Config, ghost now: nat)
      ensures Valid() && fresh(Repr)
      ensures this.config == config && minuteLog == hourLog == [] && clock == now
    {
      this.config := config;
      var m: SlidingWindow?, h: SlidingWindow? := null, null;
      if config.tokensPerMinute > 0 { m := new SlidingWindow(MINUTE, SECOND, now); }
      if config.tokensPerHour > 0 { h := new SlidingWindow(HOUR, MINUTE, now); }
      tokensPerMinute, tokensPerHour := m, h;
      Repr := Storage(m) + Storage(h);
      minuteLog, hourLog, clock := [], [], now;
    }

    /** The first configured window that would exceed its limit refuses, and says by how much. */
    method CheckTokens(estimated: int, n1: nat, n2: nat) returns (result: CheckResult)
      requires Valid() && clock <= n1 <= n2
      modifies this`clock, Repr
      ensures Valid() && minuteLog == old(minuteLog) && hourLog == old(hourLog) && clock == n2
      ensures
        if tokensPerMinute != null && Exceeds(old(tokensPerMinute.history), n1, estimated, config.tokensPerMinute)
        then Explains(result, MINUTE_REASON, config.tokensPerMinute, Usage(old(tokensPerMinute.history), n1), MINUTE)
        else if tokensPerHour != null && Exceeds(old(tokensPerHour.history), n2, estimated, config.tokensPerHour)
        then Explains(result, HOUR_REASON, config.tokensPerHour, Usage(old(tokensPerHour.history), n2), HOUR)
        else result == Allowed
    {
      result := Allowed;
      var over, usage := Exceeded(tokensPerMinute, config.tokensPerMinute, estimated, n1, MINUTE, SECOND, minuteLog, n2);
      if over {
        result := Refused(MINUTE_REASON, config.tokensPerMinute, config.tokensPerMinute - usage, MINUTE);
      } else {
        over, usage := Exceeded(tokensPerHour, config.tokensPerHour, estimated, n2, HOUR, MINUTE, hourLog, n2);
        if over {
          result := Refused(HOUR_REASON, config.tokensPerHour, config.tokensPerHour - usage, HOUR);
        }
      }
      clock := n2;
    }

    method RecordTokens(actual: int, t1: nat, t2: nat)
      requires Valid() && clock <= t1 <= t2 && MINUTE <= t1
      modifies this, Repr
      ensures Valid() && clock == t2
      ensures minuteLog == old(minuteLog) + [Event(t1, actual as real)]
      ensures hourLog == old(hourLog) + [Event(t2, actual as real)]
    {
      Record(tokensPerMinute, actual, t1, config.tokensPerMinute, MINUTE, SECOND, minuteLog, t2);
      Record(tokensPerHour, actual, t2, config.tokensPerHour, HOUR, MINUTE, hourLog, t2);
      minuteLog := minuteLog + [Event(t1, actual as real)];
      hourLog := hourLog + [Event(t2, actual as real)];
      clock := t2;
    }
  }

  /** Exactly the configured windows exist, a minute in seconds and an hour in minutes, with what was recorded. */
  lemma {:induction false} WindowsConfigured(l: TokenLimiter)
    requires l.Valid()
    ensures (l.tokensPerMinute != null <==> l.config.tokensPerMinute > 0) && (l.tokensPerHour != null <==> l.config.tokensPerHour > 0)
    ensures l.tokensPerMinute != null ==>
      && l.tokensPerMinute.window == 60_000_000_000 && l.tokensPerMinute.bucketSize == 1_000_000_000
      && l.tokensPerMinute.history.log == l.minuteLog
    ensures l.tokensPerHour != null ==>
      && l.tokensPerHour.window == 3_600_000_000_000 && l.tokensPerHour.bucketSize == 60_000_000_000
      && l.tokensPerHour.history.log == l.hourLog
  {
  }

  /**
    A window's answer in recorded tokens: what it lets pass fits the last window less a
    bucket, what it refuses does not fit the last window.
   */
  lemma {:induction false} AnswerMeans(l: TokenLimiter, now: nat, estimated: int)
    requires l.Valid() && l.clock <= now && NonNegative(l.minuteLog) && NonNegative(l.hourLog)
    ensures l.tokensPerMinute != null ==>
      var over := Exceeds(l.tokensPerMinute.history, now, estimated, l.config.tokensPerMinute);
      && (!over ==> TotalSince(l.minuteLog, now - MINUTE + SECOND) + estimated as real <= l.config.tokensPerMinute as real)
      && (over ==> TotalSince(l.minuteLog, now - MINUTE) + estimated as real > l.config.tokensPerMinute as real)
    ensures l.tokensPerHour != null ==>
      var over := Exceeds(l.tokensPerHour.history, now, estimated, l.config.tokensPerHour);
      && (!over ==> TotalSince(l.hourLog, now - HOUR + MINUTE) + estimated as real <= l.config.tokensPerHour as real)
      && (over ==> TotalSince(l.hourLog, now - HOUR) + estimated as real > l.config.tokensPerHour as real)
  {
    if l.tokensPerMinute != null { ExceedsMeaning(l.tokensPerMinute.history, now, estimated, l.config.tokensPerMinute); }
    if l.tokensPerHour != null { ExceedsMeaning(l.tokensPerHour.history, now, estimated, l.config.tokensPerHour); }
  }
}
