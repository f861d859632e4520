/**
  Tracker (pkg/limits/budget/tracker.go): hourly, daily and monthly spending windows over
  one stream of amounts, and the check that compares each with its limit.
 */
module Trackers {
  import opened Windows
  import opened RollingWindows

  /** A zero or negative limit means the window is not configured. */
  datatype Config = Config(hourly: real, daily: real, monthly: real, alertThreshold: real)

  datatype Status = Status(
    allowed: bool, reason: string, limit: real, used: real, remaining: real, percentage: real,
    reset: nat, window: nat, alertTriggered: bool)

  const ALL_CLEAR := Status(true, "", 0.0, 0.0, 0.0, 0.0, 0, 0, false)

  // ---------------------------------------------------------------- spending against limits

  ghost function Limits(config: Config): seq<real> { [config.hourly, config.daily, config.monthly] }

  const REASONS := ["hourly budget limit exceeded", "daily budget limit exceeded", "monthly budget limit exceeded"]

  /** Not configured, or within the limit and, with alerts on, below the alert band. */
  ghost predicate Calm(limit: real, threshold: real, used: real) {
    limit <= 0.0 || (used <= limit && (threshold <= 0.0 || used < threshold * limit))
  }

  ghost predicate IsCalm(config: Config, used: seq<real>, i: nat)
    requires |used| == 3 && i < 3
  {
    Calm(Limits(config)[i], config.alertThreshold, used[i])
  }

  /** The shortest window that is not calm. */
  ghost predicate Stirs(config: Config, used: seq<real>, i: nat)
    requires |used| == 3
  {
    i < 3 && !IsCalm(config, used, i) && forall j: nat :: j < i ==> IsCalm(config, used, j)
  }

  /** The figures of a window: over its limit it is refused, otherwise it is an alert. */
  ghost predicate Describes(status: Status, limit: real, used: real, window: nat, reason: string) {
    && limit > 0.0 && status.limit == limit && status.used == used && status.window == window
    && status.percentage == used / limit
    && status.remaining == (if used > limit then 0.0 else limit - used)
    && status.allowed == (used <= limit) && status.alertTriggered == (used <= limit)
    && status.reason == if used > limit then reason else ""
  }

  /** The status Check owes for what the three windows report, in amounts. */
  ghost predicate Owed(config: Config, used: seq<real>, status: Status)
    requires |used| == 3
  {
    && ((forall i: nat :: i < 3 ==> IsCalm(config, used, i)) ==> status == ALL_CLEAR)
    && (forall i: nat :: Stirs(config, used, i) ==>
          Describes(status, Limits(config)[i], used[i], [HOUR, DAY, MONTH][i], REASONS[i]))
  }

  lemma {:induction false} SomeStirs(config: Config, used: seq<real>) returns (i: nat)
    requires |used| == 3 && !(forall i: nat :: i < 3 ==> IsCalm(config, used, i))
    ensures Stirs(config, used, i)
  {
    i := if !IsCalm(config, used, 0) then 0 else if !IsCalm(config, used, 1) then 1 else 2;
  }

  /**
    Check refuses exactly when some configured window exceeds its limit and every shorter
    one is calm; and it raises an alert exactly when the shortest window that is not calm
    is within its limit.
   */
  lemma {:induction false} RefusesIff(config: Config, used: seq<real>, status: Status)
    requires |used| == 3 && Owed(config, used, status)
    ensures !status.allowed <==>
      exists i: nat :: Exceeds(config, used, i) && forall j: nat :: j < i ==> IsCalm(config, used, j)
    ensures status.alertTriggered <==> exists i: nat :: Stirs(config, used, i) && used[i] <= Limits(config)[i]
  {
    if !(forall i: nat :: i < 3 ==> IsCalm(config, used, i)) {
      var i := SomeStirs(config, used);
      forall j: nat | Stirs(config, used, j) ensures j == i {}
      if !status.allowed { assert Exceeds(config, used, i); }
    }
  }

  /** The window is configured and over its limit. */
  ghost predicate Exceeds(config: Config, used: seq<real>, i: nat)
    requires |used| == 3
  {
    i < 3 && Limits(config)[i] > 0.0 && used[i] > Limits(config)[i]
  }

  /** With alerts off, Check refuses exactly when some configured window is over its limit. */
  lemma {:induction false} RefusesWithoutAlerts(config: Config, used: seq<real>, status: Status)
    requires |used| == 3 && Owed(config, used, status) && config.alertThreshold <= 0.0
    ensures !status.allowed <==> exists i: nat :: Exceeds(config, used, i)
  {
    RefusesIff(config, used, status);
    if i: nat :| Exceeds(config, used, i) {
      var k := SomeStirs(config, used);
      assert Exceeds(config, used, k);
    }
  }

  // ---------------------------------------------------------------- agreement of windows

  /** The same amounts, each reaching the second log no earlier than the first. */
  ghost predicate Follows(first: seq<Event>, second: seq<Event>) {
    && |first| == |second|
    && forall k :: 0 <= k < |first| ==>
         first[k].amount == second[k].amount && first[k].time <= second[k].time
  }

  lemma {:induction false} FollowsTotal(first: seq<Event>, second: seq<Event>, from: int, from': int)
    requires Follows(first, second) && NonNegative(first) && from' <= from
    ensures TotalSince(first, from) <= TotalSince(second, from')
    ensures TotalSince(second, from') <= Total(first)
  {
    if |first| > 0 {
      var n := |first| - 1;
      FollowsTotal(first[..n], second[..n], from, from');
    }
  }

  /**
    Cross-window agreement: when the longer window's guaranteed part covers the whole
    shorter window, the shorter one never reports more, at any instant.
   */
  lemma {:induction false} ShorterReportsLess(short: History, long: History, now: nat)
    requires short.clock <= now && long.clock <= now
    requires Follows(short.log, long.log) && NonNegative(short.log)
    requires short.shape.window + long.shape.bucket <= long.shape.Horizon()
    ensures Usage(short, now) <= Usage(long, now) <= Total(short.log)
  {
    UsageInSandwich(short, now);
    UsageInSandwich(long, now);
    assert NonNegative(long.log);
    FollowsTotal(short.log, long.log, now - short.shape.window, SureSince(long.shape, now));
    FollowsTotal(short.log, long.log, now - long.shape.window, now - long.shape.window);
  }

  ghost function HourlyShape(): Shape { Shape(HOUR, MINUTE, SlotCount(HOUR, MINUTE)) }
  ghost function DailyShape(): Shape { Shape(DAY, HOUR, SlotCount(DAY, HOUR)) }
  ghost function MonthlyShape(): Shape { Shape(MONTH, DAY, SlotCount(MONTH, DAY)) }

  /** At every instant: hourly <= daily <= monthly <= everything ever spent. */
  lemma {:induction false} WindowsAgree(hourly: History, daily: History, monthly: History, now: nat)
    requires hourly.shape == HourlyShape() && daily.shape == DailyShape() && monthly.shape == MonthlyShape()
    requires hourly.clock <= now && daily.clock <= now && monthly.clock <= now
    requires Follows(hourly.log, daily.log) && Follows(daily.log, monthly.log) && NonNegative(hourly.log)
    ensures Usage(hourly, now) <= Usage(daily, now) <= Usage(monthly, now) <= Total(hourly.log)
  {
    WholeBuckets(daily.shape);
    WholeBuckets(monthly.shape);
    assert NonNegative(daily.log);
    ShorterReportsLess(hourly, daily, now);
    ShorterReportsLess(daily, monthly, now);
    FollowsSameTotal(hourly.log, daily.log);
  }

  lemma {:induction false} FollowsSameTotal(first: seq<Event>, second: seq<Event>)
    requires Follows(first, second)
    ensures Total(first) == Total(second)
  {
    if |first| > 0 { FollowsSameTotal(first[..|first|-1], second[..|first|-1]); }
  }

  lemma {:induction false} WindowBounds(h: History, now: nat)
    requires h.clock <= now && NonNegative(h.log)
    requires h.shape in {HourlyShape(), DailyShape(), MonthlyShape()}
    ensures TotalSince(h.log, now - h.shape.window + h.shape.bucket) <= Usage(h, now)
            <= TotalSince(h.log, now - h.shape.window)
  {
    UsageInSandwich(h, now);
    WholeBuckets(h.shape);
  }

  // ---------------------------------------------------------------- the tracker

  /** A configured window is present, of the right shape, and has seen exactly `log` by `clock`. */
  ghost predicate Tracks(w: RollingWindow?, limit: real, shape: Shape, log: seq<Event>, clock: nat)
    reads w, Footprint(w)
  {
    && (w != null <==> limit > 0.0)
    && (w != null ==> w.Valid() && w.history.shape == shape && w.history.log == log && w.history.clock <= clock)
  }

  datatype Entries = Entries(hourly: seq<Event>, daily: seq<Event>, monthly: seq<Event>, total: real)

  /** What reached each window: the same amounts, never earlier in a longer window. */
  type Books = e: Entries | Follows(e.hourly, e.daily) && Follows(e.daily, e.monthly) && e.total == Total(e.hourly)
    ghost witness Entries([], [], [], 0.0)

  ghost function Posted(b: Books, amount: real, t1: nat, t2: nat, t3: nat): (r: Books)
    requires t1 <= t2 <= t3
    ensures r == Entries(b.hourly + [Event(t1, amount)], b.daily + [Event(t2, amount)],
                         b.monthly + [Event(t3, amount)], b.total + amount)
  {
    FollowsLater(b.hourly, b.daily, t1, t2, amount);
    FollowsLater(b.daily, b.monthly, t2, t3, amount);
    TotalAfter(b.hourly, Event(t1, amount));
    Entries(b.hourly + [Event(t1, amount)], b.daily + [Event(t2, amount)],
            b.monthly + [Event(t3, amount)], b.total + amount)
  }

  lemma {:induction false} FollowsLater(first: seq<Event>, second: seq<Event>, t: nat, t': nat, amount: real)
    requires Follows(first, second) && t <= t'
    ensures Follows(first + [Event(t, amount)], second + [Event(t', amount)])
  {
  }

  lemma {:induction false} TotalAfter(log: seq<Event>, e: Event)
    ensures Total(log + [e]) == Total(log) + e.amount
  {
    assert (log + [e])[..|log|] == log;
  }

  ghost function Footprint(w: RollingWindow?): set<object> {
    if w == null then {} else {w, w.buckets}
  }

  /** A window for a configured limit, none otherwise. */
  method NewWindow(limit: real, window: nat, bucketSize: nat, ghost now: nat) returns (w: RollingWindow?)
    requires 0 < bucketSize
    ensures fresh(Footprint(w))
    ensures Tracks(w, limit, Shape(window, bucketSize, SlotCount(window, bucketSize)), [], now)
  {
    w := null;
    if limit > 0.0 { w := new RollingWindow(window, bucketSize, now); }
  }

  /** Adds to a window if there is one. */
  method AddTo(w: RollingWindow?, now: nat, amount: real,
               ghost limit: real, ghost shape: Shape, ghost log: seq<Event>, ghost until: nat)
    requires Tracks(w, limit, shape, log, now) && shape.bucket <= now <= until
    modifies Footprint(w)
    ensures Tracks(w, limit, shape, log + [Event(now, amount)], until)
  {
    if w != null { w.Add(now, amount); }
  }

  /** What a window reports at `now`; an absent one reports nothing. */
  ghost function Used(w: RollingWindow?, now: nat): real
    reads w
  {
    if w == null then 0.0 else Usage(w.history, now)
  }

  /** When a window with these slots resets: as its oldest bucket expires, or at once if it is empty. */
  ghost predicate ResetDue(slots: seq<Slot>, window: nat, now: nat, reset: nat) {
    if forall i :: 0 <= i < |slots| ==> Empty(slots[i]) then reset == now
    else
      && (exists i :: 0 <= i < |slots| && !Empty(slots[i]) && reset == slots[i].timestamp + window)
      && (forall i :: 0 <= i < |slots| && !Empty(slots[i]) ==> reset <= slots[i].timestamp + window)
  }

  method CalculateReset(w: RollingWindow, now: nat) returns (reset: nat)
    requires w.Valid()
    ensures ResetDue(w.buckets[..], w.window, now, reset)
  {
    var oldest := w.OldestTimestamp();
    reset := if oldest == 0 then now else oldest + w.window;
    if oldest != 0 {
      var i :| 0 <= i < w.buckets.Length && w.buckets[i].timestamp == oldest;
      assert !Empty(w.buckets[..][i]);
    }
  }

  /** The reset time of a window that is pruned at `now`. */
  ghost predicate ResetsAt(w: RollingWindow?, now: nat, reset: nat)
    reads w
  {
    w != null ==> ResetDue(Pruned(w.history.slots, now - w.window), w.window, now, reset)
  }

  lemma {:induction false} ShareOfLimit(used: real, limit: real, threshold: real)
    requires limit > 0.0
    ensures used / limit >= threshold <==> used >= threshold * limit
  {
    var share := used / limit;
    assert share * limit == used;
    if share >= threshold { assert (share - threshold) * limit >= 0.0; }
    if share < threshold { assert (threshold - share) * limit > 0.0; }
  }

  /** Compares one window, if there is one, with its limit. */
  method Inspect(w: RollingWindow?, limit: real, threshold: real, now: nat, window: nat, reason: string,
                 ghost shape: Shape, ghost log: seq<Event>, ghost until: nat)
    returns (calm: bool, status: Status)
    requires Tracks(w, limit, shape, log, now) && now <= until
    modifies Footprint(w)
    ensures Tracks(w, limit, shape, log, until)
    ensures calm <==> Calm(limit, threshold, old(Used(w, now)))
    ensures calm ==> status == ALL_CLEAR
    ensures !calm ==>
      Describes(status, limit, old(Used(w, now)), window, reason) && old(ResetsAt(w, now, status.reset))
  {
    calm, status := true, ALL_CLEAR;
    if w != null {
      var used := w.Sum(now);
      var percentage := used / limit;
      ShareOfLimit(used, limit, threshold);
      if used > limit {
        var reset := CalculateReset(w, now);
        return false, Status(false, reason, limit, used, 0.0, percentage, reset, window, false);
      }
      if threshold > 0.0 && percentage >= threshold {
        var reset := CalculateReset(w, now);
        return false, Status(true, "", limit, used, limit - used, percentage, reset, window, true);
      }
    }
  }

  class Tracker {
    const config: Config
    const hourly: RollingWindow?
    const daily: RollingWindow?
    const monthly: RollingWindow?
    var totalSpent: real

    // Everything ever added and the time of the last call.
    ghost var books: Books
    ghost var clock: nat

    ghost const Repr: set<object>

    ghost predicate Separate() {
      && Repr == Footprint(hourly) + Footprint(daily) + Footprint(monthly) && this !in Repr
      && Footprint(hourly) !! Footprint(daily) && Footprint(hourly) !! Footprint(monthly)
      && Footprint(daily) !! Footprint(monthly)
    }

    ghost predicate Valid()
      reads this, Repr
    {
      && Separate()
      && Tracks(hourly, config.hourly, HourlyShape(), books.hourly, clock)
      && Tracks(daily, config.daily, DailyShape(), books.daily, clock)
      && Tracks(monthly, config.monthly, MonthlyShape(), books.monthly, clock)
      && totalSpent == books.total
    }

    constructor (config: Config, ghost now: nat)
      ensures Valid() && fresh(Repr)
      ensures this.config == config && books == Entries([], [], [], 0.0) && clock == now
    {
      this.config := config;
      totalSpent := 0.0;
      books, clock := Entries([], [], [], 0.0), now;
      var h := NewWindow(config.hourly, HOUR, MINUTE, now);
      var d := NewWindow(config.daily, DAY, HOUR, now);
      var m := NewWindow(config.monthly, MONTH, DAY, now);
      hourly, daily, monthly := h, d, m;
      Repr := Footprint(h) + Footprint(d) + Footprint(m);
    }

    /** Each window reads the clock for itself, so one amount may carry three times. */
    method AddToWindows(amount: real, t1: nat, t2: nat, t3: nat)
      requires Valid() && clock <= t1 <= t2 <= t3 && DAY <= t1
      modifies Repr
      ensures Tracks(hourly, config.hourly, HourlyShape(), books.hourly + [Event(t1, amount)], t3)
      ensures Tracks(daily, config.daily, DailyShape(), books.daily + [Event(t2, amount)], t3)
      ensures Tracks(monthly, config.monthly, MonthlyShape(), books.monthly + [Event(t3, amount)], t3)
    {
      AddTo(hourly, t1, amount, config.hourly, HourlyShape(), books.hourly, t3);
      AddTo(daily, t2, amount, config.daily, DailyShape(), books.daily, t3);
      AddTo(monthly, t3, amount, config.monthly, MonthlyShape(), books.monthly, t3);
    }

    method Add(amount: real, t1: nat, t2: nat, t3: nat)
      requires Valid() && clock <= t1 <= t2 <= t3 && DAY <= t1
      modifies this, Repr
      ensures Valid()
      ensures books == Posted(old(books), amount, t1, t2, t3) && clock == t3
    {
      AddToWindows(amount, t1, t2, t3);
      AddToTotal(amount, Posted(books, amount, t1, t2, t3), t3);
    }

    /** The last step of Add, once every window has the amount. */
    method AddToTotal(amount: real, ghost after: Books, ghost now: nat)
      requires Separate() && totalSpent + amount == after.total
      requires Tracks(hourly, config.hourly, HourlyShape(), after.hourly, now)
      requires Tracks(daily, config.daily, DailyShape(), after.daily, now)
      requires Tracks(monthly, config.monthly, MonthlyShape(), after.monthly, now)
      modifies this
      ensures Valid() && books == after && clock == now
    {
      totalSpent := totalSpent + amount;
      books, clock := after, now;
    }

    method Check(n1: nat, n2: nat, n3: nat) returns (status: Status)
      requires Valid() && clock <= n1 <= n2 <= n3
      modifies this`clock, Repr
      ensures Valid() && books == old(books) && clock == n3
      ensures Owed(config, old([Used(hourly, n1), Used(daily, n2), Used(monthly, n3)]), status)
      ensures var used := old([Used(hourly, n1), Used(daily, n2), Used(monthly, n3)]);
        && (Stirs(config, used, 0) ==> old(ResetsAt(hourly, n1, status.reset)))
        && (Stirs(config, used, 1) ==> old(ResetsAt(daily, n2, status.reset)))
        && (Stirs(config, used, 2) ==> old(ResetsAt(monthly, n3, status.reset)))
    {
      status := CheckWindows(n1, n2, n3);
      clock := n3;
    }

    /** Shortest window first; the first one over its limit or in its alert band decides. */
    method CheckWindows(n1: nat, n2: nat, n3: nat) returns (status: Status)
      requires Valid() && clock <= n1 <= n2 <= n3
      modifies Repr
      ensures Owed(config, old([Used(hourly, n1), Used(daily, n2), Used(monthly, n3)]), status)
      ensures var used := old([Used(hourly, n1), Used(daily, n2), Used(monthly, n3)]);
        && (Stirs(config, used, 0) ==> old(ResetsAt(hourly, n1, status.reset)))
        && (Stirs(config, used, 1) ==> old(ResetsAt(daily, n2, status.reset)))
        && (Stirs(config, used, 2) ==> old(ResetsAt(monthly, n3, status.reset)))
      ensures books == old(books) && totalSpent == old(totalSpent)
      ensures Tracks(hourly, config.hourly, HourlyShape(), books.hourly, n3)
      ensures Tracks(daily, config.daily, DailyShape(), books.daily, n3)
      ensures Tracks(monthly, config.monthly, MonthlyShape(), books.monthly, n3)
    {
      ghost var seen := [Used(hourly, n1), Used(daily, n2), Used(monthly, n3)];
      var calm;
      calm, status := Inspect(hourly, config.hourly, config.alertThreshold, n1, HOUR, REASONS[0], HourlyShape(), books.hourly, n3);
      assert calm <==> IsCalm(config, seen, 0);
      if !calm {
        return;
      }
      calm, status := Inspect(daily, config.daily, config.alertThreshold, n2, DAY, REASONS[1], DailyShape(), books.daily, n3);
      assert calm <==> IsCalm(config, seen, 1);
      if !calm {
        return;
      }
      calm, status := Inspect(monthly, config.monthly, config.alertThreshold, n3, MONTH, REASONS[2], MonthlyShape(), books.monthly, n3);
      assert calm <==> IsCalm(config, seen, 2);
    }

    /** Exactly the configured windows exist: 60 minutes, 24 hours and 30 days, in buckets of a minute, an hour and a day. */
    lemma {:induction false} Configured()
      requires Valid()
      ensures (hourly != null <==> config.hourly > 0.0) && (daily != null <==> config.daily > 0.0)
        && (monthly != null <==> config.monthly > 0.0)
      ensures hourly != null ==> hourly.window == 3_600_000_000_000 && hourly.bucketSize == 60_000_000_000
      ensures daily != null ==> daily.window == 24 * 3_600_000_000_000 && daily.bucketSize == 3_600_000_000_000
      ensures monthly != null ==> monthly.window == 720 * 3_600_000_000_000 && monthly.bucketSize == 24 * 3_600_000_000_000
    {
    }

    /** What each window reports, in what was spent: the last window, to within one bucket. */
    lemma {:induction false} Bounds(now: nat)
      requires Valid() && clock <= now && NonNegative(books.hourly)
      ensures hourly != null ==>
        TotalSince(books.hourly, now - HOUR + MINUTE) <= Used(hourly, now) <= TotalSince(books.hourly, now - HOUR)
      ensures daily != null ==>
        TotalSince(books.daily, now - DAY + HOUR) <= Used(daily, now) <= TotalSince(books.daily, now - DAY)
      ensures monthly != null ==>
        TotalSince(books.monthly, now - MONTH + DAY) <= Used(monthly, now) <= TotalSince(books.monthly, now - MONTH)
    {
      assert NonNegative(books.daily) && NonNegative(books.monthly);
      if hourly != null { WindowBounds(hourly.history, now); }
      if daily != null { WindowBounds(daily.history, now); }
      if monthly != null { WindowBounds(monthly.history, now); }
    }

    /** At every instant the three windows agree with each other and with the all-time total. */
    lemma {:induction false} Agreement(now: nat)
      requires Valid() && clock <= now && NonNegative(books.hourly)
      requires config.hourly > 0.0 && config.daily > 0.0 && config.monthly > 0.0
      ensures Used(hourly, now) <= Used(daily, now) <= Used(monthly, now) <= totalSpent
    {
      WindowsAgree(hourly.history, daily.history, monthly.history, now);
    }
  }

  // ---------------------------------------------------------------- an alert that hides a limit

  /** After 19 at `start` and 6 two hours later, the hour holds 6 and the day 25. */
  lemma {:induction false} HourAndDay(hourly: History, daily: History, start: nat)
    requires hourly.shape == HourlyShape() && daily.shape == DailyShape()
    requires hourly.log == daily.log == [Event(start, 19.0), Event(start + 2 * HOUR, 6.0)]
    requires hourly.clock <= start + 2 * HOUR && daily.clock <= start + 2 * HOUR
    ensures Usage(hourly, start + 2 * HOUR) == 6.0 && Usage(daily, start + 2 * HOUR) == 25.0
  {
    var now, log := start + 2 * HOUR, hourly.log;
    UsageInSandwich(hourly, now);
    UsageInSandwich(daily, now);
    WholeBuckets(hourly.shape);
    WholeBuckets(daily.shape);
    assert NonNegative(log);
    TwoEvents(log, now - HOUR);
    TwoEvents(log, now - HOUR + MINUTE);
    TwoEvents(log, now - DAY);
    TwoEvents(log, now - DAY + HOUR);
  }

  lemma {:induction false} TwoEvents(log: seq<Event>, from: int)
    requires |log| == 2
    ensures TotalSince(log, from) ==
      (if log[0].time >= from then log[0].amount else 0.0) + (if log[1].time >= from then log[1].amount else 0.0)
  {
    assert log[..1][..0] == [];
    assert TotalSince(log[..1], from) == if log[0].time >= from then log[0].amount else 0.0;
  }

  /** Limits of 10 an hour and 20 a day, alert at half. */
  const TIGHT := Config(10.0, 20.0, 0.0, 0.5)

  lemma {:induction false} SixInTheHour(used: seq<real>, status: Status)
    requires |used| == 3 && used[0] == 6.0 && Owed(TIGHT, used, status)
    ensures status.allowed && status.alertTriggered && status.window == HOUR && status.used == 6.0
  {
    assert Stirs(TIGHT, used, 0);
  }

  method SpendOnce(start: nat) returns (tracker: Tracker)
    requires DAY <= start
    ensures tracker.Valid() && fresh(tracker) && fresh(tracker.Repr) && tracker.config == TIGHT
    ensures tracker.clock == start && tracker.books.hourly == tracker.books.daily == [Event(start, 19.0)]
  {
    tracker := new Tracker(TIGHT, start);
    tracker.Add(19.0, start, start, start);
  }

  /** Spends 19 at `start` and 6 two hours later. */
  method SpendTwice(start: nat) returns (tracker: Tracker)
    requires DAY <= start
    ensures tracker.Valid() && fresh(tracker) && fresh(tracker.Repr) && tracker.config == TIGHT
    ensures tracker.clock == start + 2 * HOUR
    ensures tracker.books.hourly == tracker.books.daily == [Event(start, 19.0), Event(start + 2 * HOUR, 6.0)]
  {
    var now := start + 2 * HOUR;
    tracker := SpendOnce(start);
    tracker.Add(6.0, now, now, now);
  }

  ghost predicate SpentTwice(tracker: Tracker, start: nat)
    reads tracker
  {
    && tracker.config == TIGHT && tracker.clock == start + 2 * HOUR
    && tracker.books.hourly == tracker.books.daily == [Event(start, 19.0), Event(start + 2 * HOUR, 6.0)]
  }

  lemma {:induction false} TightSums(tracker: Tracker, start: nat)
    requires tracker.Valid() && SpentTwice(tracker, start)
    ensures tracker.daily != null && Used(tracker.hourly, start + 2 * HOUR) == 6.0 && Used(tracker.daily, start + 2 * HOUR) == 25.0
  {
    HourAndDay(tracker.hourly.history, tracker.daily.history, start);
  }

  method CheckTight(tracker: Tracker, start: nat) returns (status: Status)
    requires tracker.Valid() && SpentTwice(tracker, start)
    modifies tracker, tracker.Repr
    ensures tracker.Valid() && SpentTwice(tracker, start)
    ensures status.allowed && status.alertTriggered && status.window == HOUR && status.used == 6.0
  {
    var now := start + 2 * HOUR;
    TightSums(tracker, start);
    ghost var used := [Used(tracker.hourly, now), Used(tracker.daily, now), Used(tracker.monthly, now)];
    status := tracker.Check(now, now, now);
    SixInTheHour(used, status);
  }

  /** Check lets the next request through with an hourly alert, although the day stands at 25 of 20. */
  method AlertHidesDailyLimit(start: nat) returns (tracker: Tracker, status: Status)
    requires DAY <= start
    ensures tracker.Valid() && tracker.config == TIGHT && tracker.daily != null
    ensures Used(tracker.daily, start + 2 * HOUR) == 25.0
    ensures status.allowed && status.alertTriggered && status.window == HOUR && status.used == 6.0
  {
    tracker := SpendTwice(start);
    status := CheckTight(tracker, start);
    TightSums(tracker, start);
  }
}
