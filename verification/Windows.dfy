/**
  The bucketed usage window shared by the token windows (pkg/limits/ratelimit) and the
  money windows (pkg/limits/budget), as functions on a sequence of slots, and the simple
  thing it stands for: the total of the events in a log.

  Times are integer nanoseconds since Go's zero time, so 0 is the zero time and marks an
  empty slot.  Amounts are exact reals.
 */
module Windows {

  const SECOND: nat := 1_000_000_000
  const MINUTE: nat := 60_000_000_000
  const HOUR: nat := 3_600_000_000_000
  const DAY: nat := 86_400_000_000_000
  const MONTH: nat := 2_592_000_000_000_000

  datatype Slot = Slot(timestamp: nat, amount: real)

  datatype Event = Event(time: nat, amount: real)

  const EMPTY := Slot(0, 0.0)

  /** Shape of a window: its duration, its bucket width and its number of slots. */
  datatype Shape = Shape(window: nat, bucket: nat, slots: nat) {

    predicate Valid() {
      0 < bucket && 0 < slots
    }

    /** How far back a bucket is certain to be kept. */
    ghost function Horizon(): nat {
      if Times(slots, bucket) < window then Times(slots, bucket) else window
    }
  }

  /** The number of slots a window is created with. */
  function SlotCount(window: nat, bucket: nat): nat
    requires 0 < bucket
  {
    if window / bucket == 0 then 1 else window / bucket
  }

  /** `n * b`, written as a sum so that proofs stay linear. */
  ghost function Times(n: nat, b: nat): nat {
    if n == 0 then 0 else Times(n - 1, b) + b
  }

  lemma {:induction false} TimesIsProduct(n: nat, b: nat)
    ensures Times(n, b) == n * b
  {
    if n > 0 { TimesIsProduct(n - 1, b); }
  }

  /** The largest multiple of `bucket` that is not after `t`. */
  ghost function Truncate(t: nat, bucket: nat): nat
    requires 0 < bucket
  {
    if t < bucket then 0 else bucket + Truncate(t - bucket, bucket)
  }

  lemma {:induction false} TruncateIsRounding(t: nat, bucket: nat)
    requires 0 < bucket
    ensures Truncate(t, bucket) == t - t % bucket
  {
    if t >= bucket {
      TruncateIsRounding(t - bucket, bucket);
      ModuloShift(t, bucket);
    }
  }

  lemma {:induction false} ModuloShift(t: nat, bucket: nat)
    requires 0 < bucket <= t
    ensures (t - bucket) % bucket == t % bucket
  {
    var q, r := (t - bucket) / bucket, (t - bucket) % bucket;
    assert t == bucket * q + bucket + r == bucket * (q + 1) + r;
    UniqueRemainder(t, bucket, q + 1, r);
  }

  lemma {:induction false} UniqueRemainder(t: nat, bucket: nat, q: int, r: nat)
    requires 0 < bucket && t == bucket * q + r && r < bucket
    ensures t % bucket == r
  {
    var d := t / bucket - q;
    assert bucket * d == r - t % bucket;
    if d > 0 { ScaleUp(bucket, d); } else if d < 0 { ScaleUp(bucket, -d); }
  }

  lemma {:induction false} ScaleUp(b: nat, d: int)
    requires 0 < d
    ensures b <= b * d
  {
  }

  lemma {:induction false} TruncateBounds(t: nat, bucket: nat)
    requires 0 < bucket
    ensures Truncate(t, bucket) <= t < Truncate(t, bucket) + bucket
    ensures Aligned(Truncate(t, bucket), bucket)
    ensures bucket <= t ==> 0 < Truncate(t, bucket)
  {
    if t >= bucket { TruncateBounds(t - bucket, bucket); }
  }

  lemma {:induction false} TruncateMonotone(s: nat, t: nat, bucket: nat)
    requires 0 < bucket && s <= t
    ensures Truncate(s, bucket) <= Truncate(t, bucket)
  {
    if s >= bucket { TruncateMonotone(s - bucket, t - bucket, bucket); }
  }

  ghost predicate Aligned(t: nat, bucket: nat)
    requires 0 < bucket
  {
    Truncate(t, bucket) == t
  }

  /** Two bucket-aligned times that differ are at least one bucket apart. */
  lemma {:induction false} AlignedGap(s: nat, t: nat, bucket: nat)
    requires 0 < bucket && Aligned(s, bucket) && Aligned(t, bucket) && s < t
    ensures s + bucket <= t
  {
    if s >= bucket { AlignedGap(s - bucket, t - bucket, bucket); }
  }

  // ---------------------------------------------------------------- the operations

  predicate Empty(s: Slot) { s.timestamp == 0 }

  function Pruned(slots: seq<Slot>, cutoff: int): (r: seq<Slot>)
    ensures |r| == |slots|
  {
    seq(|slots|, i requires 0 <= i < |slots| =>
      if !Empty(slots[i]) && slots[i].timestamp < cutoff then EMPTY else slots[i])
  }

  predicate Holds(slots: seq<Slot>, stamp: nat) {
    exists i :: 0 <= i < |slots| && slots[i].timestamp == stamp
  }

  /** `i` is the first slot stamped `stamp`. */
  ghost predicate FirstStamped(slots: seq<Slot>, stamp: nat, i: int) {
    0 <= i < |slots| && slots[i].timestamp == stamp && forall j :: 0 <= j < i ==> slots[j].timestamp != stamp
  }

  /** `i` is the first slot with the least timestamp. */
  ghost predicate FirstOldest(slots: seq<Slot>, i: int) {
    && 0 <= i < |slots|
    && (forall j :: 0 <= j < |slots| ==> slots[i].timestamp <= slots[j].timestamp)
    && (forall j :: 0 <= j < i ==> slots[i].timestamp < slots[j].timestamp)
  }

  /** The slot that serves `stamp`: an existing one, else the first empty one, else the oldest. */
  ghost predicate Serves(slots: seq<Slot>, stamp: nat, i: int) {
    if Holds(slots, stamp) then FirstStamped(slots, stamp, i)
    else if Holds(slots, 0) then FirstStamped(slots, 0, i)
    else FirstOldest(slots, i)
  }

  /** The slots after adding `amount` at bucket time `stamp`, slot `i` serving it. */
  ghost function Credited(slots: seq<Slot>, stamp: nat, i: int, amount: real): seq<Slot>
    requires 0 <= i < |slots|
  {
    if slots[i].timestamp == stamp then slots[i := Slot(stamp, slots[i].amount + amount)]
    else slots[i := Slot(stamp, amount)]
  }

  function SumSlots(slots: seq<Slot>): real {
    if |slots| == 0 then 0.0
    else SumSlots(slots[..|slots|-1]) + (if Empty(slots[|slots|-1]) then 0.0 else slots[|slots|-1].amount)
  }

  /** What Sum returns at `now`: it prunes, then adds up the slots that are left. */
  ghost function SumAt(shape: Shape, slots: seq<Slot>, now: nat): real {
    SumSlots(Pruned(slots, now - shape.window))
  }

  // ---------------------------------------------------------------- the meaning

  /** Total of the events whose bucket is in `stamps`. */
  ghost function Covered(log: seq<Event>, bucket: int, stamps: set<nat>): real
    requires 0 < bucket
  {
    if |log| == 0 then 0.0
    else Covered(log[..|log|-1], bucket, stamps)
         + (if Truncate(log[|log|-1].time, bucket) in stamps then log[|log|-1].amount else 0.0)
  }

  /** Total of the events at or after `from`. */
  ghost function TotalSince(log: seq<Event>, from: int): real {
    if |log| == 0 then 0.0
    else TotalSince(log[..|log|-1], from) + (if log[|log|-1].time >= from then log[|log|-1].amount else 0.0)
  }

  ghost function Total(log: seq<Event>): real {
    if |log| == 0 then 0.0 else Total(log[..|log|-1]) + log[|log|-1].amount
  }

  ghost predicate NonNegative(log: seq<Event>) {
    forall i :: 0 <= i < |log| ==> log[i].amount >= 0.0
  }

  ghost function Stamps(slots: seq<Slot>): set<nat> {
    set i | 0 <= i < |slots| && !Empty(slots[i]) :: slots[i].timestamp
  }

  // ---------------------------------------------------------------- the invariant

  /** Non-empty slots carry distinct bucket-aligned times. */
  ghost predicate WellStamped(shape: Shape, slots: seq<Slot>)
    requires 0 < shape.bucket
  {
    && |slots| == shape.slots
    && (forall i :: 0 <= i < |slots| ==> Aligned(slots[i].timestamp, shape.bucket))
    && (forall i, j :: 0 <= i < j < |slots| && !Empty(slots[i]) ==> slots[i].timestamp != slots[j].timestamp)
  }

  /**
    A slot holds exactly the log's total for its bucket.  Only a window shorter than one
    bucket may drop a slot while its bucket is still current; there the log bounds the slot.
   */
  ghost predicate Exact(shape: Shape, slots: seq<Slot>, log: seq<Event>)
    requires 0 < shape.bucket
  {
    forall i :: 0 <= i < |slots| && !Empty(slots[i]) ==> ExactSlot(shape, slots[i], log)
  }

  ghost predicate ExactSlot(shape: Shape, s: Slot, log: seq<Event>)
    requires 0 < shape.bucket
  {
    var total := Covered(log, shape.bucket, {s.timestamp});
    && (shape.bucket <= shape.window ==> s.amount == total)
    && (NonNegative(log) ==> 0.0 <= s.amount <= total)
  }

  ghost predicate Retained(shape: Shape, slots: seq<Slot>, log: seq<Event>, clock: nat)
    requires 0 < shape.bucket
  {
    forall k :: 0 <= k < |log| && Truncate(log[k].time, shape.bucket) > clock - shape.Horizon()
      ==> Holds(slots, Truncate(log[k].time, shape.bucket))
  }

  /**
    What every window keeps between calls: `clock` is the time of the last call and `log`
    every amount ever added.
   */
  ghost predicate Facts(shape: Shape, slots: seq<Slot>, log: seq<Event>, clock: nat) {
    && shape.Valid()
    && WellStamped(shape, slots)
    && Exact(shape, slots, log)
    && Retained(shape, slots, log, clock)
    && (forall i :: 0 <= i < |slots| ==> slots[i].timestamp <= clock)
    && (forall k :: 0 <= k < |log| ==> shape.bucket <= log[k].time <= clock)
  }

  /** Every non-empty slot is stamped between `from` and `to`. */
  ghost predicate Within(slots: seq<Slot>, from: int, to: int) {
    forall i :: 0 <= i < |slots| && !Empty(slots[i]) ==> from <= slots[i].timestamp <= to
  }

  /** Reading the clock and pruning keeps the invariant and leaves nothing before the cutoff. */
  lemma {:induction false} PruneInv(shape: Shape, slots: seq<Slot>, log: seq<Event>, clock: nat, now: nat)
    requires Facts(shape, slots, log, clock) && clock <= now
    ensures Facts(shape, Pruned(slots, now - shape.window), log, now)
    ensures Within(Pruned(slots, now - shape.window), now - shape.window, now)
  {
    var p := Pruned(slots, now - shape.window);
    forall k | 0 <= k < |log| && Truncate(log[k].time, shape.bucket) > now - shape.Horizon()
      ensures Holds(p, Truncate(log[k].time, shape.bucket))
    {
      var b := Truncate(log[k].time, shape.bucket);
      var i :| 0 <= i < |slots| && slots[i].timestamp == b;
      assert p[i] == slots[i];
    }
  }

  // ---------------------------------------------------------------- eviction

  /** `slots` non-empty aligned distinct stamps below `stamp` reach back at least `slots` buckets. */
  lemma {:induction false} OldestReachesBack(stamps: set<nat>, bucket: int, stamp: nat) returns (least: nat)
    requires 0 < bucket && Aligned(stamp, bucket) && stamps != {}
    requires forall s :: s in stamps ==> Aligned(s, bucket) && s < stamp
    ensures least in stamps && least <= stamp - Times(|stamps|, bucket)
    decreases |stamps|
  {
    var top :| top in stamps && forall s :: s in stamps ==> s <= top by { MaxExists(stamps); }
    AlignedGap(top, stamp, bucket);
    var rest := stamps - {top};
    if rest == {} {
      assert stamps == {top};
      least := top;
    } else {
      least := OldestReachesBack(rest, bucket, top);
      assert |stamps| == |rest| + 1;
    }
  }

  lemma {:induction false} MaxExists(s: set<nat>)
    requires s != {}
    ensures exists top :: top in s && forall x :: x in s ==> x <= top
    decreases |s|
  {
    var a :| a in s;
    var rest := s - {a};
    if rest == {} {
      assert s == {a};
    } else {
      MaxExists(rest);
      var b :| b in rest && forall x :: x in rest ==> x <= b;
      var top := if a < b then b else a;
      assert forall x :: x in s ==> x == a || x in rest;
      assert top in s && forall x :: x in s ==> x <= top;
    }
  }

  lemma {:induction false} StampsCount(slots: seq<Slot>)
    requires forall i :: 0 <= i < |slots| ==> !Empty(slots[i])
    requires forall i, j :: 0 <= i < j < |slots| ==> slots[i].timestamp != slots[j].timestamp
    ensures |Stamps(slots)| == |slots|
  {
    if |slots| > 0 {
      var n := |slots| - 1;
      StampsCount(slots[..n]);
      assert Stamps(slots) == Stamps(slots[..n]) + {slots[n].timestamp};
      assert slots[n].timestamp !in Stamps(slots[..n]);
    } else {
      assert Stamps(slots) == {};
    }
  }

  /**
    When no slot is stamped or empty, the slot that gives way is at least `slots` buckets
    old, so nothing inside the horizon is lost.
   */
  lemma {:induction false} VictimIsOld(shape: Shape, slots: seq<Slot>, stamp: nat, i: int)
    requires shape.Valid() && WellStamped(shape, slots)
    requires Aligned(stamp, shape.bucket)
    requires !Holds(slots, stamp) && !Holds(slots, 0)
    requires forall j :: 0 <= j < |slots| ==> slots[j].timestamp < stamp
    requires FirstOldest(slots, i)
    ensures slots[i].timestamp <= stamp - Times(shape.slots, shape.bucket)
  {
    StampsCount(slots);
    assert slots[i].timestamp in Stamps(slots);
    var least := OldestReachesBack(Stamps(slots), shape.bucket, stamp);
    var j :| 0 <= j < |slots| && slots[j].timestamp == least;
  }

  /**
    With a whole number of buckets in the window, a live slot gives way only when the
    clock stands exactly on a bucket boundary and the victim is exactly one window old.
   */
  lemma {:induction false} EvictionByPigeonhole(shape: Shape, slots: seq<Slot>, log: seq<Event>, now: nat, i: int)
    requires Facts(shape, slots, log, now) && shape.bucket <= now
    requires shape.window == Times(shape.slots, shape.bucket)
    requires Within(slots, now - shape.window, now)
    requires Serves(slots, Truncate(now, shape.bucket), i)
    requires !Empty(slots[i]) && slots[i].timestamp != Truncate(now, shape.bucket)
    ensures Truncate(now, shape.bucket) == now
    ensures slots[i].timestamp == now - shape.window
  {
    var b := Truncate(now, shape.bucket);
    TruncateBounds(now, shape.bucket);
    StampsBelow(shape, slots, now);
    VictimIsOld(shape, slots, b, i);
  }

  /** Every stamp is an aligned time not after `now`, hence not after its bucket time. */
  lemma {:induction false} StampsBelow(shape: Shape, slots: seq<Slot>, now: nat)
    requires shape.Valid() && WellStamped(shape, slots)
    requires forall i :: 0 <= i < |slots| ==> slots[i].timestamp <= now
    ensures forall i :: 0 <= i < |slots| ==> slots[i].timestamp <= Truncate(now, shape.bucket)
  {
    forall i | 0 <= i < |slots| ensures slots[i].timestamp <= Truncate(now, shape.bucket) {
      TruncateMonotone(slots[i].timestamp, now, shape.bucket);
    }
  }

  /** Whichever slot carries the wanted stamp is the one a full scan would find first. */
  lemma {:induction false} ShortcutAgrees(shape: Shape, slots: seq<Slot>, stamp: nat, head: int)
    requires 0 < shape.bucket && WellStamped(shape, slots) && stamp != 0
    requires 0 <= head < |slots| && slots[head].timestamp == stamp
    ensures Serves(slots, stamp, head)
    ensures forall i :: Serves(slots, stamp, i) ==> i == head
  {
    assert Holds(slots, stamp);
  }

  // ---------------------------------------------------------------- adding

  /** Adding at `now` to the serving slot of a pruned window keeps the invariant for the longer log. */
  lemma {:induction false} AddInv(shape: Shape, slots: seq<Slot>, log: seq<Event>, now: nat, i: int, amount: real)
    requires Facts(shape, slots, log, now) && shape.bucket <= now
    requires Serves(slots, Truncate(now, shape.bucket), i)
    ensures Facts(shape, Credited(slots, Truncate(now, shape.bucket), i, amount), log + [Event(now, amount)], now)
  {
    var b := Truncate(now, shape.bucket);
    var log' := log + [Event(now, amount)];
    var slots' := Credited(slots, b, i, amount);
    TruncateBounds(now, shape.bucket);
    AddStamped(shape, slots, log, now, i, amount);
    AddExact(shape, slots, log, now, i, amount);
    AddRetained(shape, slots, log, now, i, amount);
  }

  lemma {:induction false} AddStamped(shape: Shape, slots: seq<Slot>, log: seq<Event>, now: nat, i: int, amount: real)
    requires Facts(shape, slots, log, now) && shape.bucket <= now
    requires Serves(slots, Truncate(now, shape.bucket), i)
    ensures WellStamped(shape, Credited(slots, Truncate(now, shape.bucket), i, amount))
    ensures 0 < Truncate(now, shape.bucket) <= now
  {
    TruncateBounds(now, shape.bucket);
  }

  lemma {:induction false} AddExact(shape: Shape, slots: seq<Slot>, log: seq<Event>, now: nat, i: int, amount: real)
    requires Facts(shape, slots, log, now) && shape.bucket <= now
    requires Serves(slots, Truncate(now, shape.bucket), i)
    ensures Exact(shape, Credited(slots, Truncate(now, shape.bucket), i, amount), log + [Event(now, amount)])
  {
    var b := Truncate(now, shape.bucket);
    var log' := log + [Event(now, amount)];
    var slots' := Credited(slots, b, i, amount);
    assert log'[..|log|] == log;
    assert NonNegative(log') ==> NonNegative(log) && log'[|log|].amount >= 0.0;
    forall j | 0 <= j < |slots'| && !Empty(slots'[j]) ensures ExactSlot(shape, slots'[j], log') {
      if j == i && slots[i].timestamp != b {
        CoveredSign(log, shape.bucket, {b});
        if shape.bucket <= shape.window { NothingLogged(shape, slots, log, now); }
      } else {
        assert ExactSlot(shape, slots[j], log);
      }
    }
  }

  /** If no slot carries the current bucket, no event was ever logged in it. */
  lemma {:induction false} NothingLogged(shape: Shape, slots: seq<Slot>, log: seq<Event>, now: nat)
    requires Facts(shape, slots, log, now) && shape.bucket <= shape.window
    requires !Holds(slots, Truncate(now, shape.bucket))
    ensures Covered(log, shape.bucket, {Truncate(now, shape.bucket)}) == 0.0
  {
    var b := Truncate(now, shape.bucket);
    TruncateBounds(now, shape.bucket);
    HorizonCovers(shape);
    forall k | 0 <= k < |log| ensures Truncate(log[k].time, shape.bucket) != b {
      assert b > now - shape.Horizon();
    }
    CoveredNone(log, shape.bucket, {b});
  }

  lemma {:induction false} AddRetained(shape: Shape, slots: seq<Slot>, log: seq<Event>, now: nat, i: int, amount: real)
    requires Facts(shape, slots, log, now) && shape.bucket <= now
    requires Serves(slots, Truncate(now, shape.bucket), i)
    ensures Retained(shape, Credited(slots, Truncate(now, shape.bucket), i, amount), log + [Event(now, amount)], now)
  {
    var b := Truncate(now, shape.bucket);
    var log' := log + [Event(now, amount)];
    var slots' := Credited(slots, b, i, amount);
    TruncateBounds(now, shape.bucket);
    StampsBelow(shape, slots, now);
    assert slots'[i].timestamp == b;
    forall k | 0 <= k < |log'| && Truncate(log'[k].time, shape.bucket) > now - shape.Horizon()
      ensures Holds(slots', Truncate(log'[k].time, shape.bucket))
    {
      var c := Truncate(log'[k].time, shape.bucket);
      if k < |log| {
        assert log'[k] == log[k];
        var j :| 0 <= j < |slots| && slots[j].timestamp == c;
        TruncateMonotone(shape.bucket, log[k].time, shape.bucket);
        if j == i && c != b { VictimIsOld(shape, slots, b, i); }
        assert slots'[j].timestamp == c;
      }
    }
  }

  // ---------------------------------------------------------------- totals over a log

  lemma {:induction false} CoveredNone(log: seq<Event>, bucket: int, stamps: set<nat>)
    requires 0 < bucket
    requires forall k :: 0 <= k < |log| ==> Truncate(log[k].time, bucket) !in stamps
    ensures Covered(log, bucket, stamps) == 0.0
  {
    if |log| > 0 { CoveredNone(log[..|log|-1], bucket, stamps); }
  }

  lemma {:induction false} CoveredSign(log: seq<Event>, bucket: int, stamps: set<nat>)
    requires 0 < bucket
    ensures NonNegative(log) ==> 0.0 <= Covered(log, bucket, stamps)
  {
    if |log| > 0 { CoveredSign(log[..|log|-1], bucket, stamps); }
  }

  lemma {:induction false} CoveredSplit(log: seq<Event>, bucket: int, stamps: set<nat>, stamp: nat)
    requires 0 < bucket && stamp !in stamps
    ensures Covered(log, bucket, stamps + {stamp}) == Covered(log, bucket, stamps) + Covered(log, bucket, {stamp})
  {
    if |log| > 0 { CoveredSplit(log[..|log|-1], bucket, stamps, stamp); }
  }

  /** Summing the slots adds up the log over the buckets that are present. */
  lemma {:induction false} SumIsCovered(shape: Shape, slots: seq<Slot>, log: seq<Event>)
    requires 0 < shape.bucket
    requires forall i, j :: 0 <= i < j < |slots| && !Empty(slots[i]) ==> slots[i].timestamp != slots[j].timestamp
    requires Exact(shape, slots, log)
    ensures shape.bucket <= shape.window ==> SumSlots(slots) == Covered(log, shape.bucket, Stamps(slots))
    ensures NonNegative(log) ==> 0.0 <= SumSlots(slots) <= Covered(log, shape.bucket, Stamps(slots))
  {
    if |slots| == 0 {
      CoveredNone(log, shape.bucket, Stamps(slots));
    } else {
      var n := |slots| - 1;
      SumIsCovered(shape, slots[..n], log);
      if Empty(slots[n]) {
        assert Stamps(slots) == Stamps(slots[..n]);
      } else {
        assert Stamps(slots) == Stamps(slots[..n]) + {slots[n].timestamp};
        assert ExactSlot(shape, slots[n], log);
        CoveredSplit(log, shape.bucket, Stamps(slots[..n]), slots[n].timestamp);
      }
    }
  }

  lemma {:induction false} CoveredBelow(log: seq<Event>, bucket: int, stamps: set<nat>, from: int)
    requires 0 < bucket && NonNegative(log)
    requires forall s :: s in stamps ==> from <= s
    ensures Covered(log, bucket, stamps) <= TotalSince(log, from)
  {
    if |log| > 0 {
      CoveredBelow(log[..|log|-1], bucket, stamps, from);
      TruncateBounds(log[|log|-1].time, bucket);
    }
  }

  lemma {:induction false} CoveredAbove(log: seq<Event>, bucket: int, stamps: set<nat>, from: int)
    requires 0 < bucket && NonNegative(log)
    requires forall k :: 0 <= k < |log| && log[k].time >= from ==> Truncate(log[k].time, bucket) in stamps
    ensures TotalSince(log, from) <= Covered(log, bucket, stamps)
  {
    if |log| > 0 { CoveredAbove(log[..|log|-1], bucket, stamps, from); }
  }

  lemma {:induction false} NothingSince(log: seq<Event>, from: int)
    requires forall k :: 0 <= k < |log| ==> log[k].time < from
    ensures TotalSince(log, from) == 0.0
  {
    if |log| > 0 { NothingSince(log[..|log|-1], from); }
  }

  // ---------------------------------------------------------------- main results

  /** Where the guaranteed part of a window starts: one bucket inside its horizon. */
  ghost function SureSince(shape: Shape, now: nat): int {
    now - shape.Horizon() + shape.bucket
  }

  /** The windows the limiters and trackers create hold a whole number of buckets. */
  lemma {:induction false} WholeBuckets(shape: Shape)
    requires shape.Valid() && shape.slots == SlotCount(shape.window, shape.bucket)
    requires 0 < shape.window && shape.window % shape.bucket == 0
    ensures shape.Horizon() == shape.window == Times(shape.slots, shape.bucket)
  {
    assert shape.window == shape.bucket * (shape.window / shape.bucket);
    TimesIsProduct(shape.slots, shape.bucket);
  }

  lemma {:induction false} HorizonCovers(shape: Shape)
    requires shape.Valid()
    ensures shape.bucket <= Times(shape.slots, shape.bucket)
    ensures shape.Horizon() <= shape.window
    ensures shape.bucket <= shape.window ==> shape.bucket <= shape.Horizon()
  {
  }

  /** The buckets present at `now` include every bucket of an event in the guaranteed part. */
  lemma {:induction false} PresentStamps(shape: Shape, slots: seq<Slot>, log: seq<Event>, now: nat, k: int)
    requires Facts(shape, slots, log, now)
    requires 0 <= k < |log| && Truncate(log[k].time, shape.bucket) > now - shape.Horizon()
    ensures Truncate(log[k].time, shape.bucket) in Stamps(slots)
  {
    TruncateBounds(log[k].time, shape.bucket);
    TruncateMonotone(shape.bucket, log[k].time, shape.bucket);
    var i :| 0 <= i < |slots| && slots[i].timestamp == Truncate(log[k].time, shape.bucket);
    assert !Empty(slots[i]);
  }

  /** Once pruned, the slots hold at least the guaranteed part. */
  lemma {:induction false} GuaranteedPart(shape: Shape, slots: seq<Slot>, log: seq<Event>, now: nat)
    requires Facts(shape, slots, log, now) && NonNegative(log)
    ensures TotalSince(log, SureSince(shape, now)) <= SumSlots(slots)
  {
    SumIsCovered(shape, slots, log);
    HorizonCovers(shape);
    var since, stamps := SureSince(shape, now), Stamps(slots);
    if shape.bucket <= shape.window {
      forall k | 0 <= k < |log| && log[k].time >= since
        ensures Truncate(log[k].time, shape.bucket) in stamps
      {
        TruncateBounds(log[k].time, shape.bucket);
        PresentStamps(shape, slots, log, now, k);
      }
      CoveredAbove(log, shape.bucket, stamps, since);
    } else {
      NothingSince(log, since);
    }
  }

  /**
    Window sandwich.  In every reachable state, at every later instant, what Sum reports
    lies between the total of the guaranteed part and the total of the whole window.
   */
  lemma {:induction false} Sandwich(shape: Shape, slots: seq<Slot>, log: seq<Event>, clock: nat, now: nat)
    requires Facts(shape, slots, log, clock) && clock <= now && NonNegative(log)
    ensures TotalSince(log, SureSince(shape, now)) <= SumAt(shape, slots, now) <= TotalSince(log, now - shape.window)
  {
    var p := Pruned(slots, now - shape.window);
    PruneInv(shape, slots, log, clock, now);
    SumIsCovered(shape, p, log);
    CoveredBelow(log, shape.bucket, Stamps(p), now - shape.window);
    GuaranteedPart(shape, p, log, now);
  }

  /**
    Without any sign condition: for a whole number of buckets, Sum is exactly the log's
    total over the buckets after now - window, plus possibly the boundary bucket.
   */
  lemma {:induction false} SumExact(shape: Shape, slots: seq<Slot>, log: seq<Event>, clock: nat, now: nat)
    requires Facts(shape, slots, log, clock) && clock <= now && shape.window == Times(shape.slots, shape.bucket)
    ensures exists stamps: set<nat> ::
      && SumAt(shape, slots, now) == Covered(log, shape.bucket, stamps)
      && (forall s :: s in stamps ==> now - shape.window <= s <= now)
      && (forall k :: 0 <= k < |log| && Truncate(log[k].time, shape.bucket) > now - shape.window
            ==> Truncate(log[k].time, shape.bucket) in stamps)
  {
    var p := Pruned(slots, now - shape.window);
    PruneInv(shape, slots, log, clock, now);
    SumIsCovered(shape, p, log);
    HorizonCovers(shape);
    var stamps := Stamps(p);
    assert SumAt(shape, slots, now) == Covered(log, shape.bucket, stamps);
    forall k | 0 <= k < |log| && Truncate(log[k].time, shape.bucket) > now - shape.window
      ensures Truncate(log[k].time, shape.bucket) in stamps
    {
      PresentStamps(shape, p, log, now, k);
    }
  }

  /** What the log holds in the buckets that start at `from` or later. */
  ghost function BucketTotal(log: seq<Event>, bucket: int, from: int): real
    requires 0 < bucket
  {
    if |log| == 0 then 0.0
    else
      var last := log[|log| - 1];
      BucketTotal(log[..|log| - 1], bucket, from) + if Truncate(last.time, bucket) >= from then last.amount else 0.0
  }

  lemma {:induction false} CoveredIsBucketTotal(log: seq<Event>, bucket: int, stamps: set<nat>, from: int)
    requires 0 < bucket
    requires forall k :: 0 <= k < |log| ==> (Truncate(log[k].time, bucket) in stamps <==> Truncate(log[k].time, bucket) >= from)
    ensures Covered(log, bucket, stamps) == BucketTotal(log, bucket, from)
  {
    if |log| > 0 { CoveredIsBucketTotal(log[..|log| - 1], bucket, stamps, from); }
  }

  lemma {:induction false} AlignedSum(s: nat, n: nat, bucket: nat)
    requires 0 < bucket && Aligned(s, bucket)
    ensures Aligned(s + Times(n, bucket), bucket)
  {
    if n > 0 {
      AlignedSum(s, n - 1, bucket);
      var t := s + Times(n - 1, bucket);
      assert Truncate(t + bucket, bucket) == Truncate(t, bucket) + bucket;
    }
  }

  /**
    Sum to the last bucket, amounts of any sign: unless something was added at this very
    instant and the instant is aligned, Sum is exactly what the log holds in the buckets
    that start no earlier than now - window.
   */
  lemma {:induction false} SumIsBucketTotal(shape: Shape, slots: seq<Slot>, log: seq<Event>, clock: nat, now: nat)
    requires Facts(shape, slots, log, clock) && clock <= now && shape.window == Times(shape.slots, shape.bucket)
    requires clock < now || !Aligned(now, shape.bucket)
    ensures SumAt(shape, slots, now) == BucketTotal(log, shape.bucket, now - shape.window)
  {
    var p := Pruned(slots, now - shape.window);
    PruneInv(shape, slots, log, clock, now);
    SumIsCovered(shape, p, log);
    HorizonCovers(shape);
    var stamps, from := Stamps(p), now - shape.window;
    forall k | 0 <= k < |log|
      ensures Truncate(log[k].time, shape.bucket) in stamps <==> Truncate(log[k].time, shape.bucket) >= from
    {
      if Truncate(log[k].time, shape.bucket) >= from { BoundaryKept(shape, slots, log, clock, now, k); }
    }
    CoveredIsBucketTotal(log, shape.bucket, stamps, from);
  }

  lemma {:induction false} BoundaryKept(shape: Shape, slots: seq<Slot>, log: seq<Event>, clock: nat, now: nat, k: int)
    requires Facts(shape, slots, log, clock) && clock <= now && shape.window == Times(shape.slots, shape.bucket)
    requires clock < now || !Aligned(now, shape.bucket)
    requires 0 <= k < |log| && Truncate(log[k].time, shape.bucket) >= now - shape.window
    ensures Truncate(log[k].time, shape.bucket) in Stamps(Pruned(slots, now - shape.window))
  {
    var b, p := Truncate(log[k].time, shape.bucket), Pruned(slots, now - shape.window);
    TruncateBounds(log[k].time, shape.bucket);
    TruncateMonotone(shape.bucket, log[k].time, shape.bucket);
    if b == now - shape.window { AlignedSum(b, shape.slots, shape.bucket); }
    var i :| 0 <= i < |slots| && slots[i].timestamp == b;
    assert p[i] == slots[i] && !Empty(p[i]);
  }

  // ---------------------------------------------------------------- windows with their history

  ghost predicate SlotOk(shape: Shape, slots: seq<Slot>, log: seq<Event>, clock: nat, i: int)
    requires 0 < shape.bucket
  {
    0 <= i < |slots| ==>
      && Aligned(slots[i].timestamp, shape.bucket) && slots[i].timestamp <= clock
      && (!Empty(slots[i]) ==> ExactSlot(shape, slots[i], log))
  }

  ghost predicate Apart(slots: seq<Slot>, i: int, j: int) {
    0 <= i < j < |slots| && !Empty(slots[i]) ==> slots[i].timestamp != slots[j].timestamp
  }

  ghost predicate EventOk(shape: Shape, slots: seq<Slot>, log: seq<Event>, clock: nat, k: int)
    requires 0 < shape.bucket
  {
    0 <= k < |log| ==>
      && shape.bucket <= log[k].time <= clock
      && (Truncate(log[k].time, shape.bucket) > clock - shape.Horizon() ==>
            Holds(slots, Truncate(log[k].time, shape.bucket)))
  }

  /** The facts again, one slot or event at a time, so that they are unfolded only where needed. */
  ghost predicate Inv(shape: Shape, slots: seq<Slot>, log: seq<Event>, clock: nat) {
    && shape.Valid() && |slots| == shape.slots
    && (forall i :: SlotOk(shape, slots, log, clock, i))
    && (forall i, j :: Apart(slots, i, j))
    && (forall k :: EventOk(shape, slots, log, clock, k))
  }

  lemma {:induction false} InvIsFacts(shape: Shape, slots: seq<Slot>, log: seq<Event>, clock: nat)
    ensures Inv(shape, slots, log, clock) <==> Facts(shape, slots, log, clock)
  {
    if Inv(shape, slots, log, clock) {
      forall i | 0 <= i < |slots|
        ensures Aligned(slots[i].timestamp, shape.bucket) && slots[i].timestamp <= clock
        ensures !Empty(slots[i]) ==> ExactSlot(shape, slots[i], log)
      {
        assert SlotOk(shape, slots, log, clock, i);
      }
      forall i, j | 0 <= i < j < |slots| && !Empty(slots[i]) ensures slots[i].timestamp != slots[j].timestamp {
        assert Apart(slots, i, j);
      }
      forall k | 0 <= k < |log|
        ensures shape.bucket <= log[k].time <= clock
        ensures Truncate(log[k].time, shape.bucket) > clock - shape.Horizon() ==>
          Holds(slots, Truncate(log[k].time, shape.bucket))
      {
        assert EventOk(shape, slots, log, clock, k);
      }
    }
  }

  datatype Model = Model(shape: Shape, slots: seq<Slot>, log: seq<Event>, clock: nat)

  /** The reachable states of a window, each with the log that led to it. */
  type History = m: Model | Inv(m.shape, m.slots, m.log, m.clock)
    ghost witness Model(Shape(1, 1, 1), [EMPTY], [], 0)

  ghost function Created(window: nat, bucket: nat, now: nat): (h: History)
    requires 0 < bucket
    ensures h.shape == Shape(window, bucket, SlotCount(window, bucket)) && h.log == [] && h.clock == now
    ensures |h.slots| == SlotCount(window, bucket) && forall i :: 0 <= i < |h.slots| ==> h.slots[i] == EMPTY
  {
    Model(Shape(window, bucket, SlotCount(window, bucket)), seq(SlotCount(window, bucket), _ => EMPTY), [], now)
  }

  /** Adding `amount` at `now` takes the slots from `before` to `after`. */
  ghost predicate AddStep(shape: Shape, before: seq<Slot>, now: nat, amount: real, after: seq<Slot>)
    requires 0 < shape.bucket
  {
    Credits(Pruned(before, now - shape.window), Truncate(now, shape.bucket), amount, after)
  }

  ghost predicate Credits(pruned: seq<Slot>, stamp: nat, amount: real, after: seq<Slot>) {
    exists i :: Serves(pruned, stamp, i) && after == Credited(pruned, stamp, i, amount)
  }

  lemma {:induction false} AddStepInv(shape: Shape, before: seq<Slot>, log: seq<Event>, clock: nat, now: nat,
                                      amount: real, after: seq<Slot>)
    requires Inv(shape, before, log, clock) && clock <= now && shape.bucket <= now
    requires AddStep(shape, before, now, amount, after)
    ensures Inv(shape, after, log + [Event(now, amount)], now)
  {
    InvIsFacts(shape, before, log, clock);
    PruneInv(shape, before, log, clock, now);
    CreditInv(shape, Pruned(before, now - shape.window), log, now, amount, after);
    InvIsFacts(shape, after, log + [Event(now, amount)], now);
  }

  lemma {:induction false} CreditInv(shape: Shape, pruned: seq<Slot>, log: seq<Event>, now: nat,
                                     amount: real, after: seq<Slot>)
    requires Facts(shape, pruned, log, now) && shape.bucket <= now
    requires Credits(pruned, Truncate(now, shape.bucket), amount, after)
    ensures Facts(shape, after, log + [Event(now, amount)], now)
  {
    var stamp := Truncate(now, shape.bucket);
    var i :| Serves(pruned, stamp, i) && after == Credited(pruned, stamp, i, amount);
    AddInv(shape, pruned, log, now, i, amount);
  }

  lemma {:induction false} SumStepInv(shape: Shape, before: seq<Slot>, log: seq<Event>, clock: nat, now: nat)
    requires Inv(shape, before, log, clock) && clock <= now
    ensures Inv(shape, Pruned(before, now - shape.window), log, now)
    ensures WellStamped(shape, Pruned(before, now - shape.window))
  {
    InvIsFacts(shape, before, log, clock);
    PruneInv(shape, before, log, clock, now);
    InvIsFacts(shape, Pruned(before, now - shape.window), log, now);
  }

  /** The state after Add at `now`. */
  ghost function AfterAdd(h: History, now: nat, amount: real, after: seq<Slot>): (r: History)
    requires h.clock <= now && h.shape.bucket <= now
    requires AddStep(h.shape, h.slots, now, amount, after)
    ensures r == Model(h.shape, after, h.log + [Event(now, amount)], now)
  {
    AddStepInv(h.shape, h.slots, h.log, h.clock, now, amount, after);
    Model(h.shape, after, h.log + [Event(now, amount)], now)
  }

  /** The state after Sum at `now`. */
  ghost function AfterSum(h: History, now: nat): (r: History)
    requires h.clock <= now
    ensures r == Model(h.shape, Pruned(h.slots, now - h.shape.window), h.log, now)
    ensures WellStamped(r.shape, r.slots)
  {
    SumStepInv(h.shape, h.slots, h.log, h.clock, now);
    Model(h.shape, Pruned(h.slots, now - h.shape.window), h.log, now)
  }

  /** What Sum reports at `now`. */
  ghost function Usage(h: History, now: nat): real {
    SumAt(h.shape, h.slots, now)
  }

  /** What Sum may report: at least the guaranteed part's total, at most the whole window's. */
  ghost predicate WithinSandwich(h: History, now: nat, sum: real) {
    NonNegative(h.log) ==>
      TotalSince(h.log, SureSince(h.shape, now)) <= sum <= TotalSince(h.log, now - h.shape.window)
  }

  lemma {:induction false} UsageInSandwich(h: History, now: nat)
    requires h.clock <= now
    ensures WithinSandwich(h, now, Usage(h, now))
  {
    InvIsFacts(h.shape, h.slots, h.log, h.clock);
    if NonNegative(h.log) { Sandwich(h.shape, h.slots, h.log, h.clock, now); }
  }

  /** The same for a window with its history. */
  lemma {:induction false} UsageIsBucketTotal(h: History, now: nat)
    requires h.clock <= now && h.shape.window == Times(h.shape.slots, h.shape.bucket)
    requires h.clock < now || !Aligned(now, h.shape.bucket)
    ensures Usage(h, now) == BucketTotal(h.log, h.shape.bucket, now - h.shape.window)
  {
    InvIsFacts(h.shape, h.slots, h.log, h.clock);
    SumIsBucketTotal(h.shape, h.slots, h.log, h.clock, now);
  }

  // ---------------------------------------------------------------- runs

  datatype Call = AddCall(now: nat, amount: real) | SumCall(now: nat)

  /** One call takes the window from `m` to `m'`; the clock does not run backwards. */
  ghost predicate Next(m: Model, call: Call, m': Model)
    requires 0 < m.shape.bucket
  {
    && m.clock <= call.now && m'.shape == m.shape && m'.clock == call.now
    && match call
       case AddCall(now, amount) =>
         && m.shape.bucket <= now
         && AddStep(m.shape, m.slots, now, amount, m'.slots)
         && m'.log == m.log + [Event(now, amount)]
       case SumCall(now) =>
         && m'.slots == Pruned(m.slots, now - m.shape.window)
         && m'.log == m.log
  }

  ghost predicate Run(window: nat, bucket: nat, trace: seq<Model>, calls: seq<Call>)
    requires 0 < bucket
  {
    && |trace| == |calls| + 1
    && trace[0] == Created(window, bucket, trace[0].clock)
    && (forall k :: 0 <= k < |trace| ==> trace[k].shape == trace[0].shape)
    && (forall k :: 0 <= k < |calls| ==> Next(trace[k], calls[k], trace[k + 1]))
  }

  lemma {:induction false} NextInv(m: Model, call: Call, m': Model)
    requires Inv(m.shape, m.slots, m.log, m.clock) && Next(m, call, m')
    ensures Inv(m'.shape, m'.slots, m'.log, m'.clock)
  {
    match call
    case AddCall(now, amount) => AddStepInv(m.shape, m.slots, m.log, m.clock, now, amount, m'.slots);
    case SumCall(now) => SumStepInv(m.shape, m.slots, m.log, m.clock, now);
  }

  /** Every state of every run is a window with an exact history. */
  lemma {:induction false} RunInv(window: nat, bucket: nat, trace: seq<Model>, calls: seq<Call>, k: nat)
    requires 0 < bucket && Run(window, bucket, trace, calls) && k < |trace|
    ensures Inv(trace[k].shape, trace[k].slots, trace[k].log, trace[k].clock)
  {
    if k > 0 {
      RunInv(window, bucket, trace, calls, k - 1);
      NextInv(trace[k - 1], calls[k - 1], trace[k]);
    }
  }

  /**
    For every run, every state in it and every later instant: Sum lies between the total of
    the events of the last window minus one bucket and the total of the last whole window.
   */
  lemma {:induction false} RunSandwich(window: nat, bucket: nat, trace: seq<Model>, calls: seq<Call>, k: nat, now: nat)
    requires 0 < bucket && Run(window, bucket, trace, calls) && k < |trace| && trace[k].clock <= now
    requires 0 < window && window % bucket == 0 && NonNegative(trace[k].log)
    ensures TotalSince(trace[k].log, now - window + bucket)
            <= SumAt(trace[k].shape, trace[k].slots, now)
            <= TotalSince(trace[k].log, now - window)
  {
    RunInv(window, bucket, trace, calls, k);
    InvIsFacts(trace[k].shape, trace[k].slots, trace[k].log, trace[k].clock);
    WholeBuckets(trace[k].shape);
    Sandwich(trace[k].shape, trace[k].slots, trace[k].log, trace[k].clock, now);
  }
}
