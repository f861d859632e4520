/**
  SlidingWindow (pkg/limits/ratelimit/sliding_window.go): token counts in a fixed array of
  time buckets, with a `head` index that short-cuts the search for the current bucket.
 */
module SlidingWindows {
  import opened Windows

  datatype Counter = Counter(timestamp: nat, value: int)

  const CLEARED := Counter(0, 0)

  /** A counter array read as window slots. */
  ghost function Contents(counters: seq<Counter>): (r: seq<Slot>)
    ensures |r| == |counters|
  {
    seq(|counters|, i requires 0 <= i < |counters| => Slot(counters[i].timestamp, counters[i].value as real))
  }

  class SlidingWindow {
    const window: nat
    const bucketSize: nat
    const buckets: array<Counter>
    var head: nat

    // Everything ever added and the time of the last call, with the slots they led to.
    ghost var history: History

    ghost predicate Valid()
      reads this, buckets
    {
      && 0 < bucketSize && 0 < buckets.Length && head < buckets.Length
      && history.shape == Shape(window, bucketSize, buckets.Length)
      && history.slots == Contents(buckets[..])
    }

    constructor (window: nat, bucketSize: nat, ghost now: nat)
      requires 0 < bucketSize
      ensures Valid() && fresh(buckets)
      ensures this.window == window && this.bucketSize == bucketSize
      ensures history == Created(window, bucketSize, now)
    {
      this.window := window;
      this.bucketSize := bucketSize;
      buckets := new Counter[SlotCount(window, bucketSize)](_ => CLEARED);
      head := 0;
      history := Created(window, bucketSize, now);
    }

    method Prune(now: nat)
      modifies buckets
      ensures Contents(buckets[..]) == Pruned(Contents(old(buckets[..])), now - window)
    {
      var cutoff := now - window;
      ghost var before := buckets[..];
      for i := 0 to buckets.Length
        invariant forall j :: 0 <= j < i ==>
          buckets[j] == if before[j].timestamp != 0 && before[j].timestamp < cutoff then CLEARED else before[j]
        invariant forall j :: i <= j < buckets.Length ==> buckets[j] == before[j]
      {
        if buckets[i].timestamp != 0 && buckets[i].timestamp < cutoff {
          buckets[i] := CLEARED;
        }
      }
    }

    /** As the money window's search, but trying the slot at `head` first. */
    method FindOrCreateBucket(now: nat) returns (target: nat)
      requires 0 < bucketSize <= now && head < buckets.Length
      requires WellStamped(Shape(window, bucketSize, buckets.Length), Contents(buckets[..]))
      modifies this`head, buckets
      ensures head < buckets.Length
      ensures Serves(Contents(old(buckets[..])), Truncate(now, bucketSize), target)
      ensures Contents(buckets[..]) == Credited(Contents(old(buckets[..])), Truncate(now, bucketSize), target, 0.0)
      ensures buckets[target].timestamp == Truncate(now, bucketSize)
    {
      TruncateIsRounding(now, bucketSize);
      TruncateBounds(now, bucketSize);
      var bucketTime := now - now % bucketSize;
      ghost var before := Contents(buckets[..]);

      if buckets[head].timestamp == bucketTime {
        ShortcutAgrees(Shape(window, bucketSize, buckets.Length), before, bucketTime, head);
        assert before == Credited(before, bucketTime, head, 0.0);
        return head;
      }

      var i := ScanFor(bucketTime);
      if i < buckets.Length {
        assert before == Credited(before, bucketTime, i, 0.0);
        return i;
      }

      target := ChooseSlot();
      buckets[target] := Counter(bucketTime, 0);
      head := target;
      assert Contents(buckets[..]) == Credited(before, bucketTime, target, 0.0);
    }

    /** First bucket with the given time, or the length of the array. */
    method ScanFor(stamp: nat) returns (i: nat)
      ensures i < buckets.Length ==> FirstStamped(Contents(buckets[..]), stamp, i)
      ensures i >= buckets.Length ==> i == buckets.Length && !Holds(Contents(buckets[..]), stamp)
    {
      i := 0;
      while i < buckets.Length
        invariant i <= buckets.Length
        invariant forall j :: 0 <= j < i ==> Contents(buckets[..])[j].timestamp != stamp
      {
        if buckets[i].timestamp == stamp {
          return;
        }
        i := i + 1;
      }
    }

    method ChooseSlot() returns (target: nat)
      requires 0 < buckets.Length
      ensures var slots := Contents(buckets[..]);
        if Holds(slots, 0) then FirstStamped(slots, 0, target) else FirstOldest(slots, target)
    {
      target := ScanFor(0);
      if target < buckets.Length {
        return;
      }
      target := 0;
      var oldestTime := buckets[0].timestamp;
      for i := 1 to buckets.Length
        invariant target < i && target < buckets.Length && oldestTime == buckets[target].timestamp
        invariant forall j :: 0 <= j < i ==> oldestTime <= Contents(buckets[..])[j].timestamp
        invariant forall j :: 0 <= j < target ==> oldestTime < Contents(buckets[..])[j].timestamp
      {
        if buckets[i].timestamp < oldestTime {
          target := i;
          oldestTime := buckets[i].timestamp;
        }
      }
    }

    /** The body of Add: prune, find the bucket, add to it. */
    method Credit(now: nat, value: int, ghost before: seq<Slot>)
      requires 0 < bucketSize <= now && head < buckets.Length && before == Contents(buckets[..])
      requires WellStamped(Shape(window, bucketSize, buckets.Length), Pruned(before, now - window))
      modifies this`head, buckets
      ensures head < buckets.Length
      ensures AddStep(Shape(window, bucketSize, buckets.Length), before, now, value as real, Contents(buckets[..]))
    {
      Prune(now);
      var current := FindOrCreateBucket(now);
      ghost var found := Contents(buckets[..]);
      assert found[current].amount == buckets[current].value as real;
      buckets[current] := Counter(buckets[current].timestamp, buckets[current].value + value);
      assert Contents(buckets[..]) == found[current := Slot(found[current].timestamp, found[current].amount + value as real)];
      assert Contents(buckets[..]) == Credited(Pruned(before, now - window), Truncate(now, bucketSize), current, value as real);
    }

    method Add(now: nat, value: int)
      requires Valid() && history.clock <= now && bucketSize <= now
      modifies this, buckets
      ensures Valid()
      ensures history.log == old(history).log + [Event(now, value as real)] && history.clock == now
    {
      assert WellStamped(history.shape, AfterSum(history, now).slots);
      Credit(now, value, history.slots);
      history := AfterAdd(history, now, value as real, Contents(buckets[..]));
    }

    /** The body of Sum: prune, then add up the buckets that are left. */
    method PruneAndTotal(now: nat) returns (sum: int)
      modifies buckets
      ensures Contents(buckets[..]) == Pruned(Contents(old(buckets[..])), now - window)
      ensures sum as real == SumSlots(Contents(buckets[..]))
    {
      Prune(now);
      ghost var slots := Contents(buckets[..]);
      sum := 0;
      for i := 0 to buckets.Length
        invariant sum as real == SumSlots(slots[..i])
      {
        assert slots[..i + 1][..i] == slots[..i];
        if buckets[i].timestamp != 0 {
          sum := sum + buckets[i].value;
        }
      }
      assert slots[..buckets.Length] == slots;
    }

    method Sum(now: nat) returns (sum: int)
      requires Valid() && history.clock <= now
      modifies this, buckets
      ensures Valid() && history == AfterSum(old(history), now)
      ensures sum as real == Usage(old(history), now)
      ensures WithinSandwich(old(history), now, sum as real)
    {
      UsageInSandwich(history, now);
      sum := PruneAndTotal(now);
      history := AfterSum(history, now);
    }
  }
}
