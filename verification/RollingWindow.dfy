/**
  RollingWindow (pkg/limits/budget/window.go): spending in a fixed array of time buckets.
  `time.Now()` is the parameter `now`; the clock never runs backwards.
 */
module RollingWindows {
  import opened Windows

  class RollingWindow {
    const window: nat
    const bucketSize: nat
    const buckets: array<Slot>

    // Everything ever added and the time of the last call, with the slots they led to.
    ghost var history: History

    ghost predicate Valid()
      reads this, buckets
    {
      && 0 < bucketSize && 0 < buckets.Length
      && history.shape == Shape(window, bucketSize, buckets.Length)
      && history.slots == buckets[..]
    }

    constructor (window: nat, bucketSize: nat, ghost now: nat)
      requires 0 < bucketSize
      ensures Valid() && fresh(buckets)
      ensures this.window == window && this.bucketSize == bucketSize
      ensures history == Created(window, bucketSize, now)
    {
      this.window := window;
      this.bucketSize := bucketSize;
      buckets := new Slot[SlotCount(window, bucketSize)](_ => EMPTY);
      history := Created(window, bucketSize, now);
    }

    /** Clears the buckets that fell out of the window. */
    method Prune(now: nat)
      modifies buckets
      ensures buckets[..] == Pruned(old(buckets[..]), now - window)
    {
      var cutoff := now - window;
      ghost var before := buckets[..];
      for i := 0 to buckets.Length
        invariant buckets[..i] == Pruned(before, cutoff)[..i]
        invariant buckets[i..] == before[i..]
      {
        assert buckets[i] == before[i];
        if buckets[i].timestamp != 0 && buckets[i].timestamp < cutoff {
          buckets[i] := EMPTY;
        }
        assert buckets[..i + 1] == buckets[..i] + [buckets[i]];
      }
    }

    /** Index of the bucket for `now`, created if need be in an empty or else the oldest slot. */
    method FindOrCreateBucket(now: nat) returns (target: nat)
      requires 0 < bucketSize && 0 < buckets.Length
      modifies buckets
      ensures Serves(old(buckets[..]), Truncate(now, bucketSize), target)
      ensures buckets[..] == Credited(old(buckets[..]), Truncate(now, bucketSize), target, 0.0)
    {
      TruncateIsRounding(now, bucketSize);
      var bucketTime := now - now % bucketSize;
      ghost var before := buckets[..];

      for i := 0 to buckets.Length
        invariant forall j :: 0 <= j < i ==> buckets[j].timestamp != bucketTime
        invariant buckets[..] == before
      {
        if buckets[i].timestamp == bucketTime {
          assert FirstStamped(before, bucketTime, i);
          return i;
        }
      }
      assert !Holds(before, bucketTime);

      target := ChooseSlot();
      buckets[target] := Slot(bucketTime, 0.0);
    }

    /** The first empty slot, else the first of the oldest ones. */
    method ChooseSlot() returns (target: nat)
      requires 0 < buckets.Length
      ensures if Holds(buckets[..], 0) then FirstStamped(buckets[..], 0, target) else FirstOldest(buckets[..], target)
    {
      for i := 0 to buckets.Length
        invariant forall j :: 0 <= j < i ==> buckets[j].timestamp != 0
      {
        if buckets[i].timestamp == 0 {
          assert FirstStamped(buckets[..], 0, i);
          return i;
        }
      }
      target := 0;
      var oldestTime := buckets[0].timestamp;
      for i := 1 to buckets.Length
        invariant target < buckets.Length && oldestTime == buckets[target].timestamp
        invariant forall j :: 0 <= j < i ==> oldestTime <= buckets[j].timestamp
        invariant forall j :: 0 <= j < target ==> oldestTime < buckets[j].timestamp
        invariant target < i
      {
        if buckets[i].timestamp < oldestTime {
          target := i;
          oldestTime := buckets[i].timestamp;
        }
      }
    }

    /** The body of Add: prune, find the bucket, add to it. */
    method Credit(now: nat, amount: real, ghost before: seq<Slot>)
      requires 0 < bucketSize && 0 < buckets.Length && before == buckets[..]
      modifies buckets
      ensures AddStep(Shape(window, bucketSize, buckets.Length), before, now, amount, buckets[..])
    {
      Prune(now);
      var current := FindOrCreateBucket(now);
      buckets[current] := Slot(buckets[current].timestamp, buckets[current].amount + amount);
      assert buckets[..] == Credited(Pruned(before, now - window), Truncate(now, bucketSize), current, amount);
    }

    method Add(now: nat, amount: real)
      requires Valid() && history.clock <= now && bucketSize <= now
      modifies this, buckets
      ensures Valid()
      ensures history.log == old(history).log + [Event(now, amount)] && history.clock == now
    {
      Credit(now, amount, history.slots);
      history := AfterAdd(history, now, amount, buckets[..]);
    }

    /** The body of Sum: prune, then add up the buckets that are left. */
    method PruneAndTotal(now: nat) returns (sum: real)
      modifies buckets
      ensures buckets[..] == Pruned(old(buckets[..]), now - window)
      ensures sum == SumSlots(buckets[..])
    {
      Prune(now);
      sum := 0.0;
      for i := 0 to buckets.Length
        invariant buckets[..] == Pruned(old(buckets[..]), now - window)
        invariant sum == SumSlots(buckets[..i])
      {
        assert buckets[..i + 1][..i] == buckets[..i];
        if buckets[i].timestamp != 0 {
          sum := sum + buckets[i].amount;
        }
      }
      assert buckets[..buckets.Length] == buckets[..];
    }

    method Sum(now: nat) returns (sum: real)
      requires Valid() && history.clock <= now
      modifies this, buckets
      ensures Valid() && history == AfterSum(old(history), now)
      ensures sum == Usage(old(history), now)
      ensures WithinSandwich(old(history), now, sum)
    {
      UsageInSandwich(history, now);
      sum := PruneAndTotal(now);
      history := AfterSum(history, now);
    }

    /** The earliest bucket time, or the zero time when every bucket is empty. */
    method OldestTimestamp() returns (oldest: nat)
      ensures oldest == 0 <==> forall i :: 0 <= i < buckets.Length ==> Empty(buckets[i])
      ensures oldest != 0 ==> exists i :: 0 <= i < buckets.Length && buckets[i].timestamp == oldest
      ensures forall i :: 0 <= i < buckets.Length && !Empty(buckets[i]) ==> oldest <= buckets[i].timestamp
    {
      oldest := 0;
      for i := 0 to buckets.Length
        invariant oldest == 0 ==> forall j :: 0 <= j < i ==> Empty(buckets[j])
        invariant oldest != 0 ==> exists j :: 0 <= j < i && buckets[j].timestamp == oldest
        invariant forall j :: 0 <= j < i && !Empty(buckets[j]) ==> oldest <= buckets[j].timestamp
      {
        if buckets[i].timestamp != 0 {
          if oldest == 0 || buckets[i].timestamp < oldest {
            oldest := buckets[i].timestamp;
          }
        }
      }
    }
  }
}
