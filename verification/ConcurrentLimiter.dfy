/**
  ConcurrentLimiter (pkg/limits/ratelimit/concurrent.go) as a protocol: any number of
  threads interleave the atomic increment, the comparison of the value they got back, the
  undo of a refused acquire and the release of a granted one.
 */
module ConcurrentLimiters {

  type Thread = nat

  /** Where a thread stands: `seen` is the value its increment returned. */
  datatype Phase = Idle | Incremented(seen: int) | Undoing(seen: int) | Holding

  datatype State = State(limit: int, current: int, phases: map<Thread, Phase>)

  datatype Step = Increment(t: Thread) | Decide(t: Thread) | Undo(t: Thread) | Release(t: Thread)

  function PhaseOf(s: State, t: Thread): Phase {
    if t in s.phases then s.phases[t] else Idle
  }

  function Moved(s: State, t: Thread, p: Phase, delta: int): State {
    s.(current := s.current + delta, phases := s.phases[t := p])
  }

  /** A thread releases only what it holds. */
  predicate Enabled(s: State, step: Step) {
    match step
    case Increment(t) => PhaseOf(s, t) == Idle
    case Decide(t) => PhaseOf(s, t).Incremented?
    case Undo(t) => PhaseOf(s, t).Undoing?
    case Release(t) => PhaseOf(s, t) == Holding
  }

  function Apply(s: State, step: Step): State
    requires Enabled(s, step)
  {
    match step
    case Increment(t) => Moved(s, t, Incremented(s.current + 1), 1)
    case Decide(t) =>
      var seen := PhaseOf(s, t).seen;
      if seen > s.limit then Moved(s, t, Undoing(seen), 0) else Moved(s, t, Holding, 0)
    case Undo(t) => Moved(s, t, Idle, -1)
    case Release(t) => Moved(s, t, Idle, -1)
  }

  // ---------------------------------------------------------------- who is where

  ghost function Active(s: State): set<Thread> {
    set t | t in s.phases && s.phases[t] != Idle
  }

  ghost function Holders(s: State): set<Thread> {
    set t | t in s.phases && s.phases[t] == Holding
  }

  ghost function MidAcquire(s: State): set<Thread> {
    set t | t in s.phases && (s.phases[t].Incremented? || s.phases[t].Undoing?)
  }

  /** Threads that hold a slot or are bound to get one. */
  ghost function Granted(s: State): set<Thread> {
    set t | t in s.phases && (s.phases[t] == Holding || (s.phases[t].Incremented? && s.phases[t].seen <= s.limit))
  }

  ghost predicate Inv(s: State) {
    && s.current == |Active(s)|
    && |Granted(s)| <= (if s.limit < 0 then 0 else s.limit)
    && (forall t :: t in s.phases && s.phases[t].Undoing? ==> s.phases[t].seen > s.limit)
  }

  lemma {:induction false} IncrementInv(s: State, t: Thread)
    requires Inv(s) && PhaseOf(s, t) == Idle
    ensures Inv(Apply(s, Increment(t)))
  {
    var s' := Apply(s, Increment(t));
    assert t !in Active(s) && Active(s') == Active(s) + {t};
    SubsetSize(Granted(s), Active(s));
    if s.current + 1 <= s.limit {
      assert Granted(s') == Granted(s) + {t};
    } else {
      assert Granted(s') == Granted(s);
    }
  }

  lemma {:induction false} LeaveInv(s: State, step: Step)
    requires Inv(s) && Enabled(s, step) && (step.Undo? || step.Release?)
    ensures Inv(Apply(s, step))
  {
    var s', t := Apply(s, step), step.t;
    assert t in Active(s) && Active(s') == Active(s) - {t};
    assert Granted(s') <= Granted(s);
    SubsetSize(Granted(s'), Granted(s));
  }

  lemma {:induction false} StepInv(s: State, step: Step)
    requires Inv(s) && Enabled(s, step)
    ensures Inv(Apply(s, step))
  {
    match step
    case Increment(t) => IncrementInv(s, t);
    case Decide(t) =>
      assert Active(Apply(s, step)) == Active(s);
      assert Granted(Apply(s, step)) == Granted(s);
    case Undo(t) => LeaveInv(s, step);
    case Release(t) => LeaveInv(s, step);
  }

  lemma {:induction false} SubsetSize(a: set<Thread>, b: set<Thread>)
    requires a <= b
    ensures |a| <= |b|
  {
    assert b == a + (b - a);
  }

  // ---------------------------------------------------------------- runs

  ghost predicate Run(limit: int, trace: seq<State>, steps: seq<Step>) {
    && |trace| == |steps| + 1
    && trace[0] == State(limit, 0, map[])
    && forall k :: 0 <= k < |steps| ==> Enabled(trace[k], steps[k]) && trace[k + 1] == Apply(trace[k], steps[k])
  }

  lemma {:induction false} RunInv(limit: int, trace: seq<State>, steps: seq<Step>, k: nat)
    requires Run(limit, trace, steps) && k < |trace|
    ensures Inv(trace[k]) && trace[k].limit == limit
  {
    if k == 0 {
      assert Active(trace[0]) == {} && Granted(trace[0]) == {};
    } else {
      RunInv(limit, trace, steps, k - 1);
      StepInv(trace[k - 1], steps[k - 1]);
    }
  }

  /**
    In every interleaving the holders never exceed the limit, and the counter is exactly
    the holders plus the threads between increment and verdict or undo.
   */
  lemma {:induction false} Safety(limit: int, trace: seq<State>, steps: seq<Step>, k: nat)
    requires Run(limit, trace, steps) && k < |trace|
    ensures |Holders(trace[k])| <= (if limit < 0 then 0 else limit)
    ensures trace[k].current == |Holders(trace[k])| + |MidAcquire(trace[k])|
  {
    RunInv(limit, trace, steps, k);
    SubsetSize(Holders(trace[k]), Granted(trace[k]));
    assert Active(trace[k]) == Holders(trace[k]) + MidAcquire(trace[k]);
  }

  /** `j` is the step at which thread `t` began the acquire it is in at step `k`. */
  ghost predicate BeganAt(steps: seq<Step>, t: Thread, j: nat, k: nat)
    requires k <= |steps|
  {
    j < k && steps[j] == Increment(t) && forall m :: j < m < k ==> steps[m] != Increment(t)
  }

  /** The value a thread compares is one more than the number of other threads in play when it incremented. */
  lemma {:induction false} SeenCountsOthers(limit: int, trace: seq<State>, steps: seq<Step>, t: Thread, k: nat) returns (j: nat)
    requires Run(limit, trace, steps) && k < |trace|
    requires PhaseOf(trace[k], t).Incremented? || PhaseOf(trace[k], t).Undoing?
    ensures BeganAt(steps, t, j, k)
    ensures t !in Active(trace[j]) && PhaseOf(trace[k], t).seen == |Active(trace[j])| + 1
  {
    assert k > 0;
    var s, step := trace[k - 1], steps[k - 1];
    assert Enabled(s, step) && trace[k] == Apply(s, step);
    if step == Increment(t) {
      RunInv(limit, trace, steps, k - 1);
      j := k - 1;
    } else {
      j := SeenCountsOthers(limit, trace, steps, t, k - 1);
    }
  }

  /**
    An acquire is refused exactly when at least `limit` other threads were holding or in
    the middle of an acquire at its increment.
   */
  lemma {:induction false} RefusedIff(limit: int, trace: seq<State>, steps: seq<Step>, t: Thread, k: nat)
    requires Run(limit, trace, steps) && k < |steps| && steps[k] == Decide(t)
    ensures exists j: nat ::
      && BeganAt(steps, t, j, k) && t !in Active(trace[j])
      && (PhaseOf(trace[k + 1], t) == Holding <==> |Active(trace[j])| < limit)
      && (PhaseOf(trace[k + 1], t).Undoing? <==> |Active(trace[j])| >= limit)
  {
    assert Enabled(trace[k], steps[k]) && trace[k + 1] == Apply(trace[k], steps[k]);
    RunInv(limit, trace, steps, k);
    var j := SeenCountsOthers(limit, trace, steps, t, k);
  }

  /** Only a refused acquire is ever undone. */
  lemma {:induction false} UndoneWasRefused(limit: int, trace: seq<State>, steps: seq<Step>, t: Thread, k: nat)
    requires Run(limit, trace, steps) && k < |steps| && steps[k] == Undo(t)
    ensures exists j: nat :: BeganAt(steps, t, j, k) && t !in Active(trace[j]) && |Active(trace[j])| >= limit
  {
    assert Enabled(trace[k], steps[k]);
    RunInv(limit, trace, steps, k);
    var j := SeenCountsOthers(limit, trace, steps, t, k);
  }

  /** With nobody else in the middle of an acquire, a slot is granted exactly when one is free. */
  lemma {:induction false} QuietAcquire(s: State, t: Thread)
    requires Inv(s) && MidAcquire(s) == {} && PhaseOf(s, t) == Idle
    ensures var s' := Apply(Apply(s, Increment(t)), Decide(t));
      PhaseOf(s', t) == Holding <==> |Holders(s)| < s.limit
  {
    assert forall u :: u in Active(s) && u !in Holders(s) ==> u in MidAcquire(s);
    assert Active(s) == Holders(s);
  }

  /** A refusal can happen although nobody holds a slot: a thread on its way out is enough. */
  lemma {:induction false} RefusedWithNoHolder() returns (trace: seq<State>, steps: seq<Step>)
    ensures Run(1, trace, steps)
    ensures exists k :: 0 <= k < |steps| && steps[k] == Increment(2) && Holders(trace[k]) == {}
    ensures PhaseOf(trace[|trace| - 1], 2).Undoing?
  {
    steps := [Increment(0), Decide(0), Increment(1), Release(0), Increment(2), Decide(2)];
    var s0 := State(1, 0, map[]);
    var s1 := Apply(s0, steps[0]);
    var s2 := Apply(s1, steps[1]);
    var s3 := Apply(s2, steps[2]);
    var s4 := Apply(s3, steps[3]);
    var s5 := Apply(s4, steps[4]);
    var s6 := Apply(s5, steps[5]);
    trace := [s0, s1, s2, s3, s4, s5, s6];
    assert Holders(s4) == {};
    assert steps[4] == Increment(2);
  }

  // ---------------------------------------------------------------- the shared counter

  /** The object the threads share; each method is one atomic operation of one thread. */
  class ConcurrentLimiter {
    const limit: int
    var current: int
    ghost var state: State

    ghost predicate Valid()
      reads this
    {
      state.limit == limit && state.current == current && Inv(state)
    }

    constructor (limit: int)
      ensures Valid() && state == State(limit, 0, map[]) && this.limit == limit
    {
      this.limit := limit;
      current := 0;
      state := State(limit, 0, map[]);
      new;
      assert Active(state) == {} && Granted(state) == {};
    }

    /** The first half of Acquire. */
    method Add(ghost t: Thread) returns (seen: int)
      requires Valid() && PhaseOf(state, t) == Idle
      modifies this
      ensures Valid() && state == Apply(old(state), Increment(t)) && PhaseOf(state, t) == Incremented(seen)
    {
      StepInv(state, Increment(t));
      current := current + 1;
      seen := current;
      state := Apply(state, Increment(t));
    }

    /** The comparison in Acquire, on the value the thread got back; it touches nothing shared. */
    method Compare(ghost t: Thread, seen: int) returns (granted: bool)
      requires Valid() && PhaseOf(state, t) == Incremented(seen)
      modifies this`state
      ensures Valid() && state == Apply(old(state), Decide(t))
      ensures granted <==> PhaseOf(state, t) == Holding
    {
      StepInv(state, Decide(t));
      granted := !(seen > limit);
      state := Apply(state, Decide(t));
    }

    /** The undo of a refused acquire, and Release. */
    method Subtract(ghost step: Step)
      requires Valid() && (step.Undo? || step.Release?) && Enabled(state, step)
      modifies this
      ensures Valid() && state == Apply(old(state), step)
    {
      StepInv(state, step);
      current := current - 1;
      state := Apply(state, step);
    }
  }
}
