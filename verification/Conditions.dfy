/**
  Condition trees (pkg/policy/engine/matcher.go): left-to-right, short-circuiting
  evaluation with errors and cancellation.
 */
module Conditions {

  datatype FailSafeMode = FailOpen | FailClosed | FailSafeDefault

  /** A leaf is a comparison or a function call; what it yields is part of the environment. */
  datatype Cond =
    | Leaf(id: nat)
    | All(children: seq<Cond>)
    | Any(children: seq<Cond>)
    | Not(children: seq<Cond>)
    | UnknownType

  datatype Problem = FieldNotFound(id: nat) | OperatorFailed(id: nat) | NotArity(n: nat) | BadType | Cancelled

  datatype Match = Matched(value: bool) | Error(problem: Problem)

  /** Looking up a leaf's field and applying its operator. */
  datatype Lookup = Missing | Compared(value: bool) | BadOperator

  /** `cancelled(n)` tells whether the n-th look at the context finds it cancelled. */
  datatype Env = Env(mode: FailSafeMode, lookup: nat -> Lookup, cancelled: nat -> bool)

  function MatchLeaf(env: Env, id: nat): Match {
    match env.lookup(id)
    case Compared(value) => Matched(value)
    case BadOperator => Error(OperatorFailed(id))
    case Missing =>
      match env.mode
      case FailOpen => Matched(true)
      case FailClosed => Error(FieldNotFound(id))
      case FailSafeDefault => Matched(false)
  }

  function Negated(m: Match): Match {
    if m.Matched? then Matched(!m.value) else m
  }

  /** The verdict, and the number of looks at the context so far. */
  function Evaluate(env: Env, c: Cond, polls: nat): (Match, nat)
    decreases c, 1
  {
    match c
    case Leaf(id) => (MatchLeaf(env, id), polls)
    case All(children) => EvaluateAll(env, children, polls)
    case Any(children) => EvaluateAny(env, children, polls)
    case Not(children) =>
      if |children| != 1 then (Error(NotArity(|children|)), polls)
      else var (m, n) := Evaluate(env, children[0], polls); (Negated(m), n)
    case UnknownType => (Error(BadType), polls)
  }

  function EvaluateAll(env: Env, cs: seq<Cond>, polls: nat): (Match, nat)
    decreases cs, 0
  {
    if |cs| == 0 then (Matched(true), polls)
    else if env.cancelled(polls) then (Error(Cancelled), polls + 1)
    else
      var (m, n) := Evaluate(env, cs[0], polls + 1);
      if m == Matched(true) then EvaluateAll(env, cs[1..], n) else (m, n)
  }

  function EvaluateAny(env: Env, cs: seq<Cond>, polls: nat): (Match, nat)
    decreases cs, 0
  {
    if |cs| == 0 then (Matched(false), polls)
    else if env.cancelled(polls) then (Error(Cancelled), polls + 1)
    else
      var (m, n) := Evaluate(env, cs[0], polls + 1);
      if m == Matched(false) then EvaluateAny(env, cs[1..], n) else (m, n)
  }

  // ---------------------------------------------------------------- De Morgan, errors and cancellation included

  function Negations(cs: seq<Cond>): (r: seq<Cond>)
    ensures |r| == |cs| && forall i :: 0 <= i < |cs| ==> r[i] == Not([cs[i]])
  {
    seq(|cs|, i requires 0 <= i < |cs| => Not([cs[i]]))
  }

  lemma {:induction false} NegatedAll(env: Env, cs: seq<Cond>, polls: nat)
    ensures var (m, n) := EvaluateAll(env, cs, polls); EvaluateAny(env, Negations(cs), polls) == (Negated(m), n)
    decreases |cs|
  {
    if |cs| > 0 && !env.cancelled(polls) {
      var (m, n) := Evaluate(env, cs[0], polls + 1);
      assert Negations(cs)[0] == Not([cs[0]]) && Negations(cs)[1..] == Negations(cs[1..]);
      assert Evaluate(env, Not([cs[0]]), polls + 1) == (Negated(m), n);
      NegatedAll(env, cs[1..], n);
    }
  }

  lemma {:induction false} NegatedAny(env: Env, cs: seq<Cond>, polls: nat)
    ensures var (m, n) := EvaluateAny(env, cs, polls); EvaluateAll(env, Negations(cs), polls) == (Negated(m), n)
    decreases |cs|
  {
    if |cs| > 0 && !env.cancelled(polls) {
      var (m, n) := Evaluate(env, cs[0], polls + 1);
      assert Negations(cs)[0] == Not([cs[0]]) && Negations(cs)[1..] == Negations(cs[1..]);
      assert Evaluate(env, Not([cs[0]]), polls + 1) == (Negated(m), n);
      NegatedAny(env, cs[1..], n);
    }
  }

  /**
    For every tree, environment and point of cancellation: not(all cs) and any(not c) give
    the same verdict or error after the same looks at the context, and so does the dual.
   */
  lemma {:induction false} DeMorgan(env: Env, cs: seq<Cond>, polls: nat)
    ensures Evaluate(env, Not([All(cs)]), polls) == Evaluate(env, Any(Negations(cs)), polls)
    ensures Evaluate(env, Not([Any(cs)]), polls) == Evaluate(env, All(Negations(cs)), polls)
  {
    NegatedAll(env, cs, polls);
    NegatedAny(env, cs, polls);
  }

  lemma {:induction false} DoubleNegation(env: Env, c: Cond, polls: nat)
    ensures Evaluate(env, Not([Not([c])]), polls) == Evaluate(env, c, polls)
  {
    assert Evaluate(env, Not([c]), polls) == (Negated(Evaluate(env, c, polls).0), Evaluate(env, c, polls).1);
  }

  // ---------------------------------------------------------------- the meaning without a clock

  function Undisturbed(env: Env): Env {
    env.(cancelled := _ => false)
  }

  function Meaning(env: Env, c: Cond): Match {
    Evaluate(Undisturbed(env), c, 0).0
  }

  function MeaningAll(env: Env, cs: seq<Cond>): Match {
    EvaluateAll(Undisturbed(env), cs, 0).0
  }

  /** Cancellation only ever replaces a verdict by a cancellation error; it never flips one. */
  lemma {:induction false} CancellationOnlyCancels(env: Env, c: Cond, polls: nat, polls': nat)
    ensures var m := Evaluate(env, c, polls).0;
      m == Evaluate(Undisturbed(env), c, polls').0 || (m == Error(Cancelled) && exists k :: env.cancelled(k))
    decreases c, 1
  {
    match c
    case Leaf(id) =>
    case All(children) => CancelledAll(env, children, polls, polls');
    case Any(children) => CancelledAny(env, children, polls, polls');
    case Not(children) => if |children| == 1 { CancellationOnlyCancels(env, children[0], polls, polls'); }
    case UnknownType =>
  }

  lemma {:induction false} CancelledAll(env: Env, cs: seq<Cond>, polls: nat, polls': nat)
    ensures var m := EvaluateAll(env, cs, polls).0;
      m == EvaluateAll(Undisturbed(env), cs, polls').0 || (m == Error(Cancelled) && exists k :: env.cancelled(k))
    decreases cs, 0
  {
    if |cs| > 0 && !env.cancelled(polls) {
      CancellationOnlyCancels(env, cs[0], polls + 1, polls' + 1);
      CancelledAll(env, cs[1..], Evaluate(env, cs[0], polls + 1).1, Evaluate(Undisturbed(env), cs[0], polls' + 1).1);
    }
  }

  lemma {:induction false} CancelledAny(env: Env, cs: seq<Cond>, polls: nat, polls': nat)
    ensures var m := EvaluateAny(env, cs, polls).0;
      m == EvaluateAny(Undisturbed(env), cs, polls').0 || (m == Error(Cancelled) && exists k :: env.cancelled(k))
    decreases cs, 0
  {
    if |cs| > 0 && !env.cancelled(polls) {
      CancellationOnlyCancels(env, cs[0], polls + 1, polls' + 1);
      CancelledAny(env, cs[1..], Evaluate(env, cs[0], polls + 1).1, Evaluate(Undisturbed(env), cs[0], polls' + 1).1);
    }
  }

  /** A cancelled context is noticed before any child of an all or an any. */
  lemma {:induction false} CancellationIsNoticed(env: Env, cs: seq<Cond>, polls: nat)
    requires |cs| > 0
    ensures env.cancelled(polls) ==>
      Evaluate(env, All(cs), polls) == Evaluate(env, Any(cs), polls) == (Error(Cancelled), polls + 1)
    ensures !env.cancelled(polls) && Evaluate(env, cs[0], polls + 1).0.Error? ==>
      Evaluate(env, All(cs), polls) == Evaluate(env, Any(cs), polls) == Evaluate(env, cs[0], polls + 1)
  {
  }

  lemma {:induction false} MeaningAllStep(env: Env, cs: seq<Cond>)
    requires |cs| > 0
    ensures MeaningAll(env, cs) ==
      if Meaning(env, cs[0]) == Matched(true) then MeaningAll(env, cs[1..]) else Meaning(env, cs[0])
    ensures Meaning(env, All(cs)) == MeaningAll(env, cs)
  {
    var calm := Undisturbed(env);
    CancellationOnlyCancels(calm, cs[0], 1, 0);
    CancelledAll(calm, cs[1..], Evaluate(calm, cs[0], 1).1, 0);
  }

  /** A conjunction of two lists is the first list, then the second. */
  lemma {:induction false} MeaningAllConcat(env: Env, xs: seq<Cond>, ys: seq<Cond>)
    ensures MeaningAll(env, xs + ys) ==
      if MeaningAll(env, xs) == Matched(true) then MeaningAll(env, ys) else MeaningAll(env, xs)
    decreases |xs|
  {
    if |xs| == 0 {
      assert xs + ys == ys;
    } else {
      assert (xs + ys)[0] == xs[0] && (xs + ys)[1..] == xs[1..] + ys;
      MeaningAllStep(env, xs);
      MeaningAllStep(env, xs + ys);
      MeaningAllConcat(env, xs[1..], ys);
    }
  }

  // ---------------------------------------------------------------- the meaning in verdicts and in truth values

  /** The first verdict that is not true decides. */
  function Conj(ms: seq<Match>): Match {
    if |ms| == 0 then Matched(true) else if ms[0] == Matched(true) then Conj(ms[1..]) else ms[0]
  }

  /** The first verdict that is not false decides. */
  function Disj(ms: seq<Match>): Match {
    if |ms| == 0 then Matched(false) else if ms[0] == Matched(false) then Disj(ms[1..]) else ms[0]
  }

  function Meanings(env: Env, cs: seq<Cond>): (ms: seq<Match>)
    ensures |ms| == |cs| && forall i :: 0 <= i < |cs| ==> ms[i] == Meaning(env, cs[i])
  {
    seq(|cs|, i requires 0 <= i < |cs| => Meaning(env, cs[i]))
  }

  lemma {:induction false} AllMeansConj(env: Env, cs: seq<Cond>)
    ensures Meaning(env, All(cs)) == MeaningAll(env, cs) == Conj(Meanings(env, cs))
    decreases |cs|
  {
    if |cs| > 0 {
      MeaningAllStep(env, cs);
      AllMeansConj(env, cs[1..]);
      assert Meanings(env, cs)[1..] == Meanings(env, cs[1..]);
    }
  }

  lemma {:induction false} AnyMeansDisj(env: Env, cs: seq<Cond>)
    ensures Meaning(env, Any(cs)) == Disj(Meanings(env, cs))
    decreases |cs|
  {
    assert Meaning(env, Any(cs)) == EvaluateAny(Undisturbed(env), cs, 0).0;
    if |cs| > 0 {
      var calm := Undisturbed(env);
      CancellationOnlyCancels(calm, cs[0], 1, 0);
      CancelledAny(calm, cs[1..], Evaluate(calm, cs[0], 1).1, 0);
      AnyMeansDisj(env, cs[1..]);
      assert Meaning(env, Any(cs[1..])) == EvaluateAny(calm, cs[1..], 0).0;
      assert Meanings(env, cs)[1..] == Meanings(env, cs[1..]);
    }
  }

  /** Of verdicts without an error, the conjunction and the disjunction are the boolean ones. */
  lemma {:induction false} TruthOfVerdicts(ms: seq<Match>)
    requires forall i :: 0 <= i < |ms| ==> ms[i].Matched?
    ensures Conj(ms) == Matched(forall i :: 0 <= i < |ms| ==> ms[i].value)
    ensures Disj(ms) == Matched(exists i :: 0 <= i < |ms| && ms[i].value)
    decreases |ms|
  {
    if |ms| > 0 {
      var rest := ms[1..];
      TruthOfVerdicts(rest);
      assert forall i :: 0 < i < |ms| ==> ms[i] == rest[i - 1];
      assert forall i :: 0 <= i < |rest| ==> rest[i] == ms[i + 1];
    }
  }

  /** What a leaf says by itself: its comparison, or for a missing field what the mode makes of it. */
  ghost predicate LeafHolds(env: Env, id: nat) {
    env.lookup(id) == Compared(true) || (env.lookup(id) == Missing && env.mode == FailOpen)
  }

  /** A leaf that cannot be decided: a failing operator, or a missing field under fail-closed. */
  ghost predicate LeafFails(env: Env, id: nat) {
    env.lookup(id) == BadOperator || (env.lookup(id) == Missing && env.mode == FailClosed)
  }

  /** The tree as a boolean formula over its leaves. */
  ghost predicate Holds(env: Env, c: Cond) {
    match c
    case Leaf(id) => LeafHolds(env, id)
    case All(children) => forall i :: 0 <= i < |children| ==> Holds(env, children[i])
    case Any(children) => exists i :: 0 <= i < |children| && Holds(env, children[i])
    case Not(children) => |children| == 1 && !Holds(env, children[0])
    case UnknownType => false
  }

  /** Nothing in the tree can fail. */
  ghost predicate Decidable(env: Env, c: Cond) {
    match c
    case Leaf(id) => !LeafFails(env, id)
    case All(children) => forall i :: 0 <= i < |children| ==> Decidable(env, children[i])
    case Any(children) => forall i :: 0 <= i < |children| ==> Decidable(env, children[i])
    case Not(children) => |children| == 1 && Decidable(env, children[0])
    case UnknownType => false
  }

  /** A missing field matches under fail-open, fails under fail-closed and does not match under the default mode. */
  lemma {:induction false} MissingField(env: Env, id: nat, polls: nat)
    requires env.lookup(id) == Missing
    ensures Evaluate(env, Leaf(id), polls).0 ==
      match env.mode
      case FailOpen => Matched(true)
      case FailClosed => Error(FieldNotFound(id))
      case FailSafeDefault => Matched(false)
  {
  }

  /** A leaf that fails is reported with its own identity. */
  lemma {:induction false} LeafVerdict(env: Env, id: nat, polls: nat)
    ensures Evaluate(env, Leaf(id), polls).0 ==
      if env.lookup(id) == BadOperator then Error(OperatorFailed(id))
      else if LeafFails(env, id) then Error(FieldNotFound(id))
      else Matched(LeafHolds(env, id))
  {
  }

  /** A decidable tree means its boolean formula. */
  lemma {:induction false} MeaningIsTruth(env: Env, c: Cond)
    requires Decidable(env, c)
    ensures Meaning(env, c) == Matched(Holds(env, c))
  {
    match c
    case Leaf(id) =>
    case All(children) =>
      forall i | 0 <= i < |children| ensures Meaning(env, children[i]) == Matched(Holds(env, children[i])) {
        MeaningIsTruth(env, children[i]);
      }
      AllMeansConj(env, children);
      TruthOfVerdicts(Meanings(env, children));
    case Any(children) =>
      forall i | 0 <= i < |children| ensures Meaning(env, children[i]) == Matched(Holds(env, children[i])) {
        MeaningIsTruth(env, children[i]);
      }
      AnyMeansDisj(env, children);
      TruthOfVerdicts(Meanings(env, children));
    case Not(children) => MeaningIsTruth(env, children[0]);
  }

  /** And so it evaluates, unless it is cancelled. */
  lemma {:induction false} EvaluatesTruth(env: Env, c: Cond, polls: nat)
    requires Decidable(env, c)
    ensures Evaluate(env, c, polls).0 == Matched(Holds(env, c))
      || (Evaluate(env, c, polls).0 == Error(Cancelled) && exists k :: env.cancelled(k))
  {
    MeaningIsTruth(env, c);
    CancellationOnlyCancels(env, c, polls, 0);
  }
}
