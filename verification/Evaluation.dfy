/**
  Policy evaluation (pkg/policy/engine/engine.go, executor.go, types.go): nested loops over
  policies and rules with a stop flag, actions that write an accumulating context, and the
  decision built from it.
 */
module Evaluation {
  import opened Conditions
  import opened Options
  import opened Policies

  datatype Transformation = Transformation(field: string, operation: string, value: string)
  datatype Redaction = Redaction(field: string, strategy: string, pattern: string, replacement: string)
  datatype Notification = Notification(kind: string, destination: string, message: string)
  datatype Target = Target(provider: string, model: string, fallback: seq<string>)

  /** What the actions have accumulated. */
  datatype Effects = Effects(
    tags: map<string, string>, transformations: seq<Transformation>, redactions: seq<Redaction>,
    notifications: seq<Notification>, routing: Option<Target>, blockReason: string, blockStatus: int, stopped: bool)

  const NOTHING := Effects(map[], [], [], [], None, "", 0, false)

  datatype MatchedRule = MatchedRule(policy: string, rule: string, matched: bool, executed: seq<(Action, bool)>, failed: bool)

  datatype EvalError = Timeout(policy: string) | ConditionFailed(policy: string, rule: string, problem: Problem)

  // ---------------------------------------------------------------- actions

  function OrElse(s: string, default: string): string {
    if s == "" then default else s
  }

  predicate Succeeds(a: Action) {
    match a
    case Modify(field, _, _) => field != ""
    case Route(provider, _, _) => provider != ""
    case Alert(destination, _, _) => destination != ""
    case Tag(key, _, _) => key != ""
    case Unknown(_) => false
    case _ => true
  }

  function Executed(e: Effects, a: Action): Effects {
    if !Succeeds(a) then e
    else
      match a
      case Allow => e.(stopped := true)
      case Deny(message, status) =>
        e.(blockReason := OrElse(message, "Request denied by policy"),
           blockStatus := if status == 0 then 403 else status,
           stopped := true)
      case Redact(field, strategy, pattern, replacement) =>
        e.(redactions := e.redactions
             + [Redaction(OrElse(field, "prompt"), OrElse(strategy, "mask"), pattern, OrElse(replacement, "***"))])
      case Modify(field, operation, value) =>
        e.(transformations := e.transformations + [Transformation(field, OrElse(operation, "set"), value)])
      case Route(provider, model, fallback) => e.(routing := Some(Target(provider, model, fallback)))
      case Alert(destination, message, kind) =>
        e.(notifications := e.notifications + [Notification(OrElse(kind, "webhook"), destination, message)])
      case Tag(key, value, extracted) => e.(tags := e.tags[key := OrElse(OrElse(value, extracted), "true")])
      case _ => e
  }

  function ExecutedAll(e: Effects, acts: seq<Action>): Effects
    decreases |acts|
  {
    if |acts| == 0 then e else ExecutedAll(Executed(e, acts[0]), acts[1..])
  }

  function Results(acts: seq<Action>): (r: seq<(Action, bool)>)
    ensures |r| == |acts|
  {
    seq(|acts|, i requires 0 <= i < |acts| => (acts[i], Succeeds(acts[i])))
  }

  /** The branch that turns a failed blocking action into an error can never be taken. */
  lemma {:induction false} BlockingActionsSucceed(a: Action)
    requires IsBlocking(a)
    ensures Succeeds(a)
  {
  }

  // ---------------------------------------------------------------- what evaluation computes

  /** The evaluation context: effects so far, rules looked at so far, looks at the clock so far. */
  datatype Ctx = Ctx(effects: Effects, matched: seq<MatchedRule>, polls: nat)

  type Outcome = (Ctx, Option<EvalError>)

  function RunRule(env: Env, policy: string, rule: Rule, c: Ctx): Outcome {
    if rule.condition.None? then (Acted(policy, rule, c), None)
    else
      var (m, n) := Evaluate(env, rule.condition.value, c.polls);
      match m
      case Error(problem) =>
        if env.cancelled(n) then (c.(polls := n + 1), Some(Timeout(policy)))
        else (c.(polls := n + 1, matched := c.matched + [MatchedRule(policy, rule.name, false, [], true)]),
              Some(ConditionFailed(policy, rule.name, problem)))
      case Matched(value) =>
        if value then (Acted(policy, rule, c.(polls := n)), None)
        else (c.(polls := n, matched := c.matched + [MatchedRule(policy, rule.name, false, [], false)]), None)
  }

  function Acted(policy: string, rule: Rule, c: Ctx): Ctx {
    c.(effects := ExecutedAll(c.effects, rule.actions),
       matched := c.matched + [MatchedRule(policy, rule.name, true, Results(rule.actions), false)])
  }

  function RunRules(env: Env, policy: string, rules: seq<Rule>, c: Ctx): Outcome
    decreases |rules|
  {
    if |rules| == 0 then (c, None)
    else
      var (c', err) := RunRule(env, policy, rules[0], c);
      if err.Some? || c'.effects.stopped then (c', err) else RunRules(env, policy, rules[1..], c')
  }

  function Enabled(rules: seq<Rule>): seq<Rule>
    decreases |rules|
  {
    if |rules| == 0 then []
    else if rules[0].enabled then [rules[0]] + Enabled(rules[1..]) else Enabled(rules[1..])
  }

  /** Each rule is kept or dropped by its own flag, in its place. */
  lemma {:induction false} EnabledAre(xs: seq<Rule>, r: Rule, ys: seq<Rule>)
    ensures Enabled(xs + [r] + ys) == Enabled(xs) + (if r.enabled then [r] else []) + Enabled(ys)
    ensures Enabled([]) == []
    decreases |xs|
  {
    if |xs| == 0 {
      assert xs + [r] + ys == [r] + ys && ([r] + ys)[1..] == ys;
    } else {
      assert (xs + [r] + ys)[0] == xs[0] && (xs + [r] + ys)[1..] == xs[1..] + [r] + ys;
      EnabledAre(xs[1..], r, ys);
    }
  }

  function RunPolicies(env: Env, policies: seq<Policy>, c: Ctx): Outcome
    decreases |policies|
  {
    if |policies| == 0 then (c, None)
    else if env.cancelled(c.polls) then (c.(polls := c.polls + 1), Some(Timeout(policies[0].name)))
    else
      var (c', err) := RunRules(env, policies[0].name, Enabled(policies[0].rules), c.(polls := c.polls + 1));
      if err.Some? || c'.effects.stopped then (c', err) else RunPolicies(env, policies[1..], c')
  }

  // ---------------------------------------------------------------- decisions

  datatype PolicyAction = AllowRequest | BlockRequest | TransformRequest | RouteRequest

  datatype Decision = Decision(action: PolicyAction, reason: string, status: int, target: Option<Target>,
                               effects: Effects, matched: seq<MatchedRule>)

  function BuildDecision(c: Ctx): Decision {
    var e := c.effects;
    if e.blockReason != "" then
      Decision(BlockRequest, e.blockReason, if e.blockStatus == 0 then 403 else e.blockStatus, None, e, c.matched)
    else if e.routing.Some? then Decision(RouteRequest, "", 0, e.routing, e, c.matched)
    else if |e.transformations| > 0 then Decision(TransformRequest, "", 0, None, e, c.matched)
    else Decision(AllowRequest, "", 0, None, e, c.matched)
  }

  function HandleError(mode: FailSafeMode, default: PolicyAction, c: Ctx): Decision {
    var d := BuildDecision(c);
    match mode
    case FailOpen => d.(action := AllowRequest)
    case FailClosed => d.(action := BlockRequest, reason := "Policy evaluation error", status := 500)
    case FailSafeDefault =>
      if default == BlockRequest then d.(action := default, reason := "Policy evaluation error", status := 500)
      else d.(action := default)
  }

  function Decide(env: Env, default: PolicyAction, policies: seq<Policy>): Decision {
    var (c, err) := RunPolicies(env, policies, Ctx(NOTHING, [], 0));
    if err.Some? then HandleError(env.mode, default, c) else BuildDecision(c)
  }

  // ---------------------------------------------------------------- the flat meaning

  /** The rule's condition holds, whatever the clock says. */
  predicate Matches(env: Env, rule: Rule) {
    rule.condition.Some? ==> Meaning(env, rule.condition.value) == Matched(true)
  }

  predicate Stops(a: Action) { a.Allow? || a.Deny? }

  predicate AnyStops(acts: seq<Action>) {
    exists a :: a in acts && Stops(a)
  }

  predicate AnyDeny(acts: seq<Action>) {
    exists a :: a in acts && a.Deny?
  }

  /** A matching rule that holds an allow or a deny. */
  predicate IsDecisive(env: Env, rule: Rule) {
    Matches(env, rule) && AnyStops(rule.actions)
  }

  /** Position of the first decisive rule; the length if there is none. */
  function Decisive(env: Env, rules: seq<Rule>): (k: nat)
    ensures k <= |rules|
    ensures forall i :: 0 <= i < k ==> !IsDecisive(env, rules[i])
    ensures k < |rules| ==> IsDecisive(env, rules[k])
    decreases |rules|
  {
    if |rules| == 0 then 0
    else if IsDecisive(env, rules[0]) then 0
    else 1 + Decisive(env, rules[1..])
  }

  /** The actions of the matching rules among `rules`, in order. */
  function Taken(env: Env, rules: seq<Rule>): seq<Action>
    decreases |rules|
  {
    if |rules| == 0 then []
    else if Matches(env, rules[0]) then rules[0].actions + Taken(env, rules[1..])
    else Taken(env, rules[1..])
  }

  /** The rules that are run: up to and including the decisive one. */
  function Cut(env: Env, rules: seq<Rule>): seq<Rule> {
    var k := Decisive(env, rules);
    if k < |rules| then rules[..k + 1] else rules
  }

  /** All enabled rules of all policies, in order. */
  function Flat(policies: seq<Policy>): seq<Rule>
    decreases |policies|
  {
    if |policies| == 0 then [] else Enabled(policies[0].rules) + Flat(policies[1..])
  }

  lemma {:induction false} ExecutedConcat(e: Effects, xs: seq<Action>, ys: seq<Action>)
    ensures ExecutedAll(e, xs + ys) == ExecutedAll(ExecutedAll(e, xs), ys)
    decreases |xs|
  {
    if |xs| == 0 {
      assert xs + ys == ys;
    } else {
      assert (xs + ys)[0] == xs[0] && (xs + ys)[1..] == xs[1..] + ys;
      ExecutedConcat(Executed(e, xs[0]), xs[1..], ys);
    }
  }

  lemma {:induction false} AnyStep(acts: seq<Action>)
    requires |acts| > 0
    ensures AnyStops(acts) <==> Stops(acts[0]) || AnyStops(acts[1..])
    ensures AnyDeny(acts) <==> acts[0].Deny? || AnyDeny(acts[1..])
  {
    assert forall a :: a in acts <==> a == acts[0] || a in acts[1..];
  }

  lemma {:induction false} StoppedIff(e: Effects, acts: seq<Action>)
    ensures ExecutedAll(e, acts).stopped <==> e.stopped || AnyStops(acts)
    decreases |acts|
  {
    if |acts| > 0 {
      StoppedIff(Executed(e, acts[0]), acts[1..]);
      AnyStep(acts);
    }
  }

  /** A rule evaluated without error acts exactly when its condition holds. */
  lemma {:induction false} RuleMeaning(env: Env, policy: string, rule: Rule, c: Ctx)
    ensures var (c', err) := RunRule(env, policy, rule, c);
      err.None? ==> c'.effects == if Matches(env, rule) then ExecutedAll(c.effects, rule.actions) else c.effects
  {
    if rule.condition.Some? { CancellationOnlyCancels(env, rule.condition.value, c.polls, 0); }
  }

  lemma {:induction false} RulesMeaning(env: Env, policy: string, rules: seq<Rule>, c: Ctx)
    requires !c.effects.stopped
    ensures var (c', err) := RunRules(env, policy, rules, c);
      err.None? ==>
        && c'.effects == ExecutedAll(c.effects, Taken(env, Cut(env, rules)))
        && (c'.effects.stopped <==> Decisive(env, rules) < |rules|)
    decreases |rules|
  {
    if |rules| > 0 {
      var r, rest := rules[0], rules[1..];
      var (c', err) := RunRule(env, policy, r, c);
      RuleMeaning(env, policy, r, c);
      StoppedIff(c.effects, r.actions);
      if err.None? {
        if c'.effects.stopped {
          assert Cut(env, rules) == [r];
          assert Taken(env, [r]) == r.actions by { assert [r][1..] == []; assert r.actions + [] == r.actions; }
        } else {
          RulesMeaning(env, policy, rest, c');
          CutStep(env, rules);
          if Matches(env, r) { ExecutedConcat(c.effects, r.actions, Taken(env, Cut(env, rest))); }
        }
      }
    }
  }

  /** Cutting a list whose first rule is not decisive cuts its tail. */
  lemma {:induction false} CutStep(env: Env, rules: seq<Rule>)
    requires |rules| > 0 && Decisive(env, rules) > 0
    ensures Cut(env, rules) == [rules[0]] + Cut(env, rules[1..])
    ensures Taken(env, Cut(env, rules)) ==
      (if Matches(env, rules[0]) then rules[0].actions else []) + Taken(env, Cut(env, rules[1..]))
    ensures Decisive(env, rules) < |rules| <==> Decisive(env, rules[1..]) < |rules[1..]|
  {
    var cut := Cut(env, rules[1..]);
    assert Decisive(env, rules) == 1 + Decisive(env, rules[1..]);
    assert Cut(env, rules) == [rules[0]] + cut;
    assert ([rules[0]] + cut)[1..] == cut;
  }

  /** Cutting two lists in a row: the second counts only if the first is not decisive. */
  lemma {:induction false} CutBoth(env: Env, xs: seq<Rule>, ys: seq<Rule>)
    ensures Cut(env, xs + ys) == Cut(env, xs) + if Decisive(env, xs) < |xs| then [] else Cut(env, ys)
    decreases |xs|
  {
    if |xs| == 0 {
      assert xs + ys == ys && Cut(env, xs) == [];
    } else {
      var both := xs + ys;
      assert both[0] == xs[0] && both[1..] == xs[1..] + ys;
      if IsDecisive(env, xs[0]) {
        assert Cut(env, xs) == [xs[0]] && Cut(env, both) == [xs[0]];
      } else {
        CutBoth(env, xs[1..], ys);
        CutStep(env, xs);
        CutStep(env, both);
      }
    }
  }

  lemma {:induction false} TakenConcat(env: Env, xs: seq<Rule>, ys: seq<Rule>)
    ensures Taken(env, xs + ys) == Taken(env, xs) + Taken(env, ys)
    decreases |xs|
  {
    if |xs| == 0 {
      assert xs + ys == ys;
    } else {
      assert (xs + ys)[0] == xs[0] && (xs + ys)[1..] == xs[1..] + ys;
      TakenConcat(env, xs[1..], ys);
    }
  }

  /**
    Evaluation refines a flat meaning: without an error, the nested loops have the effect of
    running, in order, the actions of the matching enabled rules through the first of them
    that holds an allow or a deny.
   */
  lemma {:induction false} FlatMeaning(env: Env, policies: seq<Policy>, c: Ctx)
    requires !c.effects.stopped
    ensures var (c', err) := RunPolicies(env, policies, c);
      err.None? ==> c'.effects == ExecutedAll(c.effects, Taken(env, Cut(env, Flat(policies))))
    decreases |policies|
  {
    if |policies| > 0 && !env.cancelled(c.polls) {
      var rules, rest := Enabled(policies[0].rules), Flat(policies[1..]);
      var c0 := c.(polls := c.polls + 1);
      var (c1, err) := RunRules(env, policies[0].name, rules, c0);
      RulesMeaning(env, policies[0].name, rules, c0);
      CutBoth(env, rules, rest);
      assert Cut(env, rules) + [] == Cut(env, rules);
      if err.None? && !c1.effects.stopped {
        FlatMeaning(env, policies[1..], c1);
        TakenConcat(env, Cut(env, rules), Cut(env, rest));
        ExecutedConcat(c.effects, Taken(env, Cut(env, rules)), Taken(env, Cut(env, rest)));
      }
    }
  }

  // ---------------------------------------------------------------- when there is no error

  /** The rule has a condition that cannot be decided. */
  predicate Fails(env: Env, rule: Rule) {
    rule.condition.Some? && Meaning(env, rule.condition.value).Error?
  }

  predicate NoneFails(env: Env, rules: seq<Rule>) {
    forall i :: 0 <= i < |rules| ==> !Fails(env, rules[i])
  }

  /** Without cancellation a rule meets an error exactly when its condition is one, and reports it. */
  lemma {:induction false} RuleError(env: Env, policy: string, rule: Rule, c: Ctx)
    requires forall n :: !env.cancelled(n)
    ensures RunRule(env, policy, rule, c).1 ==
      if Fails(env, rule) then Some(ConditionFailed(policy, rule.name, Meaning(env, rule.condition.value).problem)) else None
  {
    if rule.condition.Some? { CancellationOnlyCancels(env, rule.condition.value, c.polls, 0); }
  }

  lemma {:induction false} RulesError(env: Env, policy: string, rules: seq<Rule>, c: Ctx)
    requires (forall n :: !env.cancelled(n)) && !c.effects.stopped
    ensures RunRules(env, policy, rules, c).1.None? <==> NoneFails(env, Cut(env, rules))
    decreases |rules|
  {
    if |rules| > 0 {
      var (c', err) := RunRule(env, policy, rules[0], c);
      RuleError(env, policy, rules[0], c);
      RuleMeaning(env, policy, rules[0], c);
      StoppedIff(c.effects, rules[0].actions);
      if IsDecisive(env, rules[0]) {
        assert Cut(env, rules) == [rules[0]];
      } else {
        CutStep(env, rules);
        var rest := Cut(env, rules[1..]);
        assert Cut(env, rules)[0] == rules[0];
        assert NoneFails(env, Cut(env, rules)) <==> !Fails(env, rules[0]) && NoneFails(env, rest) by {
          assert forall i :: 0 <= i < |rest| ==> Cut(env, rules)[i + 1] == rest[i];
        }
        if err.None? { RulesError(env, policy, rules[1..], c'); }
      }
    }
  }

  /** Without cancellation, evaluation ends without an error exactly when no rule that is run has an undecidable condition. */
  lemma {:induction false} ErrorFreeIff(env: Env, policies: seq<Policy>, c: Ctx)
    requires (forall n :: !env.cancelled(n)) && !c.effects.stopped
    ensures RunPolicies(env, policies, c).1.None? <==> NoneFails(env, Cut(env, Flat(policies)))
    decreases |policies|
  {
    if |policies| > 0 {
      var rules, rest := Enabled(policies[0].rules), Flat(policies[1..]);
      var c0 := c.(polls := c.polls + 1);
      var (c1, err) := RunRules(env, policies[0].name, rules, c0);
      RulesError(env, policies[0].name, rules, c0);
      RulesMeaning(env, policies[0].name, rules, c0);
      CutBoth(env, rules, rest);
      var first, second := Cut(env, rules), Cut(env, rest);
      assert first + [] == first;
      assert NoneFails(env, first + second) <==> NoneFails(env, first) && NoneFails(env, second) by {
        NoneFailsConcat(env, first, second);
      }
      if err.None? && !c1.effects.stopped { ErrorFreeIff(env, policies[1..], c1); }
      if err.Some? { NoneFailsConcat(env, first, if Decisive(env, rules) < |rules| then [] else second); }
    }
  }

  lemma {:induction false} NoneFailsConcat(env: Env, xs: seq<Rule>, ys: seq<Rule>)
    ensures NoneFails(env, xs + ys) <==> NoneFails(env, xs) && NoneFails(env, ys)
  {
    assert forall i :: 0 <= i < |xs| ==> (xs + ys)[i] == xs[i];
    assert forall i :: 0 <= i < |ys| ==> (xs + ys)[|xs| + i] == ys[i];
  }

  /** A context found cancelled before a policy is a timeout of that policy, with nothing more done. */
  lemma {:induction false} TimeoutStops(env: Env, policies: seq<Policy>, c: Ctx)
    requires |policies| > 0 && env.cancelled(c.polls)
    ensures RunPolicies(env, policies, c) == (c.(polls := c.polls + 1), Some(Timeout(policies[0].name)))
  {
  }

  // ---------------------------------------------------------------- the audit trail

  /** What is on record for a rule: its name, whether it matched and what it executed. */
  function Trail(env: Env, rules: seq<Rule>): seq<(string, bool, seq<(Action, bool)>)>
    decreases |rules|
  {
    if |rules| == 0 then []
    else
      var m := Matches(env, rules[0]);
      [(rules[0].name, m, if m then Results(rules[0].actions) else [])] + Trail(env, rules[1..])
  }

  function Recorded(matched: seq<MatchedRule>): (r: seq<(string, bool, seq<(Action, bool)>)>)
    ensures |r| == |matched|
  {
    seq(|matched|, i requires 0 <= i < |matched| => (matched[i].rule, matched[i].matched, matched[i].executed))
  }

  lemma {:induction false} RuleTrail(env: Env, policy: string, rule: Rule, c: Ctx)
    ensures var (c', err) := RunRule(env, policy, rule, c);
      err.None? ==> Recorded(c'.matched) == Recorded(c.matched) + Trail(env, [rule])
  {
    if rule.condition.Some? { CancellationOnlyCancels(env, rule.condition.value, c.polls, 0); }
    assert [rule][1..] == [];
  }

  lemma {:induction false} TrailConcat(env: Env, xs: seq<Rule>, ys: seq<Rule>)
    ensures Trail(env, xs + ys) == Trail(env, xs) + Trail(env, ys)
    decreases |xs|
  {
    if |xs| == 0 {
      assert xs + ys == ys;
    } else {
      assert (xs + ys)[0] == xs[0] && (xs + ys)[1..] == xs[1..] + ys;
      TrailConcat(env, xs[1..], ys);
    }
  }

  lemma {:induction false} RulesTrail(env: Env, policy: string, rules: seq<Rule>, c: Ctx)
    requires !c.effects.stopped
    ensures var (c', err) := RunRules(env, policy, rules, c);
      err.None? ==> Recorded(c'.matched) == Recorded(c.matched) + Trail(env, Cut(env, rules))
    decreases |rules|
  {
    if |rules| > 0 {
      var (c', err) := RunRule(env, policy, rules[0], c);
      RuleTrail(env, policy, rules[0], c);
      RuleMeaning(env, policy, rules[0], c);
      StoppedIff(c.effects, rules[0].actions);
      if err.None? {
        if c'.effects.stopped {
          assert Cut(env, rules) == [rules[0]];
        } else {
          RulesTrail(env, policy, rules[1..], c');
          CutStep(env, rules);
          TrailConcat(env, [rules[0]], Cut(env, rules[1..]));
        }
      }
    }
  }

  /** Without an error, the matched-rule record is exactly the rules that were run, in order. */
  lemma {:induction false} AuditTrail(env: Env, policies: seq<Policy>, c: Ctx)
    requires !c.effects.stopped
    ensures var (c', err) := RunPolicies(env, policies, c);
      err.None? ==> Recorded(c'.matched) == Recorded(c.matched) + Trail(env, Cut(env, Flat(policies)))
    decreases |policies|
  {
    if |policies| > 0 && !env.cancelled(c.polls) {
      var rules, rest := Enabled(policies[0].rules), Flat(policies[1..]);
      var c0 := c.(polls := c.polls + 1);
      var (c1, err) := RunRules(env, policies[0].name, rules, c0);
      RulesTrail(env, policies[0].name, rules, c0);
      RulesMeaning(env, policies[0].name, rules, c0);
      CutBoth(env, rules, rest);
      assert Cut(env, rules) + [] == Cut(env, rules);
      if err.None? && !c1.effects.stopped {
        AuditTrail(env, policies[1..], c1);
        TrailConcat(env, Cut(env, rules), Cut(env, rest));
      }
    }
  }

  // ---------------------------------------------------------------- what a list of actions amounts to

  /** The last element that satisfies a test decides; here its position, or -1. */
  function LastIndex(acts: seq<Action>, test: Action -> bool): (k: int)
    ensures -1 <= k < |acts|
    ensures k >= 0 ==> test(acts[k])
    ensures forall i :: k < i < |acts| ==> !test(acts[i])
  {
    if |acts| == 0 then -1
    else if test(acts[|acts| - 1]) then |acts| - 1
    else LastIndex(acts[..|acts| - 1], test)
  }

  function IsDeny(): Action -> bool { (a: Action) => a.Deny? }

  function IsEffectiveRoute(): Action -> bool { (a: Action) => a.Route? && a.provider != "" }

  /** The transformations of the modifies that name a field, in order. */
  function Modifies(acts: seq<Action>): seq<Transformation> {
    if |acts| == 0 then []
    else
      var last := acts[|acts| - 1];
      Modifies(acts[..|acts| - 1])
        + if last.Modify? && last.field != ""
          then [Transformation(last.field, OrElse(last.operation, "set"), last.value)] else []
  }

  lemma {:induction false} ExecutedLast(acts: seq<Action>)
    requires |acts| > 0
    ensures ExecutedAll(NOTHING, acts) == Executed(ExecutedAll(NOTHING, acts[..|acts| - 1]), acts[|acts| - 1])
  {
    var front, last := acts[..|acts| - 1], acts[|acts| - 1];
    assert acts == front + [last] && [last][1..] == [];
    ExecutedConcat(NOTHING, front, [last]);
    assert ExecutedAll(ExecutedAll(NOTHING, front), [last]) == Executed(ExecutedAll(NOTHING, front), last);
  }

  lemma {:induction false} Blocks(acts: seq<Action>)
    ensures var (e, d) := (ExecutedAll(NOTHING, acts), LastIndex(acts, IsDeny()));
      && (e.blockReason == if d < 0 then "" else OrElse(acts[d].message, "Request denied by policy"))
      && (e.blockStatus == if d < 0 then 0 else if acts[d].status == 0 then 403 else acts[d].status)
    decreases |acts|
  {
    if |acts| > 0 {
      Blocks(acts[..|acts| - 1]);
      ExecutedLast(acts);
    }
  }

  lemma {:induction false} Routes(acts: seq<Action>)
    ensures var (e, r) := (ExecutedAll(NOTHING, acts), LastIndex(acts, IsEffectiveRoute()));
      e.routing == if r < 0 then None else Some(Target(acts[r].provider, acts[r].model, acts[r].fallback))
    decreases |acts|
  {
    if |acts| > 0 {
      Routes(acts[..|acts| - 1]);
      ExecutedLast(acts);
    }
  }

  lemma {:induction false} Transforms(acts: seq<Action>)
    ensures ExecutedAll(NOTHING, acts).transformations == Modifies(acts)
    decreases |acts|
  {
    if |acts| > 0 {
      Transforms(acts[..|acts| - 1]);
      ExecutedLast(acts);
    }
  }

  /** The redactions, in order, with the defaults for what is left open. */
  function Redacts(acts: seq<Action>): seq<Redaction> {
    if |acts| == 0 then []
    else
      var last := acts[|acts| - 1];
      Redacts(acts[..|acts| - 1])
        + if last.Redact?
          then [Redaction(if last.field == "" then "prompt" else last.field,
                          if last.strategy == "" then "mask" else last.strategy, last.pattern,
                          if last.replacement == "" then "***" else last.replacement)]
          else []
  }

  /** The notifications of the alerts that name a destination, in order. */
  function Notifies(acts: seq<Action>): seq<Notification> {
    if |acts| == 0 then []
    else
      var last := acts[|acts| - 1];
      Notifies(acts[..|acts| - 1])
        + if last.Alert? && last.destination != ""
          then [Notification(if last.kind == "" then "webhook" else last.kind, last.destination, last.message)] else []
  }

  function IsTagFor(key: string): Action -> bool { (a: Action) => a.Tag? && a.key == key && key != "" }

  lemma {:induction false} Redactions(acts: seq<Action>)
    ensures ExecutedAll(NOTHING, acts).redactions == Redacts(acts)
    decreases |acts|
  {
    if |acts| > 0 {
      Redactions(acts[..|acts| - 1]);
      ExecutedLast(acts);
    }
  }

  lemma {:induction false} Notifications(acts: seq<Action>)
    ensures ExecutedAll(NOTHING, acts).notifications == Notifies(acts)
    decreases |acts|
  {
    if |acts| > 0 {
      Notifications(acts[..|acts| - 1]);
      ExecutedLast(acts);
    }
  }

  /** A key is tagged iff some action tags it; the last one gives its value, or failing that its field, or "true". */
  lemma {:induction false} Tags(acts: seq<Action>, key: string)
    ensures var (tags, k) := (ExecutedAll(NOTHING, acts).tags, LastIndex(acts, IsTagFor(key)));
      && (key in tags <==> k >= 0)
      && (k >= 0 ==> tags[key] == if acts[k].value != "" then acts[k].value
                                  else if acts[k].extracted != "" then acts[k].extracted else "true")
    decreases |acts|
  {
    if |acts| > 0 {
      Tags(acts[..|acts| - 1], key);
      ExecutedLast(acts);
    }
  }

  /** Only the decisive rule can contribute a deny. */
  lemma {:induction false} DenyIsDecisive(env: Env, rules: seq<Rule>)
    ensures var k := Decisive(env, rules);
      AnyDeny(Taken(env, Cut(env, rules))) <==> k < |rules| && AnyDeny(rules[k].actions)
    decreases |rules|
  {
    if |rules| > 0 {
      var first := rules[0].actions;
      if IsDecisive(env, rules[0]) {
        assert Cut(env, rules) == [rules[0]] && [rules[0]][1..] == [];
        assert Taken(env, [rules[0]]) == first + [] == first;
      } else {
        var head := if Matches(env, rules[0]) then first else [];
        DenyIsDecisive(env, rules[1..]);
        CutStep(env, rules);
        assert forall a :: a in head ==> !Stops(a);
        assert forall a :: a in head + Taken(env, Cut(env, rules[1..])) <==> a in head || a in Taken(env, Cut(env, rules[1..]));
      }
    }
  }

  /**
    The decision, when evaluation meets no error: block iff the decisive rule holds a deny
    (the last one gives reason and status), else route to the last effective route, else
    transform iff some modify took effect, else allow; and the transformations are exactly
    the effective modifies in order.
   */
  lemma {:induction false} DecisionMeaning(env: Env, default: PolicyAction, policies: seq<Policy>)
    requires RunPolicies(env, policies, Ctx(NOTHING, [], 0)).1.None?
    ensures var (d, rules) := (Decide(env, default, policies), Flat(policies));
      var k, acts := Decisive(env, rules), Taken(env, Cut(env, rules));
      var deny, route := LastIndex(acts, IsDeny()), LastIndex(acts, IsEffectiveRoute());
      && (d.action == BlockRequest <==> k < |rules| && AnyDeny(rules[k].actions))
      && (d.action == BlockRequest ==>
            && deny >= 0 && d.reason == OrElse(acts[deny].message, "Request denied by policy")
            && d.status == if acts[deny].status == 0 then 403 else acts[deny].status)
      && (d.action == RouteRequest <==> deny < 0 && route >= 0)
      && (d.action == RouteRequest ==> d.target == Some(Target(acts[route].provider, acts[route].model, acts[route].fallback)))
      && (d.action == TransformRequest <==> deny < 0 && route < 0 && Modifies(acts) != [])
      && d.effects.transformations == Modifies(acts) && d.effects.redactions == Redacts(acts)
      && d.effects.notifications == Notifies(acts)
  {
    var rules := Flat(policies);
    var acts := Taken(env, Cut(env, rules));
    FlatMeaning(env, policies, Ctx(NOTHING, [], 0));
    Blocks(acts);
    Routes(acts);
    Transforms(acts);
    Redactions(acts);
    Notifications(acts);
    DenyIsDecisive(env, rules);
    var deny := LastIndex(acts, IsDeny());
    assert deny >= 0 ==> acts[deny] in acts;
    assert AnyDeny(acts) <==> deny >= 0;
  }

  // ---------------------------------------------------------------- fail-safe

  ghost predicate HasDeny(m: MatchedRule) {
    exists j :: 0 <= j < |m.executed| && m.executed[j].0.Deny?
  }

  ghost predicate DenyExecuted(matched: seq<MatchedRule>) {
    exists i :: 0 <= i < |matched| && HasDeny(matched[i])
  }

  /** A deny is on record exactly when there is a reason to block, and then evaluation is stopped. */
  ghost predicate Honest(c: Ctx) {
    && (DenyExecuted(c.matched) <==> c.effects.blockReason != "")
    && (c.effects.blockReason != "" ==> c.effects.stopped)
  }

  lemma {:induction false} DenyLeavesReason(e: Effects, acts: seq<Action>)
    ensures ExecutedAll(e, acts).blockReason != "" <==> e.blockReason != "" || AnyDeny(acts)
    decreases |acts|
  {
    if |acts| > 0 {
      DenyLeavesReason(Executed(e, acts[0]), acts[1..]);
      AnyStep(acts);
    }
  }

  lemma {:induction false} ActedHonest(policy: string, rule: Rule, c: Ctx)
    requires Honest(c) && !c.effects.stopped
    ensures Honest(Acted(policy, rule, c))
  {
    var c', n := Acted(policy, rule, c), |c.matched|;
    DenyLeavesReason(c.effects, rule.actions);
    StoppedIff(c.effects, rule.actions);
    assert forall i :: 0 <= i < n ==> c'.matched[i] == c.matched[i] && !HasDeny(c.matched[i]);
    if HasDeny(c'.matched[n]) {
      var j :| 0 <= j < |c'.matched[n].executed| && c'.matched[n].executed[j].0.Deny?;
      assert rule.actions[j] in rule.actions;
    }
    if AnyDeny(rule.actions) {
      var j :| 0 <= j < |rule.actions| && rule.actions[j].Deny?;
      assert c'.matched[n].executed[j].0.Deny?;
    }
  }

  lemma {:induction false} RuleHonest(env: Env, policy: string, rule: Rule, c: Ctx)
    requires Honest(c) && !c.effects.stopped
    ensures var (c', err) := RunRule(env, policy, rule, c);
      Honest(c') && (err.Some? ==> !c'.effects.stopped)
  {
    var (c', err) := RunRule(env, policy, rule, c);
    if rule.condition.None? {
      ActedHonest(policy, rule, c);
    } else {
      var (m, n) := Evaluate(env, rule.condition.value, c.polls);
      if m == Matched(true) {
        ActedHonest(policy, rule, c.(polls := n));
      } else {
        assert forall i :: 0 <= i < |c'.matched| && HasDeny(c'.matched[i]) ==> c'.matched[i] == c.matched[i];
      }
    }
  }

  lemma {:induction false} RulesHonest(env: Env, policy: string, rules: seq<Rule>, c: Ctx)
    requires Honest(c) && !c.effects.stopped
    ensures var (c', err) := RunRules(env, policy, rules, c);
      Honest(c') && (err.Some? ==> !c'.effects.stopped)
    decreases |rules|
  {
    if |rules| > 0 {
      RuleHonest(env, policy, rules[0], c);
      var (c', err) := RunRule(env, policy, rules[0], c);
      if err.None? && !c'.effects.stopped { RulesHonest(env, policy, rules[1..], c'); }
    }
  }

  lemma {:induction false} PoliciesHonest(env: Env, policies: seq<Policy>, c: Ctx)
    requires Honest(c) && !c.effects.stopped
    ensures var (c', err) := RunPolicies(env, policies, c);
      Honest(c') && (err.Some? ==> !c'.effects.stopped)
    decreases |policies|
  {
    if |policies| > 0 && !env.cancelled(c.polls) {
      var c0 := c.(polls := c.polls + 1);
      var rules := Enabled(policies[0].rules);
      RulesHonest(env, policies[0].name, rules, c0);
      var (c1, err) := RunRules(env, policies[0].name, rules, c0);
      if err.None? && !c1.effects.stopped { PoliciesHonest(env, policies[1..], c1); }
    }
  }

  /**
    Fail-safe soundness, for every policy set, environment and point of timeout: once a
    deny has executed no evaluation error can follow, so under every mode an executed deny
    blocks; fail-open allows only without one, and fail-closed blocks every error with 500.
   */
  lemma {:induction false} FailSafe(env: Env, default: PolicyAction, policies: seq<Policy>)
    ensures var (c, err) := RunPolicies(env, policies, Ctx(NOTHING, [], 0));
      var d := Decide(env, default, policies);
      && (DenyExecuted(c.matched) ==> err.None? && d.action == BlockRequest)
      && (err.Some? && env.mode == FailOpen ==> d.action == AllowRequest && !DenyExecuted(c.matched))
      && (err.Some? && env.mode == FailClosed ==>
            d.action == BlockRequest && d.status == 500 && d.reason == "Policy evaluation error")
      && (err.Some? && env.mode == FailSafeDefault ==> d.action == default && !DenyExecuted(c.matched))
      && (err.Some? && env.mode == FailSafeDefault && default == BlockRequest ==>
            d.status == 500 && d.reason == "Policy evaluation error")
  {
    PoliciesHonest(env, policies, Ctx(NOTHING, [], 0));
    var (c, err) := RunPolicies(env, policies, Ctx(NOTHING, [], 0));
    assert err.Some? ==> !DenyExecuted(c.matched);
  }
}
