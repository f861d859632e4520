/**
  The evaluation engine as it runs: one context object written by every action, and the
  two nested loops that stop at the first allow or deny or error.
 */
module Engine {
  import opened Conditions
  import opened Options
  import opened Policies
  import opened Evaluation

  class EvaluationContext {
    var matchedRules: seq<MatchedRule>
    var tags: map<string, string>
    var transformations: seq<Transformation>
    var redactions: seq<Redaction>
    var notifications: seq<Notification>
    var routingTarget: Option<Target>
    var blockReason: string
    var blockStatusCode: int
    var stopped: bool
    // Looks at the deadline so far.
    var polls: nat

    function Accumulated(): Effects
      reads this
    {
      Effects(tags, transformations, redactions, notifications, routingTarget, blockReason, blockStatusCode, stopped)
    }

    function View(): Ctx
      reads this
    {
      Ctx(Accumulated(), matchedRules, polls)
    }

    constructor ()
      ensures View() == Ctx(NOTHING, [], 0)
    {
      matchedRules, tags, transformations, redactions, notifications := [], map[], [], [], [];
      routingTarget, blockReason, blockStatusCode, stopped, polls := None, "", 0, false, 0;
    }

    method SetBlock(reason: string, statusCode: int)
      modifies this`blockReason, this`blockStatusCode, this`stopped
      ensures Accumulated() == old(Accumulated()).(blockReason := reason, blockStatus := statusCode, stopped := true)
    {
      blockReason, blockStatusCode, stopped := reason, statusCode, true;
    }

    method Stop()
      modifies this`stopped
      ensures Accumulated() == old(Accumulated()).(stopped := true)
    {
      stopped := true;
    }

    /** Carries out one action; what it could not do it reports as failed. */
    method Execute(a: Action) returns (success: bool)
      modifies this`tags, this`transformations, this`redactions, this`notifications, this`routingTarget,
               this`blockReason, this`blockStatusCode, this`stopped
      ensures Accumulated() == Executed(old(Accumulated()), a)
      ensures success == Succeeds(a)
      ensures !success <==>
        || a.Unknown? || (a.Modify? && a.field == "") || (a.Route? && a.provider == "")
        || (a.Alert? && a.destination == "") || (a.Tag? && a.key == "")
    {
      success := true;
      match a
      case Allow => Stop();
      case Deny(message, status) =>
        SetBlock(if message == "" then "Request denied by policy" else message, if status == 0 then 403 else status);
      case Log =>
      case Redact(field, strategy, pattern, replacement) =>
        redactions := redactions
          + [Redaction(OrElse(field, "prompt"), OrElse(strategy, "mask"), pattern, OrElse(replacement, "***"))];
      case Modify(field, operation, value) =>
        if field == "" { return false; }
        transformations := transformations + [Transformation(field, OrElse(operation, "set"), value)];
      case Route(provider, model, fallback) =>
        if provider == "" { return false; }
        routingTarget := Some(Target(provider, model, fallback));
      case Alert(destination, message, kind) =>
        if destination == "" { return false; }
        notifications := notifications + [Notification(OrElse(kind, "webhook"), destination, message)];
      case Tag(key, value, extracted) =>
        if key == "" { return false; }
        var v := value;
        if v == "" { v := extracted; }
        if v == "" { v := "true"; }
        tags := tags[key := v];
      case RateLimit =>
      case Budget =>
      case Unknown(_) => success := false;
    }

    /** Every action of the rule runs, even after one that stops evaluation. */
    method RunActions(actions: seq<Action>) returns (executed: seq<(Action, bool)>)
      modifies this
      ensures Accumulated() == ExecutedAll(old(Accumulated()), actions)
      ensures executed == Results(actions) && matchedRules == old(matchedRules) && polls == old(polls)
    {
      executed := [];
      for i := 0 to |actions|
        invariant Accumulated() == ExecutedAll(old(Accumulated()), actions[..i])
        invariant executed == Results(actions[..i]) && matchedRules == old(matchedRules) && polls == old(polls)
      {
        ghost var before := Accumulated();
        var success := Execute(actions[i]);
        executed := executed + [(actions[i], success)];
        assert actions[..i + 1] == actions[..i] + [actions[i]] && [actions[i]][1..] == [];
        ExecutedConcat(old(Accumulated()), actions[..i], [actions[i]]);
        assert ExecutedAll(before, [actions[i]]) == Executed(before, actions[i]);
      }
      assert actions[..|actions|] == actions;
    }
  }

  method EvaluateRule(env: Env, policy: string, rule: Rule, ctx: EvaluationContext) returns (err: Option<EvalError>)
    modifies ctx
    ensures (ctx.View(), err) == RunRule(env, policy, rule, old(ctx.View()))
  {
    if rule.condition.Some? {
      var (m, n) := Evaluate(env, rule.condition.value, ctx.polls);
      ctx.polls := n;
      if m.Error? {
        ctx.polls := n + 1;
        if env.cancelled(n) {
          return Some(Timeout(policy));
        }
        ctx.matchedRules := ctx.matchedRules + [MatchedRule(policy, rule.name, false, [], true)];
        return Some(ConditionFailed(policy, rule.name, m.problem));
      }
      if !m.value {
        ctx.matchedRules := ctx.matchedRules + [MatchedRule(policy, rule.name, false, [], false)];
        return None;
      }
    }
    var executed := ctx.RunActions(rule.actions);
    ctx.matchedRules := ctx.matchedRules + [MatchedRule(policy, rule.name, true, executed, false)];
    return None;
  }

  method EnabledRules(rules: seq<Rule>) returns (enabled: seq<Rule>)
    ensures enabled == Enabled(rules)
  {
    enabled := [];
    for i := 0 to |rules|
      invariant enabled + Enabled(rules[i..]) == Enabled(rules)
    {
      assert rules[i..][0] == rules[i] && rules[i..][1..] == rules[i + 1..];
      if rules[i].enabled {
        enabled := enabled + [rules[i]];
      }
    }
  }

  method EvaluateRules(env: Env, policy: string, rules: seq<Rule>, ctx: EvaluationContext) returns (err: Option<EvalError>)
    requires !ctx.stopped
    modifies ctx
    ensures (ctx.View(), err) == RunRules(env, policy, rules, old(ctx.View()))
  {
    for i := 0 to |rules|
      invariant RunRules(env, policy, rules[i..], ctx.View()) == RunRules(env, policy, rules, old(ctx.View()))
      invariant !ctx.stopped
    {
      assert rules[i..][0] == rules[i] && rules[i..][1..] == rules[i + 1..];
      err := EvaluateRule(env, policy, rules[i], ctx);
      if err.Some? {
        return;
      }
      if ctx.stopped {
        return None;
      }
    }
    return None;
  }

  method EvaluatePolicies(env: Env, policies: seq<Policy>, ctx: EvaluationContext) returns (err: Option<EvalError>)
    requires !ctx.stopped
    modifies ctx
    ensures (ctx.View(), err) == RunPolicies(env, policies, old(ctx.View()))
  {
    for i := 0 to |policies|
      invariant RunPolicies(env, policies[i..], ctx.View()) == RunPolicies(env, policies, old(ctx.View()))
      invariant !ctx.stopped
    {
      assert policies[i..][0] == policies[i] && policies[i..][1..] == policies[i + 1..];
      var done := env.cancelled(ctx.polls);
      ctx.polls := ctx.polls + 1;
      if done {
        return Some(Timeout(policies[i].name));
      }
      var rules := EnabledRules(policies[i].rules);
      err := EvaluateRules(env, policies[i].name, rules, ctx);
      if err.Some? {
        return;
      }
      if ctx.stopped {
        return None;
      }
    }
    return None;
  }

  /** Evaluates a request and applies the fail-safe mode to an evaluation error. */
  method EvaluateRequest(env: Env, default: PolicyAction, policies: seq<Policy>) returns (d: Decision)
    ensures d == Decide(env, default, policies)
  {
    var ctx := new EvaluationContext();
    var err := EvaluatePolicies(env, policies, ctx);
    if err.Some? {
      return HandleError(env.mode, default, ctx.View());
    }
    return BuildDecision(ctx.View());
  }
}
