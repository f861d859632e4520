/** Policies, rules and actions (pkg/mpl/ast). */
module Policies {
  import opened Conditions
  import opened Options

  /** An action with its raw parameters; an absent string is "", an absent number 0. */
  datatype Action =
    | Allow
    | Deny(message: string, status: int)
    | Log
    | Redact(field: string, strategy: string, pattern: string, replacement: string)
    | Modify(field: string, operation: string, value: string)
    | Route(provider: string, model: string, fallback: seq<string>)
    | Alert(destination: string, message: string, kind: string)
    | Tag(key: string, value: string, extracted: string)
    | RateLimit
    | Budget
    | Unknown(kind: string)

  datatype Rule = Rule(name: string, enabled: bool, priority: int, condition: Option<Cond>, actions: seq<Action>)

  datatype Policy = Policy(name: string, tags: seq<string>, rules: seq<Rule>)

  predicate IsBlocking(a: Action) {
    a.Deny? || a.RateLimit? || a.Budget?
  }
}
