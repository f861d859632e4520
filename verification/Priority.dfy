/**
  Priorities and load order (pkg/policy/engine/priority.go): rules and policies are sorted
  by priority and then by name, with a sort that need not be stable.
 */
module Priority {
  import opened Conditions
  import opened Options
  import opened Policies
  import opened Evaluation

  const HIGH := 100
  const MEDIUM := 50
  const LOW := 10

  // ---------------------------------------------------------------- priorities

  function TagPriority(tag: string): Option<int> {
    if tag in {"security", "compliance", "blocking"} then Some(HIGH)
    else if tag in {"routing", "transformation"} then Some(MEDIUM)
    else if tag in {"monitoring", "tagging", "analytics"} then Some(LOW)
    else None
  }

  /** The first tag that means a priority. */
  function TagsPriority(tags: seq<string>): Option<int> {
    if |tags| == 0 then None
    else if TagPriority(tags[0]).Some? then TagPriority(tags[0])
    else TagsPriority(tags[1..])
  }

  predicate HasBlocking(acts: seq<Action>) { exists a :: a in acts && IsBlocking(a) }

  predicate HasRoute(acts: seq<Action>) { exists a :: a in acts && a.Route? }

  function Rank(blocking: bool, routing: bool): int {
    if blocking then HIGH else if routing then MEDIUM else LOW
  }

  function RulePriority(r: Rule): int {
    if r.priority != 0 then r.priority else Rank(HasBlocking(r.actions), HasRoute(r.actions))
  }

  function PolicyPriority(p: Policy): int {
    if TagsPriority(p.tags).Some? then TagsPriority(p.tags).value
    else Rank(exists r :: r in p.rules && r.enabled && HasBlocking(r.actions),
              exists r :: r in p.rules && r.enabled && HasRoute(r.actions))
  }

  /** The loop over a rule's actions that both priority functions make. */
  method ScanActions(actions: seq<Action>) returns (blocking: bool, routing: bool)
    ensures blocking == HasBlocking(actions) && routing == HasRoute(actions)
  {
    blocking, routing := false, false;
    for i := 0 to |actions|
      invariant blocking == HasBlocking(actions[..i]) && routing == HasRoute(actions[..i])
    {
      assert actions[..i + 1] == actions[..i] + [actions[i]];
      if IsBlocking(actions[i]) {
        blocking := true;
      } else if actions[i].Route? {
        routing := true;
      }
    }
    assert actions[..|actions|] == actions;
  }

  method GetRulePriority(rule: Rule) returns (priority: int)
    ensures priority == RulePriority(rule)
    ensures rule.priority != 0 ==> priority == rule.priority
    ensures rule.priority == 0 ==>
      (priority == if exists a :: a in rule.actions && (a.Deny? || a.RateLimit? || a.Budget?) then 100
                   else if exists a :: a in rule.actions && a.Route? then 50 else 10)
  {
    if rule.priority != 0 {
      return rule.priority;
    }
    var blocking, routing := ScanActions(rule.actions);
    return Rank(blocking, routing);
  }

  predicate SpeaksHigh(tag: string) { tag == "security" || tag == "compliance" || tag == "blocking" }
  predicate SpeaksMedium(tag: string) { tag == "routing" || tag == "transformation" }
  predicate SpeaksLow(tag: string) { tag == "monitoring" || tag == "tagging" || tag == "analytics" }

  predicate Speaks(tag: string) { SpeaksHigh(tag) || SpeaksMedium(tag) || SpeaksLow(tag) }

  /** The first tag that speaks of a priority. */
  ghost predicate FirstSpeaks(tags: seq<string>, i: int) {
    0 <= i < |tags| && Speaks(tags[i]) && forall j :: 0 <= j < i ==> !Speaks(tags[j])
  }

  method GetPolicyPriority(policy: Policy) returns (priority: int)
    ensures priority == PolicyPriority(policy)
    ensures forall i :: FirstSpeaks(policy.tags, i) ==>
      priority == if SpeaksHigh(policy.tags[i]) then 100 else if SpeaksMedium(policy.tags[i]) then 50 else 10
    ensures (forall i :: 0 <= i < |policy.tags| ==> !Speaks(policy.tags[i])) ==>
      (priority ==
         if exists r, a :: r in policy.rules && r.enabled && a in r.actions && (a.Deny? || a.RateLimit? || a.Budget?) then 100
         else if exists r, a :: r in policy.rules && r.enabled && a in r.actions && a.Route? then 50 else 10)
  {
    for i := 0 to |policy.tags|
      invariant TagsPriority(policy.tags) == TagsPriority(policy.tags[i..])
      invariant forall j :: 0 <= j < i ==> !Speaks(policy.tags[j])
    {
      assert policy.tags[i..][1..] == policy.tags[i + 1..];
      if TagPriority(policy.tags[i]).Some? {
        return TagPriority(policy.tags[i]).value;
      }
    }
    var hasBlocking, hasRouting := false, false;
    for i := 0 to |policy.rules|
      invariant hasBlocking <==> exists r :: r in policy.rules[..i] && r.enabled && HasBlocking(r.actions)
      invariant hasRouting <==> exists r :: r in policy.rules[..i] && r.enabled && HasRoute(r.actions)
    {
      assert policy.rules[..i + 1] == policy.rules[..i] + [policy.rules[i]];
      if policy.rules[i].enabled {
        var blocking, routing := ScanActions(policy.rules[i].actions);
        hasBlocking, hasRouting := hasBlocking || blocking, hasRouting || routing;
      }
    }
    assert policy.rules[..|policy.rules|] == policy.rules;
    return Rank(hasBlocking, hasRouting);
  }

  // ---------------------------------------------------------------- the two orders

  predicate Before(a: string, b: string) {
    if |b| == 0 then false
    else if |a| == 0 then true
    else a[0] < b[0] || (a[0] == b[0] && Before(a[1..], b[1..]))
  }

  lemma {:induction false} NamesCompare(a: string, b: string)
    ensures a != b <==> Before(a, b) || Before(b, a)
    decreases |a|
  {
    if |a| > 0 && |b| > 0 {
      NamesCompare(a[1..], b[1..]);
      assert a == [a[0]] + a[1..] && b == [b[0]] + b[1..];
    }
  }

  /** In dictionary order: the first letter that differs decides, and a prefix comes first. */
  ghost predicate Precedes(a: string, b: string) {
    exists k :: DiffersAt(a, b, k)
  }

  ghost predicate DiffersAt(a: string, b: string, k: nat) {
    k <= |a| && k < |b| && a[..k] == b[..k] && (k == |a| || a[k] < b[k])
  }

  lemma {:induction false} BeforeIsPrecedes(a: string, b: string)
    ensures Before(a, b) <==> Precedes(a, b)
    decreases |a|
  {
    if |a| == 0 {
      assert |b| > 0 ==> DiffersAt(a, b, 0);
    } else if |b| > 0 {
      BeforeIsPrecedes(a[1..], b[1..]);
      if a[0] < b[0] { assert DiffersAt(a, b, 0); }
      if a[0] == b[0] {
        if k: nat :| DiffersAt(a[1..], b[1..], k) { LaterDiffers(a, b, k); }
        if k: nat :| DiffersAt(a, b, k) && k > 0 { LaterDiffers(a, b, k - 1); }
      }
      if a[0] != b[0] {
        forall k: nat | DiffersAt(a, b, k) ensures k == 0 { SameStart(a, b, k); }
      }
    }
  }

  lemma {:induction false} SameStart(a: string, b: string, k: nat)
    requires k <= |a| && k <= |b| && a[..k] == b[..k]
    ensures k > 0 ==> a[0] == b[0]
  {
    if k > 0 { assert a[..k][0] == a[0] && b[..k][0] == b[0]; }
  }

  lemma {:induction false} LaterDiffers(a: string, b: string, k: nat)
    requires |a| > 0 && |b| > 0 && a[0] == b[0]
    ensures DiffersAt(a, b, k + 1) <==> DiffersAt(a[1..], b[1..], k)
  {
    if k + 1 <= |a| && k + 1 < |b| {
      assert a[..k + 1] == [a[0]] + a[1..][..k] && b[..k + 1] == [b[0]] + b[1..][..k];
      assert a[1..][..k] == a[..k + 1][1..] && b[1..][..k] == b[..k + 1][1..];
    }
  }

  lemma {:induction false} NamesBetween(a: string, b: string, c: string)
    requires Before(a, c)
    ensures Before(a, b) || Before(b, c)
    decreases |a|
  {
    if |a| > 0 && |b| > 0 && |c| > 0 && a[0] == b[0] == c[0] { NamesBetween(a[1..], b[1..], c[1..]); }
  }

  predicate RuleBefore(a: Rule, b: Rule) {
    RulePriority(a) > RulePriority(b) || (RulePriority(a) == RulePriority(b) && Before(a.name, b.name))
  }

  predicate PolicyBefore(a: Policy, b: Policy) {
    PolicyPriority(a) > PolicyPriority(b) || (PolicyPriority(a) == PolicyPriority(b) && Before(a.name, b.name))
  }

  // ---------------------------------------------------------------- sorting

  ghost predicate InOrder<T>(before: (T, T) -> bool, s: seq<T>) {
    forall i, j :: 0 <= i < j < |s| ==> !before(s[j], s[i])
  }

  /** What any sort of `s` by `before` may return. */
  ghost predicate SortOf<T>(before: (T, T) -> bool, s: seq<T>, sorted: seq<T>) {
    multiset(s) == multiset(sorted) && InOrder(before, sorted)
  }

  /** Different elements are always in some order. */
  ghost predicate Comparable<T(!new)>(before: (T, T) -> bool, s: seq<T>) {
    forall a, b :: a in s && b in s && a != b ==> before(a, b) || before(b, a)
  }

  /** With comparable elements there is only one way to sort, whatever the algorithm. */
  lemma {:induction false} SortIsUnique<T(!new)>(before: (T, T) -> bool, s: seq<T>, xs: seq<T>, ys: seq<T>)
    requires SortOf(before, s, xs) && SortOf(before, s, ys) && Comparable(before, s)
    ensures xs == ys
  {
    SameOrder(before, xs, ys, s);
  }

  lemma {:induction false} SameOrder<T(!new)>(before: (T, T) -> bool, xs: seq<T>, ys: seq<T>, s: seq<T>)
    requires multiset(xs) == multiset(ys) && multiset(xs) <= multiset(s)
    requires InOrder(before, xs) && InOrder(before, ys) && Comparable(before, s)
    ensures xs == ys
    decreases |xs|
  {
    SameLength(xs, ys);
    if |xs| > 0 {
      SameFirst(before, xs, ys, s);
      DropFirst(before, xs);
      DropFirst(before, ys);
      SameOrder(before, xs[1..], ys[1..], s);
    }
  }

  lemma {:induction false} SameLength<T>(xs: seq<T>, ys: seq<T>)
    requires multiset(xs) == multiset(ys)
    ensures |xs| == |ys|
  {
    assert |multiset(xs)| == |xs| && |multiset(ys)| == |ys|;
  }

  lemma {:induction false} DropFirst<T>(before: (T, T) -> bool, xs: seq<T>)
    requires |xs| > 0 && InOrder(before, xs)
    ensures xs == [xs[0]] + xs[1..] && InOrder(before, xs[1..])
    ensures multiset(xs[1..]) == multiset(xs) - multiset{xs[0]} && multiset(xs[1..]) <= multiset(xs)
  {
    assert xs == [xs[0]] + xs[1..];
  }

  lemma {:induction false} SameFirst<T(!new)>(before: (T, T) -> bool, xs: seq<T>, ys: seq<T>, s: seq<T>)
    requires multiset(xs) == multiset(ys) && multiset(xs) <= multiset(s) && |xs| > 0 && |ys| > 0
    requires InOrder(before, xs) && InOrder(before, ys) && Comparable(before, s)
    ensures xs[0] == ys[0]
  {
    var x, y := xs[0], ys[0];
    assert x in multiset(xs) && y in multiset(ys);
    assert x in multiset(ys) && y in multiset(xs) && x in multiset(s) && y in multiset(s);
    var i :| 0 <= i < |xs| && xs[i] == y;
    var j :| 0 <= j < |ys| && ys[j] == x;
    assert i > 0 ==> !before(y, x);
    assert j > 0 ==> !before(x, y);
    assert x in s && y in s;
  }

  function Mapped<A, B>(f: A -> B, s: seq<A>): (r: seq<B>)
    ensures |r| == |s| && forall i :: 0 <= i < |s| ==> r[i] == f(s[i])
  {
    seq(|s|, i requires 0 <= i < |s| => f(s[i]))
  }

  lemma {:induction false} RemoveAt<A>(s: seq<A>, k: nat)
    requires k < |s|
    ensures multiset(s) == multiset(s[..k] + s[k + 1..]) + multiset{s[k]}
    ensures multiset(s[..k] + s[k + 1..]) == multiset(s) - multiset{s[k]}
  {
    assert s == s[..k] + [s[k]] + s[k + 1..];
  }

  lemma {:induction false} MappedAt<A, B>(f: A -> B, s: seq<A>, k: nat)
    requires k < |s|
    ensures multiset(Mapped(f, s)) == multiset(Mapped(f, s[..k] + s[k + 1..])) + multiset{f(s[k])}
  {
    var m := Mapped(f, s);
    RemoveAt(m, k);
    assert m[..k] + m[k + 1..] == Mapped(f, s[..k] + s[k + 1..]);
  }

  lemma {:induction false} SameRest<A>(xs: seq<A>, ys: seq<A>, k: nat)
    requires multiset(xs) == multiset(ys) && |xs| > 0 && k < |ys| && ys[k] == xs[0]
    ensures multiset(xs[..0] + xs[1..]) == multiset(ys[..k] + ys[k + 1..])
  {
    RemoveAt(xs, 0);
    RemoveAt(ys, k);
  }

  /** Mapping a permutation permutes the images. */
  lemma {:induction false} MappedPermutes<A, B>(f: A -> B, xs: seq<A>, ys: seq<A>)
    requires multiset(xs) == multiset(ys)
    ensures multiset(Mapped(f, xs)) == multiset(Mapped(f, ys))
    decreases |xs|
  {
    SameLength(xs, ys);
    if |xs| == 0 {
      assert Mapped(f, xs) == Mapped(f, ys);
    } else {
      assert xs[0] in multiset(ys);
      var k :| 0 <= k < |ys| && ys[k] == xs[0];
      var rest, rest' := xs[..0] + xs[1..], ys[..k] + ys[k + 1..];
      SameRest(xs, ys, k);
      MappedPermutes(f, rest, rest');
      MappedAt(f, xs, 0);
      MappedAt(f, ys, k);
    }
  }

  // ---------------------------------------------------------------- a sort

  ghost predicate Layered<T(!new)>(before: (T, T) -> bool) {
    && (forall a, b, c :: before(a, c) ==> before(a, b) || before(b, c))
    && (forall a, b :: before(a, b) ==> !before(b, a))
  }

  function Inserted<T>(before: (T, T) -> bool, x: T, s: seq<T>): seq<T> {
    if |s| == 0 then [x]
    else if before(s[0], x) then [s[0]] + Inserted(before, x, s[1..])
    else [x] + s
  }

  /** Stands for sort.Slice: one of the results any correct sort may give. */
  function Sorted<T>(before: (T, T) -> bool, s: seq<T>): seq<T> {
    if |s| == 0 then [] else Inserted(before, s[0], Sorted(before, s[1..]))
  }

  lemma {:induction false} InsertedIsSort<T(!new)>(before: (T, T) -> bool, x: T, s: seq<T>)
    requires Layered(before) && InOrder(before, s)
    ensures multiset(Inserted(before, x, s)) == multiset(s) + multiset{x}
    ensures InOrder(before, Inserted(before, x, s))
    decreases |s|
  {
    if |s| > 0 {
      var rest := s[1..];
      assert s == [s[0]] + rest;
      if before(s[0], x) {
        InsertedIsSort(before, x, rest);
        var t := Inserted(before, x, rest);
        forall j | 0 <= j < |t| ensures !before(t[j], s[0]) {
          assert t[j] in multiset(t);
          assert t[j] == x || t[j] in rest;
        }
      } else {
        forall j | 0 <= j < |s| ensures !before(s[j], x) {
          assert j > 0 ==> !before(s[j], s[0]);
        }
      }
    }
  }

  lemma {:induction false} SortedIsSort<T(!new)>(before: (T, T) -> bool, s: seq<T>)
    requires Layered(before)
    ensures SortOf(before, s, Sorted(before, s))
    decreases |s|
  {
    if |s| > 0 {
      SortedIsSort(before, s[1..]);
      InsertedIsSort(before, s[0], Sorted(before, s[1..]));
      assert s == [s[0]] + s[1..];
    }
  }

  /** Two elements that neither precede each other can be exchanged in a sorted sequence. */
  lemma {:induction false} ExchangeTied<T(!new)>(before: (T, T) -> bool, xs: seq<T>, i: nat, j: nat)
    requires Layered(before) && InOrder(before, xs) && i < |xs| && j < |xs|
    requires !before(xs[i], xs[j]) && !before(xs[j], xs[i])
    ensures InOrder(before, xs[i := xs[j]][j := xs[i]])
    ensures multiset(xs[i := xs[j]][j := xs[i]]) == multiset(xs)
  {
    var ys := xs[i := xs[j]][j := xs[i]];
    forall p, q | 0 <= p < q < |xs| ensures !before(ys[q], ys[p]) {
      assert !before(xs[q], xs[p]);
    }
  }

  /** An element that two sorts may put in either place. */
  lemma {:induction false} TiedSorts<T(!new)>(before: (T, T) -> bool, s: seq<T>, a: T, b: T) returns (other: seq<T>)
    requires Layered(before) && a in s && b in s && a != b && !before(a, b) && !before(b, a)
    ensures SortOf(before, s, Sorted(before, s)) && SortOf(before, s, other) && other != Sorted(before, s)
  {
    var xs := Sorted(before, s);
    SortedIsSort(before, s);
    assert a in multiset(xs) && b in multiset(xs);
    var i :| 0 <= i < |xs| && xs[i] == a;
    var j :| 0 <= j < |xs| && xs[j] == b;
    ExchangeTied(before, xs, i, j);
    other := xs[i := xs[j]][j := xs[i]];
    assert other[i] == b;
  }

  /** All correct sorts of a sequence agree exactly when its elements are comparable. */
  lemma {:induction false} SortsAgreeIff<T(!new)>(before: (T, T) -> bool, s: seq<T>)
    requires Layered(before)
    ensures Comparable(before, s) <==>
      forall xs, ys :: SortOf(before, s, xs) && SortOf(before, s, ys) ==> xs == ys
  {
    if Comparable(before, s) {
      forall xs, ys | SortOf(before, s, xs) && SortOf(before, s, ys) ensures xs == ys {
        SortIsUnique(before, s, xs, ys);
      }
    } else {
      var a, b :| a in s && b in s && a != b && !before(a, b) && !before(b, a);
      var other := TiedSorts(before, s, a, b);
    }
  }

  lemma {:induction false} OrdersAreLayered()
    ensures Layered(RuleBefore) && Layered(PolicyBefore)
  {
    forall a: string, b: string ensures Before(a, b) ==> !Before(b, a) { Asymmetric(a, b); }
    forall a: string, b: string, c: string ensures Before(a, c) ==> Before(a, b) || Before(b, c) {
      if Before(a, c) { NamesBetween(a, b, c); }
    }
  }

  lemma {:induction false} Asymmetric(a: string, b: string)
    ensures Before(a, b) ==> !Before(b, a)
    decreases |a|
  {
    if |a| > 0 && |b| > 0 { Asymmetric(a[1..], b[1..]); }
  }

  // ---------------------------------------------------------------- normal forms

  ghost predicate RulesSorted(p: Policy, q: Policy) {
    q.name == p.name && q.tags == p.tags && SortOf(RuleBefore, p.rules, q.rules)
  }

  ghost predicate EachRulesSorted(ps: seq<Policy>, qs: seq<Policy>) {
    |qs| == |ps| && forall i :: 0 <= i < |ps| ==> RulesSorted(ps[i], qs[i])
  }

  /** `out` is what some correct sort makes of the rules of `ps` and then of `ps` itself. */
  ghost predicate Normalizes(ps: seq<Policy>, out: seq<Policy>) {
    exists mid :: EachRulesSorted(ps, mid) && SortOf(PolicyBefore, mid, out)
  }

  /** Different rules of a policy differ in priority or name. */
  ghost predicate RulesApart(p: Policy) {
    forall a, b :: a in p.rules && b in p.rules && a != b ==> RulePriority(a) != RulePriority(b) || a.name != b.name
  }

  /** Policies of one priority and name are the same but for the order of their rules. */
  ghost predicate Apart(ps: seq<Policy>) {
    && (forall p :: p in ps ==> RulesApart(p))
    && (forall p, q :: p in ps && q in ps && PolicyPriority(p) == PolicyPriority(q) && p.name == q.name ==> SamePolicy(p, q))
  }

  ghost predicate SamePolicy(p: Policy, q: Policy) {
    q.name == p.name && q.tags == p.tags && multiset(q.rules) == multiset(p.rules)
  }

  /** Policy names are distinct, and so are the rule names inside each policy. */
  ghost predicate WellNamed(ps: seq<Policy>) {
    && (forall i, j :: 0 <= i < j < |ps| ==> ps[i].name != ps[j].name)
    && (forall p, i, j :: p in ps && 0 <= i < j < |p.rules| ==> p.rules[i].name != p.rules[j].name)
  }

  lemma {:induction false} WellNamedIsApart(ps: seq<Policy>)
    requires WellNamed(ps)
    ensures Apart(ps)
  {
  }

  /** The same policies with the same rules, in any order at both levels. */
  ghost predicate Shuffled(ps: seq<Policy>, qs: seq<Policy>) {
    exists mid :: SameUpToRuleOrder(ps, mid) && multiset(mid) == multiset(qs)
  }

  ghost predicate SameUpToRuleOrder(ps: seq<Policy>, qs: seq<Policy>) {
    |qs| == |ps| && forall i :: 0 <= i < |ps| ==> SamePolicy(ps[i], qs[i])
  }

  function RulesInOrder(p: Policy): Policy {
    p.(rules := Sorted(RuleBefore, p.rules))
  }

  function EachInOrder(ps: seq<Policy>): (r: seq<Policy>)
    ensures |r| == |ps| && forall i :: 0 <= i < |ps| ==> r[i] == RulesInOrder(ps[i])
  {
    Mapped(RulesInOrder, ps)
  }

  lemma {:induction false} RulesComparable(p: Policy)
    requires RulesApart(p)
    ensures Comparable(RuleBefore, p.rules)
  {
    forall a, b | a in p.rules && b in p.rules && a != b ensures RuleBefore(a, b) || RuleBefore(b, a) {
      NamesCompare(a.name, b.name);
    }
  }

  /** A policy's priority does not depend on the order of its rules. */
  lemma {:induction false} PriorityStays(p: Policy, q: Policy)
    requires SamePolicy(p, q)
    ensures PolicyPriority(p) == PolicyPriority(q)
  {
    SameMembers(p.rules, q.rules);
  }

  lemma {:induction false} SameMembers<A>(xs: seq<A>, ys: seq<A>)
    requires multiset(xs) == multiset(ys)
    ensures forall x :: x in xs <==> x in ys
  {
    forall x ensures x in xs <==> x in ys {
      assert x in xs <==> x in multiset(xs);
      assert x in ys <==> x in multiset(ys);
    }
  }

  lemma {:induction false} InOrderIsSame(p: Policy)
    ensures SamePolicy(p, RulesInOrder(p)) && RulesSorted(p, RulesInOrder(p))
    ensures PolicyPriority(RulesInOrder(p)) == PolicyPriority(p)
  {
    OrdersAreLayered();
    SortedIsSort(RuleBefore, p.rules);
    PriorityStays(p, RulesInOrder(p));
  }

  /** However the rules are sorted, the result is the same. */
  lemma {:induction false} OneRuleOrder(p: Policy, q: Policy, sorted: Policy)
    requires RulesApart(p) && RulesSorted(q, sorted) && SamePolicy(p, q)
    ensures sorted == RulesInOrder(p)
  {
    OrdersAreLayered();
    SortedIsSort(RuleBefore, p.rules);
    RulesComparable(p);
    SortIsUnique(RuleBefore, p.rules, sorted.rules, Sorted(RuleBefore, p.rules));
  }

  /** A normal form is the sort of the policies with their rules in order. */
  lemma {:induction false} NormalForm(ps: seq<Policy>, out: seq<Policy>)
    requires (forall p :: p in ps ==> RulesApart(p)) && Normalizes(ps, out)
    ensures SortOf(PolicyBefore, EachInOrder(ps), out)
  {
    var mid :| EachRulesSorted(ps, mid) && SortOf(PolicyBefore, mid, out);
    forall i | 0 <= i < |ps| ensures mid[i] == RulesInOrder(ps[i]) { OneRuleOrder(ps[i], ps[i], mid[i]); }
    assert mid == EachInOrder(ps);
  }

  lemma {:induction false} ShuffledRules(ps: seq<Policy>, mid: seq<Policy>)
    requires (forall p :: p in ps ==> RulesApart(p)) && SameUpToRuleOrder(ps, mid)
    ensures EachInOrder(mid) == EachInOrder(ps) && forall p :: p in mid ==> RulesApart(p)
  {
    forall i | 0 <= i < |ps| ensures RulesInOrder(mid[i]) == RulesInOrder(ps[i]) && RulesApart(mid[i]) {
      assert ps[i] in ps;
      InOrderIsSame(mid[i]);
      OneRuleOrder(ps[i], mid[i], RulesInOrder(mid[i]));
      SameMembers(mid[i].rules, ps[i].rules);
    }
  }

  lemma {:induction false} PoliciesComparable(ps: seq<Policy>)
    requires Apart(ps)
    ensures Comparable(PolicyBefore, EachInOrder(ps))
  {
    var mid := EachInOrder(ps);
    forall a, b | a in mid && b in mid && a != b ensures PolicyBefore(a, b) || PolicyBefore(b, a) {
      var i :| 0 <= i < |ps| && mid[i] == a;
      var j :| 0 <= j < |ps| && mid[j] == b;
      InOrderIsSame(ps[i]);
      InOrderIsSame(ps[j]);
      NamesCompare(a.name, b.name);
      if a.name == b.name && PolicyPriority(a) == PolicyPriority(b) {
        assert ps[i] in ps && ps[j] in ps;
        OneRuleOrder(ps[i], ps[j], b);
      }
    }
  }

  /** Whatever was loaded in whatever order, and sorted however, ends in the same sequence. */
  ghost predicate OrderDoesNotMatter(ps: seq<Policy>) {
    forall qs, out, out' :: Shuffled(ps, qs) && Normalizes(ps, out) && Normalizes(qs, out') ==> out == out'
  }

  lemma {:induction false} SameNormalForm(ps: seq<Policy>, qs: seq<Policy>, out: seq<Policy>, out': seq<Policy>)
    requires Apart(ps) && Shuffled(ps, qs) && Normalizes(ps, out) && Normalizes(qs, out')
    ensures out == out'
  {
    var mid :| SameUpToRuleOrder(ps, mid) && multiset(mid) == multiset(qs);
    ShuffledRules(ps, mid);
    SameMembers(mid, qs);
    MappedPermutes(RulesInOrder, mid, qs);
    NormalForm(ps, out);
    NormalForm(qs, out');
    PoliciesComparable(ps);
    SameOrder(PolicyBefore, out, out', EachInOrder(ps));
  }

  /** The normal form that sorts the rules with Sorted, and then the policies. */
  lemma {:induction false} SomeNormalForm(ps: seq<Policy>, mid: seq<Policy>)
    requires EachRulesSorted(ps, mid)
    ensures Normalizes(ps, Sorted(PolicyBefore, mid)) && multiset(Sorted(PolicyBefore, mid)) == multiset(mid)
  {
    OrdersAreLayered();
    SortedIsSort(PolicyBefore, mid);
  }

  lemma {:induction false} EachInOrderSorted(ps: seq<Policy>)
    ensures EachRulesSorted(ps, EachInOrder(ps))
  {
    forall i | 0 <= i < |ps| ensures RulesSorted(ps[i], EachInOrder(ps)[i]) { InOrderIsSame(ps[i]); }
  }

  lemma {:induction false} UnshuffledIsShuffled(ps: seq<Policy>)
    ensures Shuffled(ps, ps)
  {
    assert SameUpToRuleOrder(ps, ps);
  }

  /** Two rules of one policy with the same priority and name can be sorted either way. */
  lemma {:induction false} AnotherRuleOrder(p: Policy) returns (q: Policy)
    requires !RulesApart(p)
    ensures RulesSorted(p, q) && q != RulesInOrder(p)
  {
    var a, b :| a in p.rules && b in p.rules && a != b && RulePriority(a) == RulePriority(b) && a.name == b.name;
    OrdersAreLayered();
    NamesCompare(a.name, b.name);
    var other := TiedSorts(RuleBefore, p.rules, a, b);
    q := p.(rules := other);
  }

  lemma {:induction false} TiedRulesMatter(ps: seq<Policy>, i: nat, q: Policy)
    requires i < |ps| && RulesSorted(ps[i], q) && q != RulesInOrder(ps[i])
    ensures !OrderDoesNotMatter(ps)
  {
    var mid := EachInOrder(ps);
    var mid' := mid[i := q];
    EachInOrderSorted(ps);
    assert EachRulesSorted(ps, mid');
    SomeNormalForm(ps, mid);
    SomeNormalForm(ps, mid');
    ReplacedDiffers(mid, i, q);
    UnshuffledIsShuffled(ps);
  }

  lemma {:induction false} ReplacedDiffers<A>(s: seq<A>, i: nat, x: A)
    requires i < |s| && x != s[i]
    ensures multiset(s[i := x]) != multiset(s)
  {
    assert multiset(s[i := x])[x] == multiset(s)[x] + 1;
  }

  /** Two policies with the same priority and name that are not the same. */
  lemma {:induction false} TiedPoliciesMatter(ps: seq<Policy>, i: nat, j: nat)
    requires i < |ps| && j < |ps| && PolicyPriority(ps[i]) == PolicyPriority(ps[j]) && ps[i].name == ps[j].name
    requires !SamePolicy(ps[i], ps[j])
    ensures !OrderDoesNotMatter(ps)
  {
    var mid := EachInOrder(ps);
    var a, b := mid[i], mid[j];
    InOrderIsSame(ps[i]);
    InOrderIsSame(ps[j]);
    OrdersAreLayered();
    NamesCompare(a.name, b.name);
    var other := TiedSorts(PolicyBefore, mid, a, b);
    EachInOrderSorted(ps);
    assert Normalizes(ps, Sorted(PolicyBefore, mid)) && Normalizes(ps, other);
    UnshuffledIsShuffled(ps);
  }

  /**
    Load-order independence, exactly: any two loads of the same policies and rules, sorted
    by any correct sorts, end in the same sequence if and only if the policies are apart.
   */
  lemma {:induction false} LoadOrderIndependent(ps: seq<Policy>)
    ensures Apart(ps) <==> OrderDoesNotMatter(ps)
  {
    if Apart(ps) {
      forall qs, out, out' | Shuffled(ps, qs) && Normalizes(ps, out) && Normalizes(qs, out') ensures out == out' {
        SameNormalForm(ps, qs, out, out');
      }
    } else if p :| p in ps && !RulesApart(p) {
      var i :| 0 <= i < |ps| && ps[i] == p;
      var q := AnotherRuleOrder(p);
      TiedRulesMatter(ps, i, q);
    } else {
      var p, q :| p in ps && q in ps && PolicyPriority(p) == PolicyPriority(q) && p.name == q.name && !SamePolicy(p, q);
      var i :| 0 <= i < |ps| && ps[i] == p;
      var j :| 0 <= j < |ps| && ps[j] == q;
      TiedPoliciesMatter(ps, i, j);
    }
  }

  /** So every request gets the same decision, whatever order well-named policies were loaded in. */
  lemma {:induction false} SameDecisions(ps: seq<Policy>, qs: seq<Policy>, out: seq<Policy>, out': seq<Policy>,
                                         env: Env, default: PolicyAction)
    requires WellNamed(ps) && Shuffled(ps, qs) && Normalizes(ps, out) && Normalizes(qs, out')
    ensures Decide(env, default, out) == Decide(env, default, out')
  {
    WellNamedIsApart(ps);
    SameNormalForm(ps, qs, out, out');
  }

  // ---------------------------------------------------------------- what the order is

  /** Priorities never rise, and names go in dictionary order where priorities are equal. */
  ghost predicate Descends(before: int, name: string, after: int, name': string) {
    before > after || (before == after && !Precedes(name', name))
  }

  /** Along a normal form, policies go by falling priority and then by name, and so do the rules of each. */
  lemma {:induction false} NormalOrder(ps: seq<Policy>, out: seq<Policy>)
    requires Normalizes(ps, out)
    ensures forall i, j :: 0 <= i < j < |out| ==>
      Descends(PolicyPriority(out[i]), out[i].name, PolicyPriority(out[j]), out[j].name)
    ensures forall p, i, j :: p in out && 0 <= i < j < |p.rules| ==>
      Descends(RulePriority(p.rules[i]), p.rules[i].name, RulePriority(p.rules[j]), p.rules[j].name)
  {
    var mid :| EachRulesSorted(ps, mid) && SortOf(PolicyBefore, mid, out);
    forall i, j | 0 <= i < j < |out|
      ensures Descends(PolicyPriority(out[i]), out[i].name, PolicyPriority(out[j]), out[j].name)
    {
      assert !PolicyBefore(out[j], out[i]);
      BeforeIsPrecedes(out[j].name, out[i].name);
    }
    SameMembers(mid, out);
    forall p, i, j | p in out && 0 <= i < j < |p.rules|
      ensures Descends(RulePriority(p.rules[i]), p.rules[i].name, RulePriority(p.rules[j]), p.rules[j].name)
    {
      assert p in mid;
      RulesDescend(p, i, j);
    }
  }

  lemma {:induction false} RulesDescend(p: Policy, i: nat, j: nat)
    requires i < j < |p.rules| && InOrder(RuleBefore, p.rules)
    ensures Descends(RulePriority(p.rules[i]), p.rules[i].name, RulePriority(p.rules[j]), p.rules[j].name)
  {
    assert !RuleBefore(p.rules[j], p.rules[i]);
    BeforeIsPrecedes(p.rules[j].name, p.rules[i].name);
  }

  /** A rule without a priority of its own that holds a deny comes before one that holds nothing blocking. */
  lemma {:induction false} DenyComesFirst(ps: seq<Policy>, out: seq<Policy>, p: Policy, d: nat, a: nat)
    requires Normalizes(ps, out) && p in out && d < |p.rules| && a < |p.rules|
    requires p.rules[d].priority == 0 && AnyDeny(p.rules[d].actions)
    requires p.rules[a].priority == 0 && !HasBlocking(p.rules[a].actions)
    ensures d < a
  {
    NormalOrder(ps, out);
    RanksDiffer(p.rules[d], p.rules[a]);
  }

  lemma {:induction false} RanksDiffer(deny: Rule, other: Rule)
    requires deny.priority == 0 && AnyDeny(deny.actions) && other.priority == 0 && !HasBlocking(other.actions)
    ensures RulePriority(deny) == 100 > RulePriority(other)
  {
    var a :| a in deny.actions && a.Deny?;
    assert IsBlocking(a);
  }

  /** The rule is not ranked by hand, and does not allow and block at once. */
  ghost predicate Plain(r: Rule) {
    r.priority == 0 && ((exists a :: a in r.actions && a.Allow?) ==> !HasBlocking(r.actions))
  }

  ghost predicate PlainlyRanked(p: Policy) {
    forall r :: r in p.rules ==> Plain(r)
  }

  /**
    In a plainly ranked policy on its own, an enabled unconditional deny always blocks,
    wherever in the file it stands and whatever else the policy allows.
   */
  lemma {:induction false} DenyWins(env: Env, default: PolicyAction, p: Policy, q: Policy, deny: Rule)
    requires Normalizes([p], [q]) && PlainlyRanked(p) && deny in p.rules
    requires deny.enabled && deny.condition.None? && AnyDeny(deny.actions)
    requires RunPolicies(env, [q], Ctx(NOTHING, [], 0)).1.None?
    ensures Decide(env, default, [q]).action == BlockRequest
  {
    OnePolicy(p, q);
    SameMembers(p.rules, q.rules);
    var rules := Enabled(q.rules);
    EnabledMembers(q.rules);
    EnabledInOrder(q.rules);
    var d :| 0 <= d < |rules| && rules[d] == deny;
    DecisiveDenies(env, rules, d);
    assert Flat([q]) == rules by { assert [q][1..] == [] && rules + [] == rules; }
    DecisionMeaning(env, default, [q]);
  }

  lemma {:induction false} OnePolicy(p: Policy, q: Policy)
    requires Normalizes([p], [q])
    ensures RulesSorted(p, q)
  {
    var mid :| EachRulesSorted([p], mid) && SortOf(PolicyBefore, mid, [q]);
    assert mid == [mid[0]] && mid[0] in multiset(mid);
    assert mid[0] in multiset([q]);
    assert RulesSorted([p][0], mid[0]);
  }

  /** With an unconditional deny among sorted rules, the first decisive rule holds a deny. */
  lemma {:induction false} DecisiveDenies(env: Env, rules: seq<Rule>, d: nat)
    requires InOrder(RuleBefore, rules) && d < |rules| && rules[d].condition.None? && AnyDeny(rules[d].actions)
    requires forall i :: 0 <= i < |rules| ==> Plain(rules[i])
    ensures Decisive(env, rules) < |rules| && AnyDeny(rules[Decisive(env, rules)].actions)
  {
    var k := Decisive(env, rules);
    assert IsDecisive(env, rules[d]) by { var a :| a in rules[d].actions && a.Deny?; assert Stops(a); }
    assert k <= d;
    AsHighDenies(rules[k], rules[d], k == d);
  }

  /** A plain rule that stops evaluation, and is not ranked below a plain deny, holds a deny. */
  lemma {:induction false} AsHighDenies(r: Rule, deny: Rule, same: bool)
    requires Plain(r) && Plain(deny) && AnyDeny(deny.actions) && AnyStops(r.actions)
    requires if same then r == deny else !RuleBefore(deny, r)
    ensures AnyDeny(r.actions)
  {
    var d :| d in deny.actions && d.Deny?;
    assert IsBlocking(d) && RulePriority(deny) == 100;
    assert RulePriority(r) >= 100;
    assert HasBlocking(r.actions);
    var a :| a in r.actions && Stops(a);
    assert a.Deny?;
  }

  lemma {:induction false} EnabledMembers(rules: seq<Rule>)
    ensures forall r :: r in Enabled(rules) <==> r in rules && r.enabled
    decreases |rules|
  {
    if |rules| > 0 {
      EnabledMembers(rules[1..]);
      assert forall r :: r in rules <==> r == rules[0] || r in rules[1..];
    }
  }

  lemma {:induction false} EnabledInOrder(rules: seq<Rule>)
    requires InOrder(RuleBefore, rules)
    ensures InOrder(RuleBefore, Enabled(rules))
    decreases |rules|
  {
    if |rules| > 0 {
      var rest := Enabled(rules[1..]);
      EnabledInOrder(rules[1..]);
      EnabledMembers(rules[1..]);
      forall j | 0 <= j < |rest| ensures !RuleBefore(rest[j], rules[0]) {
        assert rest[j] in rules[1..];
        var i :| 0 <= i < |rules[1..]| && rules[1..][i] == rest[j];
        assert rules[i + 1] == rest[j];
      }
    }
  }

  const FIRST := Rule("r", true, 0, None, [Allow])
  const SECOND := Rule("r", true, 0, None, [Modify("f", "", "v")])

  lemma {:induction false} EitherOrder()
    ensures SortOf(RuleBefore, [FIRST, SECOND], [FIRST, SECOND])
    ensures SortOf(RuleBefore, [FIRST, SECOND], [SECOND, FIRST])
  {
    NamesCompare(FIRST.name, SECOND.name);
    assert RulePriority(FIRST) == LOW == RulePriority(SECOND);
  }

  /** With two rules of one name the normal form, and the decision, depends on the sort. */
  lemma {:induction false} SameNameDiffers(env: Env, default: PolicyAction)
    returns (ps: seq<Policy>, out: seq<Policy>, out': seq<Policy>)
    requires forall n :: !env.cancelled(n)
    ensures Normalizes(ps, out) && Normalizes(ps, out')
    ensures Decide(env, default, out).action == AllowRequest && Decide(env, default, out').action == TransformRequest
  {
    var p, q := Policy("p", [], [FIRST, SECOND]), Policy("p", [], [SECOND, FIRST]);
    ps, out, out' := [p], [p], [q];
    EitherOrder();
    assert EachRulesSorted(ps, out) && EachRulesSorted(ps, out');
    assert SortOf(PolicyBefore, out, out) && SortOf(PolicyBefore, out', out');
    DecideOne(env, default, p, FIRST, SECOND);
    DecideOne(env, default, q, SECOND, FIRST);
    assert Executed(NOTHING, Allow).stopped;
    assert |Executed(NOTHING, Modify("f", "", "v")).transformations| == 1;
  }

  lemma {:induction false} ExecutedOne(e: Effects, acts: seq<Action>)
    requires |acts| == 1
    ensures ExecutedAll(e, acts) == Executed(e, acts[0])
  {
    assert acts[1..] == [];
    assert ExecutedAll(Executed(e, acts[0]), []) == Executed(e, acts[0]);
  }

  lemma {:induction false} DecideOne(env: Env, default: PolicyAction, p: Policy, first: Rule, second: Rule)
    requires forall n :: !env.cancelled(n)
    requires p.rules == [first, second] && first.enabled && second.enabled
    requires first.condition.None? && second.condition.None? && |first.actions| == 1 && |second.actions| == 1
    ensures var e := Executed(NOTHING, first.actions[0]);
      Decide(env, default, [p]).action ==
        BuildDecision(Ctx(if e.stopped then e else Executed(e, second.actions[0]), [], 0)).action
  {
    var rules := [first, second];
    assert rules[1..] == [second] && [second][1..] == [] && [p][1..] == [];
    assert Enabled([second]) == [second];
    assert Enabled(rules) == [first] + [second] == rules;
    var c := Ctx(NOTHING, [], 1);
    ExecutedOne(NOTHING, first.actions);
    var c1 := Acted(p.name, first, c);
    ExecutedOne(c1.effects, second.actions);
    var c2 := Acted(p.name, second, c1);
    assert RunRules(env, p.name, [second], c1) == (c2, None);
    var final := if c1.effects.stopped then c1 else c2;
    assert RunRules(env, p.name, rules, c) == (final, None);
    assert RunPolicies(env, [], final) == (final, None);
    assert RunPolicies(env, [p], Ctx(NOTHING, [], 0)) == (final, None);
  }

  // ---------------------------------------------------------------- normalising in place

  method NormalizePolicyPriorities(policies: array<Policy>)
    modifies policies
    ensures Normalizes(old(policies[..]), policies[..])
  {
    ghost var loaded := policies[..];
    for i := 0 to policies.Length
      invariant forall k :: 0 <= k < i ==> RulesSorted(loaded[k], policies[k])
      invariant forall k :: i <= k < policies.Length ==> policies[k] == loaded[k]
    {
      OrdersAreLayered();
      SortedIsSort(RuleBefore, policies[i].rules);
      if |policies[i].rules| > 1 {
        policies[i] := policies[i].(rules := Sorted(RuleBefore, policies[i].rules));
      }
    }
    ghost var mid := policies[..];
    assert EachRulesSorted(loaded, mid);
    if policies.Length > 1 {
      OrdersAreLayered();
      SortedIsSort(PolicyBefore, mid);
      var sorted := Sorted(PolicyBefore, policies[..]);
      SameLength(mid, sorted);
      forall i | 0 <= i < policies.Length { policies[i] := sorted[i]; }
      assert policies[..] == sorted;
    } else {
      assert SortOf(PolicyBefore, mid, mid);
    }
  }

  datatype ReloadError = LoadFailed | TooManyPolicies | TooManyRules(policy: string)

  /** The engine's policy slice; readers see the old one or the new one, never a mixture. */
  class PolicyHolder {
    const maxPolicies: nat
    const maxRulesPerPolicy: nat
    var policies: seq<Policy>

    constructor (maxPolicies: nat, maxRulesPerPolicy: nat)
      ensures this.maxPolicies == maxPolicies && this.maxRulesPerPolicy == maxRulesPerPolicy && policies == []
    {
      this.maxPolicies, this.maxRulesPerPolicy := maxPolicies, maxRulesPerPolicy;
      policies := [];
    }

    method ReloadPolicies(loaded: Option<seq<Policy>>) returns (err: Option<ReloadError>)
      modifies this
      ensures err.None? <==>
        loaded.Some? && |loaded.value| <= maxPolicies
        && forall i :: 0 <= i < |loaded.value| ==> |loaded.value[i].rules| <= maxRulesPerPolicy
      ensures err.None? ==> Normalizes(loaded.value, policies)
      ensures err.Some? ==> policies == old(policies)
    {
      if loaded.None? {
        return Some(LoadFailed);
      }
      if |loaded.value| > maxPolicies {
        return Some(TooManyPolicies);
      }
      for i := 0 to |loaded.value|
        invariant forall k :: 0 <= k < i ==> |loaded.value[k].rules| <= maxRulesPerPolicy
      {
        if |loaded.value[i].rules| > maxRulesPerPolicy {
          return Some(TooManyRules(loaded.value[i].name));
        }
      }
      var slice := new Policy[|loaded.value|](i requires 0 <= i < |loaded.value| => loaded.value[i]);
      assert slice[..] == loaded.value;
      NormalizePolicyPriorities(slice);
      policies := slice[..];
      return None;
    }
  }
}
