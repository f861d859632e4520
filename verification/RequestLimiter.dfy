/**
  The request side of Limiter (pkg/limits/ratelimit/limiter.go): up to three tiers, each a
  token bucket, asked in turn.  CheckRequest holds no lock over the tiers, so requests are
  interleaved: each call on a bucket is one step, and the time it reads is read under that
  bucket's lock.
 */
module RequestLimiters {
  import opened Options
  import opened TokenBuckets
  import opened Limiters

  type Caller = nat

  const TIERS := 3

  const REASONS := ["requests per second limit exceeded",
                    "requests per minute limit exceeded",
                    "requests per hour limit exceeded"]

  /** The tiers a configuration creates; a limit of zero or less creates none. */
  function NewTiers(config: Config, now: int): (tiers: seq<Option<Bucket>>)
    ensures |tiers| == TIERS
  {
    [if config.requestsPerSecond > 0
     then Some(NewBucket(config.requestsPerSecond * 2, config.requestsPerSecond as real, now)) else None,
     if config.requestsPerMinute > 0
     then Some(NewBucket(config.requestsPerMinute, config.requestsPerMinute as real / 60.0, now)) else None,
     if config.requestsPerHour > 0
     then Some(NewBucket(config.requestsPerHour / 12, config.requestsPerHour as real / 3600.0, now)) else None]
  }

  // ---------------------------------------------------------------- steps

  /** Where a request is. */
  datatype Phase =
    | Asking(tier: nat)                        // about to take a token of this tier, if there is one
    | Hinting(tier: nat)                       // refused, about to ask for the wait
    | Counting(tier: nat, retryAfter: int)     // about to ask for the remaining tokens
    | Finished(tier: nat, result: CheckResult)

  datatype State = State(tiers: seq<Option<Bucket>>, requests: map<Caller, Phase>)

  datatype Move = Arrive(c: Caller) | Proceed(c: Caller, now: int)

  predicate Fits(tiers: seq<Option<Bucket>>, p: Phase) {
    && p.tier <= |tiers|
    && (!p.Asking? && p.tier < |tiers| ==> tiers[p.tier].Some?)
    && (p.Hinting? || p.Counting? ==> p.tier < |tiers|)
    && (p.Finished? ==> (p.result == Allowed <==> p.tier == |tiers|))
  }

  ghost predicate Good(s: State) {
    |s.tiers| == TIERS && forall c :: c in s.requests ==> Fits(s.tiers, s.requests[c])
  }

  predicate Enabled(s: State, m: Move) {
    match m
    case Arrive(c) => c !in s.requests
    case Proceed(c, _) => c in s.requests && !s.requests[c].Finished?
  }

  /** A request's next call: what becomes of its tier's bucket and of the request. */
  function Next(b: Bucket, p: Phase, now: int): (Bucket, Phase)
    requires !p.Finished? && p.tier < TIERS
  {
    match p
    case Asking(k) =>
      var (after, ok) := Taken(b, now, 1);
      (after, if ok then Asking(k + 1) else Hinting(k))
    case Hinting(k) => (Refilled(b, now), Counting(k, Hint(Refilled(b, now), 1, 0)))
    case Counting(k, wait) =>
      (Refilled(b, now), Finished(k, Refused(REASONS[k], b.capacity, Refilled(b, now).tokens, wait)))
  }

  function Apply(s: State, m: Move): (r: State)
    requires Good(s) && Enabled(s, m)
    ensures Good(r)
    ensures forall k :: 0 <= k < TIERS ==> r.tiers[k].Some? == s.tiers[k].Some?
  {
    match m
    case Arrive(c) => s.(requests := s.requests[c := Asking(0)])
    case Proceed(c, now) =>
      var p := s.requests[c];
      if p.tier == TIERS then s.(requests := s.requests[c := Finished(TIERS, Allowed)])
      else if s.tiers[p.tier].None? then s.(requests := s.requests[c := Asking(p.tier + 1)])
      else
        var (b, p') := Next(s.tiers[p.tier].value, p, now);
        State(s.tiers[p.tier := Some(b)], s.requests[c := p'])
  }

  ghost predicate Possible(s: State, moves: seq<Move>)
    requires Good(s)
    decreases |moves|
  {
    |moves| > 0 ==> Enabled(s, moves[0]) && Possible(Apply(s, moves[0]), moves[1..])
  }

  ghost function After(s: State, moves: seq<Move>): (r: State)
    requires Good(s) && Possible(s, moves)
    ensures Good(r)
    decreases |moves|
  {
    if |moves| == 0 then s else After(Apply(s, moves[0]), moves[1..])
  }

  /** The clock readings never go back, and lie between `from` and `to`. */
  ghost predicate Timed(moves: seq<Move>, from: int, to: int)
    decreases |moves|
  {
    if |moves| == 0 then from <= to
    else if moves[0].Arrive? then Timed(moves[1..], from, to)
    else from <= moves[0].now && Timed(moves[1..], moves[0].now, to)
  }

  // ---------------------------------------------------------------- what a tier sees

  /** The operation, if any, that a move is on tier `k`. */
  function OpsAt(s: State, m: Move, k: nat): seq<Op>
    requires Good(s) && Enabled(s, m) && k < TIERS
  {
    if m.Arrive? || s.requests[m.c].tier != k || s.tiers[k].None? then []
    else if s.requests[m.c].Asking? then [TakeOp(m.now, 1)]
    else [RefillOp(m.now)]
  }

  ghost function OpsOn(s: State, moves: seq<Move>, k: nat): seq<Op>
    requires Good(s) && Possible(s, moves) && k < TIERS
    decreases |moves|
  {
    if |moves| == 0 then [] else OpsAt(s, moves[0], k) + OpsOn(Apply(s, moves[0]), moves[1..], k)
  }

  /** The requests that have got past tier `k`. */
  ghost function Past(s: State, k: nat): set<Caller> {
    set c | c in s.requests && s.requests[c].tier > k
  }

  lemma {:induction false} NoneExec(b: Bucket)
    ensures Exec(b, []) == b && Granted(b, []) == 0
  {
  }

  lemma {:induction false} OneExec(b: Bucket, op: Op)
    ensures Exec(b, [op]) == Step(b, op) && Granted(b, [op]) == Grant(b, op)
  {
    assert [op][1..] == [];
  }

  lemma {:induction false} TierStep(s: State, m: Move, k: nat)
    requires Good(s) && Enabled(s, m) && k < TIERS && s.tiers[k].Some?
    ensures var (b, ops, s') := (s.tiers[k].value, OpsAt(s, m, k), Apply(s, m));
      && s'.tiers[k] == Some(Exec(b, ops))
      && Past(s, k) <= Past(s', k) && |Past(s', k)| == |Past(s, k)| + Granted(b, ops)
  {
    var b, ops, s' := s.tiers[k].value, OpsAt(s, m, k), Apply(s, m);
    if ops == [] { NoneExec(b); } else { OneExec(b, ops[0]); }
    if m.Proceed? && ops != [] && Granted(b, ops) == 1 {
      assert Past(s', k) == Past(s, k) + {m.c} && m.c !in Past(s, k);
    } else {
      assert Past(s', k) == Past(s, k);
    }
  }

  lemma {:induction false} ExecConcat(b: Bucket, xs: seq<Op>, ys: seq<Op>)
    ensures Exec(b, xs + ys) == Exec(Exec(b, xs), ys)
    ensures Granted(b, xs + ys) == Granted(b, xs) + Granted(Exec(b, xs), ys)
    decreases |xs|
  {
    if |xs| == 0 {
      assert xs + ys == ys;
    } else {
      assert (xs + ys)[0] == xs[0] && (xs + ys)[1..] == xs[1..] + ys;
      ExecConcat(Step(b, xs[0]), xs[1..], ys);
    }
  }

  /**
    In every interleaving each tier goes through an ordered run of its bucket, which grants
    exactly one token to each request that gets past it.
   */
  lemma {:induction false} TierRun(s: State, moves: seq<Move>, k: nat)
    requires Good(s) && Possible(s, moves) && k < TIERS && s.tiers[k].Some?
    ensures var (b, ops, s') := (s.tiers[k].value, OpsOn(s, moves, k), After(s, moves));
      && s'.tiers[k] == Some(Exec(b, ops))
      && Past(s, k) <= Past(s', k) && |Past(s', k)| == |Past(s, k)| + Granted(b, ops)
    decreases |moves|
  {
    var b := s.tiers[k].value;
    if |moves| == 0 {
      NoneExec(b);
    } else {
      var s' := Apply(s, moves[0]);
      TierStep(s, moves[0], k);
      TierRun(s', moves[1..], k);
      ExecConcat(b, OpsAt(s, moves[0], k), OpsOn(s', moves[1..], k));
    }
  }

  lemma {:induction false} TierOrdered(s: State, moves: seq<Move>, k: nat, from: int, to: int)
    requires Good(s) && Possible(s, moves) && k < TIERS && Timed(moves, from, to)
    ensures Ordered(OpsOn(s, moves, k), from, to)
    decreases |moves|
  {
    if |moves| > 0 {
      var rest := OpsOn(Apply(s, moves[0]), moves[1..], k);
      TierOrdered(Apply(s, moves[0]), moves[1..], k, if moves[0].Arrive? then from else moves[0].now, to);
      if OpsAt(s, moves[0], k) == [] {
        assert [] + rest == rest;
      } else {
        var op := OpsAt(s, moves[0], k)[0];
        assert ([op] + rest)[0] == op && ([op] + rest)[1..] == rest;
      }
    }
  }

  // ---------------------------------------------------------------- the bounds

  ghost function Init(config: Config, born: int): (s: State)
    ensures Good(s)
  {
    State(NewTiers(config, born), map[])
  }

  lemma {:induction false} Difference(a: set<Caller>, b: set<Caller>)
    requires a <= b
    ensures |b - a| == |b| - |a|
  {
    assert b == a + (b - a);
  }

  /**
    Whatever came before, and however requests overlap, the requests that get past a tier
    in [s, t] obey its interval bound.
   */
  lemma {:induction false} TierBound(init: State, k: nat, capacity: nat, rate: real, born: int,
                                     before: seq<Move>, during: seq<Move>, s: int, t: int)
    requires Good(init) && k < TIERS && init.tiers[k] == Some(NewBucket(capacity, rate, born)) && 0.0 <= rate
    requires Possible(init, before) && Possible(After(init, before), during)
    requires Timed(before, born, s) && Timed(during, s, t)
    ensures var mid := After(init, before);
      |Past(After(mid, during), k) - Past(mid, k)| as real < capacity as real + Accrued(rate, t - s) + 1.0
  {
    var mid := After(init, before);
    TierRun(init, before, k);
    TierOrdered(init, before, k, born, s);
    TierRun(mid, during, k);
    TierOrdered(mid, during, k, s, t);
    Difference(Past(mid, k), Past(After(mid, during), k));
    IntervalBound(capacity, rate, born, OpsOn(init, before, k), OpsOn(mid, during, k), s, t);
  }

  /** The requests that were let through and took all their tokens between the two states. */
  ghost function LetThrough(from: State, to: State): set<Caller> {
    set c | c in to.requests && to.requests[c] == Finished(TIERS, Allowed)
            && (c in from.requests ==> from.requests[c] == Asking(0))
  }

  lemma {:induction false} LetThroughPassed(from: State, to: State, k: nat)
    requires k < TIERS
    ensures |LetThrough(from, to)| <= |Past(to, k) - Past(from, k)|
  {
    Difference(LetThrough(from, to), Past(to, k) - Past(from, k));
  }

  /** The requests let through in [s, t], in the configuration's own numbers, for every tier at once. */
  lemma {:induction false} RequestsBounded(config: Config, born: int, before: seq<Move>, during: seq<Move>, s: int, t: int)
    requires Possible(Init(config, born), before) && Possible(After(Init(config, born), before), during)
    requires Timed(before, born, s) && Timed(during, s, t)
    ensures var mid := After(Init(config, born), before);
      var allowed := |LetThrough(mid, After(mid, during))| as real;
      var (rps, rpm, rph) := (config.requestsPerSecond, config.requestsPerMinute, config.requestsPerHour);
      && (rps > 0 ==> allowed < (2 * rps) as real + Accrued(rps as real, t - s) + 1.0)
      && (rpm > 0 ==> allowed < rpm as real + Accrued(rpm as real / 60.0, t - s) + 1.0)
      && (rph > 0 ==> allowed < (rph / 12) as real + Accrued(rph as real / 3600.0, t - s) + 1.0)
  {
    var init := Init(config, born);
    var mid := After(init, before);
    var end := After(mid, during);
    var (rps, rpm, rph) := (config.requestsPerSecond, config.requestsPerMinute, config.requestsPerHour);
    LetThroughPassed(mid, end, 0);
    LetThroughPassed(mid, end, 1);
    LetThroughPassed(mid, end, 2);
    if rps > 0 { TierBound(init, 0, rps * 2, rps as real, born, before, during, s, t); }
    if rpm > 0 { TierBound(init, 1, rpm, rpm as real / 60.0, born, before, during, s, t); }
    if rph > 0 { TierBound(init, 2, rph / 12, rph as real / 3600.0, born, before, during, s, t); }
  }

  // ---------------------------------------------------------------- what a refusal costs

  /** How many tokens of tier `k` a request is granted. */
  ghost function Spent(s: State, moves: seq<Move>, c: Caller, k: nat): nat
    requires Good(s) && Possible(s, moves) && k < TIERS
    decreases |moves|
  {
    if |moves| == 0 then 0
    else
      (if moves[0].c == c && s.tiers[k].Some? then Granted(s.tiers[k].value, OpsAt(s, moves[0], k)) else 0)
        + Spent(Apply(s, moves[0]), moves[1..], c, k)
  }

  ghost predicate IsPast(s: State, c: Caller, k: nat) {
    c in s.requests && s.requests[c].tier > k
  }

  /** One token of each configured tier it gets past, and none of the others. */
  lemma {:induction false} SpentIff(s: State, moves: seq<Move>, c: Caller, k: nat)
    requires Good(s) && Possible(s, moves) && k < TIERS
    ensures IsPast(s, c, k) ==> IsPast(After(s, moves), c, k)
    ensures Spent(s, moves, c, k) ==
      if s.tiers[k].Some? && IsPast(After(s, moves), c, k) && !IsPast(s, c, k) then 1 else 0
    decreases |moves|
  {
    if |moves| > 0 {
      SpentStep(s, moves[0], c, k);
      SpentIff(Apply(s, moves[0]), moves[1..], c, k);
    }
  }

  lemma {:induction false} SpentStep(s: State, m: Move, c: Caller, k: nat)
    requires Good(s) && Enabled(s, m) && k < TIERS
    ensures IsPast(s, c, k) ==> IsPast(Apply(s, m), c, k)
    ensures m.c != c || s.tiers[k].None? || Granted(s.tiers[k].value, OpsAt(s, m, k)) == 0 ==>
      (IsPast(Apply(s, m), c, k) <==> IsPast(s, c, k)) || s.tiers[k].None?
    ensures m.c == c && s.tiers[k].Some? && Granted(s.tiers[k].value, OpsAt(s, m, k)) > 0 ==>
      && !IsPast(s, c, k) && IsPast(Apply(s, m), c, k)
      && Granted(s.tiers[k].value, OpsAt(s, m, k)) == 1
  {
    if s.tiers[k].Some? {
      var ops := OpsAt(s, m, k);
      if ops == [] { NoneExec(s.tiers[k].value); } else { OneExec(s.tiers[k].value, ops[0]); }
    }
  }

  /** A refused request has spent nothing exactly when no configured tier comes before the refusing one. */
  lemma {:induction false} RefusalIsFreeIff(s: State, moves: seq<Move>, c: Caller)
    requires Good(s) && Possible(s, moves) && c !in s.requests
    requires c in After(s, moves).requests && After(s, moves).requests[c].Finished?
    requires After(s, moves).requests[c].result.Refused?
    ensures (forall k :: 0 <= k < TIERS ==> Spent(s, moves, c, k) == 0) <==>
      (forall k :: 0 <= k < After(s, moves).requests[c].tier ==> s.tiers[k].None?)
  {
    var tier := After(s, moves).requests[c].tier;
    assert tier < TIERS;
    if k :| 0 <= k < TIERS && Spent(s, moves, c, k) != 0 {
      SpentIff(s, moves, c, k);
      assert 0 <= k < tier && s.tiers[k].Some?;
    } else {
      forall k | 0 <= k < tier ensures s.tiers[k].None? {
        SpentIff(s, moves, c, k);
        assert Spent(s, moves, c, k) == 0;
      }
    }
  }

  ghost predicate Reaches(config: Config, born: int, moves: seq<Move>, s: State) {
    Leads(Init(config, born), moves, s)
  }

  lemma {:induction false} OneMore(s: State, moves: seq<Move>, m: Move)
    requires Good(s) && Possible(s, moves) && Enabled(After(s, moves), m)
    ensures Possible(s, moves + [m]) && After(s, moves + [m]) == Apply(After(s, moves), m)
    decreases |moves|
  {
    if |moves| == 0 {
      assert moves + [m] == [m] && [m][1..] == [];
      assert Possible(Apply(s, m), []);
    } else {
      assert (moves + [m])[0] == moves[0] && (moves + [m])[1..] == moves[1..] + [m];
      OneMore(Apply(s, moves[0]), moves[1..], m);
    }
  }

  lemma {:induction false} Go(config: Config, born: int, moves: seq<Move>, s: State, m: Move)
    returns (moves': seq<Move>, s': State)
    requires Reaches(config, born, moves, s) && Enabled(s, m)
    ensures Reaches(config, born, moves', s') && s' == Apply(s, m)
  {
    OneMore(Init(config, born), moves, m);
    moves', s' := moves + [m], Apply(s, m);
  }

  /** A tier with a token grants it. */
  lemma {:induction false} Grants(config: Config, born: int, moves: seq<Move>, s: State, c: Caller, b: Bucket)
    returns (moves': seq<Move>, s': State)
    requires Reaches(config, born, moves, s) && c in s.requests && s.requests[c].Asking? && s.requests[c].tier < TIERS
    requires s.tiers[s.requests[c].tier] == Some(b) && b.lastRefill == born && b.tokens > 0
    ensures Reaches(config, born, moves', s')
    ensures s'.tiers == s.tiers[s.requests[c].tier := Some(b.(tokens := b.tokens - 1))]
    ensures s'.requests == s.requests[c := Asking(s.requests[c].tier + 1)]
  {
    assert Accrued(b.rate, 0) == 0.0;
    moves', s' := Go(config, born, moves, s, Proceed(c, born));
  }

  /** A tier without a token refuses. */
  lemma {:induction false} RefusesNow(config: Config, born: int, moves: seq<Move>, s: State, c: Caller, b: Bucket)
    returns (moves': seq<Move>, s': State)
    requires Reaches(config, born, moves, s) && c in s.requests && s.requests[c].Asking? && s.requests[c].tier < TIERS
    requires s.tiers[s.requests[c].tier] == Some(b) && b.lastRefill == born && b.tokens == 0
    ensures Reaches(config, born, moves', s') && s'.tiers == s.tiers && c in s'.requests
    ensures s'.requests[c].Finished? && s'.requests[c].result.Refused? && s'.requests[c].tier == s.requests[c].tier
  {
    assert Accrued(b.rate, 0) == 0.0;
    moves', s' := Go(config, born, moves, s, Proceed(c, born));
    assert s'.tiers == s.tiers;
    moves', s' := Go(config, born, moves', s', Proceed(c, born));
    assert s'.tiers == s.tiers;
    moves', s' := Go(config, born, moves', s', Proceed(c, born));
  }

  /** One request a second and one a minute: the second request is refused and has spent a token all the same. */
  lemma {:induction false} RefusalSpends(born: int) returns (moves: seq<Move>, s: State)
    ensures var config := Config(1, 1, 0, 0, 0);
      && Reaches(config, born, moves, s) && 2 in s.requests
      && s.requests[2].Finished? && s.requests[2].tier == 1 && s.requests[2].result.Refused?
      && s.tiers[0] == Some(NewBucket(2, 1.0, born).(tokens := 0))
  {
    var config := Config(1, 1, 0, 0, 0);
    var second, minute := NewBucket(2, 1.0, born), NewBucket(1, 1.0 / 60.0, born);
    moves, s := [], Init(config, born);
    moves, s := Go(config, born, moves, s, Arrive(1));
    moves, s := Go(config, born, moves, s, Arrive(2));
    moves, s := Grants(config, born, moves, s, 1, second);
    moves, s := Grants(config, born, moves, s, 1, minute);
    moves, s := Grants(config, born, moves, s, 2, second.(tokens := 1));
    moves, s := RefusesNow(config, born, moves, s, 2, minute.(tokens := 0));
  }

  // ---------------------------------------------------------------- what the tiers are good for

  /** Whoever holds out at a tier has been refused by it, and by then it had granted its whole capacity. */
  ghost predicate Spends(s: State, k: nat)
    requires |s.tiers| == TIERS && k < TIERS
  {
    s.tiers[k].Some? ==>
      && s.tiers[k].value.tokens <= s.tiers[k].value.capacity <= s.tiers[k].value.tokens + |Past(s, k)|
      && forall c :: c in s.requests && s.requests[c].tier == k && !s.requests[c].Asking? ==>
           s.tiers[k].value.capacity <= |Past(s, k)|
  }

  lemma {:induction false} SpendsStep(s: State, m: Move, k: nat)
    requires Good(s) && Enabled(s, m) && k < TIERS && Spends(s, k)
    ensures Spends(Apply(s, m), k)
  {
    if s.tiers[k].Some? {
      var s', b, ops := Apply(s, m), s.tiers[k].value, OpsAt(s, m, k);
      TierStep(s, m, k);
      if ops == [] { NoneExec(b); } else { OneExec(b, ops[0]); }
      TokensFloor(b, ops);
      assert Exec(b, ops).capacity == b.capacity;
      forall c | c in s'.requests && s'.requests[c].tier == k && !s'.requests[c].Asking?
        ensures b.capacity <= |Past(s', k)|
      {
        if c != m.c {
          assert s'.requests[c] == s.requests[c];
        } else if s.requests[c].Asking? {
          assert ops == [TakeOp(m.now, 1)] && Granted(b, ops) == 0;
          assert Refilled(b, m.now).tokens < 1;
        }
      }
    }
  }

  lemma {:induction false} SpendsRun(s: State, moves: seq<Move>, k: nat)
    requires Good(s) && Possible(s, moves) && k < TIERS && Spends(s, k)
    ensures Spends(After(s, moves), k)
    decreases |moves|
  {
    if |moves| > 0 {
      SpendsStep(s, moves[0], k);
      SpendsRun(Apply(s, moves[0]), moves[1..], k);
    }
  }

  /** What a tier can grant at once, in the configuration's numbers. */
  ghost function Burst(config: Config, k: nat): int
    requires k < TIERS
  {
    if k == 0 then 2 * config.requestsPerSecond else if k == 1 then config.requestsPerMinute else config.requestsPerHour / 12
  }

  /** A refusal carries the reason and the capacity of the tier that refused. */
  ghost predicate Explained(s: State) {
    |s.tiers| == TIERS && forall c :: c in s.requests && s.requests[c].Finished? && s.requests[c].tier < TIERS ==>
      && s.requests[c].result.Refused? && s.requests[c].result.reason == REASONS[s.requests[c].tier]
      && s.tiers[s.requests[c].tier].Some? && s.requests[c].result.limit == s.tiers[s.requests[c].tier].value.capacity
  }

  lemma {:induction false} ExplainedRun(s: State, moves: seq<Move>)
    requires Good(s) && Possible(s, moves) && Explained(s)
    ensures Explained(After(s, moves))
    decreases |moves|
  {
    if |moves| > 0 {
      ExplainedStep(s, moves[0]);
      ExplainedRun(Apply(s, moves[0]), moves[1..]);
    }
  }

  lemma {:induction false} ExplainedStep(s: State, m: Move)
    requires Good(s) && Enabled(s, m) && Explained(s)
    ensures Explained(Apply(s, m))
  {
    var s' := Apply(s, m);
    forall k | 0 <= k < TIERS
      ensures s.tiers[k].Some? ==> s'.tiers[k].Some? && s'.tiers[k].value.capacity == s.tiers[k].value.capacity
    {
    }
    forall c | c in s'.requests && c != m.c ensures c in s.requests && s'.requests[c] == s.requests[c] {}
    if m.Proceed? { assert Fits(s.tiers, s.requests[m.c]); }
  }

  /**
    In every interleaving: a tier refuses a request only after letting through its whole
    burst, and the refusal says which tier it was and what that burst is.
   */
  lemma {:induction false} RefusedOnlyWhenSpent(config: Config, born: int, moves: seq<Move>, c: Caller)
    requires Possible(Init(config, born), moves) && c in After(Init(config, born), moves).requests
    requires var p := After(Init(config, born), moves).requests[c]; p.Finished? && p.result.Refused?
    ensures var (s, p) := (After(Init(config, born), moves), After(Init(config, born), moves).requests[c]);
      && p.tier < TIERS && |Past(s, p.tier)| >= Burst(config, p.tier)
      && p.result.limit == Burst(config, p.tier)
      && p.result.reason == if p.tier == 0 then "requests per second limit exceeded"
                            else if p.tier == 1 then "requests per minute limit exceeded"
                            else "requests per hour limit exceeded"
  {
    var init := Init(config, born);
    var s := After(init, moves);
    var k := s.requests[c].tier;
    assert Fits(s.tiers, s.requests[c]);
    ExplainedRun(init, moves);
    assert Past(init, k) == {};
    SpendsRun(init, moves, k);
    CapacitiesStay(init, moves, k);
  }

  /**
    The wait and the remainder a refusal reports: the tier's tokens when it was last asked,
    and a wait after which, with one nanosecond more and nobody else asking, there is one.
   */
  lemma {:induction false} RetryAfterWorks(s: State, c: Caller, now: int, later: int)
    requires Good(s) && c in s.requests && s.requests[c].Hinting?
    requires var b := s.tiers[s.requests[c].tier]; b.Some? && Sound(b.value, now) && b.value.rate > 0.0 && b.value.capacity > 0
    requires now <= later
    ensures var k, s' := s.requests[c].tier, Apply(Apply(s, Proceed(c, now)), Proceed(c, later));
      && s'.requests[c].Finished? && s'.requests[c].result.Refused? && s'.tiers[k].Some?
      && s'.requests[c].result.remaining == s'.tiers[k].value.tokens
      && (var retry := now + s'.requests[c].result.retryAfter + 1;
          later <= retry ==> Taken(s'.tiers[k].value, retry, 1).1)
  {
    var k := s.requests[c].tier;
    var b, mid := s.tiers[k].value, Apply(s, Proceed(c, now));
    var r := Refilled(b, now);
    var wait := Hint(r, 1, 0);
    assert mid.requests[c] == Counting(k, wait) && mid.tiers[k] == Some(r);
    if later <= now + wait + 1 {
      HintSuffices(b, now, 1, 0);
      RefillPotential(b, now);
      assert Ordered([RefillOp(later)], now, now + wait + 1) by { assert [RefillOp(later)][1..] == []; }
      OneExec(r, RefillOp(later));
      TokenDue(r, now + wait + 1);
      AskingDoesNotStarve(r, [RefillOp(later)], now, now + wait + 1);
    }
  }

  lemma {:induction false} TokenDue(b: Bucket, now: int)
    requires Sound(b, now) && Refilled(b, now).tokens > 0
    ensures b.tokens > 0 || Accrued(b.rate, now - b.lastRefill) >= 1.0
  {
    AccruedNonNegative(b.rate, now - b.lastRefill);
    WholeBounds(Accrued(b.rate, now - b.lastRefill));
  }

  // ---------------------------------------------------------------- requests that are spaced out

  /** A tier that has let nobody past for one period has a token again, however often it was asked. */
  lemma {:induction false} QuietTier(mid: State, late: seq<Move>, k: nat, since: int, now: int)
    requires Good(mid) && Possible(mid, late) && k < TIERS && mid.tiers[k].Some? && Timed(late, since, now)
    requires Sound(mid.tiers[k].value, since) && mid.tiers[k].value.capacity > 0
    requires Past(After(mid, late), k) == Past(mid, k)
    requires Accrued(mid.tiers[k].value.rate, now - since) >= 1.0
    ensures After(mid, late).tiers[k].Some? && Taken(After(mid, late).tiers[k].value, now, 1).1
  {
    var b, ops := mid.tiers[k].value, OpsOn(mid, late, k);
    TierRun(mid, late, k);
    TierOrdered(mid, late, k, since, now);
    AccruedAdd(b.rate, since - b.lastRefill, now - since);
    AccruedNonNegative(b.rate, since - b.lastRefill);
    AskingDoesNotStarve(b, ops, since, now);
  }

  /** A request that finds a token at every tier, and is not interrupted, is let through. */
  lemma {:induction false} PassesAlong(s: State, c: Caller, k: nat, times: seq<int>, moves: seq<Move>)
    requires Good(s) && c in s.requests && s.requests[c] == Asking(k) && k <= TIERS && |times| == 5
    requires Possible(s, moves) && moves <= Proceeds(c, times[k..])
    requires forall j :: k <= j < TIERS && s.tiers[j].Some? ==> Taken(s.tiers[j].value, times[j], 1).1
    requires c in After(s, moves).requests && After(s, moves).requests[c].Finished?
    ensures After(s, moves).requests[c] == Finished(TIERS, Allowed)
    decreases |moves|
  {
    assert |moves| > 0;
    var s', rest := Apply(s, moves[0]), moves[1..];
    assert moves[0] == Proceeds(c, times[k..])[0] == Proceed(c, times[k]);
    if k == TIERS {
      assert s'.requests[c] == Finished(TIERS, Allowed);
      assert |rest| == 0;
    } else {
      assert Proceeds(c, times[k..])[1..] == Proceeds(c, times[k + 1..]);
      PassesAlong(s', c, k + 1, times, rest);
    }
  }

  /** One period of a tier has gone by, in the configuration's numbers. */
  ghost predicate PeriodOver(config: Config, k: nat, elapsed: int)
    requires k < TIERS
  {
    if k == 0 then config.requestsPerSecond as real * elapsed as real >= SECOND
    else if k == 1 then config.requestsPerMinute as real * elapsed as real >= 60.0 * SECOND
    else config.requestsPerHour as real * elapsed as real >= 3600.0 * SECOND
  }

  lemma {:induction false} PeriodAccrues(config: Config, born: int, k: nat, elapsed: int)
    requires k < TIERS && NewTiers(config, born)[k].Some? && PeriodOver(config, k, elapsed)
    ensures Accrued(NewTiers(config, born)[k].value.rate, elapsed) >= 1.0
  {
    if k == 0 {
      OnePeriod(config.requestsPerSecond as real, 1.0, elapsed);
    } else if k == 1 {
      OnePeriod(config.requestsPerMinute as real, 60.0, elapsed);
    } else {
      OnePeriod(config.requestsPerHour as real, 3600.0, elapsed);
    }
  }

  lemma {:induction false} OnePeriod(limit: real, seconds: real, elapsed: int)
    requires seconds > 0.0 && limit * elapsed as real >= seconds * SECOND
    ensures Accrued(limit / seconds, elapsed) >= 1.0
  {
    var e := elapsed as real;
    assert e / SECOND * (limit / seconds) == (limit * e) / (seconds * SECOND);
  }

  /**
    The tiers serve what they are configured for: at any point of any run, an uninterrupted
    request is let through if no configured tier has let anybody past for one period of its
    limit, 1/rps, 60/rpm or 3600/rph seconds, and the hourly limit is not below 12.
   */
  lemma {:induction false} SpacedRequestsPass(config: Config, born: int, early: seq<Move>, late: seq<Move>,
                                              since: int, c: Caller, times: seq<int>, moves: seq<Move>)
    requires Possible(Init(config, born), early) && Timed(early, born, since)
    requires Possible(After(Init(config, born), early), late) && |times| == 5
    requires forall k :: 0 <= k < TIERS ==> Timed(late, since, times[k])
    requires var (mid, s) := (After(Init(config, born), early), After(After(Init(config, born), early), late));
      && c !in s.requests
      && (forall k :: 0 <= k < TIERS && NewTiers(config, born)[k].Some? ==>
            Past(s, k) == Past(mid, k) && PeriodOver(config, k, times[k] - since))
    requires !(0 < config.requestsPerHour < 12)
    requires var s := After(After(Init(config, born), early), late);
      && moves <= [Arrive(c)] + Proceeds(c, times) && Possible(s, moves)
      && c in After(s, moves).requests && After(s, moves).requests[c].Finished?
    ensures After(After(After(Init(config, born), early), late), moves).requests[c] == Finished(TIERS, Allowed)
  {
    var init := Init(config, born);
    var mid := After(init, early);
    var s := After(mid, late);
    forall k | 0 <= k < TIERS && s.tiers[k].Some? ensures Taken(s.tiers[k].value, times[k], 1).1 {
      TierReady(config, born, early, late, since, times[k], k);
    }
    assert |moves| > 0 && moves[0] == ([Arrive(c)] + Proceeds(c, times))[0] == Arrive(c);
    assert ([Arrive(c)] + Proceeds(c, times))[1..] == Proceeds(c, times) && times[0..] == times;
    PassesAlong(Apply(s, Arrive(c)), c, 0, times, moves[1..]);
  }

  lemma {:induction false} TierReady(config: Config, born: int, early: seq<Move>, late: seq<Move>, since: int, now: int, k: nat)
    requires Possible(Init(config, born), early) && Timed(early, born, since)
    requires Possible(After(Init(config, born), early), late) && Timed(late, since, now) && k < TIERS
    requires var (mid, s) := (After(Init(config, born), early), After(After(Init(config, born), early), late));
      s.tiers[k].Some? && (NewTiers(config, born)[k].Some? ==> Past(s, k) == Past(mid, k) && PeriodOver(config, k, now - since))
    requires !(0 < config.requestsPerHour < 12)
    ensures Taken(After(After(Init(config, born), early), late).tiers[k].value, now, 1).1
  {
    var init := Init(config, born);
    var mid := After(init, early);
    CapacitiesStay(init, early, k);
    CapacitiesStay(mid, late, k);
    var b := init.tiers[k].value;
    TierRun(init, early, k);
    TierOrdered(init, early, k, born, since);
    assert b.capacity > 0;
    ExecSound(b, OpsOn(init, early, k), born, since);
    PeriodAccrues(config, born, k, now - since);
    QuietTier(mid, late, k, since, now);
  }

  // ---------------------------------------------------------------- small hourly limits

  ghost predicate AllFinished(s: State) {
    s.requests != map[] && forall c :: c in s.requests ==> s.requests[c].Finished?
  }

  /** In a finished run somebody gets as far as tier `k`. */
  lemma {:induction false} SomeoneReaches(s: State, k: nat) returns (c: Caller)
    requires Good(s) && AllFinished(s) && k <= TIERS
    requires forall j :: 0 <= j < TIERS ==> Spends(s, j)
    requires forall j :: 0 <= j < TIERS && s.tiers[j].Some? ==> s.tiers[j].value.capacity > 0
    ensures c in s.requests && s.requests[c].tier >= k
  {
    if k == 0 {
      c :| c in s.requests;
    } else {
      c := SomeoneReaches(s, k - 1);
      assert Spends(s, k - 1);
      if s.requests[c].tier < k {
        assert Fits(s.tiers, s.requests[c]);
        assert |Past(s, k - 1)| > 0;
        c :| c in Past(s, k - 1);
      }
    }
  }

  lemma {:induction false} CapacitiesStay(s: State, moves: seq<Move>, k: nat)
    requires Good(s) && Possible(s, moves) && k < TIERS
    ensures After(s, moves).tiers[k].Some? == s.tiers[k].Some?
    ensures s.tiers[k].Some? ==> After(s, moves).tiers[k].value.capacity == s.tiers[k].value.capacity
    decreases |moves|
  {
    if |moves| > 0 { CapacitiesStay(Apply(s, moves[0]), moves[1..], k); }
  }

  lemma {:induction false} TakesOne(s: State, moves: seq<Move>, k: nat)
    requires Good(s) && Possible(s, moves) && k < TIERS
    ensures forall op :: op in OpsOn(s, moves, k) && op.TakeOp? ==> op.n == 1
    decreases |moves|
  {
    if |moves| > 0 { TakesOne(Apply(s, moves[0]), moves[1..], k); }
  }

  ghost predicate SomeoneAllowed(s: State) {
    exists c :: c in s.requests && s.requests[c] == Finished(TIERS, Allowed)
  }

  lemma {:induction false} NobodyAllowed(config: Config, born: int, moves: seq<Move>)
    requires Possible(Init(config, born), moves) && 0 < config.requestsPerHour < 12
    ensures !SomeoneAllowed(After(Init(config, born), moves))
  {
    var init := Init(config, born);
    var s := After(init, moves);
    TierRun(init, moves, 2);
    TakesOne(init, moves, 2);
    NoCapacityNoGrant(init.tiers[2].value, OpsOn(init, moves, 2));
    assert Past(init, 2) == {};
    assert Past(s, 2) == {};
    forall c | c in s.requests ensures s.requests[c] != Finished(TIERS, Allowed) { assert c !in Past(s, 2); }
  }

  /**
    An hourly limit below 12 gets a bucket of capacity 0.  Of any requests, however they
    overlap, once all have been answered: one of them was let through exactly when the
    hourly limit is not between 1 and 11.
   */
  lemma {:induction false} HourlyLimitWorksIff(config: Config, born: int, moves: seq<Move>)
    requires Possible(Init(config, born), moves) && AllFinished(After(Init(config, born), moves))
    ensures SomeoneAllowed(After(Init(config, born), moves)) <==> !(0 < config.requestsPerHour < 12)
  {
    var init := Init(config, born);
    var s := After(init, moves);
    if 0 < config.requestsPerHour < 12 {
      NobodyAllowed(config, born, moves);
    } else {
      forall k | 0 <= k < TIERS
        ensures Spends(s, k) && (s.tiers[k].Some? ==> s.tiers[k].value.capacity > 0)
      {
        assert Past(init, k) == {};
        SpendsRun(init, moves, k);
        CapacitiesStay(init, moves, k);
      }
      var c := SomeoneReaches(s, TIERS);
      assert Fits(s.tiers, s.requests[c]);
      assert s.requests[c] == Finished(TIERS, Allowed);
    }
  }

  // ---------------------------------------------------------------- the object

  ghost function Snapshot(b: TokenBucket?): Option<Bucket>
    reads b
  {
    if b == null then None else Some(b.View())
  }

  ghost function Cell(o: object?): set<object> {
    if o == null then {} else {o}
  }

  /** The request side of the limiter, with the requests under way. */
  class RequestLimiter {
    const reqPerSecond: TokenBucket?
    const reqPerMinute: TokenBucket?
    const reqPerHour: TokenBucket?

    var requests: map<Caller, Phase>

    ghost const Repr: set<object>

    ghost function View(): State
      reads this, Cell(reqPerSecond), Cell(reqPerMinute), Cell(reqPerHour)
    {
      State([Snapshot(reqPerSecond), Snapshot(reqPerMinute), Snapshot(reqPerHour)], requests)
    }

    ghost predicate Separate() {
      && Repr == Cell(reqPerSecond) + Cell(reqPerMinute) + Cell(reqPerHour) && this !in Repr
      && Cell(reqPerSecond) !! Cell(reqPerMinute) && Cell(reqPerSecond) !! Cell(reqPerHour)
      && Cell(reqPerMinute) !! Cell(reqPerHour)
    }

    ghost predicate Valid()
      reads this, Repr
    {
      Separate() && Good(View())
    }

    constructor (config: Config, now: int)
      ensures Valid() && fresh(Repr) && View() == Init(config, now)
    {
      var s: TokenBucket?, m: TokenBucket?, h: TokenBucket? := null, null, null;
      if config.requestsPerSecond > 0 {
        s := new TokenBucket(config.requestsPerSecond * 2, config.requestsPerSecond as real, now);
      }
      if config.requestsPerMinute > 0 {
        m := new TokenBucket(config.requestsPerMinute, config.requestsPerMinute as real / 60.0, now);
      }
      if config.requestsPerHour > 0 {
        h := new TokenBucket(config.requestsPerHour / 12, config.requestsPerHour as real / 3600.0, now);
      }
      reqPerSecond, reqPerMinute, reqPerHour, requests := s, m, h, map[];
      Repr := Cell(s) + Cell(m) + Cell(h);
      new;
      assert View().tiers == NewTiers(config, now);
    }

    /** The bucket of a tier. */
    function Tier(k: nat): TokenBucket?
      requires k < TIERS
    {
      if k == 0 then reqPerSecond else if k == 1 then reqPerMinute else reqPerHour
    }

    /** One call on one bucket, under that bucket's lock. */
    method CallBucket(b: TokenBucket, p: Phase, now: int) returns (p': Phase)
      requires !p.Finished? && p.tier < TIERS
      modifies b
      ensures (b.View(), p') == Next(old(b.View()), p, now)
    {
      match p {
        case Asking(k) =>
          var ok := b.Take(now, 1);
          p' := if ok then Asking(k + 1) else Hinting(k);
        case Hinting(k) =>
          var wait := b.TimeUntilAvailable(now, 1, 0);
          p' := Counting(k, wait);
        case Counting(k, wait) =>
          var remaining := b.Remaining(now);
          p' := Finished(k, Refused(REASONS[k], b.capacity, remaining, wait));
      }
    }

    method Begin(c: Caller)
      requires Valid() && c !in requests
      modifies this`requests
      ensures Valid() && View() == Apply(old(View()), Arrive(c))
    {
      requests := requests[c := Asking(0)];
    }

    /** What the next action of a request makes of it; at most one bucket is touched. */
    method Advance(c: Caller, now: int) returns (p: Phase)
      requires Valid() && c in requests && !requests[c].Finished?
      modifies Repr
      ensures State(View().tiers, requests[c := p]) == Apply(old(View()), Proceed(c, now))
    {
      p := requests[c];
      assert Fits(View().tiers, p);
      if p.tier == TIERS {
        p := Finished(TIERS, Allowed);
        return;
      }
      var b := Tier(p.tier);
      assert View().tiers[p.tier] == Snapshot(b);
      if b == null {
        p := Asking(p.tier + 1);
        return;
      }
      ghost var k, tiers := p.tier, View().tiers;
      p := CallBucket(b, p, now);
      assert View().tiers == tiers[k := Snapshot(b)];
    }

    /** The next action of a request. */
    method Step(c: Caller, now: int)
      requires Valid() && c in requests && !requests[c].Finished?
      modifies this`requests, Repr
      ensures Valid() && View() == Apply(old(View()), Proceed(c, now))
    {
      var p := Advance(c, now);
      requests := requests[c := p];
    }

    /** The same, seen as one more move after `moves`. */
    method Continue(c: Caller, now: int, ghost start: State, ghost moves: seq<Move>)
      requires Valid() && c in requests && !requests[c].Finished? && Leads(start, moves, View())
      modifies this`requests, Repr
      ensures Valid() && Leads(start, moves + [Proceed(c, now)], View())
      ensures c in requests && Left(requests[c]) < Left(old(requests)[c])
    {
      OneMore(start, moves, Proceed(c, now));
      assert Fits(View().tiers, requests[c]);
      Step(c, now);
    }

    /**
      A whole CheckRequest that nothing interrupts: its actions are those of the step
      machine, one clock reading each, and it answers after at most five of them.
     */
    method CheckRequest(c: Caller, times: seq<int>) returns (result: CheckResult, ghost moves: seq<Move>)
      requires Valid() && c !in requests && |times| == 5
      modifies this`requests, Repr
      ensures Valid() && Leads(old(View()), moves, View())
      ensures moves <= [Arrive(c)] + Proceeds(c, times)
      ensures c in requests && requests[c].Finished? && requests[c].result == result
    {
      ghost var start := View();
      OneMore(start, [], Arrive(c));
      Begin(c);
      moves := [Arrive(c)];
      assert [] + moves == moves;
      var i := 0;
      while !requests[c].Finished?
        invariant Valid() && Leads(start, moves, View())
        invariant c in requests && 0 <= i && i + Left(requests[c]) <= 5
        invariant moves == [Arrive(c)] + Proceeds(c, times[..i])
        decreases Left(requests[c])
      {
        Continue(c, times[i], start, moves);
        moves := moves + [Proceed(c, times[i])];
        ProceedsMore(c, times, i);
        i := i + 1;
      }
      result := requests[c].result;
      ProceedsPrefix(c, times, i);
    }
  }

  /** The moves lead from one state to the other. */
  ghost predicate Leads(from: State, moves: seq<Move>, to: State) {
    Good(from) && Possible(from, moves) && After(from, moves) == to
  }

  function Proceeds(c: Caller, times: seq<int>): (r: seq<Move>)
    ensures |r| == |times|
  {
    seq(|times|, i requires 0 <= i < |times| => Proceed(c, times[i]))
  }

  lemma {:induction false} ProceedsMore(c: Caller, times: seq<int>, i: nat)
    requires i < |times|
    ensures Proceeds(c, times[..i + 1]) == Proceeds(c, times[..i]) + [Proceed(c, times[i])]
  {
  }

  lemma {:induction false} ProceedsPrefix(c: Caller, times: seq<int>, i: nat)
    requires i <= |times|
    ensures [Arrive(c)] + Proceeds(c, times[..i]) <= [Arrive(c)] + Proceeds(c, times)
  {
  }

  /** How many actions a request has left at most. */
  function Left(p: Phase): nat {
    match p
    case Asking(k) => if k < TIERS then 5 - k else 1
    case Hinting(_) => 2
    case Counting(_, _) => 1
    case Finished(_, _) => 0
  }
}
