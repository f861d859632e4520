/**
  TokenBucket (pkg/limits/ratelimit/token_bucket.go): whole tokens refilled lazily from a
  real rate.  Refilling drops the fraction of a token whenever it adds anything, so what
  can be granted over an interval is a real bound met with integer arithmetic.
  Rates are exact reals, times integer nanoseconds.
 */
module TokenBuckets {

  const SECOND: real := 1_000_000_000.0

  datatype Bucket = Bucket(capacity: int, tokens: int, rate: real, lastRefill: int)

  function NewBucket(capacity: int, rate: real, now: int): Bucket {
    Bucket(capacity, capacity, rate, now)
  }

  /** Tokens, with fraction, that `rate` per second yields in `elapsed` nanoseconds. */
  function Accrued(rate: real, elapsed: int): real {
    elapsed as real / SECOND * rate
  }

  /** Go's conversion of a float to an integer: towards zero. */
  function Whole(x: real): int {
    if x >= 0.0 then x.Floor else -((-x).Floor)
  }

  function Refilled(b: Bucket, now: int): Bucket {
    var add := Whole(Accrued(b.rate, now - b.lastRefill));
    if add > 0 then
      b.(tokens := if b.tokens + add > b.capacity then b.capacity else b.tokens + add, lastRefill := now)
    else b
  }

  function Taken(b: Bucket, now: int, n: int): (Bucket, bool) {
    var r := Refilled(b, now);
    if r.tokens >= n then (r.(tokens := r.tokens - n), true) else (r, false)
  }

  // ---------------------------------------------------------------- the object

  class TokenBucket {
    const capacity: int
    const refillRate: real
    var tokens: int
    var lastRefill: int

    function View(): Bucket
      reads this
    {
      Bucket(capacity, tokens, refillRate, lastRefill)
    }

    constructor (capacity: int, refillRate: real, now: int)
      ensures View() == NewBucket(capacity, refillRate, now)
    {
      this.capacity, this.refillRate := capacity, refillRate;
      tokens, lastRefill := capacity, now;
    }

    method Refill(now: int)
      modifies this
      ensures View() == Refilled(old(View()), now)
    {
      var elapsed := now - lastRefill;
      var tokensToAdd := Whole(elapsed as real / SECOND * refillRate);
      if tokensToAdd > 0 {
        tokens := tokens + tokensToAdd;
        if tokens > capacity {
          tokens := capacity;
        }
        lastRefill := now;
      }
    }

    method Take(now: int, n: int) returns (ok: bool)
      modifies this
      ensures (View(), ok) == Taken(old(View()), now, n)
    {
      Refill(now);
      if tokens >= n {
        tokens := tokens - n;
        return true;
      }
      return false;
    }

    method Remaining(now: int) returns (n: int)
      modifies this
      ensures View() == Refilled(old(View()), now) && n == View().tokens
    {
      Refill(now);
      n := tokens;
    }

    /**
      Nanoseconds until `n` tokens should be there; 0 when they already are.  Without a
      rate the wait is infinite, and what Go makes of infinity as a Duration is `infinite`.
     */
    method TimeUntilAvailable(now: int, n: int, infinite: int) returns (wait: int)
      modifies this
      ensures View() == Refilled(old(View()), now)
      ensures wait == Hint(View(), n, infinite)
    {
      Refill(now);
      if tokens >= n {
        return 0;
      }
      if refillRate == 0.0 {
        return infinite;
      }
      var tokensNeeded := n - tokens;
      var secondsNeeded := tokensNeeded as real / refillRate;
      wait := Whole(secondsNeeded * SECOND);
    }
  }

  /** The wait advertised by a bucket that has just been refilled. */
  function Hint(b: Bucket, n: int, infinite: int): int {
    if b.tokens >= n then 0
    else if b.rate == 0.0 then infinite
    else Whole((n - b.tokens) as real / b.rate * SECOND)
  }

  // ---------------------------------------------------------------- runs

  datatype Op = RefillOp(now: int) | TakeOp(now: int, n: nat)

  function Step(b: Bucket, op: Op): Bucket {
    match op
    case RefillOp(now) => Refilled(b, now)
    case TakeOp(now, n) => Taken(b, now, n).0
  }

  function Grant(b: Bucket, op: Op): nat {
    if op.TakeOp? && Taken(b, op.now, op.n).1 then op.n else 0
  }

  function Exec(b: Bucket, ops: seq<Op>): Bucket
    decreases |ops|
  {
    if |ops| == 0 then b else Exec(Step(b, ops[0]), ops[1..])
  }

  function Granted(b: Bucket, ops: seq<Op>): nat
    decreases |ops|
  {
    if |ops| == 0 then 0 else Grant(b, ops[0]) + Granted(Step(b, ops[0]), ops[1..])
  }

  /** The operations happen in order, between `from` and `to`. */
  ghost predicate Ordered(ops: seq<Op>, from: int, to: int) {
    if |ops| == 0 then from <= to
    else from <= ops[0].now && Ordered(ops[1..], ops[0].now, to)
  }

  ghost predicate Sound(b: Bucket, now: int) {
    0 <= b.tokens <= b.capacity && 0.0 <= b.rate && b.lastRefill <= now
  }

  // ---------------------------------------------------------------- accrual is linear

  lemma {:induction false} AccruedAdd(rate: real, x: int, y: int)
    ensures Accrued(rate, x + y) == Accrued(rate, x) + Accrued(rate, y)
  {
    var xs, ys := x as real / SECOND, y as real / SECOND;
    assert (x + y) as real / SECOND == xs + ys;
    assert (xs + ys) * rate == xs * rate + ys * rate;
  }

  lemma {:induction false} AccruedNonNegative(rate: real, x: int)
    requires 0.0 <= rate && 0 <= x
    ensures 0.0 <= Accrued(rate, x)
  {
    assert 0.0 <= x as real / SECOND;
  }

  // ---------------------------------------------------------------- the potential

  /** Tokens on hand plus the fraction still owed at `now`. */
  ghost function Potential(b: Bucket, now: int): real {
    b.tokens as real + Accrued(b.rate, now - b.lastRefill)
  }

  lemma {:induction false} RefillPotential(b: Bucket, now: int)
    requires Sound(b, now)
    ensures Sound(Refilled(b, now), now)
    ensures Potential(Refilled(b, now), now) <= Potential(b, now)
    ensures Potential(Refilled(b, now), now) < b.capacity as real + 1.0
  {
    AccruedNonNegative(b.rate, now - b.lastRefill);
    assert Accrued(b.rate, now - now) == 0.0;
  }

  lemma {:induction false} PotentialLater(b: Bucket, s: int, t: int)
    ensures Potential(b, t) == Potential(b, s) + Accrued(b.rate, t - s)
  {
    AccruedAdd(b.rate, s - b.lastRefill, t - s);
  }

  lemma {:induction false} StepPotential(b: Bucket, op: Op)
    requires Sound(b, op.now)
    ensures Sound(Step(b, op), op.now) && Step(b, op).capacity == b.capacity && Step(b, op).rate == b.rate
    ensures Potential(Step(b, op), op.now) + Grant(b, op) as real <= Potential(b, op.now)
  {
    RefillPotential(b, op.now);
  }

  /** What a run grants is paid for by the potential it starts with and what accrues meanwhile. */
  lemma {:induction false} GrantedByPotential(b: Bucket, ops: seq<Op>, s: int, t: int)
    requires Sound(b, s) && Ordered(ops, s, t)
    ensures Granted(b, ops) as real <= Potential(b, s) + Accrued(b.rate, t - s)
    decreases |ops|
  {
    if |ops| == 0 {
      AccruedNonNegative(b.rate, t - s);
      AccruedNonNegative(b.rate, s - b.lastRefill);
    } else {
      var u := ops[0].now;
      StepPotential(b, ops[0]);
      GrantedByPotential(Step(b, ops[0]), ops[1..], u, t);
      PotentialLater(b, s, u);
      AccruedAdd(b.rate, u - s, t - u);
    }
  }

  lemma {:induction false} RefillTwice(b: Bucket, now: int)
    ensures Refilled(Refilled(b, now), now) == Refilled(b, now)
  {
    assert Accrued(b.rate, now - now) == 0.0;
  }

  lemma {:induction false} ExecSound(b: Bucket, ops: seq<Op>, s: int, t: int)
    requires Sound(b, s) && Ordered(ops, s, t)
    ensures Sound(Exec(b, ops), t) && Exec(b, ops).capacity == b.capacity && Exec(b, ops).rate == b.rate
    decreases |ops|
  {
    if |ops| > 0 {
      StepPotential(b, ops[0]);
      ExecSound(Step(b, ops[0]), ops[1..], ops[0].now, t);
    }
  }

  lemma {:induction false} OrderedRange(ops: seq<Op>, from: int, to: int)
    requires Ordered(ops, from, to)
    ensures from <= to
    decreases |ops|
  {
    if |ops| > 0 { OrderedRange(ops[1..], ops[0].now, to); }
  }

  // ---------------------------------------------------------------- main results

  /**
    Interval bound: whatever came before, the operations of any stretch of a run that lies
    in [s, t] are granted fewer than capacity + rate * (t - s) + 1 tokens.
   */
  lemma {:induction false} IntervalBound(capacity: nat, rate: real, born: int, before: seq<Op>, ops: seq<Op>, s: int, t: int)
    requires 0.0 <= rate && Ordered(before, born, s) && Ordered(ops, s, t)
    ensures var b := Exec(NewBucket(capacity, rate, born), before);
      Granted(b, ops) as real < capacity as real + Accrued(rate, t - s) + 1.0
  {
    var b := Exec(NewBucket(capacity, rate, born), before);
    ExecSound(NewBucket(capacity, rate, born), before, born, s);
    OrderedRange(ops, s, t);
    if |ops| == 0 {
      AccruedNonNegative(rate, t - s);
    } else {
      var u := ops[0].now;
      var r := Refilled(b, u);
      RefillPotential(b, u);
      RefillTwice(b, u);
      assert Granted(b, ops) == Granted(r, ops);
      GrantedByPotential(r, ops, u, t);
      AccruedAdd(rate, u - s, t - u);
      AccruedNonNegative(rate, u - s);
    }
  }

  /** From creation on, at most capacity + rate * elapsed. */
  lemma {:induction false} LifetimeBound(capacity: nat, rate: real, born: int, ops: seq<Op>, t: int)
    requires 0.0 <= rate && Ordered(ops, born, t)
    ensures Granted(NewBucket(capacity, rate, born), ops) as real <= capacity as real + Accrued(rate, t - born)
  {
    var b := NewBucket(capacity, rate, born);
    GrantedByPotential(b, ops, born, t);
    assert Accrued(rate, born - born) == 0.0;
  }

  /** A bucket without capacity grants nothing, ever. */
  lemma {:induction false} NoCapacityNoGrant(b: Bucket, ops: seq<Op>)
    requires b.capacity == 0 && b.tokens == 0
    requires forall i :: 0 <= i < |ops| && ops[i].TakeOp? ==> 1 <= ops[i].n
    ensures Granted(b, ops) == 0
    decreases |ops|
  {
    if |ops| > 0 { NoCapacityNoGrant(Step(b, ops[0]), ops[1..]); }
  }

  // ---------------------------------------------------------------- what a bucket is good for

  /** A refill leaves at least the whole tokens accrued since the last one, up to the capacity. */
  lemma {:induction false} RefillFloor(b: Bucket, now: int)
    requires Sound(b, now)
    ensures var r := Refilled(b, now);
      && r.tokens >= b.tokens
      && (r.tokens == b.capacity || r.tokens as real > b.tokens as real + Accrued(b.rate, now - b.lastRefill) - 1.0)
  {
    AccruedNonNegative(b.rate, now - b.lastRefill);
    WholeBounds(Accrued(b.rate, now - b.lastRefill));
  }

  /** A bucket gives up tokens only by granting them. */
  lemma {:induction false} TokensFloor(b: Bucket, ops: seq<Op>)
    requires b.tokens <= b.capacity
    ensures Exec(b, ops).tokens + Granted(b, ops) >= b.tokens && Exec(b, ops).tokens <= b.capacity
    decreases |ops|
  {
    if |ops| > 0 { TokensFloor(Step(b, ops[0]), ops[1..]); }
  }

  /** Calls that are not granted anything do not put off the next token: a refill that adds nothing changes nothing. */
  lemma {:induction false} AskingDoesNotStarve(b: Bucket, ops: seq<Op>, s: int, t: int)
    requires Sound(b, s) && b.capacity > 0 && Ordered(ops, s, t) && Granted(b, ops) == 0
    requires b.tokens > 0 || Accrued(b.rate, t - b.lastRefill) >= 1.0
    ensures Sound(Exec(b, ops), t) && Refilled(Exec(b, ops), t).tokens > 0
    decreases |ops|
  {
    if |ops| == 0 {
      if b.tokens == 0 { WholeBounds(Accrued(b.rate, t - b.lastRefill)); }
    } else {
      var now := ops[0].now;
      OrderedRange(ops[1..], now, t);
      StepPotential(b, ops[0]);
      assert Grant(b, ops[0]) == 0;
      NotGranted(b, ops[0]);
      AskingDoesNotStarve(Step(b, ops[0]), ops[1..], now, t);
    }
  }

  lemma {:induction false} NotGranted(b: Bucket, op: Op)
    requires Sound(b, op.now) && b.capacity > 0 && Grant(b, op) == 0
    ensures Step(b, op) == b || Step(b, op).tokens > 0
  {
    AccruedNonNegative(b.rate, op.now - b.lastRefill);
  }

  // ---------------------------------------------------------------- the retry hint

  lemma {:induction false} WholeBounds(x: real)
    requires 0.0 <= x
    ensures 0 <= Whole(x) && Whole(x) as real <= x < Whole(x) as real + 1.0
  {
  }

  /** Time and tokens convert back and forth. */
  lemma {:induction false} AccruedInverse(rate: real, n: real, elapsed: int)
    requires 0.0 < rate
    ensures elapsed as real > n / rate * SECOND <==> Accrued(rate, elapsed) > n
    ensures elapsed as real < n / rate * SECOND <==> Accrued(rate, elapsed) < n
  {
    var seconds := elapsed as real / SECOND;
    assert elapsed as real == seconds * SECOND;
    var needed := n / rate;
    assert n == needed * rate;
    if seconds > needed {
      assert (seconds - needed) * rate > 0.0;
    } else if seconds < needed {
      assert (needed - seconds) * rate > 0.0;
    }
  }

  /** One nanosecond after the hinted wait the tokens are there, if they fit in the bucket at all. */
  lemma {:induction false} HintSuffices(b: Bucket, now: int, n: int, infinite: int)
    requires Sound(b, now) && 0.0 < b.rate && n <= b.capacity
    ensures var r := Refilled(b, now); Taken(r, now + Hint(r, n, infinite) + 1, n).1
  {
    RefillPotential(b, now);
    var r := Refilled(b, now);
    if r.tokens < n {
      var needed := (n - r.tokens) as real;
      var exact := needed / r.rate * SECOND;
      assert 0.0 < needed / r.rate;
      WholeBounds(exact);
      var elapsed := now + Hint(r, n, infinite) + 1 - r.lastRefill;
      AccruedInverse(r.rate, needed, elapsed);
      assert Whole(Accrued(r.rate, elapsed)) >= n - r.tokens;
    } else {
      RefillKeepsTokens(r, now + 1);
    }
  }

  lemma {:induction false} RefillKeepsTokens(b: Bucket, now: int)
    requires Sound(b, now)
    ensures b.tokens <= Refilled(b, now).tokens
  {
  }

  /** More than one token period before the hint the same call still fails. */
  lemma {:induction false} HintIsNeeded(b: Bucket, now: int, n: int, t: int, infinite: int)
    requires Sound(b, now) && 0.0 < b.rate && now <= t
    requires Refilled(b, now).tokens < n
    requires t as real < (now + Hint(Refilled(b, now), n, infinite)) as real - SECOND / b.rate
    ensures !Taken(Refilled(b, now), t, n).1
  {
    RefillPotential(b, now);
    RefillOwesFraction(b, now);
    var r := Refilled(b, now);
    var needed := n - r.tokens;
    var exact := needed as real / r.rate * SECOND;
    assert 0.0 < exact by { assert 0.0 < needed as real / r.rate; }
    WholeBounds(exact);
    assert (t - now) as real < exact - SECOND / r.rate;
    OnePeriodLess(r.rate, needed as real);
    AccruedInverse(r.rate, (needed - 1) as real, t - now);
    assert Accrued(r.rate, t - now) < (needed - 1) as real;
    AccruedAdd(r.rate, now - r.lastRefill, t - now);
    assert t - r.lastRefill == (now - r.lastRefill) + (t - now);
    assert Accrued(r.rate, t - r.lastRefill) < needed as real;
  }

  lemma {:induction false} OnePeriodLess(rate: real, n: real)
    requires 0.0 < rate
    ensures n / rate * SECOND - SECOND / rate == (n - 1.0) / rate * SECOND
  {
  }

  /** Right after a refill less than one token is still owed. */
  lemma {:induction false} RefillOwesFraction(b: Bucket, now: int)
    requires Sound(b, now)
    ensures Accrued(b.rate, now - Refilled(b, now).lastRefill) < 1.0
  {
    assert Accrued(b.rate, now - now) == 0.0;
    AccruedNonNegative(b.rate, now - b.lastRefill);
  }
}
