/** The retry backoff, over the reals, and all the waiting one transfer can ask for. */
module Backoff {
  import opened Wrappers
  import opened Transfers
  import opened Handlers
  import opened Lifecycle
  import opened FaultFree
  import opened Replay

  datatype Params = Params(base: real, cap: real, jitter: real)

  predicate Sane(p: Params) {
    p.base > 0.0 && p.cap >= 0.0 && 0.0 <= p.jitter <= 1.0
  }

  datatype Decision = Retry(delay: real) | GiveUp

  function Pow2(n: nat): real {
    if n == 0 then 1.0 else 2.0 * Pow2(n - 1)
  }

  /** The base delay times two to the power of `n`. */
  function Doubled(base: real, n: nat): real {
    if n == 0 then base else 2.0 * Doubled(base, n - 1)
  }

  lemma {:induction false} DoubledIs(base: real, n: nat)
    ensures Doubled(base, n) == base * Pow2(n)
  {
    if n > 0 { DoubledIs(base, n - 1); }
  }

  /** The delay before jitter. */
  function Capped(p: Params, attempt: nat): real {
    var d := Doubled(p.base, attempt);
    if d > p.cap then p.cap else d
  }

  /** The delay moved by the fraction `f` times `s`, and never negative. */
  function Moved(d: real, f: real, s: real): real {
    NotNegative(d + d * f * s)
  }

  function NotNegative(delay: real): real {
    if delay < 0.0 then 0.0 else delay
  }

  function Jittered(p: Params, d: real, draw: real): real {
    Moved(d, p.jitter, 2.0 * draw - 1.0)
  }

  /** `draw` is the random number, between 0 and 1. */
  function ApplyRetryBackoff(p: Params, retryCount: nat, retryMax: int, draw: real): Decision {
    if retryCount >= retryMax then GiveUp else Retry(Jittered(p, Capped(p, retryCount), draw))
  }

  // ---------------------------------------------------------------------------
  // One delay

  lemma {:induction false} DoubledGrows(base: real, i: nat, j: nat)
    requires base > 0.0 && i <= j
    ensures 0.0 < Doubled(base, i) <= Doubled(base, j)
    decreases j
  {
    if i < j {
      DoubledGrows(base, i, j - 1);
    } else if i > 0 {
      DoubledGrows(base, i - 1, j - 1);
    }
  }

  /** Later attempts wait at least as long, and once the cap is reached it stays. */
  lemma DelaysGrow(p: Params, i: nat, j: nat)
    requires Sane(p) && i <= j
    ensures 0.0 <= Capped(p, i) <= Capped(p, j) <= p.cap
    ensures Capped(p, i) == p.cap ==> Capped(p, j) == p.cap
  {
    DoubledGrows(p.base, i, j);
  }

  lemma Times(x: real, y: real, z: real)
    requires x <= y && z >= 0.0
    ensures x * z <= y * z && z * x <= z * y
  {
    assert (y - x) * z >= 0.0;
  }

  lemma Spread(d: real, f: real, s: real)
    requires d >= 0.0 && 0.0 <= f <= 1.0 && -1.0 <= s <= 1.0
    ensures 0.0 <= (1.0 - f) * d <= d + d * f * s <= (1.0 + f) * d
  {
    var a := d * f;
    assert a >= 0.0 by { Times(0.0, f, d); }
    assert -a <= a * s <= a by { Times(-1.0, s, a); Times(s, 1.0, a); }
    assert 0.0 <= (1.0 - f) * d by { Times(0.0, 1.0 - f, d); }
    assert (1.0 - f) * d == d - a;
    assert (1.0 + f) * d == d + a;
  }

  lemma Between(low: real, delay: real, high: real)
    requires 0.0 <= low <= delay <= high
    ensures low <= NotNegative(delay) <= high
  {
  }

  lemma MovedBounded(d: real, f: real, s: real)
    requires d >= 0.0 && 0.0 <= f <= 1.0 && -1.0 <= s <= 1.0
    ensures 0.0 <= (1.0 - f) * d <= Moved(d, f, s) <= (1.0 + f) * d
  {
    Spread(d, f, s);
    Between((1.0 - f) * d, d + d * f * s, (1.0 + f) * d);
  }

  lemma JitterBounded(p: Params, d: real, draw: real)
    requires Sane(p) && d >= 0.0 && 0.0 <= draw <= 1.0
    ensures 0.0 <= (1.0 - p.jitter) * d <= Jittered(p, d, draw) <= (1.0 + p.jitter) * d
  {
    MovedBounded(d, p.jitter, 2.0 * draw - 1.0);
  }

  /** The delay of an attempt, written out. */
  lemma CappedIs(p: Params, n: nat)
    ensures Capped(p, n) == if p.base * Pow2(n) > p.cap then p.cap else p.base * Pow2(n)
  {
    DoubledIs(p.base, n);
  }

  lemma DecisionBounded(p: Params, n: nat, max: int, draw: real)
    requires Sane(p) && 0.0 <= draw <= 1.0
    ensures var r := ApplyRetryBackoff(p, n, max, draw);
            && (r.Retry? <==> n < max)
            && (r.Retry? ==> (1.0 - p.jitter) * Capped(p, n) <= r.delay <= (1.0 + p.jitter) * Capped(p, n))
  {
    DelaysGrow(p, n, n);
    JitterBounded(p, Capped(p, n), draw);
  }

  /** The base doubled for every attempt, up to the cap. */
  predicate IsDelay(p: Params, n: nat, d: real) {
    var uncapped := p.base * Pow2(n);
    if uncapped > p.cap then d == p.cap else d == uncapped
  }

  lemma DelayIsCapped(p: Params, n: nat, d: real)
    requires IsDelay(p, n, d)
    ensures d == Capped(p, n)
  {
    CappedIs(p, n);
  }

  /** A retry is granted exactly while there are attempts left; its delay is the base doubled for every attempt, up to
      the cap, and up to jitter. */
  lemma BackoffDecision(p: Params, n: nat, max: int, draw: real, d: real)
    requires Sane(p) && 0.0 <= draw <= 1.0 && IsDelay(p, n, d)
    ensures var r := ApplyRetryBackoff(p, n, max, draw);
            && (r.Retry? <==> n < max)
            && (r.Retry? ==> (1.0 - p.jitter) * d <= r.delay <= (1.0 + p.jitter) * d)
  {
    DelayIsCapped(p, n, d);
    DecisionBounded(p, n, max, draw);
  }

  lemma MovedGrows(d: real, f: real, s: real, s': real)
    requires d >= 0.0 && f >= 0.0 && s <= s'
    ensures Moved(d, f, s) <= Moved(d, f, s') && Moved(d, f, 0.0) == d
  {
    var a := d * f;
    assert a >= 0.0 by { Times(0.0, f, d); }
    Times(s, s', a);
    Raised(d, a * s, a * s');
    assert d * f * 0.0 == 0.0;
  }

  lemma Raised(d: real, x: real, y: real)
    requires x <= y
    ensures NotNegative(d + x) <= NotNegative(d + y)
  {
  }

  /** Jitter: the delay grows with the draw, and the middle draw leaves it as it is. */
  lemma JitterGrows(p: Params, n: nat, max: int, u: real, v: real)
    requires Sane(p) && n < max && u <= v
    ensures ApplyRetryBackoff(p, n, max, u).delay <= ApplyRetryBackoff(p, n, max, v).delay
    ensures ApplyRetryBackoff(p, n, max, 0.5).delay == Capped(p, n)
  {
    DelaysGrow(p, n, n);
    MovedGrows(Capped(p, n), p.jitter, 2.0 * u - 1.0, 2.0 * v - 1.0);
  }

  lemma MovedFarthest(d: real, f: real)
    requires d >= 0.0 && 0.0 <= f <= 1.0
    ensures Moved(d, f, -1.0) == (1.0 - f) * d && Moved(d, f, 1.0) == (1.0 + f) * d
  {
    MovedBounded(d, f, -1.0);
    MovedBounded(d, f, 1.0);
  }

  /** The least and the greatest draw reach both ends of the range. */
  lemma JitterReaches(p: Params, n: nat, max: int, d: real)
    requires Sane(p) && n < max && IsDelay(p, n, d)
    ensures ApplyRetryBackoff(p, n, max, 0.0).delay == (1.0 - p.jitter) * d
    ensures ApplyRetryBackoff(p, n, max, 0.5).delay == d
    ensures ApplyRetryBackoff(p, n, max, 1.0).delay == (1.0 + p.jitter) * d
  {
    DelayIsCapped(p, n, d);
    DelaysGrow(p, n, n);
    MovedFarthest(d, p.jitter);
    JitterGrows(p, n, max, 0.0, 1.0);
  }

  // ---------------------------------------------------------------------------
  // All delays

  /** The retry test of the report handler is the one the backoff makes. */
  lemma RetryIsMayRetry(p: Params, row: Row, draw: real)
    requires row.retryCount >= 0
    ensures ApplyRetryBackoff(p, row.retryCount, row.retryMax, draw).Retry? <==> MayRetry(row)
  {
  }

  /** A backoff: what is decided from the retry count, the limit and a random draw. */
  type Backoff = (nat, int, real) -> Decision

  /** What an operation makes the transfer wait: the delay decided on, if it is a failed report. */
  function Wait(decide: Backoff, c: Option<Cell>, op: Op, draw: real): real {
    if op.Report? && op.report.status == "failed" && c.Some? && c.value.row.retryCount >= 0 then
      match decide(c.value.row.retryCount, c.value.row.retryMax, draw)
      case Retry(delay) => delay
      case GiveUp => 0.0
    else 0.0
  }

  /** All the delays decided on for a transfer over a run. */
  function TotalWait(decide: Backoff, cfg: Config, w: World, ops: seq<Op>, id: TransferId, draws: seq<real>): real
    requires |draws| == |ops|
    decreases |ops|
  {
    if ops == [] then 0.0
    else
      (if ops[0].id == id then Wait(decide, CellOf(w, id), ops[0], draws[0]) else 0.0) +
      TotalWait(decide, cfg, Step(cfg, w, ops[0]), ops[1..], id, draws[1..])
  }

  ghost predicate Draws(draws: seq<real>) {
    forall i :: 0 <= i < |draws| ==> 0.0 <= draws[i] <= 1.0
  }

  function Sum(bound: nat -> real, from: nat, max: int): real
    decreases max - from
  {
    if from >= max then 0.0 else bound(from) + Sum(bound, from + 1, max)
  }

  /** Retries are granted exactly below the limit, with delays of at most `bound`. */
  ghost predicate BoundedBy(decide: Backoff, bound: nat -> real) {
    forall n: nat, max: int, u: real {:trigger decide(n, max, u)} :: 0.0 <= u <= 1.0 ==>
      && (decide(n, max, u).Retry? <==> n < max)
      && (n < max ==> 0.0 <= decide(n, max, u).delay <= bound(n))
  }

  lemma {:induction false} SumNotNegative(decide: Backoff, bound: nat -> real, from: nat, max: int)
    requires BoundedBy(decide, bound)
    ensures Sum(bound, from, max) >= 0.0
    decreases max - from
  {
    if from < max {
      assert decide(from, max, 0.0).Retry?;
      SumNotNegative(decide, bound, from + 1, max);
    }
  }

  /** A delay is paid for with one attempt. */
  lemma WaitSpends(decide: Backoff, bound: nat -> real, cfg: Config, c: Cell, op: Op, draw: real)
    requires BoundedBy(decide, bound) && 0.0 <= draw <= 1.0 && NoRepositoryFault(op) && c.row.retryCount >= 0
    ensures var r := StepCell(cfg, Some(c), op);
            && r.Some? && r.value.row.retryCount >= 0 && r.value.row.retryMax == c.row.retryMax
            && Wait(decide, Some(c), op, draw) + Sum(bound, r.value.row.retryCount, c.row.retryMax)
               <= Sum(bound, c.row.retryCount, c.row.retryMax)
  {
    StepClosedForm(cfg, Some(c), op);
    assert decide(c.row.retryCount, c.row.retryMax, draw).Retry? <==> MayRetry(c.row);
  }

  /** Over every run, the delays of a transfer stay within those of the attempts it has left. */
  lemma {:induction false} WaitsBounded(
    decide: Backoff, bound: nat -> real, cfg: Config, w: World, ops: seq<Op>, id: TransferId, draws: seq<real>)
    requires BoundedBy(decide, bound) && |draws| == |ops| && Draws(draws) && FaultFreeOps(ops)
    requires id in w && w[id].row.retryCount >= 0
    ensures TotalWait(decide, cfg, w, ops, id, draws) <= Sum(bound, w[id].row.retryCount, w[id].row.retryMax)
    decreases |ops|
  {
    if ops == [] {
      SumNotNegative(decide, bound, w[id].row.retryCount, w[id].row.retryMax);
    } else {
      if ops[0].id == id { WaitSpends(decide, bound, cfg, w[id], ops[0], draws[0]); }
      WaitsBounded(decide, bound, cfg, Step(cfg, w, ops[0]), ops[1..], id, draws[1..]);
    }
  }

  // ---------------------------------------------------------------------------
  // The two bounds

  function CappedDelay(p: Params): nat -> real {
    (n: nat) => Capped(p, n)
  }

  function Repeated(x: real, n: nat): real {
    if n == 0 then 0.0 else x + Repeated(x, n - 1)
  }

  lemma {:induction false} SumAtMostCaps(p: Params, from: nat, max: nat)
    requires Sane(p) && from <= max
    ensures Sum(CappedDelay(p), from, max) <= Repeated(p.cap, max - from)
    decreases max - from
  {
    if from < max { SumAtMostCaps(p, from + 1, max); }
  }

  lemma {:induction false} SumAtMostDoubling(p: Params, from: nat, max: nat)
    requires Sane(p) && from <= max
    ensures Sum(CappedDelay(p), from, max) <= Doubled(p.base, max) - Doubled(p.base, from)
    decreases max - from
  {
    if from < max {
      SumAtMostDoubling(p, from + 1, max);
      assert Doubled(p.base, from + 1) == 2.0 * Doubled(p.base, from);
    }
  }

  function Smaller(a: real, b: real): real {
    if a <= b then a else b
  }

  lemma SumWithinSmaller(p: Params, n: nat)
    requires Sane(p)
    ensures Sum(CappedDelay(p), 0, n) <= Smaller(Repeated(p.cap, n), Doubled(p.base, n) - p.base)
  {
    SumAtMostCaps(p, 0, n);
    SumAtMostDoubling(p, 0, n);
  }

  // ---------------------------------------------------------------------------
  // Jitter

  lemma Distributes(k: real, a: real, b: real)
    ensures k * a + k * b == k * (a + b)
  {
  }

  ghost predicate Scales(f: nat -> real, g: nat -> real, k: real) {
    forall n: nat :: f(n) == k * g(n)
  }

  lemma {:induction false} SumScales(f: nat -> real, g: nat -> real, k: real, from: nat, max: int)
    requires Scales(f, g, k)
    ensures Sum(f, from, max) == k * Sum(g, from, max)
    decreases max - from
  {
    if from < max {
      SumScales(f, g, k, from + 1, max);
      Distributes(k, g(from), Sum(g, from + 1, max));
    }
  }

  lemma ScaledWithin(f: nat -> real, g: nat -> real, k: real, n: nat, bound: real)
    requires Scales(f, g, k) && k >= 0.0 && Sum(g, 0, n) <= bound
    ensures Sum(f, 0, n) <= k * bound
  {
    SumScales(f, g, k, 0, n);
    Times(Sum(g, 0, n), bound, k);
  }

  /** The longest delay that jitter can make of an attempt's delay. */
  function LongestDelay(p: Params): nat -> real {
    (n: nat) => (1.0 + p.jitter) * Capped(p, n)
  }

  /** The backoff the program applies. */
  function BackoffOf(p: Params): Backoff {
    (n: nat, max: int, draw: real) => ApplyRetryBackoff(p, n, max, draw)
  }

  lemma DelaysBounded(p: Params)
    requires Sane(p)
    ensures BoundedBy(BackoffOf(p), LongestDelay(p))
  {
    forall n: nat, max: int, u: real | 0.0 <= u <= 1.0
      ensures var r := BackoffOf(p)(n, max, u);
              (r.Retry? <==> n < max) && (n < max ==> 0.0 <= r.delay <= LongestDelay(p)(n))
    {
      DelaysGrow(p, n, n);
      JitterBounded(p, Capped(p, n), u);
    }
  }

  // ---------------------------------------------------------------------------
  // All delays of a transfer

  /** The most that `n` attempts can wait. */
  function Limit(p: Params, n: nat): real {
    (1.0 + p.jitter) * Smaller(n as real * p.cap, p.base * (Pow2(n) - 1.0))
  }

  lemma {:induction false} RepeatedIs(x: real, n: nat)
    ensures Repeated(x, n) == n as real * x
  {
    if n > 0 {
      RepeatedIs(x, n - 1);
      Distributes(x, 1.0, (n - 1) as real);
    }
  }

  lemma UncappedIs(p: Params, n: nat)
    ensures Doubled(p.base, n) - p.base == p.base * (Pow2(n) - 1.0)
  {
    DoubledIs(p.base, n);
    Distributes(p.base, Pow2(n), -1.0);
  }

  lemma LimitIs(p: Params, n: nat)
    ensures Limit(p, n) == (1.0 + p.jitter) * Smaller(Repeated(p.cap, n), Doubled(p.base, n) - p.base)
  {
    RepeatedIs(p.cap, n);
    UncappedIs(p, n);
    LimitMeans(p, n, Repeated(p.cap, n), Doubled(p.base, n) - p.base);
  }

  lemma LimitMeans(p: Params, n: nat, flat: real, doubling: real)
    requires flat == n as real * p.cap && doubling == p.base * (Pow2(n) - 1.0)
    ensures Limit(p, n) == (1.0 + p.jitter) * Smaller(flat, doubling)
  {
  }

  lemma LimitHolds(p: Params, n: nat)
    requires Sane(p)
    ensures Sum(LongestDelay(p), 0, n) <= Limit(p, n)
  {
    SumWithinSmaller(p, n);
    assert Scales(LongestDelay(p), CappedDelay(p), 1.0 + p.jitter);
    ScaledWithin(LongestDelay(p), CappedDelay(p), 1.0 + p.jitter, n,
                 Smaller(Repeated(p.cap, n), Doubled(p.base, n) - p.base));
    LimitIs(p, n);
  }

  /** All delays computed over a transfer's life sum to at most the limit of its attempts. */
  lemma LifetimeBackoff(p: Params, cfg: Config, w: World, ops: seq<Op>, id: TransferId, draws: seq<real>)
    requires Sane(p) && |draws| == |ops| && Draws(draws) && FaultFreeOps(ops)
    requires id in w && w[id].row.retryCount == 0 && w[id].row.retryMax >= 0
    ensures TotalWait(BackoffOf(p), cfg, w, ops, id, draws) <= Limit(p, w[id].row.retryMax)
  {
    DelaysBounded(p);
    WaitsBounded(BackoffOf(p), LongestDelay(p), cfg, w, ops, id, draws);
    LimitHolds(p, w[id].row.retryMax);
  }
}
