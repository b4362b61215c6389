/**
 What a new contract does to a user's trust score when the user then cancels it. It raises the
 count of cancellations and that of contracts together, so it dilutes the dispute rate; and it
 lowers the completion rate.
 */
module CancelledContracts {
  import opened Basics
  import opened Wrappers
  import opened TrustScore

  /** One more contract, which the user then cancels: the count of contracts grows with that of cancellations. */
  function OneMoreCancelled(r: RiskInput): RiskInput {
    r.(contracts := r.contracts + 1, cancellations := r.cancellations + 1)
  }

  /** Completed contracts among those completed or cancelled, 1 without any. */
  function CompletionRate(completed: int, terminal: int): real {
    if terminal > 0 then Ratio(completed, terminal) else 1.0
  }

  /** The same contract in both dimensions it touches; `terminal` contracts were completed or cancelled before it. */
  function AfterCancelledContract(u: User, terminal: nat): User {
    u.(risk := OneMoreCancelled(u.risk),
       volume := u.volume.(completionRate := CompletionRate(u.volume.completed, terminal + 1)))
  }

  function IncidentPenalty(r: RiskInput): real {
    Min(r.noShows as real * 0.15, 0.4) + Min(r.lateDeliveries as real * 0.08, 0.3)
  }

  /**
   Cancellations are at their cap (a quarter of the contracts) and disputes below theirs (a sixth), so the
   new contract dilutes the disputes and costs nothing, and the other penalties leave something to gain.
   */
  predicate CancellingPays(r: RiskInput)
    requires r.contracts >= 0
  {
    && 0 < r.disputes && 6 * r.disputes <= r.contracts && r.contracts <= 4 * r.cancellations
    && IncidentPenalty(r) + Ratio(r.disputes, r.contracts + 1) * 3.0 < 0.5
  }

  /** A share `x` of `n` after the total grew by one: counting the new one among them, and not. */
  lemma ShareMoves(a: int, n: int)
    requires n > 0
    ensures (Ratio(a + 1, n + 1) - Ratio(a, n)) * (n + 1) as real == 1.0 - Ratio(a, n)
    ensures (Ratio(a, n) - Ratio(a, n + 1)) * (n + 1) as real == Ratio(a, n)
  {
    var x, y, z, m := Ratio(a, n), Ratio(a + 1, n + 1), Ratio(a, n + 1), (n + 1) as real;
    QuotientTimes(a as real, n as real);
    QuotientTimes((a + 1) as real, m);
    QuotientTimes(a as real, m);
    assert (y - x) * m == y * m - x * n as real - x;
    assert (x - z) * m == x * n as real + x - z * m;
  }

  lemma AgainstOne(x: real, d: real, p: real)
    requires d > 0.0 && x * d == p
    ensures x >= 1.0 <==> p >= d
    ensures x > 1.0 <==> p > d
  {
    ScaleOrder(x, 1.0, d, p, d);
    ScaleOrder(1.0, x, d, d, p);
  }

  /** `Ratio(a, n)` against a quarter, told from the integers. */
  lemma AgainstQuarter(a: int, n: int)
    requires n > 0
    ensures Ratio(a, n) * 2.0 >= 0.5 <==> 4 * a >= n
    ensures Ratio(a, n) * 2.0 > 0.5 <==> 4 * a > n
  {
    var x := Ratio(a, n);
    QuotientTimes(a as real, n as real);
    assert (x * 4.0) * n as real == 4.0 * (x * n as real);
    AgainstOne(x * 4.0, n as real, 4.0 * a as real);
  }

  /** And against a sixth. */
  lemma AgainstSixth(a: int, n: int)
    requires n > 0
    ensures Ratio(a, n) * 3.0 >= 0.5 <==> 6 * a >= n
    ensures Ratio(a, n) * 3.0 > 0.5 <==> 6 * a > n
  {
    var x := Ratio(a, n);
    QuotientTimes(a as real, n as real);
    assert (x * 6.0) * n as real == 6.0 * (x * n as real);
    AgainstOne(x * 6.0, n as real, 6.0 * a as real);
  }

  function CancelPenalty(cancellations: int, contracts: int): real
    requires contracts > 0
  {
    Min(Ratio(cancellations, contracts) * 2.0, 0.5)
  }

  function DisputePenalty(disputes: int, contracts: int): real
    requires contracts > 0
  {
    Min(Ratio(disputes, contracts) * 3.0, 0.5)
  }

  /** `x` is nothing, or at least half a step of 1/m. */
  predicate CostsHalfAStep(x: real, m: real, costs: bool) {
    if costs then x * m >= 0.5 else x * m == 0.0
  }

  /** `x` is nothing, or something up to half a step. */
  predicate GainsHalfAStep(x: real, m: real, gains: bool) {
    if gains then 0.0 < x * m <= 0.5 else x * m == 0.0
  }

  lemma CostAgainstGain(cost: real, gain: real, m: real, costs: bool, gains: bool)
    requires m > 0.0 && CostsHalfAStep(cost, m, costs) && GainsHalfAStep(gain, m, gains)
    ensures cost < gain <==> gains && !costs
  {
    ScaleOrder(cost, gain, m, cost * m, gain * m);
  }

  function CancelRise(c: int, n: int): real
    requires n > 0
  {
    CancelPenalty(c + 1, n + 1) - CancelPenalty(c, n)
  }

  function DisputeFall(d: int, n: int): real
    requires n > 0
  {
    DisputePenalty(d, n) - DisputePenalty(d, n + 1)
  }

  lemma UncappedRise(x: real, y: real, m: real)
    requires m > 0.0 && x <= 0.25 && (y - x) * m == 1.0 - x
    ensures (y * 2.0 - x * 2.0) * m >= 0.5
  {
    assert (y * 2.0 - x * 2.0) * m == 2.0 * ((y - x) * m);
  }

  lemma CappedRise(x: real, n: real, c: real)
    requires x * n == c && 4.0 * c <= n - 1.0 && x <= 0.25
    ensures (0.5 - x * 2.0) * (n + 1.0) >= 0.5
  {
    assert (0.5 - x * 2.0) * (n + 1.0) == 0.5 * n - 2.0 * (x * n) + 0.5 - x * 2.0;
  }

  lemma RiseBelowCap(c: int, n: int)
    requires 0 <= 4 * c < n && Ratio(c + 1, n + 1) * 2.0 <= 0.5
    ensures CancelRise(c, n) * (n + 1) as real >= 0.5
  {
    var x, y := Ratio(c, n), Ratio(c + 1, n + 1);
    AgainstQuarter(c, n);
    assert CancelRise(c, n) == y * 2.0 - x * 2.0;
    ShareMoves(c, n);
    UncappedRise(x, y, (n + 1) as real);
  }

  lemma RiseToCap(c: int, n: int)
    requires 0 <= 4 * c < n && Ratio(c + 1, n + 1) * 2.0 > 0.5
    ensures CancelRise(c, n) * (n + 1) as real >= 0.5
  {
    var x := Ratio(c, n);
    AgainstQuarter(c, n);
    assert CancelRise(c, n) == 0.5 - x * 2.0;
    QuotientTimes(c as real, n as real);
    CappedRise(x, n as real, c as real);
  }

  lemma NoRiseAtCap(c: int, n: int)
    requires 0 <= c <= n <= 4 * c && n > 0
    ensures CancelRise(c, n) == 0.0
  {
    AgainstQuarter(c, n);
    AgainstQuarter(c + 1, n + 1);
  }

  /** What the new cancellation costs, in steps of 1 / (n + 1): at least half a step below the cap, nothing at it. */
  lemma CancelRiseSteps(c: int, n: int)
    requires 0 <= c <= n && n > 0
    ensures CostsHalfAStep(CancelRise(c, n), (n + 1) as real, 4 * c < n)
  {
    if 4 * c >= n {
      NoRiseAtCap(c, n);
    } else if Ratio(c + 1, n + 1) * 2.0 <= 0.5 {
      RiseBelowCap(c, n);
    } else {
      RiseToCap(c, n);
    }
  }

  lemma FallBelowCap(d: int, n: int)
    requires 0 < d && 6 * d <= n
    ensures DisputeFall(d, n) == 3.0 * (Ratio(d, n) - Ratio(d, n + 1))
    ensures 0.0 < DisputeFall(d, n) * (n + 1) as real <= 0.5
  {
    var gap, m := Ratio(d, n) - Ratio(d, n + 1), (n + 1) as real;
    AgainstSixth(d, n);
    AgainstSixth(d, n + 1);
    assert DisputeFall(d, n) == 3.0 * gap;
    ShareMoves(d, n);
    PositiveRatio(d, n);
    Tripled(gap, m, Ratio(d, n));
  }

  lemma Tripled(gap: real, m: real, share: real)
    requires gap * m == share && 0.0 < share && share * 3.0 <= 0.5
    ensures 0.0 < (3.0 * gap) * m <= 0.5
  {
    assert (3.0 * gap) * m == 3.0 * (gap * m);
  }

  lemma NoFallAtCap(d: int, n: int)
    requires 0 < n < 6 * d
    ensures DisputeFall(d, n) == 0.0
  {
    AgainstSixth(d, n);
    AgainstSixth(d, n + 1);
  }

  lemma NoFallWithoutDisputes(n: int)
    requires 0 < n
    ensures DisputeFall(0, n) == 0.0
  {
    PositiveRatio(0, n);
    PositiveRatio(0, n + 1);
  }

  /** What the disputes cost less, in the same steps: at most half a step, and something exactly below their cap. */
  lemma DisputeFallSteps(d: int, n: int)
    requires 0 <= d && n > 0
    ensures GainsHalfAStep(DisputeFall(d, n), (n + 1) as real, 0 < d && 6 * d <= n)
  {
    if d == 0 {
      NoFallWithoutDisputes(n);
    } else if 6 * d <= n {
      FallBelowCap(d, n);
    } else {
      NoFallAtCap(d, n);
    }
  }

  /** The disputes gain more than the cancellation costs exactly if they gain at all and it costs nothing. */
  lemma FallAgainstRise(c: int, d: int, n: int)
    requires 0 <= c <= n && 0 <= d && n > 0
    ensures CancelRise(c, n) < DisputeFall(d, n) <==> 0 < d && 6 * d <= n <= 4 * c
  {
    CancelRiseSteps(c, n);
    DisputeFallSteps(d, n);
    CostAgainstGain(CancelRise(c, n), DisputeFall(d, n), (n + 1) as real, 4 * c < n, 0 < d && 6 * d <= n);
  }

  /** Counts of the user's own contracts: no more cancelled than made. */
  predicate Consistent(r: RiskInput) {
    0 <= r.cancellations <= r.contracts && r.disputes >= 0 && r.noShows >= 0 && r.lateDeliveries >= 0
  }

  /** Both penalties at a cancellation cap already reached. */
  lemma AtTheCap(r: RiskInput)
    requires 0 < r.disputes && 6 * r.disputes <= r.contracts <= 4 * r.cancellations
    ensures CancelPenalty(r.cancellations + 1, r.contracts + 1) == 0.5
    ensures DisputePenalty(r.disputes, r.contracts + 1) == Ratio(r.disputes, r.contracts + 1) * 3.0
  {
    AgainstQuarter(r.cancellations + 1, r.contracts + 1);
    AgainstSixth(r.disputes, r.contracts + 1);
  }

  lemma ClampAgainst(before: real, after: real)
    requires before <= 1.0 && after <= 1.0
    ensures Clamp(after, 0.0, 1.0) <= Clamp(before, 0.0, 1.0) <==> !(before < after && 0.0 < after)
  {
  }

  function Penalties(r: RiskInput): (p: real)
    requires r.contracts > 0
  {
    CancelPenalty(r.cancellations, r.contracts) + DisputePenalty(r.disputes, r.contracts) + IncidentPenalty(r)
  }

  lemma PenaltiesCount(r: RiskInput)
    requires Consistent(r) && r.contracts > 0
    ensures Penalties(r) >= 0.0
    ensures RiskScore(r) == Clamp(1.0 - Penalties(r), 0.0, 1.0)
  {
    PositiveRatio(r.cancellations, r.contracts);
    PositiveRatio(r.disputes, r.contracts);
  }

  /** Making a contract and cancelling it raises the risk dimension exactly when `CancellingPays` holds. */
  lemma CancellingRisk(r: RiskInput)
    requires Consistent(r)
    ensures RiskScore(OneMoreCancelled(r)) <= RiskScore(r) <==> !CancellingPays(r)
  {
    var after := OneMoreCancelled(r);
    if r.contracts > 0 {
      PenaltiesCount(r);
      PenaltiesCount(after);
      ClampAgainst(1.0 - Penalties(r), 1.0 - Penalties(after));
      PenaltiesCompared(r);
    }
  }

  lemma PenaltiesCompared(r: RiskInput)
    requires Consistent(r) && r.contracts > 0
    ensures Penalties(OneMoreCancelled(r)) < Penalties(r) && Penalties(OneMoreCancelled(r)) < 1.0 <==> CancellingPays(r)
  {
    FallAgainstRise(r.cancellations, r.disputes, r.contracts);
    if 0 < r.disputes && 6 * r.disputes <= r.contracts <= 4 * r.cancellations {
      AtTheCap(r);
    }
  }

  // ----- both dimensions -----

  /** The counts behind a user's inputs: the cancelled contracts are terminal, and none of them is completed. */
  predicate Recorded(u: User, terminal: nat) {
    && Consistent(u.risk)
    && 0 <= u.volume.completed && u.volume.completed + u.risk.cancellations <= terminal <= u.risk.contracts
    && u.volume.completionRate == CompletionRate(u.volume.completed, terminal)
  }

  /** What the completion rate loses. */
  function RateLoss(completed: int, terminal: nat): real {
    CompletionRate(completed, terminal) - CompletionRate(completed, terminal + 1)
  }

  lemma RatioAtMostOne(a: int, b: int)
    requires 0 <= a <= b && b > 0
    ensures 0.0 <= Ratio(a, b) <= 1.0
  {
    QuotientTimes(a as real, b as real);
    ScaleOrder(1.0, Ratio(a, b), b as real, b as real, a as real);
    ScaleOrder(Ratio(a, b), 0.0, b as real, a as real, 0.0);
  }

  function OtherVolume(v: VolumeInput, log1p: int -> real): real
    requires log1p(50) > 0.0
  {
    JobsComponent(v.completed, log1p) * 0.40 + LinearComponent(v.recent, 10.0) * 0.20
    + LinearComponent(v.repeatCustomers, 5.0) * 0.15 + ResponseComponent(v.responseHours) * 0.10
  }

  lemma JobsRange(completed: int, log1p: int -> real)
    requires Logarithmic(log1p)
    ensures 0.0 <= JobsComponent(completed, log1p) <= 1.0
  {
    if completed > 0 {
      DivideMonotone(0.0, log1p(completed), log1p(50));
    }
  }

  lemma LinearRange(n: int, target: real)
    requires target > 0.0
    ensures 0.0 <= LinearComponent(n, target) <= 1.0
  {
    if n > 0 {
      DivideMonotone(0.0, n as real, target);
    }
  }

  /** For a rate within 0..1 the clamps of the volume score never fire. */
  lemma VolumeIsSum(v: VolumeInput, log1p: int -> real)
    requires Logarithmic(log1p) && 0.0 <= v.completionRate <= 1.0
    ensures VolumeScore(v, log1p) == OtherVolume(v, log1p) + v.completionRate * 0.15
  {
    JobsRange(v.completed, log1p);
    LinearRange(v.recent, 10.0);
    LinearRange(v.repeatCustomers, 5.0);
  }

  lemma RateRange(completed: int, terminal: nat)
    requires 0 <= completed <= terminal
    ensures 0.0 <= CompletionRate(completed, terminal) <= 1.0
  {
    if terminal > 0 {
      RatioAtMostOne(completed, terminal);
    }
  }

  /** How the overall score changes: a quarter of what the risk dimension gains, less what the rate loses. */
  lemma OverallChange(u: User, terminal: nat, log1p: int -> real)
    requires Logarithmic(log1p) && Recorded(u, terminal)
    ensures Overall(AfterCancelledContract(u, terminal), log1p) - Overall(u, log1p) ==
      0.25 * (RiskScore(OneMoreCancelled(u.risk)) - RiskScore(u.risk)) - 0.03 * RateLoss(u.volume.completed, terminal)
  {
    var after := AfterCancelledContract(u, terminal);
    CompositeIsWeightedSum(u, log1p);
    CompositeIsWeightedSum(after, log1p);
    RateRange(u.volume.completed, terminal);
    RateRange(u.volume.completed, terminal + 1);
    VolumeIsSum(u.volume, log1p);
    VolumeIsSum(after.volume, log1p);
  }

  lemma RateNeverRises(completed: int, terminal: nat)
    requires 0 <= completed <= terminal
    ensures RateLoss(completed, terminal) >= 0.0
  {
    RateRange(completed, terminal + 1);
    if terminal > 0 {
      RatioAtMostOne(completed, terminal);
      ShareMoves(completed, terminal);
      ScaleOrder(
        RateLoss(completed, terminal), 0.0, (terminal + 1) as real,
        RateLoss(completed, terminal) * (terminal + 1) as real, 0.0);
    }
  }

  /** What the risk dimension gains when `CancellingPays`: the disputes' dilution, or less if the score was at 0. */
  function RiskGain(r: RiskInput): real
    requires r.contracts > 0
  {
    var before := IncidentPenalty(r) + Ratio(r.disputes, r.contracts) * 3.0;
    var after := IncidentPenalty(r) + Ratio(r.disputes, r.contracts + 1) * 3.0;
    if before <= 0.5 then before - after else 0.5 - after
  }

  lemma PenaltiesAtTheCap(r: RiskInput)
    requires Consistent(r) && CancellingPays(r)
    ensures Penalties(r) == 0.5 + IncidentPenalty(r) + Ratio(r.disputes, r.contracts) * 3.0
    ensures Penalties(OneMoreCancelled(r)) == 0.5 + IncidentPenalty(r) + Ratio(r.disputes, r.contracts + 1) * 3.0
  {
    AtTheCap(r);
    AgainstQuarter(r.cancellations, r.contracts);
    AgainstSixth(r.disputes, r.contracts);
  }

  lemma RiskGained(r: RiskInput)
    requires Consistent(r) && CancellingPays(r)
    ensures RiskScore(OneMoreCancelled(r)) - RiskScore(r) == RiskGain(r)
  {
    PenaltiesAtTheCap(r);
    PenaltiesCount(r);
    PenaltiesCount(OneMoreCancelled(r));
  }

  /** n (n + 1): what the step from 1/n to 1/(n + 1) is one part of. */
  function Consecutive(n: nat): (product: nat)
    ensures n > 0 ==> product > 0
  {
    n * (n + 1)
  }

  /**
   The new contract pays in the risk dimension, and more than it costs in the volume dimension. On the counts:
   disputes d of n contracts against completed contracts c of t terminal ones.
   */
  predicate CancellingLifts(u: User, terminal: nat)
    requires u.risk.contracts >= 0
  {
    var r, c, t := u.risk, u.volume.completed, terminal;
    && CancellingPays(r) && t > 0
    && if IncidentPenalty(r) + Ratio(r.disputes, r.contracts) * 3.0 <= 0.5
       then 25 * (r.disputes * Consecutive(t)) > c * Consecutive(r.contracts)
       else 0.25 * RiskGain(r) > 0.03 * Ratio(c, Consecutive(t))
  }

  lemma {:induction false} CastProduct(a: nat, b: int)
    ensures (a * b) as real == a as real * b as real
  {
    if a > 0 {
      CastProduct(a - 1, b);
      assert a * b == (a - 1) * b + b;
      assert a as real * b as real == (a - 1) as real * b as real + b as real;
    }
  }

  /** The step from `a / n` to `a / (n + 1)`, over the common denominator. */
  lemma ShareStep(a: int, n: nat)
    requires n > 0
    ensures (Ratio(a, n) - Ratio(a, n + 1)) * Consecutive(n) as real == a as real
  {
    var gap, m := Ratio(a, n) - Ratio(a, n + 1), (n + 1) as real;
    CastProduct(n, n + 1);
    ShareMoves(a, n);
    QuotientTimes(a as real, n as real);
    assert gap * (n as real * m) == (gap * m) * n as real;
  }

  lemma StepIsShare(a: int, n: nat)
    requires n > 0
    ensures Ratio(a, n) - Ratio(a, n + 1) == Ratio(a, Consecutive(n))
  {
    ShareStep(a, n);
    SameQuotient(Ratio(a, n) - Ratio(a, n + 1), a, Consecutive(n));
  }

  lemma SameQuotient(x: real, a: int, d: nat)
    requires d > 0 && x * d as real == a as real
    ensures x == Ratio(a, d)
  {
    QuotientTimes(a as real, d as real);
    ScaleOrder(x, Ratio(a, d), d as real, a as real, a as real);
    ScaleOrder(Ratio(a, d), x, d as real, a as real, a as real);
  }

  /** Gain `g` with g * N == d against loss `l` with l * T == c, told by cross-multiplication. */
  lemma CrossCompare(g: real, l: real, N: real, T: real, d: real, c: real)
    requires N > 0.0 && T > 0.0 && g * N == d && l * T == c
    ensures 0.75 * g > 0.03 * l <==> 25.0 * (d * T) > c * N
  {
    PositiveProduct(N, T);
    assert (25.0 * g) * (N * T) == 25.0 * ((g * N) * T);
    assert l * (N * T) == (l * T) * N;
    ScaleOrder(l, 25.0 * g, N * T, c * N, 25.0 * (d * T));
  }

  lemma CastCompare(d: nat, tt: nat, c: nat, nn: nat)
    ensures 25.0 * (d as real * tt as real) > c as real * nn as real <==> 25 * (d * tt) > c * nn
  {
    CastProduct(d, tt);
    CastProduct(c, nn);
    var p, q := d * tt, c * nn;
    assert 25.0 * p as real > q as real <==> 25 * p > q;
  }

  lemma CrossCount(g: real, l: real, d: nat, nn: nat, c: nat, tt: nat)
    requires nn > 0 && tt > 0 && g * nn as real == d as real && l * tt as real == c as real
    ensures 0.75 * g > 0.03 * l <==> 25 * (d * tt) > c * nn
  {
    CrossCompare(g, l, nn as real, tt as real, d as real, c as real);
    CastCompare(d, tt, c, nn);
  }

  lemma DilutionAgainstLoss(d: nat, n: nat, c: nat, t: nat)
    requires n > 0 && t > 0
    ensures 0.75 * (Ratio(d, n) - Ratio(d, n + 1)) > 0.03 * RateLoss(c, t) <==>
      25 * (d * Consecutive(t)) > c * Consecutive(n)
  {
    ShareStep(d, n);
    ShareStep(c, t);
    CrossCount(Ratio(d, n) - Ratio(d, n + 1), RateLoss(c, t), d, Consecutive(n), c, Consecutive(t));
  }

  lemma LiftIsGain(u: User, terminal: nat)
    requires Recorded(u, terminal) && CancellingPays(u.risk)
    ensures 0.25 * RiskGain(u.risk) > 0.03 * RateLoss(u.volume.completed, terminal) <==> CancellingLifts(u, terminal)
  {
    var r, c := u.risk, u.volume.completed;
    if IncidentPenalty(r) + Ratio(r.disputes, r.contracts) * 3.0 <= 0.5 {
      assert RiskGain(r) == 3.0 * (Ratio(r.disputes, r.contracts) - Ratio(r.disputes, r.contracts + 1));
      DilutionAgainstLoss(r.disputes, r.contracts, c, terminal);
    } else {
      StepIsShare(c, terminal);
    }
  }

  /**
   Making a contract and cancelling it raises the overall score exactly when `CancellingLifts` holds;
   otherwise the tier does not rise either.
   */
  lemma CancellingNeverHelps(u: User, terminal: nat, log1p: int -> real)
    requires Logarithmic(log1p) && Recorded(u, terminal)
    ensures Overall(AfterCancelledContract(u, terminal), log1p) <= Overall(u, log1p) <==> !CancellingLifts(u, terminal)
    ensures !CancellingLifts(u, terminal) ==>
      Rank(TierOf(AfterCancelledContract(u, terminal), log1p)) <= Rank(TierOf(u, log1p))
  {
    var after := AfterCancelledContract(u, terminal);
    OverallChange(u, terminal, log1p);
    CancellingRisk(u.risk);
    RateNeverRises(u.volume.completed, terminal);
    if CancellingPays(u.risk) {
      RiskGained(u.risk);
      LiftIsGain(u, terminal);
    }
    if !CancellingLifts(u, terminal) {
      TierMonotone(StandingOf(after, log1p), StandingOf(u, log1p), u.fraud.activeFlags, u.fraud.activeFlags);
    }
  }

  /** Ten contracts, five completed, five cancelled, one dispute: an eleventh, cancelled, raises the overall score. */
  lemma CancellingCanLift(u: User, log1p: int -> real)
    requires Logarithmic(log1p) && u.risk == RiskInput(10, 5, 1, 0, 0)
    requires u.volume.completed == 5 && u.volume.completionRate == CompletionRate(5, 10)
    ensures Overall(AfterCancelledContract(u, 10), log1p) > Overall(u, log1p)
  {
    assert CancellingLifts(u, 10);
    CancellingNeverHelps(u, 10, log1p);
  }

  /** A thousand contracts, 250 of them completed, 250 cancelled, one dispute: risk gains, the overall score loses. */
  lemma CancellingCanCostMore(u: User, log1p: int -> real)
    requires Logarithmic(log1p) && u.risk == RiskInput(1000, 250, 1, 0, 0)
    requires u.volume.completed == 250 && u.volume.completionRate == CompletionRate(250, 500)
    ensures RiskScore(OneMoreCancelled(u.risk)) > RiskScore(u.risk)
    ensures Overall(AfterCancelledContract(u, 500), log1p) < Overall(u, log1p)
  {
    assert CancellingPays(u.risk);
    CancellingRisk(u.risk);
    OverallChange(u, 500, log1p);
    RiskGained(u.risk);
    StepIsShare(1, 1000);
    StepIsShare(250, 500);
  }

  /** A user's very first contract, cancelled: the rate falls from 1 to 0 and the risk dimension to a half. */
  lemma FirstContractCancelled(u: User, log1p: int -> real)
    requires Logarithmic(log1p) && Recorded(u, 0) && u.risk == RiskInput(0, 0, 0, 0, 0)
    ensures u.volume.completionRate == 1.0
    ensures Overall(AfterCancelledContract(u, 0), log1p) == Overall(u, log1p) - 0.155
  {
    OverallChange(u, 0, log1p);
  }
}
