/**
 Time-decayed review averages. Numbers are reals; `halve` stands for 2^(-x) and is known
 only to be positive, at most 1, and decreasing for positive arguments.
 */
module RecencyWeighting {
  import opened Basics
  import opened Wrappers

  datatype DecayConfig = DecayConfig(halfLifeDays: real, minWeight: real)
  datatype Review = Review(rating: real, ageDays: real)

  ghost predicate Halves(halve: real -> real) {
    && (forall x :: x > 0.0 ==> 0.0 < halve(x) <= 1.0)
    && (forall x, y :: 0.0 < x <= y ==> halve(y) <= halve(x))
  }

  /** A floor between 0 and 1, as the default configuration has. */
  predicate SaneFloor(config: DecayConfig) {
    0.0 <= config.minWeight <= 1.0
  }

  function DecayWeight(age: real, config: DecayConfig, halve: real -> real): real {
    if age <= 0.0 then 1.0
    else if config.halfLifeDays <= 0.0 then config.minWeight
    else
      var weight := halve(age / config.halfLifeDays);
      var floored := if weight < config.minWeight then config.minWeight else weight;
      if floored > 1.0 then 1.0 else floored
  }

  lemma WeightRange(age: real, config: DecayConfig, halve: real -> real)
    requires Halves(halve) && SaneFloor(config)
    ensures config.minWeight <= DecayWeight(age, config, halve) <= 1.0
    ensures config.halfLifeDays > 0.0 ==> DecayWeight(age, config, halve) > 0.0
  {
    if age > 0.0 && config.halfLifeDays > 0.0 {
      assert age / config.halfLifeDays > 0.0;
    }
  }

  lemma WeightAntitone(a: real, b: real, config: DecayConfig, halve: real -> real)
    requires Halves(halve) && SaneFloor(config) && a <= b
    ensures DecayWeight(b, config, halve) <= DecayWeight(a, config, halve)
  {
    WeightRange(b, config, halve);
    if a > 0.0 && config.halfLifeDays > 0.0 {
      DivideMonotone(a, b, config.halfLifeDays);
      assert a / config.halfLifeDays > 0.0;
    }
  }

  // ----- weighted sums -----

  datatype Point = Point(x: real, w: real)

  /** What a pass over weighted values adds up. */
  datatype Moments = Moments(count: real, dot: real, sum: real, weight: real)

  function Contribution(p: Point): real {
    p.x * p.w
  }

  function Next(m: Moments, p: Point): Moments {
    Moments(m.count + 1.0, m.dot + Contribution(p), m.sum + p.x, m.weight + p.w)
  }

  function MomentsOf(ps: seq<Point>): Moments {
    if ps == [] then Moments(0.0, 0.0, 0.0, 0.0) else Next(MomentsOf(ps[..|ps| - 1]), ps[|ps| - 1])
  }

  lemma NextPoint(ps: seq<Point>, i: nat)
    requires i < |ps|
    ensures MomentsOf(ps[..i + 1]) == Next(MomentsOf(ps[..i]), ps[i])
  {
    assert ps[..i + 1][..i] == ps[..i];
  }

  lemma {:induction false} CountIsLength(ps: seq<Point>)
    ensures MomentsOf(ps).count == |ps| as real
  {
    if ps != [] {
      CountIsLength(ps[..|ps| - 1]);
    }
  }

  lemma ProductSign(a: real, b: real)
    ensures a >= 0.0 && b >= 0.0 ==> a * b >= 0.0
    ensures a <= 0.0 && b <= 0.0 ==> a * b >= 0.0
  {
  }

  /** Larger values do not carry smaller weights. */
  predicate Consistent(p: Point, q: Point) {
    (p.x < q.x ==> p.w <= q.w) && (q.x < p.x ==> q.w <= p.w)
  }

  predicate AllConsistent(ps: seq<Point>) {
    forall i, j :: 0 <= i < |ps| && 0 <= j < |ps| ==> Consistent(ps[i], ps[j])
  }

  /** The sum, over the points behind `m`, of (p.x - x) * (p.w - w) is not negative. */
  ghost predicate CrossSound(m: Moments, p: Point) {
    m.dot + m.count * (p.x * p.w) - p.x * m.weight - p.w * m.sum >= 0.0
  }

  ghost predicate Chebyshev(m: Moments) {
    m.count * m.dot >= m.sum * m.weight
  }

  lemma CrossNext(m: Moments, q: Point, p: Point)
    requires CrossSound(m, p) && Consistent(p, q)
    ensures CrossSound(Next(m, q), p)
  {
    if p.x != q.x {
      ProductSign(p.x - q.x, p.w - q.w);
    }
    assert (p.x - q.x) * (p.w - q.w) == p.x * p.w - p.x * q.w - p.w * q.x + q.x * q.w;
    assert (m.count + 1.0) * (p.x * p.w) == m.count * (p.x * p.w) + p.x * p.w;
  }

  lemma {:induction false} CrossTerms(ps: seq<Point>, p: Point)
    requires forall i :: 0 <= i < |ps| ==> Consistent(p, ps[i])
    ensures CrossSound(MomentsOf(ps), p)
  {
    if ps != [] {
      var n := |ps| - 1;
      CrossTerms(ps[..n], p);
      CrossNext(MomentsOf(ps[..n]), ps[n], p);
    }
  }

  lemma Expansion(n: real, dot: real, sx: real, sw: real, x: real, w: real)
    requires n * dot >= sx * sw && dot + n * (x * w) - x * sw - w * sx >= 0.0
    ensures (n + 1.0) * (dot + x * w) >= (sx + x) * (sw + w)
  {
    assert (n + 1.0) * (dot + x * w) == n * dot + n * (x * w) + dot + x * w;
    assert (sx + x) * (sw + w) == sx * sw + sx * w + x * sw + x * w;
  }

  lemma ChebyshevNext(m: Moments, p: Point)
    requires Chebyshev(m) && CrossSound(m, p)
    ensures Chebyshev(Next(m, p))
  {
    Expansion(m.count, m.dot, m.sum, m.weight, p.x, p.w);
  }

  /** The Chebyshev sum inequality. */
  lemma {:induction false} ChebyshevHolds(ps: seq<Point>)
    requires AllConsistent(ps)
    ensures Chebyshev(MomentsOf(ps))
  {
    if ps != [] {
      var n := |ps| - 1;
      ChebyshevHolds(ps[..n]);
      CrossTerms(ps[..n], ps[n]);
      ChebyshevNext(MomentsOf(ps[..n]), ps[n]);
    }
  }

  ghost predicate DotWithin(m: Moments, low: real, high: real) {
    low * m.weight <= m.dot <= high * m.weight
  }

  lemma DotNext(m: Moments, p: Point, low: real, high: real)
    requires DotWithin(m, low, high) && low <= p.x <= high && p.w >= 0.0
    ensures DotWithin(Next(m, p), low, high)
  {
    ProductSign(p.x - low, p.w);
    ProductSign(high - p.x, p.w);
    assert (p.x - low) * p.w == p.x * p.w - low * p.w;
    assert (high - p.x) * p.w == high * p.w - p.x * p.w;
  }

  lemma {:induction false} DotBounds(ps: seq<Point>, low: real, high: real)
    requires forall i :: 0 <= i < |ps| ==> low <= ps[i].x <= high && ps[i].w >= 0.0
    ensures DotWithin(MomentsOf(ps), low, high)
  {
    if ps != [] {
      var n := |ps| - 1;
      DotBounds(ps[..n], low, high);
      DotNext(MomentsOf(ps[..n]), ps[n], low, high);
    }
  }

  // ----- the average -----

  function Points(reviews: seq<Review>, config: DecayConfig, halve: real -> real): (ps: seq<Point>)
    ensures |ps| == |reviews|
  {
    seq(|reviews|, i requires 0 <= i < |reviews| =>
      Point(reviews[i].rating, DecayWeight(reviews[i].ageDays, config, halve)))
  }

  function Totals(reviews: seq<Review>, config: DecayConfig, halve: real -> real): Moments {
    MomentsOf(Points(reviews, config, halve))
  }

  predicate IsMean(m: Moments, value: real) {
    m.weight > 0.0 && value * m.weight == m.dot
  }

  /** `value` is the weighted mean of the reviews, which have some weight. */
  predicate IsWeightedMean(value: real, reviews: seq<Review>, config: DecayConfig, halve: real -> real) {
    IsMean(Totals(reviews, config, halve), value)
  }

  /** None without reviews or without weight. */
  method RecencyWeightedAverage(reviews: seq<Review>, config: DecayConfig, halve: real -> real)
    returns (average: Option<real>)
    ensures average.Some? <==> reviews != [] && Totals(reviews, config, halve).weight > 0.0
    ensures average.Some? ==> IsWeightedMean(average.value, reviews, config, halve)
  {
    if reviews == [] {
      return None;
    }
    var weightedSum, weightTotal := AddUp(reviews, config, halve);
    if weightTotal <= 0.0 {
      return None;
    }
    QuotientTimes(weightedSum, weightTotal);
    return Some(weightedSum / weightTotal);
  }

  /** The loop of the average. */
  method AddUp(reviews: seq<Review>, config: DecayConfig, halve: real -> real)
    returns (weightedSum: real, weightTotal: real)
    ensures weightedSum == Totals(reviews, config, halve).dot && weightTotal == Totals(reviews, config, halve).weight
  {
    ghost var ps := Points(reviews, config, halve);
    ghost var m := MomentsOf([]);
    weightedSum, weightTotal := 0.0, 0.0;
    for i := 0 to |reviews|
      invariant m == MomentsOf(ps[..i]) && weightedSum == m.dot && weightTotal == m.weight
    {
      var w := DecayWeight(reviews[i].ageDays, config, halve);
      NextPoint(ps, i);
      m := Next(m, ps[i]);
      weightedSum := weightedSum + Contribution(Point(reviews[i].rating, w));
      weightTotal := weightTotal + w;
    }
    assert ps[..|reviews|] == ps;
  }

  /** Of two reviews, the newer is rated no lower. */
  predicate Improving(reviews: seq<Review>) {
    forall i, j :: 0 <= i < |reviews| && 0 <= j < |reviews| && reviews[i].ageDays < reviews[j].ageDays ==>
      reviews[i].rating >= reviews[j].rating
  }

  /** Of two reviews, the newer is rated no higher. */
  predicate Declining(reviews: seq<Review>) {
    forall i, j :: 0 <= i < |reviews| && 0 <= j < |reviews| && reviews[i].ageDays < reviews[j].ageDays ==>
      reviews[i].rating <= reviews[j].rating
  }

  function RatingSum(reviews: seq<Review>): real {
    if reviews == [] then 0.0 else RatingSum(reviews[..|reviews| - 1]) + reviews[|reviews| - 1].rating
  }

  function PlainAverage(reviews: seq<Review>): real
    requires reviews != []
  {
    RatingSum(reviews) / |reviews| as real
  }

  lemma ImprovingIsConsistent(reviews: seq<Review>, config: DecayConfig, halve: real -> real)
    requires Halves(halve) && SaneFloor(config) && Improving(reviews)
    ensures AllConsistent(Points(reviews, config, halve))
  {
    var ps := Points(reviews, config, halve);
    forall i, j | 0 <= i < |ps| && 0 <= j < |ps| ensures Consistent(ps[i], ps[j]) {
      if reviews[j].ageDays <= reviews[i].ageDays {
        WeightAntitone(reviews[j].ageDays, reviews[i].ageDays, config, halve);
      }
      if reviews[i].ageDays <= reviews[j].ageDays {
        WeightAntitone(reviews[i].ageDays, reviews[j].ageDays, config, halve);
      }
    }
  }

  lemma MeanFromMoments(m: Moments, value: real)
    requires m.count > 0.0 && IsMean(m, value) && Chebyshev(m)
    ensures value >= m.sum / m.count
  {
    var scaled, mean := value * m.count, m.sum / m.count;
    assert scaled * m.weight == m.count * (value * m.weight);
    ScaleOrder(scaled, m.sum, m.weight, m.count * m.dot, m.sum * m.weight);
    QuotientTimes(m.sum, m.count);
    ScaleOrder(value, mean, m.count, scaled, m.sum);
  }

  lemma {:induction false} SumIsRatingSum(reviews: seq<Review>, config: DecayConfig, halve: real -> real)
    ensures Totals(reviews, config, halve).sum == RatingSum(reviews)
  {
    if reviews != [] {
      var init := reviews[..|reviews| - 1];
      SumIsRatingSum(init, config, halve);
      assert Points(reviews, config, halve)[..|init|] == Points(init, config, halve);
    }
  }

  lemma PlainAverageIs(reviews: seq<Review>, config: DecayConfig, halve: real -> real)
    requires reviews != []
    ensures Totals(reviews, config, halve).count == |reviews| as real
    ensures PlainAverage(reviews) == Totals(reviews, config, halve).sum / Totals(reviews, config, halve).count
  {
    CountIsLength(Points(reviews, config, halve));
    SumIsRatingSum(reviews, config, halve);
  }

  /** If newer reviews are rated no lower, weighting by recency never lowers the average. */
  lemma ImprovingRaises(reviews: seq<Review>, config: DecayConfig, halve: real -> real, value: real)
    requires Halves(halve) && SaneFloor(config) && Improving(reviews)
    requires reviews != [] && IsWeightedMean(value, reviews, config, halve)
    ensures value >= PlainAverage(reviews)
  {
    ImprovingIsConsistent(reviews, config, halve);
    ChebyshevHolds(Points(reviews, config, halve));
    PlainAverageIs(reviews, config, halve);
    MeanFromMoments(Totals(reviews, config, halve), value);
  }

  function Flip(reviews: seq<Review>): (flipped: seq<Review>)
    ensures |flipped| == |reviews|
  {
    seq(|reviews|, i requires 0 <= i < |reviews| => Review(-reviews[i].rating, reviews[i].ageDays))
  }

  lemma NegateProduct(a: real, d: real)
    ensures -a * d == -(a * d)
  {
  }

  function Negated(m: Moments): Moments {
    Moments(m.count, -m.dot, -m.sum, m.weight)
  }

  function Mirror(p: Point): Point {
    Point(-p.x, p.w)
  }

  lemma NegatedNext(m: Moments, p: Point)
    ensures Next(Negated(m), Mirror(p)) == Negated(Next(m, p))
  {
    NegateProduct(p.x, p.w);
  }

  lemma {:induction false} NegatedMoments(ps: seq<Point>, qs: seq<Point>)
    requires |ps| == |qs| && forall i :: 0 <= i < |ps| ==> qs[i] == Mirror(ps[i])
    ensures MomentsOf(qs) == Negated(MomentsOf(ps))
  {
    if ps != [] {
      var n := |ps| - 1;
      NegatedMoments(ps[..n], qs[..n]);
      NegatedNext(MomentsOf(ps[..n]), ps[n]);
    }
  }

  lemma NegatedMean(m: Moments, value: real)
    requires IsMean(m, value)
    ensures IsMean(Negated(m), -value)
  {
    NegateProduct(value, m.weight);
  }

  lemma NegateQuotient(a: real, d: real)
    requires d > 0.0
    ensures -a / d == -(a / d)
  {
    QuotientTimes(a, d);
    QuotientTimes(-a, d);
    NegateProduct(a / d, d);
    ScaleOrder(-a / d, -(a / d), d, -a, -a);
    ScaleOrder(-(a / d), -a / d, d, -a, -a);
  }

  lemma FlippedMean(reviews: seq<Review>, config: DecayConfig, halve: real -> real, value: real)
    requires IsWeightedMean(value, reviews, config, halve)
    ensures IsWeightedMean(-value, Flip(reviews), config, halve)
  {
    NegatedMoments(Points(reviews, config, halve), Points(Flip(reviews), config, halve));
    NegatedMean(Totals(reviews, config, halve), value);
  }

  lemma {:induction false} FlippedSum(reviews: seq<Review>)
    ensures RatingSum(Flip(reviews)) == -RatingSum(reviews)
  {
    if reviews != [] {
      var n := |reviews| - 1;
      FlippedSum(reviews[..n]);
      assert Flip(reviews)[..n] == Flip(reviews[..n]);
    }
  }

  lemma FlippedAverage(reviews: seq<Review>)
    requires reviews != []
    ensures PlainAverage(Flip(reviews)) == -PlainAverage(reviews)
  {
    FlippedSum(reviews);
    NegateQuotient(RatingSum(reviews), |reviews| as real);
  }

  /** If newer reviews are rated no higher, it never raises it. */
  lemma DecliningLowers(reviews: seq<Review>, config: DecayConfig, halve: real -> real, value: real)
    requires Halves(halve) && SaneFloor(config) && Declining(reviews)
    requires reviews != [] && IsWeightedMean(value, reviews, config, halve)
    ensures value <= PlainAverage(reviews)
  {
    FlippedMean(reviews, config, halve, value);
    FlippedAverage(reviews);
    ImprovingRaises(Flip(reviews), config, halve, -value);
  }

  lemma MeanBounds(m: Moments, value: real, low: real, high: real)
    requires IsMean(m, value) && DotWithin(m, low, high)
    ensures low <= value <= high
  {
    ScaleOrder(value, low, m.weight, m.dot, low * m.weight);
    ScaleOrder(high, value, m.weight, high * m.weight, m.dot);
  }

  /** It always lies between the lowest and the highest rating. */
  lemma AverageInRange(
      reviews: seq<Review>, config: DecayConfig, halve: real -> real, value: real, low: real, high: real)
    requires Halves(halve) && SaneFloor(config) && IsWeightedMean(value, reviews, config, halve)
    requires forall i :: 0 <= i < |reviews| ==> low <= reviews[i].rating <= high
    ensures low <= value <= high
  {
    var ps := Points(reviews, config, halve);
    forall i | 0 <= i < |ps| ensures low <= ps[i].x <= high && ps[i].w >= 0.0 {
      WeightRange(reviews[i].ageDays, config, halve);
    }
    DotBounds(ps, low, high);
    MeanBounds(MomentsOf(ps), value, low, high);
  }

  lemma {:induction false} PositiveWeight(ps: seq<Point>)
    requires ps != [] && forall i :: 0 <= i < |ps| ==> ps[i].w > 0.0
    ensures MomentsOf(ps).weight > 0.0
  {
    if |ps| > 1 {
      PositiveWeight(ps[..|ps| - 1]);
    }
  }

  /** With a positive half-life or a positive floor there is an average as soon as there is a review. */
  lemma AverageExists(reviews: seq<Review>, config: DecayConfig, halve: real -> real)
    requires Halves(halve) && SaneFloor(config) && reviews != []
    requires config.halfLifeDays > 0.0 || config.minWeight > 0.0
    ensures Totals(reviews, config, halve).weight > 0.0
  {
    var ps := Points(reviews, config, halve);
    forall i | 0 <= i < |ps| ensures ps[i].w > 0.0 {
      WeightRange(reviews[i].ageDays, config, halve);
    }
    PositiveWeight(ps);
  }
}
