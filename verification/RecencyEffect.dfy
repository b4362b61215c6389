/**
 When weighting by recency really changes an average, and by how much. `halve` stands for 2^(-x):
 it is here also strictly decreasing, and half as large one unit further.
 */
module RecencyEffect {
  import opened Basics
  import opened Wrappers
  import opened RecencyWeighting

  ghost predicate StrictlyHalves(halve: real -> real) {
    Halves(halve) && forall x, y :: 0.0 < x < y ==> halve(y) < halve(x)
  }

  ghost predicate HalvesEachUnit(halve: real -> real) {
    halve(1.0) == 0.5 && forall x :: x > 0.0 ==> halve(x + 1.0) == 0.5 * halve(x)
  }

  // ----- by how much -----

  function HalfPower(k: nat): (p: real)
    ensures 0.0 < p <= 1.0
  {
    if k == 0 then 1.0 else 0.5 * HalfPower(k - 1)
  }

  lemma {:induction false} HalvedAt(halve: real -> real, k: nat)
    requires HalvesEachUnit(halve) && k > 0
    ensures halve(k as real) == HalfPower(k)
  {
    if k > 1 {
      HalvedAt(halve, k - 1);
      assert (k - 1) as real + 1.0 == k as real;
    }
  }

  /** After k half-lives a review weighs 1/2^k, but never less than the floor; a review of today weighs 1. */
  lemma WeightAtHalfLives(k: nat, config: DecayConfig, halve: real -> real)
    requires Halves(halve) && HalvesEachUnit(halve) && SaneFloor(config) && config.halfLifeDays > 0.0
    ensures DecayWeight(k as real * config.halfLifeDays, config, halve) == Max(config.minWeight, HalfPower(k))
  {
    var age := k as real * config.halfLifeDays;
    if k > 0 {
      PositiveProduct(k as real, config.halfLifeDays);
      QuotientTimes(age, config.halfLifeDays);
      SameFactor(age / config.halfLifeDays, k as real, config.halfLifeDays);
      HalvedAt(halve, k);
    } else {
      assert age == 0.0;
    }
  }

  lemma SameFactor(a: real, b: real, c: real)
    requires c > 0.0 && a * c == b * c
    ensures a == b
  {
    ScaleOrder(a, b, c, a * c, b * c);
    ScaleOrder(b, a, c, b * c, a * c);
  }

  /** Without a half-life, every review but those of today weighs just the floor. */
  lemma WeightWithoutHalfLife(age: real, config: DecayConfig, halve: real -> real)
    requires config.halfLifeDays <= 0.0
    ensures DecayWeight(age, config, halve) == if age <= 0.0 then 1.0 else config.minWeight
  {
  }

  lemma FullWeight(x: real)
    ensures Contribution(Point(x, 1.0)) == x
  {
  }

  lemma TwoMoments(x: real, q: Point)
    ensures MomentsOf([Point(x, 1.0), q]) == Moments(2.0, x + Contribution(q), x + q.x, 1.0 + q.w)
  {
    var p := Point(x, 1.0);
    FullWeight(x);
    assert [p, q][..1] == [p] && [p][..0] == [];
    assert MomentsOf([p]) == Next(MomentsOf([]), p);
    assert MomentsOf([p, q]) == Next(MomentsOf([p]), q);
  }

  /** One review of today and one k half-lives old. */
  function NewAndOld(x: real, y: real, k: nat, config: DecayConfig): seq<Review> {
    [Review(x, 0.0), Review(y, k as real * config.halfLifeDays)]
  }

  lemma PointsOfTwo(x: real, y: real, k: nat, config: DecayConfig, halve: real -> real)
    requires Halves(halve) && HalvesEachUnit(halve) && SaneFloor(config) && config.halfLifeDays > 0.0
    ensures Points(NewAndOld(x, y, k, config), config, halve) ==
      [Point(x, 1.0), Point(y, Max(config.minWeight, HalfPower(k)))]
  {
    WeightAtHalfLives(k, config, halve);
  }

  /** The older of two reviews counts 1/2^k, or the floor. */
  method AverageOfTwo(x: real, y: real, k: nat, config: DecayConfig, halve: real -> real)
    returns (average: Option<real>)
    requires Halves(halve) && HalvesEachUnit(halve) && SaneFloor(config) && config.halfLifeDays > 0.0
    ensures average.Some?
    ensures var w := Max(config.minWeight, HalfPower(k)); average.value * (1.0 + w) == x + y * w
  {
    ghost var older := Point(y, Max(config.minWeight, HalfPower(k)));
    PointsOfTwo(x, y, k, config, halve);
    TwoMoments(x, older);
    average := RecencyWeightedAverage(NewAndOld(x, y, k, config), config, halve);
  }

  // ----- whether at all -----

  /** Rated higher and weighing more, one way or the other. */
  predicate StrictPair(p: Point, q: Point) {
    (p.x < q.x && p.w < q.w) || (q.x < p.x && q.w < p.w)
  }

  ghost predicate CrossPositive(m: Moments, p: Point) {
    m.dot + m.count * (p.x * p.w) - p.x * m.weight - p.w * m.sum > 0.0
  }

  lemma CrossNextStrict(m: Moments, q: Point, p: Point)
    requires CrossSound(m, p) && StrictPair(p, q)
    ensures CrossPositive(Next(m, q), p)
  {
    if p.x > q.x {
      PositiveProduct(p.x - q.x, p.w - q.w);
    } else {
      PositiveProduct(q.x - p.x, q.w - p.w);
      assert (q.x - p.x) * (q.w - p.w) == (p.x - q.x) * (p.w - q.w);
    }
    CrossGrows(m, q, p);
  }

  /** A new point adds its own product to the cross terms. */
  lemma CrossGrows(m: Moments, q: Point, p: Point)
    ensures var n := Next(m, q);
      n.dot + n.count * (p.x * p.w) - p.x * n.weight - p.w * n.sum ==
      m.dot + m.count * (p.x * p.w) - p.x * m.weight - p.w * m.sum + (p.x - q.x) * (p.w - q.w)
  {
    assert (p.x - q.x) * (p.w - q.w) == p.x * p.w - p.x * q.w - p.w * q.x + q.x * q.w;
    assert (m.count + 1.0) * (p.x * p.w) == m.count * (p.x * p.w) + p.x * p.w;
  }

  lemma CrossStaysPositive(m: Moments, q: Point, p: Point)
    requires CrossPositive(m, p) && Consistent(p, q)
    ensures CrossPositive(Next(m, q), p)
  {
    if p.x != q.x {
      ProductSign(p.x - q.x, p.w - q.w);
    }
    CrossGrows(m, q, p);
  }

  lemma {:induction false} CrossPositiveAt(ps: seq<Point>, p: Point, i: nat)
    requires i < |ps| && StrictPair(p, ps[i]) && forall k :: 0 <= k < |ps| ==> Consistent(p, ps[k])
    ensures CrossPositive(MomentsOf(ps), p)
  {
    var n := |ps| - 1;
    if i == n {
      CrossTerms(ps[..n], p);
      CrossNextStrict(MomentsOf(ps[..n]), ps[n], p);
    } else {
      CrossPositiveAt(ps[..n], p, i);
      CrossStaysPositive(MomentsOf(ps[..n]), ps[n], p);
    }
  }

  ghost predicate StrictChebyshev(m: Moments) {
    m.count * m.dot > m.sum * m.weight
  }

  lemma StrictExpansion(n: real, dot: real, sx: real, sw: real, x: real, w: real)
    requires n * dot + (dot + n * (x * w) - x * sw - w * sx) > sx * sw
    ensures (n + 1.0) * (dot + x * w) > (sx + x) * (sw + w)
  {
    assert (n + 1.0) * (dot + x * w) == n * dot + n * (x * w) + dot + x * w;
    assert (sx + x) * (sw + w) == sx * sw + sx * w + x * sw + x * w;
  }

  lemma StrictByNew(m: Moments, p: Point)
    requires Chebyshev(m) && CrossPositive(m, p)
    ensures StrictChebyshev(Next(m, p))
  {
    StrictExpansion(m.count, m.dot, m.sum, m.weight, p.x, p.w);
  }

  lemma StrictByOld(m: Moments, p: Point)
    requires StrictChebyshev(m) && CrossSound(m, p)
    ensures StrictChebyshev(Next(m, p))
  {
    StrictExpansion(m.count, m.dot, m.sum, m.weight, p.x, p.w);
  }

  /** One strict pair makes the Chebyshev sum inequality strict. */
  lemma {:induction false} StrictChebyshevHolds(ps: seq<Point>, i: nat, j: nat)
    requires AllConsistent(ps) && i < j < |ps| && StrictPair(ps[j], ps[i])
    ensures StrictChebyshev(MomentsOf(ps))
  {
    var n := |ps| - 1;
    if j == n {
      ChebyshevHolds(ps[..n]);
      CrossPositiveAt(ps[..n], ps[n], i);
      StrictByNew(MomentsOf(ps[..n]), ps[n]);
    } else {
      StrictChebyshevHolds(ps[..n], i, j);
      CrossTerms(ps[..n], ps[n]);
      StrictByOld(MomentsOf(ps[..n]), ps[n]);
    }
  }

  ghost predicate HasStrictPair(ps: seq<Point>) {
    exists i, j :: 0 <= i < |ps| && 0 <= j < |ps| && StrictPair(ps[i], ps[j])
  }

  function MirrorAll(ps: seq<Point>): (qs: seq<Point>)
    ensures |qs| == |ps| && forall i :: 0 <= i < |ps| ==> qs[i] == Mirror(ps[i])
  {
    seq(|ps|, i requires 0 <= i < |ps| => Mirror(ps[i]))
  }

  lemma MirrorsConsistent(ps: seq<Point>)
    requires AllConsistent(ps) && !HasStrictPair(ps)
    ensures AllConsistent(MirrorAll(ps))
  {
    var qs := MirrorAll(ps);
    forall i, j | 0 <= i < |qs| && 0 <= j < |qs| ensures Consistent(qs[i], qs[j]) {
      assert Consistent(ps[i], ps[j]) && !StrictPair(ps[i], ps[j]);
      MirroredPair(ps[i], ps[j]);
    }
  }

  lemma MirroredPair(p: Point, q: Point)
    requires Consistent(p, q) && !StrictPair(p, q)
    ensures Consistent(Mirror(p), Mirror(q))
  {
  }

  /** Without one it is an equality: the mirrored points satisfy it too. */
  lemma NoStrictPair(ps: seq<Point>)
    requires AllConsistent(ps) && !HasStrictPair(ps)
    ensures !StrictChebyshev(MomentsOf(ps))
  {
    MirrorsConsistent(ps);
    NegatedMoments(ps, MirrorAll(ps));
    ChebyshevHolds(MirrorAll(ps));
    ChebyshevHolds(ps);
    BothWays(MomentsOf(ps));
  }

  lemma BothWays(m: Moments)
    requires Chebyshev(m) && Chebyshev(Negated(m))
    ensures !StrictChebyshev(m)
  {
    assert m.count * -m.dot == -(m.count * m.dot);
    NegateProduct(m.sum, m.weight);
  }

  lemma MeanAgainstPlain(m: Moments, value: real)
    requires m.count > 0.0 && IsMean(m, value)
    ensures value > m.sum / m.count <==> StrictChebyshev(m)
  {
    var scaled := value * m.count;
    assert scaled * m.weight == m.count * (value * m.weight);
    ScaleOrder(m.sum, scaled, m.weight, m.sum * m.weight, m.count * m.dot);
    QuotientTimes(m.sum, m.count);
    ScaleOrder(m.sum / m.count, value, m.count, m.sum, scaled);
  }

  lemma MeanExceedsExactly(ps: seq<Point>, value: real)
    requires AllConsistent(ps) && ps != [] && IsMean(MomentsOf(ps), value)
    ensures value > MomentsOf(ps).sum / |ps| as real <==> HasStrictPair(ps)
  {
    CountIsLength(ps);
    MeanAgainstPlain(MomentsOf(ps), value);
    StrictExactly(ps);
  }

  lemma StrictExactly(ps: seq<Point>)
    requires AllConsistent(ps)
    ensures StrictChebyshev(MomentsOf(ps)) <==> HasStrictPair(ps)
  {
    if HasStrictPair(ps) {
      var i, j :| 0 <= i < |ps| && 0 <= j < |ps| && StrictPair(ps[i], ps[j]);
      if i < j {
        StrictChebyshevHolds(ps, i, j);
      } else {
        StrictChebyshevHolds(ps, j, i);
      }
    } else {
      NoStrictPair(ps);
    }
  }

  /** The review of age `a` weighs more than that of age `b`: newer, and not itself down at the floor. */
  predicate WeighsMore(a: real, b: real, config: DecayConfig, halve: real -> real) {
    && a < b && b > 0.0
    && if a <= 0.0 then config.minWeight < 1.0
       else config.halfLifeDays > 0.0 && halve(a / config.halfLifeDays) > config.minWeight
  }

  lemma BelowOne(halve: real -> real, x: real)
    requires StrictlyHalves(halve) && x > 0.0
    ensures halve(x) < 1.0
  {
    assert halve(x) < halve(x / 2.0) <= 1.0;
  }

  lemma DivideStrict(a: real, b: real, d: real)
    requires 0.0 < a < b && d > 0.0
    ensures 0.0 < a / d < b / d
  {
    QuotientTimes(a, d);
    QuotientTimes(b, d);
    ScaleOrder(a / d, b / d, d, a, b);
    ScaleOrder(0.0, a / d, d, 0.0, a);
  }

  lemma WeightStrict(a: real, b: real, config: DecayConfig, halve: real -> real)
    requires StrictlyHalves(halve) && SaneFloor(config)
    ensures DecayWeight(b, config, halve) < DecayWeight(a, config, halve) <==> WeighsMore(a, b, config, halve)
  {
    if b <= a {
      WeightAntitone(b, a, config, halve);
    } else if b > 0.0 && config.halfLifeDays > 0.0 {
      if a > 0.0 {
        DivideStrict(a, b, config.halfLifeDays);
      } else {
        DivideStrict(b / 2.0, b, config.halfLifeDays);
        BelowOne(halve, b / config.halfLifeDays);
      }
    }
  }

  /** Somebody newer, and not down at the floor, rated strictly higher. */
  ghost predicate NewerIsHigher(reviews: seq<Review>, config: DecayConfig, halve: real -> real) {
    exists i, j :: 0 <= i < |reviews| && 0 <= j < |reviews| && reviews[i].rating > reviews[j].rating
      && WeighsMore(reviews[i].ageDays, reviews[j].ageDays, config, halve)
  }

  ghost predicate NewerIsLower(reviews: seq<Review>, config: DecayConfig, halve: real -> real) {
    exists i, j :: 0 <= i < |reviews| && 0 <= j < |reviews| && reviews[i].rating < reviews[j].rating
      && WeighsMore(reviews[i].ageDays, reviews[j].ageDays, config, halve)
  }

  lemma PairsAreReviews(reviews: seq<Review>, config: DecayConfig, halve: real -> real)
    requires StrictlyHalves(halve) && SaneFloor(config)
    ensures HasStrictPair(Points(reviews, config, halve)) <==> NewerIsHigher(reviews, config, halve)
  {
    var ps := Points(reviews, config, halve);
    if HasStrictPair(ps) {
      var i, j :| 0 <= i < |ps| && 0 <= j < |ps| && StrictPair(ps[i], ps[j]);
      WeightStrict(reviews[i].ageDays, reviews[j].ageDays, config, halve);
      WeightStrict(reviews[j].ageDays, reviews[i].ageDays, config, halve);
    }
    if NewerIsHigher(reviews, config, halve) {
      var i, j :| 0 <= i < |reviews| && 0 <= j < |reviews| && reviews[i].rating > reviews[j].rating
        && WeighsMore(reviews[i].ageDays, reviews[j].ageDays, config, halve);
      WeightStrict(reviews[i].ageDays, reviews[j].ageDays, config, halve);
      assert StrictPair(ps[i], ps[j]);
    }
  }

  /**
   If newer reviews are rated no lower, the weighted average is above the plain one exactly if somebody newer,
   and not down at the floor, rated strictly higher.
   */
  lemma ImprovingRaisesStrictly(reviews: seq<Review>, config: DecayConfig, halve: real -> real, value: real)
    requires StrictlyHalves(halve) && SaneFloor(config) && Improving(reviews)
    requires reviews != [] && IsWeightedMean(value, reviews, config, halve)
    ensures value > PlainAverage(reviews) <==> NewerIsHigher(reviews, config, halve)
  {
    ImprovingIsConsistent(reviews, config, halve);
    PlainAverageIs(reviews, config, halve);
    MeanExceedsExactly(Points(reviews, config, halve), value);
    PairsAreReviews(reviews, config, halve);
  }

  lemma FlippedPairs(reviews: seq<Review>, config: DecayConfig, halve: real -> real)
    ensures NewerIsHigher(Flip(reviews), config, halve) <==> NewerIsLower(reviews, config, halve)
  {
    var flipped := Flip(reviews);
    if NewerIsHigher(flipped, config, halve) {
      var i, j :| 0 <= i < |flipped| && 0 <= j < |flipped| && flipped[i].rating > flipped[j].rating
        && WeighsMore(flipped[i].ageDays, flipped[j].ageDays, config, halve);
      assert reviews[i].rating < reviews[j].rating;
    }
    if NewerIsLower(reviews, config, halve) {
      var i, j :| 0 <= i < |reviews| && 0 <= j < |reviews| && reviews[i].rating < reviews[j].rating
        && WeighsMore(reviews[i].ageDays, reviews[j].ageDays, config, halve);
      assert flipped[i].rating > flipped[j].rating;
    }
  }

  /** If newer reviews are rated no higher, it stays below exactly if somebody newer rated lower. */
  lemma DecliningLowersStrictly(reviews: seq<Review>, config: DecayConfig, halve: real -> real, value: real)
    requires StrictlyHalves(halve) && SaneFloor(config) && Declining(reviews)
    requires reviews != [] && IsWeightedMean(value, reviews, config, halve)
    ensures value < PlainAverage(reviews) <==> NewerIsLower(reviews, config, halve)
  {
    FlippedMean(reviews, config, halve, value);
    FlippedAverage(reviews);
    ImprovingRaisesStrictly(Flip(reviews), config, halve, -value);
    FlippedPairs(reviews, config, halve);
  }
}
