/**
 How much each single input moves the trust scores, and what the tiers ask for in numbers.
 Together the laws of a dimension determine its score.
 */
module ScoreLaws {
  import opened Basics
  import opened Wrappers
  import opened TrustScore
  import opened CancelledContracts

  // ----- feedback -----

  /** Nothing but the rating and the number of reviews. */
  function Plain(f: FeedbackInput): FeedbackInput {
    f.(fiveStars := 0, oneStars := 0, trend := 0.0, disputesLost := 0)
  }

  /** A rating between 1 and 5, on the scale 0 to 1. */
  function OnUnitScale(rating: real): real {
    if rating <= 1.0 then 0.0 else if rating >= 5.0 then 1.0 else (rating - 1.0) / 4.0
  }

  /** The score is the rating averaged with five neutral reviews more than there are. */
  lemma FiveNeutralReviews(f: FeedbackInput)
    requires f.totalReviews > 0
    ensures var n := f.totalReviews as real;
      var rating := if f.weightedAverage.Some? then f.weightedAverage.value else f.averageRating;
      FeedbackScore(Plain(f)) * (n + 5.0) == n * OnUnitScale(rating) + 5.0 * 0.5
  {
    var n, rating := f.totalReviews as real, EffectiveRating(f);
    var x, c := OnUnitScale(rating), Confidence(f.totalReviews);
    QuotientTimes(n, n + 5.0);
    ConfidenceRange(f.totalReviews);
    assert Clamp((rating - 1.0) / 4.0, 0.0, 1.0) == x;
    PlainScore(f);
    Blend(x, c, n);
  }

  lemma NoPlainAdjustment(f: FeedbackInput)
    requires f.totalReviews > 0
    ensures DistributionBonus(0, f.totalReviews) == 0.0 && DistributionPenalty(0, f.totalReviews) == 0.0
  {
    PositiveRatio(0, f.totalReviews);
  }

  /** The rating blended with the neutral prior. */
  function Blended(f: FeedbackInput): real {
    BaseScore(EffectiveRating(f), Confidence(f.totalReviews))
  }

  lemma BlendRange(x: real, c: real)
    requires 0.0 <= x <= 1.0 && 0.0 <= c <= 1.0
    ensures 0.0 <= 0.5 * (1.0 - c) + x * c <= 1.0
  {
    ProductRange(x, c);
    BlendBound(x * c, c);
  }

  lemma BlendBound(p: real, c: real)
    requires 0.0 <= p <= c <= 1.0
    ensures 0.0 <= 0.5 * (1.0 - c) + p <= 1.0
  {
  }

  lemma ProductRange(x: real, c: real)
    requires 0.0 <= x <= 1.0 && 0.0 <= c
    ensures 0.0 <= x * c <= c
  {
    ScaleMonotone(x, 1.0, c);
  }

  lemma PlainScore(f: FeedbackInput)
    requires f.totalReviews > 0
    ensures FeedbackScore(Plain(f)) == Blended(f)
  {
    NoPlainAdjustment(f);
    ConfidenceRange(f.totalReviews);
    BlendRange(Clamp((EffectiveRating(f) - 1.0) / 4.0, 0.0, 1.0), Confidence(f.totalReviews));
  }

  lemma Blend(x: real, c: real, n: real)
    requires c * (n + 5.0) == n
    ensures (0.5 * (1.0 - c) + x * c) * (n + 5.0) == n * x + 5.0 * 0.5
  {
    assert (x * c) * (n + 5.0) == x * (c * (n + 5.0));
    assert (0.5 * (1.0 - c)) * (n + 5.0) == 0.5 * (n + 5.0) - 0.5 * (c * (n + 5.0));
  }

  /** A fortieth of the trend, at most 0.05 either way. */
  predicate TrendMoves(trend: real, amount: real) {
    if trend >= 2.0 then amount == 0.05 else if trend <= -2.0 then amount == -0.05 else 40.0 * amount == trend
  }

  /** A quarter of the share of five-star reviews above 60%, at most 0.05. */
  predicate FiveStarsGive(five: int, n: int, amount: real) {
    if 10 * five <= 6 * n then amount == 0.0
    else if 10 * five >= 8 * n then amount == 0.05
    else 40.0 * (amount * n as real) == (10 * five - 6 * n) as real
  }

  /** Half of the share of one-star reviews above 20%, at most 0.15. */
  predicate OneStarsCost(one: int, n: int, amount: real) {
    if 10 * one <= 2 * n then amount == 0.0
    else if 10 * one >= 5 * n then amount == 0.15
    else 20.0 * (amount * n as real) == (10 * one - 2 * n) as real
  }

  /** A twentieth each, for at most six. */
  predicate DisputesCost(lost: int, amount: real) {
    20.0 * amount == (if lost >= 6 then 6 else lost) as real
  }

  lemma TrendLaw(trend: real)
    ensures TrendMoves(trend, Clamp(trend * 0.025, -0.05, 0.05))
  {
  }

  lemma ShareAgainst(a: int, n: int, share: real, scaled: real)
    requires n > 0 && scaled == share * n as real
    ensures Ratio(a, n) > share <==> a as real > scaled
    ensures Ratio(a, n) >= share <==> a as real >= scaled
  {
    QuotientTimes(a as real, n as real);
    ScaleOrder(share, Ratio(a, n), n as real, scaled, a as real);
    ScaleOrder(Ratio(a, n), share, n as real, a as real, scaled);
  }

  lemma FiveStarLaw(five: int, n: int)
    requires n > 0
    ensures FiveStarsGive(five, n, DistributionBonus(five, n))
  {
    ShareAgainst(five, n, 0.6, 0.6 * n as real);
    ShareAgainst(five, n, 0.8, 0.8 * n as real);
    QuotientTimes(five as real, n as real);
    var r := Ratio(five, n);
    assert 40.0 * ((r - 0.6) * 0.25 * n as real) == 10.0 * (r * n as real) - 6.0 * n as real;
  }

  lemma OneStarLaw(one: int, n: int)
    requires n > 0
    ensures OneStarsCost(one, n, DistributionPenalty(one, n))
  {
    ShareAgainst(one, n, 0.2, 0.2 * n as real);
    ShareAgainst(one, n, 0.5, 0.5 * n as real);
    QuotientTimes(one as real, n as real);
    var r := Ratio(one, n);
    assert 20.0 * ((r - 0.2) * 0.5 * n as real) == 10.0 * (r * n as real) - 2.0 * n as real;
  }

  lemma DisputeLaw(lost: int)
    ensures DisputesCost(lost, Min(lost as real * 0.05, 0.3))
  {
  }

  /** The four adjustments just add up, within 0 and 1; without reviews the score is a half. */
  lemma FeedbackAddsUp(f: FeedbackInput) returns (trend: real, bonus: real, disputes: real, penalty: real)
    requires f.totalReviews >= 0
    ensures f.totalReviews == 0 ==> FeedbackScore(f) == 0.5
    ensures f.totalReviews > 0 ==>
      && TrendMoves(f.trend, trend) && FiveStarsGive(f.fiveStars, f.totalReviews, bonus)
      && DisputesCost(f.disputesLost, disputes) && OneStarsCost(f.oneStars, f.totalReviews, penalty)
      && FeedbackScore(f) == Unit(FeedbackScore(Plain(f)) + trend + bonus - disputes - penalty)
  {
    trend, bonus := Clamp(f.trend * 0.025, -0.05, 0.05), DistributionBonus(f.fiveStars, f.totalReviews);
    disputes, penalty := Min(f.disputesLost as real * 0.05, 0.3), DistributionPenalty(f.oneStars, f.totalReviews);
    if f.totalReviews > 0 {
      TrendLaw(f.trend);
      FiveStarLaw(f.fiveStars, f.totalReviews);
      DisputeLaw(f.disputesLost);
      OneStarLaw(f.oneStars, f.totalReviews);
      PlainScore(f);
      AdjustedScore(f, trend, bonus, disputes, penalty);
    }
  }

  lemma AdjustedScore(f: FeedbackInput, trend: real, bonus: real, disputes: real, penalty: real)
    requires f.totalReviews > 0
    requires trend == Clamp(f.trend * 0.025, -0.05, 0.05) && bonus == DistributionBonus(f.fiveStars, f.totalReviews)
    requires disputes == Min(f.disputesLost as real * 0.05, 0.3)
    requires penalty == DistributionPenalty(f.oneStars, f.totalReviews)
    ensures FeedbackScore(f) == Unit(Blended(f) + trend + bonus - disputes - penalty)
  {
  }

  // ----- volume -----

  function AtMost(n: int, target: int): int {
    if n < 0 then 0 else if n > target then target else n
  }

  /** Up to ten recent jobs count 0.02 each, up to five repeat customers 0.03 each, on top of everything else. */
  lemma CountsGive(v: VolumeInput, log1p: int -> real)
    requires Logarithmic(log1p)
    ensures VolumeScore(v, log1p) - VolumeScore(v.(recent := 0), log1p) == 0.02 * AtMost(v.recent, 10) as real
    ensures VolumeScore(v, log1p) - VolumeScore(v.(repeatCustomers := 0), log1p)
      == 0.03 * AtMost(v.repeatCustomers, 5) as real
  {
    VolumeAddsUp(v, log1p);
    VolumeAddsUp(v.(recent := 0), log1p);
    VolumeAddsUp(v.(repeatCustomers := 0), log1p);
    LinearLaw(v.recent, 10);
    LinearLaw(v.repeatCustomers, 5);
  }

  lemma LinearLaw(n: int, target: int)
    requires target > 0
    ensures LinearComponent(n, target as real) * target as real == AtMost(n, target) as real
  {
    QuotientTimes(n as real, target as real);
    ScaleOrder(1.0, n as real / target as real, target as real, target as real, n as real);
  }

  /** `amount` is nothing without jobs, `most` from fifty on, and in between `most` times log1p(jobs) / log1p(50). */
  predicate GrowsWithJobs(amount: real, most: real, completed: nat, log1p: int -> real) {
    && (completed == 0 ==> amount == 0.0)
    && (completed >= 50 ==> amount == most)
    && (0 < completed <= 50 ==> amount * log1p(50) == most * log1p(completed))
  }

  lemma JobsLaw(completed: nat, log1p: int -> real)
    requires Logarithmic(log1p)
    ensures GrowsWithJobs(JobsComponent(completed, log1p), 1.0, completed, log1p)
  {
    if completed > 0 {
      var part, full := log1p(completed), log1p(50);
      assert if completed >= 50 then full <= part else part <= full;
      QuotientTimes(part, full);
      ScaleOrder(1.0, part / full, full, full, part);
      ScaleOrder(part / full, 1.0, full, part, full);
    }
  }

  lemma FourTenths(part: real, completed: nat, log1p: int -> real)
    requires GrowsWithJobs(part, 1.0, completed, log1p)
    ensures GrowsWithJobs(part * 0.40, 0.40, completed, log1p)
  {
    assert (part * 0.40) * log1p(50) == 0.40 * (part * log1p(50));
  }

  /** Completed jobs give up to 0.40, on a logarithmic scale that is full at fifty. */
  lemma JobsGive(v: VolumeInput, log1p: int -> real)
    requires Logarithmic(log1p) && v.completed >= 0
    ensures GrowsWithJobs(
      VolumeScore(v, log1p) - VolumeScore(v.(completed := 0), log1p), 0.40, v.completed, log1p)
  {
    JobsLaw(v.completed, log1p);
    FourTenths(JobsComponent(v.completed, log1p), v.completed, log1p);
    JobsGain(v, log1p);
  }

  lemma JobsGain(v: VolumeInput, log1p: int -> real)
    requires Logarithmic(log1p) && v.completed >= 0
    ensures VolumeScore(v, log1p) - VolumeScore(v.(completed := 0), log1p) == JobsComponent(v.completed, log1p) * 0.40
  {
    VolumeAddsUp(v, log1p);
    VolumeAddsUp(v.(completed := 0), log1p);
  }

  /** The completion rate gives 0.15 of itself; a known response time gives between 0.10 and 0, an unknown one 0.05. */
  lemma RatesGive(v: VolumeInput, log1p: int -> real)
    requires Logarithmic(log1p)
    ensures VolumeScore(v, log1p) - VolumeScore(v.(completionRate := 0.0), log1p) == 0.15 * Unit(v.completionRate)
    ensures var gain := VolumeScore(v, log1p) - VolumeScore(v.(responseHours := 24.0), log1p);
      if v.responseHours <= 0.0 then gain == 0.05
      else if v.responseHours >= 24.0 then gain == 0.0
      else 240.0 * gain == 24.0 - v.responseHours
  {
    VolumeAddsUp(v, log1p);
    VolumeAddsUp(v.(completionRate := 0.0), log1p);
    VolumeAddsUp(v.(responseHours := 24.0), log1p);
    if 0.0 < v.responseHours < 24.0 {
      DivideMonotone(0.0, v.responseHours, 24.0);
    }
  }

  /** From nothing at all. */
  lemma NothingGives(log1p: int -> real)
    requires Logarithmic(log1p)
    ensures VolumeScore(VolumeInput(0, 0, 0, 0.0, 24.0), log1p) == 0.0
  {
  }

  lemma VolumeAddsUp(v: VolumeInput, log1p: int -> real)
    requires Logarithmic(log1p)
    ensures VolumeScore(v, log1p) == OtherVolume(v, log1p) + Unit(v.completionRate) * 0.15
  {
    var w := v.(completionRate := Unit(v.completionRate));
    VolumeIsSum(w, log1p);
    assert VolumeScore(w, log1p) == VolumeScore(v, log1p);
  }

  // ----- risk and fraud -----

  /** What incidents of one kind cost by themselves. */
  lemma SingleIncidents(n: int, k: nat)
    requires n > 0
    ensures 4 * k >= n ==> RiskScore(RiskInput(n, k, 0, 0, 0)) == 0.5
    ensures 4 * k <= n ==> (1.0 - RiskScore(RiskInput(n, k, 0, 0, 0))) * n as real == 2.0 * k as real
    ensures 6 * k >= n ==> RiskScore(RiskInput(n, 0, k, 0, 0)) == 0.5
    ensures 6 * k <= n ==> (1.0 - RiskScore(RiskInput(n, 0, k, 0, 0))) * n as real == 3.0 * k as real
    ensures RiskScore(RiskInput(n, 0, 0, k, 0)) == if k >= 3 then 0.6 else 1.0 - 0.15 * k as real
    ensures RiskScore(RiskInput(n, 0, 0, 0, k)) == if k >= 4 then 0.7 else 1.0 - 0.08 * k as real
  {
    PositiveRatio(0, n);
    PositiveRatio(k, n);
    AgainstQuarter(k, n);
    AgainstSixth(k, n);
    QuotientTimes(k as real, n as real);
    assert (Ratio(k, n) * 2.0) * n as real == 2.0 * (Ratio(k, n) * n as real);
    assert (Ratio(k, n) * 3.0) * n as real == 3.0 * (Ratio(k, n) * n as real);
  }

  /** Kinds of incidents add up, down to 0. */
  lemma IncidentsAddUp(r: RiskInput)
    requires Consistent(r) && r.contracts > 0
    ensures var n := r.contracts;
      RiskScore(r) == Max(
        RiskScore(RiskInput(n, r.cancellations, 0, 0, 0)) + RiskScore(RiskInput(n, 0, r.disputes, 0, 0))
        + RiskScore(RiskInput(n, 0, 0, r.noShows, 0)) + RiskScore(RiskInput(n, 0, 0, 0, r.lateDeliveries)) - 3.0,
        0.0)
  {
    PositiveRatio(0, r.contracts);
    PositiveRatio(r.cancellations, r.contracts);
    PositiveRatio(r.disputes, r.contracts);
  }

  /** A tenth for each of up to five signals, and 0.3 for active flags however many. */
  lemma FraudLaw(f: FraudInput)
    requires f.signals >= 0
    ensures 10.0 * FraudScore(f) == 10.0 - AtMost(f.signals, 5) as real - if f.activeFlags > 0 then 3.0 else 0.0
  {
  }

  /** In hundredths: 35 for feedback, 20 for volume, 25 for risk, 20 for fraud. */
  lemma OverallLaw(u: User, log1p: int -> real)
    requires log1p(50) > 0.0
    ensures 100.0 * Overall(u, log1p) ==
      35.0 * FeedbackScore(u.feedback) + 20.0 * VolumeScore(u.volume, log1p)
      + 25.0 * RiskScore(u.risk) + 20.0 * FraudScore(u.fraud)
  {
    CompositeIsWeightedSum(u, log1p);
  }

  // ----- tiers -----

  /** A user is under review exactly while a fraud flag is active. */
  lemma UnderReviewExactly(u: User, log1p: int -> real)
    requires log1p(50) > 0.0
    ensures TierOf(u, log1p) == UnderReview <==> u.fraud.activeFlags > 0
  {
  }

  /** What each tier asks for, in numbers: overall score, completed jobs, reviews, average rating and verification. */
  predicate Reaches(t: Tier, s: Standing) {
    match t
    case TopRated => s.score >= 0.85 && s.jobs >= 25 && s.reviews >= 15 && s.rating >= 4.5 && s.verified
    case Trusted => s.score >= 0.70 && s.jobs >= 10 && s.reviews >= 5 && s.rating >= 4.0 && s.verified
    case Rising => s.score >= 0.50 && s.jobs >= 3 && s.reviews >= 2
    case New => true
    case UnderReview => false
  }

  /** Once the last flag is cleared the tier is the greatest the user reaches. */
  lemma ClearedFlagsRestore(u: User, log1p: int -> real, t: Tier)
    requires log1p(50) > 0.0
    ensures var cleared := u.(fraud := u.fraud.(activeFlags := 0)); var s := StandingOf(cleared, log1p);
      t == TierOf(cleared, log1p) <==> Reaches(t, s) && forall o :: Reaches(o, s) ==> o == t || Above(t, o)
  {
    var cleared := u.(fraud := u.fraud.(activeFlags := 0));
    var s, d := StandingOf(cleared, log1p), TierOf(cleared, log1p);
    assert Reaches(d, s) && forall o :: Reaches(o, s) ==> o == d || Above(d, o);
  }

  predicate Above(t: Tier, o: Tier) {
    match t
    case TopRated => o != TopRated
    case Trusted => o == Rising || o == New
    case Rising => o == New
    case _ => false
  }

  /** The standing is what the four dimensions and the counts say; the job count stops at the largest 32-bit number. */
  lemma StandingIs(u: User, log1p: int -> real)
    requires log1p(50) > 0.0
    ensures var s := StandingOf(u, log1p);
      && s.score == Overall(u, log1p) && s.verified == u.verified
      && s.jobs == (if u.volume.completed < 0x8000_0000 then u.volume.completed else 0x7FFF_FFFF)
      && s.reviews == u.feedback.totalReviews && s.rating == u.feedback.averageRating
  {
  }
}
