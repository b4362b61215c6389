/**
 The four trust dimensions, the composite score and the tier cascade, over reals.
 `log1p` stands for ln(1 + n) in the volume dimension: it is known only not to decrease,
 not to be negative, and to be positive at 50.
 */
module TrustScore {
  import opened Basics
  import opened Wrappers

  datatype FeedbackInput = FeedbackInput(
    averageRating: real,
    weightedAverage: Option<real>,
    totalReviews: int,
    fiveStars: int,
    oneStars: int,
    trend: real,
    disputesLost: int)

  datatype VolumeInput = VolumeInput(
    completed: int,
    recent: int,
    repeatCustomers: int,
    completionRate: real,
    responseHours: real)

  datatype RiskInput = RiskInput(
    contracts: int,
    cancellations: int,
    disputes: int,
    noShows: int,
    lateDeliveries: int)

  datatype FraudInput = FraudInput(signals: int, activeFlags: int)

  ghost predicate Logarithmic(log1p: int -> real) {
    && (forall a, b :: 0 <= a <= b ==> 0.0 <= log1p(a) <= log1p(b))
    && log1p(50) > 0.0
  }

  function Min(a: real, b: real): real {
    if a < b then a else b
  }

  function Clamp(x: real, low: real, high: real): real
    requires low <= high
  {
    if x < low then low else if x > high then high else x
  }

  function Ratio(a: int, b: int): real
    requires b > 0
  {
    a as real / b as real
  }

  // ----- feedback -----

  function Confidence(reviews: int): real {
    var n := if reviews > 0 then reviews as real else 0.0;
    n / (n + 5.0)
  }

  function EffectiveRating(f: FeedbackInput): real {
    if f.weightedAverage.Some? then f.weightedAverage.value else f.averageRating
  }

  function BaseScore(rating: real, confidence: real): real {
    0.5 * (1.0 - confidence) + Clamp((rating - 1.0) / 4.0, 0.0, 1.0) * confidence
  }

  function DistributionPenalty(oneStars: int, reviews: int): real {
    var ratio := if reviews > 0 then Ratio(oneStars, reviews) else 0.0;
    if ratio > 0.2 then Min((ratio - 0.2) * 0.5, 0.15) else 0.0
  }

  function DistributionBonus(fiveStars: int, reviews: int): real {
    var ratio := if reviews > 0 then Ratio(fiveStars, reviews) else 0.0;
    if ratio > 0.6 then Min((ratio - 0.6) * 0.25, 0.05) else 0.0
  }

  function FeedbackScore(f: FeedbackInput): (score: real)
    ensures 0.0 <= score <= 1.0
  {
    if f.totalReviews == 0 then 0.5
    else
      Clamp(
        BaseScore(EffectiveRating(f), Confidence(f.totalReviews))
        + Clamp(f.trend * 0.025, -0.05, 0.05)
        + DistributionBonus(f.fiveStars, f.totalReviews)
        - Min(f.disputesLost as real * 0.05, 0.3)
        - DistributionPenalty(f.oneStars, f.totalReviews),
        0.0, 1.0)
  }

  // ----- volume -----

  function JobsComponent(completed: int, log1p: int -> real): real
    requires log1p(50) > 0.0
  {
    if completed <= 0 then 0.0 else Min(log1p(completed) / log1p(50), 1.0)
  }

  function LinearComponent(n: int, target: real): real
    requires target > 0.0
  {
    if n <= 0 then 0.0 else Min(n as real / target, 1.0)
  }

  function ResponseComponent(hours: real): real {
    if hours <= 0.0 then 0.5 else Clamp(1.0 - hours / 24.0, 0.0, 1.0)
  }

  function VolumeScore(v: VolumeInput, log1p: int -> real): (score: real)
    requires log1p(50) > 0.0
    ensures 0.0 <= score <= 1.0
  {
    Clamp(
      JobsComponent(v.completed, log1p) * 0.40
      + LinearComponent(v.recent, 10.0) * 0.20
      + LinearComponent(v.repeatCustomers, 5.0) * 0.15
      + Clamp(v.completionRate, 0.0, 1.0) * 0.15
      + ResponseComponent(v.responseHours) * 0.10,
      0.0, 1.0)
  }

  // ----- risk and fraud -----

  function RiskScore(r: RiskInput): (score: real)
    ensures 0.0 <= score <= 1.0
  {
    if r.contracts <= 0 then 1.0
    else
      Clamp(
        1.0
        - Min(Ratio(r.cancellations, r.contracts) * 2.0, 0.5)
        - Min(Ratio(r.disputes, r.contracts) * 3.0, 0.5)
        - Min(r.noShows as real * 0.15, 0.4)
        - Min(r.lateDeliveries as real * 0.08, 0.3),
        0.0, 1.0)
  }

  function FraudScore(f: FraudInput): (score: real)
    ensures 0.0 <= score <= 1.0
  {
    Clamp(1.0 - Min(f.signals as real * 0.1, 0.5) - (if f.activeFlags > 0 then 0.3 else 0.0), 0.0, 1.0)
  }

  // ----- composite and tier -----

  function WeightedSum(feedback: real, volume: real, risk: real, fraud: real): real {
    feedback * 0.35 + volume * 0.20 + risk * 0.25 + fraud * 0.20
  }

  function Composite(feedback: real, volume: real, risk: real, fraud: real): (score: real)
    ensures 0.0 <= score <= 1.0
  {
    Clamp(WeightedSum(feedback, volume, risk, fraud), 0.0, 1.0)
  }

  datatype Tier = UnderReview | New | Rising | Trusted | TopRated

  function Rank(t: Tier): int {
    match t
    case UnderReview => 0
    case New => 1
    case Rising => 2
    case Trusted => 3
    case TopRated => 4
  }

  datatype Requirement = Requirement(score: real, jobs: int, reviews: int, rating: real, verification: bool)

  /** The requirement table, by tier. */
  function RequirementOf(t: Tier): Requirement {
    match t
    case UnderReview => Requirement(0.0, 0, 0, 0.0, false)
    case New => Requirement(0.0, 0, 0, 0.0, false)
    case Rising => Requirement(0.50, 3, 2, 0.0, false)
    case Trusted => Requirement(0.70, 10, 5, 4.0, true)
    case TopRated => Requirement(0.85, 25, 15, 4.5, true)
  }

  /** What the cascade looks at, besides the flags. */
  datatype Standing = Standing(score: real, jobs: int, reviews: int, rating: real, verified: bool)

  /** All five columns of a requirement row. */
  predicate Meets(s: Standing, r: Requirement) {
    && s.score >= r.score && s.jobs >= r.jobs && s.reviews >= r.reviews && s.rating >= r.rating
    && (!r.verification || s.verified)
  }

  /** The cascade, highest tier first. It does not compare the rating for `Rising`. */
  function DetermineTier(s: Standing, activeFlags: int): Tier {
    var top, trusted, rising := RequirementOf(TopRated), RequirementOf(Trusted), RequirementOf(Rising);
    if activeFlags > 0 then UnderReview
    else if s.score >= top.score && s.jobs >= top.jobs && s.reviews >= top.reviews
      && s.rating >= top.rating && (!top.verification || s.verified) then TopRated
    else if s.score >= trusted.score && s.jobs >= trusted.jobs && s.reviews >= trusted.reviews
      && s.rating >= trusted.rating && (!trusted.verification || s.verified) then Trusted
    else if s.score >= rising.score && s.jobs >= rising.jobs && s.reviews >= rising.reviews
      && (!rising.verification || s.verified) then Rising
    else New
  }

  /** Counts and averages as the queries produce them. */
  predicate Measured(s: Standing) {
    s.score >= 0.0 && s.jobs >= 0 && s.reviews >= 0 && s.rating >= 0.0
  }

  /** For an unflagged user the cascade finds the greatest tier whose whole row is met. */
  lemma CascadeIsGreatest(s: Standing, activeFlags: int, t: Tier)
    requires Measured(s) && activeFlags <= 0
    ensures t == DetermineTier(s, activeFlags) <==>
      Meets(s, RequirementOf(t)) && forall o :: Meets(s, RequirementOf(o)) ==> Rank(o) <= Rank(t)
  {
    var d := DetermineTier(s, activeFlags);
    assert Meets(s, RequirementOf(d));
    forall o | Meets(s, RequirementOf(o)) ensures Rank(o) <= Rank(d) {
    }
  }

  predicate StandingAtLeast(b: Standing, a: Standing) {
    && b.score >= a.score && b.jobs >= a.jobs && b.reviews >= a.reviews && b.rating >= a.rating
    && (a.verified ==> b.verified)
  }

  lemma TierMonotone(a: Standing, b: Standing, flagsA: int, flagsB: int)
    requires StandingAtLeast(b, a) && flagsB <= flagsA
    ensures Rank(DetermineTier(a, flagsA)) <= Rank(DetermineTier(b, flagsB))
  {
  }

  // ----- a user end to end -----

  datatype User = User(feedback: FeedbackInput, volume: VolumeInput, risk: RiskInput, fraud: FraudInput, verified: bool)

  function Overall(u: User, log1p: int -> real): (score: real)
    requires log1p(50) > 0.0
    ensures 0.0 <= score <= 1.0
  {
    Composite(FeedbackScore(u.feedback), VolumeScore(u.volume, log1p), RiskScore(u.risk), FraudScore(u.fraud))
  }

  /** The job count is stored saturated at the largest i32. */
  function SaturatingI32(n: int): int {
    if n > 0x7FFF_FFFF then 0x7FFF_FFFF else n
  }

  function StandingOf(u: User, log1p: int -> real): Standing
    requires log1p(50) > 0.0
  {
    Standing(
      Overall(u, log1p), SaturatingI32(u.volume.completed),
      u.feedback.totalReviews, u.feedback.averageRating, u.verified)
  }

  function TierOf(u: User, log1p: int -> real): Tier
    requires log1p(50) > 0.0
  {
    DetermineTier(StandingOf(u, log1p), u.fraud.activeFlags)
  }

  /** Same number of reviews; ratings, trend and shares of stars no worse; no more disputes lost. */
  predicate FeedbackAtLeast(b: FeedbackInput, a: FeedbackInput) {
    && b.totalReviews == a.totalReviews
    && b.averageRating >= a.averageRating
    && EffectiveRating(b) >= EffectiveRating(a)
    && b.fiveStars >= a.fiveStars && b.oneStars <= a.oneStars
    && b.trend >= a.trend
    && b.disputesLost <= a.disputesLost
  }

  /** An unknown response time (0 or less) is only comparable with itself. */
  predicate VolumeAtLeast(b: VolumeInput, a: VolumeInput) {
    && b.completed >= a.completed && b.recent >= a.recent && b.repeatCustomers >= a.repeatCustomers
    && b.completionRate >= a.completionRate
    && (b.responseHours == a.responseHours || 0.0 < b.responseHours <= a.responseHours)
  }

  predicate RiskAtMost(b: RiskInput, a: RiskInput) {
    && b.contracts == a.contracts
    && b.cancellations <= a.cancellations && b.disputes <= a.disputes
    && b.noShows <= a.noShows && b.lateDeliveries <= a.lateDeliveries
  }

  predicate FraudAtMost(b: FraudInput, a: FraudInput) {
    b.signals <= a.signals && b.activeFlags <= a.activeFlags
  }

  predicate AtLeastAsGood(b: User, a: User) {
    && FeedbackAtLeast(b.feedback, a.feedback)
    && VolumeAtLeast(b.volume, a.volume)
    && RiskAtMost(b.risk, a.risk)
    && FraudAtMost(b.fraud, a.fraud)
    && (a.verified ==> b.verified)
  }

  lemma RatioMonotone(a: int, b: int, n: int)
    requires a <= b && n > 0
    ensures Ratio(a, n) <= Ratio(b, n)
  {
    DivideMonotone(a as real, b as real, n as real);
  }

  lemma ConfidenceRange(n: int)
    ensures 0.0 <= Confidence(n) < 1.0
  {
  }

  lemma BaseMonotone(r: real, t: real, confidence: real)
    requires r <= t && confidence >= 0.0
    ensures BaseScore(r, confidence) <= BaseScore(t, confidence)
  {
    DivideMonotone(r - 1.0, t - 1.0, 4.0);
    ScaleMonotone(Clamp((r - 1.0) / 4.0, 0.0, 1.0), Clamp((t - 1.0) / 4.0, 0.0, 1.0), confidence);
  }

  lemma DistributionMonotone(low: int, high: int, n: int)
    requires low <= high
    ensures DistributionPenalty(low, n) <= DistributionPenalty(high, n)
    ensures DistributionBonus(low, n) <= DistributionBonus(high, n)
  {
    if n > 0 {
      RatioMonotone(low, high, n);
    }
  }

  lemma FeedbackMonotone(a: FeedbackInput, b: FeedbackInput)
    requires FeedbackAtLeast(b, a)
    ensures FeedbackScore(a) <= FeedbackScore(b)
  {
    var n := a.totalReviews;
    DistributionMonotone(b.oneStars, a.oneStars, n);
    DistributionMonotone(a.fiveStars, b.fiveStars, n);
    ConfidenceRange(n);
    BaseMonotone(EffectiveRating(a), EffectiveRating(b), Confidence(n));
  }

  lemma VolumeMonotone(a: VolumeInput, b: VolumeInput, log1p: int -> real)
    requires Logarithmic(log1p) && VolumeAtLeast(b, a)
    ensures VolumeScore(a, log1p) <= VolumeScore(b, log1p)
  {
    if a.completed > 0 {
      DivideMonotone(log1p(a.completed), log1p(b.completed), log1p(50));
    } else if b.completed > 0 {
      DivideMonotone(0.0, log1p(b.completed), log1p(50));
    }
    assert JobsComponent(a.completed, log1p) <= JobsComponent(b.completed, log1p);
  }

  lemma RiskMonotone(a: RiskInput, b: RiskInput)
    requires RiskAtMost(b, a)
    ensures RiskScore(a) <= RiskScore(b)
  {
    if a.contracts > 0 {
      RatioMonotone(b.cancellations, a.cancellations, a.contracts);
      RatioMonotone(b.disputes, a.disputes, a.contracts);
    }
  }

  lemma FraudMonotone(a: FraudInput, b: FraudInput)
    requires FraudAtMost(b, a)
    ensures FraudScore(a) <= FraudScore(b)
  {
  }

  /** Never worse in any input, never worse off: neither in overall score nor in tier. */
  lemma EndToEndMonotone(a: User, b: User, log1p: int -> real)
    requires Logarithmic(log1p) && AtLeastAsGood(b, a)
    ensures Overall(a, log1p) <= Overall(b, log1p)
    ensures Rank(TierOf(a, log1p)) <= Rank(TierOf(b, log1p))
  {
    FeedbackMonotone(a.feedback, b.feedback);
    VolumeMonotone(a.volume, b.volume, log1p);
    RiskMonotone(a.risk, b.risk);
    FraudMonotone(a.fraud, b.fraud);
    TierMonotone(StandingOf(a, log1p), StandingOf(b, log1p), a.fraud.activeFlags, b.fraud.activeFlags);
  }

  /** One more cancellation, dispute, no-show, late delivery, fraud signal or active flag, on the same contracts. */
  datatype Mishap = Cancellation | Dispute | NoShow | LateDelivery | FraudSignal | ActiveFlag

  function After(u: User, m: Mishap): User {
    match m
    case Cancellation => u.(risk := u.risk.(cancellations := u.risk.cancellations + 1))
    case Dispute => u.(risk := u.risk.(disputes := u.risk.disputes + 1))
    case NoShow => u.(risk := u.risk.(noShows := u.risk.noShows + 1))
    case LateDelivery => u.(risk := u.risk.(lateDeliveries := u.risk.lateDeliveries + 1))
    case FraudSignal => u.(fraud := u.fraud.(signals := u.fraud.signals + 1))
    case ActiveFlag => u.(fraud := u.fraud.(activeFlags := u.fraud.activeFlags + 1))
  }

  lemma MishapsNeverHelp(u: User, m: Mishap, log1p: int -> real)
    requires Logarithmic(log1p)
    ensures Overall(After(u, m), log1p) <= Overall(u, log1p)
    ensures Rank(TierOf(After(u, m), log1p)) <= Rank(TierOf(u, log1p))
  {
    EndToEndMonotone(After(u, m), u, log1p);
  }

  /** For scores of the four dimensions the clamp never fires: the composite is the plain weighted sum. */
  lemma CompositeIsWeightedSum(u: User, log1p: int -> real)
    requires log1p(50) > 0.0
    ensures Overall(u, log1p) ==
      WeightedSum(FeedbackScore(u.feedback), VolumeScore(u.volume, log1p), RiskScore(u.risk), FraudScore(u.fraud))
  {
  }

  /** Counts from a query are never negative. */
  predicate Counted(u: User) {
    u.risk.cancellations >= 0 && u.risk.disputes >= 0 && u.risk.noShows >= 0 && u.risk.lateDeliveries >= 0
    && u.fraud.signals >= 0 && u.fraud.activeFlags >= 0
  }

  lemma PositiveRatio(a: int, b: int)
    requires b > 0
    ensures a > 0 ==> Ratio(a, b) > 0.0
    ensures a == 0 ==> Ratio(a, b) == 0.0
  {
  }

  /** A perfect risk score means exactly: no contract yet, or no incident of any kind. */
  lemma PerfectRisk(u: User)
    requires Counted(u)
    ensures RiskScore(u.risk) == 1.0 <==>
      || u.risk.contracts <= 0
      || (u.risk.cancellations, u.risk.disputes, u.risk.noShows, u.risk.lateDeliveries) == (0, 0, 0, 0)
  {
    if u.risk.contracts > 0 {
      PositiveRatio(u.risk.cancellations, u.risk.contracts);
      PositiveRatio(u.risk.disputes, u.risk.contracts);
    }
  }

  /** Fraud never costs the whole dimension, and an active flag always costs at least 0.3 of it. */
  lemma FraudRange(u: User)
    requires Counted(u)
    ensures 0.2 <= FraudScore(u.fraud)
    ensures FraudScore(u.fraud) == 1.0 <==> u.fraud.signals == 0 && u.fraud.activeFlags == 0
    ensures u.fraud.activeFlags > 0 ==> FraudScore(u.fraud) <= 0.7
  {
  }

  /** A perfect overall score takes all four dimensions: no incident on any contract, no signal, no flag. */
  lemma PerfectOverall(u: User, log1p: int -> real)
    requires log1p(50) > 0.0 && Counted(u)
    ensures Overall(u, log1p) == 1.0 <==>
      && FeedbackScore(u.feedback) == 1.0 && VolumeScore(u.volume, log1p) == 1.0
      && (u.risk.contracts <= 0 ||
          (u.risk.cancellations, u.risk.disputes, u.risk.noShows, u.risk.lateDeliveries) == (0, 0, 0, 0))
      && u.fraud.signals == 0 && u.fraud.activeFlags == 0
  {
    CompositeIsWeightedSum(u, log1p);
    PerfectRisk(u);
    FraudRange(u);
  }
}
