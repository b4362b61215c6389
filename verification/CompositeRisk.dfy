/**
 The overall fraud risk of a user: four signals, a floor for any single strong one, an action.
 */
module CompositeRisk {
  import opened Basics

  datatype Signals = Signals(fingerprint: real, bidPattern: real, ipGeo: real, historical: real)

  datatype Thresholds = Thresholds(review: real, challenge: real, block: real)

  const DEFAULTS: Thresholds := Thresholds(0.3, 0.6, 0.8)

  datatype AutoAction = NoAction | Review | Challenge | Block

  function Rank(a: AutoAction): int {
    match a
    case NoAction => 0
    case Review => 1
    case Challenge => 2
    case Block => 3
  }

  function Strongest(s: Signals): real {
    Max(Max(Max(Unit(s.fingerprint), Unit(s.bidPattern)), Unit(s.ipGeo)), Unit(s.historical))
  }

  function Weighted(s: Signals): real {
    Unit(s.fingerprint) * 0.25 + Unit(s.bidPattern) * 0.30 + Unit(s.ipGeo) * 0.25 + Unit(s.historical) * 0.20
  }

  function Floor(strongest: real): real {
    if strongest > 0.8 then 0.5 else if strongest > 0.6 then 0.3 else 0.0
  }

  function Score(s: Signals): (score: real)
    ensures 0.0 <= score <= 1.0
  {
    Unit(Max(Weighted(s), Floor(Strongest(s))))
  }

  function ActionFor(score: real, t: Thresholds): AutoAction {
    if score >= t.block then Block
    else if score >= t.challenge then Challenge
    else if score >= t.review then Review
    else NoAction
  }

  predicate NoWeaker(b: Signals, a: Signals) {
    b.fingerprint >= a.fingerprint && b.bidPattern >= a.bidPattern && b.ipGeo >= a.ipGeo && b.historical >= a.historical
  }

  function Units(s: Signals): Signals {
    Signals(Unit(s.fingerprint), Unit(s.bidPattern), Unit(s.ipGeo), Unit(s.historical))
  }

  lemma UnitsMonotone(a: Signals, b: Signals)
    requires NoWeaker(b, a)
    ensures NoWeaker(Units(b), Units(a))
  {
    UnitMonotone(a.fingerprint, b.fingerprint);
    UnitMonotone(a.bidPattern, b.bidPattern);
    UnitMonotone(a.ipGeo, b.ipGeo);
    UnitMonotone(a.historical, b.historical);
  }

  lemma WeightedMonotone(a: Signals, b: Signals)
    requires NoWeaker(Units(b), Units(a))
    ensures Weighted(a) <= Weighted(b)
  {
  }

  lemma MaxMonotone(a: real, b: real, x: real, y: real)
    requires a <= x && b <= y
    ensures Max(a, b) <= Max(x, y)
  {
  }

  lemma StrongestMonotone(a: Signals, b: Signals)
    requires NoWeaker(Units(b), Units(a))
    ensures Strongest(a) <= Strongest(b)
  {
    var u, v := Units(a), Units(b);
    MaxMonotone(u.fingerprint, u.bidPattern, v.fingerprint, v.bidPattern);
    MaxMonotone(Max(u.fingerprint, u.bidPattern), u.ipGeo, Max(v.fingerprint, v.bidPattern), v.ipGeo);
    MaxMonotone(
      Max(Max(u.fingerprint, u.bidPattern), u.ipGeo), u.historical,
      Max(Max(v.fingerprint, v.bidPattern), v.ipGeo), v.historical);
  }

  lemma ScoreMonotone(w: real, w': real, m: real, m': real)
    requires w <= w' && m <= m'
    ensures Unit(Max(w, Floor(m))) <= Unit(Max(w', Floor(m')))
  {
  }

  lemma ActionMonotone(x: real, y: real, t: Thresholds)
    requires x <= y
    ensures Rank(ActionFor(x, t)) <= Rank(ActionFor(y, t))
  {
  }

  /** Stronger signals never lower the score or soften the action, whatever the thresholds. */
  lemma RiskMonotone(a: Signals, b: Signals, t: Thresholds)
    requires NoWeaker(b, a)
    ensures Score(a) <= Score(b)
    ensures Rank(ActionFor(Score(a), t)) <= Rank(ActionFor(Score(b), t))
  {
    UnitsMonotone(a, b);
    WeightedMonotone(a, b);
    StrongestMonotone(a, b);
    ScoreMonotone(Weighted(a), Weighted(b), Strongest(a), Strongest(b));
    ActionMonotone(Score(a), Score(b), t);
  }

  /** The score lies between the weighted average and the strongest signal; a strong one puts a floor under it. */
  lemma ScoreBounds(s: Signals)
    ensures Weighted(s) <= Score(s) <= Max(Strongest(s), 0.0)
    ensures Strongest(s) > 0.8 ==> Score(s) >= 0.5
    ensures Strongest(s) > 0.6 ==> Score(s) >= 0.3
    ensures Strongest(s) <= 0.6 ==> Score(s) == Weighted(s)
  {
    var m := Strongest(s);
    assert Unit(s.fingerprint) <= m && Unit(s.bidPattern) <= m && Unit(s.ipGeo) <= m && Unit(s.historical) <= m;
    assert Weighted(s) <= m * 0.25 + m * 0.30 + m * 0.25 + m * 0.20;
  }

  /** With the default thresholds one signal above 0.6 is enough for a review, whatever the other three say. */
  lemma OneStrongSignalIsReviewed(s: Signals)
    requires s.fingerprint > 0.6 || s.bidPattern > 0.6 || s.ipGeo > 0.6 || s.historical > 0.6
    ensures Rank(ActionFor(Score(s), DEFAULTS)) >= Rank(Review)
  {
    ScoreBounds(s);
  }

  /** Signals outside 0..1 count as the nearest end. */
  lemma SignalsClipped(s: Signals)
    ensures Score(s) == Score(Units(s))
  {
  }

  /** In hundredths 25, 30, 25 and 20; at least 30 once a signal is above 0.6, at least 50 once one is above 0.8. */
  lemma ScoreLaw(s: Signals)
    requires s == Units(s)
    ensures var sum := 25.0 * s.fingerprint + 30.0 * s.bidPattern + 25.0 * s.ipGeo + 20.0 * s.historical;
      var above := (limit: real) =>
        s.fingerprint > limit || s.bidPattern > limit || s.ipGeo > limit || s.historical > limit;
      100.0 * Score(s) == if above(0.8) then Max(sum, 50.0) else if above(0.6) then Max(sum, 30.0) else sum
  {
    ScoreBounds(s);
  }

  /** The action is the one of the highest threshold reached; by default 0.3, 0.6 and 0.8. */
  lemma ActionLaw(score: real, t: Thresholds)
    ensures ActionFor(score, t) == Block <==> score >= t.block
    ensures ActionFor(score, t) == Challenge <==> t.challenge <= score < t.block
    ensures ActionFor(score, t) == Review <==> t.review <= score < t.challenge && score < t.block
    ensures (DEFAULTS.review, DEFAULTS.challenge, DEFAULTS.block) == (0.3, 0.6, 0.8)
  {
  }
}
