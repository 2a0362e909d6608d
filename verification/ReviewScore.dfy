/** The RTL review score: precheck, findings and structural headroom against targets. */
module ReviewScore {
  import opened Options
  import opened Scores

  /** A measured structural quantity against its target. */
  datatype Measure = Measure(measured: int, threshold: int)

  datatype Review = Review(errors: int, warnings: int, fanout: Measure, fanin: Measure, depth: Measure,
    precheckPassed: bool)

  predicate ValidMeasure(m: Measure) {
    m.measured >= 0 && m.threshold > 0
  }

  predicate Accepted(r: Review) {
    r.errors >= 0 && r.warnings >= 0 && ValidMeasure(r.fanout) && ValidMeasure(r.fanin) && ValidMeasure(r.depth)
  }

  function Headroom(m: Measure): real
    requires ValidMeasure(m)
  {
    Min(1.0, m.threshold as real / (if m.measured < 1 then 1 else m.measured) as real)
  }

  function HeadroomEarned(r: Review): real
    requires Accepted(r)
  {
    if r.precheckPassed then 8.3 * Headroom(r.fanout) + 8.3 * Headroom(r.fanin) + 8.4 * Headroom(r.depth) else 0.0
  }

  function RtlReviewScore(round: Rounding, r: Review): Option<Score> {
    if !Accepted(r) then None
    else
      Some(Total(round, [
        ScoreComponent(round, if r.precheckPassed then 30.0 else 0.0, 30.0),
        ScoreComponent(round, Max(0.0, (30 - r.errors * 10) as real), 30.0),
        ScoreComponent(round, Max(0.0, (15 - r.warnings * 3) as real), 15.0),
        ScoreComponent(round, HeadroomEarned(r), 25.0)]))
  }

  /** Headroom is full exactly when the measure keeps to its target. */
  lemma {:induction false} HeadroomWithin(m: Measure)
    requires ValidMeasure(m)
    ensures 0.0 < Headroom(m) <= 1.0
    ensures Headroom(m) == 1.0 <==> m.measured <= m.threshold
  {
    RatioToOne(m.threshold as real, (if m.measured < 1 then 1 else m.measured) as real);
  }

  lemma {:induction false} RatioToOne(x: real, n: real)
    requires x > 0.0 && n > 0.0
    ensures x / n > 0.0 && (x / n >= 1.0 <==> x >= n)
  {
    var ratio := x / n;
    assert ratio * n == x;
    TimesKeepsOrder(ratio, 1.0, n);
    TimesKeepsOrder(1.0, ratio, n);
    if ratio == 1.0 {
      assert x == n;
    }
  }

  predicate Spotless(r: Review) {
    && r.precheckPassed && r.errors == 0 && r.warnings == 0
    && r.fanout.measured <= r.fanout.threshold && r.fanin.measured <= r.fanin.threshold
        && r.depth.measured <= r.depth.threshold
  }

  /** Every review score that is not refused is bounded; the full 100 are reached when nothing
      is reported, the precheck passes and every measure keeps to its target. */
  lemma {:induction false} ReviewScoreBounded(round: Rounding, r: Review)
    requires RoundsToTenths(round) && Accepted(r)
    ensures var score := RtlReviewScore(round, r).value;
            && Bounded(score)
            && (Spotless(r) ==> score.value == 100.0)
  {
    HeadroomWithin(r.fanout);
    HeadroomWithin(r.fanin);
    HeadroomWithin(r.depth);
    ComponentWithin(round, if r.precheckPassed then 30.0 else 0.0, 30);
    ComponentWithin(round, Max(0.0, (30 - r.errors * 10) as real), 30);
    ComponentWithin(round, Max(0.0, (15 - r.warnings * 3) as real), 15);
    ComponentWithin(round, HeadroomEarned(r), 25);
    var c := RtlReviewScore(round, r).value.components;
    SumOfFour(c);
    TotalBounded(round, c);
    RoundWhole(round, 30);
    RoundWhole(round, 15);
    RoundWhole(round, 25);
    RoundWhole(round, 100);
  }
}
