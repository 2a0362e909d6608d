/** What the RTL review score is made of: which facts are refused, and what each finding costs. */
module ReviewMarks {
  import opened Options
  import opened Scores
  import opened ReviewScore

  /** Full within the target; beyond it, the share that the target is of what was measured. */
  ghost predicate IsHeadroom(m: Measure, h: real) {
    if m.measured <= m.threshold then h == 1.0 else h * m.measured as real == m.threshold as real
  }

  lemma {:induction false} HeadroomMeans(m: Measure)
    requires ValidMeasure(m)
    ensures IsHeadroom(m, Headroom(m))
  {
    HeadroomWithin(m);
  }

  /** The score refuses negative counts and targets that are not positive.  Otherwise each error
      costs ten marks of 30 and each warning three of 15, and the headroom counts if the precheck
      passed. */
  lemma {:induction false} ReviewComponents(round: Rounding, r: Review) returns (score: Option<Score>)
    requires RoundsToTenths(round)
    ensures score == RtlReviewScore(round, r)
    ensures score.Some? <==>
            && r.errors >= 0 && r.warnings >= 0
            && r.fanout.measured >= 0 && r.fanin.measured >= 0 && r.depth.measured >= 0
            && r.fanout.threshold > 0 && r.fanin.threshold > 0 && r.depth.threshold > 0
    ensures score.Some? ==> |score.value.components| == 4
    ensures score.Some? ==>
              var c := score.value.components;
              && c[0] == Component(if r.precheckPassed then 30.0 else 0.0, 30.0)
              && c[1].possible == 30.0 && Deducted(c[1].earned, 30.0, 10.0, r.errors)
              && c[2].possible == 15.0 && Deducted(c[2].earned, 15.0, 3.0, r.warnings)
              && c[3].possible == 25.0
              && (if r.precheckPassed
                  then exists h1: real, h2: real, h3: real ::
                         IsHeadroom(r.fanout, h1) && IsHeadroom(r.fanin, h2) && IsHeadroom(r.depth, h3)
                         && c[3].earned == round(8.3 * h1 + 8.3 * h2 + 8.4 * h3)
                  else c[3].earned == 0.0)
              && score.value.value == c[0].earned + c[1].earned + c[2].earned + c[3].earned
  {
    hide RoundsToTenths, Deducted, Earned, Headroom, IsHeadroom;
    score := RtlReviewScore(round, r);
    if score.Some? {
      var c := score.value.components;
      WholeMarks(round, 30);
      WholeMarks(round, 0);
      LeftMarks(round, 30, 10, r.errors);
      LeftMarks(round, 15, 3, r.warnings);
      HeadroomMeans(r.fanout);
      HeadroomMeans(r.fanin);
      HeadroomMeans(r.depth);
      var _ := RoundIsTenths(round, HeadroomEarned(r));
      SumOfFour(c);
      TotalIsSum(round, c);
    }
  }

  lemma {:induction false} LeftMarks(round: Rounding, possible: nat, each: nat, count: nat)
    requires RoundsToTenths(round)
    ensures var left := Max(0.0, (possible - count * each) as real);
            round(left) == left && IsTenths(left) && Deducted(left, possible as real, each as real, count)
  {
    PenaltyMarks(round, possible, each, count);
    assert Max(0.0, (possible - count * each) as real) == Penalised(possible, each, count) as real;
  }
}
