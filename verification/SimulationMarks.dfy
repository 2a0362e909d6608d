/** What the simulation score says about the cases and the regression record behind it. */
module SimulationMarks {
  import opened Options
  import opened Scores
  import opened SimulationScore

  // The cases and changes that count

  ghost function Passing(cases: seq<Case>): set<nat> {
    set i: nat | i < |cases| && cases[i].ok
  }

  ghost function Compared(cases: seq<Case>): set<nat> {
    set i: nat | i < |cases| && cases[i].difftestEnabled
  }

  ghost function Counted(cases: seq<Case>): set<nat> {
    set i: nat | i < |cases| && cases[i].ok && cases[i].cycles.Some? && cases[i].cycles.value >= 0
  }

  /** The case failed now or in the previous run, or was not part of that run. */
  ghost predicate Unsteady(name: string, r: Regression) {
    name in r.newFailures || name in r.persistentFailures || name in r.fixed || name in r.added
  }

  ghost function Steady(cases: seq<Case>, r: Regression): set<nat> {
    set i: nat | i < |cases| && cases[i].ok && !Unsteady(cases[i].name, r)
  }

  ghost function SteadyChanges(r: Regression): set<nat> {
    set i: nat | i < |r.cycleChanges| && !Unsteady(r.cycleChanges[i].name, r) && r.cycleChanges[i].deltaPercent.Some?
  }

  /** The largest increase in per cent, or nothing if no case got slower. */
  ghost predicate IsWorst(r: Regression, worst: real) {
    && worst >= 0.0
    && (forall i | i in SteadyChanges(r) :: r.cycleChanges[i].deltaPercent.value <= worst)
    && (worst == 0.0 || exists i :: i in SteadyChanges(r) && r.cycleChanges[i].deltaPercent.value == worst)
  }

  /** Half a mark for each per cent of the worst increase, and the rest in proportion to the
      steady cases that could be compared. */
  ghost predicate CycleMarks(round: Rounding, earned: real, r: Regression, cases: seq<Case>) {
    if !r.hasBaseline then
      earned == if |Passing(cases)| == |cases| == |Counted(cases)| then 2.5 else 0.0
    else if SteadyChanges(r) == {} then earned == 0.0
    else
      exists worst: real, x: real ::
        && IsWorst(r, worst) && earned == round(x)
        && x * |Steady(cases, r)| as real ==
           (if worst >= 10.0 then 0.0 else 5.0 - worst / 2.0) * |SteadyChanges(r)| as real
  }

  lemma {:induction false} CountsOfCases(cases: seq<Case>)
    ensures Count(cases, IsOk) == |Passing(cases)| && Count(cases, Enabled) == |Compared(cases)|
    ensures Count(cases, Measured) == |Counted(cases)|
    ensures Count(cases, (c: Case) => c.difftestEnabled && c.ok) == |Passing(cases) * Compared(cases)|
  {
    CountIsNumber(cases, IsOk);
    CountIsNumber(cases, Enabled);
    CountIsNumber(cases, Measured);
    var both := (c: Case) => c.difftestEnabled && c.ok;
    CountIsNumber(cases, both);
    assert Holding(cases, IsOk) == Passing(cases);
    assert Holding(cases, Enabled) == Compared(cases);
    assert Holding(cases, Measured) == Counted(cases);
    assert Holding(cases, both) == Passing(cases) * Compared(cases);
  }

  // Cycle changes

  lemma {:induction false} UnsteadyNames(name: string, r: Regression)
    ensures name in Incomparable(r) || name in Elements(r.added) <==> Unsteady(name, r)
  {
  }

  ghost function SteadyBefore(r: Regression, n: nat): set<nat>
    requires n <= |r.cycleChanges|
  {
    set i: nat | i < n && !Unsteady(r.cycleChanges[i].name, r) && r.cycleChanges[i].deltaPercent.Some?
  }

  ghost predicate IsWorstBefore(r: Regression, n: nat, worst: real)
    requires n <= |r.cycleChanges|
  {
    && worst >= 0.0
    && (forall i | i in SteadyBefore(r, n) :: r.cycleChanges[i].deltaPercent.value <= worst)
    && (worst == 0.0 || exists i :: i in SteadyBefore(r, n) && r.cycleChanges[i].deltaPercent.value == worst)
  }

  lemma {:induction false} SteadyNext(r: Regression, n: nat)
    requires 0 < n <= |r.cycleChanges|
    ensures n - 1 !in SteadyBefore(r, n - 1)
    ensures SteadyBefore(r, n) == SteadyBefore(r, n - 1) + if IsComparable(r.cycleChanges[n-1], r) then {n - 1} else {}
  {
    hide Incomparable, Unsteady;
    UnsteadyNames(r.cycleChanges[n-1].name, r);
  }

  lemma {:induction false} ComparableNext(r: Regression, n: nat)
    requires 0 < n <= |r.cycleChanges|
    ensures var last := r.cycleChanges[n-1];
            var before := Comparable(r.cycleChanges[..n-1], r);
            var after := Comparable(r.cycleChanges[..n], r);
            && |after| == |before| + (if IsComparable(last, r) then 1 else 0)
            && LargestIncrease(after) ==
               if IsComparable(last, r) then Max(LargestIncrease(before), last.deltaPercent.value)
               else LargestIncrease(before)
  {
    hide IsComparable;
    var last := r.cycleChanges[n-1];
    assert r.cycleChanges[..n][..n-1] == r.cycleChanges[..n-1];
    var before := Comparable(r.cycleChanges[..n-1], r);
    assert (before + [last])[..|before|] == before && before + [] == before;
    ComparableMeasured(last, r);
  }

  lemma {:induction false} ComparableMeasured(change: Change, r: Regression)
    ensures IsComparable(change, r) ==> change.deltaPercent.Some?
  {
  }

  lemma {:induction false} ComparableIsSteady(r: Regression, n: nat)
    requires n <= |r.cycleChanges|
    ensures var comparable := Comparable(r.cycleChanges[..n], r);
            |comparable| == |SteadyBefore(r, n)| && IsWorstBefore(r, n, LargestIncrease(comparable))
    decreases n
  {
    hide IsComparable, Comparable, LargestIncrease, SteadyBefore, IsWorstBefore;
    if n == 0 {
      NothingSteady(r);
    } else {
      ComparableIsSteady(r, n - 1);
      SteadyNext(r, n);
      ComparableNext(r, n);
      ComparableMeasured(r.cycleChanges[n-1], r);
      var worst := LargestIncrease(Comparable(r.cycleChanges[..n-1], r));
      if IsComparable(r.cycleChanges[n-1], r) {
        WorstExtended(r, n, worst);
      } else {
        WorstKept(r, n, worst);
      }
    }
  }

  lemma {:induction false} NothingSteady(r: Regression)
    ensures SteadyBefore(r, 0) == {} && Comparable(r.cycleChanges[..0], r) == []
    ensures IsWorstBefore(r, 0, LargestIncrease(Comparable(r.cycleChanges[..0], r)))
  {
  }

  lemma {:induction false} WorstKept(r: Regression, n: nat, worst: real)
    requires 0 < n <= |r.cycleChanges| && IsWorstBefore(r, n - 1, worst)
    requires SteadyBefore(r, n) == SteadyBefore(r, n - 1) + {}
    ensures IsWorstBefore(r, n, worst)
  {
  }

  lemma {:induction false} WorstExtended(r: Regression, n: nat, worst: real)
    requires 0 < n <= |r.cycleChanges| && IsWorstBefore(r, n - 1, worst)
    requires SteadyBefore(r, n) == SteadyBefore(r, n - 1) + {n - 1} && r.cycleChanges[n-1].deltaPercent.Some?
    ensures IsWorstBefore(r, n, Max(worst, r.cycleChanges[n-1].deltaPercent.value))
  {
    hide Unsteady;
    var x := r.cycleChanges[n-1].deltaPercent.value;
    if x <= worst && worst > 0.0 {
      var i :| i in SteadyBefore(r, n - 1) && r.cycleChanges[i].deltaPercent.value == worst;
      assert i in SteadyBefore(r, n);
    }
    assert n - 1 in SteadyBefore(r, n);
  }

  ghost predicate IsSteady(cases: seq<Case>, r: Regression, i: nat)
    requires i < |cases|
  {
    cases[i].ok && !Unsteady(cases[i].name, r)
  }

  ghost function SteadyIndices(cases: seq<Case>, r: Regression, n: nat): set<nat>
    requires n <= |cases|
  {
    set i: nat | i < n && IsSteady(cases, r, i)
  }

  ghost function SteadyNames(cases: seq<Case>, r: Regression, n: nat): set<string>
    requires n <= |cases|
  {
    set i: nat | i < n && IsSteady(cases, r, i) :: cases[i].name
  }

  lemma {:induction false} EligibleIsSteady(cases: seq<Case>, r: Regression)
    requires NamesApart(cases)
    ensures |Eligible(cases, r)| == |Steady(cases, r)|
  {
    hide NamesApart;
    forall c | c in cases ensures c.name in Incomparable(r) || c.name in Elements(r.added) <==> Unsteady(c.name, r) {
      UnsteadyNames(c.name, r);
    }
    EligibleNames(cases, r);
    NamesOfSteady(cases, r, |cases|);
    assert Steady(cases, r) == SteadyIndices(cases, r, |cases|);
  }

  lemma {:induction false} EligibleNames(cases: seq<Case>, r: Regression)
    requires forall c | c in cases :: c.name in Incomparable(r) || c.name in Elements(r.added) <==> Unsteady(c.name, r)
    ensures Eligible(cases, r) == SteadyNames(cases, r, |cases|)
  {
    hide Incomparable, Elements, Unsteady;
    forall name | name in Eligible(cases, r) ensures name in SteadyNames(cases, r, |cases|) {
      var c :| c in cases && c.ok && c.name !in Incomparable(r) && c.name !in Elements(r.added) && c.name == name;
      var i: nat :| i < |cases| && cases[i] == c;
      assert IsSteady(cases, r, i);
    }
    forall name | name in SteadyNames(cases, r, |cases|) ensures name in Eligible(cases, r) {
      var i: nat :| i < |cases| && IsSteady(cases, r, i) && cases[i].name == name;
      assert cases[i] in cases;
    }
  }

  lemma {:induction false} NamesOfSteady(cases: seq<Case>, r: Regression, n: nat)
    requires n <= |cases| && NamesApart(cases)
    ensures |SteadyNames(cases, r, n)| == |SteadyIndices(cases, r, n)|
  {
    hide IsSteady, NamesApart;
    OneNameEach(cases, SteadyIndices(cases, r, n));
    assert SteadyNames(cases, r, n) == NamesAt(cases, SteadyIndices(cases, r, n));
  }

  ghost function NamesAt(cases: seq<Case>, indices: set<nat>): set<string>
    requires forall i | i in indices :: i < |cases|
  {
    set i | i in indices :: cases[i].name
  }

  lemma {:induction false} OneNameEach(cases: seq<Case>, indices: set<nat>)
    requires NamesApart(cases) && forall i | i in indices :: i < |cases|
    ensures |NamesAt(cases, indices)| == |indices|
    decreases |indices|
  {
    if indices == {} {
      assert NamesAt(cases, indices) == {};
    } else {
      var i :| i in indices;
      OneNameEach(cases, indices - {i});
      assert NamesAt(cases, indices) == NamesAt(cases, indices - {i}) + {cases[i].name};
      assert cases[i].name !in NamesAt(cases, indices - {i});
    }
  }

  lemma {:induction false} CycleEarnedMarks(round: Rounding, r: Regression, cases: seq<Case>)
    requires RoundsToTenths(round) && ValidSimRegression(r, cases) && NamesApart(cases)
    ensures CycleMarks(round, round(CycleEarned(r, cases)), r, cases)
  {
    hide ValidSimRegression, Comparable, Eligible, LargestIncrease, RoundsToTenths, Steady, Passing, Counted,
      NamesApart, SteadyChanges, Compared;
    CountsOfCases(cases);
    RoundInTenths(round, 25);
    assert Tenths(25) == 2.5;
    RoundWhole(round, 0);
    SteadyIsCompared(r);
    if r.hasBaseline && Comparable(r.cycleChanges, r) != [] {
      ComparedMarks(round, r, cases);
    }
  }

  lemma {:induction false} SteadyIsCompared(r: Regression)
    ensures var comparable := Comparable(r.cycleChanges, r);
            && |comparable| == |SteadyChanges(r)| && (comparable == [] <==> SteadyChanges(r) == {})
            && IsWorst(r, LargestIncrease(comparable))
  {
    hide Comparable, LargestIncrease, Unsteady;
    ComparableIsSteady(r, |r.cycleChanges|);
    assert r.cycleChanges[..|r.cycleChanges|] == r.cycleChanges;
    assert SteadyBefore(r, |r.cycleChanges|) == SteadyChanges(r);
  }

  lemma {:induction false} ComparedMarks(round: Rounding, r: Regression, cases: seq<Case>)
    requires ValidSimRegression(r, cases) && NamesApart(cases)
    requires r.hasBaseline && Comparable(r.cycleChanges, r) != []
    ensures CycleMarks(round, round(CycleEarned(r, cases)), r, cases)
  {
    hide ValidSimRegression, Comparable, Eligible, LargestIncrease, Steady, NamesApart, SteadyChanges, CycleEarned,
      IsWorst;
    SteadyIsCompared(r);
    CapNeverApplies(r, cases);
    EligibleIsSteady(cases, r);
    var comparable := Comparable(r.cycleChanges, r);
    var worst := LargestIncrease(comparable);
    var stability := if worst >= 10.0 then 0.0 else 5.0 - worst / 2.0;
    assert Max(0.0, 5.0 - Min(worst, 10.0) * 0.5) == stability;
    TimesQuotient(stability, |comparable| as real, |Eligible(cases, r)| as real);
    var x := CycleEarned(r, cases);
    assert x * |Steady(cases, r)| as real == stability * |SteadyChanges(r)| as real;
  }

  lemma {:induction false} TimesQuotient(a: real, p: real, n: real)
    requires n > 0.0
    ensures a * (p / n) * n == a * p
  {
    assert p / n * n == p;
  }

  // All components

  lemma {:induction false} ScoreParts(round: Rounding, schemaVersion: int, suite: string, runId: string, r: Regression,
                                      cases: seq<Case>)
    requires Accepted(schemaVersion, suite, runId, r, cases)
    ensures ValidSimRegression(r, cases) && |cases| > 0
    ensures SimulationScore.SimulationScore(round, schemaVersion, suite, runId, r, cases).Some?
    ensures var score := SimulationScore.SimulationScore(round, schemaVersion, suite, runId, r, cases).value;
            && score.components ==
               [Component(round(50.0 * (Count(cases, IsOk) as real / |cases| as real)), 50.0),
                Component(round(DifftestEarned(cases)), 20.0),
                Component(round(15.0 * Count(cases, Measured) as real / |cases| as real), 15.0),
                Component(round(RegressionEarned(r, cases)), 10.0),
                Component(round(CycleEarned(r, cases)), 5.0)]
            && (RoundsToTenths(round) ==> score.value == Earned(score.components))
  {
    hide RoundsToTenths, Accepted, CycleEarned, DifftestEarned, RegressionEarned, ValidSimRegression, Count;
    AcceptedParts(schemaVersion, suite, runId, r, cases);
    var c := SimulationScore.SimulationScore(round, schemaVersion, suite, runId, r, cases).value.components;
    if RoundsToTenths(round) {
      RoundedTotal(round, c);
    }
  }

  /** The three components in proportion to cases. */
  lemma {:induction false} ProportionalMarks(round: Rounding, schemaVersion: int, suite: string, runId: string,
                                             r: Regression, cases: seq<Case>)
    requires Accepted(schemaVersion, suite, runId, r, cases)
    ensures SimulationScore.SimulationScore(round, schemaVersion, suite, runId, r, cases).Some?
    ensures var c := SimulationScore.SimulationScore(round, schemaVersion, suite, runId, r, cases).value.components;
            && |c| == 5
            && c[0].possible == 50.0 && InProportion(round, c[0].earned, 50.0, |Passing(cases)|, |cases|)
            && c[1].possible == 20.0
            && (if |Compared(cases)| > 0
                then InProportion(round, c[1].earned, 20.0, |Passing(cases) * Compared(cases)|, |Compared(cases)|)
                else InProportion(round, c[1].earned, 10.0, |Passing(cases)|, |cases|))
            && c[2].possible == 15.0 && InProportion(round, c[2].earned, 15.0, |Counted(cases)|, |cases|)
  {
    hide InProportion, Passing, Compared, Counted, DifftestEarned, RegressionEarned, CycleEarned, Accepted,
      SimulationScore.SimulationScore, Count, Earned, NamesApart, ValidSimRegression, RoundsToTenths;
    ScoreParts(round, schemaVersion, suite, runId, r, cases);
    AcceptedParts(schemaVersion, suite, runId, r, cases);
    CountsOfCases(cases);
    RateInProportion(round, 50, |Passing(cases)|, |cases|);
    DifftestInProportion(round, schemaVersion, suite, runId, r, cases);
    ShareInProportion(round, 15, |Counted(cases)|, |cases|);
  }

  /** All five components in terms of the cases and the record; the score is their sum. */
  lemma {:induction false} SimulationComponents(round: Rounding, schemaVersion: int, suite: string, runId: string,
                                                r: Regression, cases: seq<Case>)
    requires RoundsToTenths(round) && Accepted(schemaVersion, suite, runId, r, cases)
    ensures SimulationScore.SimulationScore(round, schemaVersion, suite, runId, r, cases).Some?
    ensures var score := SimulationScore.SimulationScore(round, schemaVersion, suite, runId, r, cases).value;
            var c := score.components;
            && |c| == 5
            && c[0].possible == 50.0 && InProportion(round, c[0].earned, 50.0, |Passing(cases)|, |cases|)
            && c[1].possible == 20.0
            && (if |Compared(cases)| > 0
                then InProportion(round, c[1].earned, 20.0, |Passing(cases) * Compared(cases)|, |Compared(cases)|)
                else InProportion(round, c[1].earned, 10.0, |Passing(cases)|, |cases|))
            && c[2].possible == 15.0 && InProportion(round, c[2].earned, 15.0, |Counted(cases)|, |cases|)
            && c[3].possible == 10.0
            && c[3].earned == (if r.hasBaseline then if r.newFailures == [] && r.removed == [] then 10.0 else 0.0
                               else if |Passing(cases)| == |cases| then 5.0 else 0.0)
            && c[4].possible == 5.0 && CycleMarks(round, c[4].earned, r, cases)
            && score.value == c[0].earned + c[1].earned + c[2].earned + c[3].earned + c[4].earned
  {
    hide RoundsToTenths, ValidSimRegression, CycleEarned, CycleMarks, InProportion, Passing, Compared, Counted,
      DifftestEarned, RegressionEarned, Accepted, SimulationScore.SimulationScore, Count, Earned, NamesApart;
    ScoreParts(round, schemaVersion, suite, runId, r, cases);
    AcceptedParts(schemaVersion, suite, runId, r, cases);
    ProportionalMarks(round, schemaVersion, suite, runId, r, cases);
    RegressionMarks(round, r, cases);
    CycleEarnedMarks(round, r, cases);
    SumOfFive(SimulationScore.SimulationScore(round, schemaVersion, suite, runId, r, cases).value.components);
  }

  lemma {:induction false} AcceptedParts(schemaVersion: int, suite: string, runId: string, r: Regression,
                                         cases: seq<Case>)
    requires Accepted(schemaVersion, suite, runId, r, cases)
    ensures |cases| > 0 && NamesApart(cases) && ValidSimRegression(r, cases)
  {
  }

  lemma {:induction false} DifftestInProportion(round: Rounding, schemaVersion: int, suite: string, runId: string,
                                                r: Regression, cases: seq<Case>)
    requires Accepted(schemaVersion, suite, runId, r, cases)
    ensures |cases| > 0
    ensures if |Compared(cases)| > 0
            then InProportion(round, round(DifftestEarned(cases)), 20.0, |Passing(cases) * Compared(cases)|,
                              |Compared(cases)|)
            else InProportion(round, round(DifftestEarned(cases)), 10.0, |Passing(cases)|, |cases|)
  {
    hide Accepted, InProportion, Passing, Compared, Counted;
    AcceptedParts(schemaVersion, suite, runId, r, cases);
    CountsOfCases(cases);
    MatchedMeansPassed(schemaVersion, suite, runId, r, cases);
    if |Compared(cases)| > 0 {
      ShareInProportion(round, 20, |Passing(cases) * Compared(cases)|, |Compared(cases)|);
    } else {
      RateInProportion(round, 10, |Passing(cases)|, |cases|);
    }
  }

  lemma {:induction false} RegressionMarks(round: Rounding, r: Regression, cases: seq<Case>)
    requires RoundsToTenths(round)
    ensures round(RegressionEarned(r, cases)) ==
            if r.hasBaseline then if r.newFailures == [] && r.removed == [] then 10.0 else 0.0
            else if |Passing(cases)| == |cases| then 5.0 else 0.0
  {
    hide RoundsToTenths, Passing, Compared, Counted;
    CountsOfCases(cases);
    RoundWhole(round, 10);
    RoundWhole(round, 5);
    RoundWhole(round, 0);
  }

  lemma {:induction false} RateInProportion(round: Rounding, possible: nat, part: nat, whole: nat)
    requires whole > 0
    ensures InProportion(round, round(possible as real * (part as real / whole as real)), possible as real, part, whole)
  {
    TimesQuotient(possible as real, part as real, whole as real);
  }

  lemma {:induction false} ShareInProportion(round: Rounding, possible: nat, part: nat, whole: nat)
    requires whole > 0
    ensures InProportion(round, round(possible as real * part as real / whole as real), possible as real, part, whole)
  {
    QuotientInProportion(round, possible as real * part as real / whole as real, possible as real, part, whole);
  }

  lemma {:induction false} RoundedTotal(round: Rounding, components: seq<Component>)
    requires RoundsToTenths(round) && forall c | c in components :: exists x :: c.earned == round(x)
    ensures Total(round, components).value == Earned(components)
  {
    TotalIsSum(round, components);
  }

  // What follows

  lemma {:induction false} PartsOfCases(cases: seq<Case>)
    ensures |Passing(cases)| <= |cases| && |Counted(cases)| <= |Passing(cases)|
    ensures |Passing(cases) * Compared(cases)| <= |Compared(cases)|
    ensures |Passing(cases)| == |cases| <==> forall c | c in cases :: c.ok
    ensures |Passing(cases)| == 0 <==> forall c | c in cases :: !c.ok
    ensures |Counted(cases)| == |cases| <==> forall c | c in cases :: c.ok && c.cycles.Some? && c.cycles.value >= 0
    ensures |Passing(cases) * Compared(cases)| == |Compared(cases)| <==>
            forall c | c in cases && c.difftestEnabled :: c.ok
    ensures |Passing(cases) * Compared(cases)| == 0 <==> forall c | c in cases && c.difftestEnabled :: !c.ok
    ensures |Counted(cases)| == 0 <==> forall c | c in cases :: !(c.ok && c.cycles.Some? && c.cycles.value >= 0)
    ensures |Compared(cases)| > 0 <==> exists c :: c in cases && c.difftestEnabled
  {
    hide Passing, Compared, Counted;
    CountsOfCases(cases);
    CountAll(cases, IsOk);
    CountNone(cases, IsOk);
    CountAll(cases, Measured);
    CountImplied(cases, Measured, IsOk);
    var both := (c: Case) => c.difftestEnabled && c.ok;
    CountImplied(cases, both, Enabled);
    SameCount(cases, both, Enabled);
    CountNone(cases, both);
    CountNone(cases, Measured);
    CountNone(cases, Enabled);
  }

  lemma {:induction false} SameCount(cases: seq<Case>, few: Case -> bool, many: Case -> bool)
    requires forall c | c in cases && few(c) :: many(c)
    ensures Count(cases, few) == Count(cases, many) <==> forall c | c in cases && many(c) :: few(c)
    decreases |cases|
  {
    if cases != [] {
      var front, last := cases[..|cases|-1], cases[|cases|-1];
      assert cases == front + [last];
      SameCount(front, few, many);
      CountImplied(front, few, many);
    }
  }

  /** Before rounding, the marks for passing, comparing and measuring are full exactly when all of
      their cases count, and nothing exactly when none does. */
  lemma {:induction false} CasesDecideMarks(round: Rounding, schemaVersion: int, suite: string, runId: string,
                                            r: Regression, cases: seq<Case>) returns (score: Score)
    requires Accepted(schemaVersion, suite, runId, r, cases)
    ensures SimulationScore.SimulationScore(round, schemaVersion, suite, runId, r, cases) == Some(score)
    ensures |score.components| == 5
    ensures RoundedFrom(round, score.components[0].earned, 50.0,
                        forall k | k in cases :: !k.ok, forall k | k in cases :: k.ok)
    ensures if exists k :: k in cases && k.difftestEnabled
            then RoundedFrom(round, score.components[1].earned, 20.0,
                             forall k | k in cases && k.difftestEnabled :: !k.ok,
                             forall k | k in cases && k.difftestEnabled :: k.ok)
            else RoundedFrom(round, score.components[1].earned, 10.0,
                             forall k | k in cases :: !k.ok, forall k | k in cases :: k.ok)
    ensures RoundedFrom(round, score.components[2].earned, 15.0,
                        forall k | k in cases :: !(k.ok && k.cycles.Some? && k.cycles.value >= 0),
                        forall k | k in cases :: k.ok && k.cycles.Some? && k.cycles.value >= 0)
  {
    hide Accepted, InProportion, SimulationScore.SimulationScore, Compared, Passing, Counted,
      RoundedFrom;
    AcceptedParts(schemaVersion, suite, runId, r, cases);
    ProportionalMarks(round, schemaVersion, suite, runId, r, cases);
    PartsOfCases(cases);
    score := SimulationScore.SimulationScore(round, schemaVersion, suite, runId, r, cases).value;
    var c := score.components;
    ProportionDecides(round, c[0].earned, 50, |Passing(cases)|, |cases|);
    ProportionDecides(round, c[2].earned, 15, |Counted(cases)|, |cases|);
    if |Compared(cases)| > 0 {
      ProportionDecides(round, c[1].earned, 20, |Passing(cases) * Compared(cases)|, |Compared(cases)|);
    } else {
      ProportionDecides(round, c[1].earned, 10, |Passing(cases)|, |cases|);
    }
  }

  /** A first run in which every case fails scores nothing. */
  lemma {:induction false} NothingPassesNothingEarned(round: Rounding, schemaVersion: int, suite: string, runId: string,
                                                      r: Regression, cases: seq<Case>)
    requires RoundsToTenths(round) && Accepted(schemaVersion, suite, runId, r, cases)
    requires !r.hasBaseline && forall c | c in cases :: !c.ok
    ensures var score := SimulationScore.SimulationScore(round, schemaVersion, suite, runId, r, cases);
            score.Some? && score.value.value == 0.0
  {
    hide RoundsToTenths, Accepted, InProportion, SimulationScore.SimulationScore, Compared, Passing, Counted,
      RoundedFrom;
    AcceptedParts(schemaVersion, suite, runId, r, cases);
    PartsOfCases(cases);
    SimulationComponents(round, schemaVersion, suite, runId, r, cases);
    var c := SimulationScore.SimulationScore(round, schemaVersion, suite, runId, r, cases).value.components;
    ProportionEnds(round, c[0].earned, 50, |Passing(cases)|, |cases|);
    ProportionEnds(round, c[2].earned, 15, |Counted(cases)|, |cases|);
    if |Compared(cases)| > 0 {
      ProportionEnds(round, c[1].earned, 20, |Passing(cases) * Compared(cases)|, |Compared(cases)|);
    } else {
      ProportionEnds(round, c[1].earned, 10, |Passing(cases)|, |cases|);
    }
  }

  /** Exactly when a run scores 100: there is a previous run, against which nothing newly fails or
      is missing; some case is compared with the reference; and the marks for passing, comparing,
      measuring and steady cycles are full. */
  lemma {:induction false} HundredMeansFull(round: Rounding, schemaVersion: int, suite: string, runId: string,
                                            r: Regression, cases: seq<Case>)
    requires RoundsToTenths(round) && Accepted(schemaVersion, suite, runId, r, cases)
    ensures SimulationScore.SimulationScore(round, schemaVersion, suite, runId, r, cases).Some?
    ensures var score := SimulationScore.SimulationScore(round, schemaVersion, suite, runId, r, cases).value;
            var c := score.components;
            && |c| == 5
            && (score.value == 100.0 <==>
                  && r.hasBaseline && r.newFailures == [] && r.removed == []
                  && (exists k :: k in cases && k.difftestEnabled)
                  && c[0].earned == 50.0 && c[1].earned == 20.0 && c[2].earned == 15.0 && c[4].earned == 5.0)
  {
    hide RoundsToTenths, Accepted, InProportion, SimulationScore.SimulationScore, Compared, Passing, Counted,
      CycleMarks, RoundedFrom;
    AcceptedParts(schemaVersion, suite, runId, r, cases);
    SimulationComponents(round, schemaVersion, suite, runId, r, cases);
    SimulationScoreBounded(round, schemaVersion, suite, runId, r, cases);
    PartsOfCases(cases);
    var c := SimulationScore.SimulationScore(round, schemaVersion, suite, runId, r, cases).value.components;
    assert WithinPossible(c[0]) && WithinPossible(c[1]) && WithinPossible(c[2]) && WithinPossible(c[4]);
    if |Compared(cases)| == 0 {
      ProportionEnds(round, c[1].earned, 10, |Passing(cases)|, |cases|);
    }
  }

  /** The same cases, but some failing ones pass. */
  ghost predicate MorePass(cases1: seq<Case>, cases2: seq<Case>) {
    && |cases1| == |cases2|
    && forall i | 0 <= i < |cases1| ::
         && cases2[i].difftestEnabled == cases1[i].difftestEnabled
         && (cases1[i].ok ==> cases2[i].ok && cases2[i].cycles == cases1[i].cycles)
  }

  lemma {:induction false} MoreCount(cases1: seq<Case>, cases2: seq<Case>)
    requires MorePass(cases1, cases2)
    ensures |Passing(cases1)| <= |Passing(cases2)| && |Counted(cases1)| <= |Counted(cases2)|
    ensures |Passing(cases1) * Compared(cases1)| <= |Passing(cases2) * Compared(cases2)|
    ensures |Compared(cases1)| == |Compared(cases2)|
  {
    SmallerSet(Passing(cases1), Passing(cases2));
    SmallerSet(Counted(cases1), Counted(cases2));
    SmallerSet(Passing(cases1) * Compared(cases1), Passing(cases2) * Compared(cases2));
    assert Compared(cases1) == Compared(cases2);
  }

  /** When failing cases pass, and the others stay as they are, nothing is lost for passing,
      comparing or measuring. */
  lemma {:induction false} PassingMoreNeverCosts(round: Rounding, suite: string, runId: string,
                                                 r1: Regression, cases1: seq<Case>, r2: Regression, cases2: seq<Case>)
    requires RoundsToTenths(round) && MorePass(cases1, cases2)
    requires Accepted(1, suite, runId, r1, cases1) && Accepted(1, suite, runId, r2, cases2)
    ensures var s1 := SimulationScore.SimulationScore(round, 1, suite, runId, r1, cases1);
            var s2 := SimulationScore.SimulationScore(round, 1, suite, runId, r2, cases2);
            && s1.Some? && s2.Some? && |s1.value.components| == |s2.value.components| == 5
            && s1.value.components[0].earned <= s2.value.components[0].earned
            && s1.value.components[1].earned <= s2.value.components[1].earned
            && s1.value.components[2].earned <= s2.value.components[2].earned
  {
    hide RoundsToTenths, Accepted, InProportion, SimulationScore.SimulationScore, Passing, Counted, Compared, MorePass;
    AcceptedParts(1, suite, runId, r1, cases1);
    ProportionalMarks(round, 1, suite, runId, r1, cases1);
    ProportionalMarks(round, 1, suite, runId, r2, cases2);
    MoreCount(cases1, cases2);
    SameNumber(cases1, cases2);
    var c1 := SimulationScore.SimulationScore(round, 1, suite, runId, r1, cases1).value.components;
    var c2 := SimulationScore.SimulationScore(round, 1, suite, runId, r2, cases2).value.components;
    var p1, p2, n := |Passing(cases1)|, |Passing(cases2)|, |Compared(cases1)|;
    ProportionGrows(round, c1[0].earned, c2[0].earned, 50, p1, p2, |cases1|);
    ProportionGrows(round, c1[2].earned, c2[2].earned, 15, |Counted(cases1)|, |Counted(cases2)|, |cases1|);
    if n > 0 {
      ProportionGrows(round, c1[1].earned, c2[1].earned, 20, |Passing(cases1) * Compared(cases1)|,
                      |Passing(cases2) * Compared(cases2)|, n);
    } else {
      ProportionGrows(round, c1[1].earned, c2[1].earned, 10, p1, p2, |cases1|);
    }
  }

  lemma {:induction false} SameNumber(cases1: seq<Case>, cases2: seq<Case>)
    requires MorePass(cases1, cases2)
    ensures |cases1| == |cases2|
  {
  }

  lemma {:induction false} SmallerSet(a: set<nat>, b: set<nat>)
    requires a <= b
    ensures |a| <= |b|
  {
    assert b == a + (b - a);
  }

  // Which runs are scored

  /** A case of this run that does not contradict itself: a pass returned 0 and ended in the good
      trap, and the comparison with the reference is off, or passed with the case on at least one
      instruction, or failed with it. */
  ghost predicate Plausible(c: Case, suite: string, runId: string) {
    && c.suite == suite && c.runId == runId
    && (c.imageSha256 == "" || (|c.imageSha256| == 64 && forall x | x in c.imageSha256 :: x in "0123456789abcdef"))
    && c.termination in {"good_trap", "bad_trap", "difftest_incomplete", "difftest_mismatch", "process_error",
                         "timeout", "unknown"}
    && (c.ok ==> c.returncode == 0 && c.termination == "good_trap")
    && c.difftestStatus in (if !c.difftestEnabled then {"disabled"}
                            else if c.ok then {"passed"} else {"incomplete", "mismatch"})
    && (c.difftestEnabled && c.ok ==> c.compared.Some? && c.compared.value > 0)
  }

  lemma {:induction false} HexDigits(x: char)
    ensures ('0' <= x <= '9' || 'a' <= x <= 'f') <==> x in "0123456789abcdef"
  {
    var digits := "0123456789abcdef";
    if '0' <= x <= '9' {
      assert digits[x as int - '0' as int] == x;
    }
    if 'a' <= x <= 'f' {
      assert digits[10 + x as int - 'a' as int] == x;
    }
  }

  lemma {:induction false} ScoredIsPlausible(c: Case, suite: string, runId: string)
    ensures ValidScoredCase(c, suite, runId) <==> Plausible(c, suite, runId)
  {
    forall x: char ensures ('0' <= x <= '9' || 'a' <= x <= 'f') <==> x in "0123456789abcdef" {
      HexDigits(x);
    }
  }

  /** A run is scored exactly if it has a suite, an identifier and cases, all of them plausible and
      with names of their own, and a valid regression record. */
  lemma {:induction false} ScoredRuns(round: Rounding, schemaVersion: int, suite: string, runId: string, r: Regression,
                                      cases: seq<Case>)
    ensures SimulationScore.SimulationScore(round, schemaVersion, suite, runId, r, cases).Some? <==>
            && schemaVersion == 1 && suite != "" && runId != "" && cases != []
            && (forall i, j | 0 <= i < j < |cases| :: cases[i].name != cases[j].name)
            && (forall c | c in cases :: Plausible(c, suite, runId))
            && ValidSimRegression(r, cases)
  {
    hide ValidSimRegression, ValidScoredCase, Plausible, CycleEarned, DifftestEarned, RegressionEarned, Count;
    forall c | c in cases ensures ValidScoredCase(c, suite, runId) <==> Plausible(c, suite, runId) {
      ScoredIsPlausible(c, suite, runId);
    }
  }
}
