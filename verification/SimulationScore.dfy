/** The simulation score: the validation of cases and of the regression record, and why the
    arithmetic behind it, divisions included, is safe for whatever passes. */
module SimulationScore {
  import opened Options
  import opened Scores

  datatype Case = Case(name: string, ok: bool, returncode: int, imageSha256: string, suite: string, runId: string,
                       termination: string, cycles: Option<int>,
                       difftestEnabled: bool, difftestStatus: string, compared: Option<int>)

  /** A cycle count against the previous run; no percentage if there were no cycles before. */
  datatype Change = Change(name: string, imageSha256: string, previous: int, current: int, delta: int,
    deltaPercent: Option<real>)

  datatype Regression = Regression(
    hasBaseline: bool, baselineRunId: string,
    newFailures: seq<string>, persistentFailures: seq<string>, fixed: seq<string>, added: seq<string>,
      removed: seq<string>,
    cycleChanges: seq<Change>)

  // Validation

  predicate IsSha256(s: string) {
    |s| == 64 && forall c | c in s :: '0' <= c <= '9' || 'a' <= c <= 'f'
  }

  const TERMINATIONS: set<string> :=
    {"bad_trap", "difftest_incomplete", "difftest_mismatch", "good_trap", "process_error", "timeout", "unknown"}

  predicate ValidScoredCase(c: Case, suite: string, runId: string) {
    && (c.imageSha256 == "" || IsSha256(c.imageSha256))
    && c.suite == suite && c.runId == runId
    && c.termination in TERMINATIONS
    && (c.ok ==> c.returncode == 0 && c.termination == "good_trap")
    && (if !c.difftestEnabled then c.difftestStatus == "disabled"
        else if c.ok then c.difftestStatus == "passed" && c.compared.Some? && c.compared.value > 0
        else c.difftestStatus == "incomplete" || c.difftestStatus == "mismatch")
  }

  predicate ValidNames(names: seq<string>) {
    (forall name | name in names :: name != "") && forall i, j | 0 <= i < j < |names| :: names[i] != names[j]
  }

  function Elements(names: seq<string>): set<string> {
    set name | name in names
  }

  function ByName(cases: seq<Case>): map<string, Case> {
    if cases == [] then map[]
    else ByName(cases[..|cases|-1])[cases[|cases|-1].name := cases[|cases|-1]]
  }

  function Failed(byName: map<string, Case>): set<string> {
    set name | name in byName && !byName[name].ok
  }

  function Abs(x: real): real {
    if x < 0.0 then -x else x
  }

  predicate IsClose(a: real, b: real) {
    Abs(a - b) <= 0.000000001 * Max(Abs(a), Abs(b))
  }

  predicate ValidChange(change: Change, byName: map<string, Case>) {
    && change.name in byName
    && IsSha256(change.imageSha256) && change.imageSha256 == byName[change.name].imageSha256
    && change.previous >= 0 && change.current >= 0
    && byName[change.name].cycles == Some(change.current)
    && change.delta == change.current - change.previous
    && (if change.previous == 0 then change.deltaPercent.None?
        else && change.deltaPercent.Some?
             && IsClose(change.deltaPercent.value,
                        (change.current - change.previous) as real / change.previous as real * 100.0))
  }

  predicate ChangesApart(changes: seq<Change>) {
    forall i, j | 0 <= i < j < |changes| :: changes[i].name != changes[j].name
  }

  predicate ValidLists(r: Regression, byName: map<string, Case>) {
    && ValidNames(r.newFailures) && ValidNames(r.persistentFailures) && ValidNames(r.fixed)
    && ValidNames(r.added) && ValidNames(r.removed)
    && (r.hasBaseline ==>
          && Elements(r.newFailures) + Elements(r.persistentFailures) == Failed(byName)
          && Elements(r.newFailures) !! Elements(r.persistentFailures))
    && Elements(r.fixed) <= byName.Keys - Failed(byName)
    && Elements(r.added) <= byName.Keys
  }

  predicate ValidSimRegression(r: Regression, cases: seq<Case>) {
    var byName := ByName(cases);
    && ValidLists(r, byName)
    && (forall change | change in r.cycleChanges :: ValidChange(change, byName))
    && ChangesApart(r.cycleChanges)
    && (if r.hasBaseline then r.baselineRunId != ""
        else && r.baselineRunId == "" && r.cycleChanges == []
             && r.newFailures == [] && r.persistentFailures == [] && r.fixed == [] && r.added == [] && r.removed == [])
  }

  method CasesByName(cases: seq<Case>) returns (byName: map<string, Case>)
    ensures byName == ByName(cases)
  {
    byName := map[];
    for i := 0 to |cases|
      invariant byName == ByName(cases[..i])
    {
      assert cases[..i+1][..i] == cases[..i];
      byName := byName[cases[i].name := cases[i]];
    }
    assert cases[..|cases|] == cases;
  }

  /** The validation as one pass over the changes that collects the names seen so far. */
  method CheckSimRegression(r: Regression, cases: seq<Case>) returns (valid: bool)
    ensures valid == ValidSimRegression(r, cases)
  {
    hide ValidLists, ValidChange;
    var byName := CasesByName(cases);
    if !ValidLists(r, byName) { return false; }
    var changeNames: set<string> := {};
    for i := 0 to |r.cycleChanges|
      invariant forall k | 0 <= k < i :: ValidChange(r.cycleChanges[k], byName)
      invariant ChangesApart(r.cycleChanges[..i])
      invariant changeNames == set k | 0 <= k < i :: r.cycleChanges[k].name
    {
      var change := r.cycleChanges[i];
      if change.name in changeNames {
        assert !ChangesApart(r.cycleChanges);
        return false;
      }
      if !ValidChange(change, byName) {
        assert change in r.cycleChanges;
        return false;
      }
      changeNames := changeNames + {change.name};
    }
    assert r.cycleChanges[..|r.cycleChanges|] == r.cycleChanges;
    if !r.hasBaseline {
      return r.baselineRunId == "" && r.newFailures == [] && r.persistentFailures == [] && r.fixed == []
             && r.added == [] && r.removed == [] && r.cycleChanges == [];
    }
    return r.baselineRunId != "";
  }

  predicate NamesApart(cases: seq<Case>) {
    forall i, j | 0 <= i < j < |cases| :: cases[i].name != cases[j].name
  }

  // Cycle coverage

  function Incomparable(r: Regression): set<string> {
    Elements(r.newFailures) + Elements(r.persistentFailures) + Elements(r.fixed)
  }

  predicate IsComparable(change: Change, r: Regression) {
    change.name !in Incomparable(r) && change.name !in Elements(r.added) && change.deltaPercent.Some?
  }

  function Comparable(changes: seq<Change>, r: Regression): (c: seq<Change>)
    ensures |c| <= |changes|
    ensures forall change | change in c :: change in changes && IsComparable(change, r)
  {
    if changes == [] then []
    else
      Comparable(changes[..|changes|-1], r)
      + if IsComparable(changes[|changes|-1], r) then [changes[|changes|-1]] else []
  }

  function Eligible(cases: seq<Case>, r: Regression): set<string> {
    set c | c in cases && c.ok && c.name !in Incomparable(r) && c.name !in Elements(r.added) :: c.name
  }

  lemma {:induction false} ComparableApart(changes: seq<Change>, r: Regression)
    requires ChangesApart(changes)
    ensures ChangesApart(Comparable(changes, r))
    decreases |changes|
  {
    if changes != [] {
      var front, last := changes[..|changes|-1], changes[|changes|-1];
      assert changes == front + [last];
      ComparableApart(front, r);
      var before := Comparable(front, r);
      forall i | 0 <= i < |before| ensures before[i].name != last.name {
        assert before[i] in front;
      }
    }
  }

  lemma {:induction false} NamedCase(cases: seq<Case>, name: string)
    requires name in ByName(cases)
    ensures ByName(cases)[name] in cases && ByName(cases)[name].name == name
    decreases |cases|
  {
    if cases[|cases|-1].name != name {
      NamedCase(cases[..|cases|-1], name);
    }
  }

  /** A comparable change names a case that passed and is neither new nor newly fixed. */
  lemma {:induction false} ComparableIsEligible(r: Regression, cases: seq<Case>, change: Change)
    requires ValidSimRegression(r, cases) && change in Comparable(r.cycleChanges, r)
    ensures r.hasBaseline && change.name in Eligible(cases, r)
  {
    var byName := ByName(cases);
    assert ValidChange(change, byName);
    assert change.name !in Failed(byName);
    NamedCase(cases, change.name);
  }

  function Names(changes: seq<Change>): set<string> {
    set change | change in changes :: change.name
  }

  lemma {:induction false} ApartCounted(changes: seq<Change>)
    requires ChangesApart(changes)
    ensures |Names(changes)| == |changes|
    decreases |changes|
  {
    if changes == [] {
      assert Names(changes) == {};
    } else {
      var front, last := changes[..|changes|-1], changes[|changes|-1];
      assert changes == front + [last];
      ApartCounted(front);
      assert Names(changes) == Names(front) + {last.name};
      assert last.name !in Names(front);
    }
  }

  lemma {:induction false} SubsetSmaller(a: set<string>, b: set<string>)
    requires a <= b
    ensures |a| <= |b|
  {
    assert b == a + (b - a);
  }

  /** Whatever passes the validation has comparable changes that name different eligible cases:
      there are at most as many as eligible cases, so the coverage never divides by zero and
      never exceeds one. */
  lemma {:induction false} CoverageIsSafe(r: Regression, cases: seq<Case>)
    requires ValidSimRegression(r, cases)
    ensures var comparable := Comparable(r.cycleChanges, r);
            && ChangesApart(comparable)
            && (forall change | change in comparable :: change.name in Eligible(cases, r))
            && |comparable| <= |Eligible(cases, r)|
            && (comparable != [] ==> r.hasBaseline && |Eligible(cases, r)| > 0)
  {
    hide ValidSimRegression, Comparable, Eligible;
    var comparable := Comparable(r.cycleChanges, r);
    ValidChangesApart(r, cases);
    ComparableApart(r.cycleChanges, r);
    ApartCounted(comparable);
    forall change | change in comparable ensures r.hasBaseline && change.name in Eligible(cases, r) {
      ComparableIsEligible(r, cases, change);
    }
    SubsetSmaller(Names(comparable), Eligible(cases, r));
    if |comparable| > 0 {
      assert comparable[0] in comparable;
    }
  }

  lemma {:induction false} ValidChangesApart(r: Regression, cases: seq<Case>)
    requires ValidSimRegression(r, cases)
    ensures ChangesApart(r.cycleChanges)
  {
  }

  // The score

  predicate Accepted(schemaVersion: int, suite: string, runId: string, r: Regression, cases: seq<Case>) {
    && schemaVersion == 1 && suite != "" && runId != "" && cases != []
    && NamesApart(cases)
    && (forall c | c in cases :: ValidScoredCase(c, suite, runId))
    && ValidSimRegression(r, cases)
  }

  predicate IsOk(c: Case) {
    c.ok
  }

  predicate Enabled(c: Case) {
    c.difftestEnabled
  }

  predicate Matched(c: Case) {
    c.difftestEnabled && c.difftestStatus == "passed"
  }

  predicate Measured(c: Case) {
    c.ok && c.cycles.Some? && c.cycles.value >= 0
  }

  function LargestIncrease(changes: seq<Change>): (x: real)
    ensures x >= 0.0
  {
    if changes == [] then 0.0
    else
      var before, last := LargestIncrease(changes[..|changes|-1]), changes[|changes|-1];
      if last.deltaPercent.Some? then Max(before, last.deltaPercent.value) else before
  }

  function DifftestEarned(cases: seq<Case>): real
    requires cases != []
  {
    var enabled := Count(cases, Enabled);
    if enabled > 0 then 20.0 * Count(cases, Matched) as real / enabled as real
    else 10.0 * (Count(cases, IsOk) as real / |cases| as real)
  }

  function RegressionEarned(r: Regression, cases: seq<Case>): real {
    if r.hasBaseline then if r.newFailures == [] && r.removed == [] then 10.0 else 0.0
    else if Count(cases, IsOk) == |cases| then 5.0 else 0.0
  }

  function CycleEarned(r: Regression, cases: seq<Case>): real
    requires ValidSimRegression(r, cases)
  {
    CoverageIsSafe(r, cases);
    var comparable := Comparable(r.cycleChanges, r);
    if r.hasBaseline && comparable != [] then
      var coverage := Min(1.0, |comparable| as real / |Eligible(cases, r)| as real);
      Max(0.0, 5.0 - Min(LargestIncrease(comparable), 10.0) * 0.5) * coverage
    else if r.hasBaseline then 0.0
    else if Count(cases, IsOk) == |cases| && Count(cases, Measured) == |cases| then 2.5
    else 0.0
  }

  function SimulationScore(round: Rounding, schemaVersion: int, suite: string, runId: string, r: Regression,
                           cases: seq<Case>)
    : Option<Score>
  {
    if !Accepted(schemaVersion, suite, runId, r, cases) then None
    else
      Some(Total(round, [
        ScoreComponent(round, 50.0 * (Count(cases, IsOk) as real / |cases| as real), 50.0),
        ScoreComponent(round, DifftestEarned(cases), 20.0),
        ScoreComponent(round, 15.0 * Count(cases, Measured) as real / |cases| as real, 15.0),
        ScoreComponent(round, RegressionEarned(r, cases), 10.0),
        ScoreComponent(round, CycleEarned(r, cases), 5.0)]))
  }

  lemma {:induction false} CountImplied(cases: seq<Case>, few: Case -> bool, many: Case -> bool)
    requires forall c | c in cases && few(c) :: many(c)
    ensures Count(cases, few) <= Count(cases, many)
    decreases |cases|
  {
    if cases != [] {
      assert cases[|cases|-1] in cases;
      CountImplied(cases[..|cases|-1], few, many);
    }
  }

  lemma {:induction false} RateWithin(possible: nat, part: nat, whole: nat)
    requires part <= whole && whole > 0
    ensures 0.0 <= possible as real * (part as real / whole as real) <= possible as real
  {
    QuotientWithin(part as real, whole as real, 1.0);
    PartWithin(possible as real, part as real / whole as real, possible as real);
  }

  lemma {:induction false} DifftestWithin(cases: seq<Case>)
    requires cases != []
    ensures 0.0 <= DifftestEarned(cases) <= 20.0
  {
    CountImplied(cases, Matched, Enabled);
    if Count(cases, Enabled) > 0 {
      ShareWithin(20, Count(cases, Matched), Count(cases, Enabled));
    } else {
      RateWithin(10, Count(cases, IsOk), |cases|);
    }
  }

  /** The cap on the coverage never applies: the cycle component is the stability of the worst
      comparable case times the share of eligible cases that were compared. */
  lemma {:induction false} CapNeverApplies(r: Regression, cases: seq<Case>)
    requires ValidSimRegression(r, cases) && Comparable(r.cycleChanges, r) != []
    ensures |Eligible(cases, r)| > 0
    ensures var comparable := Comparable(r.cycleChanges, r);
            CycleEarned(r, cases) == Max(0.0, 5.0 - Min(LargestIncrease(comparable), 10.0) * 0.5)
                                     * (|comparable| as real / |Eligible(cases, r)| as real)
  {
    hide ValidSimRegression, Comparable, Eligible, LargestIncrease;
    CoverageIsSafe(r, cases);
    QuotientWithin(|Comparable(r.cycleChanges, r)| as real, |Eligible(cases, r)| as real, 1.0);
  }

  lemma {:induction false} CycleWithinUncompared(r: Regression, cases: seq<Case>)
    requires ValidSimRegression(r, cases) && Comparable(r.cycleChanges, r) == []
    ensures 0.0 <= CycleEarned(r, cases) <= 5.0
  {
    hide ValidSimRegression, Comparable, Eligible;
  }

  lemma {:induction false} CycleWithin(r: Regression, cases: seq<Case>)
    requires ValidSimRegression(r, cases)
    ensures 0.0 <= CycleEarned(r, cases) <= 5.0
  {
    hide ValidSimRegression, Comparable, Eligible, LargestIncrease, CycleEarned;
    var comparable := Comparable(r.cycleChanges, r);
    if comparable == [] {
      CycleWithinUncompared(r, cases);
    } else {
      CoverageIsSafe(r, cases);
      CapNeverApplies(r, cases);
      var share := |comparable| as real / |Eligible(cases, r)| as real;
      QuotientWithin(|comparable| as real, |Eligible(cases, r)| as real, 1.0);
      PartWithin(Max(0.0, 5.0 - Min(LargestIncrease(comparable), 10.0) * 0.5), share, 5.0);
    }
  }

  /** Every simulation score that is not refused is bounded. */
  lemma {:induction false} SimulationScoreBounded(round: Rounding, schemaVersion: int, suite: string, runId: string,
                                                  r: Regression, cases: seq<Case>)
    requires RoundsToTenths(round)
    ensures var score := SimulationScore(round, schemaVersion, suite, runId, r, cases);
            score.Some? ==> Bounded(score.value)
  {
    hide ValidSimRegression, CycleEarned, DifftestEarned, RoundsToTenths;
    if Accepted(schemaVersion, suite, runId, r, cases) {
      RateWithin(50, Count(cases, IsOk), |cases|);
      DifftestWithin(cases);
      ShareWithin(15, Count(cases, Measured), |cases|);
      CycleWithin(r, cases);
      ComponentWithin(round, 50.0 * (Count(cases, IsOk) as real / |cases| as real), 50);
      ComponentWithin(round, DifftestEarned(cases), 20);
      ComponentWithin(round, 15.0 * Count(cases, Measured) as real / |cases| as real, 15);
      ComponentWithin(round, RegressionEarned(r, cases), 10);
      ComponentWithin(round, CycleEarned(r, cases), 5);
      var c := SimulationScore(round, schemaVersion, suite, runId, r, cases).value.components;
      SumOfFive(c);
      TotalBounded(round, c);
    }
  }

  /** For accepted cases, matching the reference and passing are the same thing. */
  lemma {:induction false} MatchedMeansPassed(schemaVersion: int, suite: string, runId: string, r: Regression,
                                              cases: seq<Case>)
    requires Accepted(schemaVersion, suite, runId, r, cases)
    ensures Count(cases, Matched) == Count(cases, (c: Case) => c.difftestEnabled && c.ok)
  {
    var passed := (c: Case) => c.difftestEnabled && c.ok;
    forall c | c in cases ensures Matched(c) <==> passed(c) {
      assert ValidScoredCase(c, suite, runId);
      assert "passed"[0] != "incomplete"[0] && "passed"[0] != "mismatch"[0];
    }
    CountImplied(cases, Matched, passed);
    CountImplied(cases, passed, Matched);
  }
}
