/** Prepare readiness: the facts the prepare step reports about its inputs and the CPU port
    contract, and the score that is computed from them or refused. */
module ReadinessScore {
  import opened Options
  import opened PortContracts
  import opened Scores

  datatype Readiness = Readiness(
    schemaVersion: int,
    rtlTotal: int, rtlResolved: int, includeDirTotal: int, includeDirResolved: int,
    topRequired: bool, definitions: int, sourceInInputs: bool,
    applicable: bool, verified: bool,
    expectedPorts: int, matchedPorts: int, missingPorts: int, extraPorts: int, mismatchedPorts: int,
    inputFingerprint: bool, mergedFilelist: bool, preparedManifest: bool)

  predicate ValidCounts(r: Readiness) {
    && r.rtlTotal >= 0 && r.rtlResolved >= 0 && r.includeDirTotal >= 0 && r.includeDirResolved >= 0
    && r.definitions >= 0
    && r.expectedPorts >= 0 && r.matchedPorts >= 0 && r.missingPorts >= 0 && r.extraPorts >= 0 && r.mismatchedPorts >= 0
  }

  predicate ValidSources(r: Readiness) {
    r.rtlTotal > 0 && r.rtlResolved <= r.rtlTotal && r.includeDirResolved <= r.includeDirTotal
  }

  predicate ValidInterface(r: Readiness) {
    && r.matchedPorts <= r.expectedPorts
    && (r.verified ==> r.expectedPorts != 0 && r.matchedPorts + r.missingPorts + r.mismatchedPorts == r.expectedPorts)
    && (!r.verified ==> r.expectedPorts == 0 && r.matchedPorts == 0 && r.missingPorts == 0 && r.mismatchedPorts == 0)
  }

  predicate Accepted(r: Readiness) {
    r.schemaVersion == 1 && ValidCounts(r) && ValidSources(r) && ValidInterface(r)
  }

  function SourceEarned(r: Readiness): real
    requires Accepted(r)
  {
    20.0 * r.rtlResolved as real / r.rtlTotal as real
    + if r.includeDirTotal == 0 then 10.0 else 10.0 * r.includeDirResolved as real / r.includeDirTotal as real
  }

  function TopEarned(r: Readiness): real {
    if !r.topRequired then 20.0
    else (if r.definitions == 1 then 15.0 else 0.0) + (if r.sourceInInputs then 5.0 else 0.0)
  }

  function InterfaceEarned(r: Readiness): real
    requires Accepted(r)
  {
    if !r.applicable then 40.0
    else if !r.verified then 0.0
    else 35.0 * r.matchedPorts as real / r.expectedPorts as real + if r.extraPorts == 0 then 5.0 else 0.0
  }

  function ReproducibilityEarned(r: Readiness): real {
    (if r.inputFingerprint then 5.0 else 0.0)
    + (if r.mergedFilelist then 2.5 else 0.0)
    + (if r.preparedManifest then 2.5 else 0.0)
  }

  function PrepareReadinessScore(round: Rounding, r: Readiness): Option<Score> {
    if !Accepted(r) then None
    else
      Some(Total(round, [ScoreComponent(round, SourceEarned(r), 30.0),
                         ScoreComponent(round, TopEarned(r), 20.0),
                         ScoreComponent(round, InterfaceEarned(r), 40.0),
                         ScoreComponent(round, ReproducibilityEarned(r), 10.0)]))
  }

  lemma {:induction false} EarnedWithin(r: Readiness)
    requires Accepted(r)
    ensures 0.0 <= SourceEarned(r) <= 30.0 && 0.0 <= InterfaceEarned(r) <= 40.0
  {
    ShareWithin(20, r.rtlResolved, r.rtlTotal);
    if r.includeDirTotal != 0 { ShareWithin(10, r.includeDirResolved, r.includeDirTotal); }
    if r.verified { ShareWithin(35, r.matchedPorts, r.expectedPorts); }
  }

  lemma {:induction false} TopWithin(r: Readiness)
    ensures 0.0 <= TopEarned(r) <= 20.0 && 0.0 <= ReproducibilityEarned(r) <= 10.0
  {
  }

  /** Every score that is not refused is bounded, in each component and in the total. */
  lemma {:induction false} ReadinessScoreBounded(round: Rounding, r: Readiness)
    requires RoundsToTenths(round)
    ensures var score := PrepareReadinessScore(round, r); score.Some? ==> Bounded(score.value)
  {
    hide RoundsToTenths, Earned, Possible, SourceEarned, TopEarned, InterfaceEarned, ReproducibilityEarned;
    if Accepted(r) {
      TopWithin(r);
      EarnedWithin(r);
      ComponentWithin(round, SourceEarned(r), 30);
      ComponentWithin(round, TopEarned(r), 20);
      ComponentWithin(round, InterfaceEarned(r), 40);
      ComponentWithin(round, ReproducibilityEarned(r), 10);
      var components := PrepareReadinessScore(round, r).value.components;
      SumOfFour(components);
      TotalBounded(round, components);
    }
  }

  // The facts

  /** The part of a top contract that the facts are built from. */
  datatype Contract = Contract(
    source: string, count: Option<int>, interfaceApplicable: Option<bool>, notRequired: bool,
    expectedPorts: Option<int>, differences: Option<Differences>)

  /** The contracts the prepare step builds: without a port contract, or with the expected
      ports, compared unless there are none. */
  ghost predicate Built(c: Contract, expected: seq<Port>, actual: seq<Port>) {
    || (c.expectedPorts.None? && c.differences.None?)
    || (&& c.expectedPorts == Some(|expected|)
        && (c.differences.Some? <==> expected != [])
        && (c.differences.Some? ==> Compares(expected, actual, c.differences.value)))
  }

  datatype Prepared = Prepared(rtlFiles: seq<string>, incdirs: seq<string>, sourceFingerprint: string)

  function BuildReadinessFacts(p: Prepared, c: Contract, topRequired: bool, outputsPersisted: bool,
                               isFile: string -> bool, isDirectory: string -> bool,
                                 resolve: string -> string): Readiness {
    var d := if c.differences.Some? then c.differences.value else Differences([], [], []);
    var expectedPorts := if c.expectedPorts.Some? && c.expectedPorts.value >= 0 then c.expectedPorts.value else 0;
    var resolved := set f | f in p.rtlFiles :: resolve(f);
    var definitions := if c.count.Some? then c.count.value else if c.source != "" then 1 else 0;
    Readiness(
      1,
      |p.rtlFiles|, Count(p.rtlFiles, isFile), |p.incdirs|, Count(p.incdirs, isDirectory),
      topRequired, if definitions > 0 then definitions else 0, c.source != "" && resolve(c.source) in resolved,
      if c.interfaceApplicable.Some? then c.interfaceApplicable.value else !c.notRequired, expectedPorts > 0,
      expectedPorts, MatchedPorts(expectedPorts, d), |d.missing|, |d.extra|, |d.mismatches|,
      p.sourceFingerprint != "", outputsPersisted, outputsPersisted)
  }

  /** The score refuses the facts of the prepare step exactly when there is no RTL file,
      whatever ports were expected and found. */
  lemma {:induction false} FactsAreScored(round: Rounding, p: Prepared, c: Contract, expected: seq<Port>,
                                          actual: seq<Port>,
                                          topRequired: bool, outputsPersisted: bool,
                                          isFile: string -> bool, isDirectory: string -> bool,
                                            resolve: string -> string)
    requires Built(c, expected, actual)
    ensures PrepareReadinessScore(round, BuildReadinessFacts(p, c, topRequired, outputsPersisted, isFile, isDirectory,
        resolve)).Some?
            <==> p.rtlFiles != []
  {
    if c.differences.Some? {
      PortsAddUp(expected, actual, c.differences.value);
    }
  }

  /** A completely prepared workspace scores 100: every input is there, the top is defined once
      in the prepared inputs, the outputs are persisted, and the comparison of the expected
      ports with those of the top finds no difference. */
  lemma {:induction false} CompleteScoresHundred(round: Rounding, p: Prepared, c: Contract, expected: seq<Port>,
                                                 actual: seq<Port>,
                                                 isFile: string -> bool, isDirectory: string -> bool,
                                                   resolve: string -> string)
    requires RoundsToTenths(round) && Built(c, expected, actual) && p.rtlFiles != []
    requires (forall f | f in p.rtlFiles :: isFile(f)) && (forall d | d in p.incdirs :: isDirectory(d))
    requires c.source in p.rtlFiles && c.source != "" && (c.count.None? || c.count.value == 1)
        && p.sourceFingerprint != ""
    requires c.differences == Some(Differences([], [], []))
    ensures PrepareReadinessScore(round, BuildReadinessFacts(p, c, true, true, isFile, isDirectory,
        resolve)).value.value == 100.0
  {
    var r := BuildReadinessFacts(p, c, true, true, isFile, isDirectory, resolve);
    FactsAreScored(round, p, c, expected, actual, true, true, isFile, isDirectory, resolve);
    CountAll(p.rtlFiles, isFile);
    CountAll(p.incdirs, isDirectory);
    FullMarks(round, r);
  }

  lemma {:induction false} FullMarks(round: Rounding, r: Readiness)
    requires RoundsToTenths(round) && Accepted(r)
    requires r.rtlResolved == r.rtlTotal && r.includeDirResolved == r.includeDirTotal
    requires r.definitions == 1 && r.sourceInInputs
        && (!r.applicable || (r.matchedPorts == r.expectedPorts > 0 && r.extraPorts == 0))
    requires r.inputFingerprint && r.mergedFilelist && r.preparedManifest
    ensures PrepareReadinessScore(round, r).value.value == 100.0
  {
    hide RoundsToTenths;
    WholeShare(20.0, r.rtlTotal);
    if r.includeDirTotal != 0 { WholeShare(10.0, r.includeDirTotal); }
    if r.applicable { WholeShare(35.0, r.expectedPorts); }
    RoundWhole(round, 30);
    RoundWhole(round, 20);
    RoundWhole(round, 40);
    RoundWhole(round, 10);
    RoundWhole(round, 100);
    SumOfFour(PrepareReadinessScore(round, r).value.components);
  }

  lemma {:induction false} WholeShare(possible: real, whole: nat)
    requires whole > 0
    ensures possible * whole as real / whole as real == possible
  {
  }
}
