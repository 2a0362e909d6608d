/** What the readiness score is made of: which counts are refused, and what each of them earns. */
module ReadinessMarks {
  import opened Options
  import opened Scores
  import opened PortContracts
  import opened ReadinessScore

  /** Exactly as many times `possible` as `part` is of `whole`; all of it if there is nothing. */
  ghost predicate Exactly(x: real, possible: real, part: int, whole: int) {
    if whole == 0 then x == possible else x * whole as real == possible * part as real
  }

  /** Counts that can belong together. */
  ghost predicate Coherent(r: Readiness) {
    && r.schemaVersion == 1 && 0 <= r.rtlResolved <= r.rtlTotal && 0 < r.rtlTotal
    && 0 <= r.includeDirResolved <= r.includeDirTotal && r.definitions >= 0
    && 0 <= r.matchedPorts <= r.expectedPorts && r.missingPorts >= 0 && r.extraPorts >= 0 && r.mismatchedPorts >= 0
    && (r.verified <==> r.expectedPorts > 0)
    && r.matchedPorts + r.missingPorts + r.mismatchedPorts == r.expectedPorts
  }

  lemma {:induction false} AcceptedIsCoherent(r: Readiness)
    ensures Accepted(r) <==> Coherent(r)
  {
  }

  /** The score refuses exactly the counts that cannot belong together.  Otherwise sources and
      include directories count in proportion, the top for its definition and its place, matched
      ports in proportion and none too many for the rest, and each kept output for itself. */
  lemma {:induction false} ReadinessComponents(round: Rounding, r: Readiness) returns (score: Option<Score>)
    requires RoundsToTenths(round)
    ensures score == PrepareReadinessScore(round, r) && (score.Some? <==> Coherent(r))
    ensures score.Some? ==> |score.value.components| == 4
    ensures score.Some? ==>
              var c := score.value.components;
              && c[0].possible == 30.0 && c[1].possible == 20.0 && c[2].possible == 40.0 && c[3].possible == 10.0
              && (exists x: real, y: real ::
                    && Exactly(x, 20.0, r.rtlResolved, r.rtlTotal)
                    && Exactly(y, 10.0, r.includeDirResolved, r.includeDirTotal)
                    && c[0].earned == round(x + y))
              && c[1].earned == (match (r.topRequired, r.definitions == 1, r.sourceInInputs)
                                 case (false, _, _) => 20.0
                                 case (true, true, true) => 20.0
                                 case (true, true, false) => 15.0
                                 case (true, false, true) => 5.0
                                 case (true, false, false) => 0.0)
              && (if !r.applicable then c[2].earned == 40.0
                  else if r.expectedPorts == 0 then c[2].earned == 0.0
                  else exists x: real ::
                         Exactly(x, 35.0, r.matchedPorts, r.expectedPorts)
                         && c[2].earned == round(if r.extraPorts == 0 then x + 5.0 else x))
              && c[3].earned == (if r.inputFingerprint then 5.0 else 0.0) + (if r.mergedFilelist then 2.5 else 0.0)
                                + (if r.preparedManifest then 2.5 else 0.0)
              && score.value.value == c[0].earned + c[1].earned + c[2].earned + c[3].earned
  {
    hide RoundsToTenths, Accepted, Coherent, Earned, SourceEarned, TopEarned, InterfaceEarned, ReproducibilityEarned;
    score := PrepareReadinessScore(round, r);
    AcceptedIsCoherent(r);
    if score.Some? {
      var c := score.value.components;
      SourceExact(r);
      InterfaceExact(round, r);
      TopExact(round, r);
      ReproducibilityExact(round, r);
      RoundedTenths(round, r);
      SumOfFour(c);
      TotalIsSum(round, c);
    }
  }

  lemma {:induction false} RoundedTenths(round: Rounding, r: Readiness)
    requires RoundsToTenths(round) && Accepted(r)
    ensures IsTenths(round(SourceEarned(r))) && IsTenths(round(TopEarned(r)))
    ensures IsTenths(round(InterfaceEarned(r))) && IsTenths(round(ReproducibilityEarned(r)))
  {
    hide SourceEarned, TopEarned, InterfaceEarned, ReproducibilityEarned;
  }

  lemma {:induction false} SourceExact(r: Readiness)
    requires Accepted(r)
    ensures exists x: real, y: real ::
              && Exactly(x, 20.0, r.rtlResolved, r.rtlTotal)
              && Exactly(y, 10.0, r.includeDirResolved, r.includeDirTotal)
              && SourceEarned(r) == x + y
  {
    var x := 20.0 * r.rtlResolved as real / r.rtlTotal as real;
    var y := if r.includeDirTotal == 0 then 10.0 else 10.0 * r.includeDirResolved as real / r.includeDirTotal as real;
    assert Exactly(x, 20.0, r.rtlResolved, r.rtlTotal) && Exactly(y, 10.0, r.includeDirResolved, r.includeDirTotal);
  }

  lemma {:induction false} TopExact(round: Rounding, r: Readiness)
    requires RoundsToTenths(round)
    ensures round(TopEarned(r)) ==
            match (r.topRequired, r.definitions == 1, r.sourceInInputs)
            case (false, _, _) => 20.0
            case (true, true, true) => 20.0
            case (true, true, false) => 15.0
            case (true, false, true) => 5.0
            case (true, false, false) => 0.0
  {
    WholeMarks(round, 20);
    WholeMarks(round, 15);
    WholeMarks(round, 5);
    WholeMarks(round, 0);
  }

  lemma {:induction false} InterfaceExact(round: Rounding, r: Readiness)
    requires RoundsToTenths(round) && Accepted(r)
    ensures if !r.applicable then round(InterfaceEarned(r)) == 40.0
            else if r.expectedPorts == 0 then round(InterfaceEarned(r)) == 0.0
            else exists x: real ::
                   Exactly(x, 35.0, r.matchedPorts, r.expectedPorts)
                   && round(InterfaceEarned(r)) == round(if r.extraPorts == 0 then x + 5.0 else x)
  {
    WholeMarks(round, 40);
    WholeMarks(round, 0);
    if r.applicable && r.expectedPorts > 0 {
      var x := 35.0 * r.matchedPorts as real / r.expectedPorts as real;
      assert Exactly(x, 35.0, r.matchedPorts, r.expectedPorts);
    }
  }

  lemma {:induction false} ReproducibilityExact(round: Rounding, r: Readiness)
    requires RoundsToTenths(round)
    ensures round(ReproducibilityEarned(r)) ==
            (if r.inputFingerprint then 5.0 else 0.0) + (if r.mergedFilelist then 2.5 else 0.0)
            + (if r.preparedManifest then 2.5 else 0.0)
  {
    assert Tenths(100) == 10.0 && Tenths(75) == 7.5 && Tenths(50) == 5.0 && Tenths(25) == 2.5 && Tenths(0) == 0.0;
    RoundInTenths(round, 100);
    RoundInTenths(round, 75);
    RoundInTenths(round, 50);
    RoundInTenths(round, 25);
    RoundInTenths(round, 0);
  }

  // The facts

  /** What the prepare step reports: files and directories that exist, the definitions of the top
      and whether its source is among the inputs, and the comparison of its ports. */
  lemma {:induction false} ReportedFacts(p: Prepared, c: Contract, expected: seq<Port>, actual: seq<Port>,
                                         topRequired: bool, outputsPersisted: bool, isFile: string -> bool,
                                         isDirectory: string -> bool, resolve: string -> string)
    requires Built(c, expected, actual)
    ensures var r := BuildReadinessFacts(p, c, topRequired, outputsPersisted, isFile, isDirectory, resolve);
            var e, a := ByName(expected), ByName(actual);
            && r.rtlTotal == |p.rtlFiles| && r.rtlResolved == |Holding(p.rtlFiles, isFile)|
            && r.includeDirTotal == |p.incdirs| && r.includeDirResolved == |Holding(p.incdirs, isDirectory)|
            && (r.topRequired <==> topRequired)
            && r.definitions == (match c.count
                                 case Some(n) => if n < 0 then 0 else n
                                 case None => if c.source == "" then 0 else 1)
            && (r.sourceInInputs <==> c.source != "" && exists f :: f in p.rtlFiles && resolve(f) == resolve(c.source))
            && (r.applicable <==>
                  c.interfaceApplicable == Some(true) || (c.interfaceApplicable.None? && !c.notRequired))
            && (r.verified <==> c.expectedPorts.Some? && expected != [])
            && r.expectedPorts == (if c.expectedPorts.Some? then |expected| else 0)
            && r.matchedPorts + r.missingPorts + r.mismatchedPorts == r.expectedPorts
            && r.missingPorts == (if r.verified then |e.Keys - a.Keys| else 0)
            && r.extraPorts == (if r.verified then |a.Keys - e.Keys| else 0)
            && r.mismatchedPorts == (if r.verified then |Mismatched(e, a)| else 0)
            && (r.inputFingerprint <==> p.sourceFingerprint != "")
            && (r.mergedFilelist <==> outputsPersisted) && (r.preparedManifest <==> outputsPersisted)
  {
    hide Count, Holding, ByName, Compares, Mismatched;
    CountIsNumber(p.rtlFiles, isFile);
    CountIsNumber(p.incdirs, isDirectory);
    if c.differences.Some? {
      PortsAddUp(expected, actual, c.differences.value);
      ComparedSizes(expected, actual, c.differences.value);
    }
  }

  lemma {:induction false} ComparedSizes(expected: seq<Port>, actual: seq<Port>, d: Differences)
    requires Compares(expected, actual, d)
    ensures var e, a := ByName(expected), ByName(actual);
            && |d.missing| == |e.Keys - a.Keys| && |d.extra| == |a.Keys - e.Keys|
            && |d.mismatches| == |Mismatched(e, a)|
  {
    var e, a := ByName(expected), ByName(actual);
    ListedOnce(d.missing, e.Keys - a.Keys);
    ListedOnce(d.extra, a.Keys - e.Keys);
    ListedOnce(d.mismatches, Mismatched(e, a));
  }
}
