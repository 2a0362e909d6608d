/** What the elaboration score is made of: which reports are refused, and what each finding costs. */
module ElaborationMarks {
  import opened Options
  import opened Scores
  import opened ElaborationScore

  /** A report that is scored: complete, by the compiler itself, and not contradicting itself. */
  ghost predicate Coherent(r: Report) {
    && r.schemaVersion == 2 && r.compiler.source == "slang" && r.compiler.authoritative
    && r.compiler.elaborationMode == "full" && r.summary.elaborationMode == "full"
    && r.summary.errors >= 0 && r.summary.warnings >= 0 && r.summary.modules >= 0
    && r.summary.unresolvedModules == |r.compiler.unresolvedModules|
    && r.summary.status == r.status
    && r.status == if r.returncode == 0 && r.summary.errors == 0 then "pass" else "fail"
  }

  lemma {:induction false} AcceptedIsCoherent(r: Report)
    ensures Accepted(r) <==> Coherent(r)
  {
    assert "pass" != "fail" by { assert "pass"[0] != "fail"[0]; }
  }

  /** The score refuses exactly the reports that are not coherent.  Otherwise a pass is worth 25
      marks and the top 15 more, and each error, unresolved module and warning has its price. */
  lemma {:induction false} ElaborationComponents(round: Rounding, r: Report) returns (score: Option<Score>)
    requires RoundsToTenths(round)
    ensures score == ElaborationScore.ElaborationScore(round, r) && (score.Some? <==> Coherent(r))
    ensures score.Some? ==> |score.value.components| == 5
    ensures score.Some? ==>
              var c, passed := score.value.components, r.status == "pass";
              && c[0] == Component(if passed then 25.0 else 0.0, 25.0)
              && c[1].possible == 30.0 && Deducted(c[1].earned, 30.0, 10.0, r.summary.errors)
              && c[2].possible == 20.0
              && (if passed then Deducted(c[2].earned, 20.0, 5.0, r.summary.unresolvedModules)
                  else c[2].earned == 0.0)
              && c[3] == Component(if passed && r.summary.topFound then 15.0 else 0.0, 15.0)
              && c[4].possible == 10.0 && Deducted(c[4].earned, 10.0, 2.0, r.summary.warnings)
              && score.value.value == c[0].earned + c[1].earned + c[2].earned + c[3].earned + c[4].earned
  {
    hide RoundsToTenths, Accepted, Coherent, Deducted, Earned, Penalised;
    score := ElaborationScore.ElaborationScore(round, r);
    AcceptedIsCoherent(r);
    if Coherent(r) {
      CoherentParts(r);
      var c := score.value.components;
      WholeMarks(round, 25);
      WholeMarks(round, 15);
      WholeMarks(round, 0);
      PenaltyMarks(round, 30, 10, r.summary.errors);
      PenaltyMarks(round, 20, 5, r.summary.unresolvedModules);
      PenaltyMarks(round, 10, 2, r.summary.warnings);
      SumOfFive(c);
      TotalIsSum(round, c);
    }
  }

  lemma {:induction false} CoherentParts(r: Report)
    requires Coherent(r)
    ensures Accepted(r) && (CompilerPassed(r) <==> r.status == "pass")
    ensures r.summary.errors >= 0 && r.summary.warnings >= 0 && r.summary.unresolvedModules >= 0
  {
    AcceptedIsCoherent(r);
    assert "pass" != "fail" by { assert "pass"[0] != "fail"[0]; }
  }

  /** How many diagnostics of a severity a log has: the number it states last, or else those that
      are found in it. */
  lemma {:induction false} LogCounts(counts: seq<nat>, diagnostics: seq<Diagnostic>, severity: Severity)
    ensures DiagnosticCount(counts, diagnostics, severity) ==
            if |counts| > 0 then counts[|counts|-1]
            else |set i: nat | i < |diagnostics| && diagnostics[i].severity == severity|
  {
    var holds := (d: Diagnostic) => d.severity == severity;
    CountIsNumber(diagnostics, holds);
    assert Holding(diagnostics, holds) == set i: nat | i < |diagnostics| && diagnostics[i].severity == severity;
  }
}
