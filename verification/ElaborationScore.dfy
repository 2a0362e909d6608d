/** Elaboration: the summary built from a slang run and its log, and the score computed from
    the summary or refused. */
module ElaborationScore {
  import opened Options
  import opened Scores
  import opened SortedNames

  datatype Severity = ErrorSeverity | WarningSeverity | InfoSeverity

  datatype Diagnostic = Diagnostic(severity: Severity, message: string)

  datatype Summary = Summary(status: string, errors: int, warnings: int, modules: int, unresolvedModules: int,
                             topFound: bool, elaborationMode: string)

  datatype Compiler = Compiler(source: string, authoritative: bool, elaborationMode: string,
    unresolvedModules: seq<string>)

  datatype Report = Report(schemaVersion: int, status: string, returncode: int, summary: Summary, compiler: Compiler)

  // The score

  predicate CompilerPassed(r: Report) {
    r.status == "pass" && r.returncode == 0 && r.summary.errors == 0
  }

  predicate Accepted(r: Report) {
    && r.schemaVersion == 2
    && (r.status == "pass" || r.status == "fail")
    && r.summary.status == r.status
    && r.summary.errors >= 0 && r.summary.warnings >= 0 && r.summary.modules >= 0 && r.summary.unresolvedModules >= 0
    && r.compiler.source == "slang" && r.compiler.authoritative
    && r.compiler.elaborationMode == "full" && r.summary.elaborationMode == "full"
    && |r.compiler.unresolvedModules| == r.summary.unresolvedModules
    && (r.status == "pass" ==> CompilerPassed(r))
    && !(r.status == "fail" && r.returncode == 0 && r.summary.errors == 0)
  }

  function ElaborationScore(round: Rounding, r: Report): Option<Score> {
    if !Accepted(r) then None
    else
      var passed := CompilerPassed(r);
      Some(Total(round, [
        ScoreComponent(round, if passed then 25.0 else 0.0, 25.0),
        ScoreComponent(round, Penalised(30, 10, r.summary.errors) as real, 30.0),
        ScoreComponent(round, if passed then Penalised(20, 5, r.summary.unresolvedModules) as real else 0.0, 20.0),
        ScoreComponent(round, if passed && r.summary.topFound then 15.0 else 0.0, 15.0),
        ScoreComponent(round, Penalised(10, 2, r.summary.warnings) as real, 10.0)]))
  }

  lemma {:induction false} WholeComponent(round: Rounding, earned: int, possible: nat)
    requires RoundsToTenths(round) && 0 <= earned <= possible
    ensures ScoreComponent(round, earned as real, possible as real) == Component(earned as real, possible as real)
  {
    RoundWhole(round, earned);
  }

  /** Every score that is not refused is bounded, and full marks mean a pass with the top found,
      no warning and no unresolved module. */
  lemma {:induction false} ElaborationScoreBounded(round: Rounding, r: Report)
    requires RoundsToTenths(round) && Accepted(r)
    ensures var score := ElaborationScore(round, r).value;
            && Bounded(score)
            && (score.value == 100.0 <==>
                  r.status == "pass" && r.summary.topFound && r.summary.warnings == 0
                    && r.compiler.unresolvedModules == [])
  {
    hide RoundsToTenths;
    var passed := CompilerPassed(r);
    var c := ElaborationScore(round, r).value.components;
    WholeComponent(round, if passed then 25 else 0, 25);
    WholeComponent(round, Penalised(30, 10, r.summary.errors), 30);
    WholeComponent(round, if passed then Penalised(20, 5, r.summary.unresolvedModules) else 0, 20);
    WholeComponent(round, if passed && r.summary.topFound then 15 else 0, 15);
    WholeComponent(round, Penalised(10, 2, r.summary.warnings), 10);
    SumOfFive(c);
    TotalBounded(round, c);
    var whole := (if passed then 25 else 0) + Penalised(30, 10, r.summary.errors)
                 + (if passed then Penalised(20, 5, r.summary.unresolvedModules) else 0)
                 + (if passed && r.summary.topFound then 15 else 0) + Penalised(10, 2, r.summary.warnings);
    assert Earned(c) == whole as real;
    RoundWhole(round, whole);
  }

  // The summary

  /** The counts the log itself states, and the diagnostics parsed from it. */
  datatype Log = Log(errorCounts: seq<nat>, warningCounts: seq<nat>, diagnostics: seq<Diagnostic>)

  /** The last stated count, or else the number of diagnostics of that severity. */
  function DiagnosticCount(counts: seq<nat>, diagnostics: seq<Diagnostic>, severity: Severity): nat {
    if counts != [] then counts[|counts|-1]
    else Count(diagnostics, (d: Diagnostic) => d.severity == severity)
  }

  /** The module that a message reports as unknown, by the first pattern that matches. */
  type ModulePattern = string -> Option<string>

  ghost predicate ReportsUnresolved(diagnostics: seq<Diagnostic>, moduleOf: ModulePattern, name: string) {
    exists d :: d in diagnostics && d.severity.ErrorSeverity? && moduleOf(d.message) == Some(name)
  }

  /** Each reported module once, in order. */
  ghost predicate UnresolvedListed(names: seq<string>, diagnostics: seq<Diagnostic>, moduleOf: ModulePattern) {
    && Distinct(names) && InOrder(names)
    && (forall name :: name in names <==> ReportsUnresolved(diagnostics, moduleOf, name))
  }

  method CompilerUnresolvedModules(diagnostics: seq<Diagnostic>, moduleOf: ModulePattern) returns (names: seq<string>)
    ensures UnresolvedListed(names, diagnostics, moduleOf)
  {
    var unresolved := {};
    for i := 0 to |diagnostics|
      invariant forall x :: x in unresolved <==> ReportsUnresolved(diagnostics[..i], moduleOf, x)
    {
      var d := diagnostics[i];
      var name := moduleOf(d.message);
      forall x ensures ReportsUnresolved(diagnostics[..i+1], moduleOf, x) <==>
                       || x in unresolved || (d.severity.ErrorSeverity? && name == Some(x)) {
        OneMoreDiagnostic(diagnostics, i, moduleOf, x);
      }
      if d.severity.ErrorSeverity? && name.Some? {
        unresolved := unresolved + {name.value};
      }
    }
    assert diagnostics[..|diagnostics|] == diagnostics;
    names := Sort(unresolved);
  }

  lemma {:induction false} OneMoreDiagnostic(diagnostics: seq<Diagnostic>, i: nat, moduleOf: ModulePattern,
                                             name: string)
    requires i < |diagnostics|
    ensures ReportsUnresolved(diagnostics[..i+1], moduleOf, name) <==>
            || ReportsUnresolved(diagnostics[..i], moduleOf, name)
            || (diagnostics[i].severity.ErrorSeverity? && moduleOf(diagnostics[i].message) == Some(name))
  {
    assert diagnostics[..i+1] == diagnostics[..i] + [diagnostics[i]];
  }

  /** What the summary says about a run.  A missing return code counts as 1. */
  ghost predicate Summarises(r: Report, returncode: Option<int>, log: Log, moduleOf: ModulePattern) {
    var errors := DiagnosticCount(log.errorCounts, log.diagnostics, ErrorSeverity);
    var warnings := DiagnosticCount(log.warningCounts, log.diagnostics, WarningSeverity);
    && r.schemaVersion == 2
    && r.returncode == (if returncode.Some? then returncode.value else 1)
    && r.status == (if r.returncode == 0 && errors == 0 then "pass" else "fail")
    && r.summary.status == r.status
    && r.summary.errors == errors && r.summary.warnings == warnings && r.summary.modules >= 0
    && (r.status == "pass" ==> r.summary.topFound)
    && UnresolvedListed(r.compiler.unresolvedModules, log.diagnostics, moduleOf)
    && r.summary.unresolvedModules == |r.compiler.unresolvedModules|
    && r.compiler.source == "slang" && r.compiler.authoritative
    && r.compiler.elaborationMode == "full" && r.summary.elaborationMode == "full"
  }

  method BuildElabSummary(returncode: Option<int>, log: Log, moduleOf: ModulePattern, modules: nat,
                          sourceTopFound: bool)
    returns (r: Report)
    ensures Summarises(r, returncode, log, moduleOf)
    ensures r.summary.modules == modules && r.summary.topFound == (r.status == "pass" || sourceTopFound)
  {
    var errors := DiagnosticCount(log.errorCounts, log.diagnostics, ErrorSeverity);
    var warnings := DiagnosticCount(log.warningCounts, log.diagnostics, WarningSeverity);
    var code := if returncode.Some? then returncode.value else 1;
    var status := if code == 0 && errors == 0 then "pass" else "fail";
    var unresolved := CompilerUnresolvedModules(log.diagnostics, moduleOf);
    var topFound := status == "pass" || sourceTopFound;
    r := Report(2, status, code,
                Summary(status, errors, warnings, modules, |unresolved|, topFound, "full"),
                Compiler("slang", true, "full", unresolved));
  }

  /** For every run and log the score accepts the summary, and it is 100 exactly when the run
      passed without a warning and without an unresolved module. */
  lemma {:induction false} EverySummaryIsScored(round: Rounding, r: Report, returncode: Option<int>, log: Log,
                                                moduleOf: ModulePattern)
    requires RoundsToTenths(round) && Summarises(r, returncode, log, moduleOf)
    ensures var score := ElaborationScore(round, r);
            && score.Some? && Bounded(score.value)
            && (score.value.value == 100.0 <==>
                  && returncode == Some(0)
                  && DiagnosticCount(log.errorCounts, log.diagnostics, ErrorSeverity) == 0
                  && DiagnosticCount(log.warningCounts, log.diagnostics, WarningSeverity) == 0
                  && forall name :: !ReportsUnresolved(log.diagnostics, moduleOf, name))
  {
    hide ElaborationScore, DiagnosticCount, ReportsUnresolved;
    assert Accepted(r);
    ElaborationScoreBounded(round, r);
    NoneReported(r.compiler.unresolvedModules, log.diagnostics, moduleOf);
    assert "pass" != "fail" by { assert "pass"[0] != "fail"[0]; }
    ScoreWhenAccepted(round, r);
  }

  lemma {:induction false} ScoreWhenAccepted(round: Rounding, r: Report)
    ensures ElaborationScore(round, r).Some? <==> Accepted(r)
  {
  }

  lemma {:induction false} NoneReported(names: seq<string>, diagnostics: seq<Diagnostic>, moduleOf: ModulePattern)
    requires UnresolvedListed(names, diagnostics, moduleOf)
    ensures names == [] <==> forall name :: !ReportsUnresolved(diagnostics, moduleOf, name)
  {
    if |names| > 0 {
      assert names[0] in names;
    }
  }
}
