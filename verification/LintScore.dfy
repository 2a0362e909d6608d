/** The lint score: refused unless the summary agrees with the diagnostics it counts. */
module LintScore {
  import opened Options
  import opened Scores

  datatype Diagnostic = Diagnostic(severity: string, code: string, ownership: string, actionable: bool)

  datatype Summary = Summary(status: string, errors: int, warnings: int, diagnostics: int,
                             ownedErrors: int, ownedWarnings: int, actionableDiagnostics: int)

  datatype Report = Report(schemaVersion: int, tool: string, status: string, returncode: int,
    diagnostics: seq<Diagnostic>)

  predicate IsError(d: Diagnostic) {
    d.severity == "error"
  }

  predicate IsWarning(d: Diagnostic) {
    d.severity == "warning"
  }

  /** The diagnostics that the user's own sources are answerable for. */
  function Actionable(diagnostics: seq<Diagnostic>, ownership: string): (r: seq<Diagnostic>)
    ensures forall d :: d in r <==> d in diagnostics && d.actionable && d.ownership == ownership
  {
    if diagnostics == [] then []
    else
      var last := diagnostics[|diagnostics|-1];
      assert diagnostics == diagnostics[..|diagnostics|-1] + [last];
      Actionable(diagnostics[..|diagnostics|-1], ownership)
      + if last.actionable && last.ownership == ownership then [last] else []
  }

  /** The distinct rule codes, stripped and in upper case; a blank code is none. */
  function Rules(diagnostics: seq<Diagnostic>, normal: string -> string): set<string> {
    set d | d in diagnostics && normal(d.code) != "" :: normal(d.code)
  }

  predicate Accepted(r: Report, s: Summary, ownership: string) {
    var owned := Actionable(r.diagnostics, ownership);
    && r.schemaVersion == 1 && r.tool == "verilator"
    && (r.status == "pass" || r.status == "fail") && s.status == r.status
    && (forall d | d in r.diagnostics :: IsError(d) || IsWarning(d))
    && s.diagnostics == |r.diagnostics|
    && s.errors == Count(r.diagnostics, IsError) && s.warnings == Count(r.diagnostics, IsWarning)
    && s.ownedErrors == Count(owned, IsError) && s.ownedWarnings == Count(owned, IsWarning)
    && s.actionableDiagnostics == |owned|
    && (r.status == "pass" <==> r.returncode == 0 && Count(r.diagnostics, IsError) == 0)
  }

  /** Warnings cost two and a half points each, counted here in tenths. */
  function LintScore(round: Rounding, r: Report, s: Summary, ownership: string,
                     normal: string -> string): Option<Score> {
    if !Accepted(r, s, ownership) then None
    else
      var owned := Actionable(r.diagnostics, ownership);
      var completed := r.returncode == 0;
      Some(Total(round, [
        ScoreComponent(round, if completed then 25.0 else 0.0, 25.0),
        ScoreComponent(round, if completed then Penalised(40, 20, Count(owned, IsError)) as real else 0.0, 40.0),
        ScoreComponent(round, if completed then Tenths(Penalised(250, 25, Count(owned, IsWarning))) else 0.0, 25.0),
        ScoreComponent(round, if completed then Penalised(10, 2, |Rules(owned, normal)|) as real else 0.0, 10.0)]))
  }

  lemma {:induction false} TenthsComponent(round: Rounding, k: int, possible: nat)
    requires RoundsToTenths(round) && 0 <= k <= 10 * possible
    ensures ScoreComponent(round, Tenths(k), possible as real) == Component(Tenths(k), possible as real)
    ensures WithinPossible(Component(Tenths(k), possible as real))
  {
    RoundInTenths(round, k);
  }

  /** Every lint score that is not refused is bounded, and it is 100 exactly when the analysis
      completed and the user's own sources have no actionable diagnostic. */
  lemma {:induction false} LintScoreBounded(round: Rounding, r: Report, s: Summary, ownership: string,
                                            normal: string -> string)
    requires RoundsToTenths(round) && Accepted(r, s, ownership)
    ensures var score := LintScore(round, r, s, ownership, normal).value;
            && Bounded(score)
            && (score.value == 100.0 <==>
                  r.returncode == 0 && forall d | d in r.diagnostics :: !(d.actionable && d.ownership == ownership))
  {
    hide RoundsToTenths, Bounded;
    var owned := Actionable(r.diagnostics, ownership);
    CountNone(owned, IsError);
    CountNone(owned, IsWarning);
    NoRules(owned, normal);
    var completed := r.returncode == 0;
    var errors, warnings, rules := Count(owned, IsError), Count(owned, IsWarning), |Rules(owned, normal)|;
    assert errors == 0 && warnings == 0 <==> owned == [] by {
      if |owned| > 0 {
        assert owned[0] in owned;
      }
    }
    MarksTotal(round, completed, errors, warnings, rules, LintScore(round, r, s, ownership, normal).value.components);
    assert owned == [] <==> forall d | d in r.diagnostics :: !(d.actionable && d.ownership == ownership) by {
      if |owned| > 0 {
        assert owned[0] in owned;
      }
    }
  }

  lemma {:induction false} NoRules(diagnostics: seq<Diagnostic>, normal: string -> string)
    ensures diagnostics == [] ==> Rules(diagnostics, normal) == {}
  {
  }

  lemma {:induction false} MarksTotal(round: Rounding, completed: bool, errors: nat, warnings: nat, rules: nat,
                                      c: seq<Component>)
    requires RoundsToTenths(round) && |c| == 4
    requires c[0] == ScoreComponent(round, if completed then 25.0 else 0.0, 25.0)
    requires c[1] == ScoreComponent(round, if completed then Penalised(40, 20, errors) as real else 0.0, 40.0)
    requires c[2] == ScoreComponent(round, if completed then Tenths(Penalised(250, 25, warnings)) else 0.0, 25.0)
    requires c[3] == ScoreComponent(round, if completed then Penalised(10, 2, rules) as real else 0.0, 10.0)
    ensures Bounded(Total(round, c))
    ensures Total(round, c).value == 100.0 <==> completed && errors == 0 && warnings == 0 && rules == 0
  {
    var a, b := if completed then 250 else 0, if completed then 10 * Penalised(40, 20, errors) else 0;
    var d, e := if completed then Penalised(250, 25, warnings) else 0, if completed then 10 * Penalised(10, 2, rules)
        else 0;
    assert Tenths(10 * Penalised(40, 20, errors)) == Penalised(40, 20, errors) as real;
    assert Tenths(10 * Penalised(10, 2, rules)) == Penalised(10, 2, rules) as real;
    assert Tenths(0) == 0.0 && Tenths(250) == 25.0;
    TenthsComponent(round, a, 25);
    TenthsComponent(round, b, 40);
    TenthsComponent(round, d, 25);
    TenthsComponent(round, e, 10);
    SumOfFour(c);
    TotalBounded(round, c);
    assert Earned(c) == Tenths(a + b + d + e);
    RoundInTenths(round, a + b + d + e);
  }
}
