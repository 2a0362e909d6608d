/** What the lint score is made of: which reports are refused, and what each finding costs. */
module LintMarks {
  import opened Options
  import opened Scores
  import opened LintScore

  /** The actionable diagnostics of a severity in the user's own sources. */
  ghost function Owned(diagnostics: seq<Diagnostic>, ownership: string, severity: string): set<nat> {
    set i: nat | i < |diagnostics| && diagnostics[i].actionable && diagnostics[i].ownership == ownership
                 && diagnostics[i].severity == severity
  }

  /** The rules they break, each once; a blank code is no rule. */
  ghost function Broken(diagnostics: seq<Diagnostic>, ownership: string, normal: string -> string): set<string> {
    set d | d in diagnostics && d.actionable && d.ownership == ownership && normal(d.code) != "" :: normal(d.code)
  }

  /** Counting among the actionable diagnostics is counting with both conditions. */
  lemma {:induction false} FilteredCount(diagnostics: seq<Diagnostic>, ownership: string, holds: Diagnostic -> bool,
                                         both: Diagnostic -> bool)
    requires forall d :: both(d) <==> d.actionable && d.ownership == ownership && holds(d)
    ensures Count(Actionable(diagnostics, ownership), holds) == Count(diagnostics, both)
    decreases |diagnostics|
  {
    hide Actionable, Count;
    if diagnostics == [] {
      NoneCounted(ownership, holds, both);
    } else {
      var front, last := diagnostics[..|diagnostics|-1], diagnostics[|diagnostics|-1];
      FilteredCount(front, ownership, holds, both);
      ActionableNext(diagnostics, ownership);
      CountNext(front, last, both);
      CountNext(Actionable(front, ownership), last, holds);
      assert diagnostics == front + [last];
    }
  }

  lemma {:induction false} NoneCounted(ownership: string, holds: Diagnostic -> bool, both: Diagnostic -> bool)
    ensures Count(Actionable([], ownership), holds) == Count([], both) == 0
  {
  }

  lemma {:induction false} ActionableNext(diagnostics: seq<Diagnostic>, ownership: string)
    requires diagnostics != []
    ensures var front, last := diagnostics[..|diagnostics|-1], diagnostics[|diagnostics|-1];
            Actionable(diagnostics, ownership) ==
            if last.actionable && last.ownership == ownership then Actionable(front, ownership) + [last]
            else Actionable(front, ownership)
  {
  }

  lemma {:induction false} CountNext(items: seq<Diagnostic>, last: Diagnostic, holds: Diagnostic -> bool)
    ensures Count(items + [last], holds) == Count(items, holds) + if holds(last) then 1 else 0
  {
    assert (items + [last])[..|items|] == items;
  }

  lemma {:induction false} OwnedCounted(diagnostics: seq<Diagnostic>, ownership: string, severity: string,
                                        holds: Diagnostic -> bool)
    requires forall d :: holds(d) <==> d.severity == severity
    ensures Count(Actionable(diagnostics, ownership), holds) == |Owned(diagnostics, ownership, severity)|
  {
    hide Count, Actionable;
    var both := (d: Diagnostic) => d.actionable && d.ownership == ownership && d.severity == severity;
    FilteredCount(diagnostics, ownership, holds, both);
    CountIsNumber(diagnostics, both);
    assert Holding(diagnostics, both) == Owned(diagnostics, ownership, severity);
  }

  lemma {:induction false} RulesAreBroken(diagnostics: seq<Diagnostic>, ownership: string, normal: string -> string)
    ensures Rules(Actionable(diagnostics, ownership), normal) == Broken(diagnostics, ownership, normal)
  {
  }

  /** The report and its summary count the same diagnostics, and the status is that of the run. */
  ghost predicate Coherent(r: Report, s: Summary, ownership: string) {
    var severities := (severity: string) => set i: nat | i < |r.diagnostics| && r.diagnostics[i].severity == severity;
    var owned := set i: nat | i < |r.diagnostics| && r.diagnostics[i].actionable
                               && r.diagnostics[i].ownership == ownership;
    && r.schemaVersion == 1 && r.tool == "verilator" && s.status == r.status
    && (forall d | d in r.diagnostics :: d.severity in {"error", "warning"})
    && s.diagnostics == |r.diagnostics| && s.actionableDiagnostics == |owned|
    && s.errors == |severities("error")| && s.warnings == |severities("warning")|
    && s.ownedErrors == |Owned(r.diagnostics, ownership, "error")|
    && s.ownedWarnings == |Owned(r.diagnostics, ownership, "warning")|
    && r.status == if r.returncode == 0 && s.errors == 0 then "pass" else "fail"
  }

  lemma {:induction false} ActionableCounted(diagnostics: seq<Diagnostic>, ownership: string)
    ensures |Actionable(diagnostics, ownership)| ==
            |set i: nat | i < |diagnostics| && diagnostics[i].actionable && diagnostics[i].ownership == ownership|
  {
    hide Count, Actionable;
    var all, mine := (d: Diagnostic) => true, (d: Diagnostic) => d.actionable && d.ownership == ownership;
    FilteredCount(diagnostics, ownership, all, mine);
    CountAll(Actionable(diagnostics, ownership), all);
    CountIsNumber(diagnostics, mine);
    assert Holding(diagnostics, mine) ==
           set i: nat | i < |diagnostics| && diagnostics[i].actionable && diagnostics[i].ownership == ownership;
  }

  lemma {:induction false} AcceptedIsCoherent(r: Report, s: Summary, ownership: string)
    ensures Accepted(r, s, ownership) <==> Coherent(r, s, ownership)
  {
    hide Count, Actionable, Owned;
    assert "pass" != "fail" by { assert "pass"[0] != "fail"[0]; }
    CountIsNumber(r.diagnostics, IsError);
    CountIsNumber(r.diagnostics, IsWarning);
    assert Holding(r.diagnostics, IsError) ==
           set i: nat | i < |r.diagnostics| && r.diagnostics[i].severity == "error";
    assert Holding(r.diagnostics, IsWarning) ==
           set i: nat | i < |r.diagnostics| && r.diagnostics[i].severity == "warning";
    ActionableCounted(r.diagnostics, ownership);
    OwnedCounted(r.diagnostics, ownership, "error", IsError);
    OwnedCounted(r.diagnostics, ownership, "warning", IsWarning);
  }

  /** The score refuses exactly the reports that contradict their summary.  An analysis that did
      not complete earns nothing; a completed one loses 20 marks for each error, two and a half
      for each warning and two for each rule broken, among the user's actionable diagnostics. */
  lemma {:induction false} LintComponents(round: Rounding, r: Report, s: Summary, ownership: string,
                                          normal: string -> string) returns (score: Option<Score>)
    requires RoundsToTenths(round)
    ensures score == LintScore.LintScore(round, r, s, ownership, normal)
    ensures score.Some? <==> Coherent(r, s, ownership)
    ensures score.Some? ==> |score.value.components| == 4
    ensures score.Some? && r.returncode != 0 ==> score.value.value == 0.0
    ensures score.Some? && r.returncode == 0 ==>
              var c := score.value.components;
              && c[0] == Component(25.0, 25.0)
              && c[1].possible == 40.0 && Deducted(c[1].earned, 40.0, 20.0, |Owned(r.diagnostics, ownership, "error")|)
              && c[2].possible == 25.0 && Deducted(c[2].earned, 25.0, 2.5, |Owned(r.diagnostics, ownership, "warning")|)
              && c[3].possible == 10.0 && Deducted(c[3].earned, 10.0, 2.0, |Broken(r.diagnostics, ownership, normal)|)
              && score.value.value == c[0].earned + c[1].earned + c[2].earned + c[3].earned
  {
    hide RoundsToTenths, Accepted, Coherent, Deducted, Earned, Penalised, Count, Actionable, Owned, Broken, Rules;
    score := LintScore.LintScore(round, r, s, ownership, normal);
    AcceptedIsCoherent(r, s, ownership);
    if score.Some? {
      var c := score.value.components;
      OwnedCounted(r.diagnostics, ownership, "error", IsError);
      OwnedCounted(r.diagnostics, ownership, "warning", IsWarning);
      RulesAreBroken(r.diagnostics, ownership, normal);
      WholeMarks(round, 25);
      WholeMarks(round, 0);
      PenaltyMarks(round, 40, 20, |Owned(r.diagnostics, ownership, "error")|);
      TenthsMarks(round, |Owned(r.diagnostics, ownership, "warning")|);
      PenaltyMarks(round, 10, 2, |Broken(r.diagnostics, ownership, normal)|);
      SumOfFour(c);
      TotalIsSum(round, c);
    }
  }

  lemma {:induction false} TenthsMarks(round: Rounding, count: nat)
    requires RoundsToTenths(round)
    ensures var left := Tenths(Penalised(250, 25, count));
            round(left) == left && IsTenths(left) && Deducted(left, 25.0, 2.5, count)
  {
    RoundInTenths(round, Penalised(250, 25, count));
  }
}
