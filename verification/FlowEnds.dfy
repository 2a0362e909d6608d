/** What the end that the flow command reports says about its turns and about the flow. */
module FlowEnds {
  import opened Options
  import opened StepProvenance
  import opened Flow
  import opened FlowTheorems
  import opened FlowRuns
  import opened FlowService

  // Which turn ended the command

  /** How an executed handler ends its step. */
  function ResultOf(turn: Turn): RunResult {
    if Succeeds(turn) then Returned(Success)
    else if turn.outcome.Interrupted? then Reraised
    else Returned(Incomplete)
  }

  lemma {:induction false} ExecuteResult(e: Engine, k: nat, provenance: Provenance, turn: Turn)
    requires k < |e.steps|
    ensures Execute(e, k, provenance, turn).1 == ResultOf(turn)
  {
    hide PutQor, ClearQor, FinishStep, FailStep;
  }

  lemma {:induction false} ForceStepResult(e: Engine, k: nat, turn: Turn)
    requires k < |e.steps|
    ensures ForceStep(e, k, turn).1 == ResultOf(turn)
  {
    hide MarkDownstream, Prepare, Execute, ExpectedProvenance;
    MarkDownstreamKeepsShape(e, k);
    var marked := MarkDownstream(e, k);
    PrepareKeepsShape(marked, k, turn.marker);
    ExecuteResult(Prepare(marked, k, turn.marker), k, ExpectedProvenance(marked.steps, k, turn.env), turn);
  }

  lemma {:induction false} RunStepResult(e: Engine, k: nat, rerun: bool, turn: Turn)
    requires k < |e.steps|
    ensures RunStep(e, k, rerun, turn).1 ==
            if rerun || !RefreshedSteps(e.steps, turn.env)[k].state.Success? then ResultOf(turn) else Returned(Success)
  {
    hide ForceStep, RefreshedSteps, RefreshStaleStates;
    RefreshEffect(e, turn.env);
    RefreshKeepsShape(e, turn.env);
    ForceStepResult(RefreshStaleStates(e, turn.env), k, turn);
  }

  /** The end of one iteration, as its turns decide it. */
  function IterationEnd(due: bool, name: string, turn: FlowTurn): Option<FlowEnd> {
    if due && ResultOf(turn.prepareTurn) == Reraised then Some(Aborted)
    else if due && ResultOf(turn.prepareTurn) != Returned(Success) then Some(PrepareFailed)
    else if ResultOf(turn.turn) == Reraised then Some(Aborted)
    else if ResultOf(turn.turn) != Returned(Success) then Some(StepFailed(name))
    else None
  }

  lemma {:induction false} IterationEnds(e: Engine, k: nat, start: Option<nat>, rerun: bool, refreshed: bool,
                                         turn: FlowTurn)
    requires k < |e.steps| && MustRun(e, k, start, rerun)
    ensures Iterate(e, k, rerun || start == Some(k), refreshed, turn).2 ==
            IterationEnd(PrepareDue(e.steps, k, refreshed, turn), e.steps[k].name, turn)
  {
    hide RunStep, RefreshedSteps;
    RefreshPrepareEffect(e, k, start, rerun, refreshed, turn);
    var p := StepIndex(e.steps, "prepare", 0);
    if p.Some? {
      RunStepResult(e, p.value, true, turn.prepareTurn);
    }
    var (ready, _, _) := RefreshPrepare(e, k, refreshed, turn);
    RunStepResult(ready, k, rerun || start == Some(k), turn.turn);
    RefreshNeverPromotes(ready.steps, turn.turn.env);
  }

  /** The end of a forced tail: that of the first turn that does not succeed. */
  function TailEnd(steps: seq<FlowStep>, k: nat, refreshed: bool, turns: seq<FlowTurn>): FlowEnd
    requires k <= |steps| == |turns|
    decreases |steps| - k
  {
    if k == |steps| then Completed
    else
      var due := PrepareDue(steps, k, refreshed, turns[k]);
      var end := IterationEnd(due, steps[k].name, turns[k]);
      if end.Some? then end.value else TailEnd(steps, k + 1, refreshed || due, turns)
  }

  lemma {:induction false} TailEndAgrees(steps: seq<FlowStep>, steps': seq<FlowStep>, k: nat, refreshed: bool,
                                         turns: seq<FlowTurn>)
    requires SameNames(steps, steps') && k <= |steps| == |turns|
    ensures TailEnd(steps, k, refreshed, turns) == TailEnd(steps', k, refreshed, turns)
    decreases |steps| - k
  {
    if k < |steps| {
      StepIndexAgrees(steps, steps', "prepare", 0);
      TailEndAgrees(steps, steps', k + 1, false, turns);
      TailEndAgrees(steps, steps', k + 1, true, turns);
    }
  }

  lemma {:induction false} SelectedEnds(e: Engine, k: nat, start: Option<nat>, rerun: bool, refreshed: bool,
                                        turns: seq<FlowTurn>)
    requires k <= |e.steps| == |turns|
    requires k < |e.steps| ==> MustRun(e, k, start, rerun)
    ensures RunSelected(e, k, start, rerun, refreshed, turns).1 == TailEnd(e.steps, k, refreshed, turns)
    decreases |e.steps| - k
  {
    hide RunStep, Iterate, RefreshPrepare, IterationEnd;
    if k < |e.steps| {
      IterationRuns(e, k, start, rerun, refreshed, turns[k]);
      IterationEnds(e, k, start, rerun, refreshed, turns[k]);
      var (next, refreshed', end) := Iterate(e, k, rerun || start == Some(k), refreshed, turns[k]);
      if end.None? {
        SelectedEnds(next, k + 1, start, rerun, refreshed', turns);
        TailEndAgrees(e.steps, next.steps, k + 1, refreshed', turns);
      }
    }
  }

  /** `--from s` reports the end of the first turn from `s` on that does not succeed: of the
      automatic prepare refresh, or of the step itself; and completion if there is none. */
  lemma {:induction false} FromReportsFirstFailure(e: Engine, s: nat, rerun: bool, turns: seq<FlowTurn>)
    requires s < |e.steps| == |turns|
    ensures RunFlow(e, Some(s), rerun, turns).1 == TailEnd(e.steps, s, false, turns)
  {
    ClearFromKeepsShape(e, 0);
    var cleared := if rerun then RemoveDetails(ClearStates(e), 0) else e;
    SelectedEnds(RemoveDetails(cleared, s), s, Some(s), rerun, false, turns);
    TailEndAgrees(e.steps, cleared.steps, s, false, turns);
  }

  /** The turn at `j` explains the end. */
  predicate Explains(steps: seq<FlowStep>, turns: seq<FlowTurn>, j: nat, end: FlowEnd)
    requires j < |steps| == |turns|
  {
    match end
    case StepFailed(name) => name == steps[j].name && ResultOf(turns[j].turn) == Returned(Incomplete)
    case PrepareFailed => !turns[j].preparedCurrent && ResultOf(turns[j].prepareTurn) == Returned(Incomplete)
    case Aborted => ResultOf(turns[j].turn) == Reraised || ResultOf(turns[j].prepareTurn) == Reraised
    case Completed => false
  }

  lemma {:induction false} IterationExplained(e: Engine, k: nat, force: bool, refreshed: bool, turns: seq<FlowTurn>)
    requires k < |e.steps| == |turns|
    ensures var (next, _, end) := Iterate(e, k, force, refreshed, turns[k]);
            && SameNames(e.steps, next.steps) && |next.steps| == |e.steps|
            && (end.Some? ==> Explains(e.steps, turns, k, end.value))
  {
    hide RunStep, RefreshedSteps;
    var p := StepIndex(e.steps, "prepare", 0);
    if p.Some? {
      RunStepResult(e, p.value, true, turns[k].prepareTurn);
      RunStepKeepsShape(e, p.value, true, turns[k].prepareTurn);
    }
    var ready := RefreshPrepare(e, k, refreshed, turns[k]).0;
    RunStepResult(ready, k, force, turns[k].turn);
    RunStepKeepsShape(ready, k, force, turns[k].turn);
  }

  /** Also without `--from`, every other end than completion is that of a turn of the loop. */
  lemma {:induction false} EndsComeFromTurns(e: Engine, k: nat, start: Option<nat>, rerun: bool, refreshed: bool,
                                             turns: seq<FlowTurn>)
    requires k <= |e.steps| == |turns|
    ensures var end := RunSelected(e, k, start, rerun, refreshed, turns).1;
            end == Completed || exists j :: k <= j < |e.steps| && Explains(e.steps, turns, j, end)
    decreases |e.steps| - k
  {
    hide Iterate, Explains, SameNames;
    if k < |e.steps| {
      var force := rerun || start == Some(k);
      IterationExplained(e, k, force, refreshed, turns);
      var (next, refreshed', end) := Iterate(e, k, force, refreshed, turns[k]);
      if end.None? {
        EndsComeFromTurns(next, k + 1, start, rerun, refreshed', turns);
        ExplainsAgrees(e.steps, next.steps, turns, k + 1, RunSelected(next, k + 1, start, rerun, refreshed', turns).1);
      }
    }
  }

  lemma {:induction false} ExplainsAgrees(steps: seq<FlowStep>, steps': seq<FlowStep>, turns: seq<FlowTurn>, k: nat,
                                          end: FlowEnd)
    requires SameNames(steps, steps') && |steps| == |turns|
    ensures (exists j :: k <= j < |steps'| && Explains(steps', turns, j, end)) ==>
              exists j :: k <= j < |steps| && Explains(steps, turns, j, end)
  {
    if exists j :: k <= j < |steps'| && Explains(steps', turns, j, end) {
      var j :| k <= j < |steps'| && Explains(steps', turns, j, end);
      assert Explains(steps, turns, j, end);
    }
  }

  // What completion says about the flow

  predicate SuccessBefore(steps: seq<FlowStep>, k: nat) {
    forall i | 0 <= i < k && i < |steps| :: steps[i].state.Success?
  }

  /** The automatic prepare refresh, if one is due, leaves all steps before `k` successes: they
      are already, prepare itself aside; its refresh finds none of them stale; and prepare is
      not followed by other steps before `k`, which it would stale. */
  predicate PrepareHarmless(e: Engine, k: nat, refreshed: bool, turn: FlowTurn)
    requires k < |e.steps|
  {
    if !PrepareDue(e.steps, k, refreshed, turn) then SuccessBefore(e.steps, k)
    else
      var p := StepIndex(e.steps, "prepare", 0).value;
      var first := if p < k then p else k;
      && SuccessBefore(e.steps, first)
      && first <= FirstStaleFrom(e.steps, 0, turn.prepareTurn.env)
      && (p < k ==> p + 1 == k)
  }

  /** Nor does the refresh in front of step `k` find an earlier step stale. */
  predicate IterationHarmless(e: Engine, k: nat, refreshed: bool, turn: FlowTurn)
    requires k < |e.steps|
  {
    && PrepareHarmless(e, k, refreshed, turn)
    && k <= FirstStaleFrom(RefreshPrepare(e, k, refreshed, turn).0.steps, 0, turn.turn.env)
  }

  predicate CommandHarmless(e: Engine, k: nat, start: Option<nat>, rerun: bool, refreshed: bool, turns: seq<FlowTurn>)
    requires k <= |e.steps| == |turns|
    decreases |e.steps| - k
  {
    if k == |e.steps| then true
    else
      var (next, refreshed', _) := Iterate(e, k, rerun || start == Some(k), refreshed, turns[k]);
      && IterationHarmless(e, k, refreshed, turns[k])
      && CommandHarmless(next, k + 1, start, rerun, refreshed', turns)
  }

  lemma {:induction false} PrepareKeepsSuccesses(e: Engine, k: nat, refreshed: bool, turn: FlowTurn)
    requires k < |e.steps| && RefreshPrepare(e, k, refreshed, turn).2 == Returned(Success)
    ensures var ready := RefreshPrepare(e, k, refreshed, turn).0;
            && SameNames(e.steps, ready.steps)
            && (SuccessBefore(ready.steps, k) <==> PrepareHarmless(e, k, refreshed, turn))
  {
    hide RunStep, FirstStaleFrom;
    if PrepareDue(e.steps, k, refreshed, turn) {
      var p := StepIndex(e.steps, "prepare", 0).value;
      RunStepSuccesses(e, p, true, turn.prepareTurn);
      var ready := RefreshPrepare(e, k, refreshed, turn).0;
      var s := FirstStaleFrom(e.steps, 0, turn.prepareTurn.env);
      var first := if p < k then p else k;
      assert p != k;
      if p < k && p + 1 != k {
        assert !ready.steps[p+1].state.Success?;
      }
      if s < first {
        assert !ready.steps[s].state.Success?;
      }
    }
  }

  lemma {:induction false} IterationKeepsSuccesses(e: Engine, k: nat, force: bool, refreshed: bool, turn: FlowTurn)
    requires k < |e.steps| && Iterate(e, k, force, refreshed, turn).2.None?
    ensures var next := Iterate(e, k, force, refreshed, turn).0;
            && SameNames(e.steps, next.steps)
            && next.steps[k].state.Success?
            && (SuccessBefore(next.steps, k) <==> IterationHarmless(e, k, refreshed, turn))
  {
    hide RunStep, FirstStaleFrom, RefreshPrepare, PrepareHarmless;
    PrepareKeepsSuccesses(e, k, refreshed, turn);
    var ready := RefreshPrepare(e, k, refreshed, turn).0;
    RunStepSuccesses(ready, k, force, turn.turn);
    var s := FirstStaleFrom(ready.steps, 0, turn.turn.env);
    var next := Iterate(e, k, force, refreshed, turn).0;
    assert next.steps == RunStep(ready, k, force, turn.turn).0.steps;
    if s < k {
      assert !next.steps[s].state.Success?;
    }
  }

  /** A step that has lost its success is not run again: behind the last executed step, at
      `k - 1`, an earlier unsuccessful one stays, or the prepare refresh that repairs it leaves
      another. */
  predicate Broken(steps: seq<FlowStep>, k: nat) {
    0 < k <= |steps| && steps[k-1].state.Success? && exists i | 0 <= i < k - 1 :: !steps[i].state.Success?
  }

  lemma {:induction false} StaysBroken(e: Engine, k: nat, force: bool, refreshed: bool, turn: FlowTurn)
    requires k < |e.steps| && Broken(e.steps, k) && Iterate(e, k, force, refreshed, turn).2.None?
    ensures Broken(Iterate(e, k, force, refreshed, turn).0.steps, k + 1)
  {
    hide RunStep, FirstStaleFrom, RefreshPrepare, IterationHarmless;
    IterationKeepsSuccesses(e, k, force, refreshed, turn);
    BrokenIsHarmful(e, k, refreshed, turn);
    var next := Iterate(e, k, force, refreshed, turn).0;
    assert !SuccessBefore(next.steps, k);
  }

  lemma {:induction false} BrokenIsHarmful(e: Engine, k: nat, refreshed: bool, turn: FlowTurn)
    requires k < |e.steps| && Broken(e.steps, k)
    ensures !IterationHarmless(e, k, refreshed, turn)
  {
    hide RefreshPrepare, FirstStaleFrom;
    var i :| 0 <= i < k - 1 && !e.steps[i].state.Success?;
    assert !SuccessBefore(e.steps, k);
  }

  lemma {:induction false} BrokenIsNotSuccessful(e: Engine, k: nat, start: Option<nat>, rerun: bool, refreshed: bool,
                                                 turns: seq<FlowTurn>)
    requires k <= |e.steps| == |turns| && Broken(e.steps, k)
    requires RunSelected(e, k, start, rerun, refreshed, turns).1 == Completed
    ensures !FlowSuccess(RunSelected(e, k, start, rerun, refreshed, turns).0.steps)
    decreases |e.steps| - k
  {
    hide Iterate, Broken;
    if k == |e.steps| {
      BrokenNow(e.steps, k);
    } else {
      var (next, refreshed', end) := Iterate(e, k, rerun || start == Some(k), refreshed, turns[k]);
      NeverCompletes(e, k, rerun || start == Some(k), refreshed, turns[k]);
      StaysBroken(e, k, rerun || start == Some(k), refreshed, turns[k]);
      BrokenIsNotSuccessful(next, k + 1, start, rerun, refreshed', turns);
    }
  }

  lemma {:induction false} BrokenNow(steps: seq<FlowStep>, k: nat)
    requires Broken(steps, k)
    ensures !FlowSuccess(steps)
  {
  }

  /** One iteration reports completion of nothing. */
  lemma {:induction false} NeverCompletes(e: Engine, k: nat, force: bool, refreshed: bool, turn: FlowTurn)
    requires k < |e.steps|
    ensures Iterate(e, k, force, refreshed, turn).2 != Some(Completed)
  {
    hide RunStep, RefreshPrepare;
  }

  lemma {:induction false} SelectedSuccess(e: Engine, k: nat, start: Option<nat>, rerun: bool, refreshed: bool,
                                           turns: seq<FlowTurn>)
    requires k <= |e.steps| == |turns|
    requires RunSelected(e, k, start, rerun, refreshed, turns).1 == Completed
    requires k == |e.steps| ==> FlowSuccess(e.steps)
    ensures FlowSuccess(RunSelected(e, k, start, rerun, refreshed, turns).0.steps) <==>
            CommandHarmless(e, k, start, rerun, refreshed, turns)
    decreases |e.steps| - k
  {
    hide Iterate, IterationHarmless;
    if k < |e.steps| {
      var force := rerun || start == Some(k);
      var (next, refreshed', end) := Iterate(e, k, force, refreshed, turns[k]);
      NeverCompletes(e, k, force, refreshed, turns[k]);
      IterationKeepsSuccesses(e, k, force, refreshed, turns[k]);
      if IterationHarmless(e, k, refreshed, turns[k]) {
        SelectedSuccess(next, k + 1, start, rerun, refreshed', turns);
      } else {
        assert Broken(next.steps, k + 1);
        BrokenIsNotSuccessful(next, k + 1, start, rerun, refreshed', turns);
      }
    }
  }

  function CommandBegin(e: Engine, start: Option<nat>, rerun: bool): Engine
    requires start.Some? ==> start.value < |e.steps|
  {
    ClearFromKeepsShape(e, 0);
    var cleared := if rerun then RemoveDetails(ClearStates(e), 0) else e;
    match start case None => cleared case Some(s) => RemoveDetails(cleared, s)
  }

  /** Exactly when a completed command leaves a successful flow, from any state and in any
      environment: the steps in front of its start are successes, no refresh on the way finds
      an earlier step stale, and the automatic prepare refresh, if it is due, comes when no
      other step lies between prepare and the step in front of which it is made. */
  lemma {:induction false} CompletedMeansSuccess(e: Engine, start: Option<nat>, rerun: bool, turns: seq<FlowTurn>)
    requires |turns| == |e.steps| && (start.Some? ==> start.value < |e.steps|)
    requires RunFlow(e, start, rerun, turns).1 == Completed
    ensures var begun := CommandBegin(e, start, rerun);
            var first := if start.Some? then start.value else 0;
            && |begun.steps| == |e.steps|
            && (FlowSuccess(RunFlow(e, start, rerun, turns).0.steps) <==>
                  CommandHarmless(begun, first, start, rerun, false, turns))
  {
    hide RunSelected, CommandHarmless, ClearStates;
    ClearFromKeepsShape(e, 0);
    ClearedLength(e);
    var begun := CommandBegin(e, start, rerun);
    SelectedSuccess(begun, if start.Some? then start.value else 0, start, rerun, false, turns);
  }

  lemma {:induction false} ClearedLength(e: Engine)
    ensures |ClearStates(e).steps| == |e.steps|
  {
    ClearFromKeepsShape(e, 0);
  }

  /** A completed command that leaves a step undone: the third step is selected, prepare is out
      of date and rerun in front of it, which makes the second step stale, and nothing runs
      that again. */
  lemma {:induction false} CompletedWithoutReview(e: Engine, turns: seq<FlowTurn>)
    requires |e.steps| == |turns| == 3
    requires e.steps[0].name == "prepare" && e.steps[2].name == "elab"
    requires !turns[2].preparedCurrent && Succeeds(turns[2].prepareTurn) && Succeeds(turns[2].turn)
    ensures var (after, end) := RunFlow(e, Some(2), false, turns);
            end == Completed && |after.steps| == 3 && !FlowSuccess(after.steps)
  {
    hide Iterate, RunStep, ClearStates;
    assert "prepare" != "elab" by { assert "prepare"[0] != "elab"[0]; }
    assert StepIndex(e.steps, "prepare", 0) == Some(0);
    FromReportsFirstFailure(e, 2, false, turns);
    assert TailEnd(e.steps, 3, true, turns) == Completed;
    CompletedMeansSuccess(e, Some(2), false, turns);
    RunFlowLength(e, 2, turns);
  }

  lemma {:induction false} RunFlowLength(e: Engine, s: nat, turns: seq<FlowTurn>)
    requires s < |e.steps| == |turns|
    ensures |RunFlow(e, Some(s), false, turns).0.steps| == |e.steps|
  {
    hide ClearStates;
    SelectedLength(RemoveDetails(e, s), s, Some(s), false, false, turns);
  }

  lemma {:induction false} SelectedLength(e: Engine, k: nat, start: Option<nat>, rerun: bool, refreshed: bool,
                                          turns: seq<FlowTurn>)
    requires k <= |e.steps| == |turns|
    ensures |RunSelected(e, k, start, rerun, refreshed, turns).0.steps| == |e.steps|
    decreases |e.steps| - k
  {
    hide Iterate;
    if k < |e.steps| {
      var (next, refreshed', end) := Iterate(e, k, rerun || start == Some(k), refreshed, turns[k]);
      if end.None? {
        SelectedLength(next, k + 1, start, rerun, refreshed', turns);
      }
    }
  }
}
