/** The frontend snapshot of a step: removed for every selected step before the command runs any,
    and written for each one it has run. */
module FlowDetails {
  import opened Options
  import opened Flow
  import opened FlowService
  import opened FlowRecords
  import opened FlowEnds

  lemma {:induction false} RemovedDetails(e: Engine, i: nat)
    requires i <= |e.steps| && ValidFlow(e.steps)
    ensures var after := RemoveDetails(e, i);
            && after.disk.flow == e.disk.flow
            && forall j | 0 <= j < |e.steps| ::
                 Files(after.disk, e.steps[j].name) ==
                 if j < i then Files(e.disk, e.steps[j].name) else Files(e.disk, e.steps[j].name) - {Detail}
    decreases |e.steps| - i
  {
    if i < |e.steps| {
      var next := Unlink(e, e.steps[i].name, Detail);
      forall n ensures Files(next.disk, n) ==
                       if n == e.steps[i].name then Files(e.disk, n) - {Detail} else Files(e.disk, n) {
      }
      RemovedDetails(next, i + 1);
    }
  }

  /** Before the command runs its first step, the selected steps have no snapshots; their other
      files, and those of the other steps, are as they were, or gone if all states are cleared. */
  lemma {:induction false} CommandRemovesDetails(e: Engine, start: Option<nat>, rerun: bool)
    requires ValidFlow(e.steps) && (start.Some? ==> start.value < |e.steps|)
    ensures var begun := CommandBegin(e, start, rerun);
            && |begun.steps| == |e.steps|
            && forall j | 0 <= j < |e.steps| ::
                 Files(begun.disk, e.steps[j].name) ==
                 if rerun then {}
                 else if start.Some? && start.value <= j then Files(e.disk, e.steps[j].name) - {Detail}
                 else Files(e.disk, e.steps[j].name)
  {
    hide ClearStates, RemoveDetails, Files;
    ClearFromKeepsShape(e, 0);
    var cleared := e;
    if rerun {
      ClearedRecords(e);
      cleared := RemoveDetails(ClearStates(e), 0);
      StillValid(e, ClearStates(e));
      RemovedDetails(ClearStates(e), 0);
    }
    if start.Some? {
      StillValid(e, cleared);
      RemovedDetails(cleared, start.value);
    }
  }

  lemma {:induction false} StillValid(e: Engine, after: Engine)
    requires ValidFlow(e.steps) && |after.steps| == |e.steps|
    requires forall j | 0 <= j < |e.steps| :: after.steps[j].name == e.steps[j].name
    ensures ValidFlow(after.steps)
  {
  }

  /** Each turn leaves the files of its step's run, and the snapshot if that could be written; a
      turn that does not get to its step leaves those of the prepare refresh. */
  lemma {:induction false} TurnWritesDetail(e: Engine, k: nat, force: bool, refreshed: bool, turn: FlowTurn)
    requires k < |e.steps|
    ensures var (ready, _, prepared) := RefreshPrepare(e, k, refreshed, turn);
            var (after, _, end) := Iterate(e, k, force, refreshed, turn);
            && |ready.steps| == |e.steps|
            && (if prepared != Returned(Success) then after == ready
                else
                  var (ran, result) := RunStep(ready, k, force, turn.turn);
                  && |ran.steps| == |e.steps| && after.steps == ran.steps
                  && (result == Reraised ==> after == ran && end == Some(Aborted))
                  && (result != Reraised ==>
                        && Files(after.disk, ran.steps[k].name) ==
                           Files(ran.disk, ran.steps[k].name) + (if turn.detailWritten then {Detail} else {})
                        && (forall n | n != ran.steps[k].name :: Files(after.disk, n) == Files(ran.disk, n))))
  {
    hide RunStep, RefreshPrepare;
    var ready := RefreshPrepare(e, k, refreshed, turn).0;
    RunStepKeepsShape(ready, k, force, turn.turn);
  }
}
