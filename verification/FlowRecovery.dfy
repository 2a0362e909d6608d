/** Recovery of a flow whose process died while a step was running. */
module FlowRecovery {
  import opened Options
  import opened Flow
  import opened FlowCrash

  function Interrupted(step: FlowStep): FlowStep {
    step.(state := Incomplete, marker := None)
  }

  lemma {:induction false} InterruptAtEffect(e: Engine, i: nat)
    requires i < |e.steps|
    ensures var r := InterruptAt(e, i);
            && r.steps == e.steps[i := Interrupted(e.steps[i])]
            && r.disk.flow == e.disk.flow
            && Files(r.disk, e.steps[i].name) == {}
            && (forall n | n != e.steps[i].name :: Files(r.disk, n) == Files(e.disk, n))
  {
    NoFileLeft(Files(e.disk, e.steps[i].name));
  }

  lemma {:induction false} RecoverFromEffect(e: Engine, i: nat, active: set<string>, operation: string)
    requires i <= |e.steps| && ValidFlow(e.steps)
    ensures var r := RecoverFrom(e, i, active, operation);
            && |r.steps| == |e.steps| && r.disk.flow == e.disk.flow
            && (forall j | 0 <= j < i ::
                  r.steps[j] == e.steps[j] && Files(r.disk, e.steps[j].name) == Files(e.disk, e.steps[j].name))
            && (forall j | i <= j < |e.steps| ::
                  if Abandoned(e.steps[j], active, operation)
                  then r.steps[j] == Interrupted(e.steps[j]) && Files(r.disk, e.steps[j].name) == {}
                  else r.steps[j] == e.steps[j] && Files(r.disk, e.steps[j].name) == Files(e.disk, e.steps[j].name))
    decreases |e.steps| - i
  {
    hide InterruptAt, Files, Recoverable, Abandoned;
    if i < |e.steps| {
      RecoverableIsAbandoned(e.steps[i], active, operation);
      InterruptAtEffect(e, i);
      var next := if Recoverable(e.steps[i], active, operation) then InterruptAt(e, i) else e;
      RecoverFromEffect(next, i + 1, active, operation);
    }
  }

  /** Recovery turns exactly the abandoned running steps into incomplete ones without QoR
      files; every other step, in particular every step that was not running, keeps its
      record and its files; what memory holds is persisted; a repeat recovers nothing. */
  lemma {:induction false} RecoverEffect(e: Engine, active: set<string>, operation: string)
    requires ValidFlow(e.steps) && e.disk.flow == e.steps
    ensures var r := Recover(e, active, operation);
            && |r.steps| == |e.steps| && r.disk.flow == r.steps
            && (forall j | 0 <= j < |e.steps| ::
                  if Abandoned(e.steps[j], active, operation)
                  then r.steps[j] == Interrupted(e.steps[j]) && Files(r.disk, e.steps[j].name) == {}
                  else r.steps[j] == e.steps[j] && Files(r.disk, e.steps[j].name) == Files(e.disk, e.steps[j].name))
    ensures Recover(Recover(e, active, operation), active, operation) == Recover(e, active, operation)
  {
    RecoverFromEffect(e, 0, active, operation);
    var r := Recover(e, active, operation);
    forall j | 0 <= j < |r.steps| ensures !Recoverable(r.steps[j], active, operation) {
      RecoverableIsAbandoned(e.steps[j], active, operation);
    }
    NothingToRecover(r, 0, active, operation);
  }

  lemma {:induction false} NothingToRecover(e: Engine, i: nat, active: set<string>, operation: string)
    requires i <= |e.steps|
    requires forall j | i <= j < |e.steps| :: !Recoverable(e.steps[j], active, operation)
    ensures RecoverFrom(e, i, active, operation) == e
    decreases |e.steps| - i
  {
    if i < |e.steps| {
      NothingToRecover(e, i + 1, active, operation);
    }
  }

  /** After an unfiltered recovery every step still running carries a runtime's marker of an
      active operation, unless the empty text counts as active, too. */
  lemma {:induction false} OnlyActiveStepsKeepRunning(e: Engine, active: set<string>)
    requires ValidFlow(e.steps) && e.disk.flow == e.steps
    ensures var r := Recover(e, active, "");
            forall j | 0 <= j < |r.steps| && r.steps[j].state.Ongoing? ::
              if RuntimeMarked(r.steps[j]) then r.steps[j].marker.value.operationId in active else "" in active
  {
    RecoverEffect(e, active, "");
  }

  /** `clear_stale_ongoing_states` is recovery without any active operation. */
  lemma {:induction false} ClearOngoingIsFullRecovery(e: Engine)
    ensures ClearStaleOngoing(e) == Recover(e, {}, "")
  {
    ClearOngoingFromIsRecover(e, 0);
  }

  lemma {:induction false} ClearOngoingFromIsRecover(e: Engine, i: nat)
    requires i <= |e.steps|
    ensures ClearOngoingFrom(e, i) == RecoverFrom(e, i, {}, "")
    decreases |e.steps| - i
  {
    hide InterruptAt;
    if i < |e.steps| {
      InterruptAtKeepsLength(e, i);
      ClearOngoingFromIsRecover(if e.steps[i].state.Ongoing? then InterruptAt(e, i) else e, i + 1);
    }
  }

  lemma {:induction false} InterruptAtKeepsLength(e: Engine, i: nat)
    requires i < |e.steps|
    ensures |InterruptAt(e, i).steps| == |e.steps|
  {
  }
}
