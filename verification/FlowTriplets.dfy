/** Histories without a crash: every step recorded as a success has its full QoR triplet.
    And a crash that shows why the hypothesis is needed. */
module FlowTriplets {
  import opened Options
  import opened StepProvenance
  import opened Flow
  import opened FlowTheorems
  import opened FlowService
  import opened FlowCrash
  import opened FlowHistory
  import opened FlowRecovery

  predicate HasTriplets(steps: seq<FlowStep>, disk: Disk) {
    forall i | 0 <= i < |steps| && steps[i].state.Success? :: TRIPLET <= Files(disk, steps[i].name)
  }

  predicate Tidy(disk: Disk) {
    Clean(disk) && HasTriplets(disk.flow, disk)
  }

  predicate Kept(e: Engine) {
    Safe(e) && HasTriplets(e.steps, e.disk)
  }

  predicate Settled(e: Engine) {
    Kept(e) && e.disk.flow == e.steps
  }

  lemma {:induction false} ClearQorKept(e: Engine, k: nat, step: FlowStep)
    requires Kept(e) && k < |e.steps|
    requires step.name == e.steps[k].name && step.tool == e.steps[k].tool && !step.state.Success?
    ensures Kept(SetStep(ClearQor(e, e.steps[k].name), k, step))
  {
    var name := e.steps[k].name;
    ClearQorSafe(e, name);
    SetStepSafe(ClearQor(e, name), k, step);
    var cleared := ClearQor(e, name);
    forall i | 0 <= i < |e.steps| && i != k ensures Files(cleared.disk, e.steps[i].name)
      == Files(e.disk, e.steps[i].name) {
    }
  }

  lemma {:induction false} MarkFromKept(e: Engine, i: nat, reason: string, from: string)
    requires Kept(e) && i <= |e.steps|
    ensures Kept(MarkFrom(e, i, reason, from))
    decreases |e.steps| - i
  {
    hide Safe, HasTriplets;
    if i < |e.steps| {
      ClearQorKept(e, i, MarkStale(e.steps[i], reason, from));
      MarkFromKept(MarkAt(e, i, reason, from), i + 1, reason, from);
    }
  }

  lemma {:induction false} SaveKept(e: Engine)
    requires Kept(e)
    ensures Kept(Save(e)) && Settled(Save(e))
  {
    SaveSafe(e);
  }

  lemma {:induction false} RefreshSettled(e: Engine, env: Environment)
    requires Settled(e)
    ensures Settled(RefreshStaleStates(e, env))
  {
    hide Safe, HasTriplets, IsStale, StaleReason;
    RefreshSynced(e, env);
    var s := FirstStaleFrom(e.steps, 0, env);
    if s < |e.steps| {
      var from := e.steps[s].name;
      var reason := StaleReason(e.steps, s, env);
      assert !e.steps[s].state.Ongoing? by { StaleIsSuccess(e.steps, s, env); }
      ClearQorKept(e, s, MarkStale(e.steps[s], reason, from));
      var marked := MarkAt(e, s, reason, from);
      MarkFromKept(marked, s + 1, Reason("upstream step ", from, " is stale"), from);
      SaveKept(MarkStaleSuffix(e, s, env));
    }
  }

  lemma {:induction false} StaleIsSuccess(steps: seq<FlowStep>, s: nat, env: Environment)
    requires s < |steps| && IsStale(steps, s, env)
    ensures steps[s].state.Success?
  {
  }

  lemma {:induction false} PrepareKept(e: Engine, k: nat, marker: Option<Marker>)
    requires Kept(e) && k < |e.steps|
    ensures Kept(Prepare(e, k, marker)) && Running(Prepare(e, k, marker), k)
  {
    PrepareSafe(e, k, marker);
    PrepareEffect(e, k, marker);
  }

  lemma {:induction false} ExecuteKept(e: Engine, k: nat, provenance: Provenance, turn: Turn)
    requires Kept(e) && Running(e, k)
    ensures Kept(Execute(e, k, provenance, turn).0)
  {
    hide Safe;
    ExecuteSafe(e, k, provenance, turn);
    ExecuteEffect(e, k, provenance, turn);
    var after := Execute(e, k, provenance, turn).0;
    forall i | 0 <= i < |e.steps| && after.steps[i].state.Success?
      ensures TRIPLET <= Files(after.disk, after.steps[i].name) {
      if i != k {
        assert e.steps[i].name != e.steps[k].name by { DistinctNames(e, i, k); }
      }
    }
  }

  lemma {:induction false} DistinctNames(e: Engine, i: nat, k: nat)
    requires Safe(e) && i < |e.steps| && k < |e.steps| && i != k
    ensures e.steps[i].name != e.steps[k].name
  {
  }

  lemma {:induction false} ForceStepSettled(e: Engine, k: nat, turn: Turn)
    requires Settled(e) && k < |e.steps|
    ensures Settled(ForceStep(e, k, turn).0)
  {
    hide Safe, HasTriplets, Execute, Prepare;
    var reason := "upstream step is being rerun";
    ForceStepSynced(e, k, turn);
    MarkFromKeepsShape(e, k + 1, reason, e.steps[k].name);
    MarkFromKept(e, k + 1, reason, e.steps[k].name);
    SaveKept(MarkFrom(e, k + 1, reason, e.steps[k].name));
    var marked := MarkDownstream(e, k);
    PrepareKept(marked, k, turn.marker);
    ExecuteKept(Prepare(marked, k, turn.marker), k, ExpectedProvenance(marked.steps, k, turn.env), turn);
  }

  lemma {:induction false} RunStepSettled(e: Engine, k: nat, rerun: bool, turn: Turn)
    requires Settled(e) && k < |e.steps|
    ensures Settled(RunStep(e, k, rerun, turn).0)
    ensures |RunStep(e, k, rerun, turn).0.steps| == |e.steps|
    ensures !RunStep(e, k, rerun, turn).0.steps[k].state.Unstart?
  {
    hide Kept, RefreshStaleStates, ForceStep;
    RunStepLeavesRunnable(e, k, rerun, turn);
    RefreshSettled(e, turn.env);
    RefreshKeepsShape(e, turn.env);
    ForceStepSettled(RefreshStaleStates(e, turn.env), k, turn);
  }

  lemma {:induction false} RunFromSettled(e: Engine, k: nat, rerun: bool, turns: seq<Turn>)
    requires Settled(e) && k <= |e.steps| == |turns|
    ensures Settled(RunFrom(e, k, rerun, turns).0)
    decreases |e.steps| - k
  {
    hide RunStep, Settled;
    if k < |e.steps| {
      RunStepSettled(e, k, rerun, turns[k]);
      var (next, result) := RunStep(e, k, rerun, turns[k]);
      if result == Returned(Success) {
        RunFromSettled(next, k + 1, rerun, turns);
      }
    }
  }

  lemma {:induction false} ClearFromKept(e: Engine, i: nat)
    requires Kept(e) && i <= |e.steps|
    ensures Kept(ClearFrom(e, i))
    decreases |e.steps| - i
  {
    hide Safe, HasTriplets;
    if i < |e.steps| {
      var step := Reset(e.steps[i]);
      ClearQorKept(e, i, step);
      ClearFromKept(SetStep(ClearQor(e, e.steps[i].name), i, step), i + 1);
    }
  }

  lemma {:induction false} ClearStatesSettled(e: Engine)
    requires Settled(e)
    ensures Settled(ClearStates(e)) && |ClearStates(e).steps| == |e.steps|
  {
    hide Safe, HasTriplets;
    ClearFromKeepsShape(e, 0);
    ClearFromKept(e, 0);
    SaveKept(ClearFrom(e, 0));
  }

  lemma {:induction false} InterruptAtKept(e: Engine, i: nat)
    requires Kept(e) && i < |e.steps|
    ensures Kept(InterruptAt(e, i))
  {
    var step := e.steps[i].(state := Incomplete, marker := None);
    ClearQorKept(e, i, step);
    InterruptAtSafe(e, i);
    assert InterruptAt(e, i).disk == ClearQor(e, e.steps[i].name).disk;
  }

  lemma {:induction false} RecoverFromKept(e: Engine, i: nat, active: set<string>, operation: string)
    requires Kept(e) && i <= |e.steps|
    ensures Kept(RecoverFrom(e, i, active, operation)) && RecoverFrom(e, i, active, operation).disk.flow == e.disk.flow
    decreases |e.steps| - i
  {
    hide Kept, InterruptAt;
    if i < |e.steps| {
      InterruptAtKept(e, i);
      InterruptAtKeepsFlow(e, i);
      RecoverFromKept(if Recoverable(e.steps[i], active, operation) then InterruptAt(e, i) else e, i + 1, active,
        operation);
    }
  }

  lemma {:induction false} InterruptAtKeepsFlow(e: Engine, i: nat)
    requires i < |e.steps|
    ensures InterruptAt(e, i).disk.flow == e.disk.flow && |InterruptAt(e, i).steps| == |e.steps|
  {
  }

  lemma {:induction false} RecoverSettled(e: Engine, active: set<string>, operation: string)
    requires Settled(e)
    ensures Settled(Recover(e, active, operation))
  {
    RecoverFromKept(e, 0, active, operation);
    SaveIfChangedSettled(e, RecoverFrom(e, 0, active, operation));
  }

  lemma {:induction false} SaveIfChangedSettled(before: Engine, after: Engine)
    requires Settled(before) && Kept(after) && after.disk.flow == before.disk.flow
    ensures Settled(SaveIfChanged(before, after))
  {
    hide Kept;
    SaveKept(after);
  }

  // The service loop

  lemma {:induction false} RemoveDetailsSettled(e: Engine, i: nat)
    requires Settled(e) && i <= |e.steps|
    ensures Settled(RemoveDetails(e, i))
    decreases |e.steps| - i
  {
    hide Safe;
    if i < |e.steps| {
      UnlinkSafe(e, e.steps[i].name, Detail);
      var next := Unlink(e, e.steps[i].name, Detail);
      assert HasTriplets(next.steps, next.disk);
      RemoveDetailsSettled(next, i + 1);
    }
  }

  lemma {:induction false} WriteDetailSettled(e: Engine, k: nat, written: bool)
    requires Settled(e) && k < |e.steps| && !e.steps[k].state.Unstart?
    ensures Settled(WriteDetail(e, k, written))
  {
    PutSafe(e, k, Detail);
  }

  lemma {:induction false} IterateSettled(e: Engine, k: nat, force: bool, refreshed: bool, turn: FlowTurn)
    requires Settled(e) && k < |e.steps|
    ensures Settled(Iterate(e, k, force, refreshed, turn).0)
  {
    hide RunStep, Settled, WriteDetail;
    var (ready, refreshed', prepared) := RefreshPrepare(e, k, refreshed, turn);
    assert Settled(ready) by {
      var p := StepIndex(e.steps, "prepare", 0);
      if p.Some? {
        RunStepSettled(e, p.value, true, turn.prepareTurn);
      }
    }
    RunStepSettled(ready, k, force, turn.turn);
    WriteDetailSettled(RunStep(ready, k, force, turn.turn).0, k, turn.detailWritten);
  }

  lemma {:induction false} RunSelectedSettled(e: Engine, k: nat, start: Option<nat>, rerun: bool, refreshed: bool,
                                              turns: seq<FlowTurn>)
    requires Settled(e) && k <= |e.steps| == |turns|
    ensures Settled(RunSelected(e, k, start, rerun, refreshed, turns).0)
    decreases |e.steps| - k
  {
    hide Iterate, Settled;
    if k < |e.steps| {
      IterateSettled(e, k, rerun || start == Some(k), refreshed, turns[k]);
      var (next, refreshed', end) := Iterate(e, k, rerun || start == Some(k), refreshed, turns[k]);
      RunSelectedSettled(next, k + 1, start, rerun, refreshed', turns);
    }
  }

  lemma {:induction false} RunFlowSettled(e: Engine, start: Option<nat>, rerun: bool, turns: seq<FlowTurn>)
    requires Settled(e) && |turns| == |e.steps|
    requires start.Some? ==> start.value < |e.steps|
    ensures Settled(RunFlow(e, start, rerun, turns).0)
  {
    hide Settled, ClearStates;
    ClearStatesSettled(e);
    RemoveDetailsSettled(ClearStates(e), 0);
    var cleared := if rerun then RemoveDetails(ClearStates(e), 0) else e;
    match start {
      case None => RunSelectedSettled(cleared, 0, None, rerun, false, turns);
      case Some(s) =>
        RemoveDetailsSettled(cleared, s);
        RunSelectedSettled(RemoveDetails(cleared, s), s, start, rerun, false, turns);
    }
  }

  lemma {:induction false} PerformSettled(e: Engine, op: Op)
    requires Settled(e)
    ensures Settled(Perform(e, op))
  {
    hide Kept, RefreshStaleStates, RunStep, RunFlow, ClearStates;
    if Applicable(e.steps, op) {
      match op {
        case Refresh(env) => RefreshSettled(e, env);
        case Step(k, rerun, turn) => RunStepSettled(e, k, rerun, turn);
        case All(rerun, turns) =>
          ClearStatesSettled(e);
          RunFromSettled(if rerun then ClearStates(e) else e, 0, rerun, turns);
        case FlowCommand(start, rerun, turns) => RunFlowSettled(e, start, rerun, turns);
        case Clear => ClearStatesSettled(e);
        case ClearOngoing =>
          ClearOngoingIsFullRecovery(e);
          RecoverSettled(e, {}, "");
        case RecoverInterrupted(active, operation) =>
          RecoverSettled(e, active, operation);
      }
    }
  }

  predicate CrashFree(events: seq<Event>) {
    forall i | 0 <= i < |events| :: events[i].Did?
  }

  /** Over every history without a crash, each persisted success has its full triplet and
      each unstarted step has no QoR file. */
  lemma {:induction false} SuccessesHaveTriplets(disk: Disk, events: seq<Event>)
    requires Tidy(disk) && CrashFree(events)
    ensures Tidy(Replay(disk, events))
    decreases |events|
  {
    hide Perform, Clean, HasTriplets;
    if events != [] {
      OpenSettled(disk);
      PerformSettled(Open(disk), events[0].op);
      SettledIsTidy(Perform(Open(disk), events[0].op));
      SuccessesHaveTriplets(After(disk, events[0]), events[1..]);
    }
  }

  lemma {:induction false} OpenSettled(disk: Disk)
    requires Tidy(disk)
    ensures Settled(Open(disk))
  {
  }

  lemma {:induction false} SettledIsTidy(e: Engine)
    requires Settled(e)
    ensures Tidy(e.disk)
  {
  }

  /** A kill right after `clear_states` has removed its first file leaves a success without
      its triplet, and nothing tells it from a complete one: a later run skips it. */
  lemma {:induction false} KilledClearLosesTriplet(step: FlowStep, turn: Turn)
    requires step.state.Success? && step.provenance.None? && step.name != ""
    ensures var disk := Disk([step], map[step.name := TRIPLET]);
            var left := Replay(disk, [KilledIn(Clear, 1)]);
            && Tidy(disk) && left.flow == [step] && !Tidy(left)
            && RunStep(Open(left), 0, false, turn) == (Open(left), Returned(Success))
  {
    var disk := Disk([step], map[step.name := TRIPLET]);
    var e := Open(disk);
    var e1 := Unlink(e, step.name, Metrics);
    FirstWriteOfClear(e);
    assert Perform(e, Clear).trace[0] == e1.disk;
    var left := After(disk, KilledIn(Clear, 1));
    assert left == e1.disk && Metrics !in Files(left, step.name);
    assert [KilledIn(Clear, 1)][1..] == [];
    assert Replay(left, []) == left;
    assert Replay(disk, [KilledIn(Clear, 1)]) == left;
    assert !IsStale(left.flow, 0, turn.env);
    assert RefreshStaleStates(Open(left), turn.env) == Open(left);
  }

  lemma {:induction false} ClearFromExtends(e: Engine, i: nat)
    requires i <= |e.steps|
    ensures e.trace <= ClearFrom(e, i).trace
    decreases |e.steps| - i
  {
    if i < |e.steps| {
      ClearFromExtends(SetStep(ClearQor(e, e.steps[i].name), i, Reset(e.steps[i])), i + 1);
    }
  }

  lemma {:induction false} FirstWriteOfClear(e: Engine)
    requires |e.steps| > 0 && e.trace == []
    ensures |ClearStates(e).trace| > 0
    ensures ClearStates(e).trace[0] == Unlink(e, e.steps[0].name, Metrics).disk
  {
    var cleared := SetStep(ClearQor(e, e.steps[0].name), 0, Reset(e.steps[0]));
    assert cleared.trace[0] == Unlink(e, e.steps[0].name, Metrics).disk;
    ClearFromExtends(cleared, 1);
  }
}
