/** Whole histories: any sequence of operations, each completed or killed after any of its
    persisted writes, with restarts in between and a different environment every time. */
module FlowHistory {
  import opened Options
  import opened StepProvenance
  import opened Flow
  import opened FlowService
  import opened FlowCrash
  import opened FlowRecovery

  datatype Op =
    | Refresh(env: Environment)
    | Step(index: nat, rerun: bool, turn: Turn)
    | All(rerun: bool, turns: seq<Turn>)
    | FlowCommand(start: Option<nat>, rerun: bool, flowTurns: seq<FlowTurn>)
    | Clear
    | ClearOngoing
    | RecoverInterrupted(active: set<string>, operation: string)

  datatype Event = Did(op: Op) | KilledIn(op: Op, writes: nat)

  predicate Applicable(steps: seq<FlowStep>, op: Op) {
    match op
    case Step(k, _, _) => k < |steps|
    case All(_, turns) => |turns| == |steps|
    case FlowCommand(start, _, turns) => |turns| == |steps| && (start.Some? ==> start.value < |steps|)
    case _ => true
  }

  /** The engine after an operation; a call with an unknown step changes nothing. */
  function Perform(e: Engine, op: Op): Engine {
    if !Applicable(e.steps, op) then e
    else match op
      case Refresh(env) => RefreshStaleStates(e, env)
      case Step(k, rerun, turn) => RunStep(e, k, rerun, turn).0
      case All(rerun, turns) => RunAll(e, rerun, turns).0
      case FlowCommand(start, rerun, turns) => RunFlow(e, start, rerun, turns).0
      case Clear => ClearStates(e)
      case ClearOngoing => ClearStaleOngoing(e)
      case RecoverInterrupted(active, operation) => Recover(e, active, operation)
  }

  /** The disk an event leaves for the next process to open. */
  function After(disk: Disk, event: Event): Disk {
    var e := Perform(Open(disk), event.op);
    match event
    case Did(_) => e.disk
    case KilledIn(_, writes) =>
      if writes == 0 then disk else if writes <= |e.trace| then e.trace[writes - 1] else e.disk
  }

  function Replay(disk: Disk, events: seq<Event>): Disk
    decreases |events|
  {
    if events == [] then disk else Replay(After(disk, events[0]), events[1..])
  }

  // Safety of the service loop

  lemma {:induction false} RemoveDetailsSafe(e: Engine, i: nat)
    requires Safe(e) && i <= |e.steps|
    ensures Safe(RemoveDetails(e, i))
    ensures RemoveDetails(e, i).disk.flow == e.disk.flow
    decreases |e.steps| - i
  {
    if i < |e.steps| {
      UnlinkSafe(e, e.steps[i].name, Detail);
      RemoveDetailsSafe(Unlink(e, e.steps[i].name, Detail), i + 1);
    }
  }

  lemma {:induction false} IterateSafe(e: Engine, k: nat, force: bool, refreshed: bool, turn: FlowTurn)
    requires Safe(e) && e.disk.flow == e.steps && k < |e.steps|
    ensures var next := Iterate(e, k, force, refreshed, turn).0;
            Safe(next) && next.disk.flow == next.steps
  {
    hide RunStep, Safe;
    var (ready, refreshed', prepared) := RefreshPrepare(e, k, refreshed, turn);
    assert Safe(ready) && ready.disk.flow == ready.steps by {
      var p := StepIndex(e.steps, "prepare", 0);
      if p.Some? {
        RunStepSafe(e, p.value, true, turn.prepareTurn);
        RunStepLeavesRunnable(e, p.value, true, turn.prepareTurn);
      }
    }
    RunStepSafe(ready, k, force, turn.turn);
    RunStepLeavesRunnable(ready, k, force, turn.turn);
    var after := RunStep(ready, k, force, turn.turn).0;
    PutSafe(after, k, Detail);
  }

  lemma {:induction false} RunSelectedSafe(e: Engine, k: nat, start: Option<nat>, rerun: bool, refreshed: bool,
                                           turns: seq<FlowTurn>)
    requires Safe(e) && e.disk.flow == e.steps && k <= |e.steps| == |turns|
    ensures Safe(RunSelected(e, k, start, rerun, refreshed, turns).0)
    decreases |e.steps| - k
  {
    hide Iterate, Safe;
    if k < |e.steps| {
      IterateSafe(e, k, rerun || start == Some(k), refreshed, turns[k]);
      var (next, refreshed', end) := Iterate(e, k, rerun || start == Some(k), refreshed, turns[k]);
      RunSelectedSafe(next, k + 1, start, rerun, refreshed', turns);
    }
  }

  lemma {:induction false} ClearStatesSafe(e: Engine)
    requires Safe(e)
    ensures Safe(ClearStates(e)) && ClearStates(e).disk.flow == ClearStates(e).steps
  {
    ClearFromSafe(e, 0);
    SaveSafe(ClearFrom(e, 0));
  }

  lemma {:induction false} RunFlowSafe(e: Engine, start: Option<nat>, rerun: bool, turns: seq<FlowTurn>)
    requires Safe(e) && e.disk.flow == e.steps && |turns| == |e.steps|
    requires start.Some? ==> start.value < |e.steps|
    ensures Safe(RunFlow(e, start, rerun, turns).0)
  {
    hide Safe;
    ClearFromKeepsShape(e, 0);
    ClearStatesSafe(e);
    RemoveDetailsSafe(ClearStates(e), 0);
    var cleared := if rerun then RemoveDetails(ClearStates(e), 0) else e;
    match start {
      case None => RunSelectedSafe(cleared, 0, None, rerun, false, turns);
      case Some(s) =>
        RemoveDetailsSafe(cleared, s);
        RunSelectedSafe(RemoveDetails(cleared, s), s, start, rerun, false, turns);
    }
  }

  lemma {:induction false} PerformSafe(e: Engine, op: Op)
    requires Safe(e) && e.disk.flow == e.steps
    ensures Safe(Perform(e, op))
  {
    hide Safe, RefreshStaleStates, RunStep, RunFlow, ClearStates;
    if Applicable(e.steps, op) {
      match op {
        case Refresh(env) => RefreshSafe(e, env);
        case Step(k, rerun, turn) => RunStepSafe(e, k, rerun, turn);
        case All(rerun, turns) =>
          ClearFromKeepsShape(e, 0);
          ClearStatesSafe(e);
          RunFromSafe(e, 0, rerun, turns);
          ClearedShape(e);
          RunFromSafe(ClearStates(e), 0, rerun, turns);
        case FlowCommand(start, rerun, turns) => RunFlowSafe(e, start, rerun, turns);
        case Clear => ClearStatesSafe(e);
        case ClearOngoing =>
          ClearOngoingIsFullRecovery(e);
          RecoverFromSafe(e, 0, {}, "");
          SaveIfChangedSafe(e, RecoverFrom(e, 0, {}, ""));
        case RecoverInterrupted(active, operation) =>
          RecoverFromSafe(e, 0, active, operation);
          SaveIfChangedSafe(e, RecoverFrom(e, 0, active, operation));
      }
    }
  }

  lemma {:induction false} ClearedShape(e: Engine)
    ensures |ClearStates(e).steps| == |e.steps|
  {
    ClearFromKeepsShape(e, 0);
  }

  /** Over every history of completed and killed operations, a step persisted as unstarted
      has no QoR file in its directory. */
  lemma {:induction false} UnstartedStepsHaveNoQor(disk: Disk, events: seq<Event>)
    requires Clean(disk)
    ensures Clean(Replay(disk, events))
    decreases |events|
  {
    hide Perform, Clean;
    if events != [] {
      OpenIsSafe(disk);
      PerformSafe(Open(disk), events[0].op);
      AfterClean(disk, events[0]);
      UnstartedStepsHaveNoQor(After(disk, events[0]), events[1..]);
    }
  }

  lemma {:induction false} AfterClean(disk: Disk, event: Event)
    requires Clean(disk) && Safe(Perform(Open(disk), event.op))
    ensures Clean(After(disk, event))
  {
    hide Perform, Clean;
  }
}
