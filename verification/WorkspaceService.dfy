/** The flow command, driving one engine object. */
module WorkspaceService {
  import opened Options
  import opened Flow
  import opened FlowService
  import opened EngineFlowClass

  datatype FlowReport = UnknownStep | Ran(end: FlowEnd)

  /** `_refresh_prepare_if_stale`: whether prepare was rerun, and how that ended. */
  method RefreshPrepareIfStale(engine: EngineFlow, k: nat, turn: FlowTurn) returns (refreshed: bool, result: RunResult)
    requires ValidFlow(engine.steps) && k < |engine.steps|
    modifies engine
    ensures ValidFlow(engine.steps) && |engine.steps| == |old(engine.steps)|
    ensures (engine.View(), refreshed, result) == RefreshPrepare(old(engine.View()), k, false, turn)
    ensures SameNames(old(engine.steps), engine.steps)
  {
    hide Flow.RunStep;
    if engine.steps[k].name == "prepare" || turn.preparedCurrent {
      return false, Returned(Success);
    }
    var prepareIndex := engine.GetStep("prepare");
    if prepareIndex.None? {
      return false, Returned(Success);
    }
    result := engine.RunStep("prepare", true, turn.prepareTurn);
    refreshed := true;
  }

  method RunFlowCommand(engine: EngineFlow, fromStep: string, rerun: bool, turns: seq<FlowTurn>)
    returns (report: FlowReport)
    requires ValidFlow(engine.steps) && |turns| == |engine.steps|
    modifies engine
    ensures fromStep != "" && StepIndex(old(engine.steps), fromStep, 0).None? ==>
              report == UnknownStep && engine.View() == old(engine.View())
    ensures fromStep == "" || StepIndex(old(engine.steps), fromStep, 0).Some? ==>
              var start := if fromStep == "" then None else StepIndex(old(engine.steps), fromStep, 0);
              report.Ran? && (engine.View(), report.end) == RunFlow(old(engine.View()), start, rerun, turns)
  {
    hide Flow.RunStep, Flow.ClearStates, Iterate, RemoveDetails, StepIndex;
    var start: Option<nat> := None;
    if fromStep != "" {
      start := engine.GetStep(fromStep);
      if start.None? { return UnknownStep; }
    }
    CleanSlateIsValid(engine.View());
    if rerun {
      engine.ClearStates();
      RemoveDetailsFrom(engine, 0);
    }
    var k := 0;
    if start.Some? {
      k := start.value;
      RemoveDetailsFrom(engine, k);
    }
    var prepareRefreshed := false;
    ghost var begun := engine.View();
    ghost var first := k;
    while k < |engine.steps|
      invariant 0 <= k <= |engine.steps| == |turns|
      invariant ValidFlow(engine.steps)
      invariant first <= |begun.steps| == |turns|
      invariant RunSelected(engine.View(), k, start, rerun, prepareRefreshed, turns)
                == RunSelected(begun, first, start, rerun, false, turns)
    {
      var end: Option<FlowEnd>;
      prepareRefreshed, end := RunIteration(engine, k, rerun || start == Some(k), prepareRefreshed, turns[k]);
      if end.Some? { return Ran(end.value); }
      k := k + 1;
    }
    return Ran(Completed);
  }

  method RunIteration(engine: EngineFlow, k: nat, force: bool, prepareRefreshed: bool, turn: FlowTurn)
    returns (refreshed: bool, end: Option<FlowEnd>)
    requires ValidFlow(engine.steps) && k < |engine.steps|
    modifies engine
    ensures ValidFlow(engine.steps) && |engine.steps| == |old(engine.steps)|
    ensures (engine.View(), refreshed, end) == Iterate(old(engine.View()), k, force, prepareRefreshed, turn)
  {
    hide Flow.RunStep;
    var name := engine.steps[k].name;
    var prepared := Returned(Success);
    refreshed := prepareRefreshed;
    if !prepareRefreshed {
      refreshed, prepared := RefreshPrepareIfStale(engine, k, turn);
    }
    if prepared == Reraised { return refreshed, Some(Aborted); }
    if prepared != Returned(Success) { return refreshed, Some(PrepareFailed); }
    DistinctIndex(engine.steps, k, 0);
    var result := engine.RunStep(name, force, turn.turn);
    if result == Reraised { return refreshed, Some(Aborted); }
    if turn.detailWritten {
      engine.PutQorFile(name, Detail);
    }
    return refreshed, if result != Returned(Success) then Some(StepFailed(name)) else None;
  }

  method RemoveDetailsFrom(engine: EngineFlow, start: nat)
    requires start <= |engine.steps|
    modifies engine
    ensures engine.View() == RemoveDetails(old(engine.View()), start)
  {
    ghost var e := engine.View();
    var i := start;
    while i < |engine.steps|
      invariant start <= i <= |engine.steps|
      invariant RemoveDetails(engine.View(), i) == RemoveDetails(e, start)
    {
      engine.UnlinkQor(engine.steps[i].name, Detail);
      i := i + 1;
    }
  }
}
