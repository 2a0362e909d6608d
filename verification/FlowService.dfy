/** The flow command of the workspace service: the loop over the selected steps, the
    automatic prepare refresh in front of them, and the frontend snapshot after each. */
module FlowService {
  import opened Options
  import opened Flow
  import opened FlowTheorems
  import opened FlowRuns

  /** What one iteration meets: whether the prepared inputs are current, and how prepare and
      the step itself would run. */
  datatype FlowTurn = FlowTurn(preparedCurrent: bool, prepareTurn: Turn, turn: Turn, detailWritten: bool)

  datatype FlowEnd = Completed | StepFailed(step: string) | PrepareFailed | Aborted

  function StepIndex(steps: seq<FlowStep>, name: string, i: nat): (r: Option<nat>)
    requires i <= |steps|
    ensures r.Some? ==> i <= r.value < |steps| && steps[r.value].name == name
    decreases |steps| - i
  {
    if i == |steps| then None
    else if steps[i].name == name then Some(i)
    else StepIndex(steps, name, i + 1)
  }

  function RefreshPrepare(e: Engine, k: nat, refreshed: bool, turn: FlowTurn): (r: (Engine, bool, RunResult))
    requires k < |e.steps|
    ensures |r.0.steps| == |e.steps|
  {
    if refreshed || e.steps[k].name == "prepare" || turn.preparedCurrent then (e, refreshed, Returned(Success))
    else match StepIndex(e.steps, "prepare", 0)
      case None => (e, refreshed, Returned(Success))
      case Some(p) =>
        RunStepKeepsShape(e, p, true, turn.prepareTurn);
        var (after, result) := RunStep(e, p, true, turn.prepareTurn);
        (after, true, result)
  }

  function RemoveDetails(e: Engine, i: nat): (r: Engine)
    requires i <= |e.steps|
    ensures r.steps == e.steps && r.ran == e.ran
    decreases |e.steps| - i
  {
    if i == |e.steps| then e else RemoveDetails(Unlink(e, e.steps[i].name, Detail), i + 1)
  }

  function WriteDetail(e: Engine, k: nat, written: bool): (r: Engine)
    requires k < |e.steps|
    ensures r.steps == e.steps && r.ran == e.ran
  {
    if written then Put(e, e.steps[k].name, Detail) else e
  }

  /** One iteration: `None` means that the loop goes on with the next step. */
  function Iterate(e: Engine, k: nat, force: bool, refreshed: bool,
                   turn: FlowTurn): (r: (Engine, bool, Option<FlowEnd>))
    requires k < |e.steps|
    ensures |r.0.steps| == |e.steps|
  {
    var (ready, refreshed', prepared) := RefreshPrepare(e, k, refreshed, turn);
    if prepared == Reraised then (ready, refreshed', Some(Aborted))
    else if prepared != Returned(Success) then (ready, refreshed', Some(PrepareFailed))
    else
      RunStepKeepsShape(ready, k, force, turn.turn);
      var (after, result) := RunStep(ready, k, force, turn.turn);
      if result == Reraised then (after, refreshed', Some(Aborted))
      else
        (WriteDetail(after, k, turn.detailWritten), refreshed',
         if result != Returned(Success) then Some(StepFailed(e.steps[k].name)) else None)
  }

  function RunSelected(e: Engine, k: nat, start: Option<nat>, rerun: bool, refreshed: bool, turns: seq<FlowTurn>):
    (Engine, FlowEnd)
    requires k <= |e.steps| == |turns|
    decreases |e.steps| - k
  {
    if k == |e.steps| then (e, Completed)
    else
      var (next, refreshed', end) := Iterate(e, k, rerun || start == Some(k), refreshed, turns[k]);
      if end.Some? then (next, end.value) else RunSelected(next, k + 1, start, rerun, refreshed', turns)
  }

  /** `start` is the step named by `--from`; without it the loop starts at the first step. */
  function RunFlow(e: Engine, start: Option<nat>, rerun: bool, turns: seq<FlowTurn>): (Engine, FlowEnd)
    requires |e.steps| == |turns|
    requires start.Some? ==> start.value < |e.steps|
  {
    ClearFromKeepsShape(e, 0);
    var cleared := if rerun then RemoveDetails(ClearStates(e), 0) else e;
    match start
    case None => RunSelected(cleared, 0, None, rerun, false, turns)
    case Some(s) => RunSelected(RemoveDetails(cleared, s), s, start, rerun, false, turns)
  }

  /** The loop reruns prepare at most once, in front of another step, when its inputs are stale. */
  predicate PrepareDue(steps: seq<FlowStep>, k: nat, refreshed: bool, turn: FlowTurn)
    requires k < |steps|
  {
    !refreshed && steps[k].name != "prepare" && !turn.preparedCurrent && StepIndex(steps, "prepare", 0).Some?
  }

  /** The handlers a forced tail must execute: prepare once, when its inputs are found stale,
      and then every step in order up to the first failure. */
  function TailLog(steps: seq<FlowStep>, k: nat, refreshed: bool, turns: seq<FlowTurn>): seq<string>
    requires k <= |steps| == |turns|
    decreases |steps| - k
  {
    if k == |steps| then []
    else
      var due := PrepareDue(steps, k, refreshed, turns[k]);
      var first := if due then ["prepare"] else [];
      if due && !Succeeds(turns[k].prepareTurn) then first
      else if !Succeeds(turns[k].turn) then first + [steps[k].name]
      else first + [steps[k].name] + TailLog(steps, k + 1, refreshed || due, turns)
  }

  lemma {:induction false} StepIndexAgrees(steps: seq<FlowStep>, steps': seq<FlowStep>, name: string, i: nat)
    requires SameNames(steps, steps') && i <= |steps|
    ensures StepIndex(steps, name, i) == StepIndex(steps', name, i)
    decreases |steps| - i
  {
    if i < |steps| {
      StepIndexAgrees(steps, steps', name, i + 1);
    }
  }

  lemma {:induction false} TailLogAgrees(steps: seq<FlowStep>, steps': seq<FlowStep>, k: nat, refreshed: bool,
                                         turns: seq<FlowTurn>)
    requires SameNames(steps, steps') && k <= |steps| == |turns|
    ensures TailLog(steps, k, refreshed, turns) == TailLog(steps', k, refreshed, turns)
    decreases |steps| - k
  {
    if k < |steps| {
      StepIndexAgrees(steps, steps', "prepare", 0);
      TailLogAgrees(steps, steps', k + 1, false, turns);
      TailLogAgrees(steps, steps', k + 1, true, turns);
    }
  }

  predicate MustRun(e: Engine, k: nat, start: Option<nat>, rerun: bool)
    requires k < |e.steps|
  {
    rerun || start == Some(k) || !e.steps[k].state.Success?
  }

  lemma {:induction false} ForcedStep(e: Engine, k: nat, start: Option<nat>, rerun: bool, turn: Turn)
    requires k < |e.steps| && MustRun(e, k, start, rerun)
    ensures var (after, result) := RunStep(e, k, rerun || start == Some(k), turn);
            && SameNames(e.steps, after.steps)
            && after.ran == e.ran + [e.steps[k].name]
            && (result == Returned(Success) <==> Succeeds(turn))
            && (forall i | k < i < |e.steps| :: !after.steps[i].state.Success?)
  {
    RunStepEffect(e, k, rerun || start == Some(k), turn);
    RefreshNeverPromotes(e.steps, turn.env);
  }

  lemma {:induction false} RefreshPrepareEffect(e: Engine, k: nat, start: Option<nat>, rerun: bool, refreshed: bool,
                                                turn: FlowTurn)
    requires k < |e.steps| && MustRun(e, k, start, rerun)
    ensures var (ready, refreshed', result) := RefreshPrepare(e, k, refreshed, turn);
            var due := PrepareDue(e.steps, k, refreshed, turn);
            && SameNames(e.steps, ready.steps)
            && ready.ran == e.ran + (if due then ["prepare"] else [])
            && refreshed' == (refreshed || due)
            && (result == Returned(Success) <==> due ==> Succeeds(turn.prepareTurn))
            && MustRun(ready, k, start, rerun)
  {
    hide RunStep, RefreshedSteps;
    if !refreshed && e.steps[k].name != "prepare" && !turn.preparedCurrent {
      match StepIndex(e.steps, "prepare", 0) {
        case None =>
        case Some(p) =>
          RunStepEffect(e, p, true, turn.prepareTurn);
          RefreshNeverPromotes(e.steps, turn.prepareTurn.env);
          if !e.steps[k].state.Success? {
            RunStepPromotesOnlyItself(e, p, true, turn.prepareTurn, k);
          }
      }
    }
  }

  /** One iteration of the loop appends the matching piece of the log. */
  lemma {:induction false} IterationRuns(e: Engine, k: nat, start: Option<nat>, rerun: bool, refreshed: bool,
                                         turn: FlowTurn)
    requires k < |e.steps| && MustRun(e, k, start, rerun)
    ensures var (next, refreshed', end) := Iterate(e, k, rerun || start == Some(k), refreshed, turn);
            var due := PrepareDue(e.steps, k, refreshed, turn);
            var first := if due then ["prepare"] else [];
            && SameNames(e.steps, next.steps)
            && refreshed' == (refreshed || due)
            && next.ran == e.ran + (if due && !Succeeds(turn.prepareTurn) then first else first + [e.steps[k].name])
            && (end.None? <==> (due ==> Succeeds(turn.prepareTurn)) && Succeeds(turn.turn))
            && (end.None? ==> forall i | k < i < |e.steps| :: !next.steps[i].state.Success?)
  {
    hide RunStep, RefreshPrepare;
    RefreshPrepareEffect(e, k, start, rerun, refreshed, turn);
    var (ready, refreshed', prepared) := RefreshPrepare(e, k, refreshed, turn);
    if prepared == Returned(Success) {
      ForcedStep(ready, k, start, rerun, turn.turn);
    }
  }

  /** Once a step of the loop must run, all later ones run too, up to the first failure,
      whatever the environment does in between. */
  lemma {:induction false} SelectedStepsRun(e: Engine, k: nat, start: Option<nat>, rerun: bool, refreshed: bool,
                                            turns: seq<FlowTurn>)
    requires k <= |e.steps| == |turns|
    requires k < |e.steps| ==> MustRun(e, k, start, rerun)
    ensures RunSelected(e, k, start, rerun, refreshed, turns).0.ran == e.ran + TailLog(e.steps, k, refreshed, turns)
    decreases |e.steps| - k
  {
    hide RunStep, Iterate, RefreshPrepare;
    if k < |e.steps| {
      IterationRuns(e, k, start, rerun, refreshed, turns[k]);
      var (next, refreshed', end) := Iterate(e, k, rerun || start == Some(k), refreshed, turns[k]);
      if end.None? {
        SelectedStepsRun(next, k + 1, start, rerun, refreshed', turns);
        TailLogAgrees(e.steps, next.steps, k + 1, refreshed', turns);
      }
    }
  }

  /** `--from s` executes step `s` and every later step, up to the first failure, from any
      state and in any environment. */
  lemma {:induction false} FromExecutesEveryStep(e: Engine, s: nat, rerun: bool, turns: seq<FlowTurn>)
    requires s < |e.steps| == |turns|
    ensures RunFlow(e, Some(s), rerun, turns).0.ran == e.ran + TailLog(e.steps, s, false, turns)
  {
    ClearFromKeepsShape(e, 0);
    var cleared := if rerun then RemoveDetails(ClearStates(e), 0) else e;
    SelectedStepsRun(RemoveDetails(cleared, s), s, Some(s), rerun, false, turns);
    TailLogAgrees(e.steps, cleared.steps, s, false, turns);
  }
}
