/** Where recorded provenance comes from: over every history each record was made by a handler
    that succeeded, so a skipped step stands for a real execution with today's facts. */
module FlowOrigins {
  import opened Options
  import opened StepProvenance
  import opened Flow
  import opened FlowTheorems
  import opened FlowService
  import opened FlowHistory

  /** The record a successful turn leaves behind. */
  function RecordOf(turn: Turn, name: string, tool: string, upstream: Option<Provenance>): Provenance
    requires Succeeds(turn)
  {
    BuildStepProvenance(turn.env, name, tool, upstream).(outputFingerprint := turn.outcome.output)
  }

  ghost predicate Origin(p: Provenance, name: string, tool: string, known: iset<Turn>) {
    exists turn, upstream :: turn in known && Succeeds(turn) && p == RecordOf(turn, name, tool, upstream)
  }

  ghost predicate Originated(steps: seq<FlowStep>, known: iset<Turn>) {
    forall i | 0 <= i < |steps| && steps[i].provenance.Some? ::
      Origin(steps[i].provenance.value, steps[i].name, steps[i].tool, known)
  }

  /** Every record in memory and on every disk so far has an origin. */
  ghost predicate Traced(e: Engine, known: iset<Turn>) {
    Originated(e.steps, known) && Originated(e.disk.flow, known) && forall d | d in e.trace :: Originated(d.flow, known)
  }

  lemma {:induction false} SaveTraced(e: Engine, known: iset<Turn>)
    requires Traced(e, known)
    ensures Traced(Save(e), known)
  {
    hide Originated;
  }

  lemma {:induction false} UnlinkTraced(e: Engine, name: string, file: QorFile, known: iset<Turn>)
    requires Traced(e, known)
    ensures Traced(Unlink(e, name, file), known) && Traced(Put(e, name, file), known)
  {
    hide Originated;
  }

  lemma {:induction false} ClearQorTraced(e: Engine, name: string, known: iset<Turn>)
    requires Traced(e, known)
    ensures Traced(ClearQor(e, name), known)
  {
    hide Traced, Unlink;
    UnlinkTraced(e, name, Metrics, known);
    UnlinkTraced(Unlink(e, name, Metrics), name, Summary, known);
    UnlinkTraced(Unlink(Unlink(e, name, Metrics), name, Summary), name, Hotspots, known);
    UnlinkTraced(Unlink(Unlink(Unlink(e, name, Metrics), name, Summary), name, Hotspots), name, Detail, known);
  }

  lemma {:induction false} PutQorTraced(e: Engine, name: string, count: nat, known: iset<Turn>)
    requires Traced(e, known)
    ensures Traced(PutQor(e, name, count), known)
  {
    hide Traced, Put;
    UnlinkTraced(e, name, Metrics, known);
    UnlinkTraced(Put(e, name, Metrics), name, Summary, known);
    UnlinkTraced(Put(Put(e, name, Metrics), name, Summary), name, Hotspots, known);
  }

  /** A step may lose its record, keep it, or get one with an origin. */
  lemma {:induction false} SetStepTraced(e: Engine, k: nat, step: FlowStep, known: iset<Turn>)
    requires Traced(e, known) && k < |e.steps| && step.name == e.steps[k].name && step.tool == e.steps[k].tool
    requires step.provenance.Some? && step.provenance != e.steps[k].provenance ==>
               Origin(step.provenance.value, step.name, step.tool, known)
    ensures Traced(SetStep(e, k, step), known)
  {
    hide Origin;
  }

  lemma {:induction false} MarkFromTraced(e: Engine, i: nat, reason: string, from: string, known: iset<Turn>)
    requires Traced(e, known) && i <= |e.steps|
    ensures Traced(MarkFrom(e, i, reason, from), known)
    decreases |e.steps| - i
  {
    hide Traced, MarkAt;
    if i < |e.steps| {
      MarkAtTraced(e, i, reason, from, known);
      MarkAtEffect(e, i, reason, from);
      MarkFromTraced(MarkAt(e, i, reason, from), i + 1, reason, from, known);
    }
  }

  lemma {:induction false} MarkAtTraced(e: Engine, i: nat, reason: string, from: string, known: iset<Turn>)
    requires Traced(e, known) && i < |e.steps|
    ensures Traced(MarkAt(e, i, reason, from), known)
  {
    hide Traced, MarkStale, ClearQor;
    ClearQorTraced(e, e.steps[i].name, known);
    SetStepTraced(ClearQor(e, e.steps[i].name), i, MarkStale(e.steps[i], reason, from), known);
  }

  lemma {:induction false} SaveIfChangedTraced(before: Engine, after: Engine, known: iset<Turn>)
    requires Traced(after, known)
    ensures Traced(SaveIfChanged(before, after), known)
  {
    hide Traced;
    SaveTraced(after, known);
  }

  lemma {:induction false} RefreshTraced(e: Engine, env: Environment, known: iset<Turn>)
    requires Traced(e, known)
    ensures Traced(RefreshStaleStates(e, env), known)
  {
    hide Traced, IsStale, StaleReason, MarkAt, MarkFrom, SaveIfChanged;
    var s := FirstStaleFrom(e.steps, 0, env);
    if s < |e.steps| {
      var from, reason := e.steps[s].name, StaleReason(e.steps, s, env);
      MarkAtTraced(e, s, reason, from, known);
      MarkAtEffect(e, s, reason, from);
      MarkFromTraced(MarkAt(e, s, reason, from), s + 1, Reason("upstream step ", from, " is stale"), from, known);
      SaveIfChangedTraced(e, MarkStaleSuffix(e, s, env), known);
    }
  }

  lemma {:induction false} PrepareTraced(e: Engine, k: nat, marker: Option<Marker>, known: iset<Turn>)
    requires Traced(e, known) && k < |e.steps|
    ensures Traced(Prepare(e, k, marker), known)
  {
    hide Traced, ClearQor;
    var e1 := SetStep(e, k, e.steps[k].(stale := None));
    SetStepTraced(e, k, e.steps[k].(stale := None), known);
    ClearQorTraced(e1, e.steps[k].name, known);
    var e2 := ClearQor(e1, e.steps[k].name);
    var started := e2.steps[k].(state := Ongoing, marker := marker);
    SetStepTraced(e2, k, started, known);
    SaveTraced(SetStep(e2, k, started), known);
  }

  lemma {:induction false} FinishStepTraced(e: Engine, k: nat, state: StepState, elapsed: string, known: iset<Turn>)
    requires Traced(e, known) && k < |e.steps|
    ensures Traced(FinishStep(e, k, state, elapsed), known)
  {
    hide Traced;
    var finished := e.steps[k].(state := state, runtime := elapsed, marker := None);
    SetStepTraced(e, k, finished, known);
    SaveTraced(SetStep(e, k, finished), known);
  }

  lemma {:induction false} FailStepTraced(e: Engine, k: nat, elapsed: string, known: iset<Turn>)
    requires Traced(e, known) && k < |e.steps|
    ensures Traced(FailStep(e, k, elapsed), known)
  {
    hide Traced;
    FinishStepTraced(e, k, Incomplete, elapsed, known);
    var finished := FinishStep(e, k, Incomplete, elapsed);
    SetStepTraced(finished, k, finished.steps[k].(provenance := None), known);
    SaveTraced(SetStep(finished, k, finished.steps[k].(provenance := None)), known);
  }

  lemma {:induction false} ExecuteTraced(e: Engine, k: nat, upstream: Option<Provenance>, turn: Turn, known: iset<Turn>)
    requires Traced(e, known) && k < |e.steps| && turn in known
    ensures var provenance := BuildStepProvenance(turn.env, e.steps[k].name, e.steps[k].tool, upstream);
            Traced(Execute(e, k, provenance, turn).0, known)
  {
    hide Traced, PutQor, ClearQor, FinishStep, FailStep, BuildStepProvenance;
    var name := e.steps[k].name;
    var provenance := BuildStepProvenance(turn.env, name, e.steps[k].tool, upstream);
    var begun := e.(ran := e.ran + [name]);
    assert Traced(begun, known) by { RanUntraced(e, begun, known); }
    match turn.outcome {
      case Finished(ok, output) =>
        PutQorTraced(begun, name, 3, known);
        var published := PutQor(begun, name, 3);
        if ok {
          assert provenance.(outputFingerprint := output) == RecordOf(turn, name, e.steps[k].tool, upstream);
          var signed := published.steps[k].(provenance := Some(provenance.(outputFingerprint := output)));
          SetStepTraced(published, k, signed, known);
          FinishStepTraced(SetStep(published, k, signed), k, Success, turn.elapsed, known);
        } else {
          FailStepTraced(published, k, turn.elapsed, known);
        }
      case Failed(count, sourceChanged, failureQor) =>
        PutQorTraced(begun, name, count, known);
        var partial := PutQor(begun, name, count);
        PutQorTraced(partial, name, 3, known);
        ClearQorTraced(partial, name, known);
        FailStepTraced(PutQor(partial, name, 3), k, turn.elapsed, known);
        FailStepTraced(ClearQor(partial, name), k, turn.elapsed, known);
      case Interrupted(count) =>
        PutQorTraced(begun, name, count, known);
        ClearQorTraced(PutQor(begun, name, count), name, known);
        FailStepTraced(ClearQor(PutQor(begun, name, count), name), k, turn.elapsed, known);
    }
  }

  lemma {:induction false} RanUntraced(e: Engine, e': Engine, known: iset<Turn>)
    requires Traced(e, known) && e' == e.(ran := e'.ran)
    ensures Traced(e', known)
  {
  }

  lemma {:induction false} ForceStepTraced(e: Engine, k: nat, turn: Turn, known: iset<Turn>)
    requires Traced(e, known) && k < |e.steps| && turn in known
    ensures Traced(ForceStep(e, k, turn).0, known)
  {
    hide Traced, MarkFrom, SaveIfChanged, Prepare, Execute, BuildStepProvenance;
    var reason := "upstream step is being rerun";
    MarkFromTraced(e, k + 1, reason, e.steps[k].name, known);
    SaveIfChangedTraced(e, MarkFrom(e, k + 1, reason, e.steps[k].name), known);
    MarkDownstreamKeepsShape(e, k);
    var marked := MarkDownstream(e, k);
    PrepareTraced(marked, k, turn.marker, known);
    PrepareKeepsShape(marked, k, turn.marker);
    ExecuteTraced(Prepare(marked, k, turn.marker), k, UpstreamProvenance(marked.steps, k), turn, known);
  }

  lemma {:induction false} RunStepTraced(e: Engine, k: nat, rerun: bool, turn: Turn, known: iset<Turn>)
    requires Traced(e, known) && k < |e.steps| && turn in known
    ensures Traced(RunStep(e, k, rerun, turn).0, known)
  {
    hide Traced, RefreshStaleStates, ForceStep;
    RefreshTraced(e, turn.env, known);
    RefreshKeepsShape(e, turn.env);
    ForceStepTraced(RefreshStaleStates(e, turn.env), k, turn, known);
  }

  lemma {:induction false} RunFromTraced(e: Engine, k: nat, rerun: bool, turns: seq<Turn>, known: iset<Turn>)
    requires Traced(e, known) && k <= |e.steps| == |turns| && forall t | t in turns :: t in known
    ensures Traced(RunFrom(e, k, rerun, turns).0, known)
    decreases |e.steps| - k
  {
    hide Traced, RunStep;
    if k < |e.steps| {
      assert turns[k] in turns;
      RunStepTraced(e, k, rerun, turns[k], known);
      RunStepKeepsShape(e, k, rerun, turns[k]);
      var (next, result) := RunStep(e, k, rerun, turns[k]);
      if result == Returned(Success) {
        RunFromTraced(next, k + 1, rerun, turns, known);
      }
    }
  }

  lemma {:induction false} ClearFromTraced(e: Engine, i: nat, known: iset<Turn>)
    requires Traced(e, known) && i <= |e.steps|
    ensures Traced(ClearFrom(e, i), known)
    decreases |e.steps| - i
  {
    hide Traced, ClearQor;
    if i < |e.steps| {
      ClearQorTraced(e, e.steps[i].name, known);
      var cleared := ClearQor(e, e.steps[i].name);
      var step := Reset(e.steps[i]);
      SetStepTraced(cleared, i, step, known);
      ClearFromTraced(SetStep(cleared, i, step), i + 1, known);
    }
  }

  lemma {:induction false} ClearStatesTraced(e: Engine, known: iset<Turn>)
    requires Traced(e, known)
    ensures Traced(ClearStates(e), known)
  {
    hide Traced;
    ClearFromTraced(e, 0, known);
    SaveTraced(ClearFrom(e, 0), known);
  }

  lemma {:induction false} InterruptAtTraced(e: Engine, i: nat, known: iset<Turn>)
    requires Traced(e, known) && i < |e.steps|
    ensures Traced(InterruptAt(e, i), known) && |InterruptAt(e, i).steps| == |e.steps|
  {
    hide Traced, ClearQor;
    var step := e.steps[i].(state := Incomplete, marker := None);
    SetStepTraced(e, i, step, known);
    ClearQorTraced(SetStep(e, i, step), e.steps[i].name, known);
  }

  lemma {:induction false} RecoverTraced(e: Engine, active: set<string>, operation: string, known: iset<Turn>)
    requires Traced(e, known)
    ensures Traced(Recover(e, active, operation), known)
  {
    hide Traced, RecoverFrom, SaveIfChanged;
    RecoverFromTraced(e, 0, active, operation, known);
    SaveIfChangedTraced(e, RecoverFrom(e, 0, active, operation), known);
  }

  lemma {:induction false} RecoverFromTraced(e: Engine, i: nat, active: set<string>, operation: string,
                                             known: iset<Turn>)
    requires Traced(e, known) && i <= |e.steps|
    ensures Traced(RecoverFrom(e, i, active, operation), known)
    decreases |e.steps| - i
  {
    hide Traced, InterruptAt, Recoverable;
    if i < |e.steps| {
      InterruptAtTraced(e, i, known);
      RecoverFromTraced(if Recoverable(e.steps[i], active, operation) then InterruptAt(e, i) else e, i + 1, active,
        operation, known);
    }
  }

  lemma {:induction false} ClearOngoingTraced(e: Engine, i: nat, known: iset<Turn>)
    requires Traced(e, known) && i <= |e.steps|
    ensures Traced(ClearOngoingFrom(e, i), known)
    decreases |e.steps| - i
  {
    hide Traced, InterruptAt;
    if i < |e.steps| {
      InterruptAtTraced(e, i, known);
      ClearOngoingTraced(if e.steps[i].state.Ongoing? then InterruptAt(e, i) else e, i + 1, known);
    }
  }

  // The flow command

  lemma {:induction false} RemoveDetailsTraced(e: Engine, i: nat, known: iset<Turn>)
    requires Traced(e, known) && i <= |e.steps|
    ensures Traced(RemoveDetails(e, i), known)
    decreases |e.steps| - i
  {
    hide Traced;
    if i < |e.steps| {
      UnlinkTraced(e, e.steps[i].name, Detail, known);
      RemoveDetailsTraced(Unlink(e, e.steps[i].name, Detail), i + 1, known);
    }
  }

  lemma {:induction false} IterateTraced(e: Engine, k: nat, force: bool, refreshed: bool, turn: FlowTurn,
                                         known: iset<Turn>)
    requires Traced(e, known) && k < |e.steps| && turn.turn in known && turn.prepareTurn in known
    ensures Traced(Iterate(e, k, force, refreshed, turn).0, known)
  {
    hide Traced, RunStep, Put;
    var ready := RefreshPrepare(e, k, refreshed, turn).0;
    match StepIndex(e.steps, "prepare", 0) {
      case None =>
      case Some(p) => RunStepTraced(e, p, true, turn.prepareTurn, known);
    }
    RunStepTraced(ready, k, force, turn.turn, known);
    RunStepKeepsShape(ready, k, force, turn.turn);
    var after := RunStep(ready, k, force, turn.turn).0;
    UnlinkTraced(after, after.steps[k].name, Detail, known);
  }

  lemma {:induction false} RunSelectedTraced(e: Engine, k: nat, start: Option<nat>, rerun: bool, refreshed: bool,
                                             turns: seq<FlowTurn>, known: iset<Turn>)
    requires Traced(e, known) && k <= |e.steps| == |turns|
    requires forall t | t in turns :: t.turn in known && t.prepareTurn in known
    ensures Traced(RunSelected(e, k, start, rerun, refreshed, turns).0, known)
    decreases |e.steps| - k
  {
    hide Traced, Iterate;
    if k < |e.steps| {
      assert turns[k] in turns;
      IterateTraced(e, k, rerun || start == Some(k), refreshed, turns[k], known);
      var (next, refreshed', end) := Iterate(e, k, rerun || start == Some(k), refreshed, turns[k]);
      RunSelectedTraced(next, k + 1, start, rerun, refreshed', turns, known);
    }
  }

  // Histories

  /** The handlers an operation may execute. */
  ghost predicate TurnOf(op: Op, turn: Turn) {
    match op
    case Step(_, _, t) => turn == t
    case All(_, turns) => turn in turns
    case FlowCommand(_, _, turns) => exists t :: t in turns && (turn == t.turn || turn == t.prepareTurn)
    case _ => false
  }

  ghost predicate Happened(events: seq<Event>, turn: Turn) {
    exists i | 0 <= i < |events| :: TurnOf(events[i].op, turn)
  }

  ghost function Turns(events: seq<Event>): iset<Turn> {
    iset turn | Happened(events, turn)
  }

  lemma {:induction false} PerformTraced(e: Engine, op: Op, known: iset<Turn>)
    requires Traced(e, known) && forall turn | TurnOf(op, turn) :: turn in known
    ensures Traced(Perform(e, op), known)
  {
    hide Traced, RefreshStaleStates, RunStep, RunFrom, RunSelected, ClearStates, Recover, ClearOngoingFrom,
      SaveIfChanged,
      RemoveDetails;
    if Applicable(e.steps, op) {
      match op {
        case Refresh(env) => RefreshTraced(e, env, known);
        case Step(k, rerun, turn) => RunStepTraced(e, k, rerun, turn, known);
        case All(rerun, turns) =>
          ClearStatesTraced(e, known);
          ClearedShape(e);
          RunFromTraced(if rerun then ClearStates(e) else e, 0, rerun, turns, known);
        case FlowCommand(start, rerun, turns) => CommandTraced(e, start, rerun, turns, known);
        case Clear => ClearStatesTraced(e, known);
        case ClearOngoing =>
          ClearOngoingTraced(e, 0, known);
          SaveIfChangedTraced(e, ClearOngoingFrom(e, 0), known);
        case RecoverInterrupted(active, operation) => RecoverTraced(e, active, operation, known);
      }
    }
  }

  lemma {:induction false} CommandTraced(e: Engine, start: Option<nat>, rerun: bool, turns: seq<FlowTurn>,
                                         known: iset<Turn>)
    requires Traced(e, known) && |turns| == |e.steps| && (start.Some? ==> start.value < |e.steps|)
    requires forall turn | TurnOf(FlowCommand(start, rerun, turns), turn) :: turn in known
    ensures Traced(RunFlow(e, start, rerun, turns).0, known)
  {
    hide Traced, ClearStates, RemoveDetails, RunSelected;
    forall t | t in turns ensures t.turn in known && t.prepareTurn in known {
      assert TurnOf(FlowCommand(start, rerun, turns), t.turn)
          && TurnOf(FlowCommand(start, rerun, turns), t.prepareTurn);
    }
    ClearStatesTraced(e, known);
    ClearedShape(e);
    RemoveDetailsTraced(ClearStates(e), 0, known);
    var cleared := if rerun then RemoveDetails(ClearStates(e), 0) else e;
    match start {
      case None => RunSelectedTraced(cleared, 0, None, rerun, false, turns, known);
      case Some(s) =>
        RemoveDetailsTraced(cleared, s, known);
        RunSelectedTraced(RemoveDetails(cleared, s), s, start, rerun, false, turns, known);
    }
  }

  lemma {:induction false} HistoryTraced(disk: Disk, events: seq<Event>, known: iset<Turn>)
    requires Originated(disk.flow, known)
    requires forall i, turn | 0 <= i < |events| && TurnOf(events[i].op, turn) :: turn in known
    ensures Originated(Replay(disk, events).flow, known)
    decreases |events|
  {
    hide Perform, Originated, TurnOf;
    if events != [] {
      PerformTraced(Open(disk), events[0].op, known);
      HistoryTraced(After(disk, events[0]), events[1..], known);
    }
  }

  /** Over every history from an untracked flow, each persisted record is the one that some turn
      of the history left behind when its handler succeeded. */
  lemma {:induction false} RecordsHaveOrigins(disk: Disk, events: seq<Event>)
    requires !Tracked(disk.flow)
    ensures Originated(Replay(disk, events).flow, Turns(events))
  {
    HistoryTraced(disk, events, Turns(events));
  }

  /** A skipped step of a tracked flow repeats a real result: over every history from an
      untracked flow, with one collision-free digest, some turn of the history succeeded at this
      step with exactly today's facts and the same upstream result, and its record is the one
      that is kept. */
  lemma {:induction false} SkipRepeatsExecution(disk: Disk, events: seq<Event>, k: nat, turn: Turn)
    requires !Tracked(disk.flow) && k < |Replay(disk, events).flow|
    requires Injective(turn.env.digest) && forall past | past in Turns(events) :: past.env.digest == turn.env.digest
    requires var e := Open(Replay(disk, events));
             RunStep(e, k, false, turn).0.ran == e.ran && Tracked(RunStep(e, k, false, turn).0.steps)
    ensures var steps := RunStep(Open(Replay(disk, events)), k, false, turn).0.steps;
            && |steps| == |Replay(disk, events).flow|
            && exists past, upstream ::
                 && past in Turns(events) && Succeeds(past)
                 && steps[k].provenance == Some(RecordOf(past, steps[k].name, steps[k].tool, upstream))
                 && SameStepFacts(past.env, turn.env, steps[k].name)
                 && SameUpstream(upstream, UpstreamProvenance(steps, k))
  {
    hide RunStep, Originated, SameStepFacts, SameUpstream, Turns, BuildStepProvenance, Signature;
    var e := Open(Replay(disk, events));
    RecordsHaveOrigins(disk, events);
    RefreshTraced(e, turn.env, Turns(events));
    SkippedResultIsCurrent(e, k, false, turn);
    RunStepKeepsShape(e, k, false, turn);
    var steps := RunStep(e, k, false, turn).0.steps;
    SkippedIsRefreshed(e, k, turn);
    OriginAt(steps, k, Turns(events));
    var past, upstream :| past in Turns(events) && Succeeds(past)
                          && steps[k].provenance.value == RecordOf(past, steps[k].name, steps[k].tool, upstream);
    RecordSigned(past, steps[k].name, steps[k].tool, upstream);
    SkippedResultHasTodaysFacts(e, k, turn, past.env, upstream, steps[k].tool);
  }

  lemma {:induction false} SkippedIsRefreshed(e: Engine, k: nat, turn: Turn)
    requires k < |e.steps| && RunStep(e, k, false, turn).0.ran == e.ran
    ensures RunStep(e, k, false, turn).0 == RefreshStaleStates(e, turn.env)
  {
    hide RunStep, RefreshStaleStates, RefreshedSteps, Executed;
    RunStepEffect(e, k, false, turn);
  }

  lemma {:induction false} OriginAt(steps: seq<FlowStep>, k: nat, known: iset<Turn>)
    requires Originated(steps, known) && k < |steps| && steps[k].provenance.Some?
    ensures Origin(steps[k].provenance.value, steps[k].name, steps[k].tool, known)
  {
  }

  lemma {:induction false} RecordSigned(turn: Turn, name: string, tool: string, upstream: Option<Provenance>)
    requires Succeeds(turn)
    ensures RecordOf(turn, name, tool, upstream).signature == Signature(turn.env, name, tool, upstream)
  {
  }
}
