/** Where an operation starts does not matter for what it writes: its writes and handlers are
    appended to those before it. */
module FlowWrites {
  import opened Options
  import opened StepProvenance
  import opened Flow
  import opened FlowTheorems
  import opened FlowService

  /** The same state after other writes and handlers. */
  function Behind(base: Engine, e: Engine): Engine {
    e.(trace := base.trace + e.trace, ran := base.ran + e.ran)
  }

  /** The same state at the start of a process. */
  function Restarted(e: Engine): Engine {
    e.(trace := [], ran := [])
  }

  lemma {:induction false} RestartedBehind(e: Engine)
    ensures Behind(e, Restarted(e)) == e
  {
  }

  lemma {:induction false} PersistBehind(base: Engine, e: Engine, disk: Disk)
    ensures Persist(Behind(base, e), disk) == Behind(base, Persist(e, disk))
  {
    assert base.trace + e.trace + [disk] == base.trace + (e.trace + [disk]);
  }

  lemma {:induction false} SaveBehind(base: Engine, e: Engine)
    ensures Save(Behind(base, e)) == Behind(base, Save(e))
  {
    PersistBehind(base, e, e.disk.(flow := e.steps));
  }

  lemma {:induction false} UnlinkBehind(base: Engine, e: Engine, name: string, file: QorFile)
    ensures Unlink(Behind(base, e), name, file) == Behind(base, Unlink(e, name, file))
  {
    PersistBehind(base, e, e.disk.(qor := e.disk.qor[name := Files(e.disk, name) - {file}]));
  }

  lemma {:induction false} PutBehind(base: Engine, e: Engine, name: string, file: QorFile)
    ensures Put(Behind(base, e), name, file) == Behind(base, Put(e, name, file))
  {
    PersistBehind(base, e, e.disk.(qor := e.disk.qor[name := Files(e.disk, name) + {file}]));
  }

  lemma {:induction false} ClearQorBehind(base: Engine, e: Engine, name: string)
    ensures ClearQor(Behind(base, e), name) == Behind(base, ClearQor(e, name))
  {
    hide Unlink, Behind;
    var e1 := Unlink(e, name, Metrics);
    var e2 := Unlink(e1, name, Summary);
    UnlinkBehind(base, e, name, Metrics);
    UnlinkBehind(base, e1, name, Summary);
    UnlinkBehind(base, e2, name, Hotspots);
    UnlinkBehind(base, Unlink(e2, name, Hotspots), name, Detail);
  }

  lemma {:induction false} PutQorBehind(base: Engine, e: Engine, name: string, count: nat)
    ensures PutQor(Behind(base, e), name, count) == Behind(base, PutQor(e, name, count))
  {
    hide Put, Behind;
    PutBehind(base, e, name, Metrics);
    PutBehind(base, Put(e, name, Metrics), name, Summary);
    PutBehind(base, Put(Put(e, name, Metrics), name, Summary), name, Hotspots);
  }

  lemma {:induction false} MarkAtBehind(base: Engine, e: Engine, i: nat, reason: string, from: string)
    requires i < |e.steps|
    ensures MarkAt(Behind(base, e), i, reason, from) == Behind(base, MarkAt(e, i, reason, from))
  {
    ClearQorBehind(base, e, e.steps[i].name);
  }

  lemma {:induction false} MarkFromBehind(base: Engine, e: Engine, i: nat, reason: string, from: string)
    requires i <= |e.steps|
    ensures MarkFrom(Behind(base, e), i, reason, from) == Behind(base, MarkFrom(e, i, reason, from))
    decreases |e.steps| - i
  {
    hide MarkAt;
    if i < |e.steps| {
      MarkAtBehind(base, e, i, reason, from);
      MarkAtEffect(e, i, reason, from);
      MarkFromBehind(base, MarkAt(e, i, reason, from), i + 1, reason, from);
    }
  }

  lemma {:induction false} RefreshBehind(base: Engine, e: Engine, env: Environment)
    ensures RefreshStaleStates(Behind(base, e), env) == Behind(base, RefreshStaleStates(e, env))
  {
    hide IsStale, StaleReason, MarkAt, MarkFrom;
    var s := FirstStaleFrom(e.steps, 0, env);
    if s < |e.steps| {
      var from := e.steps[s].name;
      var reason := StaleReason(e.steps, s, env);
      MarkAtBehind(base, e, s, reason, from);
      MarkAtEffect(e, s, reason, from);
      MarkFromBehind(base, MarkAt(e, s, reason, from), s + 1, Reason("upstream step ", from, " is stale"), from);
      SaveBehind(base, MarkStaleSuffix(e, s, env));
    }
  }

  lemma {:induction false} MarkDownstreamBehind(base: Engine, e: Engine, k: nat)
    requires k < |e.steps|
    ensures MarkDownstream(Behind(base, e), k) == Behind(base, MarkDownstream(e, k))
  {
    hide MarkFrom;
    var reason := "upstream step is being rerun";
    MarkFromBehind(base, e, k + 1, reason, e.steps[k].name);
    SaveBehind(base, MarkFrom(e, k + 1, reason, e.steps[k].name));
  }

  lemma {:induction false} PrepareBehind(base: Engine, e: Engine, k: nat, marker: Option<Marker>)
    requires k < |e.steps|
    ensures Prepare(Behind(base, e), k, marker) == Behind(base, Prepare(e, k, marker))
  {
    hide ClearQor, Save;
    var e1 := SetStep(e, k, e.steps[k].(stale := None));
    ClearQorBehind(base, e1, e.steps[k].name);
    var e2 := ClearQor(e1, e.steps[k].name);
    SaveBehind(base, SetStep(e2, k, e2.steps[k].(state := Ongoing, marker := marker)));
  }

  lemma {:induction false} FinishStepBehind(base: Engine, e: Engine, k: nat, state: StepState, elapsed: string)
    requires k < |e.steps|
    ensures FinishStep(Behind(base, e), k, state, elapsed) == Behind(base, FinishStep(e, k, state, elapsed))
  {
    SaveBehind(base, SetStep(e, k, e.steps[k].(state := state, runtime := elapsed, marker := None)));
  }

  lemma {:induction false} FailStepBehind(base: Engine, e: Engine, k: nat, elapsed: string)
    requires k < |e.steps|
    ensures FailStep(Behind(base, e), k, elapsed) == Behind(base, FailStep(e, k, elapsed))
  {
    FinishStepBehind(base, e, k, Incomplete, elapsed);
    var finished := FinishStep(e, k, Incomplete, elapsed);
    SaveBehind(base, SetStep(finished, k, finished.steps[k].(provenance := None)));
  }

  lemma {:induction false} ExecuteBehind(base: Engine, e: Engine, k: nat, provenance: Provenance, turn: Turn)
    requires k < |e.steps|
    ensures var (after, result) := Execute(e, k, provenance, turn);
            Execute(Behind(base, e), k, provenance, turn) == (Behind(base, after), result)
  {
    hide PutQor, ClearQor, FinishStep, FailStep;
    var name := e.steps[k].name;
    var begun := e.(ran := e.ran + [name]);
    assert Behind(base, e).ran + [name] == base.ran + begun.ran;
    assert Behind(base, e).(ran := Behind(base, e).ran + [name]) == Behind(base, begun);
    match turn.outcome {
      case Finished(ok, output) =>
        PutQorBehind(base, begun, name, 3);
        var published := PutQor(begun, name, 3);
        var signed := published.steps[k].(provenance := Some(provenance.(outputFingerprint := output)));
        FinishStepBehind(base, SetStep(published, k, signed), k, Success, turn.elapsed);
        FailStepBehind(base, published, k, turn.elapsed);
      case Failed(count, _, _) =>
        PutQorBehind(base, begun, name, count);
        var partial := PutQor(begun, name, count);
        PutQorBehind(base, partial, name, 3);
        ClearQorBehind(base, partial, name);
        FailStepBehind(base, PutQor(partial, name, 3), k, turn.elapsed);
        FailStepBehind(base, ClearQor(partial, name), k, turn.elapsed);
      case Interrupted(count) =>
        PutQorBehind(base, begun, name, count);
        ClearQorBehind(base, PutQor(begun, name, count), name);
        FailStepBehind(base, ClearQor(PutQor(begun, name, count), name), k, turn.elapsed);
    }
  }

  lemma {:induction false} ForceStepBehind(base: Engine, e: Engine, k: nat, turn: Turn)
    requires k < |e.steps|
    ensures var (after, result) := ForceStep(e, k, turn);
            ForceStep(Behind(base, e), k, turn) == (Behind(base, after), result)
  {
    hide MarkDownstream, Prepare, Execute, ExpectedProvenance;
    MarkDownstreamKeepsShape(e, k);
    MarkDownstreamBehind(base, e, k);
    var marked := MarkDownstream(e, k);
    PrepareBehind(base, marked, k, turn.marker);
    PrepareKeepsShape(marked, k, turn.marker);
    ExecuteBehind(base, Prepare(marked, k, turn.marker), k, ExpectedProvenance(marked.steps, k, turn.env), turn);
  }

  lemma {:induction false} RunStepBehind(base: Engine, e: Engine, k: nat, rerun: bool, turn: Turn)
    requires k < |e.steps|
    ensures var (after, result) := RunStep(e, k, rerun, turn);
            RunStep(Behind(base, e), k, rerun, turn) == (Behind(base, after), result)
  {
    hide RefreshStaleStates, ForceStep;
    RefreshBehind(base, e, turn.env);
    RefreshKeepsShape(e, turn.env);
    ForceStepBehind(base, RefreshStaleStates(e, turn.env), k, turn);
  }

  lemma {:induction false} RunFromBehind(base: Engine, e: Engine, k: nat, rerun: bool, turns: seq<Turn>)
    requires k <= |e.steps| == |turns|
    ensures var (after, result) := RunFrom(e, k, rerun, turns);
            RunFrom(Behind(base, e), k, rerun, turns) == (Behind(base, after), result)
    decreases |e.steps| - k
  {
    hide RunStep;
    if k < |e.steps| {
      RunStepBehind(base, e, k, rerun, turns[k]);
      RunStepKeepsShape(e, k, rerun, turns[k]);
      var (next, result) := RunStep(e, k, rerun, turns[k]);
      if result == Returned(Success) {
        RunFromBehind(base, next, k + 1, rerun, turns);
      }
    }
  }

  lemma {:induction false} RemoveDetailsBehind(base: Engine, e: Engine, i: nat)
    requires i <= |e.steps|
    ensures RemoveDetails(Behind(base, e), i) == Behind(base, RemoveDetails(e, i))
    decreases |e.steps| - i
  {
    hide Unlink;
    if i < |e.steps| {
      UnlinkBehind(base, e, e.steps[i].name, Detail);
      UnlinkKeepsSteps(e, e.steps[i].name, Detail);
      RemoveDetailsBehind(base, Unlink(e, e.steps[i].name, Detail), i + 1);
    }
  }

  lemma {:induction false} UnlinkKeepsSteps(e: Engine, name: string, file: QorFile)
    ensures Unlink(e, name, file).steps == e.steps
  {
  }

  lemma {:induction false} RefreshPrepareBehind(base: Engine, e: Engine, k: nat, refreshed: bool, turn: FlowTurn)
    requires k < |e.steps|
    ensures var (ready, done, result) := RefreshPrepare(e, k, refreshed, turn);
            RefreshPrepare(Behind(base, e), k, refreshed, turn) == (Behind(base, ready), done, result)
  {
    hide RunStep;
    match StepIndex(e.steps, "prepare", 0) {
      case None =>
      case Some(p) => RunStepBehind(base, e, p, true, turn.prepareTurn);
    }
  }

  lemma {:induction false} IterateBehind(base: Engine, e: Engine, k: nat, force: bool, refreshed: bool, turn: FlowTurn)
    requires k < |e.steps|
    ensures var (next, done, end) := Iterate(e, k, force, refreshed, turn);
            Iterate(Behind(base, e), k, force, refreshed, turn) == (Behind(base, next), done, end)
  {
    hide RunStep, RefreshPrepare, Put;
    RefreshPrepareBehind(base, e, k, refreshed, turn);
    var (ready, _, _) := RefreshPrepare(e, k, refreshed, turn);
    RunStepBehind(base, ready, k, force, turn.turn);
    RunStepKeepsShape(ready, k, force, turn.turn);
    var after := RunStep(ready, k, force, turn.turn).0;
    PutBehind(base, after, after.steps[k].name, Detail);
  }

  lemma {:induction false} RunSelectedBehind(base: Engine, e: Engine, k: nat, start: Option<nat>, rerun: bool,
                                             refreshed: bool,
                                             turns: seq<FlowTurn>)
    requires k <= |e.steps| == |turns|
    ensures var (after, end) := RunSelected(e, k, start, rerun, refreshed, turns);
            RunSelected(Behind(base, e), k, start, rerun, refreshed, turns) == (Behind(base, after), end)
    decreases |e.steps| - k
  {
    hide Iterate;
    if k < |e.steps| {
      IterateBehind(base, e, k, rerun || start == Some(k), refreshed, turns[k]);
      var (next, done, end) := Iterate(e, k, rerun || start == Some(k), refreshed, turns[k]);
      if end.None? {
        RunSelectedBehind(base, next, k + 1, start, rerun, done, turns);
      }
    }
  }
}
