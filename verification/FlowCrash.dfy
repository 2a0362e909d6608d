/** What every single persisted write of an operation leaves behind: at no point is a step
    recorded as unstarted while QoR files of it exist. */
module FlowCrash {
  import opened Options
  import opened StepProvenance
  import opened Flow
  import opened FlowTheorems

  /** A step that has not been started has no QoR file. */
  predicate UnstartIsEmpty(steps: seq<FlowStep>, disk: Disk) {
    forall i | 0 <= i < |steps| && steps[i].state.Unstart? :: Files(disk, steps[i].name) == {}
  }

  predicate Clean(disk: Disk) {
    ValidFlow(disk.flow) && UnstartIsEmpty(disk.flow, disk)
  }

  /** Everything persisted so far is clean, and so is what memory would persist next. */
  predicate Safe(e: Engine) {
    && ValidFlow(e.steps) && SameNames(e.steps, e.disk.flow)
    && Clean(e.disk) && UnstartIsEmpty(e.steps, e.disk)
    && (forall d | d in e.trace :: Clean(d))
  }

  lemma {:induction false} OpenIsSafe(disk: Disk)
    requires Clean(disk)
    ensures Safe(Open(disk))
  {
  }

  // Primitive writes

  lemma {:induction false} SaveSafe(e: Engine)
    requires Safe(e)
    ensures Safe(Save(e))
  {
  }

  lemma {:induction false} UnlinkSafe(e: Engine, name: string, file: QorFile)
    requires Safe(e)
    ensures Safe(Unlink(e, name, file))
  {
    var e' := Unlink(e, name, file);
    assert forall n :: Files(e.disk, n) == {} ==> Files(e'.disk, n) == {};
  }

  lemma {:induction false} ClearQorSafe(e: Engine, name: string)
    requires Safe(e)
    ensures Safe(ClearQor(e, name))
    ensures Files(ClearQor(e, name).disk, name) == {}
    ensures ClearQor(e, name).disk.flow == e.disk.flow
    ensures forall n | n != name :: Files(ClearQor(e, name).disk, n) == Files(e.disk, n)
  {
    var e1 := Unlink(e, name, Metrics);
    var e2 := Unlink(e1, name, Summary);
    var e3 := Unlink(e2, name, Hotspots);
    UnlinkSafe(e, name, Metrics);
    UnlinkSafe(e1, name, Summary);
    UnlinkSafe(e2, name, Hotspots);
    UnlinkSafe(e3, name, Detail);
    NoFileLeft(Files(e.disk, name));
  }

  lemma {:induction false} NoFileLeft(files: set<QorFile>)
    ensures files - {Metrics} - {Summary} - {Hotspots} - {Detail} == {}
  {
    forall f | f in files ensures f in {Metrics, Summary, Hotspots, Detail} {
      assert f.Metrics? || f.Summary? || f.Hotspots? || f.Detail?;
    }
  }

  /** A step is running both in memory and on disk. */
  predicate Running(e: Engine, k: nat) {
    k < |e.steps| == |e.disk.flow| && e.steps[k].state.Ongoing? && e.disk.flow[k].state.Ongoing?
  }

  lemma {:induction false} PutSafe(e: Engine, k: nat, file: QorFile)
    requires Safe(e) && k < |e.steps|
    requires !e.steps[k].state.Unstart? && !e.disk.flow[k].state.Unstart?
    ensures Safe(Put(e, e.steps[k].name, file))
  {
    var name := e.steps[k].name;
    var e' := Put(e, name, file);
    forall i | 0 <= i < |e.steps| && (e.steps[i].state.Unstart? || e.disk.flow[i].state.Unstart?)
      ensures Files(e'.disk, e.steps[i].name) == Files(e.disk, e.steps[i].name)
    {
      assert i != k;
    }
  }

  lemma {:induction false} PutQorSafe(e: Engine, k: nat, count: nat)
    requires Safe(e) && Running(e, k)
    ensures var r := PutQor(e, e.steps[k].name, count);
            && Safe(r) && Running(r, k)
            && (count >= 3 ==> TRIPLET <= Files(r.disk, e.steps[k].name))
            && (forall n | n != e.steps[k].name :: Files(r.disk, n) == Files(e.disk, n))
  {
    var name := e.steps[k].name;
    if count > 0 {
      PutSafe(e, k, Metrics);
      if count > 1 {
        PutSafe(Put(e, name, Metrics), k, Summary);
        if count > 2 {
          PutSafe(Put(Put(e, name, Metrics), name, Summary), k, Hotspots);
        }
      }
    }
  }

  lemma {:induction false} SetStepSafe(e: Engine, k: nat, step: FlowStep)
    requires Safe(e) && k < |e.steps|
    requires step.name == e.steps[k].name && step.tool == e.steps[k].tool
    requires step.state.Unstart? ==> Files(e.disk, step.name) == {}
    ensures Safe(SetStep(e, k, step))
  {
  }

  // Operations

  lemma {:induction false} MarkFromSafe(e: Engine, i: nat, reason: string, from: string)
    requires Safe(e) && i <= |e.steps|
    ensures Safe(MarkFrom(e, i, reason, from))
    decreases |e.steps| - i
  {
    if i < |e.steps| {
      MarkAtSafe(e, i, reason, from);
      MarkFromSafe(MarkAt(e, i, reason, from), i + 1, reason, from);
    }
  }

  lemma {:induction false} MarkAtSafe(e: Engine, i: nat, reason: string, from: string)
    requires Safe(e) && i < |e.steps|
    ensures Safe(MarkAt(e, i, reason, from))
  {
    if !e.steps[i].state.Ongoing? {
      ClearQorSafe(e, e.steps[i].name);
      SetStepSafe(ClearQor(e, e.steps[i].name), i, MarkStale(e.steps[i], reason, from));
    }
  }

  lemma {:induction false} SaveIfChangedSafe(before: Engine, after: Engine)
    requires Safe(after)
    ensures Safe(SaveIfChanged(before, after))
  {
    SaveSafe(after);
  }

  lemma {:induction false} RefreshSafe(e: Engine, env: Environment)
    requires Safe(e)
    ensures Safe(RefreshStaleStates(e, env))
  {
    hide Safe, IsStale, StaleReason, MarkAt, MarkFrom, SaveIfChanged;
    var s := FirstStaleFrom(e.steps, 0, env);
    if s < |e.steps| {
      var from := e.steps[s].name;
      var marked := MarkAt(e, s, StaleReason(e.steps, s, env), from);
      MarkAtSafe(e, s, StaleReason(e.steps, s, env), from);
      MarkAtEffect(e, s, StaleReason(e.steps, s, env), from);
      MarkFromSafe(marked, s + 1, Reason("upstream step ", from, " is stale"), from);
      SaveIfChangedSafe(e, MarkStaleSuffix(e, s, env));
    }
  }

  lemma {:induction false} PrepareSafe(e: Engine, k: nat, marker: Option<Marker>)
    requires Safe(e) && k < |e.steps|
    ensures Safe(Prepare(e, k, marker)) && Running(Prepare(e, k, marker), k)
    ensures forall n | n != e.steps[k].name :: Files(Prepare(e, k, marker).disk, n) == Files(e.disk, n)
  {
    var e1 := SetStep(e, k, e.steps[k].(stale := None));
    SetStepSafe(e, k, e.steps[k].(stale := None));
    var e2 := ClearQor(e1, e.steps[k].name);
    ClearQorSafe(e1, e.steps[k].name);
    SetStepSafe(e2, k, e2.steps[k].(state := Ongoing, marker := marker));
    SaveSafe(SetStep(e2, k, e2.steps[k].(state := Ongoing, marker := marker)));
  }

  lemma {:induction false} FinishStepSafe(e: Engine, k: nat, state: StepState, elapsed: string)
    requires Safe(e) && k < |e.steps| && !state.Unstart?
    ensures Safe(FinishStep(e, k, state, elapsed))
    ensures FinishStep(e, k, state, elapsed).disk.qor == e.disk.qor
  {
    var step := e.steps[k].(state := state, runtime := elapsed, marker := None);
    SetStepSafe(e, k, step);
    SaveSafe(SetStep(e, k, step));
  }

  lemma {:induction false} FailStepSafe(e: Engine, k: nat, elapsed: string)
    requires Safe(e) && k < |e.steps|
    ensures Safe(FailStep(e, k, elapsed))
    ensures FailStep(e, k, elapsed).disk.qor == e.disk.qor
  {
    FinishStepSafe(e, k, Incomplete, elapsed);
    var finished := FinishStep(e, k, Incomplete, elapsed);
    SetStepSafe(finished, k, finished.steps[k].(provenance := None));
    SaveSafe(SetStep(finished, k, finished.steps[k].(provenance := None)));
  }

  lemma {:induction false} RecordSafe(e: Engine, k: nat, provenance: Provenance, elapsed: string)
    requires Safe(e) && k < |e.steps|
    requires !e.steps[k].state.Unstart?
    ensures var recorded := SetStep(e, k, e.steps[k].(provenance := Some(provenance)));
            Safe(FinishStep(recorded, k, Success, elapsed))
            && FinishStep(recorded, k, Success, elapsed).disk.qor == e.disk.qor
  {
    var recorded := SetStep(e, k, e.steps[k].(provenance := Some(provenance)));
    SetStepSafe(e, k, e.steps[k].(provenance := Some(provenance)));
    FinishStepSafe(recorded, k, Success, elapsed);
  }

  /** Executing a running step is safe, touches no other step's files, and completes with
      the full triplet when it succeeds. */
  lemma {:induction false} ExecuteSafe(e: Engine, k: nat, provenance: Provenance, turn: Turn)
    requires Safe(e) && Running(e, k)
    ensures var after := Execute(e, k, provenance, turn).0;
            && Safe(after)
            && (Succeeds(turn) ==> TRIPLET <= Files(after.disk, e.steps[k].name))
            && (forall n | n != e.steps[k].name :: Files(after.disk, n) == Files(e.disk, n))
  {
    var name := e.steps[k].name;
    var begun := e.(ran := e.ran + [name]);
    match turn.outcome {
      case Finished(ok, output) =>
        PutQorSafe(begun, k, 3);
        var published := PutQor(begun, name, 3);
        if ok {
          RecordSafe(published, k, provenance.(outputFingerprint := output), turn.elapsed);
        } else {
          FailStepSafe(published, k, turn.elapsed);
        }
      case Failed(count, sourceChanged, failureQor) =>
        PutQorSafe(begun, k, count);
        var partial := PutQor(begun, name, count);
        if sourceChanged && failureQor {
          PutQorSafe(partial, k, 3);
          FailStepSafe(PutQor(partial, name, 3), k, turn.elapsed);
        } else {
          ClearQorSafe(partial, name);
          FailStepSafe(ClearQor(partial, name), k, turn.elapsed);
        }
      case Interrupted(count) =>
        PutQorSafe(begun, k, count);
        var partial := PutQor(begun, name, count);
        ClearQorSafe(partial, name);
        FailStepSafe(ClearQor(partial, name), k, turn.elapsed);
    }
  }

  lemma {:induction false} ForceStepSafe(e: Engine, k: nat, turn: Turn)
    requires Safe(e) && k < |e.steps|
    ensures Safe(ForceStep(e, k, turn).0)
  {
    var reason := "upstream step is being rerun";
    MarkFromKeepsShape(e, k + 1, reason, e.steps[k].name);
    MarkFromSafe(e, k + 1, reason, e.steps[k].name);
    SaveIfChangedSafe(e, MarkFrom(e, k + 1, reason, e.steps[k].name));
    var marked := MarkDownstream(e, k);
    PrepareSafe(marked, k, turn.marker);
    ExecuteSafe(Prepare(marked, k, turn.marker), k, ExpectedProvenance(marked.steps, k, turn.env), turn);
  }

  lemma {:induction false} RunStepSafe(e: Engine, k: nat, rerun: bool, turn: Turn)
    requires Safe(e) && k < |e.steps|
    ensures Safe(RunStep(e, k, rerun, turn).0)
  {
    hide ForceStep, RefreshStaleStates, Safe;
    RefreshSafe(e, turn.env);
    RefreshKeepsShape(e, turn.env);
    ForceStepSafe(RefreshStaleStates(e, turn.env), k, turn);
  }

  lemma {:induction false} RunFromSafe(e: Engine, k: nat, rerun: bool, turns: seq<Turn>)
    requires Safe(e) && k <= |e.steps| == |turns|
    ensures Safe(RunFrom(e, k, rerun, turns).0)
    decreases |e.steps| - k
  {
    hide RunStep, Safe;
    if k < |e.steps| {
      RunStepKeepsShape(e, k, rerun, turns[k]);
      RunStepSafe(e, k, rerun, turns[k]);
      var (next, result) := RunStep(e, k, rerun, turns[k]);
      if result == Returned(Success) {
        RunFromSafe(next, k + 1, rerun, turns);
      }
    }
  }

  lemma {:induction false} ClearFromSafe(e: Engine, i: nat)
    requires Safe(e) && i <= |e.steps|
    ensures Safe(ClearFrom(e, i))
    decreases |e.steps| - i
  {
    if i < |e.steps| {
      var cleared := ClearQor(e, e.steps[i].name);
      var step := Reset(e.steps[i]);
      ClearQorSafe(e, e.steps[i].name);
      SetStepSafe(cleared, i, step);
      ClearFromSafe(SetStep(cleared, i, step), i + 1);
    }
  }

  lemma {:induction false} InterruptAtSafe(e: Engine, i: nat)
    requires Safe(e) && i < |e.steps|
    ensures Safe(InterruptAt(e, i))
  {
    var step := e.steps[i].(state := Incomplete, marker := None);
    SetStepSafe(e, i, step);
    ClearQorSafe(SetStep(e, i, step), e.steps[i].name);
  }

  lemma {:induction false} RecoverFromSafe(e: Engine, i: nat, active: set<string>, operation: string)
    requires Safe(e) && i <= |e.steps|
    ensures Safe(RecoverFrom(e, i, active, operation))
    decreases |e.steps| - i
  {
    hide Safe;
    if i < |e.steps| {
      InterruptAtSafe(e, i);
      RecoverFromSafe(if Recoverable(e.steps[i], active, operation) then InterruptAt(e, i) else e, i + 1, active,
        operation);
    }
  }

  /** A step that has just been run is on disk as it is in memory, and is not unstarted. */
  lemma {:induction false} RunStepLeavesRunnable(e: Engine, k: nat, rerun: bool, turn: Turn)
    requires k < |e.steps| && e.disk.flow == e.steps
    ensures var after := RunStep(e, k, rerun, turn).0;
            && after.disk.flow == after.steps && |after.steps| == |e.steps|
            && !after.steps[k].state.Unstart?
  {
    RefreshSynced(e, turn.env);
    RefreshKeepsShape(e, turn.env);
    ForceStepSynced(RefreshStaleStates(e, turn.env), k, turn);
  }

  lemma {:induction false} MarkFromDisk(e: Engine, i: nat, reason: string, from: string)
    requires i <= |e.steps|
    ensures MarkFrom(e, i, reason, from).disk.flow == e.disk.flow
    decreases |e.steps| - i
  {
    if i < |e.steps| {
      MarkFromDisk(MarkAt(e, i, reason, from), i + 1, reason, from);
    }
  }

  lemma {:induction false} RefreshSynced(e: Engine, env: Environment)
    requires e.disk.flow == e.steps
    ensures RefreshStaleStates(e, env).disk.flow == RefreshStaleStates(e, env).steps
  {
    hide IsStale, StaleReason;
    var s := FirstStaleFrom(e.steps, 0, env);
    if s < |e.steps| {
      var from := e.steps[s].name;
      var marked := MarkAt(e, s, StaleReason(e.steps, s, env), from);
      MarkFromDisk(marked, s + 1, Reason("upstream step ", from, " is stale"), from);
    }
  }

  lemma {:induction false} ForceStepSynced(e: Engine, k: nat, turn: Turn)
    requires k < |e.steps|
    ensures var after := ForceStep(e, k, turn).0;
            && after.disk.flow == after.steps && |after.steps| == |e.steps|
            && !after.steps[k].state.Unstart?
  {
    ForceStepKeepsShape(e, k, turn);
    var marked := MarkDownstream(e, k);
    MarkFromKeepsShape(e, k + 1, "upstream step is being rerun", e.steps[k].name);
    ExecuteSynced(Prepare(marked, k, turn.marker), k, ExpectedProvenance(marked.steps, k, turn.env), turn);
  }

  lemma {:induction false} ExecuteSynced(e: Engine, k: nat, provenance: Provenance, turn: Turn)
    requires k < |e.steps|
    ensures var after := Execute(e, k, provenance, turn).0;
            && after.disk.flow == after.steps && |after.steps| == |e.steps|
            && !after.steps[k].state.Unstart?
  {
  }
}
