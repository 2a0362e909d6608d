/** The flow engine as a state machine over its persisted and in-memory state.

    Every write that reaches the disk is recorded in `trace`, one file at a time, so a
    crash after any write leaves exactly one of the recorded disks behind. */
module Flow {
  import opened Options
  import opened StepProvenance

  datatype StepState = Invalid | Unstart | Success | Ongoing | Pending | Incomplete

  datatype StaleMark = StaleMark(reason: string, from: string)

  /** The runtime-operation marker an observer leaves on a running step. */
  datatype Marker = Marker(schema: int, operationId: string, runtimeInstanceId: string, startedAt: Option<real>)

  datatype FlowStep = FlowStep(
    name: string,
    tool: string,
    state: StepState,
    runtime: string,
    stale: Option<StaleMark>,
    marker: Option<Marker>,
    provenance: Option<Provenance>)

  /** The files `clear_step_qor` removes: the QoR triplet and the frontend snapshot. */
  datatype QorFile = Metrics | Summary | Hotspots | Detail

  const TRIPLET: set<QorFile> := {Metrics, Summary, Hotspots}

  /** What survives a crash: flow.json and the QoR files of each step directory. */
  datatype Disk = Disk(flow: seq<FlowStep>, qor: map<string, set<QorFile>>)

  datatype Engine = Engine(steps: seq<FlowStep>, disk: Disk, trace: seq<Disk>, ran: seq<string>)

  /** How one handler execution ends.  `published` counts the triplet files that are on
      disk when an exception leaves the guarded block. */
  datatype Outcome =
    | Finished(ok: bool, output: string)
    | Failed(published: nat, sourceChanged: bool, failureQor: bool)
    | Interrupted(published: nat)

  datatype Turn = Turn(env: Environment, marker: Option<Marker>, elapsed: string, outcome: Outcome)

  datatype RunResult = Returned(state: StepState) | Reraised

  function Files(disk: Disk, name: string): set<QorFile> {
    if name in disk.qor then disk.qor[name] else {}
  }

  predicate ValidFlow(steps: seq<FlowStep>) {
    && (forall i | 0 <= i < |steps| :: steps[i].name != "")
    && (forall i, j | 0 <= i < j < |steps| :: steps[i].name != steps[j].name)
  }

  predicate SameNames(steps: seq<FlowStep>, steps': seq<FlowStep>) {
    && |steps| == |steps'|
    && forall i | 0 <= i < |steps| :: steps[i].name == steps'[i].name && steps[i].tool == steps'[i].tool
  }

  /** A freshly opened engine: the steps in memory are the persisted ones. */
  function Open(disk: Disk): Engine {
    Engine(disk.flow, disk, [], [])
  }

  // Persisted writes

  function Persist(e: Engine, disk: Disk): Engine {
    e.(disk := disk, trace := e.trace + [disk])
  }

  function Save(e: Engine): Engine {
    Persist(e, e.disk.(flow := e.steps))
  }

  function Unlink(e: Engine, name: string, file: QorFile): Engine {
    Persist(e, e.disk.(qor := e.disk.qor[name := Files(e.disk, name) - {file}]))
  }

  function Put(e: Engine, name: string, file: QorFile): Engine {
    Persist(e, e.disk.(qor := e.disk.qor[name := Files(e.disk, name) + {file}]))
  }

  function ClearQor(e: Engine, name: string): (r: Engine)
    ensures r.steps == e.steps && r.ran == e.ran
  {
    Unlink(Unlink(Unlink(Unlink(e, name, Metrics), name, Summary), name, Hotspots), name, Detail)
  }

  /** The first `count` files of the triplet, in the order they are published. */
  function PutQor(e: Engine, name: string, count: nat): (r: Engine)
    ensures r.steps == e.steps && r.ran == e.ran
  {
    if count == 0 then e
    else if count == 1 then Put(e, name, Metrics)
    else if count == 2 then Put(Put(e, name, Metrics), name, Summary)
    else Put(Put(Put(e, name, Metrics), name, Summary), name, Hotspots)
  }

  // Staleness

  function Reason(prefix: string, from: string, suffix: string): string {
    prefix + from + suffix
  }

  function Join(parts: seq<string>): string {
    if |parts| == 0 then "" else if |parts| == 1 then parts[0] else parts[0] + "/" + Join(parts[1..])
  }

  function ProvenanceChangeReason(previous: Provenance, current: Provenance): string {
    var changed :=
      (if previous.inputFingerprint != current.inputFingerprint then ["inputs"] else []) +
      (if previous.configFingerprint != current.configFingerprint then ["configuration"] else []) +
      (if previous.toolFingerprint != current.toolFingerprint then ["tools or resources"] else []);
    Reason("step ", if changed != [] then Join(changed) else "provenance", " changed")
  }

  /** A running step is left alone, an untouched or already equally marked step is not
      rewritten, every other step loses its result. */
  function MarkStale(step: FlowStep, reason: string, from: string): (r: FlowStep)
    ensures !r.state.Success?
    ensures r.name == step.name && r.tool == step.tool
    ensures r.provenance.Some? ==> r == step && r.state.Ongoing?
  {
    if step.state.Ongoing? then step
    else if step.state.Unstart? && step.provenance.None? && step.stale.None? then step
    else if step.state.Unstart? && step.provenance.None? && step.stale == Some(StaleMark(reason, from)) then step
    else step.(state := Unstart, runtime := "", stale := Some(StaleMark(reason, from)), provenance := None)
  }

  function MarkAt(e: Engine, i: nat, reason: string, from: string): Engine
    requires i < |e.steps|
  {
    if e.steps[i].state.Ongoing? then e
    else ClearQor(e, e.steps[i].name).(steps := e.steps[i := MarkStale(e.steps[i], reason, from)])
  }

  function MarkFrom(e: Engine, i: nat, reason: string, from: string): Engine
    requires i <= |e.steps|
    decreases |e.steps| - i
  {
    if i == |e.steps| then e else MarkFrom(MarkAt(e, i, reason, from), i + 1, reason, from)
  }

  function Tracked(steps: seq<FlowStep>): bool {
    exists i | 0 <= i < |steps| :: steps[i].provenance.Some?
  }

  /** The provenance a step's result is chained to: its predecessor's, when that is a
      recorded success. */
  function UpstreamProvenance(steps: seq<FlowStep>, i: nat): Option<Provenance>
    requires i <= |steps|
  {
    if i == 0 || !steps[i-1].state.Success? then None else steps[i-1].provenance
  }

  function ExpectedProvenance(steps: seq<FlowStep>, i: nat, env: Environment): Provenance
    requires i < |steps|
  {
    BuildStepProvenance(env, steps[i].name, steps[i].tool, UpstreamProvenance(steps, i))
  }

  /** The recorded result carries the signature that would be computed now. */
  predicate CarriesCurrentSignature(steps: seq<FlowStep>, i: nat, env: Environment)
    requires i < |steps|
  {
    steps[i].provenance.Some? && steps[i].provenance.value.signature == ExpectedProvenance(steps, i, env).signature
  }

  predicate IsStale(steps: seq<FlowStep>, i: nat, env: Environment)
    requires i < |steps|
  {
    && steps[i].state.Success?
    && if steps[i].provenance.None? then Tracked(steps) else !CarriesCurrentSignature(steps, i, env)
  }

  function FirstStaleFrom(steps: seq<FlowStep>, i: nat, env: Environment): (s: nat)
    requires i <= |steps|
    ensures i <= s <= |steps|
    ensures s < |steps| ==> IsStale(steps, s, env)
    ensures forall j | i <= j < s :: !IsStale(steps, j, env)
    decreases |steps| - i
  {
    if i == |steps| || IsStale(steps, i, env) then i else FirstStaleFrom(steps, i + 1, env)
  }

  function StaleReason(steps: seq<FlowStep>, s: nat, env: Environment): string
    requires s < |steps|
  {
    match steps[s].provenance
    case None => "step result has no provenance"
    case Some(p) => ProvenanceChangeReason(p, ExpectedProvenance(steps, s, env))
  }

  /** Staling starts at the first stale step and takes everything after it along. */
  function MarkStaleSuffix(e: Engine, s: nat, env: Environment): Engine
    requires s < |e.steps|
  {
    var from := e.steps[s].name;
    MarkFrom(MarkAt(e, s, StaleReason(e.steps, s, env), from), s + 1, Reason("upstream step ", from, " is stale"), from)
  }

  function SaveIfChanged(before: Engine, after: Engine): Engine {
    if after.steps != before.steps then Save(after) else after
  }

  function RefreshStaleStates(e: Engine, env: Environment): Engine {
    var s := FirstStaleFrom(e.steps, 0, env);
    if s == |e.steps| then e else SaveIfChanged(e, MarkStaleSuffix(e, s, env))
  }

  // Running a step

  function SetStep(e: Engine, k: nat, step: FlowStep): Engine
    requires k < |e.steps|
  {
    e.(steps := e.steps[k := step])
  }

  function StartStep(e: Engine, k: nat, marker: Option<Marker>): Engine
    requires k < |e.steps|
  {
    Save(SetStep(e, k, e.steps[k].(state := Ongoing, marker := marker)))
  }

  function FinishStep(e: Engine, k: nat, state: StepState, elapsed: string): Engine
    requires k < |e.steps|
  {
    Save(SetStep(e, k, e.steps[k].(state := state, runtime := elapsed, marker := None)))
  }

  function DropProvenance(e: Engine, k: nat): Engine
    requires k < |e.steps|
  {
    Save(SetStep(e, k, e.steps[k].(provenance := None)))
  }

  function FailStep(e: Engine, k: nat, elapsed: string): Engine
    requires k < |e.steps|
  {
    DropProvenance(FinishStep(e, k, Incomplete, elapsed), k)
  }

  /** From the staled downstream to the persisted `Ongoing` state. */
  function Prepare(e: Engine, k: nat, marker: Option<Marker>): Engine
    requires k < |e.steps|
  {
    StartStep(ClearQor(SetStep(e, k, e.steps[k].(stale := None)), e.steps[k].name), k, marker)
  }

  /** Everything from the handler call on. */
  function Execute(e: Engine, k: nat, provenance: Provenance, turn: Turn): (r: (Engine, RunResult))
    requires k < |e.steps|
    ensures |r.0.steps| == |e.steps|
    ensures r.0.steps == e.steps[k := r.0.steps[k]]
    ensures r.0.steps[k].name == e.steps[k].name && r.0.steps[k].tool == e.steps[k].tool
    ensures r.0.ran == e.ran + [e.steps[k].name]
  {
    var name := e.steps[k].name;
    var begun := e.(ran := e.ran + [name]);
    match turn.outcome
    case Finished(ok, output) =>
      var published := PutQor(begun, name, 3);
      if ok then
        var record := provenance.(outputFingerprint := output);
        (FinishStep(SetStep(published, k, published.steps[k].(provenance := Some(record))), k, Success, turn.elapsed),
         Returned(Success))
      else
        (FailStep(published, k, turn.elapsed), Returned(Incomplete))
    case Failed(count, sourceChanged, failureQor) =>
      var partial := PutQor(begun, name, count);
      var settled := if sourceChanged && failureQor then PutQor(partial, name, 3) else ClearQor(partial, name);
      (FailStep(settled, k, turn.elapsed), Returned(Incomplete))
    case Interrupted(count) =>
      (FailStep(ClearQor(PutQor(begun, name, count), name), k, turn.elapsed), Reraised)
  }

  function MarkDownstream(e: Engine, k: nat): Engine
    requires k < |e.steps|
  {
    SaveIfChanged(e, MarkFrom(e, k + 1, "upstream step is being rerun", e.steps[k].name))
  }

  function ForceStep(e: Engine, k: nat, turn: Turn): (Engine, RunResult)
    requires k < |e.steps|
  {
    var marked := MarkDownstream(e, k);
    MarkFromKeepsShape(e, k + 1, "upstream step is being rerun", e.steps[k].name);
    Execute(Prepare(marked, k, turn.marker), k, ExpectedProvenance(marked.steps, k, turn.env), turn)
  }

  function RunStep(e: Engine, k: nat, rerun: bool, turn: Turn): (Engine, RunResult)
    requires k < |e.steps|
  {
    var refreshed := RefreshStaleStates(e, turn.env);
    RefreshKeepsShape(e, turn.env);
    if !rerun && refreshed.steps[k].state.Success? then (refreshed, Returned(Success))
    else ForceStep(refreshed, k, turn)
  }

  /** A step as if it had never run. */
  function Reset(step: FlowStep): FlowStep {
    step.(state := Unstart, runtime := "", stale := None, marker := None, provenance := None)
  }

  function ClearFrom(e: Engine, i: nat): Engine
    requires i <= |e.steps|
    decreases |e.steps| - i
  {
    if i == |e.steps| then e
    else ClearFrom(SetStep(ClearQor(e, e.steps[i].name), i, Reset(e.steps[i])), i + 1)
  }

  function ClearStates(e: Engine): Engine {
    Save(ClearFrom(e, 0))
  }

  function RunFrom(e: Engine, k: nat, rerun: bool, turns: seq<Turn>): (Engine, RunResult)
    requires k <= |e.steps| == |turns|
    decreases |e.steps| - k
  {
    if k == |e.steps| then (e, Returned(Success))
    else
      RunStepKeepsShape(e, k, rerun, turns[k]);
      var (after, result) := RunStep(e, k, rerun, turns[k]);
      if result != Returned(Success) then (after, result) else RunFrom(after, k + 1, rerun, turns)
  }

  function RunAll(e: Engine, rerun: bool, turns: seq<Turn>): (Engine, RunResult)
    requires |e.steps| == |turns|
  {
    ClearFromKeepsShape(e, 0);
    RunFrom(if rerun then ClearStates(e) else e, 0, rerun, turns)
  }

  // Recovery

  function ValidMarker(step: FlowStep): Option<Marker> {
    match step.marker
    case None => None
    case Some(m) =>
      if m.schema == 1 && m.operationId != "" && m.runtimeInstanceId != "" && m.startedAt.Some? then Some(m) else None
  }

  function OperationId(step: FlowStep): string {
    match ValidMarker(step) case None => "" case Some(m) => m.operationId
  }

  predicate Recoverable(step: FlowStep, active: set<string>, operation: string) {
    && step.state.Ongoing?
    && (operation == "" || OperationId(step) == operation)
    && OperationId(step) !in active
  }

  /** A marker written by a runtime: a later reader can tell which operation left it. */
  ghost predicate RuntimeMarked(step: FlowStep) {
    step.marker.Some? &&
    var m := step.marker.value;
    m.schema == 1 && m.operationId != "" && m.runtimeInstanceId != "" && m.startedAt.Some?
  }

  /** A running step whose operation is not active any more, and is the requested one, if one is
      requested; a step that no runtime marked belongs to an operation without a name. */
  ghost predicate Abandoned(step: FlowStep, active: set<string>, operation: string) {
    && step.state.Ongoing?
    && if RuntimeMarked(step)
       then step.marker.value.operationId !in active && operation in {"", step.marker.value.operationId}
       else "" !in active && operation == ""
  }

  lemma {:induction false} RecoverableIsAbandoned(step: FlowStep, active: set<string>, operation: string)
    ensures Recoverable(step, active, operation) <==> Abandoned(step, active, operation)
  {
  }

  function InterruptAt(e: Engine, i: nat): Engine
    requires i < |e.steps|
  {
    ClearQor(SetStep(e, i, e.steps[i].(state := Incomplete, marker := None)), e.steps[i].name)
  }

  function RecoverFrom(e: Engine, i: nat, active: set<string>, operation: string): Engine
    requires i <= |e.steps|
    decreases |e.steps| - i
  {
    if i == |e.steps| then e
    else RecoverFrom(if Recoverable(e.steps[i], active, operation) then InterruptAt(e, i) else e, i + 1, active,
      operation)
  }

  function Recover(e: Engine, active: set<string>, operation: string): Engine {
    SaveIfChanged(e, RecoverFrom(e, 0, active, operation))
  }

  /** `clear_stale_ongoing_states` abandons every running step. */
  function ClearOngoingFrom(e: Engine, i: nat): Engine
    requires i <= |e.steps|
    decreases |e.steps| - i
  {
    if i == |e.steps| then e
    else ClearOngoingFrom(if e.steps[i].state.Ongoing? then InterruptAt(e, i) else e, i + 1)
  }

  function ClearStaleOngoing(e: Engine): Engine {
    SaveIfChanged(e, ClearOngoingFrom(e, 0))
  }

  predicate FlowSuccess(steps: seq<FlowStep>) {
    forall i | 0 <= i < |steps| :: steps[i].state.Success?
  }

  // Shape: no operation adds, drops, renames or reorders steps

  lemma {:induction false} MarkFromKeepsShape(e: Engine, i: nat, reason: string, from: string)
    requires i <= |e.steps|
    ensures SameNames(e.steps, MarkFrom(e, i, reason, from).steps)
    ensures MarkFrom(e, i, reason, from).ran == e.ran
    decreases |e.steps| - i
  {
    if i < |e.steps| {
      MarkFromKeepsShape(MarkAt(e, i, reason, from), i + 1, reason, from);
    }
  }

  lemma {:induction false} RefreshKeepsShape(e: Engine, env: Environment)
    ensures SameNames(e.steps, RefreshStaleStates(e, env).steps)
    ensures RefreshStaleStates(e, env).ran == e.ran
  {
    hide StaleReason, IsStale;
    var s := FirstStaleFrom(e.steps, 0, env);
    if s < |e.steps| {
      var from := e.steps[s].name;
      MarkFromKeepsShape(MarkAt(e, s, StaleReason(e.steps, s, env), from), s + 1,
                         Reason("upstream step ", from, " is stale"), from);
    }
  }

  lemma {:induction false} MarkDownstreamKeepsShape(e: Engine, k: nat)
    requires k < |e.steps|
    ensures SameNames(e.steps, MarkDownstream(e, k).steps)
  {
    MarkFromKeepsShape(e, k + 1, "upstream step is being rerun", e.steps[k].name);
  }

  lemma {:induction false} PrepareKeepsShape(e: Engine, k: nat, marker: Option<Marker>)
    requires k < |e.steps|
    ensures SameNames(e.steps, Prepare(e, k, marker).steps)
  {
  }

  lemma {:induction false} ForceStepKeepsShape(e: Engine, k: nat, turn: Turn)
    requires k < |e.steps|
    ensures SameNames(e.steps, ForceStep(e, k, turn).0.steps)
  {
    hide MarkDownstream, Prepare, Execute, ExpectedProvenance;
    MarkDownstreamKeepsShape(e, k);
    PrepareKeepsShape(MarkDownstream(e, k), k, turn.marker);
  }

  lemma {:induction false} RunStepKeepsShape(e: Engine, k: nat, rerun: bool, turn: Turn)
    requires k < |e.steps|
    ensures SameNames(e.steps, RunStep(e, k, rerun, turn).0.steps)
  {
    RefreshKeepsShape(e, turn.env);
    ForceStepKeepsShape(RefreshStaleStates(e, turn.env), k, turn);
  }

  lemma {:induction false} ClearFromKeepsShape(e: Engine, i: nat)
    requires i <= |e.steps|
    ensures SameNames(e.steps, ClearFrom(e, i).steps)
    ensures ClearFrom(e, i).ran == e.ran
    decreases |e.steps| - i
  {
    if i < |e.steps| {
      ClearFromKeepsShape(SetStep(ClearQor(e, e.steps[i].name), i, Reset(e.steps[i])), i + 1);
    }
  }
}
