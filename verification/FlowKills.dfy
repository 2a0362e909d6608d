/** Exactly which kills lose the QoR triplet of a recorded success: those between the removal
    of its files and the write of its new state. */
module FlowKills {
  import opened Options
  import opened StepProvenance
  import opened Flow
  import opened FlowTheorems
  import opened FlowRuns
  import opened FlowService
  import opened FlowCrash
  import opened FlowHistory
  import opened FlowRecovery
  import opened FlowTriplets
  import opened FlowWrites

  // Removing the files of several steps

  function Without(disk: Disk, name: string, file: QorFile): Disk {
    disk.(qor := disk.qor[name := Files(disk, name) - {file}])
  }

  function WithoutAll(disk: Disk, name: string): Disk {
    Without(Without(Without(Without(disk, name, Metrics), name, Summary), name, Hotspots), name, Detail)
  }

  /** The disks on the way when the steps' files are removed one by one. */
  function Clearing(disk: Disk, names: seq<string>): (disks: seq<Disk>)
    ensures |disks| == 4 * |names|
    decreases |names|
  {
    if names == [] then []
    else
      var d1 := Without(disk, names[0], Metrics);
      var d2 := Without(d1, names[0], Summary);
      var d3 := Without(d2, names[0], Hotspots);
      [d1, d2, d3, WithoutAll(disk, names[0])] + Clearing(WithoutAll(disk, names[0]), names[1..])
  }

  function Cleared(disk: Disk, names: seq<string>): Disk
    decreases |names|
  {
    if names == [] then disk else Cleared(WithoutAll(disk, names[0]), names[1..])
  }

  /** Only files of that step are gone, its metrics among them. */
  predicate LacksMetrics(before: Disk, after: Disk, name: string) {
    after.flow == before.flow && Metrics !in Files(after, name)
  }

  ghost predicate OthersSame(before: Disk, after: Disk, name: string) {
    forall n | n != name :: Files(after, n) == Files(before, n)
  }

  lemma {:induction false} FirstFour(disk: Disk, name: string, names: seq<string>, t: nat)
    requires |names| > 0 && names[0] == name && t < 4
    ensures LacksMetrics(disk, Clearing(disk, names)[t], name) && OthersSame(disk, Clearing(disk, names)[t], name)
    ensures LacksMetrics(disk, WithoutAll(disk, name), name) && OthersSame(disk, WithoutAll(disk, name), name)
  {
    hide Clearing;
    var d1 := Without(disk, name, Metrics);
    var d2 := Without(d1, name, Summary);
    var d3 := Without(d2, name, Hotspots);
    assert Clearing(disk, names)[t] == [d1, d2, d3, WithoutAll(disk, name)][t] by { ClearingUnfolds(disk, names); }
  }

  lemma {:induction false} ClearingUnfolds(disk: Disk, names: seq<string>)
    requires |names| > 0
    ensures var d1 := Without(disk, names[0], Metrics);
            var d2 := Without(d1, names[0], Summary);
            var d3 := Without(d2, names[0], Hotspots);
            Clearing(disk, names) ==
            [d1, d2, d3, WithoutAll(disk, names[0])] + Clearing(WithoutAll(disk, names[0]), names[1..])
  {
  }

  /** At disk `t` the files of exactly the first steps have been touched, and each of these has
      lost its metrics. */
  lemma {:induction false} ClearingAt(disk: Disk, names: seq<string>, t: nat)
    requires t < 4 * |names|
    ensures var d := Clearing(disk, names)[t];
            && d.flow == disk.flow
            && (forall j | 0 <= j < |names| && 4 * j <= t :: Metrics !in Files(d, names[j]))
            && (forall n | Metrics !in Files(disk, n) :: Metrics !in Files(d, n))
            && (forall n | (forall j | 0 <= j < |names| && 4 * j <= t :: names[j] != n) ::
                Files(d, n) == Files(disk, n))
    decreases |names|
  {
    hide Clearing, WithoutAll, Files;
    var d := Clearing(disk, names)[t];
    var next := WithoutAll(disk, names[0]);
    if t < 4 {
      FirstFour(disk, names[0], names, t);
    } else {
      FirstFour(disk, names[0], names, 0);
      ClearingAt(next, names[1..], t - 4);
      ClearingUnfolds(disk, names);
      assert d == Clearing(next, names[1..])[t-4];
      forall j | 0 <= j < |names| && 4 * j <= t ensures Metrics !in Files(d, names[j]) {
        if j > 0 { assert names[j] == names[1..][j-1]; }
      }
      forall n | forall j | 0 <= j < |names| && 4 * j <= t :: names[j] != n ensures Files(d, n) == Files(disk, n) {
        assert names[0] != n;
        assert forall j | 0 <= j < |names[1..]| && 4 * j <= t - 4 :: names[1..][j] == names[j+1] != n;
      }
    }
  }

  predicate Held(disk: Disk) {
    HasTriplets(disk.flow, disk)
  }

  predicate SuccessNamed(flow: seq<FlowStep>, name: string) {
    exists i | 0 <= i < |flow| :: flow[i].name == name && flow[i].state.Success?
  }

  /** Some step whose removal has begun is a persisted success. */
  predicate LosesInBlock(flow: seq<FlowStep>, names: seq<string>, w: nat) {
    w <= 4 * |names| && exists j | 0 <= j < |names| :: 4 * j < w && SuccessNamed(flow, names[j])
  }

  lemma {:induction false} BlockHolds(disk: Disk, names: seq<string>, w: nat)
    requires Held(disk) && 0 < w <= 4 * |names|
    ensures Held(Clearing(disk, names)[w-1]) <==> !LosesInBlock(disk.flow, names, w)
  {
    hide Clearing;
    var d := Clearing(disk, names)[w-1];
    ClearingAt(disk, names, w - 1);
    if LosesInBlock(disk.flow, names, w) {
      var j :| 0 <= j < |names| && 4 * j < w && SuccessNamed(disk.flow, names[j]);
      var i :| 0 <= i < |disk.flow| && disk.flow[i].name == names[j] && disk.flow[i].state.Success?;
      assert Metrics !in Files(d, d.flow[i].name);
    } else {
      forall i | 0 <= i < |d.flow| && d.flow[i].state.Success? ensures TRIPLET <= Files(d, d.flow[i].name) {
        assert SuccessNamed(disk.flow, d.flow[i].name);
      }
    }
  }

  lemma {:induction false} ClearingOne(disk: Disk, name: string)
    ensures Clearing(disk, [name]) ==
            [Without(disk, name, Metrics), Without(Without(disk, name, Metrics), name, Summary),
             Without(Without(Without(disk, name, Metrics), name, Summary), name, Hotspots), WithoutAll(disk, name)]
    ensures Cleared(disk, [name]) == WithoutAll(disk, name)
  {
    assert [name][1..] == [];
    assert Clearing(WithoutAll(disk, name), []) == [];
  }

  lemma {:induction false} ClearQorWrites(e: Engine, name: string)
    ensures ClearQor(e, name).trace == e.trace + Clearing(e.disk, [name])
    ensures ClearQor(e, name).disk == WithoutAll(e.disk, name)
  {
    hide Clearing;
    ClearingOne(e.disk, name);
  }

  lemma {:induction false} ClearingCons(disk: Disk, name: string, names: seq<string>)
    ensures Clearing(disk, [name] + names) == Clearing(disk, [name]) + Clearing(WithoutAll(disk, name), names)
    ensures Cleared(disk, [name] + names) == Cleared(WithoutAll(disk, name), names)
  {
    ClearingOne(disk, name);
    assert ([name] + names)[1..] == names;
  }

  // Which steps an operation clears

  function NamesFrom(steps: seq<FlowStep>, i: nat): (names: seq<string>)
    requires i <= |steps|
    ensures |names| == |steps| - i && forall j | 0 <= j < |names| :: names[j] == steps[i+j].name
    decreases |steps| - i
  {
    if i == |steps| then [] else [steps[i].name] + NamesFrom(steps, i + 1)
  }

  /** Staling leaves running steps alone. */
  function Targets(steps: seq<FlowStep>, i: nat): seq<string>
    requires i <= |steps|
    decreases |steps| - i
  {
    if i == |steps| then []
    else if steps[i].state.Ongoing? then Targets(steps, i + 1)
    else [steps[i].name] + Targets(steps, i + 1)
  }

  lemma {:induction false} TargetsAgree(steps: seq<FlowStep>, steps': seq<FlowStep>, i: nat)
    requires i <= |steps| == |steps'| && forall j | i <= j < |steps| :: steps'[j] == steps[j]
    ensures Targets(steps', i) == Targets(steps, i)
    decreases |steps| - i
  {
    if i < |steps| {
      TargetsAgree(steps, steps', i + 1);
    }
  }

  lemma {:induction false} MarkFromWrites(e: Engine, i: nat, reason: string, from: string)
    requires i <= |e.steps|
    ensures MarkFrom(e, i, reason, from).trace == e.trace + Clearing(e.disk, Targets(e.steps, i))
    ensures MarkFrom(e, i, reason, from).disk == Cleared(e.disk, Targets(e.steps, i))
    decreases |e.steps| - i
  {
    hide MarkStale, ClearQor, Clearing, Cleared, WithoutAll;
    if i == |e.steps| {
      NothingCleared(e.disk);
      assert e.trace + [] == e.trace;
    } else {
      var name := e.steps[i].name;
      var marked := MarkAt(e, i, reason, from);
      MarkAtEffect(e, i, reason, from);
      MarkFromWrites(marked, i + 1, reason, from);
      TargetsAgree(e.steps, marked.steps, i + 1);
      if !e.steps[i].state.Ongoing? {
        ClearQorWrites(e, name);
        ClearingCons(e.disk, name, Targets(e.steps, i + 1));
        Regroup(e.trace, Clearing(e.disk, [name]), Clearing(marked.disk, Targets(e.steps, i + 1)));
      }
    }
  }

  lemma {:induction false} NothingCleared(disk: Disk)
    ensures Clearing(disk, []) == [] && Cleared(disk, []) == disk
  {
  }

  lemma {:induction false} Regroup(a: seq<Disk>, b: seq<Disk>, c: seq<Disk>)
    ensures a + (b + c) == a + b + c
  {
  }

  lemma {:induction false} ClearFromWrites(e: Engine, i: nat)
    requires i <= |e.steps|
    ensures ClearFrom(e, i).trace == e.trace + Clearing(e.disk, NamesFrom(e.steps, i))
    decreases |e.steps| - i
  {
    hide ClearQor, Clearing, Cleared, WithoutAll;
    if i == |e.steps| {
      NothingCleared(e.disk);
      assert e.trace + [] == e.trace;
    } else {
      var name := e.steps[i].name;
      var cleared := ClearQor(e, name);
      ClearQorWrites(e, name);
      var next := SetStep(cleared, i, Reset(e.steps[i]));
      ClearFromWrites(next, i + 1);
      assert NamesFrom(next.steps, i + 1) == NamesFrom(e.steps, i + 1);
      ClearingCons(e.disk, name, NamesFrom(e.steps, i + 1));
      Regroup(e.trace, Clearing(e.disk, [name]), Clearing(cleared.disk, NamesFrom(e.steps, i + 1)));
    }
  }

  lemma {:induction false} SuccessAt(steps: seq<FlowStep>, i: nat)
    requires ValidFlow(steps) && i < |steps|
    ensures SuccessNamed(steps, steps[i].name) <==> steps[i].state.Success?
  {
  }

  // Clear

  predicate ClearLoses(steps: seq<FlowStep>, w: nat) {
    w <= 4 * |steps| && exists j | 0 <= j < |steps| :: 4 * j < w && steps[j].state.Success?
  }

  lemma {:induction false} ClearHolds(e: Engine, w: nat)
    requires Settled(e) && e.trace == [] && 0 < w <= |ClearStates(e).trace|
    ensures |ClearStates(e).trace| == 4 * |e.steps| + 1
    ensures Held(ClearStates(e).trace[w-1]) <==> !ClearLoses(e.steps, w)
  {
    hide Clearing, Settled, Held, ClearFrom, ValidFlow, SuccessNamed;
    ClearFromWrites(e, 0);
    var names := NamesFrom(e.steps, 0);
    var disks := Clearing(e.disk, names);
    assert ClearFrom(e, 0).trace == disks;
    ClearStatesSettled(e);
    SettledDisk(e);
    SettledDisk(ClearStates(e));
    if w <= 4 * |e.steps| {
      BlockHolds(e.disk, names, w);
      forall j | 0 <= j < |names| ensures SuccessNamed(e.steps, names[j]) <==> e.steps[j].state.Success? {
        SuccessAt(e.steps, j);
      }
    } else {
      assert ClearStates(e).trace[w-1] == ClearStates(e).disk;
    }
  }

  // Refresh

  /** The steps a refresh clears: from the first stale one on, which is itself a success. */
  function RefreshTargets(steps: seq<FlowStep>, env: Environment): seq<string> {
    var s := FirstStaleFrom(steps, 0, env);
    if s == |steps| then [] else [steps[s].name] + Targets(steps, s + 1)
  }

  function RefreshWrites(steps: seq<FlowStep>, env: Environment): nat {
    var targets := RefreshTargets(steps, env);
    if targets == [] then 0 else 4 * |targets| + 1
  }

  /** Every write of a refresh but the last one: the first of them already hits a success. */
  predicate RefreshLoses(steps: seq<FlowStep>, env: Environment, w: nat) {
    0 < w < RefreshWrites(steps, env)
  }

  lemma {:induction false} RefreshTrace(e: Engine, env: Environment)
    ensures var targets := RefreshTargets(e.steps, env);
            RefreshStaleStates(e, env).trace ==
            e.trace + Clearing(e.disk, targets) + if targets == [] then [] else [RefreshStaleStates(e, env).disk]
    ensures var targets := RefreshTargets(e.steps, env);
            |targets| > 0 ==> SuccessNamed(e.steps, targets[0])
  {
    hide IsStale, StaleReason, MarkStale, ClearQor, Clearing, Cleared, WithoutAll, MarkFrom;
    NothingCleared(e.disk);
    var s := FirstStaleFrom(e.steps, 0, env);
    if s < |e.steps| {
      StaleIsSuccess(e.steps, s, env);
      var from, reason := e.steps[s].name, StaleReason(e.steps, s, env);
      var marked := MarkAt(e, s, reason, from);
      MarkAtEffect(e, s, reason, from);
      ClearQorWrites(e, from);
      MarkFromWrites(marked, s + 1, Reason("upstream step ", from, " is stale"), from);
      TargetsAgree(e.steps, marked.steps, s + 1);
      ClearingCons(e.disk, from, Targets(e.steps, s + 1));
      Regroup(e.trace, Clearing(e.disk, [from]), Clearing(marked.disk, Targets(e.steps, s + 1)));
      StaleChanges(e, env);
    } else {
      assert e.trace + [] + [] == e.trace;
    }
  }

  lemma {:induction false} StaleChanges(e: Engine, env: Environment)
    requires FirstStaleFrom(e.steps, 0, env) < |e.steps|
    ensures MarkStaleSuffix(e, FirstStaleFrom(e.steps, 0, env), env).steps != e.steps
  {
    var s := FirstStaleFrom(e.steps, 0, env);
    MarkStaleSuffixEffect(e, s, env);
    assert !RefreshedSteps(e.steps, env)[s].state.Success?;
  }

  lemma {:induction false} RefreshHolds(e: Engine, env: Environment, w: nat)
    requires Settled(e) && e.trace == []
    ensures |RefreshStaleStates(e, env).trace| == RefreshWrites(e.steps, env)
    ensures 0 < w <= RefreshWrites(e.steps, env) ==>
              (Held(RefreshStaleStates(e, env).trace[w-1]) <==> !RefreshLoses(e.steps, env, w))
  {
    hide Clearing, Settled, Held, RefreshStaleStates, FirstStaleFrom, SuccessNamed;
    RefreshTrace(e, env);
    var targets := RefreshTargets(e.steps, env);
    var disks := Clearing(e.disk, targets);
    var after := RefreshStaleStates(e, env);
    assert after.trace == disks + if targets == [] then [] else [after.disk];
    RefreshSettled(e, env);
    SettledDisk(e);
    SettledDisk(after);
    if 0 < w < RefreshWrites(e.steps, env) {
      BlockHolds(e.disk, targets, w);
      assert LosesInBlock(e.disk.flow, targets, w);
    }
  }

  lemma {:induction false} SettledDisk(e: Engine)
    requires Settled(e)
    ensures ValidFlow(e.steps) && Held(e.disk) && e.disk.flow == e.steps
  {
  }

  // One step

  predicate DownstreamChanges(steps: seq<FlowStep>, k: nat)
    requires k < |steps|
  {
    exists i | k < i < |steps| :: MarkStale(steps[i], "upstream step is being rerun", steps[k].name) != steps[i]
  }

  function DownstreamWrites(steps: seq<FlowStep>, k: nat): nat
    requires k < |steps|
  {
    4 * |Targets(steps, k + 1)| + if DownstreamChanges(steps, k) then 1 else 0
  }

  /** An executed step first clears what is downstream, saves that, and then clears itself:
      only until its own state is saved as running can a success lose its files. */
  predicate ForceLoses(steps: seq<FlowStep>, k: nat, w: nat)
    requires k < |steps|
  {
    if w <= DownstreamWrites(steps, k) then LosesInBlock(steps, Targets(steps, k + 1), w)
    else w <= DownstreamWrites(steps, k) + 4 && steps[k].state.Success?
  }

  predicate StepLoses(steps: seq<FlowStep>, k: nat, rerun: bool, turn: Turn, w: nat)
    requires k < |steps|
  {
    var refreshed := RefreshedSteps(steps, turn.env);
    if w <= RefreshWrites(steps, turn.env) then RefreshLoses(steps, turn.env, w)
    else (rerun || !refreshed[k].state.Success?) && ForceLoses(refreshed, k, w - RefreshWrites(steps, turn.env))
  }

  lemma {:induction false} DownstreamTrace(e: Engine, k: nat)
    requires k < |e.steps|
    ensures MarkDownstream(e, k).trace ==
            e.trace + Clearing(e.disk, Targets(e.steps, k + 1))
            + if DownstreamChanges(e.steps, k) then [MarkDownstream(e, k).disk] else []
    ensures |MarkDownstream(e, k).trace| == |e.trace| + DownstreamWrites(e.steps, k)
    ensures |MarkDownstream(e, k).steps| == |e.steps| && MarkDownstream(e, k).steps[k] == e.steps[k]
  {
    hide MarkStale, Clearing, MarkFrom;
    var reason := "upstream step is being rerun";
    MarkFromWrites(e, k + 1, reason, e.steps[k].name);
    MarkFromEffect(e, k + 1, reason, e.steps[k].name);
    var marked := MarkFrom(e, k + 1, reason, e.steps[k].name);
    assert DownstreamChanges(e.steps, k) <==> marked.steps != e.steps by {
      if !DownstreamChanges(e.steps, k) {
        assert forall i | 0 <= i < |e.steps| :: marked.steps[i] == e.steps[i];
      }
    }
    assert marked.trace + [] == marked.trace;
  }

  lemma {:induction false} MarkDownstreamSettled(e: Engine, k: nat)
    requires Settled(e) && k < |e.steps|
    ensures Settled(MarkDownstream(e, k))
  {
    hide Kept, MarkFrom;
    MarkFromKept(e, k + 1, "upstream step is being rerun", e.steps[k].name);
    SaveKept(MarkFrom(e, k + 1, "upstream step is being rerun", e.steps[k].name));
    DownstreamUnchanged(e, k);
  }

  lemma {:induction false} DownstreamUnchanged(e: Engine, k: nat)
    requires k < |e.steps|
    ensures MarkFrom(e, k + 1, "upstream step is being rerun", e.steps[k].name).steps == e.steps ==>
              MarkDownstream(e, k).disk.flow == e.disk.flow
  {
    MarkFromDisk(e, k + 1, "upstream step is being rerun", e.steps[k].name);
  }

  lemma {:induction false} PrepareTrace(e: Engine, k: nat, marker: Option<Marker>)
    requires k < |e.steps|
    ensures Prepare(e, k, marker).trace == e.trace + Clearing(e.disk, [e.steps[k].name]) + [Prepare(e, k, marker).disk]
  {
    hide Clearing, ClearQor;
    ClearQorWrites(SetStep(e, k, e.steps[k].(stale := None)), e.steps[k].name);
  }

  // While a step is running, its own writes cost no success anything

  predicate AllHeld(e: Engine) {
    Held(e.disk) && forall d | d in e.trace :: Held(d)
  }

  lemma {:induction false} PutHeld(e: Engine, name: string, file: QorFile)
    requires AllHeld(e)
    ensures AllHeld(Put(e, name, file))
  {
    var after := Put(e, name, file).disk;
    assert forall n :: Files(e.disk, n) <= Files(after, n);
  }

  lemma {:induction false} UnlinkHeld(e: Engine, name: string, file: QorFile)
    requires AllHeld(e) && (file !in TRIPLET || !SuccessNamed(e.disk.flow, name))
    ensures AllHeld(Unlink(e, name, file)) && Unlink(e, name, file).disk.flow == e.disk.flow
  {
    var after := Unlink(e, name, file).disk;
    forall i | 0 <= i < |after.flow| && after.flow[i].state.Success?
      ensures TRIPLET <= Files(after, after.flow[i].name) {
      assert SuccessNamed(e.disk.flow, after.flow[i].name);
    }
  }

  lemma {:induction false} SaveHeld(e: Engine)
    requires AllHeld(e) && HasTriplets(e.steps, e.disk)
    ensures AllHeld(Save(e))
  {
  }

  lemma {:induction false} ClearQorHeld(e: Engine, name: string)
    requires AllHeld(e) && !SuccessNamed(e.disk.flow, name)
    ensures AllHeld(ClearQor(e, name)) && ClearQor(e, name).disk.flow == e.disk.flow
  {
    hide AllHeld, Unlink;
    UnlinkHeld(e, name, Metrics);
    UnlinkHeld(Unlink(e, name, Metrics), name, Summary);
    UnlinkHeld(Unlink(Unlink(e, name, Metrics), name, Summary), name, Hotspots);
    UnlinkHeld(Unlink(Unlink(Unlink(e, name, Metrics), name, Summary), name, Hotspots), name, Detail);
  }

  lemma {:induction false} PutQorHeld(e: Engine, name: string, count: nat)
    requires AllHeld(e)
    ensures AllHeld(PutQor(e, name, count)) && PutQor(e, name, count).disk.flow == e.disk.flow
  {
    hide Held;
    PutHeld(e, name, Metrics);
    PutHeld(Put(e, name, Metrics), name, Summary);
    PutHeld(Put(Put(e, name, Metrics), name, Summary), name, Hotspots);
  }

  /** The persisted flow with the running step replaced keeps its triplets unless that makes it
      a success without one. */
  lemma {:induction false} SetStepHeld(e: Engine, k: nat, step: FlowStep)
    requires HasTriplets(e.steps, e.disk) && k < |e.steps| && step.name == e.steps[k].name
    requires step.state.Success? ==> TRIPLET <= Files(e.disk, step.name)
    ensures HasTriplets(SetStep(e, k, step).steps, e.disk)
  {
  }

  lemma {:induction false} SavedHasTriplets(e: Engine)
    requires HasTriplets(e.steps, e.disk)
    ensures HasTriplets(Save(e).steps, Save(e).disk)
  {
  }

  lemma {:induction false} FailStepHeld(e: Engine, k: nat, elapsed: string)
    requires AllHeld(e) && k < |e.steps| && HasTriplets(e.steps, e.disk)
    ensures AllHeld(FailStep(e, k, elapsed))
  {
    hide AllHeld, HasTriplets;
    var failed := e.steps[k].(state := Incomplete, runtime := elapsed, marker := None);
    SetStepHeld(e, k, failed);
    AllHeldSet(e, k, failed);
    SaveHeld(SetStep(e, k, failed));
    SavedHasTriplets(SetStep(e, k, failed));
    var finished := FinishStep(e, k, Incomplete, elapsed);
    SetStepHeld(finished, k, finished.steps[k].(provenance := None));
    AllHeldSet(finished, k, finished.steps[k].(provenance := None));
    SaveHeld(SetStep(finished, k, finished.steps[k].(provenance := None)));
  }

  lemma {:induction false} AllHeldSet(e: Engine, k: nat, step: FlowStep)
    requires AllHeld(e) && k < |e.steps|
    ensures AllHeld(SetStep(e, k, step))
  {
  }

  lemma {:induction false} RunningHasTriplets(e: Engine, k: nat, files: Disk)
    requires k < |e.steps| && ValidFlow(e.steps) && HasTriplets(e.steps, e.disk) && e.steps[k].state.Ongoing?
    requires forall n | n != e.steps[k].name :: Files(files, n) == Files(e.disk, n)
    ensures HasTriplets(e.steps, files) && !SuccessNamed(e.steps, e.steps[k].name)
  {
  }

  /** From the persisted running state on, every disk of an execution keeps all triplets. */
  lemma {:induction false} ExecuteHeld(e: Engine, k: nat, provenance: Provenance, turn: Turn)
    requires k < |e.steps| && Settled(e) && AllHeld(e) && Running(e, k)
    ensures AllHeld(Execute(e, k, provenance, turn).0)
  {
    hide Settled, AllHeld, HasTriplets, Running, SuccessNamed, ClearQor, PutQor, FailStep;
    var name := e.steps[k].name;
    var begun := e.(ran := e.ran + [name]);
    BegunIsHeld(e, k);
    match turn.outcome {
      case Finished(ok, output) =>
        PublishedHeld(begun, k, 3);
        var published := PutQor(begun, name, 3);
        if ok {
          SuccessHeld(published, k, provenance.(outputFingerprint := output), turn.elapsed);
        } else {
          FailStepHeld(published, k, turn.elapsed);
        }
      case Failed(count, sourceChanged, failureQor) =>
        PublishedHeld(begun, k, count);
        var partial := PutQor(begun, name, count);
        if sourceChanged && failureQor {
          PublishedHeld(partial, k, 3);
          FailStepHeld(PutQor(partial, name, 3), k, turn.elapsed);
        } else {
          RemovedHeld(partial, k);
          FailStepHeld(ClearQor(partial, name), k, turn.elapsed);
        }
      case Interrupted(count) =>
        PublishedHeld(begun, k, count);
        var partial := PutQor(begun, name, count);
        RemovedHeld(partial, k);
        FailStepHeld(ClearQor(partial, name), k, turn.elapsed);
    }
  }

  /** A running step in memory and on disk, and no triplet missing anywhere. */
  predicate RunningHeld(e: Engine, k: nat) {
    AllHeld(e) && Running(e, k) && Safe(e) && HasTriplets(e.steps, e.disk)
      && !SuccessNamed(e.disk.flow, e.steps[k].name)
  }

  lemma {:induction false} BegunIsHeld(e: Engine, k: nat)
    requires Settled(e) && AllHeld(e) && Running(e, k)
    ensures RunningHeld(e.(ran := e.ran + [e.steps[k].name]), k)
  {
    RunningHasTriplets(e, k, e.disk);
  }

  lemma {:induction false} PublishedHeld(e: Engine, k: nat, count: nat)
    requires RunningHeld(e, k)
    ensures var after := PutQor(e, e.steps[k].name, count);
            && RunningHeld(after, k) && AllHeld(after) && HasTriplets(after.steps, after.disk)
            && (count >= 3 ==> TRIPLET <= Files(after.disk, e.steps[k].name))
  {
    hide AllHeld, Safe, SuccessNamed, PutQor;
    var name := e.steps[k].name;
    PutQorHeld(e, name, count);
    PutQorSafe(e, k, count);
    ValidWhenSafe(e);
    RunningHasTriplets(e, k, PutQor(e, name, count).disk);
  }

  lemma {:induction false} ValidWhenSafe(e: Engine)
    requires Safe(e)
    ensures ValidFlow(e.steps)
  {
  }

  lemma {:induction false} RemovedHeld(e: Engine, k: nat)
    requires RunningHeld(e, k)
    ensures var after := ClearQor(e, e.steps[k].name); AllHeld(after) && HasTriplets(after.steps, after.disk)
  {
    hide AllHeld, Safe, SuccessNamed, ClearQor;
    var name := e.steps[k].name;
    ClearQorHeld(e, name);
    ClearQorSafe(e, name);
    ValidWhenSafe(e);
    RunningHasTriplets(e, k, ClearQor(e, name).disk);
  }

  lemma {:induction false} SuccessHeld(e: Engine, k: nat, provenance: Provenance, elapsed: string)
    requires RunningHeld(e, k) && TRIPLET <= Files(e.disk, e.steps[k].name)
    ensures AllHeld(FinishStep(SetStep(e, k, e.steps[k].(provenance := Some(provenance))), k, Success, elapsed))
  {
    hide AllHeld, Safe, SuccessNamed, HasTriplets;
    var signed := e.steps[k].(provenance := Some(provenance));
    SetStepHeld(e, k, signed);
    AllHeldSet(e, k, signed);
    var e1 := SetStep(e, k, signed);
    var finished := signed.(state := Success, runtime := elapsed, marker := None);
    SetStepHeld(e1, k, finished);
    AllHeldSet(e1, k, finished);
    SaveHeld(SetStep(e1, k, finished));
  }

  // The writes of a step together

  lemma {:induction false} ForceHolds(e: Engine, k: nat, turn: Turn, w: nat)
    requires Settled(e) && e.trace == [] && k < |e.steps| && 0 < w
    ensures |ForceStep(e, k, turn).0.trace| > DownstreamWrites(e.steps, k) + 4
    ensures w <= |ForceStep(e, k, turn).0.trace| ==> (Held(ForceStep(e, k, turn).0.trace[w-1])
        <==> !ForceLoses(e.steps, k, w))
  {
    hide Settled, Held, MarkDownstream, Prepare, Execute, ExpectedProvenance, Clearing, LosesInBlock, SuccessNamed,
      DownstreamChanges, Targets, DownstreamWrites;
    MarkDownstreamKeepsShape(e, k);
    var marked := MarkDownstream(e, k);
    PrepareKeepsShape(marked, k, turn.marker);
    var begun := Prepare(marked, k, turn.marker);
    var expected := ExpectedProvenance(marked.steps, k, turn.env);
    var rest := Execute(Restarted(begun), k, expected, turn).0.trace;
    PrepareTrace(marked, k, turn.marker);
    ExecuteBehind(begun, Restarted(begun), k, expected, turn);
    RestartedBehind(begun);
    var own := Clearing(marked.disk, [marked.steps[k].name]);
    assert ForceStep(e, k, turn).0.trace == marked.trace + own + [begun.disk] + rest;
    var D := DownstreamWrites(e.steps, k);
    DownstreamHolds(e, k, w);
    if D < w <= |ForceStep(e, k, turn).0.trace| {
      if w <= D + 4 {
        OwnHolds(e, k, w - D);
        assert (marked.trace + own + [begun.disk] + rest)[w-1] == own[w-D-1];
      } else {
        PreparedHeld(marked, k, turn.marker) by { MarkDownstreamSettled(e, k); }
        ExecuteHeld(Restarted(begun), k, expected, turn);
        HeldThere(Execute(Restarted(begun), k, expected, turn).0, begun.disk, w - D - 5);
      }
    }
  }

  lemma {:induction false} HeldThere(e: Engine, disk: Disk, i: nat)
    requires AllHeld(e) && Held(disk) && i <= |e.trace|
    ensures Held(([disk] + e.trace)[i])
  {
    if i > 0 { assert e.trace[i-1] in e.trace; }
  }

  lemma {:induction false} DownstreamHolds(e: Engine, k: nat, w: nat)
    requires Settled(e) && e.trace == [] && k < |e.steps| && 0 < w
    ensures |MarkDownstream(e, k).trace| == DownstreamWrites(e.steps, k)
    ensures w <= DownstreamWrites(e.steps, k) ==>
              (Held(MarkDownstream(e, k).trace[w-1]) <==> !LosesInBlock(e.steps, Targets(e.steps, k + 1), w))
  {
    hide Settled, Held, MarkDownstream, Clearing, DownstreamChanges, Targets, SuccessNamed;
    DownstreamTrace(e, k);
    SettledDisk(e);
    MarkDownstreamSettled(e, k);
    SettledDisk(MarkDownstream(e, k));
    var targets := Targets(e.steps, k + 1);
    assert MarkDownstream(e, k).trace ==
           Clearing(e.disk, targets) + if DownstreamChanges(e.steps, k) then [MarkDownstream(e, k).disk] else [];
    if w <= 4 * |targets| {
      BlockHolds(e.disk, targets, w);
    }
  }

  lemma {:induction false} OwnHolds(e: Engine, k: nat, w: nat)
    requires Settled(e) && k < |e.steps| && 0 < w <= 4
    ensures var marked := MarkDownstream(e, k);
            && |marked.steps| == |e.steps|
            && (Held(Clearing(marked.disk, [marked.steps[k].name])[w-1]) <==> !e.steps[k].state.Success?)
  {
    hide Settled, Held, MarkDownstream, Clearing;
    DownstreamTrace(e, k);
    MarkDownstreamSettled(e, k);
    var marked := MarkDownstream(e, k);
    SettledDisk(marked);
    BlockHolds(marked.disk, [marked.steps[k].name], w);
    SuccessAt(marked.steps, k);
    assert [marked.steps[k].name][0] == marked.steps[k].name;
  }

  lemma {:induction false} PreparedHeld(e: Engine, k: nat, marker: Option<Marker>)
    requires Settled(e) && k < |e.steps|
    ensures var begun := Restarted(Prepare(e, k, marker));
            Settled(begun) && AllHeld(begun) && Running(begun, k)
  {
    hide Safe, Prepare, HasTriplets;
    PrepareKept(e, k, marker);
    PreparedIsSaved(e, k, marker);
    RestartedSafe(Prepare(e, k, marker));
  }

  lemma {:induction false} PreparedIsSaved(e: Engine, k: nat, marker: Option<Marker>)
    requires k < |e.steps|
    ensures Prepare(e, k, marker).disk.flow == Prepare(e, k, marker).steps
  {
  }

  lemma {:induction false} RestartedSafe(e: Engine)
    requires Safe(e)
    ensures Safe(Restarted(e))
  {
  }

  /** Killed after `w` writes, the operation leaves a persisted success without its triplet. */
  predicate LostAt(after: Engine, w: nat) {
    0 < w <= |after.trace| && !Held(after.trace[w-1])
  }

  lemma {:induction false} ForceLost(e: Engine, k: nat, turn: Turn, w: nat)
    requires Settled(e) && e.trace == [] && k < |e.steps|
    ensures LostAt(ForceStep(e, k, turn).0, w) <==> ForceLoses(e.steps, k, w)
  {
    hide ForceStep, Settled, Held, Targets;
    if w > 0 {
      ForceHolds(e, k, turn, w);
    }
  }

  lemma {:induction false} LostBehind(base: Engine, e: Engine, w: nat)
    ensures LostAt(Behind(base, e), w) <==>
            if w <= |base.trace| then LostAt(base, w) else LostAt(e, w - |base.trace|)
  {
    hide Held;
  }

  lemma {:induction false} RestartedSettled(e: Engine)
    requires Settled(e)
    ensures Settled(Restarted(e)) && Restarted(e) == Open(e.disk) && Tidy(e.disk)
  {
  }

  lemma {:induction false} StepLost(e: Engine, k: nat, rerun: bool, turn: Turn, w: nat)
    requires Settled(e) && e.trace == [] && k < |e.steps|
    ensures LostAt(RunStep(e, k, rerun, turn).0, w) <==> StepLoses(e.steps, k, rerun, turn, w)
  {
    hide Settled, Held, RefreshStaleStates, ForceStep, ForceLoses, RefreshedSteps, RefreshWrites, Restarted, Behind;
    var refreshed := RefreshStaleStates(e, turn.env);
    RefreshHolds(e, turn.env, w);
    RefreshEffect(e, turn.env);
    RefreshSettled(e, turn.env);
    if rerun || !refreshed.steps[k].state.Success? {
      RestartedSettled(refreshed);
      RestartedBehind(refreshed);
      OpenedSteps(refreshed);
      ForceStepBehind(refreshed, Restarted(refreshed), k, turn);
      LostBehind(refreshed, ForceStep(Restarted(refreshed), k, turn).0, w);
      if w > RefreshWrites(e.steps, turn.env) {
        ForceLost(Restarted(refreshed), k, turn, w - RefreshWrites(e.steps, turn.env));
      }
    }
  }

  lemma {:induction false} OpenedSteps(e: Engine)
    ensures Restarted(e).steps == e.steps && Restarted(e).trace == []
  {
  }

  // Whole runs

  /** The write falls into one of the steps a run executes. */
  predicate RunLoses(disk: Disk, k: nat, rerun: bool, turns: seq<Turn>, w: nat)
    requires k <= |disk.flow| == |turns|
    decreases |disk.flow| - k
  {
    if k == |disk.flow| then false
    else
      RunStepLeavesRunnable(Open(disk), k, rerun, turns[k]);
      var (next, result) := RunStep(Open(disk), k, rerun, turns[k]);
      if w <= |next.trace| then StepLoses(disk.flow, k, rerun, turns[k], w)
      else result == Returned(Success) && RunLoses(next.disk, k + 1, rerun, turns, w - |next.trace|)
  }

  lemma {:induction false} RunLost(disk: Disk, k: nat, rerun: bool, turns: seq<Turn>, w: nat)
    requires Tidy(disk) && k <= |disk.flow| == |turns|
    ensures LostAt(RunFrom(Open(disk), k, rerun, turns).0, w) <==> RunLoses(disk, k, rerun, turns, w)
    decreases |disk.flow| - k
  {
    hide RunStep, Held, StepLoses, Tidy, Settled, Behind, Restarted;
    if k < |disk.flow| {
      OpenSettled(disk);
      RunStepLeavesRunnable(Open(disk), k, rerun, turns[k]);
      StepLost(Open(disk), k, rerun, turns[k], w);
      RunStepSettled(Open(disk), k, rerun, turns[k]);
      var (next, result) := RunStep(Open(disk), k, rerun, turns[k]);
      RestartedSettled(next);
      if result == Returned(Success) {
        RestartedBehind(next);
        RunFromBehind(next, Open(next.disk), k + 1, rerun, turns);
        LostBehind(next, RunFrom(Open(next.disk), k + 1, rerun, turns).0, w);
        if w > |next.trace| {
          RunLost(next.disk, k + 1, rerun, turns, w - |next.trace|);
        }
      }
    }
  }

  lemma {:induction false} ClearLost(e: Engine, w: nat)
    requires Settled(e) && e.trace == []
    ensures |ClearStates(e).trace| == 4 * |e.steps| + 1
    ensures LostAt(ClearStates(e), w) <==> ClearLoses(e.steps, w)
  {
    hide Settled, Held, ClearStates;
    ClearLength(e);
    if 0 < w <= |ClearStates(e).trace| {
      ClearHolds(e, w);
    }
  }

  lemma {:induction false} ClearLength(e: Engine)
    requires e.trace == []
    ensures |ClearStates(e).trace| == 4 * |e.steps| + 1
  {
    ClearFromWrites(e, 0);
  }

  predicate AllLoses(disk: Disk, rerun: bool, turns: seq<Turn>, w: nat)
    requires |turns| == |disk.flow|
  {
    if !rerun then RunLoses(disk, 0, false, turns, w)
    else if w <= 4 * |disk.flow| + 1 then ClearLoses(disk.flow, w)
    else
      ClearedShape(Open(disk));
      RunLoses(ClearStates(Open(disk)).disk, 0, true, turns, w - (4 * |disk.flow| + 1))
  }

  lemma {:induction false} AllLost(disk: Disk, rerun: bool, turns: seq<Turn>, w: nat)
    requires Tidy(disk) && |turns| == |disk.flow|
    ensures LostAt(RunAll(Open(disk), rerun, turns).0, w) <==> AllLoses(disk, rerun, turns, w)
  {
    hide RunFrom, Held, ClearLoses, Tidy, Settled, Behind, Restarted, ClearStates, RunLoses;
    OpenSettled(disk);
    if rerun {
      var cleared := ClearStates(Open(disk));
      ClearedShape(Open(disk));
      ClearLost(Open(disk), w);
      ClearStatesSettled(Open(disk));
      SettledDisk(cleared);
      RestartedSettled(cleared);
      RestartedBehind(cleared);
      RunFromBehind(cleared, Open(cleared.disk), 0, true, turns);
      LostBehind(cleared, RunFrom(Open(cleared.disk), 0, true, turns).0, w);
      if w > |cleared.trace| {
        RunLost(cleared.disk, 0, true, turns, w - |cleared.trace|);
      }
    } else {
      RunLost(disk, 0, false, turns, w);
    }
  }

  // The flow command

  lemma {:induction false} IteratedLength(disk: Disk, k: nat, force: bool, refreshed: bool, turn: FlowTurn)
    requires k < |disk.flow|
    ensures |RefreshPrepare(Open(disk), k, refreshed, turn).0.disk.flow| == |disk.flow|
    ensures |Iterate(Open(disk), k, force, refreshed, turn).0.disk.flow| == |disk.flow|
  {
    hide RunStep;
    var ready := RefreshPrepare(Open(disk), k, refreshed, turn).0;
    assert ready.disk.flow == ready.steps && |ready.steps| == |disk.flow| by {
      var p := StepIndex(disk.flow, "prepare", 0);
      if p.Some? { RunStepLeavesRunnable(Open(disk), p.value, true, turn.prepareTurn); }
    }
    RunStepLeavesRunnable(ready, k, force, turn.turn);
  }

  predicate PrepareLoses(flow: seq<FlowStep>, turn: FlowTurn, w: nat) {
    match StepIndex(flow, "prepare", 0)
    case None => false
    case Some(p) => StepLoses(flow, p, true, turn.prepareTurn, w)
  }

  /** The write falls into the automatic prepare refresh or into the step itself. */
  predicate IterateLoses(disk: Disk, k: nat, force: bool, refreshed: bool, turn: FlowTurn, w: nat)
    requires k < |disk.flow|
  {
    IteratedLength(disk, k, force, refreshed, turn);
    var (ready, _, prepared) := RefreshPrepare(Open(disk), k, refreshed, turn);
    if w <= |ready.trace| then PrepareLoses(disk.flow, turn, w)
    else prepared == Returned(Success) && StepLoses(ready.disk.flow, k, force, turn.turn, w - |ready.trace|)
  }

  predicate SelectedLoses(disk: Disk, k: nat, start: Option<nat>, rerun: bool, refreshed: bool, turns: seq<FlowTurn>,
                          w: nat)
    requires k <= |disk.flow| == |turns|
    decreases |disk.flow| - k
  {
    if k == |disk.flow| then false
    else
      var force := rerun || start == Some(k);
      IteratedLength(disk, k, force, refreshed, turns[k]);
      var (next, refreshed', end) := Iterate(Open(disk), k, force, refreshed, turns[k]);
      if w <= |next.trace| then IterateLoses(disk, k, force, refreshed, turns[k], w)
      else end.None? && SelectedLoses(next.disk, k + 1, start, rerun, refreshed', turns, w - |next.trace|)
  }

  lemma {:induction false} RefreshPrepareLost(disk: Disk, k: nat, refreshed: bool, turn: FlowTurn, w: nat)
    requires Tidy(disk) && k < |disk.flow|
    ensures var ready := RefreshPrepare(Open(disk), k, refreshed, turn).0;
            && Settled(ready)
            && (LostAt(ready, w) <==> 0 < w <= |ready.trace| && PrepareLoses(disk.flow, turn, w))
  {
    hide RunStep, Held, StepLoses, Tidy, Settled;
    OpenSettled(disk);
    match StepIndex(disk.flow, "prepare", 0) {
      case None =>
      case Some(p) =>
        StepLost(Open(disk), p, true, turn.prepareTurn, w);
        RunStepSettled(Open(disk), p, true, turn.prepareTurn);
    }
  }

  lemma {:induction false} DetailLost(e: Engine, k: nat, written: bool, w: nat)
    requires Settled(e) && k < |e.steps|
    ensures LostAt(WriteDetail(e, k, written), w) <==> LostAt(e, w)
  {
    if written {
      var d := Put(e, e.steps[k].name, Detail).disk;
      assert forall n :: Files(e.disk, n) <= Files(d, n);
    }
  }

  lemma {:induction false} IterateLost(disk: Disk, k: nat, force: bool, refreshed: bool, turn: FlowTurn, w: nat)
    requires Tidy(disk) && k < |disk.flow|
    ensures LostAt(Iterate(Open(disk), k, force, refreshed, turn).0, w) <==>
            0 < w && IterateLoses(disk, k, force, refreshed, turn, w)
  {
    hide RunStep, RefreshPrepare, Held, StepLoses, PrepareLoses, Tidy, Settled, Behind, Restarted, WriteDetail, LostAt;
    IteratedLength(disk, k, force, refreshed, turn);
    RefreshPrepareLost(disk, k, refreshed, turn, w);
    var (ready, _, prepared) := RefreshPrepare(Open(disk), k, refreshed, turn);
    RestartedSettled(ready);
    RestartedBehind(ready);
    LostInTrace(ready, w);
    if prepared == Returned(Success) {
      var (own, _) := RunStep(Open(ready.disk), k, force, turn.turn);
      var (after, result) := RunStep(ready, k, force, turn.turn);
      RunStepBehind(ready, Open(ready.disk), k, force, turn.turn);
      LostBehind(ready, own, w);
      OpenSettled(ready.disk);
      RunStepSettled(ready, k, force, turn.turn);
      DetailLost(after, k, turn.detailWritten, w);
      if w > |ready.trace| {
        StepLost(Open(ready.disk), k, force, turn.turn, w - |ready.trace|);
      }
    }
  }

  lemma {:induction false} LostInTrace(e: Engine, w: nat)
    ensures LostAt(e, w) ==> 0 < w <= |e.trace|
  {
  }

  lemma {:induction false} SelectedLost(disk: Disk, k: nat, start: Option<nat>, rerun: bool, refreshed: bool,
                                        turns: seq<FlowTurn>, w: nat)
    requires Tidy(disk) && k <= |disk.flow| == |turns|
    ensures LostAt(RunSelected(Open(disk), k, start, rerun, refreshed, turns).0, w) <==>
            0 < w && SelectedLoses(disk, k, start, rerun, refreshed, turns, w)
    decreases |disk.flow| - k
  {
    hide Iterate, Held, IterateLoses, Tidy, Settled, Behind, Restarted, LostAt;
    if k == |disk.flow| {
      NothingLost(Open(disk), w);
    } else {
      var force := rerun || start == Some(k);
      IteratedLength(disk, k, force, refreshed, turns[k]);
      IterateLost(disk, k, force, refreshed, turns[k], w);
      OpenSettled(disk);
      IterateSettled(Open(disk), k, force, refreshed, turns[k]);
      var (next, refreshed', end) := Iterate(Open(disk), k, force, refreshed, turns[k]);
      LostInTrace(next, w);
      if end.None? {
        RestartedSettled(next);
        RestartedBehind(next);
        RunSelectedBehind(next, Open(next.disk), k + 1, start, rerun, refreshed', turns);
        LostBehind(next, RunSelected(Open(next.disk), k + 1, start, rerun, refreshed', turns).0, w);
        if w > |next.trace| {
          SelectedLost(next.disk, k + 1, start, rerun, refreshed', turns, w - |next.trace|);
        }
      }
    }
  }

  lemma {:induction false} NothingLost(e: Engine, w: nat)
    requires e.trace == []
    ensures !LostAt(e, w)
  {
  }

  /** Removing snapshots never costs a triplet. */
  lemma {:induction false} DetailsLost(e: Engine, i: nat, w: nat)
    requires Settled(e) && i <= |e.steps|
    ensures |RemoveDetails(e, i).trace| == |e.trace| + |e.steps| - i
    ensures LostAt(RemoveDetails(e, i), w) <==> LostAt(e, w)
    decreases |e.steps| - i
  {
    hide Safe;
    if i < |e.steps| {
      var name := e.steps[i].name;
      UnlinkSafe(e, name, Detail);
      var next := Unlink(e, name, Detail);
      assert forall n :: TRIPLET * Files(next.disk, n) == TRIPLET * Files(e.disk, n);
      assert forall n :: TRIPLET <= Files(e.disk, n) ==> TRIPLET <= Files(next.disk, n);
      DetailsLost(next, i + 1, w);
    }
  }

  /** The flow command: a rerun first clears the states, then the snapshots from its first step
      on are removed, and then the selected steps run. */
  predicate CommandLoses(disk: Disk, start: Option<nat>, rerun: bool, turns: seq<FlowTurn>, w: nat)
    requires |turns| == |disk.flow| && (start.Some? ==> start.value < |disk.flow|)
  {
    CommandShape(disk, start, rerun);
    var begun := CommandStart(Open(disk), start, rerun);
    if w <= |begun.trace| then rerun && ClearLoses(disk.flow, w)
    else SelectedLoses(begun.disk, if start.Some? then start.value else 0, start, rerun, false, turns,
      w - |begun.trace|)
  }

  function CommandStart(e: Engine, start: Option<nat>, rerun: bool): Engine
    requires start.Some? ==> start.value < |e.steps|
  {
    ClearedShape(e);
    var cleared := if rerun then RemoveDetails(ClearStates(e), 0) else e;
    match start case None => cleared case Some(s) => RemoveDetails(cleared, s)
  }

  lemma {:induction false} CommandShape(disk: Disk, start: Option<nat>, rerun: bool)
    requires start.Some? ==> start.value < |disk.flow|
    ensures |CommandStart(Open(disk), start, rerun).disk.flow| == |disk.flow|
  {
    ClearedShape(Open(disk));
    DetailsKeepFlow(ClearStates(Open(disk)), 0);
    var cleared := if rerun then RemoveDetails(ClearStates(Open(disk)), 0) else Open(disk);
    if start.Some? { DetailsKeepFlow(cleared, start.value); }
  }

  lemma {:induction false} DetailsKeepFlow(e: Engine, i: nat)
    requires i <= |e.steps|
    ensures RemoveDetails(e, i).disk.flow == e.disk.flow
    decreases |e.steps| - i
  {
    if i < |e.steps| {
      DetailsKeepFlow(Unlink(e, e.steps[i].name, Detail), i + 1);
    }
  }

  lemma {:induction false} StartLost(disk: Disk, start: Option<nat>, rerun: bool, w: nat)
    requires Tidy(disk) && (start.Some? ==> start.value < |disk.flow|)
    ensures var begun := CommandStart(Open(disk), start, rerun);
            Settled(begun) && (LostAt(begun, w) <==> rerun && ClearLoses(disk.flow, w))
  {
    hide Settled, Tidy, ClearStates, ClearLoses, LostAt, RemoveDetails;
    OpenSettled(disk);
    ClearedShape(Open(disk));
    NothingLost(Open(disk), w);
    ClearLost(Open(disk), w);
    ClearStatesSettled(Open(disk));
    var cleared := ClearStates(Open(disk));
    DetailsLost(cleared, 0, w);
    RemoveDetailsSettled(cleared, 0);
    var begun := if rerun then RemoveDetails(cleared, 0) else Open(disk);
    if start.Some? {
      DetailsLost(begun, start.value, w);
      RemoveDetailsSettled(begun, start.value);
    }
  }

  lemma {:induction false} CommandLost(disk: Disk, start: Option<nat>, rerun: bool, turns: seq<FlowTurn>, w: nat)
    requires Tidy(disk) && |turns| == |disk.flow| && (start.Some? ==> start.value < |disk.flow|)
    ensures LostAt(RunFlow(Open(disk), start, rerun, turns).0, w) <==> CommandLoses(disk, start, rerun, turns, w)
  {
    hide Settled, Tidy, ClearStates, ClearLoses, LostAt, RemoveDetails, RunSelected, SelectedLoses, Behind, Restarted;
    CommandShape(disk, start, rerun);
    StartLost(disk, start, rerun, w);
    var begun := CommandStart(Open(disk), start, rerun);
    var first := if start.Some? then start.value else 0;
    RestartedSettled(begun);
    RestartedBehind(begun);
    RunSelectedBehind(begun, Open(begun.disk), first, start, rerun, false, turns);
    var own := RunSelected(Open(begun.disk), first, start, rerun, false, turns).0;
    assert RunFlow(Open(disk), start, rerun, turns).0 == Behind(begun, own);
    LostBehind(begun, own, w);
    if w > |begun.trace| {
      SelectedLost(begun.disk, first, start, rerun, false, turns, w - |begun.trace|);
    }
  }

  // Recovery

  /** Recovery only clears steps persisted as running. */
  lemma {:induction false} RecoverFromHeld(e: Engine, i: nat, active: set<string>, operation: string)
    requires AllHeld(e) && ValidFlow(e.disk.flow) && i <= |e.steps| == |e.disk.flow|
    requires forall j | i <= j < |e.steps| :: e.steps[j] == e.disk.flow[j]
    ensures AllHeld(RecoverFrom(e, i, active, operation))
    decreases |e.steps| - i
  {
    hide AllHeld, ClearQor, Recoverable;
    if i < |e.steps| {
      if Recoverable(e.steps[i], active, operation) {
        assert !SuccessNamed(e.disk.flow, e.steps[i].name) by {
          SuccessAt(e.disk.flow, i);
          RecoverableRuns(e.steps[i], active, operation);
        }
        var step := e.steps[i].(state := Incomplete, marker := None);
        AllHeldSet(e, i, step);
        ClearQorHeld(SetStep(e, i, step), e.steps[i].name);
        RecoverFromHeld(InterruptAt(e, i), i + 1, active, operation);
      } else {
        RecoverFromHeld(e, i + 1, active, operation);
      }
    }
  }

  lemma {:induction false} RecoverableRuns(step: FlowStep, active: set<string>, operation: string)
    requires Recoverable(step, active, operation)
    ensures step.state.Ongoing?
  {
  }

  lemma {:induction false} RecoverLost(e: Engine, active: set<string>, operation: string, w: nat)
    requires Settled(e) && e.trace == []
    ensures !LostAt(Recover(e, active, operation), w)
  {
    hide Safe, HasTriplets, RecoverFrom;
    RecoverFromHeld(e, 0, active, operation) by { SettledDisk(e); }
    RecoverSettled(e, active, operation);
    RecoverFromKept(e, 0, active, operation);
    SaveHeld(RecoverFrom(e, 0, active, operation));
  }

  // The theorem

  /** Which kills lose a triplet, in terms of the persisted flow and the number of writes. */
  predicate Loses(disk: Disk, op: Op, w: nat) {
    Applicable(disk.flow, op) &&
    match op
    case Refresh(env) => RefreshLoses(disk.flow, env, w)
    case Step(k, rerun, turn) => StepLoses(disk.flow, k, rerun, turn, w)
    case All(rerun, turns) => AllLoses(disk, rerun, turns, w)
    case FlowCommand(start, rerun, turns) => CommandLoses(disk, start, rerun, turns, w)
    case Clear => ClearLoses(disk.flow, w)
    case ClearOngoing => false
    case RecoverInterrupted(_, _) => false
  }

  lemma {:induction false} OperationLost(disk: Disk, op: Op, w: nat)
    requires Tidy(disk)
    ensures LostAt(Perform(Open(disk), op), w) <==> Loses(disk, op, w)
  {
    hide Settled, Tidy, LostAt, RefreshStaleStates, RunStep, RunAll, RunFlow, ClearStates, Recover, ClearStaleOngoing,
      RefreshLoses, StepLoses, AllLoses, CommandLoses, ClearLoses;
    OpenSettled(disk);
    if !Applicable(disk.flow, op) {
      NothingLost(Open(disk), w);
    } else {
      match op {
        case Refresh(env) => RefreshLost(Open(disk), env, w);
        case Step(k, rerun, turn) => StepLost(Open(disk), k, rerun, turn, w);
        case All(rerun, turns) => AllLost(disk, rerun, turns, w);
        case FlowCommand(start, rerun, turns) => CommandLost(disk, start, rerun, turns, w);
        case Clear => ClearLost(Open(disk), w);
        case ClearOngoing =>
          ClearOngoingIsFullRecovery(Open(disk));
          RecoverLost(Open(disk), {}, "", w);
        case RecoverInterrupted(active, operation) => RecoverLost(Open(disk), active, operation, w);
      }
    }
  }

  lemma {:induction false} RefreshLost(e: Engine, env: Environment, w: nat)
    requires Settled(e) && e.trace == []
    ensures LostAt(RefreshStaleStates(e, env), w) <==> RefreshLoses(e.steps, env, w)
  {
    hide RefreshStaleStates, RefreshWrites, Settled, Held;
    RefreshHolds(e, env, w);
  }

  /** Exactly when a kill loses a triplet: from a disk whose successes all have theirs, an
      operation killed after any number of writes leaves such a disk again if and only if the
      kill does not fall between the removal of a persisted success's files and the write of
      its new state. */
  lemma {:induction false} KillsLoseTriplets(disk: Disk, op: Op, w: nat)
    requires Tidy(disk)
    ensures Tidy(After(disk, KilledIn(op, w))) <==> !Loses(disk, op, w)
  {
    hide Perform, Clean, HasTriplets, Loses;
    OpenIsSafe(disk);
    PerformSafe(Open(disk), op);
    AfterClean(disk, KilledIn(op, w));
    OperationLost(disk, op, w);
    OpenSettled(disk);
    PerformSettled(Open(disk), op);
    SettledIsTidy(Perform(Open(disk), op));
  }

  /** For clearing the states: unless all four files of every step are gone and the states are
      written, no step whose removal has begun may be a success. */
  lemma {:induction false} KilledClears(disk: Disk, w: nat)
    requires Tidy(disk)
    ensures Tidy(After(disk, KilledIn(Clear, w))) <==>
            w > 4 * |disk.flow| || forall j | 0 <= j < |disk.flow| && 4 * j < w :: !disk.flow[j].state.Success?
  {
    hide Tidy, After;
    KillsLoseTriplets(disk, Clear, w);
  }

  /** For a refresh: it must not have begun, or it must be complete. */
  lemma {:induction false} KilledRefreshes(disk: Disk, env: Environment, w: nat)
    requires Tidy(disk)
    ensures Tidy(After(disk, KilledIn(Refresh(env), w))) <==> w == 0 || w >= RefreshWrites(disk.flow, env)
  {
    hide Tidy, After, RefreshWrites;
    KillsLoseTriplets(disk, Refresh(env), w);
  }

  /** No event of the history loses a triplet where it happens. */
  predicate Harmless(disk: Disk, events: seq<Event>)
    decreases |events|
  {
    events == [] ||
    ((events[0].KilledIn? ==> !Loses(disk, events[0].op, events[0].writes))
        && Harmless(After(disk, events[0]), events[1..]))
  }

  /** Over every history with harmless kills each persisted success has its triplet. */
  lemma {:induction false} HarmlessHistoriesKeepTriplets(disk: Disk, events: seq<Event>)
    requires Tidy(disk) && Harmless(disk, events)
    ensures Tidy(Replay(disk, events))
    decreases |events|
  {
    hide Tidy, Loses, After, CrashFree;
    if events != [] {
      match events[0] {
        case Did(_) =>
          assert CrashFree([events[0]]) by { OneEvent(events[0]); }
          SuccessesHaveTriplets(disk, [events[0]]);
          ReplayOne(disk, events[0]);
        case KilledIn(op, w) => KillsLoseTriplets(disk, op, w);
      }
      HarmlessHistoriesKeepTriplets(After(disk, events[0]), events[1..]);
    }
  }

  lemma {:induction false} OneEvent(event: Event)
    requires event.Did?
    ensures CrashFree([event])
  {
  }

  lemma {:induction false} ReplayOne(disk: Disk, event: Event)
    ensures Replay(disk, [event]) == After(disk, event)
  {
    assert [event][1..] == [];
    assert Replay(After(disk, event), []) == After(disk, event);
  }

  /** Once a step's running state is persisted, no kill of its execution costs a triplet. */
  lemma {:induction false} StartedStepLosesNothing(disk: Disk, k: nat, rerun: bool, turn: Turn, w: nat)
    requires Tidy(disk) && k < |disk.flow|
    requires w > RefreshWrites(disk.flow, turn.env) + DownstreamWrites(RefreshedSteps(disk.flow, turn.env), k) + 4
    ensures Tidy(After(disk, KilledIn(Step(k, rerun, turn), w)))
  {
    hide Tidy, After, RefreshLoses, RefreshWrites, DownstreamWrites, LosesInBlock, RefreshedSteps;
    KillsLoseTriplets(disk, Step(k, rerun, turn), w);
  }

  // A wholly current flow that a kill breaks

  function CurrentPair(env: Environment): seq<FlowStep> {
    var first := BuildStepProvenance(env, "prepare", "python", None);
    var second := BuildStepProvenance(env, "elab", "slang", Some(first));
    [FlowStep("prepare", "python", Success, "", None, None, Some(first)),
     FlowStep("elab", "slang", Success, "", None, None, Some(second))]
  }

  lemma {:induction false} PairIsCurrent(env: Environment)
    ensures CurrentPrefix(CurrentPair(env), 2, env) && RefreshedSteps(CurrentPair(env), env) == CurrentPair(env)
    ensures FirstStaleFrom(CurrentPair(env), 0, env) == 2
  {
    hide BuildStepProvenance;
    var steps := CurrentPair(env);
    assert IsCurrent(steps, 0, env) && IsCurrent(steps, 1, env);
    assert Current(steps, env);
    CurrentMeansNoneStale(steps, env);
  }

  lemma {:induction false} ForceBegins(e: Engine, k: nat, turn: Turn)
    requires k < |e.steps|
    ensures MarkDownstream(e, k).trace <= ForceStep(e, k, turn).0.trace
  {
    hide MarkDownstream, Prepare, Execute, ExpectedProvenance, Clearing;
    MarkDownstreamKeepsShape(e, k);
    var marked := MarkDownstream(e, k);
    PrepareKeepsShape(marked, k, turn.marker);
    PrepareTrace(marked, k, turn.marker);
    var begun := Prepare(marked, k, turn.marker);
    ExecuteBehind(begun, Restarted(begun), k, ExpectedProvenance(marked.steps, k, turn.env), turn);
    RestartedBehind(begun);
  }

  /** A kill right after a rerun of the first step has begun to clear what is downstream leaves
      two tracked, current successes, one of them without its triplet; the next run finds
      nothing to do and returns success. */
  lemma {:induction false} KilledRerunLosesTriplet(turn: Turn, turns: seq<Turn>)
    requires |turns| == 2 && Stable(turns, turn.env)
    ensures var steps := CurrentPair(turn.env);
            var disk := Disk(steps, map["prepare" := TRIPLET, "elab" := TRIPLET]);
            var left := Replay(disk, [KilledIn(Step(0, true, turn), 1)]);
            && Tidy(disk) && CurrentPrefix(steps, 2, turn.env)
            && left.flow == steps && !Tidy(left)
            && RunAll(Open(left), false, turns) == (Open(left), Returned(Success))
  {
    hide CurrentPair, Tidy, After, CurrentPrefix, RunAll, FlowSuccess;
    PairLength(turn.env);
    var steps := CurrentPair(turn.env);
    var disk := Disk(steps, map["prepare" := TRIPLET, "elab" := TRIPLET]);
    PairIsCurrent(turn.env);
    PairIsTidy(turn.env);
    var left := After(disk, KilledIn(Step(0, true, turn), 1));
    PairTargets(turn.env);
    PairKilled(turn, disk);
    CurrentFlowRunsNothing(Open(left), turns, turn.env);
    assert [KilledIn(Step(0, true, turn), 1)][1..] == [];
    assert Replay(left, []) == left;
  }

  lemma {:induction false} PairIsTidy(env: Environment)
    ensures Tidy(Disk(CurrentPair(env), map["prepare" := TRIPLET, "elab" := TRIPLET]))
  {
    hide BuildStepProvenance;
    assert "prepare"[0] != "elab"[0];
  }

  lemma {:induction false} PairTargets(env: Environment)
    ensures Targets(CurrentPair(env), 1) == ["elab"] && SuccessNamed(CurrentPair(env), "elab")
  {
    hide BuildStepProvenance;
    var steps := CurrentPair(env);
    assert Targets(steps, 2) == [];
    assert steps[1].name == "elab";
  }

  lemma {:induction false} PairKilled(turn: Turn, disk: Disk)
    requires disk.flow == CurrentPair(turn.env) && Tidy(disk)
    ensures var left := After(disk, KilledIn(Step(0, true, turn), 1)); left.flow == disk.flow && !Tidy(left)
  {
    hide CurrentPair, Tidy, ForceStep, MarkDownstream, Clearing, DownstreamChanges, Targets, SuccessNamed;
    PairIsCurrent(turn.env);
    PairTargets(turn.env);
    var e := Open(disk);
    assert |disk.flow| == 2 by { PairLength(turn.env); }
    assert RefreshStaleStates(e, turn.env) == e;
    DownstreamTrace(e, 0);
    ForceBegins(e, 0, turn);
    ClearingAt(disk, ["elab"], 0);
    assert MarkDownstream(e, 0).trace[0] == Clearing(disk, ["elab"])[0];
    assert After(disk, KilledIn(Step(0, true, turn), 1)) == Clearing(disk, ["elab"])[0];
    assert LosesInBlock(disk.flow, ["elab"], 1) by { assert ["elab"][0] == "elab"; }
    KillsLoseTriplets(disk, Step(0, true, turn), 1);
  }

  lemma {:induction false} PairLength(env: Environment)
    ensures |CurrentPair(env)| == 2
  {
  }
}
