/** The flow engine as the object the original is: step records updated in place, flow.json
    and the QoR files of the step directories as its disk.  Every method is proved against
    the state machine of module Flow. */
module EngineFlowClass {
  import opened Options
  import opened StepProvenance
  import opened Flow
  import opened FlowTheorems
  import opened FlowService

  class EngineFlow {
    var steps: seq<FlowStep>
    var savedFlow: seq<FlowStep>
    var qor: map<string, set<QorFile>>
    /** Every disk that has existed so far, and every handler executed. */
    ghost var trace: seq<Disk>
    ghost var ran: seq<string>

    ghost function View(): Engine
      reads this
    {
      Engine(steps, Disk(savedFlow, qor), trace, ran)
    }

    /** Opening a workspace loads the persisted flow. */
    constructor (disk: Disk)
      ensures View() == Open(disk)
    {
      steps, savedFlow, qor := disk.flow, disk.flow, disk.qor;
      trace, ran := [], [];
    }

    method SaveFlow()
      modifies this
      ensures View() == Flow.Save(old(View()))
    {
      savedFlow := steps;
      trace := trace + [Disk(savedFlow, qor)];
    }

    method UnlinkQor(name: string, file: QorFile)
      modifies this
      ensures View() == Flow.Unlink(old(View()), name, file)
    {
      var files := if name in qor then qor[name] else {};
      qor := qor[name := files - {file}];
      trace := trace + [Disk(savedFlow, qor)];
    }

    method PutQorFile(name: string, file: QorFile)
      modifies this
      ensures View() == Flow.Put(old(View()), name, file)
    {
      var files := if name in qor then qor[name] else {};
      qor := qor[name := files + {file}];
      trace := trace + [Disk(savedFlow, qor)];
    }

    method ClearStepQor(name: string)
      modifies this
      ensures View() == Flow.ClearQor(old(View()), name)
    {
      UnlinkQor(name, Metrics);
      UnlinkQor(name, Summary);
      UnlinkQor(name, Hotspots);
      UnlinkQor(name, Detail);
    }

    /** Publishes the first `count` files of the triplet. */
    method PublishStepQor(name: string, count: nat)
      modifies this
      ensures View() == Flow.PutQor(old(View()), name, count)
    {
      if count > 0 { PutQorFile(name, Metrics); }
      if count > 1 { PutQorFile(name, Summary); }
      if count > 2 { PutQorFile(name, Hotspots); }
    }

    method GetStep(name: string) returns (index: Option<nat>)
      ensures index == StepIndex(steps, name, 0)
    {
      var i := 0;
      while i < |steps|
        invariant 0 <= i <= |steps|
        invariant StepIndex(steps, name, 0) == StepIndex(steps, name, i)
      {
        if steps[i].name == name { return Some(i); }
        i := i + 1;
      }
      return None;
    }

    method MarkStepStale(i: nat, reason: string, from: string) returns (changed: bool)
      requires i < |steps|
      modifies this
      ensures View() == Flow.MarkAt(old(View()), i, reason, from)
      ensures changed <==> steps != old(steps)
    {
      var step := steps[i];
      if step.state.Ongoing? { return false; }
      ClearStepQor(step.name);
      if step.state.Unstart? && step.provenance.None? && step.stale.None? {
        assert steps[i := step] == steps;
        return false;
      }
      var alreadyStale := step.state.Unstart? && step.stale == Some(StaleMark(reason, from)) && step.provenance.None?;
      if alreadyStale {
        assert steps[i := step] == steps;
        return false;
      }
      steps := steps[i := step.(state := Unstart, runtime := "", stale := Some(StaleMark(reason, from)),
        provenance := None)];
      assert steps[i] != old(steps)[i];
      return true;
    }

    /** One pass that carries the upstream record along and, once a step is stale, takes the
        rest of the flow down; the specification instead asks every step on its own. */
    method RefreshStaleStates(env: Environment) returns (changed: bool)
      requires ValidFlow(steps)
      modifies this
      ensures View() == Flow.RefreshStaleStates(old(View()), env)
      ensures changed <==> steps != old(steps)
    {
      hide BuildStepProvenance, IsStale, MarkStaleSuffix, MarkAt, Flow.RefreshStaleStates;
      ghost var e := View();
      ghost var s := FirstStaleFrom(steps, 0, env);
      var upstream: Option<Provenance> := None;
      var staleFrom := "";
      var trackedFlow := exists j | 0 <= j < |steps| :: steps[j].provenance.Some?;
      changed := false;
      var i := 0;
      while i < |steps|
        invariant 0 <= i <= |steps| == |e.steps|
        invariant steps[i..] == e.steps[i..]
        invariant changed <==> steps != e.steps
        invariant staleFrom == "" ==> View() == e && i <= s && upstream == UpstreamProvenance(e.steps, i)
        invariant staleFrom != "" ==>
                    && s < i && staleFrom == e.steps[s].name
                    && MarkFrom(View(), i, Reason("upstream step ", staleFrom, " is stale"), staleFrom)
                        == MarkStaleSuffix(e, s, env)
      {
        var step := steps[i];
        assert step == steps[i..][0] == e.steps[i..][0] == e.steps[i];
        label Before:
        if staleFrom != "" {
          var marked := MarkStepStale(i, Reason("upstream step ", staleFrom, " is stale"), staleFrom);
          MarkAtKeepsRest(e.steps, old@Before(View()), i, Reason("upstream step ", staleFrom, " is stale"), staleFrom);
          changed := changed || marked;
        } else if !step.state.Success? {
          NotStale(e.steps, i, env);
          upstream := None;
        } else {
          var expected := BuildStepProvenance(env, step.name, step.tool, upstream);
          if step.provenance.None? {
            if trackedFlow {
              StaleHere(e, i, env, "step result has no provenance");
              staleFrom := step.name;
              var marked := MarkStepStale(i, "step result has no provenance", staleFrom);
              MarkAtKeepsRest(e.steps, e, i, "step result has no provenance", staleFrom);
              changed := changed || marked;
            } else {
              NotStale(e.steps, i, env);
            }
          } else if step.provenance.value.signature != expected.signature {
            StaleHere(e, i, env, ProvenanceChangeReason(step.provenance.value, expected));
            staleFrom := step.name;
            var marked := MarkStepStale(i, ProvenanceChangeReason(step.provenance.value, expected), staleFrom);
            MarkAtKeepsRest(e.steps, e, i, ProvenanceChangeReason(step.provenance.value, expected), staleFrom);
            changed := changed || marked;
          } else {
            NotStale(e.steps, i, env);
            upstream := step.provenance;
          }
        }
        i := i + 1;
      }
      RefreshUnfolds(e, env);
      if changed {
        SaveFlow();
      }
    }

    method FindUpstreamProvenance(name: string) returns (upstream: Option<Provenance>)
      requires ValidFlow(steps)
      requires exists k | 0 <= k < |steps| :: steps[k].name == name
      ensures forall k | 0 <= k < |steps| && steps[k].name == name :: upstream == UpstreamProvenance(steps, k)
    {
      upstream := None;
      var i := 0;
      while i < |steps| && steps[i].name != name
        invariant 0 <= i <= |steps|
        invariant upstream == UpstreamProvenance(steps, i)
        invariant forall j | 0 <= j < i :: steps[j].name != name
      {
        upstream := if steps[i].state.Success? && steps[i].provenance.Some? then steps[i].provenance else None;
        i := i + 1;
      }
    }

    method MarkDownstreamStale(name: string, ghost k: nat)
      requires ValidFlow(steps) && k < |steps| && steps[k].name == name
      modifies this
      ensures View() == Flow.MarkDownstream(old(View()), k)
      ensures SameNames(old(steps), steps)
    {
      hide MarkAt;
      ghost var e := View();
      var reason := "upstream step is being rerun";
      MarkFromKeepsShape(e, k + 1, reason, name);
      var found, changed, i := false, false, 0;
      while i < |steps|
        invariant 0 <= i <= |steps| == |e.steps|
        invariant steps[i..] == e.steps[i..]
        invariant found <==> k < i
        invariant i <= k ==> View() == e
        invariant k < i ==> MarkFrom(View(), i, reason, name) == MarkFrom(e, k + 1, reason, name)
        invariant changed <==> steps != e.steps
      {
        assert steps[i] == steps[i..][0] == e.steps[i..][0] == e.steps[i];
        label Before:
        if steps[i].name == name {
          found := true;
        } else if found {
          var marked := MarkStepStale(i, reason, name);
          MarkAtKeepsRest(e.steps, old@Before(View()), i, reason, name);
          changed := changed || marked;
        }
        i := i + 1;
      }
      if changed {
        SaveFlow();
      }
    }

    method StartStepOn(k: nat, marker: Option<Marker>)
      requires k < |steps|
      modifies this
      ensures View() == Flow.StartStep(old(View()), k, marker)
    {
      steps := steps[k := steps[k].(state := Ongoing, marker := marker)];
      SaveFlow();
    }

    method FinishStepOn(k: nat, state: StepState, elapsed: string)
      requires k < |steps|
      modifies this
      ensures View() == Flow.FinishStep(old(View()), k, state, elapsed)
    {
      steps := steps[k := steps[k].(state := state, runtime := elapsed, marker := None)];
      SaveFlow();
    }

    method FailStepOn(k: nat, elapsed: string)
      requires k < |steps|
      modifies this
      ensures View() == Flow.FailStep(old(View()), k, elapsed)
    {
      FinishStepOn(k, Incomplete, elapsed);
      steps := steps[k := steps[k].(provenance := None)];
      SaveFlow();
    }

    /** The guarded block of `run_step`. */
    method ExecuteHandler(k: nat, provenance: Provenance, turn: Turn) returns (result: RunResult)
      requires k < |steps|
      modifies this
      ensures (View(), result) == Flow.Execute(old(View()), k, provenance, turn)
    {
      var name := steps[k].name;
      ran := ran + [name];
      match turn.outcome {
        case Finished(ok, output) =>
          PublishStepQor(name, 3);
          if ok {
            steps := steps[k := steps[k].(provenance := Some(provenance.(outputFingerprint := output)))];
            FinishStepOn(k, Success, turn.elapsed);
            return Returned(Success);
          }
          FailStepOn(k, turn.elapsed);
          return Returned(Incomplete);
        case Failed(count, sourceChanged, failureQor) =>
          PublishStepQor(name, count);
          if sourceChanged && failureQor {
            PublishStepQor(name, 3);
          } else {
            ClearStepQor(name);
          }
          FailStepOn(k, turn.elapsed);
          return Returned(Incomplete);
        case Interrupted(count) =>
          PublishStepQor(name, count);
          ClearStepQor(name);
          FailStepOn(k, turn.elapsed);
          return Reraised;
      }
    }

    /** `run_step` once the step is known to execute. */
    method ForceStepOn(name: string, k: nat, turn: Turn) returns (result: RunResult)
      requires ValidFlow(steps) && k < |steps| && steps[k].name == name
      modifies this
      ensures (View(), result) == Flow.ForceStep(old(View()), k, turn)
    {
      hide BuildStepProvenance, Execute, MarkFrom, ClearQor;
      ghost var e := View();
      MarkFromKeepsShape(e, k + 1, "upstream step is being rerun", name);
      MarkDownstreamStale(name, k);
      var upstream := FindUpstreamProvenance(name);
      var provenance := BuildStepProvenance(turn.env, steps[k].name, steps[k].tool, upstream);
      steps := steps[k := steps[k].(stale := None)];
      ClearStepQor(name);
      StartStepOn(k, turn.marker);
      result := ExecuteHandler(k, provenance, turn);
    }

    method RunStep(name: string, rerun: bool, turn: Turn) returns (result: RunResult)
      requires ValidFlow(steps)
      modifies this
      ensures SameNames(old(steps), steps) && ValidFlow(steps)
      ensures match StepIndex(old(steps), name, 0)
              case None => View() == old(View()) && result == Returned(Invalid)
              case Some(k) => (View(), result) == Flow.RunStep(old(View()), k, rerun, turn)
    {
      hide ForceStep, Flow.RefreshStaleStates;
      ghost var e := View();
      var index := GetStep(name);
      if index.None? { return Returned(Invalid); }
      var k := index.value;
      RunStepKeepsShape(e, k, rerun, turn);
      RefreshKeepsShape(e, turn.env);
      var _ := RefreshStaleStates(turn.env);
      if !rerun && steps[k].state.Success? { return Returned(Success); }
      result := ForceStepOn(name, k, turn);
    }

    method ClearStates()
      modifies this
      ensures View() == Flow.ClearStates(old(View()))
    {
      hide Flow.ClearQor;
      ghost var e := View();
      var i := 0;
      while i < |steps|
        invariant 0 <= i <= |steps|
        invariant ClearFrom(View(), i) == ClearFrom(e, 0)
      {
        ClearStepQor(steps[i].name);
        steps := steps[i := steps[i].(state := Unstart, runtime := "", stale := None, marker := None,
          provenance := None)];
        i := i + 1;
      }
      SaveFlow();
    }

    method RunAll(rerun: bool, turns: seq<Turn>) returns (result: RunResult)
      requires ValidFlow(steps) && |turns| == |steps|
      modifies this
      ensures (View(), result) == Flow.RunAll(old(View()), rerun, turns)
    {
      hide Flow.RunStep, Flow.ClearStates;
      CleanSlateIsValid(View());
      if rerun { ClearStates(); }
      ghost var e := View();
      var k := 0;
      while k < |steps|
        invariant 0 <= k <= |steps| == |turns|
        invariant ValidFlow(steps)
        invariant RunFrom(View(), k, rerun, turns) == RunFrom(e, 0, rerun, turns)
      {
        DistinctIndex(steps, k, 0);
        result := RunStep(steps[k].name, rerun, turns[k]);
        if result != Returned(Success) { return; }
        k := k + 1;
      }
      return Returned(Success);
    }

    method ClearStaleOngoingStates() returns (changed: bool)
      modifies this
      ensures View() == Flow.ClearStaleOngoing(old(View()))
      ensures changed <==> steps != old(steps)
    {
      ghost var e := View();
      changed := false;
      var i := 0;
      while i < |steps|
        invariant 0 <= i <= |steps| == |e.steps|
        invariant steps[i..] == e.steps[i..]
        invariant ClearOngoingFrom(View(), i) == ClearOngoingFrom(e, 0)
        invariant changed <==> steps != e.steps
      {
        var step := steps[i];
        assert step == steps[i..][0] == e.steps[i..][0] == e.steps[i];
        if step.state.Ongoing? {
          steps := steps[i := step.(state := Incomplete, marker := None)];
          ClearStepQor(step.name);
          assert steps[i] != e.steps[i];
          changed := true;
        }
        assert steps[i..][1..] == e.steps[i..][1..];
        i := i + 1;
      }
      if changed {
        SaveFlow();
      }
    }

    method RecoverInterrupted(active: set<string>, operation: string) returns (recovered: seq<Recovered>)
      modifies this
      ensures View() == Flow.Recover(old(View()), active, operation)
      ensures recovered == RecoveredSteps(old(steps), |old(steps)|, active, operation)
      ensures |recovered| > 0 <==> steps != old(steps)
    {
      hide Recoverable, Abandoned, RecoveredOperation;
      ghost var e := View();
      recovered := [];
      var i := 0;
      while i < |steps|
        invariant 0 <= i <= |steps| == |e.steps|
        invariant steps[i..] == e.steps[i..]
        invariant RecoverFrom(View(), i, active, operation) == RecoverFrom(e, 0, active, operation)
        invariant |recovered| > 0 <==> steps != e.steps
        invariant recovered == RecoveredSteps(e.steps, i, active, operation)
      {
        var step := steps[i];
        assert step == steps[i..][0] == e.steps[i..][0] == e.steps[i];
        RecoverableIsAbandoned(step, active, operation);
        if Recoverable(step, active, operation) {
          steps := steps[i := step.(state := Incomplete, marker := None)];
          ClearStepQor(step.name);
          RecoverableIsOngoing(step, active, operation);
          assert steps[i].state.Incomplete? && e.steps[i].state.Ongoing?;
          var operationId := OperationId(step);
          if operationId == "" { operationId := "legacy-interrupted-" + step.name + "-" + step.tool; }
          OperationReported(step);
          recovered := recovered + [Recovered(step.name, step.tool, operationId)];
        }
        assert steps[i..][1..] == e.steps[i..][1..];
        i := i + 1;
      }
      if recovered != [] {
        SaveFlow();
      }
    }
  }

  /** What recovery reports of a step; an unmarked step gets an operation name of its own. */
  datatype Recovered = Recovered(step: string, tool: string, operationId: string)

  ghost function RecoveredOperation(step: FlowStep): string {
    if RuntimeMarked(step) then step.marker.value.operationId
    else "legacy-interrupted-" + step.name + "-" + step.tool
  }

  lemma {:induction false} OperationReported(step: FlowStep)
    ensures RecoveredOperation(step) ==
            if OperationId(step) != "" then OperationId(step) else "legacy-interrupted-" + step.name + "-" + step.tool
  {
  }

  /** The recovered steps among the first `i`, in flow order. */
  ghost function RecoveredSteps(steps: seq<FlowStep>, i: nat, active: set<string>, operation: string): seq<Recovered>
    requires i <= |steps|
  {
    if i == 0 then []
    else
      var step := steps[i-1];
      RecoveredSteps(steps, i - 1, active, operation)
      + if Abandoned(step, active, operation) then [Recovered(step.name, step.tool, RecoveredOperation(step))] else []
  }

  lemma {:induction false} RecoverableIsOngoing(step: FlowStep, active: set<string>, operation: string)
    requires Recoverable(step, active, operation)
    ensures step.state.Ongoing?
  {
  }

  lemma {:induction false} CleanSlateIsValid(e: Engine)
    ensures SameNames(e.steps, Flow.ClearStates(e).steps)
  {
    ClearFromKeepsShape(e, 0);
  }

  lemma {:induction false} DistinctIndex(steps: seq<FlowStep>, k: nat, i: nat)
    requires ValidFlow(steps) && i <= k < |steps|
    ensures StepIndex(steps, steps[k].name, i) == Some(k)
    decreases k - i
  {
    if i < k {
      DistinctIndex(steps, k, i + 1);
    }
  }

  /** The first stale step met by the pass is where the specification starts staling. */
  lemma {:induction false} StaleHere(e: Engine, i: nat, env: Environment, reason: string)
    requires i < |e.steps| && i <= FirstStaleFrom(e.steps, 0, env)
    requires e.steps[i].state.Success?
    requires if e.steps[i].provenance.None? then Tracked(e.steps) && reason == "step result has no provenance"
             else !CarriesCurrentSignature(e.steps, i, env)
                  && reason == ProvenanceChangeReason(e.steps[i].provenance.value, ExpectedProvenance(e.steps, i, env))
    ensures FirstStaleFrom(e.steps, 0, env) == i
    ensures var from := e.steps[i].name;
            && |MarkAt(e, i, reason, from).steps| == |e.steps|
            && MarkStaleSuffix(e, i, env) ==
               MarkFrom(MarkAt(e, i, reason, from), i + 1, Reason("upstream step ", from, " is stale"), from)
  {
    hide BuildStepProvenance, ProvenanceChangeReason, MarkStale, ClearQor, MarkFrom;
    assert IsStale(e.steps, i, env);
    MarkAtEffect(e, i, reason, e.steps[i].name);
  }

  lemma {:induction false} NotStale(steps: seq<FlowStep>, i: nat, env: Environment)
    requires i < |steps| && i <= FirstStaleFrom(steps, 0, env)
    requires steps[i].state.Success? ==>
               if steps[i].provenance.None? then !Tracked(steps) else CarriesCurrentSignature(steps, i, env)
    ensures i < FirstStaleFrom(steps, 0, env)
  {
    assert !IsStale(steps, i, env);
  }

  lemma {:induction false} RefreshUnfolds(e: Engine, env: Environment)
    ensures var s := FirstStaleFrom(e.steps, 0, env);
            Flow.RefreshStaleStates(e, env) ==
            if s == |e.steps| then e else SaveIfChanged(e, MarkStaleSuffix(e, s, env))
  {
  }

  /** Marking position `i` leaves the unvisited rest alone and only adds to the changes. */
  lemma {:induction false} MarkAtKeepsRest(original: seq<FlowStep>, e: Engine, i: nat, reason: string, from: string)
    requires i < |original| == |e.steps| && e.steps[i..] == original[i..]
    ensures var marked := MarkAt(e, i, reason, from).steps;
            && |marked| == |original|
            && marked[i+1..] == original[i+1..]
            && (marked != original <==> e.steps != original || marked != e.steps)
  {
    MarkAtEffect(e, i, reason, from);
    var marked := MarkAt(e, i, reason, from).steps;
    assert e.steps[i] == e.steps[i..][0] == original[i..][0] == original[i];
    assert e.steps[i+1..] == e.steps[i..][1..] == original[i..][1..] == original[i+1..];
    StillOneChange(original, e.steps, marked, i);
  }

  /** Changing one more position keeps an earlier difference. */
  lemma {:induction false} StillOneChange(original: seq<FlowStep>, before: seq<FlowStep>, after: seq<FlowStep>, i: nat)
    requires i < |original| == |before| == |after|
    requires before[i] == original[i] && after == before[i := after[i]]
    ensures after != original <==> before != original || after != before
  {
    if after == original {
      forall j | 0 <= j < |before| ensures before[j] == original[j] {
        assert j != i ==> after[j] == before[j];
      }
      assert before == original;
    }
  }
}
