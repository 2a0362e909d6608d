/** Currency: what a refresh establishes, what a skip may rely on, and exactly which
    handlers a whole run executes. */
module FlowTheorems {
  import opened Options
  import opened StepProvenance
  import opened Flow

  lemma {:induction false} MarkFromEffect(e: Engine, i: nat, reason: string, from: string)
    requires i <= |e.steps|
    ensures var marked := MarkFrom(e, i, reason, from).steps;
            && |marked| == |e.steps|
            && (forall j | 0 <= j < i :: marked[j] == e.steps[j])
            && (forall j | i <= j < |e.steps| :: marked[j] == MarkStale(e.steps[j], reason, from))
    decreases |e.steps| - i
  {
    if i < |e.steps| {
      MarkFromEffect(MarkAt(e, i, reason, from), i + 1, reason, from);
    }
  }

  /** The steps a refresh leaves behind: nothing changes before the first stale step, and
      there is no success from there on. */
  function RefreshedSteps(steps: seq<FlowStep>, env: Environment): (r: seq<FlowStep>)
    ensures SameNames(steps, r)
    ensures var s := FirstStaleFrom(steps, 0, env);
            && (forall j | 0 <= j < s :: r[j] == steps[j])
            && (forall j | s <= j < |steps| :: !r[j].state.Success?)
            && (forall j | s <= j < |steps| && r[j].provenance.Some? :: r[j] == steps[j])
  {
    var s := FirstStaleFrom(steps, 0, env);
    if s == |steps| then steps
    else
      var from := steps[s].name;
      seq(|steps|, j requires 0 <= j < |steps| =>
        if j < s then steps[j]
        else if j == s then MarkStale(steps[j], StaleReason(steps, s, env), from)
        else MarkStale(steps[j], Reason("upstream step ", from, " is stale"), from))
  }

  lemma {:induction false} MarkAtEffect(e: Engine, i: nat, reason: string, from: string)
    requires i < |e.steps|
    ensures MarkAt(e, i, reason, from).steps == e.steps[i := MarkStale(e.steps[i], reason, from)]
    ensures MarkAt(e, i, reason, from).ran == e.ran
  {
  }

  lemma {:induction false} MarkStaleSuffixEffect(e: Engine, s: nat, env: Environment)
    requires s == FirstStaleFrom(e.steps, 0, env) < |e.steps|
    ensures MarkStaleSuffix(e, s, env).steps == RefreshedSteps(e.steps, env)
    ensures MarkStaleSuffix(e, s, env).ran == e.ran
  {
    var from := e.steps[s].name;
    MarkAtEffect(e, s, StaleReason(e.steps, s, env), from);
    var marked := MarkAt(e, s, StaleReason(e.steps, s, env), from);
    MarkFromEffect(marked, s + 1, Reason("upstream step ", from, " is stale"), from);
    MarkFromKeepsShape(marked, s + 1, Reason("upstream step ", from, " is stale"), from);
  }

  lemma {:induction false} RefreshEffect(e: Engine, env: Environment)
    ensures RefreshStaleStates(e, env).steps == RefreshedSteps(e.steps, env)
    ensures RefreshStaleStates(e, env).ran == e.ran
  {
    var s := FirstStaleFrom(e.steps, 0, env);
    if s < |e.steps| {
      MarkStaleSuffixEffect(e, s, env);
    }
  }

  /** Every recorded success of a flow carries the signature its inputs would get now. */
  predicate Current(steps: seq<FlowStep>, env: Environment) {
    && (Tracked(steps) ==> forall i | 0 <= i < |steps| && steps[i].state.Success? :: steps[i].provenance.Some?)
    && (forall i | 0 <= i < |steps| && steps[i].state.Success? && steps[i].provenance.Some? ::
          CarriesCurrentSignature(steps, i, env))
  }

  lemma {:induction false} CurrentMeansNoneStale(steps: seq<FlowStep>, env: Environment)
    ensures Current(steps, env) <==> FirstStaleFrom(steps, 0, env) == |steps|
  {
    var s := FirstStaleFrom(steps, 0, env);
    if s == |steps| {
      forall i | 0 <= i < |steps| && steps[i].state.Success?
        ensures if steps[i].provenance.None? then !Tracked(steps) else CarriesCurrentSignature(steps, i, env)
      {
        assert !IsStale(steps, i, env);
      }
    }
  }

  lemma {:induction false} RefreshedIsCurrent(steps: seq<FlowStep>, env: Environment)
    ensures Current(RefreshedSteps(steps, env), env)
  {
    var s := FirstStaleFrom(steps, 0, env);
    var steps' := RefreshedSteps(steps, env);
    assert Tracked(steps') ==> Tracked(steps) by {
      if Tracked(steps') {
        var i :| 0 <= i < |steps'| && steps'[i].provenance.Some?;
        assert steps[i].provenance.Some?;
      }
    }
    forall i | 0 <= i < |steps'| && steps'[i].state.Success?
      ensures if steps'[i].provenance.None? then !Tracked(steps') else CarriesCurrentSignature(steps', i, env)
    {
      assert i < s && !IsStale(steps, i, env);
      assert UpstreamProvenance(steps', i) == UpstreamProvenance(steps, i);
    }
  }

  /** After a refresh, in any environment: either no step has provenance or every success
      has one, every recorded signature is the one recomputed from that step's upstream,
      and a second refresh changes nothing, in memory or on disk. */
  lemma {:induction false} RefreshEstablishesCurrency(e: Engine, env: Environment)
    ensures Current(RefreshStaleStates(e, env).steps, env)
    ensures RefreshStaleStates(RefreshStaleStates(e, env), env) == RefreshStaleStates(e, env)
  {
    RefreshEffect(e, env);
    RefreshedIsCurrent(e.steps, env);
    CurrentMeansNoneStale(RefreshStaleStates(e, env).steps, env);
  }

  /** Whenever a run skips a step's handler, in whatever environment and from whatever
      state, the flow is current as a whole; in a tracked flow the skipped result carries
      the signature recomputed from today's facts and its upstream result. */
  lemma {:induction false} SkippedResultIsCurrent(e: Engine, k: nat, rerun: bool, turn: Turn)
    requires k < |e.steps|
    ensures var (after, result) := RunStep(e, k, rerun, turn);
            after.ran == e.ran ==>
              && |after.steps| == |e.steps|
              && !rerun && result == Returned(Success)
              && after.steps[k].state.Success?
              && Current(after.steps, turn.env)
              && (Tracked(after.steps) ==> CarriesCurrentSignature(after.steps, k, turn.env))
              && (forall i | 0 <= i < k && after.steps[i].state.Success? && Tracked(after.steps) ::
                    CarriesCurrentSignature(after.steps, i, turn.env))
  {
    RefreshEstablishesCurrency(e, turn.env);
    RefreshKeepsShape(e, turn.env);
    var refreshed := RefreshStaleStates(e, turn.env);
    MarkFromKeepsShape(refreshed, k + 1, "upstream step is being rerun", refreshed.steps[k].name);
  }

  /** With a collision-free digest the skipped result was computed for these very facts:
      whatever environment and upstream produced its signature agree with today's. */
  lemma {:induction false} SkippedResultHasTodaysFacts(e: Engine, k: nat, turn: Turn, env0: Environment,
                                                       up0: Option<Provenance>, tool0: string)
    requires k < |e.steps|
    requires RunStep(e, k, false, turn).0.ran == e.ran
    requires var steps' := RunStep(e, k, false, turn).0.steps;
             |steps'| == |e.steps| && steps'[k].provenance.Some?
             && steps'[k].provenance.value.signature == Signature(env0, e.steps[k].name, tool0, up0)
    requires env0.digest == turn.env.digest && Injective(env0.digest)
    ensures tool0 == e.steps[k].tool
    ensures SameStepFacts(env0, turn.env, e.steps[k].name)
    ensures SameUpstream(up0, UpstreamProvenance(RunStep(e, k, false, turn).0.steps, k))
  {
    SkippedResultIsCurrent(e, k, false, turn);
    RunStepKeepsShape(e, k, false, turn);
    var steps' := RunStep(e, k, false, turn).0.steps;
    assert Tracked(steps');
    SignatureIdentifiesFacts(env0, e.steps[k].name, tool0, up0,
                             turn.env, steps'[k].name, steps'[k].tool, UpstreamProvenance(steps', k));
  }

  // One step

  predicate Succeeds(turn: Turn) {
    turn.outcome.Finished? && turn.outcome.ok
  }

  /** What executing step `k` of refreshed steps `before` leaves behind: the same upstream,
      no success and no new provenance downstream, and a step that is a success, signed
      for its upstream, exactly when its handler succeeded. */
  predicate Executed(before: seq<FlowStep>, k: nat, turn: Turn, after: seq<FlowStep>)
    requires k < |before| == |after|
  {
    && after[..k] == before[..k]
    && (forall i | k < i < |before| :: !after[i].state.Success?)
    && (forall i | k < i < |before| && after[i].provenance.Some? :: after[i] == before[i])
    && (Succeeds(turn) <==> after[k].state.Success?)
    && (Succeeds(turn) ==> CarriesCurrentSignature(after, k, turn.env))
    && (!Succeeds(turn) ==> after[k].provenance.None?)
  }

  lemma {:induction false} PrepareEffect(e: Engine, k: nat, marker: Option<Marker>)
    requires k < |e.steps|
    ensures var begun := Prepare(e, k, marker);
            && begun.ran == e.ran
            && begun.steps == e.steps[k := e.steps[k].(stale := None, state := Ongoing, marker := marker)]
  {
  }

  lemma {:induction false} ExecuteEffect(e: Engine, k: nat, provenance: Provenance, turn: Turn)
    requires k < |e.steps|
    ensures var (after, result) := Execute(e, k, provenance, turn);
            && (Succeeds(turn) <==> result == Returned(Success))
            && (Succeeds(turn) <==> after.steps[k].state.Success?)
            && (Succeeds(turn) ==>
                  after.steps[k].provenance == Some(provenance.(outputFingerprint := turn.outcome.output)))
            && (!Succeeds(turn) ==> after.steps[k].provenance.None?)
  {
  }

  /** Downstream marked stale, the step itself replaced by its result. */
  lemma {:induction false} ExecutedFromParts(before: seq<FlowStep>, k: nat, turn: Turn, marked: seq<FlowStep>,
                                             after: seq<FlowStep>,
                          reason: string, from: string)
    requires k < |before| == |marked| == |after|
    requires forall i | 0 <= i <= k :: marked[i] == before[i]
    requires forall i | k < i < |before| :: marked[i] == MarkStale(before[i], reason, from)
    requires forall i | 0 <= i < |before| && i != k :: after[i] == marked[i]
    requires after[k].name == before[k].name && after[k].tool == before[k].tool
    requires Succeeds(turn) <==> after[k].state.Success?
    requires Succeeds(turn) ==>
               after[k].provenance ==
               Some(ExpectedProvenance(marked, k, turn.env).(outputFingerprint := turn.outcome.output))
    requires !Succeeds(turn) ==> after[k].provenance.None?
    ensures SameNames(before, after)
    ensures Executed(before, k, turn, after)
  {
    assert UpstreamProvenance(after, k) == UpstreamProvenance(marked, k);
    assert after[..k] == before[..k];
  }

  lemma {:induction false} ForceStepEffect(e: Engine, k: nat, turn: Turn)
    requires k < |e.steps|
    ensures var (after, result) := ForceStep(e, k, turn);
            && SameNames(e.steps, after.steps)
            && Executed(e.steps, k, turn, after.steps)
            && after.ran == e.ran + [e.steps[k].name]
            && (Succeeds(turn) <==> result == Returned(Success))
  {
    hide Execute, Prepare, Executed;
    var reason := "upstream step is being rerun";
    MarkFromEffect(e, k + 1, reason, e.steps[k].name);
    MarkFromKeepsShape(e, k + 1, reason, e.steps[k].name);
    var marked := MarkDownstream(e, k);
    var expected := ExpectedProvenance(marked.steps, k, turn.env);
    PrepareEffect(marked, k, turn.marker);
    var begun := Prepare(marked, k, turn.marker);
    ExecuteEffect(begun, k, expected, turn);
    var (after, result) := Execute(begun, k, expected, turn);
    assert (after, result) == ForceStep(e, k, turn);
    ExecutedFromParts(e.steps, k, turn, marked.steps, after.steps, reason, e.steps[k].name);
  }

  /** A skipped step is only refreshed; an executed one has the effect described above. */
  lemma {:induction false} RunStepEffect(e: Engine, k: nat, rerun: bool, turn: Turn)
    requires k < |e.steps|
    ensures var refreshed := RefreshedSteps(e.steps, turn.env);
            var (after, result) := RunStep(e, k, rerun, turn);
            if rerun || !refreshed[k].state.Success? then
              && SameNames(e.steps, after.steps)
              && Executed(refreshed, k, turn, after.steps)
              && after.ran == e.ran + [e.steps[k].name]
              && (Succeeds(turn) <==> result == Returned(Success))
            else
              after == RefreshStaleStates(e, turn.env) && result == Returned(Success)
  {
    hide ForceStep, RefreshedSteps, Executed;
    RefreshEffect(e, turn.env);
    if rerun || !RefreshedSteps(e.steps, turn.env)[k].state.Success? {
      ForceStepEffect(RefreshStaleStates(e, turn.env), k, turn);
    }
  }
}
