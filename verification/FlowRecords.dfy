/** What the operations leave behind in every single record and step directory. */
module FlowRecords {
  import opened Options
  import opened StepProvenance
  import opened Flow
  import opened FlowTheorems
  import opened FlowCrash

  // Staled steps

  /** A staled step loses its result and says why.  A running one is left alone; one that has
      no result is only cleared of files; and so is one that says the same already. */
  ghost predicate Staled(before: FlowStep, after: FlowStep, reason: string, from: string) {
    if before.state.Ongoing? || (before.state.Unstart? && before.provenance.None? && before.stale.None?)
      then after == before
    else
      var told := before.state.Unstart? && before.provenance.None? && before.stale == Some(StaleMark(reason, from));
      after == FlowStep(before.name, before.tool, Unstart, if told then before.runtime else "",
                        Some(StaleMark(reason, from)), before.marker, None)
  }

  /** The suffix from `i` on is staled with its files, and everything else is left alone. */
  ghost predicate SuffixStaled(before: Engine, after: Engine, i: nat, reason: string, from: string) {
    && |after.steps| == |before.steps|
    && (forall j | 0 <= j < |before.steps| ::
          if j < i then
            && after.steps[j] == before.steps[j]
            && Files(after.disk, before.steps[j].name) == Files(before.disk, before.steps[j].name)
          else
            && Staled(before.steps[j], after.steps[j], reason, from)
            && Files(after.disk, before.steps[j].name) ==
               if before.steps[j].state.Ongoing? then Files(before.disk, before.steps[j].name) else {})
  }

  lemma {:induction false} ClearQorFiles(e: Engine, name: string)
    ensures var after := ClearQor(e, name);
            && Files(after.disk, name) == {} && after.disk.flow == e.disk.flow
            && forall n | n != name :: Files(after.disk, n) == Files(e.disk, n)
  {
    NoFileLeft(Files(e.disk, name));
  }

  lemma {:induction false} MarkAtRecords(e: Engine, i: nat, reason: string, from: string)
    requires i < |e.steps|
    ensures var after := MarkAt(e, i, reason, from);
            && |after.steps| == |e.steps| && after.disk.flow == e.disk.flow
            && (forall j | 0 <= j < |e.steps| && j != i :: after.steps[j] == e.steps[j])
            && Staled(e.steps[i], after.steps[i], reason, from)
            && Files(after.disk, e.steps[i].name) ==
               (if e.steps[i].state.Ongoing? then Files(e.disk, e.steps[i].name) else {})
            && forall n | n != e.steps[i].name :: Files(after.disk, n) == Files(e.disk, n)
  {
    hide ClearQor, Files;
    ClearQorFiles(e, e.steps[i].name);
  }

  lemma {:induction false} MarkFromRecords(e: Engine, i: nat, reason: string, from: string)
    requires i <= |e.steps| && ValidFlow(e.steps)
    ensures SuffixStaled(e, MarkFrom(e, i, reason, from), i, reason, from)
    ensures MarkFrom(e, i, reason, from).disk.flow == e.disk.flow
    decreases |e.steps| - i
  {
    hide MarkAt, Staled, Files;
    if i < |e.steps| {
      MarkAtRecords(e, i, reason, from);
      MarkAtEffect(e, i, reason, from);
      var next := MarkAt(e, i, reason, from);
      forall j | 0 <= j < |e.steps| ensures next.steps[j].name == e.steps[j].name {
      }
      MarkFromRecords(next, i + 1, reason, from);
    }
  }

  lemma {:induction false} MarkDownstreamRecords(e: Engine, k: nat)
    requires k < |e.steps| && ValidFlow(e.steps)
    ensures SuffixStaled(e, MarkDownstream(e, k), k + 1, "upstream step is being rerun", e.steps[k].name)
  {
    hide MarkFrom, Staled, Files;
    MarkFromRecords(e, k + 1, "upstream step is being rerun", e.steps[k].name);
    SavedFiles(e, MarkFrom(e, k + 1, "upstream step is being rerun", e.steps[k].name));
  }

  lemma {:induction false} SavedFiles(before: Engine, after: Engine)
    ensures var saved := SaveIfChanged(before, after);
            && saved.steps == after.steps
            && forall n :: Files(saved.disk, n) == Files(after.disk, n)
  {
  }

  // A refresh

  /** Which of the three fingerprints differ, by name. */
  ghost function Blamed(inputs: bool, configuration: bool, tools: bool): string {
    match (inputs, configuration, tools)
    case (false, false, false) => "provenance"
    case (true, false, false) => "inputs"
    case (false, true, false) => "configuration"
    case (false, false, true) => "tools or resources"
    case (true, true, false) => "inputs" + "/" + "configuration"
    case (true, false, true) => "inputs" + "/" + "tools or resources"
    case (false, true, true) => "configuration" + "/" + "tools or resources"
    case (true, true, true) => "inputs" + "/" + "configuration" + "/" + "tools or resources"
  }

  function Changes(inputs: bool, configuration: bool, tools: bool): seq<string> {
    (if inputs then ["inputs"] else []) + (if configuration then ["configuration"] else [])
    + (if tools then ["tools or resources"] else [])
  }

  lemma {:induction false} JoinedChanges(inputs: bool, configuration: bool, tools: bool)
    ensures (if Changes(inputs, configuration, tools) == [] then "provenance"
             else Join(Changes(inputs, configuration, tools))) == Blamed(inputs, configuration, tools)
  {
    var a, b, c := "inputs", "configuration", "tools or resources";
    var changed := Changes(inputs, configuration, tools);
    hide Changes;
    ChangesListed(inputs, configuration, tools);
    match (inputs, configuration, tools) {
      case (true, true, true) => JoinOfThree(a, b, c);
      case (true, true, false) => JoinOfTwo(a, b);
      case (true, false, true) => JoinOfTwo(a, c);
      case (false, true, true) => JoinOfTwo(b, c);
      case _ =>
    }
  }

  lemma {:induction false} ChangesListed(inputs: bool, configuration: bool, tools: bool)
    ensures Changes(inputs, configuration, tools) ==
            match (inputs, configuration, tools)
            case (false, false, false) => []
            case (true, false, false) => ["inputs"]
            case (false, true, false) => ["configuration"]
            case (false, false, true) => ["tools or resources"]
            case (true, true, false) => ["inputs", "configuration"]
            case (true, false, true) => ["inputs", "tools or resources"]
            case (false, true, true) => ["configuration", "tools or resources"]
            case (true, true, true) => ["inputs", "configuration", "tools or resources"]
  {
  }

  lemma {:induction false} JoinOfThree(a: string, b: string, c: string)
    ensures Join([a, b, c]) == a + "/" + b + "/" + c
  {
    assert [a, b, c][1..] == [b, c];
    JoinOfTwo(b, c);
  }

  lemma {:induction false} JoinOfTwo(a: string, b: string)
    ensures Join([a, b]) == a + "/" + b
  {
    assert [a, b][1..] == [b];
  }

  lemma {:induction false} ReasonNamesChanges(previous: Provenance, current: Provenance)
    ensures ProvenanceChangeReason(previous, current) ==
            "step " + Blamed(previous.inputFingerprint != current.inputFingerprint,
                             previous.configFingerprint != current.configFingerprint,
                             previous.toolFingerprint != current.toolFingerprint) + " changed"
  {
    hide Join, Blamed;
    JoinedChanges(previous.inputFingerprint != current.inputFingerprint,
                  previous.configFingerprint != current.configFingerprint,
                  previous.toolFingerprint != current.toolFingerprint);
  }

  /** The record of the predecessor's result, if that is a success. */
  ghost function Upstream(steps: seq<FlowStep>, i: nat): Option<Provenance>
    requires i <= |steps|
  {
    if i > 0 && steps[i-1].state.Success? then steps[i-1].provenance else None
  }

  ghost function RecordNow(steps: seq<FlowStep>, i: nat, env: Environment): Provenance
    requires i < |steps|
  {
    BuildStepProvenance(env, steps[i].name, steps[i].tool, Upstream(steps, i))
  }

  /** A success that has no record although others have, or whose record has another signature
      than it would get now. */
  ghost predicate OutOfDate(steps: seq<FlowStep>, i: nat, env: Environment)
    requires i < |steps|
  {
    && steps[i].state.Success?
    && match steps[i].provenance
       case None => exists j :: 0 <= j < |steps| && steps[j].provenance.Some?
       case Some(p) => p.signature != RecordNow(steps, i, env).signature
  }

  lemma {:induction false} StaleIsOutOfDate(steps: seq<FlowStep>, i: nat, env: Environment)
    requires i < |steps|
    ensures IsStale(steps, i, env) <==> OutOfDate(steps, i, env)
    ensures OutOfDate(steps, i, env) ==> steps[i].state.Success?
    ensures UpstreamProvenance(steps, i) == Upstream(steps, i)
  {
    hide BuildStepProvenance;
  }

  /** Why the first stale step is one: it has no record in a tracked flow, or its record was
      made from other facts. */
  ghost function FirstReason(steps: seq<FlowStep>, s: nat, env: Environment): string
    requires s < |steps|
  {
    match steps[s].provenance
    case None => "step result has no provenance"
    case Some(p) =>
      var now := RecordNow(steps, s, env);
      "step " + Blamed(p.inputFingerprint != now.inputFingerprint, p.configFingerprint != now.configFingerprint,
                       p.toolFingerprint != now.toolFingerprint) + " changed"
  }

  /** A refresh stales the first step that is out of date for the facts that changed, and every
      later step because of it, with their files; what comes before is left alone. */
  lemma {:induction false} RefreshRecords(e: Engine, env: Environment) returns (s: nat)
    requires ValidFlow(e.steps)
    ensures s <= |e.steps| && (s < |e.steps| ==> OutOfDate(e.steps, s, env))
    ensures forall j | 0 <= j < s :: !OutOfDate(e.steps, j, env)
    ensures var after := RefreshStaleStates(e, env);
            if s == |e.steps| then after == e
            else
              var later := "upstream step " + e.steps[s].name + " is stale";
              && |after.steps| == |e.steps|
              && (forall j | 0 <= j < s ::
                    && after.steps[j] == e.steps[j]
                    && Files(after.disk, e.steps[j].name) == Files(e.disk, e.steps[j].name))
              && Staled(e.steps[s], after.steps[s], FirstReason(e.steps, s, env), e.steps[s].name)
              && Files(after.disk, e.steps[s].name) == {}
              && (forall j | s < j < |e.steps| ::
                    && Staled(e.steps[j], after.steps[j], later, e.steps[s].name)
                    && Files(after.disk, e.steps[j].name) ==
                       if e.steps[j].state.Ongoing? then Files(e.disk, e.steps[j].name) else {})
  {
    hide MarkAt, MarkFrom, Staled, Files, BuildStepProvenance, ProvenanceChangeReason, IsStale, OutOfDate;
    s := FirstStaleFrom(e.steps, 0, env);
    forall j | 0 <= j < |e.steps|
      ensures IsStale(e.steps, j, env) <==> OutOfDate(e.steps, j, env)
      ensures OutOfDate(e.steps, j, env) ==> e.steps[j].state.Success?
    {
      StaleIsOutOfDate(e.steps, j, env);
    }
    if s < |e.steps| {
      var from := e.steps[s].name;
      var later := Reason("upstream step ", from, " is stale");
      FirstReasonStated(e.steps, s, env);
      MarkAtRecords(e, s, StaleReason(e.steps, s, env), from);
      MarkAtEffect(e, s, StaleReason(e.steps, s, env), from);
      var marked := MarkAt(e, s, StaleReason(e.steps, s, env), from);
      forall j | 0 <= j < |e.steps| ensures marked.steps[j].name == e.steps[j].name {
      }
      MarkFromRecords(marked, s + 1, later, from);
      SavedFiles(e, MarkFrom(marked, s + 1, later, from));
    }
  }

  lemma {:induction false} FirstReasonStated(steps: seq<FlowStep>, s: nat, env: Environment)
    requires s < |steps|
    ensures StaleReason(steps, s, env) == FirstReason(steps, s, env)
  {
    hide ProvenanceChangeReason, BuildStepProvenance;
    StaleIsOutOfDate(steps, s, env);
    if steps[s].provenance.Some? {
      ReasonNamesChanges(steps[s].provenance.value, ExpectedProvenance(steps, s, env));
    }
  }

  // An executed step

  /** The files that an executed step leaves in its directory. */
  ghost function FilesAfter(outcome: Outcome): set<QorFile> {
    match outcome
    case Finished(_, _) => TRIPLET
    case Failed(_, sourceChanged, failureQor) => if sourceChanged && failureQor then TRIPLET else {}
    case Interrupted(_) => {}
  }

  lemma {:induction false} PutQorFiles(e: Engine, name: string, count: nat)
    ensures var after := PutQor(e, name, count);
            && Files(e.disk, name) <= Files(after.disk, name) <= Files(e.disk, name) + TRIPLET
            && (count >= 3 ==> Files(after.disk, name) == Files(e.disk, name) + TRIPLET)
            && forall n | n != name :: Files(after.disk, n) == Files(e.disk, n)
  {
  }

  lemma {:induction false} ExecuteRecords(e: Engine, k: nat, provenance: Provenance, turn: Turn)
    requires k < |e.steps| && Files(e.disk, e.steps[k].name) == {} && e.steps[k].stale.None?
    ensures var (after, result) := Execute(e, k, provenance, turn);
            && after.steps[k] == FlowStep(e.steps[k].name, e.steps[k].tool,
                                          if Succeeds(turn) then Success else Incomplete, turn.elapsed, None, None,
                                          if Succeeds(turn)
                                            then Some(provenance.(outputFingerprint := turn.outcome.output)) else None)
            && result == (if turn.outcome.Interrupted? then Reraised else Returned(after.steps[k].state))
            && after.disk.flow == after.steps
            && Files(after.disk, e.steps[k].name) == FilesAfter(turn.outcome)
            && forall n | n != e.steps[k].name :: Files(after.disk, n) == Files(e.disk, n)
  {
    hide PutQor, ClearQor;
    var name := e.steps[k].name;
    var begun := e.(ran := e.ran + [name]);
    match turn.outcome {
      case Finished(_, _) =>
        PutQorFiles(begun, name, 3);
      case Failed(count, _, _) =>
        PutQorFiles(begun, name, count);
        var partial := PutQor(begun, name, count);
        PutQorFiles(partial, name, 3);
        ClearQorFiles(partial, name);
      case Interrupted(count) =>
        PutQorFiles(begun, name, count);
        ClearQorFiles(PutQor(begun, name, count), name);
    }
  }

  lemma {:induction false} PrepareRecords(e: Engine, k: nat, marker: Option<Marker>)
    requires k < |e.steps|
    ensures var begun := Prepare(e, k, marker);
            && begun.steps == e.steps[k := e.steps[k].(stale := None, state := Ongoing, marker := marker)]
            && begun.disk.flow == begun.steps
            && Files(begun.disk, e.steps[k].name) == {}
            && forall n | n != e.steps[k].name :: Files(begun.disk, n) == Files(e.disk, n)
  {
    hide ClearQor;
    ClearQorFiles(SetStep(e, k, e.steps[k].(stale := None)), e.steps[k].name);
  }

  /** A step that is executed, after whatever refresh: its record, its result and its files are
      those of its handler; what is downstream is staled with its files; what is upstream is left
      alone; and all of it is persisted. */
  lemma {:induction false} ExecutedRecords(e: Engine, k: nat, turn: Turn)
    requires k < |e.steps| && ValidFlow(e.steps)
    ensures var (after, result) := ForceStep(e, k, turn);
            var record := RecordNow(e.steps, k, turn.env);
            && |after.steps| == |e.steps| && after.disk.flow == after.steps
            && (forall j | 0 <= j < k ::
                  && after.steps[j] == e.steps[j]
                  && Files(after.disk, e.steps[j].name) == Files(e.disk, e.steps[j].name))
            && after.steps[k] == FlowStep(e.steps[k].name, e.steps[k].tool,
                                          if Succeeds(turn) then Success else Incomplete, turn.elapsed, None, None,
                                          if Succeeds(turn)
                                            then Some(record.(outputFingerprint := turn.outcome.output)) else None)
            && result == (if turn.outcome.Interrupted? then Reraised else Returned(after.steps[k].state))
            && Files(after.disk, e.steps[k].name) == FilesAfter(turn.outcome)
            && (forall j | k < j < |e.steps| ::
                  && Staled(e.steps[j], after.steps[j], "upstream step is being rerun", e.steps[k].name)
                  && Files(after.disk, e.steps[j].name) ==
                     if e.steps[j].state.Ongoing? then Files(e.disk, e.steps[j].name) else {})
  {
    hide MarkDownstream, Prepare, Execute, BuildStepProvenance, Staled, Files;
    MarkDownstreamRecords(e, k);
    MarkFromKeepsShape(e, k + 1, "upstream step is being rerun", e.steps[k].name);
    MarkDownstreamKeepsShape(e, k);
    var marked := MarkDownstream(e, k);
    PrepareRecords(marked, k, turn.marker);
    var begun := Prepare(marked, k, turn.marker);
    StaleIsOutOfDate(e.steps, k, turn.env);
    assert UpstreamProvenance(marked.steps, k) == UpstreamProvenance(e.steps, k);
    var record := ExpectedProvenance(marked.steps, k, turn.env);
    ExecuteRecords(begun, k, record, turn);
    var after := Execute(begun, k, record, turn).0;
    forall j | 0 <= j < |e.steps| && j != k ensures after.steps[j] == marked.steps[j]
      && Files(after.disk, e.steps[j].name) == Files(marked.disk, e.steps[j].name) {
    }
  }

  /** What a run of one step persists, from a valid flow: nothing but the refresh if the step is
      a refreshed success and not forced; otherwise the execution behind that refresh. */
  lemma {:induction false} RunStepIsRefreshThenExecution(e: Engine, k: nat, rerun: bool, turn: Turn)
    requires k < |e.steps| && ValidFlow(e.steps)
    ensures var refreshed := RefreshStaleStates(e, turn.env);
            && |refreshed.steps| == |e.steps| && ValidFlow(refreshed.steps)
            && RunStep(e, k, rerun, turn) ==
               (if refreshed.steps[k].state.Success? && !rerun then (refreshed, Returned(Success))
                else ForceStep(refreshed, k, turn))
  {
    hide RefreshStaleStates, ForceStep;
    RefreshKeepsShape(e, turn.env);
  }

  // Clearing

  /** Cleared states are those of a new flow: no results, no marks and no files. */
  lemma {:induction false} ClearedRecords(e: Engine)
    requires ValidFlow(e.steps)
    ensures var after := ClearStates(e);
            && |after.steps| == |e.steps| && after.disk.flow == after.steps
            && forall j | 0 <= j < |e.steps| ::
                 && after.steps[j] == FlowStep(e.steps[j].name, e.steps[j].tool, Unstart, "", None, None, None)
                 && Files(after.disk, e.steps[j].name) == {}
  {
    hide ClearFrom, Files;
    ClearFromRecords(e, 0);
    SavedAll(ClearFrom(e, 0));
  }

  lemma {:induction false} SavedAll(e: Engine)
    ensures Save(e).steps == e.steps && Save(e).disk.flow == e.steps
    ensures forall n :: Files(Save(e).disk, n) == Files(e.disk, n)
  {
  }

  lemma {:induction false} ClearFromRecords(e: Engine, i: nat)
    requires i <= |e.steps| && ValidFlow(e.steps)
    ensures var after := ClearFrom(e, i);
            && |after.steps| == |e.steps|
            && (forall j | 0 <= j < i ::
                  && after.steps[j] == e.steps[j]
                  && Files(after.disk, e.steps[j].name) == Files(e.disk, e.steps[j].name))
            && (forall j | i <= j < |e.steps| ::
                  && after.steps[j] == FlowStep(e.steps[j].name, e.steps[j].tool, Unstart, "", None, None, None)
                  && Files(after.disk, e.steps[j].name) == {})
    decreases |e.steps| - i
  {
    hide ClearQor, Files;
    if i < |e.steps| {
      ClearQorFiles(e, e.steps[i].name);
      ClearFromRecords(SetStep(ClearQor(e, e.steps[i].name), i, Reset(e.steps[i])), i + 1);
    }
  }
}
