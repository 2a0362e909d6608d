/** Whole runs: which handlers `run_all` executes, and what a returned success means. */
module FlowRuns {
  import opened Options
  import opened StepProvenance
  import opened Flow
  import opened FlowTheorems

  ghost predicate Stable(turns: seq<Turn>, env: Environment) {
    forall i | 0 <= i < |turns| :: turns[i].env == env
  }

  predicate IsCurrent(steps: seq<FlowStep>, i: nat, env: Environment)
    requires i < |steps|
  {
    steps[i].state.Success? && CarriesCurrentSignature(steps, i, env)
  }

  predicate CurrentPrefix(steps: seq<FlowStep>, k: nat, env: Environment)
    requires k <= |steps|
  {
    forall i | 0 <= i < k :: IsCurrent(steps, i, env)
  }

  predicate NoSuccessFrom(steps: seq<FlowStep>, k: nat) {
    forall i | k <= i < |steps| :: !steps[i].state.Success?
  }

  function FirstNonCurrent(steps: seq<FlowStep>, i: nat, env: Environment): (c: nat)
    requires i <= |steps|
    ensures i <= c <= |steps|
    decreases |steps| - i
  {
    if i == |steps| || !IsCurrent(steps, i, env) then i else FirstNonCurrent(steps, i + 1, env)
  }

  lemma {:induction false} CurrentUpToFirst(steps: seq<FlowStep>, i: nat, env: Environment)
    requires i <= |steps|
    ensures var c := FirstNonCurrent(steps, i, env);
            && (forall j | i <= j < c :: IsCurrent(steps, j, env))
            && (c < |steps| ==> !IsCurrent(steps, c, env))
    decreases |steps| - i
  {
    hide IsCurrent;
    if i < |steps| && IsCurrent(steps, i, env) {
      CurrentUpToFirst(steps, i + 1, env);
    }
  }

  function FirstFailure(turns: seq<Turn>, i: nat): (f: nat)
    requires i <= |turns|
    ensures i <= f <= |turns|
    ensures forall j | i <= j < f :: Succeeds(turns[j])
    ensures f < |turns| ==> !Succeeds(turns[f])
    decreases |turns| - i
  {
    if i == |turns| || !Succeeds(turns[i]) then i else FirstFailure(turns, i + 1)
  }

  function Names(steps: seq<FlowStep>): (names: seq<string>)
    ensures |names| == |steps|
  {
    seq(|steps|, i requires 0 <= i < |steps| => steps[i].name)
  }

  /** Where the executed block ends: after the first failing handler, or at the last step. */
  function BlockEnd(turns: seq<Turn>, c: nat): (end: nat)
    requires c <= |turns|
    ensures c <= end <= |turns|
  {
    var f := FirstFailure(turns, c);
    if f < |turns| then f + 1 else f
  }

  lemma {:induction false} SettledPrefix(steps: seq<FlowStep>, k: nat, env: Environment)
    requires k <= |steps| && CurrentPrefix(steps, k, env) && NoSuccessFrom(steps, k)
    ensures Current(steps, env)
  {
    forall i | 0 <= i < |steps| && steps[i].state.Success? ensures IsCurrent(steps, i, env) {
      assert i < k;
    }
  }

  /** In a current flow a step is skipped without any effect or executed right away. */
  lemma {:induction false} SettledRunStep(e: Engine, k: nat, rerun: bool, turn: Turn)
    requires k < |e.steps| && Current(e.steps, turn.env)
    ensures var (after, result) := RunStep(e, k, rerun, turn);
            if rerun || !e.steps[k].state.Success? then
              && SameNames(e.steps, after.steps)
              && Executed(e.steps, k, turn, after.steps)
              && after.ran == e.ran + [e.steps[k].name]
              && (Succeeds(turn) <==> result == Returned(Success))
            else
              after == e && result == Returned(Success)
  {
    CurrentMeansNoneStale(e.steps, turn.env);
    RunStepEffect(e, k, rerun, turn);
    assert RefreshedSteps(e.steps, turn.env) == e.steps;
  }

  /** One more executed name at the front of a block. */
  lemma {:induction false} PrependName(ran: seq<string>, names: seq<string>, k: nat, end: nat)
    requires k < end <= |names|
    ensures ran + [names[k]] + names[k+1..end] == ran + names[k..end]
  {
    assert names[k..end] == [names[k]] + names[k+1..end];
  }

  lemma {:induction false} NamesAgree(steps: seq<FlowStep>, steps': seq<FlowStep>)
    requires SameNames(steps, steps')
    ensures Names(steps) == Names(steps')
  {
  }

  lemma {:induction false} BlockEndUnfolds(turns: seq<Turn>, k: nat)
    requires k < |turns|
    ensures k < BlockEnd(turns, k)
    ensures Succeeds(turns[k]) ==>
              FirstFailure(turns, k) == FirstFailure(turns, k + 1) && BlockEnd(turns, k) == BlockEnd(turns, k + 1)
    ensures !Succeeds(turns[k]) ==> FirstFailure(turns, k) == k && BlockEnd(turns, k) == k + 1
  {
  }

  /** `names[k..end]` is executed, and a returned success leaves a wholly current flow. */
  ghost predicate RanBlock(e: Engine, k: nat, turns: seq<Turn>, env: Environment, after: Engine, result: RunResult)
    requires k <= |e.steps| == |turns|
  {
    && after.ran == e.ran + Names(e.steps)[k..BlockEnd(turns, k)]
    && (result == Returned(Success) <==> FirstFailure(turns, k) == |turns|)
    && (result == Returned(Success) ==>
          SameNames(e.steps, after.steps) && CurrentPrefix(after.steps, |after.steps|, env))
  }

  lemma {:induction false} RanBlockExtends(e: Engine, k: nat, turns: seq<Turn>, env: Environment, next: Engine,
                                           after: Engine, result: RunResult)
    requires k < |e.steps| == |turns| && Succeeds(turns[k])
    requires SameNames(e.steps, next.steps) && next.ran == e.ran + [e.steps[k].name]
    requires RanBlock(next, k + 1, turns, env, after, result)
    ensures RanBlock(e, k, turns, env, after, result)
  {
    NamesAgree(e.steps, next.steps);
    BlockEndUnfolds(turns, k);
    PrependName(e.ran, Names(e.steps), k, BlockEnd(turns, k));
  }

  lemma {:induction false} RanBlockStops(e: Engine, k: nat, turns: seq<Turn>, env: Environment, after: Engine,
                                         result: RunResult)
    requires k < |e.steps| == |turns| && !Succeeds(turns[k])
    requires after.ran == e.ran + [e.steps[k].name] && result != Returned(Success)
    ensures RanBlock(e, k, turns, env, after, result)
  {
    BlockEndUnfolds(turns, k);
  }

  lemma {:induction false} RanNothing(e: Engine, k: nat, turns: seq<Turn>, env: Environment)
    requires k == |e.steps| == |turns| && CurrentPrefix(e.steps, k, env)
    ensures RanBlock(e, k, turns, env, e, Returned(Success))
  {
    assert e.ran == e.ran + Names(e.steps)[k..BlockEnd(turns, k)];
  }

  /** From a current prefix and a step that must run, every remaining handler runs, up to
      the first failure. */
  lemma {:induction false} RunBlock(e: Engine, k: nat, rerun: bool, turns: seq<Turn>, env: Environment)
    requires k <= |e.steps| == |turns| && Stable(turns, env)
    requires CurrentPrefix(e.steps, k, env) && Current(e.steps, env)
    requires k < |e.steps| ==> rerun || !e.steps[k].state.Success?
    ensures RanBlock(e, k, turns, env, RunFrom(e, k, rerun, turns).0, RunFrom(e, k, rerun, turns).1)
    decreases |e.steps| - k
  {
    hide RunStep, RanBlock, CurrentPrefix, Current, Executed;
    if k == |e.steps| {
      RanNothing(e, k, turns, env);
    } else {
      SettledRunStep(e, k, rerun, turns[k]);
      var (next, result) := RunStep(e, k, rerun, turns[k]);
      if Succeeds(turns[k]) {
        ExtendPrefix(e.steps, k, turns[k], next.steps, env);
        SettledPrefix(next.steps, k + 1, env);
        RunBlock(next, k + 1, rerun, turns, env);
        var (after, end) := RunFrom(next, k + 1, rerun, turns);
        RanBlockExtends(e, k, turns, env, next, after, end);
      } else {
        RanBlockStops(e, k, turns, env, next, result);
      }
    }
  }

  lemma {:induction false} ExtendPrefix(steps: seq<FlowStep>, k: nat, turn: Turn, after: seq<FlowStep>,
                                        env: Environment)
    requires k < |steps| == |after| && turn.env == env
    requires SameNames(steps, after) && Executed(steps, k, turn, after) && Succeeds(turn)
    requires CurrentPrefix(steps, k, env)
    ensures CurrentPrefix(after, k + 1, env) && NoSuccessFrom(after, k + 1)
  {
    forall i | 0 <= i < k + 1 ensures IsCurrent(after, i, env) {
      if i < k {
        assert IsCurrent(steps, i, env);
        assert after[i] == after[..k][i] == steps[..k][i] == steps[i];
        if i > 0 {
          assert after[i-1] == after[..k][i-1] == steps[..k][i-1] == steps[i-1];
        }
      }
    }
  }

  /** In a current flow, recorded successes are skipped without any effect. */
  lemma {:induction false} SkipBlock(e: Engine, k: nat, c: nat, turns: seq<Turn>, env: Environment)
    requires k <= c <= |e.steps| == |turns| && Stable(turns, env)
    requires Current(e.steps, env)
    requires forall i | k <= i < c :: e.steps[i].state.Success?
    ensures RunFrom(e, k, false, turns) == RunFrom(e, c, false, turns)
    decreases c - k
  {
    hide RunStep;
    if k < c {
      SettledRunStep(e, k, false, turns[k]);
      SkipBlock(e, k + 1, c, turns, env);
    }
  }

  lemma {:induction false} RunFromRefreshed(e: Engine, turns: seq<Turn>, env: Environment)
    requires 0 < |e.steps| == |turns| && Stable(turns, env)
    ensures |RefreshStaleStates(e, env).steps| == |e.steps|
    ensures RunFrom(e, 0, false, turns) == RunFrom(RefreshStaleStates(e, env), 0, false, turns)
  {
    RefreshKeepsShape(e, env);
    RefreshEstablishesCurrency(e, env);
    assert RunStep(e, 0, false, turns[0]) == RunStep(RefreshStaleStates(e, env), 0, false, turns[0]);
  }

  predicate SuccessesAreTracked(steps: seq<FlowStep>) {
    forall i | 0 <= i < |steps| && steps[i].state.Success? :: steps[i].provenance.Some?
  }

  /** The first step a run executes: a refresh keeps exactly the current prefix successful
      up to the first non-current step. */
  lemma {:induction false} RefreshStopsAtFirstNonCurrent(steps: seq<FlowStep>, env: Environment)
    requires SuccessesAreTracked(steps)
    ensures var c := FirstNonCurrent(steps, 0, env);
            var r := RefreshedSteps(steps, env);
            && CurrentPrefix(r, c, env)
            && (c < |steps| ==> !r[c].state.Success?)
  {
    var c := FirstNonCurrent(steps, 0, env);
    CurrentUpToFirst(steps, 0, env);
    StaleComesNoEarlier(steps, env);
    PrefixKeepsCurrency(steps, RefreshedSteps(steps, env), c, env);
    if c < |steps| && c < FirstStaleFrom(steps, 0, env) {
      assert !IsStale(steps, c, env);
    }
  }

  lemma {:induction false} StaleComesNoEarlier(steps: seq<FlowStep>, env: Environment)
    ensures FirstNonCurrent(steps, 0, env) <= FirstStaleFrom(steps, 0, env)
  {
    var s := FirstStaleFrom(steps, 0, env);
    CurrentUpToFirst(steps, 0, env);
    if s < |steps| {
      assert !IsCurrent(steps, s, env);
    }
  }

  lemma {:induction false} PrefixKeepsCurrency(steps: seq<FlowStep>, steps': seq<FlowStep>, k: nat, env: Environment)
    requires k <= |steps| == |steps'| && CurrentPrefix(steps, k, env)
    requires forall i | 0 <= i < k :: steps'[i] == steps[i]
    ensures CurrentPrefix(steps', k, env)
  {
    forall i | 0 <= i < k ensures IsCurrent(steps', i, env) {
      assert IsCurrent(steps, i, env);
      assert UpstreamProvenance(steps', i) == UpstreamProvenance(steps, i);
    }
  }

  /** With a stable environment and every success recorded, `run_all` executes one contiguous
      block of handlers, from the first non-current step to the first failure or the last
      step, and returns success exactly when none of them failed. */
  lemma {:induction false} RunAllExecutesOneBlock(e: Engine, turns: seq<Turn>, env: Environment)
    requires |e.steps| == |turns| && Stable(turns, env)
    requires SuccessesAreTracked(e.steps)
    ensures RanBlock(e, FirstNonCurrent(e.steps, 0, env), turns, env,
                     RunAll(e, false, turns).0, RunAll(e, false, turns).1)
  {
    hide RunStep, RefreshStaleStates, RefreshedSteps;
    var c := FirstNonCurrent(e.steps, 0, env);
    if |e.steps| > 0 {
      RunFromRefreshed(e, turns, env);
      RefreshEstablishesCurrency(e, env);
      RefreshEffect(e, env);
      RefreshStopsAtFirstNonCurrent(e.steps, env);
      var refreshed := RefreshStaleStates(e, env);
      CurrentPrefixSucceeds(refreshed.steps, c, env);
      SkipBlock(refreshed, 0, c, turns, env);
      NamesAgree(e.steps, refreshed.steps);
      RunBlock(refreshed, c, false, turns, env);
    }
  }

  lemma {:induction false} CurrentPrefixSucceeds(steps: seq<FlowStep>, k: nat, env: Environment)
    requires k <= |steps| && CurrentPrefix(steps, k, env)
    ensures forall i | 0 <= i < k :: steps[i].state.Success?
  {
    forall i | 0 <= i < k ensures steps[i].state.Success? {
      assert IsCurrent(steps, i, env);
    }
  }

  /** A wholly current flow is a successful flow, and running it again executes nothing and
      writes nothing. */
  lemma {:induction false} CurrentFlowRunsNothing(e: Engine, turns: seq<Turn>, env: Environment)
    requires |e.steps| == |turns| && Stable(turns, env)
    requires CurrentPrefix(e.steps, |e.steps|, env)
    ensures FlowSuccess(e.steps)
    ensures RunAll(e, false, turns) == (e, Returned(Success))
  {
    hide RunStep;
    CurrentPrefixSucceeds(e.steps, |e.steps|, env);
    SettledPrefix(e.steps, |e.steps|, env);
    SkipBlock(e, 0, |e.steps|, turns, env);
  }

  /** The names executed by a rerun from step `k` on, and whether it returns success. */
  ghost predicate RanAll(e: Engine, k: nat, turns: seq<Turn>, after: Engine, result: RunResult)
    requires k <= |e.steps| == |turns|
  {
    && after.ran == e.ran + Names(e.steps)[k..BlockEnd(turns, k)]
    && (result == Returned(Success) <==> FirstFailure(turns, k) == |turns|)
  }

  lemma {:induction false} RerunFrom(e: Engine, k: nat, turns: seq<Turn>)
    requires k <= |e.steps| == |turns|
    ensures RanAll(e, k, turns, RunFrom(e, k, true, turns).0, RunFrom(e, k, true, turns).1)
    decreases |e.steps| - k
  {
    hide RunStep, Executed, RefreshedSteps;
    if k == |e.steps| {
      assert e.ran + [] == e.ran;
    } else {
      RunStepEffect(e, k, true, turns[k]);
      BlockEndUnfolds(turns, k);
      PrependName(e.ran, Names(e.steps), k, BlockEnd(turns, k));
      var (next, result) := RunStep(e, k, true, turns[k]);
      if Succeeds(turns[k]) {
        NamesAgree(e.steps, next.steps);
        RerunFrom(next, k + 1, turns);
      }
    }
  }

  /** With `rerun`, every handler runs, up to the first failure, whatever was recorded and
      however the environment changes on the way. */
  lemma {:induction false} RerunExecutesEverything(e: Engine, turns: seq<Turn>)
    requires |e.steps| == |turns|
    ensures RanAll(e, 0, turns, RunAll(e, true, turns).0, RunAll(e, true, turns).1)
  {
    hide RunFrom;
    ClearFromKeepsShape(e, 0);
    NamesAgree(e.steps, ClearStates(e).steps);
    RerunFrom(ClearStates(e), 0, turns);
  }

  /** In a stable environment a successful rerun also leaves a wholly current flow. */
  lemma {:induction false} RerunLeavesCurrentFlow(e: Engine, turns: seq<Turn>, env: Environment)
    requires |e.steps| == |turns| && Stable(turns, env)
    ensures RanBlock(e, 0, turns, env, RunAll(e, true, turns).0, RunAll(e, true, turns).1)
  {
    hide RunStep;
    ClearFromEffect(e, 0);
    ClearFromKeepsShape(e, 0);
    var cleared := ClearStates(e);
    NamesAgree(e.steps, cleared.steps);
    SettledPrefix(cleared.steps, 0, env);
    RunBlock(cleared, 0, true, turns, env);
  }

  lemma {:induction false} ClearFromEffect(e: Engine, i: nat)
    requires i <= |e.steps|
    ensures |ClearFrom(e, i).steps| == |e.steps|
    ensures forall j | i <= j < |e.steps| :: ClearFrom(e, i).steps[j].state.Unstart?
    ensures forall j | 0 <= j < i :: ClearFrom(e, i).steps[j] == e.steps[j]
    decreases |e.steps| - i
  {
    if i < |e.steps| {
      ClearFromEffect(SetStep(ClearQor(e, e.steps[i].name), i, Reset(e.steps[i])), i + 1);
    }
  }

  // What a returned success means

  /** Execution is only ever appended, and no step before `k` is promoted. */
  predicate Grew(e: Engine, k: nat, after: Engine)
    requires k <= |e.steps|
  {
    && e.ran <= after.ran
    && |after.steps| == |e.steps|
    && (forall i | 0 <= i < k && !e.steps[i].state.Success? :: !after.steps[i].state.Success?)
  }

  lemma {:induction false} GrewTwice(e: Engine, k: nat, next: Engine, after: Engine)
    requires k < |e.steps| && Grew(e, k, next) && Grew(next, k + 1, after)
    ensures Grew(e, k, after)
  {
  }

  lemma {:induction false} RunFromGrows(e: Engine, k: nat, rerun: bool, turns: seq<Turn>)
    requires k <= |e.steps| == |turns|
    ensures Grew(e, k, RunFrom(e, k, rerun, turns).0)
    decreases |e.steps| - k
  {
    hide RunStep;
    if k < |e.steps| {
      RunStepGrows(e, k, rerun, turns[k]);
      var (next, result) := RunStep(e, k, rerun, turns[k]);
      if result == Returned(Success) {
        RunFromGrows(next, k + 1, rerun, turns);
        GrewTwice(e, k, next, RunFrom(next, k + 1, rerun, turns).0);
      }
    }
  }

  lemma {:induction false} RefreshNeverPromotes(steps: seq<FlowStep>, env: Environment)
    ensures forall i | 0 <= i < |steps| && !steps[i].state.Success? :: !RefreshedSteps(steps, env)[i].state.Success?
  {
  }

  /** Running a step never promotes another step that the refresh left unsuccessful. */
  lemma {:induction false} RunStepPromotesOnlyItself(e: Engine, k: nat, rerun: bool, turn: Turn, i: nat)
    requires k < |e.steps| && i < |e.steps| && i != k
    requires !RefreshedSteps(e.steps, turn.env)[i].state.Success?
    ensures |RunStep(e, k, rerun, turn).0.steps| == |e.steps|
    ensures !RunStep(e, k, rerun, turn).0.steps[i].state.Success?
  {
    RunStepEffect(e, k, rerun, turn);
    RefreshEffect(e, turn.env);
    var refreshed := RefreshedSteps(e.steps, turn.env);
    var after := RunStep(e, k, rerun, turn).0;
    if i < k && (rerun || !refreshed[k].state.Success?) {
      assert after.steps[i] == after.steps[..k][i] == refreshed[..k][i];
    }
  }

  lemma {:induction false} RunStepGrows(e: Engine, k: nat, rerun: bool, turn: Turn)
    requires k < |e.steps|
    ensures Grew(e, k, RunStep(e, k, rerun, turn).0)
  {
    RunStepEffect(e, k, rerun, turn);
    RefreshEffect(e, turn.env);
    RefreshNeverPromotes(e.steps, turn.env);
    forall i | 0 <= i < k && !e.steps[i].state.Success?
      ensures |RunStep(e, k, rerun, turn).0.steps| == |e.steps| && !RunStep(e, k, rerun, turn).0.steps[i].state.Success?
    {
      RunStepPromotesOnlyItself(e, k, rerun, turn, i);
    }
  }

  /** A first step that is not a refreshed success makes the run execute it. */
  lemma {:induction false} FirstStepRuns(e: Engine, turns: seq<Turn>, env: Environment)
    requires 0 < |e.steps| == |turns| && Stable(turns, env)
    requires !RefreshedSteps(e.steps, env)[0].state.Success?
    ensures RunAll(e, false, turns).0.ran != e.ran
  {
    hide RunStep, RefreshedSteps;
    RunStepEffect(e, 0, false, turns[0]);
    var (next, result) := RunStep(e, 0, false, turns[0]);
    if result == Returned(Success) {
      RunFromGrows(next, 1, false, turns);
    }
  }

  /** Results recorded before provenance existed: no step has provenance, the first step is
      a success, and some later step is not. */
  predicate LegacyPrefix(steps: seq<FlowStep>) {
    && !Tracked(steps)
    && |steps| > 0 && steps[0].state.Success?
    && exists i | 0 < i < |steps| :: !steps[i].state.Success?
  }

  function FirstNonSuccess(steps: seq<FlowStep>, i: nat): (k: nat)
    requires i <= |steps|
    ensures i <= k <= |steps|
    ensures forall j | i <= j < k :: steps[j].state.Success?
    ensures k < |steps| ==> !steps[k].state.Success?
    decreases |steps| - i
  {
    if i == |steps| || !steps[i].state.Success? then i else FirstNonSuccess(steps, i + 1)
  }

  lemma {:induction false} UntrackedIsCurrent(steps: seq<FlowStep>, env: Environment)
    requires !Tracked(steps)
    ensures Current(steps, env)
  {
  }

  lemma {:induction false} RefreshTracksSuccesses(steps: seq<FlowStep>, env: Environment)
    requires Tracked(steps)
    ensures SuccessesAreTracked(RefreshedSteps(steps, env))
  {
    var r := RefreshedSteps(steps, env);
    forall i | 0 <= i < |r| && r[i].state.Success? ensures r[i].provenance.Some? {
      assert i < FirstStaleFrom(steps, 0, env) && !IsStale(steps, i, env);
    }
  }

  /** Outside the legacy case a returned success leaves a wholly current flow, or one whose
      steps were all successes without provenance and that the run did not touch. */
  lemma {:induction false} NoLegacyPrefix(e: Engine, turns: seq<Turn>, env: Environment)
    requires |e.steps| == |turns| && Stable(turns, env)
    requires RunAll(e, false, turns).1 == Returned(Success)
    requires !LegacyPrefix(e.steps)
    ensures var after := RunAll(e, false, turns).0;
            && |after.steps| == |e.steps|
            && (CurrentPrefix(after.steps, |after.steps|, env)
                || (after == e && FlowSuccess(e.steps) && !Tracked(e.steps)))
  {
    if |e.steps| == 0 {
    } else if Tracked(e.steps) {
      RunFromRefreshed(e, turns, env);
      RefreshEffect(e, env);
      RefreshTracksSuccesses(e.steps, env);
      RunAllExecutesOneBlock(RefreshStaleStates(e, env), turns, env);
    } else {
      UntrackedIsCurrent(e.steps, env);
      var k := FirstNonSuccess(e.steps, 0);
      if k == 0 {
        RunBlock(e, 0, false, turns, env);
      } else {
        assert k == |e.steps|;
        SkipBlock(e, 0, k, turns, env);
      }
    }
  }

  /** In the legacy case the first executed step is recorded, and that makes the untracked
      prefix before it stale. */
  lemma {:induction false} LegacyFirstRun(e: Engine, turns: seq<Turn>, env: Environment)
    requires |e.steps| == |turns| && Stable(turns, env)
    requires RunAll(e, false, turns).1 == Returned(Success)
    requires LegacyPrefix(e.steps)
    ensures var k := FirstNonSuccess(e.steps, 0);
            var next := RunStep(e, k, false, turns[k]).0;
            && 0 < k < |e.steps| == |next.steps|
            && RunAll(e, false, turns) == RunFrom(next, k + 1, false, turns)
            && (forall i | 0 <= i <= k :: next.steps[i].state.Success?)
            && IsStale(next.steps, 0, env)
  {
    hide RunStep, RefreshedSteps;
    UntrackedIsCurrent(e.steps, env);
    var k := FirstNonSuccess(e.steps, 0);
    SkipBlock(e, 0, k, turns, env);
    SettledRunStep(e, k, false, turns[k]);
    var next := RunStep(e, k, false, turns[k]).0;
    forall i | 0 <= i < k ensures next.steps[i] == e.steps[i] {
      assert next.steps[i] == next.steps[..k][i] == e.steps[..k][i];
    }
    assert next.steps[k].provenance.Some? && Tracked(next.steps);
  }

  lemma {:induction false} LegacyPrefixBreaks(e: Engine, turns: seq<Turn>, env: Environment, again: seq<Turn>)
    requires |e.steps| == |turns| == |again| && Stable(turns, env) && Stable(again, env)
    requires RunAll(e, false, turns).1 == Returned(Success)
    requires LegacyPrefix(e.steps)
    ensures var after := RunAll(e, false, turns).0;
            && |after.steps| == |e.steps|
            && (FlowSuccess(after.steps) <==> FirstNonSuccess(e.steps, 0) == |e.steps| - 1)
            && RunAll(after, false, again).0.ran != after.ran
  {
    LegacyFirstRun(e, turns, env);
    var k := FirstNonSuccess(e.steps, 0);
    var next := RunStep(e, k, false, turns[k]).0;
    if k < |e.steps| - 1 {
      LegacyFirstStepLost(next, k + 1, turns, env);
    }
    var after := RunFrom(next, k + 1, false, turns).0;
    assert !RefreshedSteps(after.steps, env)[0].state.Success?;
    FirstStepRuns(after, again, env);
  }

  lemma {:induction false} LegacyFirstStepLost(e: Engine, k: nat, turns: seq<Turn>, env: Environment)
    requires 0 < k < |e.steps| == |turns| && Stable(turns, env)
    requires IsStale(e.steps, 0, env)
    ensures var after := RunFrom(e, k, false, turns).0;
            && |after.steps| == |e.steps|
            && !after.steps[0].state.Success?
            && !RefreshedSteps(after.steps, env)[0].state.Success?
  {
    hide RunStep, RefreshedSteps, IsStale;
    RunStepPromotesOnlyItself(e, k, false, turns[k], 0);
    var (next, result) := RunStep(e, k, false, turns[k]);
    if result == Returned(Success) {
      RunFromGrows(next, k + 1, false, turns);
    }
    RefreshNeverPromotes(RunFrom(e, k, false, turns).0.steps, env);
  }

  /** Exactly when a returned success can be trusted.  `run_all` returning success means that
      every step is a success unless a legacy prefix is followed by an unfinished step before
      the last one; and an immediate second run executes nothing unless there was a legacy
      prefix at all. */
  lemma {:induction false} ReturnedSuccess(e: Engine, turns: seq<Turn>, env: Environment, again: seq<Turn>)
    requires |e.steps| == |turns| == |again| && Stable(turns, env) && Stable(again, env)
    requires RunAll(e, false, turns).1 == Returned(Success)
    ensures var after := RunAll(e, false, turns).0;
            && |after.steps| == |e.steps|
            && (FlowSuccess(after.steps) <==>
                  !(LegacyPrefix(e.steps) && exists i | 0 < i < |e.steps| - 1 :: !e.steps[i].state.Success?))
            && (RunAll(after, false, again).0.ran == after.ran <==> !LegacyPrefix(e.steps))
            && (!LegacyPrefix(e.steps) ==> RunAll(after, false, again) == (after, Returned(Success)))
  {
    var after := RunAll(e, false, turns).0;
    if LegacyPrefix(e.steps) {
      LegacyPrefixBreaks(e, turns, env, again);
    } else {
      NoLegacyPrefix(e, turns, env);
      if CurrentPrefix(after.steps, |after.steps|, env) {
        CurrentFlowRunsNothing(after, again, env);
      } else {
        UntrackedIsCurrent(e.steps, env);
        SkipBlock(e, 0, |e.steps|, again, env);
      }
    }
  }

  // In a changing environment

  /** Which steps are successes after a step that returned success: those before it that the
      refresh found current, the step itself, and behind an executed one none. */
  lemma {:induction false} RunStepSuccesses(e: Engine, k: nat, rerun: bool, turn: Turn)
    requires k < |e.steps| && RunStep(e, k, rerun, turn).1 == Returned(Success)
    ensures var after := RunStep(e, k, rerun, turn).0.steps;
            && SameNames(e.steps, after)
            && after[k].state.Success?
            && (forall i | 0 <= i < k ::
                  after[i].state.Success? <==> e.steps[i].state.Success? && i < FirstStaleFrom(e.steps, 0, turn.env))
            && (rerun ==> forall i | k < i < |after| :: !after[i].state.Success?)
  {
    hide RunStep, IsStale, CarriesCurrentSignature;
    RunStepEffect(e, k, rerun, turn);
    RunStepKeepsShape(e, k, rerun, turn);
    RefreshEffect(e, turn.env);
    var refreshed := RefreshedSteps(e.steps, turn.env);
    var after := RunStep(e, k, rerun, turn).0.steps;
    if rerun || !refreshed[k].state.Success? {
      forall i | 0 <= i < k ensures after[i] == refreshed[i] {
        assert after[..k][i] == refreshed[..k][i];
      }
    }
  }

  /** No refresh of the run finds a stale step before the one whose turn it is. */
  predicate Undisturbed(e: Engine, k: nat, turns: seq<Turn>)
    requires k <= |e.steps| == |turns|
    decreases |e.steps| - k
  {
    if k == |e.steps| then true
    else
      RunStepKeepsShape(e, k, false, turns[k]);
      && k <= FirstStaleFrom(e.steps, 0, turns[k].env)
      && Undisturbed(RunStep(e, k, false, turns[k]).0, k + 1, turns)
  }

  lemma {:induction false} DisturbedStaysUnsuccessful(e: Engine, k: nat, turns: seq<Turn>, i: nat)
    requires i < k <= |e.steps| == |turns| && !e.steps[i].state.Success?
    ensures var after := RunFrom(e, k, false, turns).0.steps; |after| == |e.steps| && !FlowSuccess(after)
  {
    hide RunFrom;
    RunFromGrows(e, k, false, turns);
  }

  lemma {:induction false} UndisturbedFrom(e: Engine, k: nat, turns: seq<Turn>)
    requires k <= |e.steps| == |turns| && forall i | 0 <= i < k :: e.steps[i].state.Success?
    requires RunFrom(e, k, false, turns).1 == Returned(Success)
    ensures var after := RunFrom(e, k, false, turns).0.steps;
            |after| == |e.steps| && (FlowSuccess(after) <==> Undisturbed(e, k, turns))
    decreases |e.steps| - k
  {
    hide RunStep, FirstStaleFrom;
    if k < |e.steps| {
      RunStepKeepsShape(e, k, false, turns[k]);
      RunStepSuccesses(e, k, false, turns[k]);
      var next := RunStep(e, k, false, turns[k]).0;
      var s := FirstStaleFrom(e.steps, 0, turns[k].env);
      if k <= s {
        UndisturbedFrom(next, k + 1, turns);
      } else {
        DisturbedStaysUnsuccessful(next, k + 1, turns, s);
      }
    }
  }

  /** Whatever the environment does during the run: a returned success means that every step is
      a success exactly when no turn's refresh finds a stale step before its own. */
  lemma {:induction false} SuccessNeedsUndisturbedRun(e: Engine, turns: seq<Turn>)
    requires |e.steps| == |turns| && RunAll(e, false, turns).1 == Returned(Success)
    ensures var after := RunAll(e, false, turns).0.steps;
            |after| == |e.steps| && (FlowSuccess(after) <==> Undisturbed(e, 0, turns))
  {
    hide RunFrom, Undisturbed;
    UndisturbedFrom(e, 0, turns);
  }

  function HalfDone(env: Environment): seq<FlowStep> {
    [FlowStep("prepare", "python", Success, "", None, None, Some(BuildStepProvenance(env, "prepare", "python", None))),
     FlowStep("elab", "slang", Unstart, "", None, None, None)]
  }

  /** The sources change between the two turns of a run: the tracked, current first step is
      skipped, the second step's refresh makes it stale, and the run returns success. */
  lemma {:induction false} ChangedSourcesBreakSuccess(first: Turn, second: Turn)
    requires Succeeds(second) && Injective(first.env.digest)
    requires second.env == first.env.(source := second.env.source) && second.env.source != first.env.source
    ensures var e := Open(Disk(HalfDone(first.env), map[]));
            var (after, result) := RunAll(e, false, [first, second]);
            && !LegacyPrefix(e.steps)
            && result == Returned(Success) && |after.steps| == 2 && !after.steps[0].state.Success?
  {
    hide RunStep, Executed, RefreshedSteps, BuildStepProvenance;
    var steps := HalfDone(first.env);
    var e, turns := Open(Disk(steps, map[])), [first, second];
    assert Current(steps, first.env);
    SettledRunStep(e, 0, false, first);
    assert IsStale(steps, 0, second.env) by {
      SignatureIdentifiesFacts(first.env, "prepare", "python", None, second.env, "prepare", "python", None);
    }
    assert FirstStaleFrom(steps, 0, second.env) == 0;
    RefreshNeverPromotes(steps, second.env);
    RunStepEffect(e, 1, false, second);
    RunStepSuccesses(e, 1, false, second);
    var last := RunStep(e, 1, false, second).0;
    assert RunFrom(last, 2, false, turns) == (last, Returned(Success));
    assert RunFrom(e, 1, false, turns) == (last, Returned(Success));
    assert steps[0].provenance.Some?;
  }

  function LegacyTriple(): seq<FlowStep> {
    [FlowStep("prepare", "python", Success, "", None, None, None),
     FlowStep("elab", "slang", Unstart, "", None, None, None),
     FlowStep("lint", "verilator", Unstart, "", None, None, None)]
  }

  /** A returned success that cannot be trusted: the first step was recorded before provenance
      existed, the second one runs and is the first to be tracked, and the third one's refresh
      then makes both stale. */
  lemma {:induction false} LegacyRunReturnsSuccess(turn: Turn)
    requires Succeeds(turn)
    ensures var e := Open(Disk(LegacyTriple(), map[]));
            var (after, result) := RunAll(e, false, [turn, turn, turn]);
            && LegacyPrefix(e.steps)
            && result == Returned(Success) && |after.steps| == 3 && !FlowSuccess(after.steps)
  {
    hide RunStep, Executed, RefreshedSteps, CarriesCurrentSignature;
    var steps := LegacyTriple();
    var e, turns := Open(Disk(steps, map[])), [turn, turn, turn];
    assert !Tracked(steps) && Current(steps, turn.env);
    SettledRunStep(e, 0, false, turn);
    SettledRunStep(e, 1, false, turn);
    var next := RunStep(e, 1, false, turn).0;
    assert !next.steps[2].state.Success? by { NothingBehind(steps, turn, next.steps); }
    RefreshNeverPromotes(next.steps, turn.env);
    RunStepEffect(next, 2, false, turn);
    var last := RunStep(next, 2, false, turn).0;
    assert RunFrom(last, 3, false, turns) == (last, Returned(Success));
    assert RunFrom(next, 2, false, turns).1 == Returned(Success);
    assert RunFrom(e, 1, false, turns).1 == Returned(Success);
    assert RunAll(e, false, turns).1 == Returned(Success);
    assert LegacyPrefix(steps) by { assert !steps[1].state.Success?; }
    ReturnedSuccess(e, turns, turn.env, turns);
  }

  lemma {:induction false} NothingBehind(steps: seq<FlowStep>, turn: Turn, after: seq<FlowStep>)
    requires |steps| == 3 && |after| == 3 && Executed(steps, 1, turn, after)
    ensures !after[2].state.Success?
  {
  }
}
