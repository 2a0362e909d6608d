/** Completed flow commands in a stable environment: what their start, the names of the steps
    and the automatic prepare refresh say about the flow they leave. */
module FlowCompletion {
  import opened Options
  import opened StepProvenance
  import opened Flow
  import opened FlowTheorems
  import opened FlowRuns
  import opened FlowService
  import opened FlowEnds

  ghost predicate StableCommand(turns: seq<FlowTurn>, env: Environment) {
    forall i | 0 <= i < |turns| :: turns[i].turn.env == env && turns[i].prepareTurn.env == env
  }

  // Runs of one step

  lemma {:induction false} PrefixIsNotStale(steps: seq<FlowStep>, m: nat, env: Environment)
    requires m <= |steps| && CurrentPrefix(steps, m, env)
    ensures SuccessBefore(steps, m) && m <= FirstStaleFrom(steps, 0, env)
  {
    forall i | 0 <= i < m ensures steps[i].state.Success? && !IsStale(steps, i, env) {
      assert IsCurrent(steps, i, env);
    }
  }

  lemma {:induction false} SamePrefix(steps: seq<FlowStep>, steps': seq<FlowStep>, m: nat, env: Environment)
    requires m <= |steps| && m <= |steps'| && steps[..m] == steps'[..m] && CurrentPrefix(steps, m, env)
    ensures CurrentPrefix(steps', m, env)
  {
    forall i | 0 <= i < m ensures IsCurrent(steps', i, env) {
      assert steps'[i] == steps'[..m][i] == steps[..m][i] == steps[i] && IsCurrent(steps, i, env);
      if i > 0 {
        assert steps'[i-1] == steps'[..m][i-1] == steps[..m][i-1] == steps[i-1];
      }
    }
  }

  lemma {:induction false} RefreshKeepsPrefix(steps: seq<FlowStep>, m: nat, env: Environment)
    requires m <= |steps| && CurrentPrefix(steps, m, env)
    ensures var refreshed := RefreshedSteps(steps, env);
            |refreshed| == |steps| && refreshed[..m] == steps[..m] && CurrentPrefix(refreshed, m, env)
  {
    hide IsStale, CurrentPrefix;
    PrefixIsNotStale(steps, m, env);
    var refreshed := RefreshedSteps(steps, env);
    assert refreshed[..m] == steps[..m];
    SamePrefix(steps, refreshed, m, env);
  }

  /** A successful run keeps a current prefix, and its own step extends it unless that is
      skipped in a flow without records. */
  lemma {:induction false} RunKeepsPrefix(e: Engine, k: nat, force: bool, turn: Turn, m: nat)
    requires m <= k < |e.steps| && CurrentPrefix(e.steps, m, turn.env)
    requires RunStep(e, k, force, turn).1 == Returned(Success)
    ensures var after := RunStep(e, k, force, turn).0.steps;
            && SameNames(e.steps, after) && |after| == |e.steps|
            && CurrentPrefix(after, m, turn.env)
            && (force ==> Tracked(after))
            && (m == k && (force || Tracked(e.steps) || SuccessesAreTracked(e.steps)) ==>
                  CurrentPrefix(after, k + 1, turn.env))
  {
    hide RunStep, RefreshedSteps, CarriesCurrentSignature, CurrentPrefix;
    RunStepEffect(e, k, force, turn);
    RunStepKeepsShape(e, k, force, turn);
    RefreshKeepsPrefix(e.steps, m, turn.env);
    var refreshed := RefreshedSteps(e.steps, turn.env);
    var after := RunStep(e, k, force, turn).0.steps;
    if force || !refreshed[k].state.Success? {
      assert after[..m] == after[..k][..m] == refreshed[..k][..m] == refreshed[..m];
      SamePrefix(refreshed, after, m, turn.env);
      SignedHasRecord(after, k, turn.env);
      if m == k {
        ExtendPrefix(refreshed, k, turn, after, turn.env);
      }
    } else {
      RefreshEffect(e, turn.env);
      if m == k && (Tracked(e.steps) || SuccessesAreTracked(e.steps)) {
        SkippedIsCurrent(e.steps, k, turn.env);
      }
    }
  }

  lemma {:induction false} SignedHasRecord(steps: seq<FlowStep>, k: nat, env: Environment)
    requires k < |steps| && CarriesCurrentSignature(steps, k, env)
    ensures steps[k].provenance.Some?
  {
  }

  lemma {:induction false} SkippedIsCurrent(steps: seq<FlowStep>, k: nat, env: Environment)
    requires k < |steps| && CurrentPrefix(steps, k, env)
    requires Tracked(steps) || SuccessesAreTracked(steps)
    requires var refreshed := RefreshedSteps(steps, env); |refreshed| == |steps| && refreshed[k].state.Success?
    ensures CurrentPrefix(RefreshedSteps(steps, env), k + 1, env)
  {
    var s := FirstStaleFrom(steps, 0, env);
    assert k < s && !IsStale(steps, k, env);
    forall i | 0 <= i < k + 1 ensures IsCurrent(steps, i, env) {
    }
    RefreshKeepsPrefix(steps, k + 1, env);
  }

  // Turns of the command

  /** How many steps must be successes when the turn begins: all before its own, except that a
      due prepare refresh runs prepare itself. */
  function Needed(steps: seq<FlowStep>, k: nat, refreshed: bool, turn: FlowTurn): (n: nat)
    requires k < |steps|
    ensures n <= k
  {
    if !PrepareDue(steps, k, refreshed, turn) then k
    else
      var p := StepIndex(steps, "prepare", 0).value;
      if p < k then p else k
  }

  /** A prepare refresh that is due when other steps lie between prepare and the turn's own: it
      stales them, and the command does not return to them. */
  predicate LeavesGap(steps: seq<FlowStep>, k: nat, refreshed: bool, turn: FlowTurn)
    requires k < |steps|
  {
    PrepareDue(steps, k, refreshed, turn) && StepIndex(steps, "prepare", 0).value + 1 < k
  }

  /** The only prepare refresh from turn `k` on, if there is one, leaves such a gap. */
  predicate RefreshLeavesGap(steps: seq<FlowStep>, k: nat, refreshed: bool, turns: seq<FlowTurn>)
    requires k <= |steps| == |turns|
    decreases |steps| - k
  {
    k < |steps| &&
    (LeavesGap(steps, k, refreshed, turns[k])
     || RefreshLeavesGap(steps, k + 1, refreshed || PrepareDue(steps, k, refreshed, turns[k]), turns))
  }

  lemma {:induction false} GapsAgree(steps: seq<FlowStep>, steps': seq<FlowStep>, k: nat, refreshed: bool,
                                     turns: seq<FlowTurn>)
    requires SameNames(steps, steps') && k <= |steps| == |turns|
    ensures RefreshLeavesGap(steps, k, refreshed, turns) == RefreshLeavesGap(steps', k, refreshed, turns)
    decreases |steps| - k
  {
    if k < |steps| {
      StepIndexAgrees(steps, steps', "prepare", 0);
      GapsAgree(steps, steps', k + 1, false, turns);
      GapsAgree(steps, steps', k + 1, true, turns);
    }
  }

  lemma {:induction false} PrepareSettled(e: Engine, k: nat, refreshed: bool, turn: FlowTurn, env: Environment)
    requires k < |e.steps| && turn.prepareTurn.env == env
    requires RefreshPrepare(e, k, refreshed, turn).2 == Returned(Success)
    requires CurrentPrefix(e.steps, Needed(e.steps, k, refreshed, turn), env)
    ensures var ready := RefreshPrepare(e, k, refreshed, turn).0.steps;
            && SameNames(e.steps, ready) && |ready| == |e.steps|
            && (PrepareHarmless(e, k, refreshed, turn) <==> !LeavesGap(e.steps, k, refreshed, turn))
            && (PrepareDue(e.steps, k, refreshed, turn) ==> Tracked(ready))
            && (!PrepareDue(e.steps, k, refreshed, turn) ==> ready == e.steps)
            && (!LeavesGap(e.steps, k, refreshed, turn) ==> CurrentPrefix(ready, k, env))
  {
    hide RunStep, CurrentPrefix, FirstStaleFrom, SuccessesAreTracked, Tracked;
    PrefixIsNotStale(e.steps, Needed(e.steps, k, refreshed, turn), env);
    if PrepareDue(e.steps, k, refreshed, turn) {
      var p := StepIndex(e.steps, "prepare", 0).value;
      RunKeepsPrefix(e, p, true, turn.prepareTurn, if p < k then p else k);
    }
  }

  lemma {:induction false} IterationSettled(e: Engine, k: nat, force: bool, refreshed: bool, turn: FlowTurn,
                                            env: Environment)
    requires k < |e.steps| && turn.prepareTurn.env == turn.turn.env == env
    requires Iterate(e, k, force, refreshed, turn).2.None?
    requires CurrentPrefix(e.steps, Needed(e.steps, k, refreshed, turn), env)
    ensures var next := Iterate(e, k, force, refreshed, turn).0.steps;
            && SameNames(e.steps, next) && |next| == |e.steps|
            && (IterationHarmless(e, k, refreshed, turn) <==> !LeavesGap(e.steps, k, refreshed, turn))
            && (!LeavesGap(e.steps, k, refreshed, turn)
                && (force || Tracked(e.steps) || SuccessesAreTracked(e.steps)) ==>
                  CurrentPrefix(next, k + 1, env))
  {
    hide RunStep, RefreshPrepare, CurrentPrefix, FirstStaleFrom, SuccessesAreTracked, Tracked, LeavesGap, PrepareDue,
      PrepareHarmless, Needed;
    PrepareSettled(e, k, refreshed, turn, env);
    var ready := RefreshPrepare(e, k, refreshed, turn).0;
    IterationKeepsSuccesses(e, k, force, refreshed, turn);
    if !LeavesGap(e.steps, k, refreshed, turn) {
      PrefixIsNotStale(ready.steps, k, env);
      RunKeepsPrefix(ready, k, force, turn.turn, k);
    }
  }

  lemma {:induction false} PrefixIsTracked(steps: seq<FlowStep>, k: nat, env: Environment)
    requires 0 < k <= |steps| && CurrentPrefix(steps, k, env)
    ensures Tracked(steps)
  {
    assert IsCurrent(steps, 0, env);
  }

  lemma {:induction false} RefreshedNext(e: Engine, k: nat, force: bool, refreshed: bool, turn: FlowTurn)
    requires k < |e.steps|
    ensures Iterate(e, k, force, refreshed, turn).1 == (refreshed || PrepareDue(e.steps, k, refreshed, turn))
  {
    hide RunStep;
  }

  lemma {:induction false} ShorterPrefix(steps: seq<FlowStep>, m: nat, k: nat, env: Environment)
    requires m <= k <= |steps| && CurrentPrefix(steps, k, env)
    ensures CurrentPrefix(steps, m, env)
  {
    forall i | 0 <= i < m ensures IsCurrent(steps, i, env) {
    }
  }

  lemma {:induction false} TailIsHarmless(e: Engine, k: nat, start: Option<nat>, rerun: bool, refreshed: bool,
                                          turns: seq<FlowTurn>, env: Environment)
    requires k <= |e.steps| == |turns| && StableCommand(turns, env)
    requires RunSelected(e, k, start, rerun, refreshed, turns).1 == Completed
    requires k < |e.steps| ==> CurrentPrefix(e.steps, Needed(e.steps, k, refreshed, turns[k]), env)
    requires rerun || start == Some(k) || Tracked(e.steps) || SuccessesAreTracked(e.steps)
    ensures CommandHarmless(e, k, start, rerun, refreshed, turns) <==>
            !RefreshLeavesGap(e.steps, k, refreshed, turns)
    decreases |e.steps| - k
  {
    hide Iterate, IterationHarmless, CurrentPrefix, Tracked, SuccessesAreTracked, LeavesGap, PrepareDue, Needed;
    if k < |e.steps| {
      var force := rerun || start == Some(k);
      var (next, refreshed', end) := Iterate(e, k, force, refreshed, turns[k]);
      NeverCompletes(e, k, force, refreshed, turns[k]);
      IterationSettled(e, k, force, refreshed, turns[k], env);
      RefreshedNext(e, k, force, refreshed, turns[k]);
      if !LeavesGap(e.steps, k, refreshed, turns[k]) {
        PrefixIsTracked(next.steps, k + 1, env);
        if k + 1 < |e.steps| {
          ShorterPrefix(next.steps, Needed(next.steps, k + 1, refreshed', turns[k+1]), k + 1, env);
        }
        TailIsHarmless(next, k + 1, start, rerun, refreshed', turns, env);
        GapsAgree(e.steps, next.steps, k + 1, refreshed', turns);
      }
    }
  }

  // Starts without records

  /** In a flow without records, a forced successful step makes the successes before it stale. */
  lemma {:induction false} ForcedMakesStale(e: Engine, k: nat, turn: Turn)
    requires 0 < k < |e.steps| && !Tracked(e.steps) && e.steps[0].state.Success?
    requires RunStep(e, k, true, turn).1 == Returned(Success)
    ensures var after := RunStep(e, k, true, turn).0.steps; |after| == |e.steps| && IsStale(after, 0, turn.env)
  {
    hide RunStep, RefreshedSteps;
    UntrackedIsCurrent(e.steps, turn.env);
    SettledRunStep(e, k, true, turn);
    var after := RunStep(e, k, true, turn).0.steps;
    assert after[0] == after[..k][0] == e.steps[..k][0];
    assert after[k].provenance.Some?;
  }

  lemma {:induction false} StaleIsHarmful(e: Engine, k: nat, refreshed: bool, turn: FlowTurn, env: Environment)
    requires 1 < k < |e.steps| && turn.prepareTurn.env == turn.turn.env == env && IsStale(e.steps, 0, env)
    ensures !IterationHarmless(e, k, refreshed, turn)
  {
    hide RunStep, IsStale;
    assert FirstStaleFrom(e.steps, 0, env) == 0;
  }

  /** The first turn of `--from s` in a flow without records whose steps before are successes:
      it is harmless exactly if it runs one step and is the last one. */
  lemma {:induction false} UntrackedStart(e: Engine, s: nat, rerun: bool, turns: seq<FlowTurn>, env: Environment)
    requires s < |e.steps| == |turns| && StableCommand(turns, env)
    requires RunSelected(e, s, Some(s), rerun, false, turns).1 == Completed
    requires !Tracked(e.steps)
    requires var n := Needed(e.steps, s, false, turns[s]); n > 0 && SuccessBefore(e.steps, n)
    ensures CommandHarmless(e, s, Some(s), rerun, false, turns) <==>
            s + 1 == |e.steps| && !PrepareDue(e.steps, s, false, turns[s])
  {
    hide RunStep, IsStale, Tracked;
    UntrackedIsCurrent(e.steps, env);
    CurrentMeansNoneStale(e.steps, env);
    NeverCompletes(e, s, true, false, turns[s]);
    var next := Iterate(e, s, true, false, turns[s]).0;
    if PrepareDue(e.steps, s, false, turns[s]) {
      var p := StepIndex(e.steps, "prepare", 0).value;
      ForcedMakesStale(e, p, turns[s].prepareTurn);
      var ready := RefreshPrepare(e, s, false, turns[s]).0;
      assert FirstStaleFrom(ready.steps, 0, env) == 0;
      assert !IterationHarmless(e, s, false, turns[s]);
    } else {
      ForcedMakesStale(e, s, turns[s].turn);
      assert IterationHarmless(e, s, false, turns[s]);
      if s + 1 < |e.steps| {
        StaleIsHarmful(next, s + 1, false, turns[s+1], env);
      }
    }
  }

  // Completed commands

  /** What `--from` needs of the steps before its start: they are successes, prepare aside when
      it is rerun first, none of them is stale, and they have records unless only one last step
      is run at all. */
  predicate StartHolds(steps: seq<FlowStep>, s: nat, turn: FlowTurn, env: Environment)
    requires s < |steps|
  {
    var n := Needed(steps, s, false, turn);
    && SuccessBefore(steps, n)
    && n <= FirstStaleFrom(steps, 0, env)
    && (n > 0 && !Tracked(steps) ==> s + 1 == |steps| && !PrepareDue(steps, s, false, turn))
  }

  lemma {:induction false} HoldingPrefix(steps: seq<FlowStep>, n: nat, env: Environment)
    requires n <= |steps| && SuccessBefore(steps, n) && n <= FirstStaleFrom(steps, 0, env)
    requires n == 0 || Tracked(steps)
    ensures CurrentPrefix(steps, n, env)
  {
    forall i | 0 <= i < n ensures IsCurrent(steps, i, env) {
      assert !IsStale(steps, i, env);
    }
  }

  lemma {:induction false} UnmetStart(e: Engine, s: nat, turn: FlowTurn, env: Environment)
    requires s < |e.steps| && turn.prepareTurn.env == turn.turn.env == env
    requires var n := Needed(e.steps, s, false, turn);
             !(SuccessBefore(e.steps, n) && n <= FirstStaleFrom(e.steps, 0, env))
    ensures !IterationHarmless(e, s, false, turn)
  {
    hide RunStep, FirstStaleFrom;
  }

  /** In a stable environment a completed `--from s` leaves a successful flow exactly when the
      steps before the start hold and the prepare refresh, if one is due, leaves no gap: both
      can be read off before the command runs. */
  lemma {:induction false} CompletedFromStep(e: Engine, s: nat, rerun: bool, turns: seq<FlowTurn>, env: Environment)
    requires s < |e.steps| == |turns| && StableCommand(turns, env)
    requires RunFlow(e, Some(s), rerun, turns).1 == Completed
    ensures var begun := CommandBegin(e, Some(s), rerun).steps;
            && |begun| == |e.steps|
            && (FlowSuccess(RunFlow(e, Some(s), rerun, turns).0.steps) <==>
                  StartHolds(begun, s, turns[s], env) && !RefreshLeavesGap(begun, s, false, turns))
  {
    hide RunSelected, CommandHarmless, ClearStates, FirstStaleFrom, Tracked, RefreshLeavesGap, Needed, PrepareDue,
      IterationHarmless, Iterate;
    CompletedMeansSuccess(e, Some(s), rerun, turns);
    var begun := CommandBegin(e, Some(s), rerun);
    BegunRuns(e, s, rerun, turns);
    var n := Needed(begun.steps, s, false, turns[s]);
    if !(SuccessBefore(begun.steps, n) && n <= FirstStaleFrom(begun.steps, 0, env)) {
      UnmetStart(begun, s, turns[s], env);
      FirstTurnCounts(begun, s, rerun, turns);
    } else if n == 0 || Tracked(begun.steps) {
      HoldingPrefix(begun.steps, n, env);
      TailIsHarmless(begun, s, Some(s), rerun, false, turns, env);
    } else {
      UntrackedStart(begun, s, rerun, turns, env);
      LastTurnLeavesNoGap(begun.steps, s, turns);
    }
  }

  lemma {:induction false} FirstTurnCounts(e: Engine, s: nat, rerun: bool, turns: seq<FlowTurn>)
    requires s < |e.steps| == |turns| && !IterationHarmless(e, s, false, turns[s])
    ensures !CommandHarmless(e, s, Some(s), rerun, false, turns)
  {
    hide Iterate, IterationHarmless;
  }

  lemma {:induction false} LastTurnLeavesNoGap(steps: seq<FlowStep>, s: nat, turns: seq<FlowTurn>)
    requires s < |steps| == |turns|
    ensures s + 1 == |steps| && !PrepareDue(steps, s, false, turns[s]) ==> !RefreshLeavesGap(steps, s, false, turns)
  {
    hide PrepareDue;
  }

  lemma {:induction false} BegunRuns(e: Engine, s: nat, rerun: bool, turns: seq<FlowTurn>)
    requires s < |e.steps| == |turns|
    ensures var begun := CommandBegin(e, Some(s), rerun);
            && |begun.steps| == |e.steps|
            && RunFlow(e, Some(s), rerun, turns) == RunSelected(begun, s, Some(s), rerun, false, turns)
  {
    hide RunSelected, ClearStates;
    ClearedLength(e);
  }

  /** So does one without `--from`, when every success has a record or all are cleared first,
      exactly when the prepare refresh leaves no gap. */
  lemma {:induction false} CompletedFlow(e: Engine, rerun: bool, turns: seq<FlowTurn>, env: Environment)
    requires |e.steps| == |turns| && StableCommand(turns, env)
    requires rerun || SuccessesAreTracked(e.steps)
    requires RunFlow(e, None, rerun, turns).1 == Completed
    ensures FlowSuccess(RunFlow(e, None, rerun, turns).0.steps) <==> !RefreshLeavesGap(e.steps, 0, false, turns)
  {
    hide RunSelected, CommandHarmless, Tracked, RefreshLeavesGap, PrepareDue;
    CompletedMeansSuccess(e, None, rerun, turns);
    var begun := CommandBegin(e, None, rerun);
    ClearFromKeepsShape(e, 0);
    TailIsHarmless(begun, 0, None, rerun, false, turns, env);
    GapsAgree(e.steps, begun.steps, 0, false, turns);
  }
}
