/** The regression record of a simulation run: the comparison with the previous run that the
    simulator writes, and the validation that the score puts it through. */
module SimulationRegression {
  import opened Options
  import opened SortedNames
  import opened SimulationScore

  datatype Previous = Previous(runId: string, cases: seq<Case>)

  /** A dictionary by name: nameless cases are left out, and the last of several wins. */
  function Named(cases: seq<Case>): map<string, Case> {
    if cases == [] then map[]
    else
      var before, last := Named(cases[..|cases|-1]), cases[|cases|-1];
      if last.name == "" then before else before[last.name := last]
  }

  /** The same program ran in both runs, and both counted its cycles. */
  predicate Measurable(before: map<string, Case>, now: map<string, Case>, name: string) {
    && name in now && name in before
    && now[name].imageSha256 != "" && now[name].imageSha256 == before[name].imageSha256
    && now[name].cycles.Some? && before[name].cycles.Some?
  }

  function ChangeOf(before: map<string, Case>, now: map<string, Case>, name: string): Change
    requires Measurable(before, now, name)
  {
    var p, c := before[name].cycles.value, now[name].cycles.value;
    Change(name, now[name].imageSha256, p, c, c - p,
           if p == 0 then None else Some((c - p) as real / p as real * 100.0))
  }

  /** A sorted list of exactly the wanted names. */
  ghost predicate Sorted(names: seq<string>, wanted: set<string>) {
    Lists(names, wanted) && InOrder(names)
  }

  /** The record states the comparison of the two runs. */
  ghost predicate Records(r: Regression, previous: Previous, cases: seq<Case>) {
    var before, now := Named(previous.cases), Named(cases);
    && r.hasBaseline && r.baselineRunId == previous.runId
    && Sorted(r.newFailures, set n | n in now && !now[n].ok && (n in before ==> before[n].ok))
    && Sorted(r.persistentFailures, set n | n in now && !now[n].ok && n in before && !before[n].ok)
    && Sorted(r.fixed, set n | n in now && now[n].ok && n in before && !before[n].ok)
    && Sorted(r.added, now.Keys - before.Keys) && Sorted(r.removed, before.Keys - now.Keys)
    && (forall i | 0 <= i < |r.cycleChanges| ::
          Measurable(before, now, r.cycleChanges[i].name)
          && r.cycleChanges[i] == ChangeOf(before, now, r.cycleChanges[i].name))
    && (forall i, j | 0 <= i < j < |r.cycleChanges| :: Before(r.cycleChanges[i].name, r.cycleChanges[j].name))
    && (forall n | Measurable(before, now, n) :: exists i :: 0 <= i < |r.cycleChanges| && r.cycleChanges[i].name == n)
  }

  const NO_BASELINE := Regression(false, "", [], [], [], [], [], [])

  method NamedCases(cases: seq<Case>) returns (named: map<string, Case>)
    ensures named == Named(cases)
  {
    named := map[];
    for i := 0 to |cases|
      invariant named == Named(cases[..i])
    {
      assert cases[..i+1][..i] == cases[..i];
      if cases[i].name != "" {
        named := named[cases[i].name := cases[i]];
      }
    }
    assert cases[..|cases|] == cases;
  }

  method CycleChanges(before: map<string, Case>, now: map<string, Case>) returns (changes: seq<Change>)
    ensures forall i | 0 <= i < |changes| ::
              Measurable(before, now, changes[i].name) && changes[i] == ChangeOf(before, now, changes[i].name)
    ensures forall i, j | 0 <= i < j < |changes| :: Before(changes[i].name, changes[j].name)
    ensures forall n | Measurable(before, now, n) :: exists i :: 0 <= i < |changes| && changes[i].name == n
  {
    hide ChangeOf, Before;
    var names := Sort(now.Keys * before.Keys);
    changes := [];
    for k := 0 to |names|
      invariant forall i | 0 <= i < |changes| ::
                  Measurable(before, now, changes[i].name) && changes[i] == ChangeOf(before, now, changes[i].name)
      invariant forall i | 0 <= i < |changes| :: changes[i].name in names[..k]
      invariant forall i, j | 0 <= i < j < |changes| :: Before(changes[i].name, changes[j].name)
      invariant forall n | n in names[..k] && Measurable(before, now, n) ::
                  exists i :: 0 <= i < |changes| && changes[i].name == n
    {
      var name := names[k];
      assert names[..k+1] == names[..k] + [name];
      forall n | n in names[..k] ensures Before(n, name) {
        var i :| 0 <= i < k && names[i] == n;
      }
      if Measurable(before, now, name) {
        ghost var earlier := changes;
        ChangeNames(before, now, name);
        changes := changes + [ChangeOf(before, now, name)];
        assert changes[|earlier|].name == name;
        forall n | n in names[..k+1] && Measurable(before, now, n)
          ensures exists i :: 0 <= i < |changes| && changes[i].name == n
        {
          if n != name {
            var i :| 0 <= i < |earlier| && earlier[i].name == n;
            assert changes[i].name == n;
          }
        }
      }
    }
    assert names[..|names|] == names;
  }

  lemma {:induction false} ChangeNames(before: map<string, Case>, now: map<string, Case>, name: string)
    requires Measurable(before, now, name)
    ensures ChangeOf(before, now, name).name == name
  {
  }

  /** Without a previous run the record is empty; otherwise it states the comparison. */
  method SimulationRegression(previous: Option<Previous>, cases: seq<Case>) returns (r: Regression)
    ensures previous.None? ==> r == NO_BASELINE
    ensures previous.Some? ==> Records(r, previous.value, cases)
  {
    hide Lists, InOrder, ChangeOf, Before;
    if previous.None? {
      return NO_BASELINE;
    }
    var before := NamedCases(previous.value.cases);
    var now := NamedCases(cases);
    var newFailures := Sort(set n | n in now && !now[n].ok && (n in before ==> before[n].ok));
    var persistent := Sort(set n | n in now && !now[n].ok && n in before && !before[n].ok);
    var fixed := Sort(set n | n in now && now[n].ok && n in before && !before[n].ok);
    var changes := CycleChanges(before, now);
    var added := Sort(now.Keys - before.Keys);
    var removed := Sort(before.Keys - now.Keys);
    r := Regression(true, previous.value.runId, newFailures, persistent, fixed, added, removed, changes);
  }

  // What the validation says about a record

  lemma {:induction false} CaseOfName(cases: seq<Case>, c: Case)
    requires NamesApart(cases) && c in cases
    ensures c.name in ByName(cases) && ByName(cases)[c.name] == c
    ensures c.name != "" ==> c.name in Named(cases) && Named(cases)[c.name] == c
    decreases |cases|
  {
    var front, last := cases[..|cases|-1], cases[|cases|-1];
    assert cases == front + [last];
    if c != last {
      CaseOfName(front, c);
      var i :| 0 <= i < |front| && front[i] == c;
      assert cases[i].name != cases[|cases|-1].name;
    }
  }

  lemma {:induction false} NameOfCase(cases: seq<Case>, name: string)
    ensures name in ByName(cases) ==> ByName(cases)[name] in cases && ByName(cases)[name].name == name
    ensures name in Named(cases) ==>
              name != "" && Named(cases)[name] in cases && Named(cases)[name].name == name
    decreases |cases|
  {
    if cases != [] {
      NameOfCase(cases[..|cases|-1], name);
    }
  }

  ghost predicate ListsNames(names: seq<string>) {
    Distinct(names) && "" !in names
  }

  /** A case fails exactly if it is listed, as a new or as a persistent failure, and not both. */
  ghost predicate ListsFailures(r: Regression, cases: seq<Case>) {
    && (forall c | c in cases :: !c.ok <==> c.name in r.newFailures || c.name in r.persistentFailures)
    && (forall n | n in r.newFailures || n in r.persistentFailures :: exists c :: c in cases && c.name == n)
    && (forall n | n in r.newFailures :: n !in r.persistentFailures)
  }

  /** The change is that of a case of the run, correctly calculated. */
  ghost predicate StatesChange(change: Change, cases: seq<Case>) {
    exists c :: c in cases && c.name == change.name && c.imageSha256 == change.imageSha256
      && c.cycles == Some(change.current) && IsSha256(change.imageSha256)
      && change.previous >= 0 && change.current >= 0 && change.delta == change.current - change.previous
      && (if change.previous == 0 then change.deltaPercent == None
          else change.deltaPercent.Some? &&
               IsClose(change.deltaPercent.value, change.delta as real / change.previous as real * 100.0))
  }

  /** For cases with names of their own, exactly when a record is valid: its lists name cases
      once; with a previous run every failing case, and nothing else, is a new or a persistent
      failure, never both; fixed cases pass and added ones belong to the run; the changes state
      what cases of the run counted; and without a previous run there is nothing to state. */
  lemma {:induction false} ValidMeans(r: Regression, cases: seq<Case>)
    requires NamesApart(cases)
    ensures ValidSimRegression(r, cases) <==>
            && ListsNames(r.newFailures) && ListsNames(r.persistentFailures) && ListsNames(r.fixed)
            && ListsNames(r.added) && ListsNames(r.removed)
            && (r.hasBaseline ==> ListsFailures(r, cases))
            && (forall n | n in r.fixed :: exists c :: c in cases && c.name == n && c.ok)
            && (forall n | n in r.added :: exists c :: c in cases && c.name == n)
            && (forall change | change in r.cycleChanges :: StatesChange(change, cases))
            && ChangesApart(r.cycleChanges)
            && (if r.hasBaseline then r.baselineRunId != "" else r == NO_BASELINE)
  {
    hide ValidChange, StatesChange, ChangesApart;
    forall change | change in r.cycleChanges
      ensures ValidChange(change, ByName(cases)) <==> StatesChange(change, cases)
    {
      ChangeMeans(change, cases);
    }
    ListsMean(r, cases);
  }

  lemma {:induction false} ChangeMeans(change: Change, cases: seq<Case>)
    requires NamesApart(cases)
    ensures ValidChange(change, ByName(cases)) <==> StatesChange(change, cases)
  {
    hide IsSha256, IsClose, ByName;
    NameOfCase(cases, change.name);
    forall c | c in cases && c.name == change.name ensures c.name in ByName(cases) && ByName(cases)[c.name] == c {
      CaseOfName(cases, c);
    }
  }

  lemma {:induction false} ListsMean(r: Regression, cases: seq<Case>)
    requires NamesApart(cases)
    ensures ValidLists(r, ByName(cases)) <==>
            && ListsNames(r.newFailures) && ListsNames(r.persistentFailures) && ListsNames(r.fixed)
            && ListsNames(r.added) && ListsNames(r.removed)
            && (r.hasBaseline ==> ListsFailures(r, cases))
            && (forall n | n in r.fixed :: exists c :: c in cases && c.name == n && c.ok)
            && (forall n | n in r.added :: exists c :: c in cases && c.name == n)
  {
    hide ByName, NamesApart;
    var byName := ByName(cases);
    forall c | c in cases ensures c.name in byName && byName[c.name] == c {
      CaseOfName(cases, c);
    }
    forall n | n in byName ensures byName[n] in cases && byName[n].name == n {
      NameOfCase(cases, n);
    }
    FailuresMean(r, cases, byName);
    PassingMean(r, cases, byName);
  }

  /** The dictionary finds exactly the cases. */
  ghost predicate Finds(byName: map<string, Case>, cases: seq<Case>) {
    && (forall c | c in cases :: c.name in byName && byName[c.name] == c)
    && (forall n | n in byName :: byName[n] in cases && byName[n].name == n)
  }

  lemma {:induction false} FailuresMean(r: Regression, cases: seq<Case>, byName: map<string, Case>)
    requires Finds(byName, cases)
    ensures Elements(r.newFailures) + Elements(r.persistentFailures) == Failed(byName)
            && Elements(r.newFailures) !! Elements(r.persistentFailures)
            <==> ListsFailures(r, cases)
  {
    var both, failed := Elements(r.newFailures) + Elements(r.persistentFailures), Failed(byName);
    assert Elements(r.newFailures) !! Elements(r.persistentFailures) <==>
           forall n | n in r.newFailures :: n !in r.persistentFailures by {
      if Elements(r.newFailures) !! Elements(r.persistentFailures) {
        forall n | n in r.newFailures ensures n !in r.persistentFailures {
          assert n in Elements(r.newFailures);
        }
      }
    }
    if both == failed {
      forall n | n in r.newFailures || n in r.persistentFailures ensures exists c :: c in cases && c.name == n {
        assert n in both;
        assert byName[n] in cases && byName[n].name == n;
      }
      forall c | c in cases ensures !c.ok <==> c.name in r.newFailures || c.name in r.persistentFailures {
        assert c.name in both <==> c.name in failed;
      }
    }
    if ListsFailures(r, cases) {
      forall n ensures n in both <==> n in failed {
        if n in failed {
          assert byName[n] in cases;
        }
        if n in both {
          var c :| c in cases && c.name == n;
        }
      }
    }
  }

  lemma {:induction false} PassingMean(r: Regression, cases: seq<Case>, byName: map<string, Case>)
    requires Finds(byName, cases)
    ensures Elements(r.fixed) <= byName.Keys - Failed(byName) <==>
            forall n | n in r.fixed :: exists c :: c in cases && c.name == n && c.ok
    ensures Elements(r.added) <= byName.Keys <==> forall n | n in r.added :: exists c :: c in cases && c.name == n
  {
    if Elements(r.fixed) <= byName.Keys - Failed(byName) {
      forall n | n in r.fixed ensures exists c :: c in cases && c.name == n && c.ok {
        assert n in Elements(r.fixed);
        assert byName[n] in cases;
      }
    }
    if Elements(r.added) <= byName.Keys {
      forall n | n in r.added ensures exists c :: c in cases && c.name == n {
        assert n in Elements(r.added);
        assert byName[n] in cases;
      }
    }
  }

  // What the simulator writes is valid

  /** Exactly when the record that is written is valid, for cases that the score accepts: every
      failing case has a name; and with a previous run, that has an identifier, and no compared
      count is negative. */
  lemma {:induction false} WrittenIsValid(r: Regression, previous: Option<Previous>, cases: seq<Case>, suite: string,
                                          runId: string)
    requires NamesApart(cases) && forall c | c in cases :: ValidScoredCase(c, suite, runId)
    requires previous.None? ==> r == NO_BASELINE
    requires previous.Some? ==> Records(r, previous.value, cases)
    ensures ValidSimRegression(r, cases) <==>
            previous.Some? ==>
              && previous.value.runId != ""
              && (forall c | c in cases && !c.ok :: c.name != "")
              && (forall n | Measurable(Named(previous.value.cases), Named(cases), n) ::
                    Named(previous.value.cases)[n].cycles.value >= 0 && Named(cases)[n].cycles.value >= 0)
  {
    hide ValidSimRegression, StatesChange, Measurable, Sorted, ListsNames, ListsFailures;
    ValidMeans(r, cases);
    if previous.None? {
      NothingToState(cases);
    } else {
      var before, now := Named(previous.value.cases), Named(cases);
      WrittenLists(r, previous.value, cases);
      forall i | 0 <= i < |r.cycleChanges|
        ensures StatesChange(r.cycleChanges[i], cases) <==>
                r.cycleChanges[i].previous >= 0 && r.cycleChanges[i].current >= 0
        ensures var n := r.cycleChanges[i].name;
                && Measurable(before, now, n) && n in before && n in now
                && before[n].cycles == Some(r.cycleChanges[i].previous)
                && now[n].cycles == Some(r.cycleChanges[i].current)
      {
        WrittenChange(before, cases, r.cycleChanges[i], suite, runId);
      }
      ChangesOfPairs(r, before, now);
    }
  }

  lemma {:induction false} NothingToState(cases: seq<Case>)
    ensures ListsNames([]) && !NO_BASELINE.hasBaseline && ChangesApart([])
  {
  }

  lemma {:induction false} WrittenLists(r: Regression, previous: Previous, cases: seq<Case>)
    requires NamesApart(cases) && Records(r, previous, cases)
    ensures ListsNames(r.newFailures) && ListsNames(r.persistentFailures) && ListsNames(r.fixed)
    ensures ListsNames(r.added) && ListsNames(r.removed) && ChangesApart(r.cycleChanges)
    ensures ListsFailures(r, cases) <==> forall c | c in cases && !c.ok :: c.name != ""
    ensures forall n | n in r.fixed :: exists c :: c in cases && c.name == n && c.ok
    ensures forall n | n in r.added :: exists c :: c in cases && c.name == n
  {
    hide Measurable, ChangeOf, NamesApart;
    var before, now := Named(previous.cases), Named(cases);
    forall n | n in now ensures n != "" && now[n] in cases && now[n].name == n {
      NameOfCase(cases, n);
    }
    forall n | n in before ensures n != "" {
      NameOfCase(previous.cases, n);
    }
    forall c | c in cases && c.name != "" ensures c.name in now && now[c.name] == c {
      CaseOfName(cases, c);
    }
    forall i, j | 0 <= i < j < |r.cycleChanges| ensures r.cycleChanges[i].name != r.cycleChanges[j].name {
      BeforeIsStrict(r.cycleChanges[i].name, r.cycleChanges[j].name);
    }
    FailuresWritten(r, before, now, cases);
  }

  lemma {:induction false} FailuresWritten(r: Regression, before: map<string, Case>, now: map<string, Case>,
                                           cases: seq<Case>)
    requires forall n | n in now :: n != "" && now[n] in cases && now[n].name == n
    requires forall c | c in cases && c.name != "" :: c.name in now && now[c.name] == c
    requires Sorted(r.newFailures, set n | n in now && !now[n].ok && (n in before ==> before[n].ok))
    requires Sorted(r.persistentFailures, set n | n in now && !now[n].ok && n in before && !before[n].ok)
    ensures ListsFailures(r, cases) <==> forall c | c in cases && !c.ok :: c.name != ""
  {
    forall n | n in r.newFailures || n in r.persistentFailures ensures exists c :: c in cases && c.name == n {
      assert now[n] in cases;
    }
    if forall c | c in cases && !c.ok :: c.name != "" {
      forall c | c in cases ensures !c.ok <==> c.name in r.newFailures || c.name in r.persistentFailures {
        if c.name in r.newFailures || c.name in r.persistentFailures {
          assert c.name != "" && now[c.name] == c;
        }
      }
    }
  }

  lemma {:induction false} WrittenChange(before: map<string, Case>, cases: seq<Case>, change: Change, suite: string,
                                         runId: string)
    requires NamesApart(cases) && forall c | c in cases :: ValidScoredCase(c, suite, runId)
    requires Measurable(before, Named(cases), change.name) && change == ChangeOf(before, Named(cases), change.name)
    ensures change.name in before && change.name in Named(cases)
    ensures before[change.name].cycles == Some(change.previous)
    ensures Named(cases)[change.name].cycles == Some(change.current)
    ensures StatesChange(change, cases) <==> change.previous >= 0 && change.current >= 0
  {
    hide IsSha256, NamesApart;
    NameOfCase(cases, change.name);
    var c := Named(cases)[change.name];
    assert ValidScoredCase(c, suite, runId);
    if change.previous != 0 {
      ExactIsClose(change.deltaPercent.value);
    }
  }

  lemma {:induction false} ExactIsClose(x: real)
    ensures IsClose(x, x)
  {
  }

  lemma {:induction false} ChangesOfPairs(r: Regression, before: map<string, Case>, now: map<string, Case>)
    requires forall n | Measurable(before, now, n) ::
               exists i :: 0 <= i < |r.cycleChanges| && r.cycleChanges[i].name == n
    requires forall i | 0 <= i < |r.cycleChanges| ::
               var n := r.cycleChanges[i].name;
               && Measurable(before, now, n) && n in before && n in now
               && before[n].cycles == Some(r.cycleChanges[i].previous)
               && now[n].cycles == Some(r.cycleChanges[i].current)
    ensures (forall i | 0 <= i < |r.cycleChanges| :: r.cycleChanges[i].previous >= 0 && r.cycleChanges[i].current >= 0)
            <==> forall n | Measurable(before, now, n) :: before[n].cycles.value >= 0 && now[n].cycles.value >= 0
  {
    if forall i | 0 <= i < |r.cycleChanges| :: r.cycleChanges[i].previous >= 0 && r.cycleChanges[i].current >= 0 {
      forall n | Measurable(before, now, n) ensures before[n].cycles.value >= 0 && now[n].cycles.value >= 0 {
        var i :| 0 <= i < |r.cycleChanges| && r.cycleChanges[i].name == n;
        assert before[n].cycles == Some(r.cycleChanges[i].previous);
      }
    }
  }
}
