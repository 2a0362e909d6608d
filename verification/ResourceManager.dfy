/** The installer as the resource manager runs it: one set of resources on the current path,
    shared by the recursive calls and kept up to date in place. */
module ResourceManager {
  import opened Collections
  import opened Installer

  datatype Result = Success(records: seq<Record>) | Failure(error: Error)

  class VisitingSet {
    var ids: set<Id>

    constructor ()
      ensures ids == {}
    {
      ids := {};
    }
  }

  /** The result and the installed resources that the specification prescribes. */
  predicate Agrees(result: Result, installed: set<Id>, outcome: Outcome) {
    && installed == outcome.installed
    && match outcome
       case Raised(error, _) => result == Failure(error)
       case Done(records, _) => result == Success(records)
  }

  /** What a list of installations amounts to after its first records are in. */
  function Prepend(records: seq<Record>, rest: Outcome): Outcome {
    match rest
    case Raised(_, _) => rest
    case Done(later, installed) => Done(records + later, installed)
  }

  lemma {:induction false} NextInstalled(reg: Registry, failing: set<Id>, ids: seq<Id>, i: nat, visiting: set<Id>,
                                         installed: set<Id>, records: seq<Record>)
    requires i < |ids|
    ensures var first := Install(reg, failing, ids[i], visiting, installed);
            Prepend(records, InstallAll(reg, failing, ids[i..], visiting, installed)) ==
            match first
            case Raised(_, _) => first
            case Done(one, installed') =>
              Prepend(records + one, InstallAll(reg, failing, ids[i+1..], visiting, installed'))
  {
    hide Install;
    assert ids[i..][0] == ids[i] && ids[i..][1..] == ids[i+1..];
    match Install(reg, failing, ids[i], visiting, installed) {
      case Raised(_, _) =>
      case Done(one, installed') =>
        match InstallAll(reg, failing, ids[i+1..], visiting, installed') {
          case Raised(_, _) =>
          case Done(later, _) => assert records + (one + later) == (records + one) + later;
        }
    }
  }

  lemma {:induction false} NothingLeft(reg: Registry, failing: set<Id>, ids: seq<Id>, visiting: set<Id>,
                                       installed: set<Id>, records: seq<Record>)
    requires |ids| == 0
    ensures Prepend(records, InstallAll(reg, failing, ids, visiting, installed)) == Done(records, installed)
  {
    assert records + [] == records;
  }

  class Manager {
    const registry: Registry
    /** The resources whose download, verification or installation fails. */
    const failing: set<Id>
    var installed: set<Id>

    constructor (registry: Registry, failing: set<Id>, installed: set<Id>)
      ensures this.registry == registry && this.failing == failing && this.installed == installed
    {
      this.registry, this.failing, this.installed := registry, failing, installed;
    }

    method InstallOne(id: Id) returns (result: Result)
      modifies this`installed
      ensures Agrees(result, installed, Installer.InstallOne(failing, id, old(installed)))
    {
      if id in installed {
        return Success([Record(id, AlreadyInstalled)]);
      }
      if id in failing {
        return Failure(InstallFailed);
      }
      installed := installed + {id};
      return Success([Record(id, Installed)]);
    }

    method DedupeRecords(records: seq<Record>) returns (result: seq<Record>)
      ensures result == Dedupe(records)
    {
      result := [];
      for k := 0 to |records|
        invariant result == Dedupe(records[..k])
      {
        assert records[..k+1][..k] == records[..k] && records[..k+1][k] == records[k];
        var i := IndexOf(result, records[k].id);
        if i >= 0 {
          result := result[i := records[k]];
        } else {
          result := result + [records[k]];
        }
      }
      assert records[..|records|] == records;
    }

    /** The path is restored, except that a resource missing from the registry stays on it. */
    method Install(id: Id, visiting: VisitingSet) returns (result: Result)
      modifies this`installed, visiting
      ensures Agrees(result, installed, Installer.Install(registry, failing, id, old(visiting.ids), old(installed)))
      ensures result != Failure(NotFound) ==> visiting.ids == old(visiting.ids)
      ensures result == Failure(NotFound) ==> exists x :: x !in registry && visiting.ids == old(visiting.ids) + {x}
      decreases registry.Keys - visiting.ids, 0
    {
      if id in visiting.ids {
        return Failure(CycleDetected);
      }
      visiting.ids := visiting.ids + {id};
      if id !in registry {
        return Failure(NotFound);
      }
      Smaller(registry.Keys, old(visiting.ids), id);
      result := InstallDependencies(registry[id], visiting);
      if result.Success? {
        var one := InstallOne(id);
        result := if one.Success? then Success(result.records + one.records) else one;
      }
      visiting.ids := visiting.ids - {id};
      if result.Success? {
        var records := DedupeRecords(result.records);
        result := Success(records);
      }
    }

    method InstallDependencies(ids: seq<Id>, visiting: VisitingSet) returns (result: Result)
      modifies this`installed, visiting
      ensures Agrees(result, installed, InstallAll(registry, failing, ids, old(visiting.ids), old(installed)))
      ensures result != Failure(NotFound) ==> visiting.ids == old(visiting.ids)
      ensures result == Failure(NotFound) ==> exists x :: x !in registry && visiting.ids == old(visiting.ids) + {x}
      decreases registry.Keys - visiting.ids, 1
    {
      var records, i := [], 0;
      while i < |ids|
        invariant 0 <= i <= |ids| && visiting.ids == old(visiting.ids)
        invariant InstallAll(registry, failing, ids, old(visiting.ids), old(installed)) ==
                  Prepend(records, InstallAll(registry, failing, ids[i..], visiting.ids, installed))
      {
        NextInstalled(registry, failing, ids, i, visiting.ids, installed, records);
        result := Install(ids[i], visiting);
        if result.Failure? {
          return;
        }
        records := records + result.records;
        i := i + 1;
      }
      NothingLeft(registry, failing, ids[i..], visiting.ids, installed, records);
      result := Success(records);
    }

    method InstallRequired(required: seq<Id>) returns (result: Result)
      modifies this`installed
      ensures Agrees(result, installed, Installer.InstallRequired(registry, failing, required, old(installed)))
    {
      var records, i := [], 0;
      while i < |required|
        invariant 0 <= i <= |required|
        invariant InstallAll(registry, failing, required, {}, old(installed)) ==
                  Prepend(records, InstallAll(registry, failing, required[i..], {}, installed))
      {
        NextInstalled(registry, failing, required, i, {}, installed, records);
        var visiting := new VisitingSet();
        result := Install(required[i], visiting);
        if result.Failure? {
          return;
        }
        records := records + result.records;
        i := i + 1;
      }
      NothingLeft(registry, failing, required[i..], {}, installed, records);
      records := DedupeRecords(records);
      result := Success(records);
    }
  }
}
