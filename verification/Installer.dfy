/** Installing a resource with its dependencies: a depth-first walk that only remembers its
    current path, detects cycles, and reports the installed resources without duplicates. */
module Installer {
  import opened Collections

  type Id = string

  /** Per resolvable resource the resources it requires. */
  type Registry = map<Id, seq<Id>>

  datatype Status = Installed | AlreadyInstalled

  datatype Record = Record(id: Id, status: Status)

  datatype Error = CycleDetected | NotFound | InstallFailed

  /** Either way, what is installed afterwards: a failure undoes no earlier installation. */
  datatype Outcome = Raised(error: Error, installed: set<Id>) | Done(records: seq<Record>, installed: set<Id>)

  function Ids(records: seq<Record>): (ids: seq<Id>)
    ensures |ids| == |records| && forall i | 0 <= i < |records| :: ids[i] == records[i].id
  {
    seq(|records|, i requires 0 <= i < |records| => records[i].id)
  }

  function IndexOf(records: seq<Record>, id: Id): (i: int)
    ensures -1 <= i < |records|
    ensures i >= 0 ==> records[i].id == id
    ensures i == -1 ==> id !in Ids(records)
  {
    if records == [] then -1
    else if records[|records|-1].id == id then |records| - 1
    else
      var i := IndexOf(records[..|records|-1], id);
      assert i == -1 ==> forall j | 0 <= j < |records| :: Ids(records)[j] != id by {
        if i == -1 {
          forall j | 0 <= j < |records| ensures Ids(records)[j] != id {
            if j < |records| - 1 { assert Ids(records[..|records|-1])[j] == records[j].id; }
          }
        }
      }
      i
  }

  /** A dictionary from ids to records: the place of the first, the value of the last. */
  function Dedupe(records: seq<Record>): seq<Record> {
    if records == [] then []
    else
      var before, last := Dedupe(records[..|records|-1]), records[|records|-1];
      var i := IndexOf(before, last.id);
      if i >= 0 then before[i := last] else before + [last]
  }

  function InstallOne(failing: set<Id>, id: Id, installed: set<Id>): Outcome {
    if id in installed then Done([Record(id, AlreadyInstalled)], installed)
    else if id in failing then Raised(InstallFailed, installed)
    else Done([Record(id, Installed)], installed + {id})
  }

  function Install(reg: Registry, failing: set<Id>, id: Id, visiting: set<Id>, installed: set<Id>): Outcome
    decreases reg.Keys - visiting, 0
  {
    if id in visiting then Raised(CycleDetected, installed)
    else if id !in reg then Raised(NotFound, installed)
    else
      Smaller(reg.Keys, visiting, id);
      match InstallAll(reg, failing, reg[id], visiting + {id}, installed)
      case Raised(error, left) => Raised(error, left)
      case Done(records, installed') =>
        match InstallOne(failing, id, installed')
        case Raised(error, left) => Raised(error, left)
        case Done(one, installed'') => Done(Dedupe(records + one), installed'')
  }

  function InstallAll(reg: Registry, failing: set<Id>, ids: seq<Id>, visiting: set<Id>, installed: set<Id>): Outcome
    decreases reg.Keys - visiting, 1, |ids|
  {
    if ids == [] then Done([], installed)
    else
      match Install(reg, failing, ids[0], visiting, installed)
      case Raised(error, left) => Raised(error, left)
      case Done(first, installed') =>
        match InstallAll(reg, failing, ids[1..], visiting, installed')
        case Raised(error, left) => Raised(error, left)
        case Done(later, installed'') => Done(first + later, installed'')
  }

  /** The explicitly required resources, one after the other. */
  function InstallRequired(reg: Registry, failing: set<Id>, required: seq<Id>, installed: set<Id>): Outcome {
    match InstallAll(reg, failing, required, {}, installed)
    case Raised(error, left) => Raised(error, left)
    case Done(records, installed') => Done(Dedupe(records), installed')
  }

  // Dependency walks

  predicate IsWalk(reg: Registry, walk: seq<Id>) {
    && |walk| > 0
    && forall i | 0 <= i < |walk| - 1 :: walk[i] in reg && walk[i+1] in reg[walk[i]]
  }

  predicate WalkFrom(reg: Registry, id: Id, walk: seq<Id>) {
    IsWalk(reg, walk) && walk[0] == id
  }

  ghost predicate Reaches(reg: Registry, id: Id, target: Id) {
    exists walk :: WalkFrom(reg, id, walk) && walk[|walk|-1] == target
  }

  predicate Repeats(walk: seq<Id>) {
    exists i, j | 0 <= i < j < |walk| :: walk[i] == walk[j]
  }

  ghost predicate CycleReachable(reg: Registry, id: Id) {
    exists walk :: WalkFrom(reg, id, walk) && Repeats(walk)
  }

  ghost predicate Resolvable(reg: Registry, id: Id) {
    forall target :: Reaches(reg, id, target) ==> target in reg
  }

  lemma {:induction false} WalkTail(reg: Registry, id: Id, walk: seq<Id>)
    requires WalkFrom(reg, id, walk) && |walk| > 1
    ensures id in reg && walk[1] in reg[id] && WalkFrom(reg, walk[1], walk[1..])
  {
    assert walk[0] in reg;
    forall i | 0 <= i < |walk[1..]| - 1 ensures walk[1..][i] in reg && walk[1..][i+1] in reg[walk[1..][i]] {
      assert walk[i+1] in reg;
    }
  }

  lemma {:induction false} WalkCons(reg: Registry, id: Id, dep: Id, walk: seq<Id>)
    requires id in reg && dep in reg[id] && WalkFrom(reg, dep, walk)
    ensures WalkFrom(reg, id, [id] + walk)
  {
    forall i | 0 <= i < |[id] + walk| - 1 ensures ([id] + walk)[i] in reg
      && ([id] + walk)[i+1] in reg[([id] + walk)[i]] {
      if i > 0 { assert walk[i-1] in reg; }
    }
  }

  lemma {:induction false} ResolvableDependency(reg: Registry, id: Id, dep: Id)
    requires id in reg && dep in reg[id] && Resolvable(reg, id)
    ensures Resolvable(reg, dep)
  {
    forall target | Reaches(reg, dep, target) ensures target in reg {
      var walk :| WalkFrom(reg, dep, walk) && walk[|walk|-1] == target;
      WalkCons(reg, id, dep, walk);
      assert ([id] + walk)[|[id] + walk|-1] == target;
    }
  }

  lemma {:induction false} ReachesItself(reg: Registry, id: Id)
    ensures Reaches(reg, id, id)
  {
    assert WalkFrom(reg, id, [id]);
  }

  // Success means no cycle

  /** Every walk from here is free of repeats and stays off the current path. */
  ghost predicate CleanFrom(reg: Registry, id: Id, visiting: set<Id>) {
    forall walk | WalkFrom(reg, id, walk) :: !Repeats(walk) && forall i | 0 <= i < |walk| :: walk[i] !in visiting
  }

  lemma {:induction false} DoneMeansClean(reg: Registry, failing: set<Id>, id: Id, visiting: set<Id>,
                                          installed: set<Id>)
    requires Install(reg, failing, id, visiting, installed).Done?
    ensures CleanFrom(reg, id, visiting)
    decreases reg.Keys - visiting, 0
  {
    Smaller(reg.Keys, visiting, id);
    AllDoneMeansClean(reg, failing, reg[id], visiting + {id}, installed);
    forall walk | WalkFrom(reg, id, walk)
      ensures !Repeats(walk) && forall i | 0 <= i < |walk| :: walk[i] !in visiting
    {
      if |walk| > 1 {
        WalkTail(reg, id, walk);
        var tail := walk[1..];
        assert CleanFrom(reg, walk[1], visiting + {id});
        assert !Repeats(tail) && forall i | 0 <= i < |tail| :: tail[i] !in visiting + {id};
        forall i | 0 <= i < |walk| ensures walk[i] !in visiting {
          if i > 0 { assert tail[i-1] == walk[i]; }
        }
        forall i, j | 0 <= i < j < |walk| ensures walk[i] != walk[j] {
          assert tail[j-1] == walk[j];
          if i > 0 { assert tail[i-1] == walk[i]; }
        }
      }
    }
  }

  lemma {:induction false} AllDoneMeansClean(reg: Registry, failing: set<Id>, ids: seq<Id>, visiting: set<Id>,
                                             installed: set<Id>)
    requires InstallAll(reg, failing, ids, visiting, installed).Done?
    ensures forall id | id in ids :: CleanFrom(reg, id, visiting)
    decreases reg.Keys - visiting, 1, |ids|
  {
    hide CleanFrom;
    if ids != [] {
      DoneMeansClean(reg, failing, ids[0], visiting, installed);
      AllDoneMeansClean(reg, failing, ids[1..], visiting, Install(reg, failing, ids[0], visiting, installed).installed);
    }
  }

  // What a failure means

  /** A walk that runs back into the current path, or into itself. */
  predicate Returns(reg: Registry, id: Id, visiting: set<Id>, walk: seq<Id>) {
    WalkFrom(reg, id, walk) && (walk[|walk|-1] in visiting || Repeats(walk))
  }

  /** The walk shows why the error is raised: it returns, or ends at a resource that is missing or
      fails to install. */
  predicate Excuses(reg: Registry, failing: set<Id>, id: Id, visiting: set<Id>, installed: set<Id>, walk: seq<Id>,
                    error: Error) {
    && WalkFrom(reg, id, walk)
    && match error
       case CycleDetected => Returns(reg, id, visiting, walk)
       case NotFound => walk[|walk|-1] !in reg
       case InstallFailed => walk[|walk|-1] in failing && walk[|walk|-1] !in installed
  }

  lemma {:induction false} RaisedIsExcused(reg: Registry, failing: set<Id>, id: Id, visiting: set<Id>,
                                           installed: set<Id>) returns (walk: seq<Id>)
    requires Install(reg, failing, id, visiting, installed).Raised?
    ensures Excuses(reg, failing, id, visiting, installed, walk,
                    Install(reg, failing, id, visiting, installed).error)
    decreases reg.Keys - visiting, 0
  {
    ReachesItself(reg, id);
    walk := [id];
    if id !in visiting && id in reg {
      Smaller(reg.Keys, visiting, id);
      AllInstalledStaysClosed(reg, failing, reg[id], visiting + {id}, installed);
      var below := InstallAll(reg, failing, reg[id], visiting + {id}, installed);
      if below.Raised? {
        var dep, tail := AllRaisedIsExcused(reg, failing, reg[id], visiting + {id}, installed);
        WalkCons(reg, id, dep, tail);
        walk := [id] + tail;
        assert walk[|walk|-1] == tail[|tail|-1];
        if below.error == CycleDetected {
          ReturnsThrough(reg, id, dep, visiting, tail);
        }
      }
    }
  }

  lemma {:induction false} ReturnsThrough(reg: Registry, id: Id, dep: Id, visiting: set<Id>, tail: seq<Id>)
    requires id in reg && dep in reg[id] && Returns(reg, dep, visiting + {id}, tail)
    ensures Returns(reg, id, visiting, [id] + tail)
  {
    WalkCons(reg, id, dep, tail);
    var walk := [id] + tail;
    assert walk[|walk|-1] == tail[|tail|-1];
    if tail[|tail|-1] == id {
      assert walk[0] == walk[|walk|-1];
    } else if Repeats(tail) {
      var i, j :| 0 <= i < j < |tail| && tail[i] == tail[j];
      assert walk[i+1] == walk[j+1];
    }
  }

  lemma {:induction false} AllRaisedIsExcused(reg: Registry, failing: set<Id>, ids: seq<Id>, visiting: set<Id>,
                                              installed: set<Id>) returns (dep: Id, walk: seq<Id>)
    requires InstallAll(reg, failing, ids, visiting, installed).Raised?
    ensures dep in ids
    ensures Excuses(reg, failing, dep, visiting, installed, walk,
                    InstallAll(reg, failing, ids, visiting, installed).error)
    decreases reg.Keys - visiting, 1, |ids|
  {
    hide Returns;
    assert ids[0] in ids;
    match Install(reg, failing, ids[0], visiting, installed) {
      case Raised(_, _) =>
        dep := ids[0];
        walk := RaisedIsExcused(reg, failing, ids[0], visiting, installed);
      case Done(_, installed') =>
        InstalledStaysClosed(reg, failing, ids[0], visiting, installed);
        dep, walk := AllRaisedIsExcused(reg, failing, ids[1..], visiting, installed');
    }
  }

  // What is recorded, and in which order

  /** Every dependency of a recorded resource is recorded before it. */
  predicate DependenciesFirst(reg: Registry, ids: seq<Id>) {
    forall i | 0 <= i < |ids| :: ids[i] in reg && forall dep | dep in reg[ids[i]] :: dep in ids[..i]
  }

  lemma {:induction false} DedupeKeepsIds(records: seq<Record>)
    ensures forall id :: id in Ids(Dedupe(records)) <==> id in Ids(records)
    ensures Distinct(Ids(Dedupe(records)))
    decreases |records|
  {
    if records != [] {
      var front, last := records[..|records|-1], records[|records|-1];
      DedupeKeepsIds(front);
      assert Ids(records) == Ids(front) + [last.id];
      var before := Dedupe(front);
      var i := IndexOf(before, last.id);
      if i >= 0 {
        assert Ids(before[i := last]) == Ids(before);
      } else {
        assert Ids(before + [last]) == Ids(before) + [last.id];
      }
    }
  }

  /** `a` occurs before `b` does. */
  ghost predicate ComesFirst(records: seq<Record>, a: Id, b: Id) {
    exists i :: 0 <= i < |records| && records[i].id == a && forall j | 0 <= j <= i :: records[j].id != b
  }

  /** `record` is the last one of its resource. */
  ghost predicate IsLast(records: seq<Record>, record: Record) {
    exists i :: 0 <= i < |records| && records[i] == record && forall j | i < j < |records| :: records[j].id != record.id
  }

  /** Removing duplicates keeps, of every resource, the last record in the place of the first. */
  lemma {:induction false} DedupeMeans(records: seq<Record>)
    ensures var kept := Dedupe(records);
            && (forall i | 0 <= i < |kept| :: IsLast(records, kept[i]))
            && (forall i, j | 0 <= i < j < |kept| :: ComesFirst(records, kept[i].id, kept[j].id))
    decreases |records|
  {
    if records != [] {
      var front, last := records[..|records|-1], records[|records|-1];
      DedupeMeans(front);
      DedupeKeepsIds(front);
      var before, kept := Dedupe(front), Dedupe(records);
      var p := IndexOf(before, last.id);
      forall i | 0 <= i < |kept| ensures IsLast(records, kept[i]) {
        if kept[i] == last {
          assert records[|records|-1] == last;
        } else {
          StaysLast(records, before, i);
        }
      }
      forall i, j | 0 <= i < j < |kept| ensures ComesFirst(records, kept[i].id, kept[j].id) {
        assert kept[i].id == before[i].id;
        if j < |before| {
          StaysFirst(records, before[i].id, before[j].id);
        } else {
          NewComesLast(records, before[i]);
        }
      }
    }
  }

  lemma {:induction false} StaysLast(records: seq<Record>, before: seq<Record>, i: nat)
    requires records != [] && i < |before| && before == Dedupe(records[..|records|-1])
    requires Distinct(Ids(before)) && IsLast(records[..|records|-1], before[i])
    requires var p := IndexOf(before, records[|records|-1].id); p != i
    ensures IsLast(records, before[i])
  {
    hide Dedupe, IndexOf;
    var front, last := records[..|records|-1], records[|records|-1];
    var k :| 0 <= k < |front| && front[k] == before[i] && forall j | k < j < |front| :: front[j].id != before[i].id;
    assert records[k] == before[i];
    var p := IndexOf(before, last.id);
    assert last.id != before[i].id by {
      assert Ids(before)[i] == before[i].id;
      if p >= 0 {
        assert Ids(before)[p] == last.id;
      }
    }
    forall j | k < j < |records| ensures records[j].id != before[i].id {
      if j < |front| {
        assert records[j] == front[j];
      }
    }
  }

  lemma {:induction false} StaysFirst(records: seq<Record>, a: Id, b: Id)
    requires records != [] && ComesFirst(records[..|records|-1], a, b)
    ensures ComesFirst(records, a, b)
  {
    var front := records[..|records|-1];
    var i :| 0 <= i < |front| && front[i].id == a && forall j | 0 <= j <= i :: front[j].id != b;
    assert records[i].id == a;
    forall j | 0 <= j <= i ensures records[j].id != b {
      assert records[j] == front[j];
    }
  }

  lemma {:induction false} NewComesLast(records: seq<Record>, old': Record)
    requires records != []
    requires var front, last := records[..|records|-1], records[|records|-1];
             old'.id in Ids(front) && last.id !in Ids(front)
    ensures ComesFirst(records, old'.id, records[|records|-1].id)
  {
    var front := records[..|records|-1];
    var i :| 0 <= i < |front| && Ids(front)[i] == old'.id;
    assert records[i].id == old'.id;
    forall j | 0 <= j <= i ensures records[j].id != records[|records|-1].id {
      assert records[j] == front[j] && Ids(front)[j] == front[j].id;
    }
  }

  predicate Distinct(ids: seq<Id>) {
    forall i, j | 0 <= i < j < |ids| :: ids[i] != ids[j]
  }

  lemma {:induction false} DedupeKeepsOrder(reg: Registry, records: seq<Record>)
    requires DependenciesFirst(reg, Ids(records))
    ensures DependenciesFirst(reg, Ids(Dedupe(records)))
    decreases |records|
  {
    hide DependenciesFirst;
    if records != [] {
      var front, last := records[..|records|-1], records[|records|-1];
      assert records == front + [last];
      LastInOrder(reg, front, last);
      DedupeKeepsOrder(reg, front);
      DedupeKeepsIds(front);
      var before := Dedupe(front);
      var i := IndexOf(before, last.id);
      if i >= 0 {
        assert Ids(before[i := last]) == Ids(before);
      } else {
        AppendInOrder(reg, Ids(before), last.id);
        assert Ids(before + [last]) == Ids(before) + [last.id];
      }
    } else {
      assert Dedupe(records) == records;
    }
  }

  lemma {:induction false} LastInOrder(reg: Registry, front: seq<Record>, last: Record)
    requires DependenciesFirst(reg, Ids(front + [last]))
    ensures DependenciesFirst(reg, Ids(front))
    ensures last.id in reg && forall dep | dep in reg[last.id] :: dep in Ids(front)
  {
    var ids := Ids(front + [last]);
    assert ids == Ids(front) + [last.id];
    assert ids[|front|] == last.id && ids[..|front|] == Ids(front);
    forall i | 0 <= i < |front|
      ensures Ids(front)[i] in reg && forall dep | dep in reg[Ids(front)[i]] :: dep in Ids(front)[..i]
    {
      assert ids[i] == Ids(front)[i] && ids[..i] == Ids(front)[..i];
    }
  }

  lemma {:induction false} AppendInOrder(reg: Registry, ids: seq<Id>, id: Id)
    requires DependenciesFirst(reg, ids) && id in reg && forall dep | dep in reg[id] :: dep in ids
    ensures DependenciesFirst(reg, ids + [id])
  {
    var all := ids + [id];
    forall i | 0 <= i < |all| ensures all[i] in reg && forall dep | dep in reg[all[i]] :: dep in all[..i] {
      if i < |ids| {
        assert all[i] == ids[i] && all[..i] == ids[..i];
      } else {
        assert all[..i] == ids;
      }
    }
  }

  lemma {:induction false} ConcatInOrder(reg: Registry, first: seq<Id>, later: seq<Id>)
    requires DependenciesFirst(reg, first) && DependenciesFirst(reg, later)
    ensures DependenciesFirst(reg, first + later)
  {
    var all := first + later;
    forall i | 0 <= i < |all| ensures all[i] in reg && forall dep | dep in reg[all[i]] :: dep in all[..i] {
      if i < |first| {
        assert all[i] == first[i] && all[..i] == first[..i];
      } else {
        assert all[i] == later[i-|first|] && all[..i] == first + later[..i-|first|];
      }
    }
  }

  /** The records are in dependency order, contain the resource itself, and only resources it
      reaches. */
  ghost predicate Recorded(reg: Registry, id: Id, records: seq<Record>) {
    && DependenciesFirst(reg, Ids(records))
    && id in Ids(records)
    && forall x | x in Ids(records) :: Reaches(reg, id, x)
  }

  /** The same for a list of resources installed one after the other. */
  ghost predicate RecordedAll(reg: Registry, ids: seq<Id>, records: seq<Record>) {
    && DependenciesFirst(reg, Ids(records))
    && (forall id | id in ids :: id in Ids(records))
    && (forall x | x in Ids(records) :: exists id :: id in ids && Reaches(reg, id, x))
  }

  lemma {:induction false} InstallRecords(reg: Registry, failing: set<Id>, id: Id, visiting: set<Id>,
                                          installed: set<Id>)
    requires Install(reg, failing, id, visiting, installed).Done?
    ensures Recorded(reg, id, Install(reg, failing, id, visiting, installed).records)
    decreases reg.Keys - visiting, 0
  {
    hide Recorded, RecordedAll, Dedupe;
    Smaller(reg.Keys, visiting, id);
    var below := InstallAll(reg, failing, reg[id], visiting + {id}, installed);
    InstallAllRecords(reg, failing, reg[id], visiting + {id}, installed);
    var one := InstallOne(failing, id, below.installed).records;
    RecordsGathered(reg, id, below.records, one[0]);
    assert one == [one[0]];
  }

  lemma {:induction false} RecordsGathered(reg: Registry, id: Id, below: seq<Record>, one: Record)
    requires id in reg && one.id == id
    requires RecordedAll(reg, reg[id], below)
    ensures Recorded(reg, id, Dedupe(below + [one]))
  {
    hide Reaches, DependenciesFirst, Dedupe;
    var records := below + [one];
    assert Ids(records) == Ids(below) + [id];
    assert Ids(records)[|below|] == id;
    AppendInOrder(reg, Ids(below), id);
    DedupeKeepsOrder(reg, records);
    DedupeKeepsIds(records);
    forall x | x in Ids(records) ensures Reaches(reg, id, x) {
      GatheredIsReached(reg, id, below, x);
    }
  }

  lemma {:induction false} GatheredIsReached(reg: Registry, id: Id, below: seq<Record>, x: Id)
    requires id in reg && RecordedAll(reg, reg[id], below) && (x in Ids(below) || x == id)
    ensures Reaches(reg, id, x)
  {
    hide Reaches, DependenciesFirst;
    if x in Ids(below) {
      var dep :| dep in reg[id] && Reaches(reg, dep, x);
      ReachesThrough(reg, id, dep, x);
    } else {
      ReachesItself(reg, id);
    }
  }

  lemma {:induction false} ReachesThrough(reg: Registry, id: Id, dep: Id, x: Id)
    requires id in reg && dep in reg[id] && Reaches(reg, dep, x)
    ensures Reaches(reg, id, x)
  {
    var walk :| WalkFrom(reg, dep, walk) && walk[|walk|-1] == x;
    WalkCons(reg, id, dep, walk);
    assert ([id] + walk)[|[id] + walk|-1] == x;
  }

  lemma {:induction false} InstallAllRecords(reg: Registry, failing: set<Id>, ids: seq<Id>, visiting: set<Id>,
                                             installed: set<Id>)
    requires InstallAll(reg, failing, ids, visiting, installed).Done?
    ensures RecordedAll(reg, ids, InstallAll(reg, failing, ids, visiting, installed).records)
    decreases reg.Keys - visiting, 1, |ids|
  {
    hide Recorded, RecordedAll;
    if ids == [] {
      NothingRecorded(reg, ids);
    } else {
      InstallRecords(reg, failing, ids[0], visiting, installed);
      var first := Install(reg, failing, ids[0], visiting, installed);
      InstallAllRecords(reg, failing, ids[1..], visiting, first.installed);
      var later := InstallAll(reg, failing, ids[1..], visiting, first.installed);
      RecordsJoined(reg, ids, first.records, later.records);
    }
  }

  lemma {:induction false} NothingRecorded(reg: Registry, ids: seq<Id>)
    requires |ids| == 0
    ensures RecordedAll(reg, ids, [])
  {
    assert |Ids([])| == 0;
  }

  lemma {:induction false} RecordsJoined(reg: Registry, ids: seq<Id>, first: seq<Record>, later: seq<Record>)
    requires |ids| > 0 && Recorded(reg, ids[0], first) && RecordedAll(reg, ids[1..], later)
    ensures RecordedAll(reg, ids, first + later)
  {
    hide Reaches, DependenciesFirst;
    ConcatInOrder(reg, Ids(first), Ids(later));
    assert Ids(first + later) == Ids(first) + Ids(later);
    forall x | x in Ids(first + later) ensures exists id :: id in ids && Reaches(reg, id, x) {
      if x in Ids(first) {
        assert ids[0] in ids && Reaches(reg, ids[0], x);
      } else {
        var id :| id in ids[1..] && Reaches(reg, id, x);
        assert id in ids;
      }
    }
  }

  /** A list closed under dependencies contains everything reachable from its members. */
  lemma {:induction false} ClosedUnderWalks(reg: Registry, ids: seq<Id>, id: Id, walk: seq<Id>)
    requires DependenciesFirst(reg, ids) && id in ids && WalkFrom(reg, id, walk)
    ensures walk[|walk|-1] in ids
    decreases |walk|
  {
    if |walk| > 1 {
      WalkTail(reg, id, walk);
      var i :| 0 <= i < |ids| && ids[i] == id;
      assert walk[1] in ids[..i];
      ClosedUnderWalks(reg, ids, walk[1], walk[1..]);
    }
  }

  /** Nothing that has to be installed fails to. */
  ghost predicate Installable(reg: Registry, failing: set<Id>, id: Id, installed: set<Id>) {
    forall x :: Reaches(reg, id, x) && x in failing ==> x in installed
  }

  /** An installation succeeds exactly when no dependency cycle can be reached, everything that
      can be reached is found, and nothing that is not yet installed fails; each error means that
      its own case applies. */
  lemma {:induction false} SuccessIsDecided(reg: Registry, failing: set<Id>, root: Id, installed: set<Id>)
    ensures var outcome := Install(reg, failing, root, {}, installed);
            && (outcome.Done? <==>
                  !CycleReachable(reg, root) && Resolvable(reg, root) && Installable(reg, failing, root, installed))
            && (outcome.Raised? ==>
                  match outcome.error
                  case CycleDetected => CycleReachable(reg, root)
                  case NotFound => !Resolvable(reg, root)
                  case InstallFailed => !Installable(reg, failing, root, installed))
  {
    var outcome := Install(reg, failing, root, {}, installed);
    if outcome.Raised? {
      var walk := RaisedIsExcused(reg, failing, root, {}, installed);
      ExcuseCounts(reg, failing, root, installed, walk, outcome.error);
    } else {
      DoneMeansClean(reg, failing, root, {}, installed);
      CleanIsAcyclic(reg, root);
      InstallRecords(reg, failing, root, {}, installed);
      DoneIsInstalled(reg, failing, root, {}, installed);
      forall x | Reaches(reg, root, x) ensures x in reg && (x in failing ==> x in installed) {
        ClosedUnderReach(reg, Ids(outcome.records), root, x);
        RecordedIsFound(reg, Ids(outcome.records), x);
      }
    }
  }

  lemma {:induction false} RecordedIsFound(reg: Registry, ids: seq<Id>, x: Id)
    requires DependenciesFirst(reg, ids) && x in ids
    ensures x in reg
  {
    var i :| 0 <= i < |ids| && ids[i] == x;
  }

  lemma {:induction false} ExcuseCounts(reg: Registry, failing: set<Id>, root: Id, installed: set<Id>, walk: seq<Id>,
                                        error: Error)
    requires Excuses(reg, failing, root, {}, installed, walk, error)
    ensures match error
            case CycleDetected => CycleReachable(reg, root)
            case NotFound => !Resolvable(reg, root)
            case InstallFailed => !Installable(reg, failing, root, installed)
  {
    assert Reaches(reg, root, walk[|walk|-1]);
  }

  /** The installed resources after a success are those before and the recorded ones; what is
      added does not fail. */
  lemma {:induction false} DoneIsInstalled(reg: Registry, failing: set<Id>, id: Id, visiting: set<Id>,
                                           installed: set<Id>)
    requires Install(reg, failing, id, visiting, installed).Done?
    ensures var outcome := Install(reg, failing, id, visiting, installed);
            && outcome.installed == installed + (set x | x in Ids(outcome.records))
            && forall x | x in Ids(outcome.records) && x in failing :: x in installed
    decreases reg.Keys - visiting, 0
  {
    hide Dedupe;
    Smaller(reg.Keys, visiting, id);
    AllDoneIsInstalled(reg, failing, reg[id], visiting + {id}, installed);
    var below := InstallAll(reg, failing, reg[id], visiting + {id}, installed);
    var one := InstallOne(failing, id, below.installed).records;
    DedupeKeepsIds(below.records + one);
    assert Ids(below.records + one) == Ids(below.records) + [id];
  }

  lemma {:induction false} AllDoneIsInstalled(reg: Registry, failing: set<Id>, ids: seq<Id>, visiting: set<Id>,
                                              installed: set<Id>)
    requires InstallAll(reg, failing, ids, visiting, installed).Done?
    ensures var outcome := InstallAll(reg, failing, ids, visiting, installed);
            && outcome.installed == installed + (set x | x in Ids(outcome.records))
            && forall x | x in Ids(outcome.records) && x in failing :: x in installed
    decreases reg.Keys - visiting, 1, |ids|
  {
    if ids != [] {
      DoneIsInstalled(reg, failing, ids[0], visiting, installed);
      var first := Install(reg, failing, ids[0], visiting, installed);
      AllDoneIsInstalled(reg, failing, ids[1..], visiting, first.installed);
      var later := InstallAll(reg, failing, ids[1..], visiting, first.installed);
      assert Ids(first.records + later.records) == Ids(first.records) + Ids(later.records);
    }
  }

  /** With everything reachable resolvable and installable, the cycle error is raised exactly
      when a dependency cycle is reachable; otherwise exactly the dependency closure is
      recorded, each resource once and after all of its dependencies, and it is installed. */
  lemma {:induction false} InstallIsCorrect(reg: Registry, root: Id, installed: set<Id>)
    requires Resolvable(reg, root)
    ensures var outcome := Install(reg, {}, root, {}, installed);
            && (CycleReachable(reg, root) <==> outcome.Raised? && outcome.error == CycleDetected)
            && (!CycleReachable(reg, root) <==> outcome.Done?)
            && (outcome.Done? ==>
                  && Distinct(Ids(outcome.records))
                  && DependenciesFirst(reg, Ids(outcome.records))
                  && (forall x :: x in Ids(outcome.records) <==> Reaches(reg, root, x))
                  && (forall x :: x in outcome.installed <==> x in installed || Reaches(reg, root, x)))
  {
    hide Install, Distinct, DependenciesFirst, CycleReachable;
    var outcome := Install(reg, {}, root, {}, installed);
    SuccessIsDecided(reg, {}, root, installed);
    if outcome.Done? {
      InstallRecords(reg, {}, root, {}, installed);
      DoneIsInstalled(reg, {}, root, {}, installed);
      RecordsAreDistinct(reg, {}, root, {}, installed);
      forall x | Reaches(reg, root, x) ensures x in Ids(outcome.records) {
        ClosedUnderReach(reg, Ids(outcome.records), root, x);
      }
    }
  }

  lemma {:induction false} RecordsAreDistinct(reg: Registry, failing: set<Id>, id: Id, visiting: set<Id>,
                                              installed: set<Id>)
    requires Install(reg, failing, id, visiting, installed).Done?
    ensures Distinct(Ids(Install(reg, failing, id, visiting, installed).records))
  {
    Smaller(reg.Keys, visiting, id);
    var below := InstallAll(reg, failing, reg[id], visiting + {id}, installed);
    DedupeKeepsIds(below.records + InstallOne(failing, id, below.installed).records);
  }

  /** The same for the required resources together, each of which starts with an empty path. */
  lemma {:induction false} InstallRequiredIsCorrect(reg: Registry, required: seq<Id>, installed: set<Id>)
    requires forall id | id in required :: Resolvable(reg, id)
    ensures var outcome := InstallRequired(reg, {}, required, installed);
            && ((exists id :: id in required && CycleReachable(reg, id)) <==> outcome.Raised?)
            && (outcome.Raised? ==> outcome.error == CycleDetected)
            && (outcome.Done? ==>
                  && Distinct(Ids(outcome.records))
                  && DependenciesFirst(reg, Ids(outcome.records))
                  && forall x :: x in Ids(outcome.records) <==> exists id :: id in required && Reaches(reg, id, x))
  {
    hide Resolvable, Reaches, CycleReachable, CleanFrom, Dedupe, DependenciesFirst, Excuses;
    match InstallAll(reg, {}, required, {}, installed) {
      case Raised(_, _) =>
        var id, walk := AllRaisedIsExcused(reg, {}, required, {}, installed);
        ExcuseCounts(reg, {}, id, installed, walk, InstallAll(reg, {}, required, {}, installed).error);
      case Done(records, _) =>
        AllDoneMeansClean(reg, {}, required, {}, installed);
        forall id | id in required ensures !CycleReachable(reg, id) {
          CleanIsAcyclic(reg, id);
        }
        InstallAllRecords(reg, {}, required, {}, installed);
        DedupeKeepsIds(records);
        DedupeKeepsOrder(reg, records);
        forall x, id | id in required && Reaches(reg, id, x) ensures x in Ids(records) {
          ClosedUnderReach(reg, Ids(records), id, x);
        }
    }
  }

  lemma {:induction false} CleanIsAcyclic(reg: Registry, id: Id)
    requires CleanFrom(reg, id, {})
    ensures !CycleReachable(reg, id)
  {
  }

  lemma {:induction false} ClosedUnderReach(reg: Registry, ids: seq<Id>, id: Id, x: Id)
    requires DependenciesFirst(reg, ids) && id in ids && Reaches(reg, id, x)
    ensures x in ids
  {
    var walk :| WalkFrom(reg, id, walk) && walk[|walk|-1] == x;
    ClosedUnderWalks(reg, ids, id, walk);
  }

  // What is installed

  /** Everything installed beyond `before` has all of its dependencies installed. */
  predicate ClosedBeyond(reg: Registry, before: set<Id>, after: set<Id>) {
    before <= after && forall x | x in after && x !in before :: x in reg && forall dep | dep in reg[x] :: dep in after
  }

  lemma {:induction false} ClosedTogether(reg: Registry, first: set<Id>, second: set<Id>, third: set<Id>)
    requires ClosedBeyond(reg, first, second) && ClosedBeyond(reg, second, third)
    ensures ClosedBeyond(reg, first, third)
  {
  }

  /** Whatever fails on the way, nothing is ever installed before its dependencies: everything
      that was added has its dependencies installed, and success installs the resource itself. */
  lemma {:induction false} InstalledStaysClosed(reg: Registry, failing: set<Id>, id: Id, visiting: set<Id>,
                                                installed: set<Id>)
    ensures var outcome := Install(reg, failing, id, visiting, installed);
            ClosedBeyond(reg, installed, outcome.installed) && (outcome.Done? ==> id in outcome.installed)
    decreases reg.Keys - visiting, 0
  {
    hide Dedupe;
    if id !in visiting && id in reg {
      Smaller(reg.Keys, visiting, id);
      AllInstalledStaysClosed(reg, failing, reg[id], visiting + {id}, installed);
    }
  }

  lemma {:induction false} AllInstalledStaysClosed(reg: Registry, failing: set<Id>, ids: seq<Id>, visiting: set<Id>,
                                                   installed: set<Id>)
    ensures var outcome := InstallAll(reg, failing, ids, visiting, installed);
            ClosedBeyond(reg, installed, outcome.installed)
              && (outcome.Done? ==> forall id | id in ids :: id in outcome.installed)
    decreases reg.Keys - visiting, 1, |ids|
  {
    if ids != [] {
      InstalledStaysClosed(reg, failing, ids[0], visiting, installed);
      match Install(reg, failing, ids[0], visiting, installed) {
        case Raised(_, _) =>
        case Done(_, installed') =>
          AllInstalledStaysClosed(reg, failing, ids[1..], visiting, installed');
          var outcome := InstallAll(reg, failing, ids[1..], visiting, installed');
          ClosedTogether(reg, installed, installed', outcome.installed);
      }
    }
  }

  // What is reported

  /** What was installed before is never reported as newly installed. */
  predicate Honest(installed: set<Id>, records: seq<Record>) {
    forall i | 0 <= i < |records| && records[i].id in installed :: records[i].status == AlreadyInstalled
  }

  lemma {:induction false} DedupeStaysHonest(installed: set<Id>, records: seq<Record>)
    requires Honest(installed, records)
    ensures Honest(installed, Dedupe(records))
  {
    hide Dedupe;
    DedupeMeans(records);
    var kept := Dedupe(records);
    forall i | 0 <= i < |kept| && kept[i].id in installed ensures kept[i].status == AlreadyInstalled {
      assert IsLast(records, kept[i]);
    }
  }

  /** The resource itself is reported last, as newly installed exactly if it was not installed
      before; and nothing that was is. */
  lemma {:induction false} ReportIsHonest(reg: Registry, failing: set<Id>, id: Id, visiting: set<Id>,
                                          installed: set<Id>)
    requires Install(reg, failing, id, visiting, installed).Done?
    ensures var records := Install(reg, failing, id, visiting, installed).records;
            && Honest(installed, records)
            && |records| > 0
            && records[|records|-1] == Record(id, if id in installed then AlreadyInstalled else Installed)
    decreases reg.Keys - visiting, 0
  {
    hide Dedupe, IndexOf;
    Smaller(reg.Keys, visiting, id);
    var below := InstallAll(reg, failing, reg[id], visiting + {id}, installed);
    AllReportsAreHonest(reg, failing, reg[id], visiting + {id}, installed);
    AllDoneIsInstalled(reg, failing, reg[id], visiting + {id}, installed);
    AllDoneMeansClean(reg, failing, reg[id], visiting + {id}, installed);
    InstallAllRecords(reg, failing, reg[id], visiting + {id}, installed);
    NotItsOwnDependency(reg, id, visiting, below.records);
    var one := Record(id, if id in installed then AlreadyInstalled else Installed);
    assert InstallOne(failing, id, below.installed).records == [one];
    DedupeStaysHonest(installed, below.records + [one]);
    DedupeAppends(below.records, one);
  }

  lemma {:induction false} NotItsOwnDependency(reg: Registry, id: Id, visiting: set<Id>, below: seq<Record>)
    requires id in reg && RecordedAll(reg, reg[id], below)
    requires forall dep | dep in reg[id] :: CleanFrom(reg, dep, visiting + {id})
    ensures id !in Ids(below)
  {
    hide CleanFrom, Reaches, DependenciesFirst;
    forall dep | dep in reg[id] ensures !Reaches(reg, dep, id) {
      CleanNeverReaches(reg, dep, visiting + {id}, id);
    }
  }

  lemma {:induction false} CleanNeverReaches(reg: Registry, dep: Id, visiting: set<Id>, x: Id)
    requires CleanFrom(reg, dep, visiting) && x in visiting
    ensures !Reaches(reg, dep, x)
  {
    forall walk | WalkFrom(reg, dep, walk) ensures walk[|walk|-1] != x {
      assert walk[|walk|-1] !in visiting;
    }
  }

  lemma {:induction false} FoundIsIn(records: seq<Record>, id: Id)
    ensures IndexOf(records, id) >= 0 ==> id in Ids(records)
  {
    if IndexOf(records, id) >= 0 {
      assert Ids(records)[IndexOf(records, id)] == id;
    }
  }

  lemma {:induction false} DedupeAppends(records: seq<Record>, record: Record)
    requires record.id !in Ids(records)
    ensures Dedupe(records + [record]) == Dedupe(records) + [record]
  {
    DedupeKeepsIds(records);
    assert (records + [record])[..|records|] == records;
    var before := Dedupe(records);
    FoundIsIn(before, record.id);
  }

  lemma {:induction false} AllReportsAreHonest(reg: Registry, failing: set<Id>, ids: seq<Id>, visiting: set<Id>,
                                               installed: set<Id>)
    requires InstallAll(reg, failing, ids, visiting, installed).Done?
    ensures Honest(installed, InstallAll(reg, failing, ids, visiting, installed).records)
    decreases reg.Keys - visiting, 1, |ids|
  {
    if ids != [] {
      ReportIsHonest(reg, failing, ids[0], visiting, installed);
      InstalledStaysClosed(reg, failing, ids[0], visiting, installed);
      var first := Install(reg, failing, ids[0], visiting, installed);
      AllReportsAreHonest(reg, failing, ids[1..], visiting, first.installed);
    }
  }
}
