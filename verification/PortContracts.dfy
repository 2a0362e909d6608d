/** Comparing the ports a CPU top is required to have with the ports it has. */
module PortContracts {
  import opened SortedNames

  datatype Port = Port(name: string, direction: string, width: int)

  predicate SameShape(a: Port, b: Port) {
    a.direction == b.direction && a.width == b.width
  }

  /** A dictionary by name: nameless ports are left out, and the last of several wins. */
  function ByName(ports: seq<Port>): map<string, Port> {
    if ports == [] then map[]
    else
      var before, last := ByName(ports[..|ports|-1]), ports[|ports|-1];
      if last.name == "" then before else before[last.name := last]
  }

  datatype Differences = Differences(missing: seq<string>, extra: seq<string>, mismatches: seq<string>)

  function Mismatched(expected: map<string, Port>, actual: map<string, Port>): set<string> {
    set name | name in expected && name in actual && !SameShape(expected[name], actual[name])
  }

  function Agreeing(expected: map<string, Port>, actual: map<string, Port>): set<string> {
    set name | name in expected && name in actual && SameShape(expected[name], actual[name])
  }

  /** The names in the order of that dictionary: a name stays where it came first. */
  function NamesInOrder(ports: seq<Port>): seq<string> {
    if ports == [] then []
    else
      var before, name := NamesInOrder(ports[..|ports|-1]), ports[|ports|-1].name;
      if name == "" || name in before then before else before + [name]
  }

  function Without(names: seq<string>, dropped: set<string>): seq<string> {
    if names == [] then []
    else
      var before, name := Without(names[..|names|-1], dropped), names[|names|-1];
      if name in dropped then before else before + [name]
  }

  ghost predicate Compares(expected: seq<Port>, actual: seq<Port>, d: Differences) {
    var e, a := ByName(expected), ByName(actual);
    && Lists(d.missing, e.Keys - a.Keys) && d.missing == Without(NamesInOrder(expected), a.Keys)
    && Lists(d.extra, a.Keys - e.Keys) && d.extra == Without(NamesInOrder(actual), e.Keys)
    && Lists(d.mismatches, Mismatched(e, a)) && InOrder(d.mismatches)
  }

  lemma {:induction false} NamesAreListed(ports: seq<Port>)
    ensures Lists(NamesInOrder(ports), ByName(ports).Keys)
    decreases |ports|
  {
    if ports != [] {
      NamesAreListed(ports[..|ports|-1]);
    }
  }

  /** The dictionary finds the last port of a name. */
  ghost predicate IsLastOfName(ports: seq<Port>, name: string, port: Port) {
    exists i :: 0 <= i < |ports| && ports[i] == port && port.name == name
                && forall j | i < j < |ports| :: ports[j].name != name
  }

  /** And it lists `a` before `b` if a port named `a` comes before all that are named `b`. */
  ghost predicate ComesFirst(ports: seq<Port>, a: string, b: string) {
    exists i :: 0 <= i < |ports| && ports[i].name == a && forall j | 0 <= j <= i :: ports[j].name != b
  }

  lemma {:induction false} DictionaryMeans(ports: seq<Port>)
    ensures forall name | name in ByName(ports) :: name != "" && IsLastOfName(ports, name, ByName(ports)[name])
    ensures forall i, j | 0 <= i < j < |NamesInOrder(ports)| ::
              ComesFirst(ports, NamesInOrder(ports)[i], NamesInOrder(ports)[j])
    decreases |ports|
  {
    if ports != [] {
      var front, last := ports[..|ports|-1], ports[|ports|-1];
      DictionaryMeans(front);
      NamesAreListed(front);
      NamesOf(front);
      forall name | name in ByName(ports) ensures name != "" && IsLastOfName(ports, name, ByName(ports)[name]) {
        if name == last.name {
          assert ports[|ports|-1] == last;
        } else {
          LastOfNameStays(ports, name, ByName(front)[name]);
        }
      }
      var before, names := NamesInOrder(front), NamesInOrder(ports);
      forall i, j | 0 <= i < j < |names| ensures ComesFirst(ports, names[i], names[j]) {
        if j < |before| {
          FirstStays(ports, before[i], before[j]);
        } else {
          NewNameIsLater(ports, before[i]);
        }
      }
    }
  }

  lemma {:induction false} LastOfNameStays(ports: seq<Port>, name: string, port: Port)
    requires ports != [] && ports[|ports|-1].name != name && IsLastOfName(ports[..|ports|-1], name, port)
    ensures IsLastOfName(ports, name, port)
  {
    var front := ports[..|ports|-1];
    var i :| 0 <= i < |front| && front[i] == port && forall j | i < j < |front| :: front[j].name != name;
    assert ports[i] == port;
    forall j | i < j < |ports| ensures ports[j].name != name {
      assert j < |front| ==> ports[j] == front[j];
    }
  }

  lemma {:induction false} FirstStays(ports: seq<Port>, a: string, b: string)
    requires ports != [] && ComesFirst(ports[..|ports|-1], a, b)
    ensures ComesFirst(ports, a, b)
  {
    var front := ports[..|ports|-1];
    var i :| 0 <= i < |front| && front[i].name == a && forall j | 0 <= j <= i :: front[j].name != b;
    assert ports[i].name == a && forall j | 0 <= j <= i :: ports[j] == front[j];
  }

  lemma {:induction false} NewNameIsLater(ports: seq<Port>, a: string)
    requires ports != []
    requires var front, b := ports[..|ports|-1], ports[|ports|-1].name;
             b != "" && a in ByName(front) && b !in ByName(front)
    ensures ComesFirst(ports, a, ports[|ports|-1].name)
  {
    hide ByName;
    var front, b := ports[..|ports|-1], ports[|ports|-1].name;
    NamesOf(front);
    var i :| 0 <= i < |front| && front[i].name == a;
    assert ports[i].name == a;
    forall j | 0 <= j <= i ensures ports[j].name != b {
      assert ports[j] == front[j];
    }
  }

  lemma {:induction false} WithoutLists(names: seq<string>, wanted: set<string>, dropped: set<string>)
    requires Lists(names, wanted)
    ensures Lists(Without(names, dropped), wanted - dropped)
    decreases |names|
  {
    if names != [] {
      var front, last := names[..|names|-1], names[|names|-1];
      assert names == front + [last];
      WithoutLists(front, wanted - {last}, dropped);
      assert last !in Without(front, dropped);
    }
  }

  lemma {:induction false} WithoutKeepsOrder(ports: seq<Port>, names: seq<string>, dropped: set<string>)
    requires forall i, j | 0 <= i < j < |names| :: ComesFirst(ports, names[i], names[j])
    ensures forall name :: name in Without(names, dropped) ==> name in names
    ensures forall i, j | 0 <= i < j < |Without(names, dropped)| ::
              ComesFirst(ports, Without(names, dropped)[i], Without(names, dropped)[j])
    decreases |names|
  {
    hide ComesFirst;
    if names != [] {
      var front, last := names[..|names|-1], names[|names|-1];
      assert names == front + [last] && forall i | 0 <= i < |front| :: front[i] == names[i];
      WithoutKeepsOrder(ports, front, dropped);
      var before, kept := Without(front, dropped), Without(names, dropped);
      forall i, j | 0 <= i < j < |kept| ensures ComesFirst(ports, kept[i], kept[j]) {
        if j < |before| {
          assert kept[i] == before[i] && kept[j] == before[j];
        } else {
          assert kept[i] == before[i] && kept[j] == last && before[i] in front;
          var m :| 0 <= m < |front| && front[m] == before[i];
          assert names[m] == before[i] && names[|names|-1] == last;
        }
      }
    }
  }

  /** The missing names stand in the order of the expected ports, the extra ones in that of the
      actual ports. */
  lemma {:induction false} ReportedInOrder(expected: seq<Port>, actual: seq<Port>, d: Differences)
    requires Compares(expected, actual, d)
    ensures forall i, j | 0 <= i < j < |d.missing| :: ComesFirst(expected, d.missing[i], d.missing[j])
    ensures forall i, j | 0 <= i < j < |d.extra| :: ComesFirst(actual, d.extra[i], d.extra[j])
  {
    hide ComesFirst, Without;
    DictionaryMeans(expected);
    DictionaryMeans(actual);
    WithoutKeepsOrder(expected, NamesInOrder(expected), ByName(actual).Keys);
    WithoutKeepsOrder(actual, NamesInOrder(actual), ByName(expected).Keys);
  }

  method BuildByName(ports: seq<Port>) returns (byName: map<string, Port>, names: seq<string>)
    ensures byName == ByName(ports) && names == NamesInOrder(ports)
    ensures Lists(names, byName.Keys)
  {
    byName, names := map[], [];
    for i := 0 to |ports|
      invariant byName == ByName(ports[..i]) && names == NamesInOrder(ports[..i])
    {
      assert ports[..i+1][..i] == ports[..i];
      NamesAreListed(ports[..i]);
      if ports[i].name != "" {
        names := if ports[i].name in byName then names else names + [ports[i].name];
        byName := byName[ports[i].name := ports[i]];
      }
    }
    assert ports[..|ports|] == ports;
    NamesAreListed(ports);
  }

  method ListWithout(names: seq<string>, byName: map<string, Port>) returns (kept: seq<string>)
    ensures kept == Without(names, byName.Keys)
  {
    kept := [];
    for i := 0 to |names|
      invariant kept == Without(names[..i], byName.Keys)
    {
      assert names[..i+1][..i] == names[..i];
      if names[i] !in byName {
        kept := kept + [names[i]];
      }
    }
    assert names[..|names|] == names;
  }

  method ListMismatches(expected: map<string, Port>, actual: map<string, Port>) returns (names: seq<string>)
    ensures Lists(names, Mismatched(expected, actual)) && InOrder(names)
  {
    var mismatches := {};
    var left := expected.Keys * actual.Keys;
    while left != {}
      invariant left <= expected.Keys * actual.Keys
      invariant mismatches == Mismatched(expected, actual) - left
      decreases |left|
    {
      var name :| name in left;
      if !SameShape(expected[name], actual[name]) {
        mismatches := mismatches + {name};
      }
      left := left - {name};
    }
    names := Sort(mismatches);
  }

  method ComparePortContracts(expected: seq<Port>, actual: seq<Port>) returns (d: Differences)
    ensures Compares(expected, actual, d)
  {
    hide Lists, InOrder, Mismatched;
    var expectedByName, expectedNames := BuildByName(expected);
    var actualByName, actualNames := BuildByName(actual);
    var missing := ListWithout(expectedNames, actualByName);
    var extra := ListWithout(actualNames, expectedByName);
    WithoutLists(expectedNames, expectedByName.Keys, actualByName.Keys);
    WithoutLists(actualNames, actualByName.Keys, expectedByName.Keys);
    var mismatches := ListMismatches(expectedByName, actualByName);
    d := Differences(missing, extra, mismatches);
  }

  // Conservation of expected ports

  lemma {:induction false} ListedOnce(names: seq<string>, wanted: set<string>)
    requires Lists(names, wanted)
    ensures |names| == |wanted|
    decreases |names|
  {
    if names == [] {
      assert wanted == {};
    } else {
      var front, last := names[..|names|-1], names[|names|-1];
      assert names == front + [last];
      ListedOnce(front, wanted - {last});
    }
  }

  predicate NamedApart(ports: seq<Port>) {
    && (forall i | 0 <= i < |ports| :: ports[i].name != "")
    && (forall i, j | 0 <= i < j < |ports| :: ports[i].name != ports[j].name)
  }

  lemma {:induction false} NamesOf(ports: seq<Port>)
    ensures forall name ::
              name in ByName(ports) <==> name != "" && exists i :: 0 <= i < |ports| && ports[i].name == name
    decreases |ports|
  {
    if ports != [] {
      var front, last := ports[..|ports|-1], ports[|ports|-1];
      NamesOf(front);
      assert ports == front + [last];
    }
  }

  /** There are never more names than ports, and as many exactly when all ports have names
      and no two share one. */
  lemma {:induction false} NamesAndPorts(ports: seq<Port>)
    ensures |ByName(ports)| <= |ports|
    ensures |ByName(ports)| == |ports| <==> NamedApart(ports)
    decreases |ports|
  {
    if ports != [] {
      var front, last := ports[..|ports|-1], ports[|ports|-1];
      NamesAndPorts(front);
      AddingName(ByName(front), last);
      NamedApartFront(ports);
    }
  }

  lemma {:induction false} NamedApartFront(ports: seq<Port>)
    requires ports != []
    ensures var front, last := ports[..|ports|-1], ports[|ports|-1];
            NamedApart(ports) <==> NamedApart(front) && last.name != "" && last.name !in ByName(front)
  {
    hide ByName;
    var front, last := ports[..|ports|-1], ports[|ports|-1];
    NamesOf(front);
    assert ports == front + [last];
  }

  lemma {:induction false} AddingName(before: map<string, Port>, last: Port)
    ensures |before[last.name := last]| == |before| + if last.name in before then 0 else 1
  {
    assert before[last.name := last].Keys == before.Keys + {last.name};
    assert |before.Keys| == |before| && |before[last.name := last].Keys| == |before[last.name := last]|;
  }

  lemma {:induction false} NamesSplit(e: map<string, Port>, a: map<string, Port>)
    ensures |e| == |e.Keys - a.Keys| + |Mismatched(e, a)| + |Agreeing(e, a)|
  {
    var both := Mismatched(e, a) + Agreeing(e, a);
    assert e.Keys == (e.Keys - a.Keys) + both;
    assert Mismatched(e, a) !! Agreeing(e, a) && (e.Keys - a.Keys) !! both;
    assert |e| == |e.Keys|;
  }

  /** What the readiness facts report as matched. */
  function MatchedPorts(expectedPorts: nat, d: Differences): nat {
    var rest := expectedPorts - |d.missing| - |d.mismatches|;
    if rest > 0 then rest else 0
  }

  /** Matched, missing and mismatched ports add up to the expected ports.  The matched ones
      exceed the names that agree in direction and width by exactly the expected ports that are
      nameless or whose name comes again, so they are exact if and only if there are none. */
  lemma {:induction false} PortsAddUp(expected: seq<Port>, actual: seq<Port>, d: Differences)
    requires Compares(expected, actual, d)
    ensures var matched, agreeing := MatchedPorts(|expected|, d), |Agreeing(ByName(expected), ByName(actual))|;
            && matched + |d.missing| + |d.mismatches| == |expected|
            && matched == agreeing + (|expected| - |ByName(expected)|)
            && (matched == agreeing <==> NamedApart(expected))
  {
    var e, a := ByName(expected), ByName(actual);
    ListedOnce(d.missing, e.Keys - a.Keys);
    ListedOnce(d.mismatches, Mismatched(e, a));
    NamesSplit(e, a);
    NamesAndPorts(expected);
  }

  /** A port as the comparison finds it under a name. */
  lemma {:induction false} LookupIsPort(ports: seq<Port>, i: nat)
    requires i < |ports| && NamedApart(ports)
    ensures ports[i].name in ByName(ports) && ByName(ports)[ports[i].name] == ports[i]
    decreases |ports|
  {
    var front, last := ports[..|ports|-1], ports[|ports|-1];
    assert ports == front + [last];
    if i < |front| {
      assert NamedApart(front);
      LookupIsPort(front, i);
      assert ports[i] == front[i];
    }
  }

  /** With names of their own, the expected ports that count as agreeing are exactly those for
      which the top has a port of that name, direction and width. */
  lemma {:induction false} AgreeingPorts(expected: seq<Port>, actual: seq<Port>, i: nat)
    requires i < |expected| && NamedApart(expected) && NamedApart(actual)
    ensures expected[i].name in Agreeing(ByName(expected), ByName(actual)) <==> expected[i] in actual
  {
    LookupIsPort(expected, i);
    NamesOf(actual);
    if expected[i] in actual {
      var j :| 0 <= j < |actual| && actual[j] == expected[i];
      LookupIsPort(actual, j);
    }
    if expected[i].name in ByName(actual) {
      var j :| 0 <= j < |actual| && actual[j].name == expected[i].name;
      LookupIsPort(actual, j);
    }
  }

  /** The comparison reports nothing exactly when both sides have the same ports. */
  lemma {:induction false} NoDifferencesMeansEqual(expected: seq<Port>, actual: seq<Port>, d: Differences)
    requires Compares(expected, actual, d)
    ensures d == Differences([], [], []) <==>
            var e, a := ByName(expected), ByName(actual);
            e.Keys == a.Keys && forall name | name in e :: SameShape(e[name], a[name])
  {
    var e, a := ByName(expected), ByName(actual);
    ListedOnce(d.missing, e.Keys - a.Keys);
    ListedOnce(d.extra, a.Keys - e.Keys);
    ListedOnce(d.mismatches, Mismatched(e, a));
    assert d == Differences([], [], []) <==> |d.missing| == 0 && |d.extra| == 0 && |d.mismatches| == 0;
    assert |e.Keys - a.Keys| == 0 <==> e.Keys - a.Keys == {};
    assert |a.Keys - e.Keys| == 0 <==> a.Keys - e.Keys == {};
    SubsetByDifference(e.Keys, a.Keys);
    SubsetByDifference(a.Keys, e.Keys);
    assert |Mismatched(e, a)| == 0 <==> forall name :: name !in Mismatched(e, a);
  }

  lemma {:induction false} SubsetByDifference(a: set<string>, b: set<string>)
    ensures a - b == {} <==> a <= b
  {
    if a - b == {} {
      forall name | name in a ensures name in b {
        assert name in b || name in a - b;
      }
    }
  }
}
