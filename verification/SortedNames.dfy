/** Sorted lists of names. */
module SortedNames {

  /** The order of texts by the codes of their characters. */
  predicate Before(a: string, b: string) {
    b != "" && (a == "" || a[0] < b[0] || (a[0] == b[0] && Before(a[1..], b[1..])))
  }

  predicate InOrder(names: seq<string>) {
    forall i, j | 0 <= i < j < |names| :: Before(names[i], names[j])
  }

  predicate Distinct(names: seq<string>) {
    forall i, j | 0 <= i < j < |names| :: names[i] != names[j]
  }

  ghost predicate Lists(names: seq<string>, wanted: set<string>) {
    Distinct(names) && forall name :: name in names <==> name in wanted
  }

  /** Both texts agree up to `k`, where `a` ends or has the smaller character. */
  ghost predicate DiffersAt(a: string, b: string, k: nat) {
    k <= |a| && k < |b| && a[..k] == b[..k] && (k == |a| || a[k] < b[k])
  }

  /** The first difference decides; a text comes before its continuations. */
  lemma {:induction false} BeforeMeans(a: string, b: string)
    ensures Before(a, b) <==> exists k: nat :: DiffersAt(a, b, k)
    decreases |a|
  {
    if a != "" && b != "" && a[0] == b[0] {
      BeforeMeans(a[1..], b[1..]);
      if Before(a, b) {
        var k: nat :| DiffersAt(a[1..], b[1..], k);
        assert a[..k+1] == [a[0]] + a[1..][..k] && b[..k+1] == [b[0]] + b[1..][..k];
        assert DiffersAt(a, b, k + 1);
      }
      if k: nat :| DiffersAt(a, b, k) {
        assert a[1..][..k-1] == a[..k][1..] && b[1..][..k-1] == b[..k][1..];
        assert DiffersAt(a[1..], b[1..], k - 1);
      }
    } else {
      forall k: nat | DiffersAt(a, b, k) ensures k == 0 {
        SameHead(a, b, k);
      }
      assert Before(a, b) ==> DiffersAt(a, b, 0);
    }
  }

  lemma {:induction false} SameHead(a: string, b: string, k: nat)
    requires DiffersAt(a, b, k)
    ensures k > 0 ==> a != "" && b != "" && a[0] == b[0]
  {
    if k > 0 {
      assert a[0] == a[..k][0] && b[0] == b[..k][0];
    }
  }

  lemma {:induction false} BeforeIsStrict(a: string, b: string)
    ensures !(Before(a, b) && Before(b, a)) && !Before(a, a)
    ensures Before(a, b) || Before(b, a) || a == b
    decreases |a|
  {
    if a != "" && b != "" {
      BeforeIsStrict(a[1..], b[1..]);
      assert a == [a[0]] + a[1..] && b == [b[0]] + b[1..];
    }
    if a != "" {
      BeforeIsStrict(a[1..], a[1..]);
    }
  }

  lemma {:induction false} BeforeChains(a: string, b: string, c: string)
    requires Before(a, b) && Before(b, c)
    ensures Before(a, c)
    decreases |a|
  {
    if a != "" && a[0] == b[0] && b[0] == c[0] {
      BeforeChains(a[1..], b[1..], c[1..]);
    }
  }

  function Insert(names: seq<string>, name: string): seq<string> {
    if names == [] then [name]
    else if Before(name, names[0]) then [name] + names
    else [names[0]] + Insert(names[1..], name)
  }

  lemma {:induction false} InsertKeepsOrder(names: seq<string>, name: string)
    requires InOrder(names) && name !in names
    ensures InOrder(Insert(names, name))
    ensures forall x :: x in Insert(names, name) <==> x in names || x == name
    decreases |names|
  {
    hide Before;
    if names != [] {
      if Before(name, names[0]) {
        forall j | 0 < j < |names| ensures Before(name, names[j]) {
          BeforeChains(name, names[0], names[j]);
        }
      } else {
        InsertKeepsOrder(names[1..], name);
        BeforeIsStrict(name, names[0]);
        var rest := Insert(names[1..], name);
        forall j | 0 <= j < |rest| ensures Before(names[0], rest[j]) {
          assert rest[j] in names[1..] || rest[j] == name;
        }
        assert names == [names[0]] + names[1..];
      }
    }
  }

  lemma {:induction false} OrderedAreDistinct(names: seq<string>)
    requires InOrder(names)
    ensures Distinct(names)
  {
    forall i, j | 0 <= i < j < |names| ensures names[i] != names[j] {
      BeforeIsStrict(names[i], names[j]);
    }
  }

  method Sort(wanted: set<string>) returns (names: seq<string>)
    ensures Lists(names, wanted) && InOrder(names)
  {
    names := [];
    var left := wanted;
    while left != {}
      invariant left <= wanted && InOrder(names)
      invariant forall name :: name in names <==> name in wanted - left
      decreases |left|
    {
      var name :| name in left;
      InsertKeepsOrder(names, name);
      names := Insert(names, name);
      left := left - {name};
    }
    OrderedAreDistinct(names);
  }
}
