/** The linker-argument walks as the original runs them, with one shared link state, and the
    search for a global static option through response files. */
module LinkDriver {
  import opened Collections
  import opened LinkArguments
  import opened LinkModes

  class LinkState {
    var isStatic: bool
    var stack: seq<bool>

    ghost function View(): State
      reads this
    {
      State(isStatic, stack)
    }

    constructor (isStatic: bool)
      ensures View() == State(isStatic, [])
    {
      this.isStatic, stack := isStatic, [];
    }

    method Apply(argument: string, inGroup: bool)
      requires IsStateArgument(argument)
      modifies this
      ensures View() == ChangeState(argument, inGroup, old(View()))
    {
      if argument in POSITIONAL_STATIC {
        if inGroup || argument !in GLOBAL_STATIC { isStatic := true; }
      } else if argument in POSITIONAL_DYNAMIC {
        isStatic := false;
      } else if argument == "--push-state" {
        stack := stack + [isStatic];
      } else if stack != [] {
        isStatic, stack := stack[|stack|-1], stack[..|stack|-1];
      }
    }
  }

  function Prefixed(done: seq<Norm>, rest: (seq<Norm>, State)): (seq<Norm>, State) {
    (done + rest.0, rest.1)
  }

  lemma {:induction false} PrefixedTwice(done: seq<Norm>, norm: Norm, rest: (seq<Norm>, State))
    ensures Prefixed(done, ([norm] + rest.0, rest.1)) == Prefixed(done + [norm], rest)
  {
    assert done + ([norm] + rest.0) == done + [norm] + rest.0;
  }

  /** One turn of the loop: the normal form of the argument in front, and how many arguments
      it takes. */
  method NormalizeFront(host: Host, arguments: seq<string>, allowWl: bool, state: LinkState, visited: set<Path>)
    returns (norm: Norm, taken: nat)
    requires arguments != []
    modifies state
    ensures 1 <= taken <= 2 && taken <= |arguments|
    ensures Normalize(host, arguments, allowWl, old(state.View()), visited) ==
            (var rest := Normalize(host, arguments[taken..], allowWl, state.View(), visited); ([norm] + rest.0, rest.1))
    decreases host.files.Keys - visited, allowWl, |arguments|, 0
  {
    hide IsStateArgument, TakesValue, ChangeState, Plain;
    var argument := arguments[0];
    taken := 1;
    if allowWl && IsGroup(argument) {
      var inside := NormalizeLinkArguments(host, GroupArguments(argument), false, state, visited);
      norm := Group(inside);
    } else if IsStateArgument(argument) {
      state.Apply(argument, !allowWl);
      norm := Raw(argument);
    } else if TakesValue(argument) && |arguments| > 1 {
      norm := if argument == "-l" then Library(arguments[1], state.isStatic) else PathOption(argument, arguments[1]);
      taken := 2;
    } else if IsLibrary(argument) {
      norm := Library(argument[2..], state.isStatic);
    } else if IsResponse(argument) {
      var path := host.resolve(argument[1..]);
      if CanOpen(host, visited, argument) {
        Smaller(host.files.Keys, visited, path);
        var inside := NormalizeLinkArguments(host, host.files[path].value, allowWl, state, visited + {path});
        norm := Response(path, false, true, inside);
      } else {
        norm := Response(path, path in host.files && path in visited, false, []);
      }
    } else {
      norm := Plain(host, argument);
    }
  }

  method NormalizeLinkArguments(host: Host, arguments: seq<string>, allowWl: bool, state: LinkState, visited: set<Path>)
    returns (normalized: seq<Norm>)
    modifies state
    ensures (normalized, state.View()) == Normalize(host, arguments, allowWl, old(state.View()), visited)
    decreases host.files.Keys - visited, allowWl, |arguments|, 1
  {
    hide Normalize;
    normalized := [];
    ghost var s := state.View();
    var index := 0;
    assert arguments[0..] == arguments;
    assert [] + Normalize(host, arguments, allowWl, s, visited).0 == Normalize(host, arguments, allowWl, s, visited).0;
    while index < |arguments|
      invariant 0 <= index <= |arguments|
      invariant Normalize(host, arguments, allowWl, s, visited)
                == Prefixed(normalized, Normalize(host, arguments[index..], allowWl, state.View(), visited))
    {
      var norm, taken := NormalizeFront(host, arguments[index..], allowWl, state, visited);
      assert arguments[index..][taken..] == arguments[index+taken..];
      PrefixedTwice(normalized, norm, Normalize(host, arguments[index+taken..], allowWl, state.View(), visited));
      normalized := normalized + [norm];
      index := index + taken;
    }
    NothingLeft(host, arguments[index..], allowWl, state.View(), visited);
    assert normalized + [] == normalized;
  }

  lemma {:induction false} NothingLeft(host: Host, arguments: seq<string>, allowWl: bool, s: State, visited: set<Path>)
    requires |arguments| == 0
    ensures Normalize(host, arguments, allowWl, s, visited).0 == []
    ensures Normalize(host, arguments, allowWl, s, visited).1 == s
  {
  }

  // Global static options

  ghost predicate HasGlobalToken(arguments: seq<string>) {
    exists i | 0 <= i < |arguments| :: arguments[i] in {"-static", "--static"}
  }

  /** `arguments` refer to the readable response file `path`. */
  ghost predicate RefersTo(host: Host, arguments: seq<string>, path: Path) {
    && path in host.files && host.files[path].Some?
    && exists i | 0 <= i < |arguments| ::
         |arguments[i]| > 1 && arguments[i][0] == '@' && host.resolve(arguments[i][1..]) == path
  }

  /** The depth-first search, which only remembers the files on its current path. */
  function SearchGlobalStatic(host: Host, arguments: seq<string>, visited: set<Path>): bool
    decreases host.files.Keys - visited, |arguments|
  {
    if arguments == [] then false
    else if arguments[0] in GLOBAL_STATIC then true
    else if IsResponse(arguments[0]) && CanOpen(host, visited, arguments[0]) then
      var path := host.resolve(arguments[0][1..]);
      Smaller(host.files.Keys, visited, path);
      SearchGlobalStatic(host, host.files[path].value, visited + {path})
        || SearchGlobalStatic(host, arguments[1..], visited)
    else SearchGlobalStatic(host, arguments[1..], visited)
  }

  method LinkHasGlobalStatic(host: Host, arguments: seq<string>, visited: set<Path>) returns (found: bool)
    ensures found == SearchGlobalStatic(host, arguments, visited)
    decreases host.files.Keys - visited
  {
    var i := 0;
    assert arguments[0..] == arguments;
    while i < |arguments|
      invariant 0 <= i <= |arguments|
      invariant SearchGlobalStatic(host, arguments, visited) == SearchGlobalStatic(host, arguments[i..], visited)
    {
      var argument := arguments[i];
      assert arguments[i..][0] == argument && arguments[i..][1..] == arguments[i+1..];
      i := i + 1;
      if argument in GLOBAL_STATIC { return true; }
      if IsResponse(argument) {
        GlobalIsNoResponse(argument);
        var path := host.resolve(argument[1..]);
        if path in visited { continue; }
        if path in host.files && host.files[path].Some? {
          Smaller(host.files.Keys, visited, path);
          var nested := LinkHasGlobalStatic(host, host.files[path].value, visited + {path});
          if nested { return true; }
        }
      }
    }
    return false;
  }

  lemma {:induction false} GlobalIsNoResponse(argument: string)
    requires IsResponse(argument)
    ensures argument !in GLOBAL_STATIC
  {
    assert argument[0] == '@';
  }

  /** `chain` leads from the arguments through readable response files to a global token. */
  ghost predicate Leads(host: Host, arguments: seq<string>, chain: seq<Path>)
    decreases |chain|
  {
    if chain == [] then HasGlobalToken(arguments)
    else RefersTo(host, arguments, chain[0]) && Leads(host, host.files[chain[0]].value, chain[1..])
  }

  /** What one level of the search sees. */
  lemma {:induction false} SearchLooksAtEveryArgument(host: Host, arguments: seq<string>, visited: set<Path>)
    ensures SearchGlobalStatic(host, arguments, visited) <==>
            || HasGlobalToken(arguments)
            || exists path :: path !in visited && RefersTo(host, arguments, path)
                              && SearchGlobalStatic(host, host.files[path].value, visited + {path})
    decreases |arguments|
  {
    if arguments != [] {
      var first, rest := arguments[0], arguments[1..];
      SearchLooksAtEveryArgument(host, rest, visited);
      assert HasGlobalToken(arguments) <==> first in GLOBAL_STATIC || HasGlobalToken(rest) by {
        if HasGlobalToken(rest) {
          var i :| 0 <= i < |rest| && rest[i] in {"-static", "--static"};
          assert arguments[i+1] in GLOBAL_STATIC;
        }
        if HasGlobalToken(arguments) && first !in GLOBAL_STATIC {
          var i :| 0 <= i < |arguments| && arguments[i] in {"-static", "--static"};
          assert rest[i-1] in GLOBAL_STATIC;
        }
      }
      forall path
        ensures RefersTo(host, arguments, path) <==>
                RefersTo(host, rest, path) ||
                (IsResponse(first) && host.resolve(first[1..]) == path && path in host.files && host.files[path].Some?)
      {
        RefersInParts(host, arguments, path);
      }
    }
  }

  lemma {:induction false} RefersInParts(host: Host, arguments: seq<string>, path: Path)
    requires arguments != []
    ensures RefersTo(host, arguments, path) <==>
            RefersTo(host, arguments[1..], path) ||
            (IsResponse(arguments[0]) && host.resolve(arguments[0][1..]) == path && path in host.files
                && host.files[path].Some?)
  {
    var rest := arguments[1..];
    if RefersTo(host, rest, path) {
      var i :| 0 <= i < |rest| && |rest[i]| > 1 && rest[i][0] == '@' && host.resolve(rest[i][1..]) == path;
      assert arguments[i+1] == rest[i];
    }
    if RefersTo(host, arguments, path) {
      var i :| 0 <= i < |arguments| && |arguments[i]| > 1 && arguments[i][0] == '@'
               && host.resolve(arguments[i][1..]) == path;
      if i > 0 { assert rest[i-1] == arguments[i]; }
    }
  }

  lemma {:induction false} SearchFindsChain(host: Host, arguments: seq<string>, visited: set<Path>)
    returns (chain: seq<Path>)
    requires SearchGlobalStatic(host, arguments, visited)
    ensures Leads(host, arguments, chain)
    decreases host.files.Keys - visited
  {
    SearchLooksAtEveryArgument(host, arguments, visited);
    if HasGlobalToken(arguments) {
      return [];
    }
    var path :| path !in visited && RefersTo(host, arguments, path)
                && SearchGlobalStatic(host, host.files[path].value, visited + {path});
    Smaller(host.files.Keys, visited, path);
    var later := SearchFindsChain(host, host.files[path].value, visited + {path});
    chain := [path] + later;
    assert chain[1..] == later;
  }

  /** The part of a chain behind the last visit of a file leads on from that file. */
  lemma {:induction false} CutLoop(host: Host, arguments: seq<string>, chain: seq<Path>, path: Path)
    returns (shorter: seq<Path>)
    requires Leads(host, arguments, chain) && path in chain
    ensures path in host.files && host.files[path].Some? && Leads(host, host.files[path].value, shorter)
    ensures |shorter| < |chain| && path !in shorter
    ensures forall p | p in shorter :: p in chain
    decreases |chain|
  {
    var rest := chain[1..];
    if path in rest {
      shorter := CutLoop(host, host.files[chain[0]].value, rest, path);
    } else {
      shorter := rest;
    }
  }

  lemma {:induction false} ChainIsFound(host: Host, arguments: seq<string>, chain: seq<Path>, visited: set<Path>)
    requires Leads(host, arguments, chain) && forall p | p in chain :: p !in visited
    ensures SearchGlobalStatic(host, arguments, visited)
    decreases |chain|
  {
    SearchLooksAtEveryArgument(host, arguments, visited);
    if chain != [] {
      var path := chain[0];
      var shorter := CutLoop(host, arguments, chain, path);
      ChainIsFound(host, host.files[path].value, shorter, visited + {path});
      assert path !in visited && RefersTo(host, arguments, path);
    }
  }

  /** A global static option stands in the arguments or in some readable file they reach. */
  ghost predicate ReachesGlobalStatic(host: Host, arguments: seq<string>) {
    exists chain :: Leads(host, arguments, chain)
  }

  /** The search, cyclic response files or not, finds a global static option exactly when one
      stands in the arguments or in some readable file they reach. */
  lemma {:induction false} SearchIsReachability(host: Host, arguments: seq<string>)
    ensures SearchGlobalStatic(host, arguments, {}) <==> ReachesGlobalStatic(host, arguments)
  {
    if SearchGlobalStatic(host, arguments, {}) {
      var chain := SearchFindsChain(host, arguments, {});
      assert Leads(host, arguments, chain);
    } else if ReachesGlobalStatic(host, arguments) {
      var chain :| Leads(host, arguments, chain);
      ChainIsFound(host, arguments, chain, {});
    }
  }

  /** The flags of a link step: whether a global static option can be reached decides the initial
      mode, and the recorded modes are those of the places of the libraries behind it; they are
      also those of one scan of the stream, spliced in place unless an option dangles. */
  method NormalizedLinkFlags(host: Host, arguments: seq<string>) returns (normalized: seq<Norm>)
    ensures Modes(normalized) ==
            LibraryModes(Effects(Flattened(host, arguments, false, {})), 0, ReachesGlobalStatic(host, arguments))
    ensures var tokens, s := Stream(host, arguments, true, {}), State(SearchGlobalStatic(host, arguments, {}), []);
            && Modes(normalized) == Scan(tokens, s).0
            && (NoneDangling(tokens) ==> Modes(normalized) == Scan(Spliced(tokens), s).0)
  {
    var global := LinkHasGlobalStatic(host, arguments, {});
    var state := new LinkState(global);
    normalized := NormalizeLinkArguments(host, arguments, true, state, {});
    NormalizeRefinesScan(host, arguments, true, State(global, []), {});
    SearchIsReachability(host, arguments);
    ModesByPosition(host, arguments, global);
    ghost var tokens := Stream(host, arguments, true, {});
    if NoneDangling(tokens) {
      SplicedScansAlike(tokens, State(global, []));
    }
  }
}
