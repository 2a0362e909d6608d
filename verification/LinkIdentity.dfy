/** Normalising linker arguments drops, adds and reorders none: every argument can be read back
    from its normal form, inside groups and response files, too. */
module LinkIdentity {
  import opened Texts
  import opened Collections
  import opened LinkArguments
  import opened LinkModes

  /** The option stands in front of its value in one text, or an equals sign does. */
  ghost predicate Attaches(text: string, option: string) {
    || option + "=" <= text
    || (option <= text && |option| < |text| && !("--" <= option))
  }

  ghost predicate TakesPath(option: string) {
    AwaitsValue(option) && option != "-l"
  }

  /** `norm` is the normal form of the argument, or the option and its value, in `piece`. */
  ghost predicate Shows(host: Host, norm: Norm, piece: seq<string>, allowWl: bool, visited: set<Path>)
    decreases norm, 0
  {
    match norm
    case Raw(text) =>
      && piece == [text]
      && (IsStateArgument(text)
          || (&& !(StartsWith(text, "-l") && |text| > 2)
              && !(StartsWith(text, "@") && |text| > 1)
              && !(allowWl && StartsWith(text, "-Wl,"))
              && (StartsWith(text, "-") || host.resolve(text) !in host.files)
              && (forall option | TakesPath(option) :: !Attaches(text, option))))
    case FileArgument(text) => piece == [text] && !StartsWith(text, "-") && host.resolve(text) in host.files
    case PathOption(option, value) =>
      && TakesPath(option)
      && (|| piece == [option, value]
          || (&& |piece| == 1 && Attaches(piece[0], option)
              && (if option + "=" <= piece[0] then piece[0] == option + "=" + value else piece[0] == option + value)
              && (forall other | TakesPath(other) && Attaches(piece[0], other) :: |other| <= |option|)))
    case Library(name, _) => piece == ["-l", name] || (piece == ["-l" + name] && name != "")
    case Group(inside) =>
      && allowWl && |piece| == 1 && StartsWith(piece[0], "-Wl,")
      && ShowsAll(host, inside, SplitCommas(piece[0][4..], ""), false, visited)
    case Response(path, cycle, read, content) =>
      && |piece| == 1 && |piece[0]| > 1 && piece[0][0] == '@' && host.resolve(piece[0][1..]) == path
      && (cycle <==> path in host.files && path in visited)
      && (read <==> path in host.files && path !in visited && host.files[path].Some?)
      && (if read then
            path in host.files && host.files[path].Some?
            && ShowsAll(host, content, host.files[path].value, allowWl, visited + {path})
          else content == [])
  }

  ghost predicate ShowsAll(host: Host, norms: seq<Norm>, arguments: seq<string>, allowWl: bool, visited: set<Path>)
    decreases norms, 1
  {
    if norms == [] then arguments == []
    else
      || (|arguments| >= 1 && Shows(host, norms[0], arguments[..1], allowWl, visited)
          && ShowsAll(host, norms[1..], arguments[1..], allowWl, visited))
      || (|arguments| >= 2 && Shows(host, norms[0], arguments[..2], allowWl, visited)
          && ShowsAll(host, norms[1..], arguments[2..], allowWl, visited))
  }

  // Attached values

  lemma {:induction false} PathOptionsListed(option: string)
    ensures option in PATH_OPTIONS <==> TakesPath(option)
  {
  }

  lemma {:induction false} FirstAttached(text: string, options: seq<string>)
    ensures match AttachedOption(text, options)
            case None => forall k | 0 <= k < |options| :: !Attaches(text, options[k])
            case Some(option) => exists k :: 0 <= k < |options| && options[k] == option && Attaches(text, option)
                                             && forall j | 0 <= j < k :: !Attaches(text, options[j])
    decreases |options|
  {
    if options != [] {
      assert Attaches(text, options[0]) <==>
             StartsWith(text, options[0] + "=")
             || (!StartsWith(options[0], "--") && StartsWith(text, options[0]) && |text| > |options[0]|);
      if !Attaches(text, options[0]) {
        FirstAttached(text, options[1..]);
        match AttachedOption(text, options[1..]) {
          case None =>
          case Some(option) =>
            var k :| 0 <= k < |options[1..]| && options[1..][k] == option && Attaches(text, option)
                     && forall j | 0 <= j < k :: !Attaches(text, options[1..][j]);
            assert options[k+1] == option;
            forall j | 0 <= j < k + 1 ensures !Attaches(text, options[j]) {
              if j > 0 {
                assert options[1..][j-1] == options[j];
              }
            }
        }
      }
    }
  }

  lemma {:induction false} SharedPrefix(text: string, a: string, b: string, i: nat)
    requires a <= text && b <= text && i < |a| && i < |b|
    ensures a[i] == b[i]
  {
  }

  /** Behind the first two, longer options come first; and these begin like no other. */
  lemma {:induction false} LongestFirst(text: string, k: nat, j: nat)
    requires k < j < |PATH_OPTIONS|
    ensures Attaches(text, PATH_OPTIONS[k]) && Attaches(text, PATH_OPTIONS[j]) ==>
              |PATH_OPTIONS[j]| <= |PATH_OPTIONS[k]|
  {
    var a, b := PATH_OPTIONS[k], PATH_OPTIONS[j];
    if k < 2 && Attaches(text, a) && Attaches(text, b) {
      AttachedIsPrefix(text, a);
      AttachedIsPrefix(text, b);
      if |a| > 2 && |b| > 2 {
        SharedPrefix(text, a, b, 2);
      }
      SharedPrefix(text, a, b, 1);
    }
  }

  lemma {:induction false} AttachedBest(text: string)
    ensures match AttachedOption(text, PATH_OPTIONS)
            case None => forall option | TakesPath(option) :: !Attaches(text, option)
            case Some(option) =>
              && TakesPath(option) && Attaches(text, option)
              && forall other | TakesPath(other) && Attaches(text, other) :: |other| <= |option|
  {
    hide TakesPath, AttachedOption, Attaches;
    FirstAttached(text, PATH_OPTIONS);
    forall option ensures option in PATH_OPTIONS <==> TakesPath(option) {
      PathOptionsListed(option);
    }
    match AttachedOption(text, PATH_OPTIONS) {
      case None =>
        forall option | TakesPath(option) ensures !Attaches(text, option) {
          var k :| 0 <= k < |PATH_OPTIONS| && PATH_OPTIONS[k] == option;
        }
      case Some(option) =>
        var k :| 0 <= k < |PATH_OPTIONS| && PATH_OPTIONS[k] == option && Attaches(text, option)
                 && forall j | 0 <= j < k :: !Attaches(text, PATH_OPTIONS[j]);
        forall other | TakesPath(other) && Attaches(text, other) ensures |other| <= |option| {
          var j :| 0 <= j < |PATH_OPTIONS| && PATH_OPTIONS[j] == other;
          NoLonger(text, k, j);
        }
    }
  }

  lemma {:induction false} NoLonger(text: string, k: nat, j: nat)
    requires k < |PATH_OPTIONS| && j < |PATH_OPTIONS| && forall i | 0 <= i < k :: !Attaches(text, PATH_OPTIONS[i])
    requires Attaches(text, PATH_OPTIONS[k]) && Attaches(text, PATH_OPTIONS[j])
    ensures |PATH_OPTIONS[j]| <= |PATH_OPTIONS[k]|
  {
    hide Attaches;
    if j > k {
      LongestFirst(text, k, j);
    }
  }

  lemma {:induction false} AttachedIsPrefix(text: string, option: string)
    requires Attaches(text, option)
    ensures option <= text
  {
  }

  lemma {:induction false} PlainShown(host: Host, text: string, allowWl: bool, visited: set<Path>)
    requires !(StartsWith(text, "-l") && |text| > 2) && !(StartsWith(text, "@") && |text| > 1)
    requires !(allowWl && StartsWith(text, "-Wl,"))
    ensures Shows(host, Plain(host, text), [text], allowWl, visited)
  {
    hide TakesPath, AttachedOption, Attaches, ShowsAll, IsStateArgument, WithoutEquals, SplitCommas;
    AttachedBest(text);
    match AttachedOption(text, PATH_OPTIONS) {
      case None =>
      case Some(option) => AttachedSplits(text, option);
    }
  }

  lemma {:induction false} AttachedSplits(text: string, option: string)
    requires Attaches(text, option)
    ensures option <= text
    ensures var value := WithoutEquals(text[|option|..]);
            if option + "=" <= text then text == option + "=" + value else text == option + value
  {
    var tail := text[|option|..];
    assert text == option + tail;
    EqualsBehind(option, tail);
    if StartsWith(tail, "=") {
      assert tail == "=" + tail[1..];
    }
  }

  lemma {:induction false} EqualsBehind(option: string, tail: string)
    ensures option + "=" <= option + tail <==> StartsWith(tail, "=")
  {
    assert (option + tail)[|option|..] == tail && (option + "=")[|option|..] == "=";
    if StartsWith(tail, "=") {
      assert (option + tail)[..|option|+1] == option + "=";
    }
    if option + "=" <= option + tail {
      assert (option + tail)[|option|] == (option + "=")[|option|];
    }
  }

  // Every argument

  lemma {:induction false} ShownFirst(host: Host, norm: Norm, norms: seq<Norm>, arguments: seq<string>, taken: nat,
                                      allowWl: bool, visited: set<Path>)
    requires 1 <= taken <= 2 && taken <= |arguments|
    requires Shows(host, norm, arguments[..taken], allowWl, visited)
    requires ShowsAll(host, norms, arguments[taken..], allowWl, visited)
    ensures ShowsAll(host, [norm] + norms, arguments, allowWl, visited)
  {
    hide Shows;
    assert ([norm] + norms)[0] == norm && ([norm] + norms)[1..] == norms;
  }

  /** For all arguments, groups and response files: the normal form shows every argument, in
      order, each file's content in its place. */
  lemma {:induction false} NormalFormShowsArguments(host: Host, arguments: seq<string>, allowWl: bool, s: State,
                                                    visited: set<Path>)
    ensures ShowsAll(host, Normalize(host, arguments, allowWl, s, visited).0, arguments, allowWl, visited)
    decreases host.files.Keys - visited, allowWl, |arguments|, 2
  {
    hide Shows, Normalize;
    if arguments == [] {
      NothingNormal(host, allowWl, s, visited);
    } else {
      var norm, taken, s' := FrontShown(host, arguments, allowWl, s, visited);
      NormalFormShowsArguments(host, arguments[taken..], allowWl, s', visited);
      ShownFirst(host, norm, Normalize(host, arguments[taken..], allowWl, s', visited).0, arguments, taken, allowWl,
                 visited);
    }
  }

  lemma {:induction false} NothingNormal(host: Host, allowWl: bool, s: State, visited: set<Path>)
    ensures Normalize(host, [], allowWl, s, visited) == ([], s)
  {
  }

  /** The normal form in front, how many arguments it takes, and the state behind it. */
  lemma {:induction false} FrontShown(host: Host, arguments: seq<string>, allowWl: bool, s: State, visited: set<Path>)
    returns (norm: Norm, taken: nat, s': State)
    requires arguments != []
    ensures 1 <= taken <= 2 && taken <= |arguments|
    ensures Shows(host, norm, arguments[..taken], allowWl, visited)
    ensures Normalize(host, arguments, allowWl, s, visited).0 ==
            [norm] + Normalize(host, arguments[taken..], allowWl, s', visited).0
    decreases host.files.Keys - visited, allowWl, |arguments|, 1
  {
    hide IsStateArgument, TakesValue, ChangeState, Plain, Shows, AwaitsValue;
    var argument := arguments[0];
    taken, s' := 1, s;
    assert arguments[..1] == [argument];
    ValueOptions(argument);
    if allowWl && IsGroup(argument) {
      var (inside, s1) := Normalize(host, GroupArguments(argument), false, s, visited);
      NormalFormShowsArguments(host, GroupArguments(argument), false, s, visited);
      norm, s' := Group(inside), s1;
      GroupShown(host, argument, inside, visited);
    } else if IsStateArgument(argument) {
      norm, s' := Raw(argument), ChangeState(argument, !allowWl, s);
      StateShown(host, argument, allowWl, visited);
    } else if TakesValue(argument) && |arguments| > 1 {
      norm := if argument == "-l" then Library(arguments[1], s.isStatic) else PathOption(argument, arguments[1]);
      taken := 2;
      ValueShown(host, argument, arguments[1], s.isStatic, allowWl, visited);
      assert arguments[..2] == [argument, arguments[1]];
    } else if IsLibrary(argument) {
      norm := Library(argument[2..], s.isStatic);
      LibraryShown(host, argument, s.isStatic, allowWl, visited);
    } else if IsResponse(argument) {
      norm, s' := ResponseShown(host, arguments, allowWl, s, visited);
    } else {
      norm := Plain(host, argument);
      NoLibrary(argument);
      PlainShown(host, argument, allowWl, visited);
    }
  }

  lemma {:induction false} NoLibrary(argument: string)
    requires !IsLibrary(argument)
    ensures !(StartsWith(argument, "-l") && |argument| > 2)
  {
  }

  lemma {:induction false} GroupShown(host: Host, argument: string, inside: seq<Norm>, visited: set<Path>)
    requires IsGroup(argument) && ShowsAll(host, inside, GroupArguments(argument), false, visited)
    ensures Shows(host, Group(inside), [argument], true, visited)
  {
  }

  lemma {:induction false} StateShown(host: Host, argument: string, allowWl: bool, visited: set<Path>)
    requires IsStateArgument(argument)
    ensures Shows(host, Raw(argument), [argument], allowWl, visited)
  {
  }

  lemma {:induction false} ValueShown(host: Host, argument: string, value: string, isStatic: bool, allowWl: bool,
                                      visited: set<Path>)
    requires TakesValue(argument)
    ensures Shows(host, if argument == "-l" then Library(value, isStatic) else PathOption(argument, value),
                  [argument, value], allowWl, visited)
  {
    hide AwaitsValue, TakesValue;
    ValueOptions(argument);
  }

  lemma {:induction false} LibraryShown(host: Host, argument: string, isStatic: bool, allowWl: bool, visited: set<Path>)
    requires IsLibrary(argument)
    ensures Shows(host, Library(argument[2..], isStatic), [argument], allowWl, visited)
  {
    assert argument == "-l" + argument[2..];
  }

  lemma {:induction false} ResponseShown(host: Host, arguments: seq<string>, allowWl: bool, s: State,
                                         visited: set<Path>) returns (norm: Norm, s': State)
    requires arguments != [] && IsResponse(arguments[0])
    ensures Shows(host, norm, [arguments[0]], allowWl, visited)
    ensures Normalize(host, arguments, allowWl, s, visited).0 ==
            [norm] + Normalize(host, arguments[1..], allowWl, s', visited).0
    decreases host.files.Keys - visited, allowWl, |arguments|, 0
  {
    hide IsStateArgument, TakesValue, ChangeState, Plain, IsLibrary, IsGroup;
    var argument := arguments[0];
    ResponseIsNothingElse(argument);
    var path := host.resolve(argument[1..]);
    if CanOpen(host, visited, argument) {
      Smaller(host.files.Keys, visited, path);
      var content := host.files[path].value;
      var (inside, s1) := Normalize(host, content, allowWl, s, visited + {path});
      NormalFormShowsArguments(host, content, allowWl, s, visited + {path});
      norm, s' := Response(path, false, true, inside), s1;
    } else {
      norm, s' := Response(path, path in host.files && path in visited, false, []), s;
    }
  }
}
