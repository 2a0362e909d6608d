/** Linker arguments: nested groups and response files that share one static/dynamic state,
    against a single left-to-right scan of the flattened argument stream. */
module LinkArguments {
  import opened Texts
  import opened Collections
  import opened Options

  type Path = string

  const GLOBAL_STATIC: set<string> := {"--static", "-static"}
  const POSITIONAL_STATIC: set<string> := {"--static", "-Bstatic", "-dn", "-non_shared", "-static"}
  const POSITIONAL_DYNAMIC: set<string> := {"-Bdynamic", "-call_shared", "-dy"}

  /** Options that take a path, in the order in which attached values are looked for. */
  const PATH_OPTIONS: seq<string> :=
    ["--sysroot", "-L", "--retain-symbols-file", "--version-script", "--dynamic-list", "--just-symbols", "-rpath-link",
     "--output", "--script", "-rpath", "-Map", "-T", "-o"]

  /** The response files present, with their arguments when they can be read and split; and
      how a reference is resolved to a path. */
  datatype Host = Host(files: map<Path, Option<seq<string>>>, resolve: string -> Path)

  datatype State = State(isStatic: bool, stack: seq<bool>)

  function SplitCommas(text: string, part: string): (parts: seq<string>)
    ensures |parts| > 0
    decreases |text|
  {
    if text == "" then [part]
    else if text[0] == ',' then [part] + SplitCommas(text[1..], "")
    else SplitCommas(text[1..], part + [text[0]])
  }

  function AttachedOption(argument: string, options: seq<string>): (r: Option<string>)
    ensures r.Some? ==> StartsWith(argument, r.value)
  {
    if options == [] then None
    else if StartsWith(argument, options[0] + "=")
         || (!StartsWith(options[0], "--") && StartsWith(argument, options[0]) && |argument| > |options[0]|)
    then Some(options[0])
    else AttachedOption(argument, options[1..])
  }

  function WithoutEquals(text: string): string {
    if StartsWith(text, "=") then text[1..] else text
  }

  // State changes, shared by both readings

  predicate IsStateArgument(argument: string) {
    argument in POSITIONAL_STATIC || argument in POSITIONAL_DYNAMIC || argument == "--push-state"
      || argument == "--pop-state"
  }

  /** `-static` and `--static` count positionally only inside a -Wl group. */
  function ChangeState(argument: string, inGroup: bool, s: State): State {
    if argument in POSITIONAL_STATIC then
      if inGroup || argument !in GLOBAL_STATIC then s.(isStatic := true) else s
    else if argument in POSITIONAL_DYNAMIC then s.(isStatic := false)
    else if argument == "--push-state" then s.(stack := s.stack + [s.isStatic])
    else if argument == "--pop-state" && s.stack != [] then State(s.stack[|s.stack|-1], s.stack[..|s.stack|-1])
    else s
  }

  predicate TakesValue(argument: string) {
    argument == "-l" || argument in PATH_OPTIONS
  }

  predicate IsGroup(argument: string) {
    StartsWith(argument, "-Wl,")
  }

  predicate IsResponse(argument: string) {
    StartsWith(argument, "@") && |argument| > 1
  }

  predicate IsLibrary(argument: string) {
    StartsWith(argument, "-l") && argument != "-l"
  }

  function GroupArguments(argument: string): seq<string>
    requires IsGroup(argument)
  {
    SplitCommas(argument[4..], "")
  }

  // The recursive normaliser

  datatype Norm =
    | Raw(text: string)
    | PathOption(option: string, value: string)
    | Library(name: string, isStatic: bool)
    | Group(arguments: seq<Norm>)
    | Response(path: Path, cycle: bool, read: bool, content: seq<Norm>)
    | FileArgument(text: string)

  predicate CanOpen(host: Host, visited: set<Path>, argument: string)
    requires IsResponse(argument)
  {
    var path := host.resolve(argument[1..]);
    path in host.files && path !in visited && host.files[path].Some?
  }

  function Plain(host: Host, argument: string): Norm {
    match AttachedOption(argument, PATH_OPTIONS)
    case Some(option) => PathOption(option, WithoutEquals(argument[|option|..]))
    case None =>
      if !StartsWith(argument, "-") && host.resolve(argument) in host.files then FileArgument(argument)
        else Raw(argument)
  }

  function Normalize(host: Host, arguments: seq<string>, allowWl: bool, s: State, visited: set<Path>): (seq<Norm>,
                     State)
    decreases host.files.Keys - visited, allowWl, |arguments|
  {
    if arguments == [] then ([], s)
    else
      var argument := arguments[0];
      if allowWl && IsGroup(argument) then
        var (inside, s1) := Normalize(host, GroupArguments(argument), false, s, visited);
        var (rest, s2) := Normalize(host, arguments[1..], allowWl, s1, visited);
        ([Group(inside)] + rest, s2)
      else if IsStateArgument(argument) then
        var (rest, s2) := Normalize(host, arguments[1..], allowWl, ChangeState(argument, !allowWl, s), visited);
        ([Raw(argument)] + rest, s2)
      else if TakesValue(argument) && |arguments| > 1 then
        var (rest, s2) := Normalize(host, arguments[2..], allowWl, s, visited);
        ([if argument == "-l" then Library(arguments[1], s.isStatic) else PathOption(argument, arguments[1])] + rest,
            s2)
      else if IsLibrary(argument) then
        var (rest, s2) := Normalize(host, arguments[1..], allowWl, s, visited);
        ([Library(argument[2..], s.isStatic)] + rest, s2)
      else if IsResponse(argument) then
        var path := host.resolve(argument[1..]);
        if CanOpen(host, visited, argument) then
          Smaller(host.files.Keys, visited, path);
          var (inside, s1) := Normalize(host, host.files[path].value, allowWl, s, visited + {path});
          var (rest, s2) := Normalize(host, arguments[1..], allowWl, s1, visited);
          ([Response(path, false, true, inside)] + rest, s2)
        else
          var (rest, s2) := Normalize(host, arguments[1..], allowWl, s, visited);
          ([Response(path, path in host.files && path in visited, false, [])] + rest, s2)
      else
        var (rest, s2) := Normalize(host, arguments[1..], allowWl, s, visited);
        ([Plain(host, argument)] + rest, s2)
  }

  /** The libraries of a normalised argument list in order, each with its recorded mode. */
  function Modes(norms: seq<Norm>): seq<(string, bool)> {
    if norms == [] then [] else ModesOf(norms[0]) + Modes(norms[1..])
  }

  function ModesOf(norm: Norm): seq<(string, bool)> {
    match norm
    case Library(name, isStatic) => [(name, isStatic)]
    case Group(arguments) => Modes(arguments)
    case Response(_, _, _, content) => Modes(content)
    case _ => []
  }

  // The flattened stream and its scan

  /** An argument in its place, or the end of a group or response file. */
  datatype Token = Text(text: string, inGroup: bool) | End

  /** Groups and response files opened in place; a value is never opened. */
  function Stream(host: Host, arguments: seq<string>, allowWl: bool, visited: set<Path>): seq<Token>
    decreases host.files.Keys - visited, allowWl, |arguments|
  {
    if arguments == [] then []
    else
      var argument := arguments[0];
      var token := Text(argument, !allowWl);
      if allowWl && IsGroup(argument) then
        Stream(host, GroupArguments(argument), false, visited) + [End] + Stream(host, arguments[1..], allowWl, visited)
      else if !IsStateArgument(argument) && TakesValue(argument) && |arguments| > 1 then
        [token, Text(arguments[1], !allowWl)] + Stream(host, arguments[2..], allowWl, visited)
      else if IsResponse(argument) && CanOpen(host, visited, argument) then
        var path := host.resolve(argument[1..]);
        Smaller(host.files.Keys, visited, path);
        Stream(host, host.files[path].value, allowWl, visited + {path}) + [End]
          + Stream(host, arguments[1..], allowWl, visited)
      else
        [token] + Stream(host, arguments[1..], allowWl, visited)
  }

  predicate TakesNext(tokens: seq<Token>) {
    |tokens| > 1 && tokens[0].Text? && !IsStateArgument(tokens[0].text) && TakesValue(tokens[0].text)
  }

  /** One pass over a stream with nothing but the state.  An option takes the next argument as
      its value, but none from behind the end of its own list. */
  function Scan(tokens: seq<Token>, s: State): (seq<(string, bool)>, State)
    decreases |tokens|
  {
    if tokens == [] then ([], s)
    else if tokens[0].End? then Scan(tokens[1..], s)
    else
      var text := tokens[0].text;
      if IsStateArgument(text) then Scan(tokens[1..], ChangeState(text, tokens[0].inGroup, s))
      else if TakesNext(tokens) && tokens[1].Text? then
        var (rest, s2) := Scan(tokens[2..], s);
        (if text == "-l" then [(tokens[1].text, s.isStatic)] + rest else rest, s2)
      else
        var (rest, s2) := Scan(tokens[1..], s);
        (if IsLibrary(text) then [(text[2..], s.isStatic)] + rest else rest, s2)
  }

  lemma {:induction false} ResponseIsNothingElse(argument: string)
    requires IsResponse(argument)
    ensures !IsStateArgument(argument) && !TakesValue(argument) && !IsLibrary(argument) && !IsGroup(argument)
  {
    assert argument[0] == '@';
  }

  lemma {:induction false} GroupIsNothingElse(argument: string)
    requires IsGroup(argument)
    ensures !IsStateArgument(argument) && !TakesValue(argument) && !IsLibrary(argument) && !IsResponse(argument)
  {
    assert argument[..4] == "-Wl," && argument[0] == '-' && argument[1] == 'W';
  }

  lemma {:induction false} LibraryIsNothingElse(argument: string)
    requires IsLibrary(argument)
    ensures !IsStateArgument(argument) && !TakesValue(argument)
  {
    assert argument[0] == '-' && argument[1] == 'l' && |argument| > 2;
  }

  lemma {:induction false} Regroup<T>(a: seq<T>, b: seq<T>, c: seq<T>)
    ensures a + (b + c) == a + b + c
  {
  }

  /** Scanning a list, its end and what follows is scanning the one and then the other. */
  lemma {:induction false} ScanSplits(first: seq<Token>, second: seq<Token>, s: State)
    ensures var (a, s1) := Scan(first, s);
            var (b, s2) := Scan(second, s1);
            Scan(first + [End] + second, s) == (a + b, s2)
    decreases |first|
  {
    hide IsStateArgument, TakesValue, ChangeState, IsLibrary;
    var all := first + [End] + second;
    if first == [] {
      assert all == [End] + second && all[1..] == second;
      assert [] + Scan(second, s).0 == Scan(second, s).0;
    } else {
      assert all[0] == first[0] && all[1..] == first[1..] + [End] + second;
      if first[0].End? {
        ScanSplits(first[1..], second, s);
      } else {
        var text := first[0].text;
        if IsStateArgument(text) {
          ScanSplits(first[1..], second, ChangeState(text, first[0].inGroup, s));
        } else if TakesNext(first) && first[1].Text? {
          assert all[1] == first[1] && all[2..] == first[2..] + [End] + second;
          ScanSplits(first[2..], second, s);
          Regroup([(first[1].text, s.isStatic)], Scan(first[2..], s).0, Scan(second, Scan(first[2..], s).1).0);
        } else {
          assert all[1] == if |first| > 1 then first[1] else End;
          ScanSplits(first[1..], second, s);
          LibrarySlice(text);
          if IsLibrary(text) {
            Regroup([(text[2..], s.isStatic)], Scan(first[1..], s).0, Scan(second, Scan(first[1..], s).1).0);
          }
        }
      }
    }
  }

  lemma {:induction false} LibrarySlice(text: string)
    ensures IsLibrary(text) ==> |text| >= 2
  {
  }

  /** Scanning a token that consumes nothing behind it. */
  lemma {:induction false} ScanOne(token: Token, rest: seq<Token>, s: State)
    requires token.Text? && (IsStateArgument(token.text) || !TakesValue(token.text) || rest == [])
    ensures IsLibrary(token.text) ==> |token.text| >= 2
    ensures var s' := if IsStateArgument(token.text) then ChangeState(token.text, token.inGroup, s) else s;
            var mode := if !IsStateArgument(token.text) && IsLibrary(token.text) then [(token.text[2..], s.isStatic)]
                else [];
            Scan([token] + rest, s) == (mode + Scan(rest, s').0, Scan(rest, s').1)
  {
    hide IsStateArgument, TakesValue, ChangeState;
    assert ([token] + rest)[1..] == rest;
    var s' := if IsStateArgument(token.text) then ChangeState(token.text, token.inGroup, s) else s;
    assert [] + Scan(rest, s').0 == Scan(rest, s').0;
  }

  lemma {:induction false} ModesCons(head: Norm, tail: seq<Norm>)
    ensures Modes([head] + tail) == ModesOf(head) + Modes(tail)
  {
    assert ([head] + tail)[1..] == tail;
  }

  /** For all arguments, groups and response files, cyclic ones included: the recorded mode of
      every library, and the final state, are those of the single scan over the stream. */
  lemma {:induction false} NormalizeRefinesScan(host: Host, arguments: seq<string>, allowWl: bool, s: State,
                                                visited: set<Path>)
    ensures var (norms, s1) := Normalize(host, arguments, allowWl, s, visited);
            Scan(Stream(host, arguments, allowWl, visited), s) == (Modes(norms), s1)
    decreases host.files.Keys - visited, allowWl, |arguments|
  {
    hide IsStateArgument, TakesValue, IsLibrary, IsGroup, IsResponse, CanOpen, Plain, ChangeState;
    if arguments != [] {
      var argument := arguments[0];
      if allowWl && IsGroup(argument) {
        GroupIsNothingElse(argument);
        NormalizeRefinesScan(host, GroupArguments(argument), false, s, visited);
        var (inside, s1) := Normalize(host, GroupArguments(argument), false, s, visited);
        NormalizeRefinesScan(host, arguments[1..], allowWl, s1, visited);
        ScanSplits(Stream(host, GroupArguments(argument), false, visited),
          Stream(host, arguments[1..], allowWl, visited), s);
        ModesCons(Group(inside), Normalize(host, arguments[1..], allowWl, s1, visited).0);
      } else if IsStateArgument(argument) {
        NormalizeRefinesScan(host, arguments[1..], allowWl, ChangeState(argument, !allowWl, s), visited);
        if IsResponse(argument) { ResponseIsNothingElse(argument); }
        StreamOne(host, arguments, allowWl, visited);
        ScanOne(Text(argument, !allowWl), Stream(host, arguments[1..], allowWl, visited), s);
        ModesCons(Raw(argument), Normalize(host, arguments[1..], allowWl, ChangeState(argument, !allowWl, s),
          visited).0);
      } else if TakesValue(argument) && |arguments| > 1 {
        ValueRefines(host, arguments, allowWl, s, visited);
      } else if IsResponse(argument) && CanOpen(host, visited, argument) {
        OpenedRefines(host, arguments, allowWl, s, visited);
      } else {
        OtherRefines(host, arguments, allowWl, s, visited);
      }
    }
  }

  lemma {:induction false} StreamOne(host: Host, arguments: seq<string>, allowWl: bool, visited: set<Path>)
    requires arguments != [] && !(allowWl && IsGroup(arguments[0]))
    requires IsStateArgument(arguments[0]) || !TakesValue(arguments[0]) || |arguments| == 1
    requires IsResponse(arguments[0]) ==> !CanOpen(host, visited, arguments[0])
    ensures Stream(host, arguments, allowWl, visited) ==
            [Text(arguments[0], !allowWl)] + Stream(host, arguments[1..], allowWl, visited)
  {
  }

  lemma {:induction false} ValueRefines(host: Host, arguments: seq<string>, allowWl: bool, s: State, visited: set<Path>)
    requires |arguments| > 1
    requires !(allowWl && IsGroup(arguments[0])) && !IsStateArgument(arguments[0]) && TakesValue(arguments[0])
    ensures var (norms, s1) := Normalize(host, arguments, allowWl, s, visited);
            Scan(Stream(host, arguments, allowWl, visited), s) == (Modes(norms), s1)
    decreases host.files.Keys - visited, allowWl, |arguments|, 0
  {
    hide IsStateArgument, TakesValue, IsGroup, IsResponse, CanOpen, Plain, ChangeState;
    var rest := Stream(host, arguments[2..], allowWl, visited);
    NormalizeRefinesScan(host, arguments[2..], allowWl, s, visited);
    var token, value := Text(arguments[0], !allowWl), Text(arguments[1], !allowWl);
    assert ([token, value] + rest)[2..] == rest;
    var norm := if arguments[0] == "-l" then Library(arguments[1], s.isStatic)
        else PathOption(arguments[0], arguments[1]);
    ModesCons(norm, Normalize(host, arguments[2..], allowWl, s, visited).0);
    assert [] + Scan(rest, s).0 == Scan(rest, s).0;
  }

  lemma {:induction false} OpenedRefines(host: Host, arguments: seq<string>, allowWl: bool, s: State,
                                         visited: set<Path>)
    requires arguments != [] && IsResponse(arguments[0]) && CanOpen(host, visited, arguments[0])
    ensures var (norms, s1) := Normalize(host, arguments, allowWl, s, visited);
            Scan(Stream(host, arguments, allowWl, visited), s) == (Modes(norms), s1)
    decreases host.files.Keys - visited, allowWl, |arguments|, 0
  {
    hide IsStateArgument, TakesValue, IsLibrary, IsGroup, Plain, ChangeState;
    var argument := arguments[0];
    var path := host.resolve(argument[1..]);
    ResponseIsNothingElse(argument);
    Smaller(host.files.Keys, visited, path);
    var nested := host.files[path].value;
    NormalizeRefinesScan(host, nested, allowWl, s, visited + {path});
    var (inside, s1) := Normalize(host, nested, allowWl, s, visited + {path});
    NormalizeRefinesScan(host, arguments[1..], allowWl, s1, visited);
    ScanSplits(Stream(host, nested, allowWl, visited + {path}), Stream(host, arguments[1..], allowWl, visited), s);
    ModesCons(Response(path, false, true, inside), Normalize(host, arguments[1..], allowWl, s1, visited).0);
  }

  lemma {:induction false} OtherRefines(host: Host, arguments: seq<string>, allowWl: bool, s: State, visited: set<Path>)
    requires arguments != []
    requires !(allowWl && IsGroup(arguments[0])) && !IsStateArgument(arguments[0])
    requires !TakesValue(arguments[0]) || |arguments| == 1
    requires IsResponse(arguments[0]) ==> !CanOpen(host, visited, arguments[0])
    ensures var (norms, s1) := Normalize(host, arguments, allowWl, s, visited);
            Scan(Stream(host, arguments, allowWl, visited), s) == (Modes(norms), s1)
    decreases host.files.Keys - visited, allowWl, |arguments|, 0
  {
    hide IsStateArgument, TakesValue, IsGroup, IsResponse, IsLibrary, CanOpen, ChangeState, Normalize, Scan, Stream;
    OtherUnfolds(host, arguments, allowWl, s, visited);
    NormalizeRefinesScan(host, arguments[1..], allowWl, s, visited);
    StreamOne(host, arguments, allowWl, visited);
    ScanOne(Text(arguments[0], !allowWl), Stream(host, arguments[1..], allowWl, visited), s);
  }

  /** An argument that opens nothing and takes no value contributes at most its own mode. */
  lemma {:induction false} OtherUnfolds(host: Host, arguments: seq<string>, allowWl: bool, s: State, visited: set<Path>)
    requires arguments != []
    requires !(allowWl && IsGroup(arguments[0])) && !IsStateArgument(arguments[0])
    requires !TakesValue(arguments[0]) || |arguments| == 1
    requires IsResponse(arguments[0]) ==> !CanOpen(host, visited, arguments[0])
    ensures |arguments| == 1 ==> Stream(host, arguments[1..], allowWl, visited) == []
    ensures IsLibrary(arguments[0]) ==> |arguments[0]| >= 2
    ensures var (norms, s1) := Normalize(host, arguments, allowWl, s, visited);
            var (rest, s2) := Normalize(host, arguments[1..], allowWl, s, visited);
            && s1 == s2
            && Modes(norms) == (if IsLibrary(arguments[0]) then [(arguments[0][2..], s.isStatic)] else []) + Modes(rest)
  {
    hide IsStateArgument, TakesValue, IsGroup, CanOpen, ChangeState, Plain;
    var argument := arguments[0];
    PlainHasNoMode(host, argument);
    var rest := Normalize(host, arguments[1..], allowWl, s, visited).0;
    var norm := if IsLibrary(argument) then Library(argument[2..], s.isStatic)
                else if IsResponse(argument) then
                  var path := host.resolve(argument[1..]); Response(path, path in host.files && path in visited, false,
                      [])
                else Plain(host, argument);
    assert Normalize(host, arguments, allowWl, s, visited).0 == [norm] + rest;
    ModesCons(norm, rest);
  }

  lemma {:induction false} PlainHasNoMode(host: Host, argument: string)
    ensures ModesOf(Plain(host, argument)) == []
  {
  }

  // Without the ends

  /** The stream with everything spliced in place and no trace of where lists end. */
  function Spliced(tokens: seq<Token>): seq<Token> {
    if tokens == [] then []
    else if tokens[0].End? then Spliced(tokens[1..])
    else [tokens[0]] + Spliced(tokens[1..])
  }

  /** No option still awaits its value at the end of its list while more arguments follow. */
  predicate NoneDangling(tokens: seq<Token>)
    decreases |tokens|
  {
    if tokens == [] then true
    else if !TakesNext(tokens) then NoneDangling(tokens[1..])
    else if tokens[1].Text? then NoneDangling(tokens[2..])
    else Spliced(tokens[1..]) == []
  }

  lemma {:induction false} NothingToScan(tokens: seq<Token>, s: State)
    requires Spliced(tokens) == []
    ensures Scan(tokens, s) == ([], s)
    decreases |tokens|
  {
    if tokens != [] {
      NothingToScan(tokens[1..], s);
    }
  }

  lemma {:induction false} SplicedCons(tokens: seq<Token>)
    requires tokens != [] && tokens[0].Text?
    ensures Spliced(tokens)[0] == tokens[0] && Spliced(tokens)[1..] == Spliced(tokens[1..])
    ensures forall t | t in Spliced(tokens[1..]) :: t.Text?
  {
    OnlyTexts(tokens[1..]);
  }

  lemma {:induction false} OnlyTexts(tokens: seq<Token>)
    ensures forall t | t in Spliced(tokens) :: t.Text?
    decreases |tokens|
  {
    if tokens != [] {
      OnlyTexts(tokens[1..]);
    }
  }

  /** Unless an option dangles, the modes are also those of one scan of the arguments simply
      spliced in place. */
  lemma {:induction false} SplicedScansAlike(tokens: seq<Token>, s: State)
    requires NoneDangling(tokens)
    ensures Scan(Spliced(tokens), s) == Scan(tokens, s)
    decreases |tokens|
  {
    hide IsStateArgument, TakesValue, ChangeState, IsLibrary;
    if tokens != [] {
      if tokens[0].End? {
        SplicedScansAlike(tokens[1..], s);
      } else {
        var text := tokens[0].text;
        SplicedCons(tokens);
        if IsStateArgument(text) {
          SplicedScansAlike(tokens[1..], ChangeState(text, tokens[0].inGroup, s));
        } else if !TakesNext(tokens) {
          SplicedScansAlike(tokens[1..], s);
        } else if tokens[1].Text? {
          SplicedCons(tokens[1..]);
          assert Spliced(tokens)[2..] == Spliced(tokens[1..])[1..] && tokens[1..][1..] == tokens[2..];
          SplicedScansAlike(tokens[2..], s);
        } else {
          NothingToScan(tokens[1..], s);
        }
      }
    }
  }

  lemma {:induction false} ThreeArguments()
    ensures IsResponse("@r") && "@r"[1..] == "r"
    ensures IsLibrary("-lm") && "-lm"[2..] == "m" && !IsGroup("-lm") && !IsResponse("-lm")
    ensures TakesValue("-l") && !IsGroup("-l") && !IsStateArgument("-l") && !IsLibrary("-l") && !IsResponse("-l")
  {
    assert "-lm"[0] == '-' && "-lm"[1] == 'l' && "-l"[0] == '-' && "-l"[1] == 'l';
  }

  /** A response file that ends on a bare -l leaves the next library argument alone, while the
      scan of the spliced arguments consumes it as the missing name. */
  lemma {:induction false} DanglingValueDiffers(path: Path, s: State)
    ensures var host := Host(map[path := Some(["-l"])], _ => path);
            var arguments := ["@r", "-lm"];
            && !NoneDangling(Stream(host, arguments, true, {}))
            && Modes(Normalize(host, arguments, true, s, {}).0) == [("m", s.isStatic)]
            && Scan(Spliced(Stream(host, arguments, true, {})), s).0 == [("-lm", s.isStatic)]
  {
    var host := Host(map[path := Some(["-l"])], _ => path);
    var arguments := ["@r", "-lm"];
    ThreeArguments();
    ResponseIsNothingElse("@r");
    LibraryIsNothingElse("-lm");
    NormalizeRefinesScan(host, arguments, true, s, {});
    hide IsGroup, IsResponse, IsLibrary, IsStateArgument, TakesValue, Plain;
    assert arguments[1..] == ["-lm"] && ["-lm"][1..] == [] && ["-l"][1..] == [];
    assert Stream(host, ["-l"], true, {} + {path}) == [Text("-l", false)] by {
      assert Stream(host, ["-l"][1..], true, {} + {path}) == [];
    }
    assert Stream(host, ["-lm"], true, {}) == [Text("-lm", false)] by {
      assert Stream(host, ["-lm"][1..], true, {}) == [];
    }
    var tokens := [Text("-l", false), End, Text("-lm", false)];
    assert Stream(host, arguments, true, {}) == tokens;
    DanglingTokens(tokens, s);
  }

  lemma {:induction false} DanglingTokens(tokens: seq<Token>, s: State)
    requires tokens == [Text("-l", false), End, Text("-lm", false)]
    ensures !NoneDangling(tokens)
    ensures Scan(tokens, s).0 == [("m", s.isStatic)] && Scan(Spliced(tokens), s).0 == [("-lm", s.isStatic)]
  {
    ThreeArguments();
    LibraryIsNothingElse("-lm");
    hide IsGroup, IsResponse, IsLibrary, IsStateArgument, TakesValue;
    var two, one := tokens[1..], tokens[2..];
    assert two[1..] == one && one[1..] == [] && one[0] == Text("-lm", false);
    assert Spliced(one) == one by { assert Spliced(one[1..]) == []; }
    assert Spliced(two) == one;
    assert Spliced(tokens) == [Text("-l", false), Text("-lm", false)];
    assert Spliced(tokens)[2..] == [];
    assert Scan(Spliced(tokens)[2..], s) == ([], s);
    assert Scan(one[1..], s) == ([], s);
    assert Scan(one, s).0 == [("m", s.isStatic)];
    assert Scan(two, s) == Scan(one, s);
  }
}
