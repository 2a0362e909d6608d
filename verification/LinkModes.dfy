/** What the normalised linker arguments say: the mode of every library by its place among the
    options that switch, save and restore modes, and every argument in its place. */
module LinkModes {
  import opened Texts
  import opened Collections
  import opened Options
  import opened LinkArguments

  // The arguments in one stream

  ghost predicate AwaitsValue(text: string) {
    || text == "-l" || text == "-L" || text == "--sysroot"
    || text in {"--dynamic-list", "--just-symbols", "--output", "--retain-symbols-file", "--script",
                "--version-script", "-Map", "-T", "-o", "-rpath", "-rpath-link"}
  }

  ghost predicate IsOpenable(host: Host, visited: set<Path>, text: string) {
    && |text| > 1 && text[0] == '@'
    && var path := host.resolve(text[1..]); path in host.files && host.files[path].Some? && path !in visited
  }

  /** Groups and readable response files opened in place, each with an end; values are not
      opened, nor is a file inside itself. */
  ghost function Flattened(host: Host, arguments: seq<string>, inGroup: bool, visited: set<Path>): seq<Token>
    decreases host.files.Keys - visited, !inGroup, |arguments|
  {
    if arguments == [] then []
    else
      var text := arguments[0];
      if StartsWith(text, "-Wl,") && !inGroup then
        Flattened(host, SplitCommas(text[4..], ""), true, visited) + [End]
          + Flattened(host, arguments[1..], inGroup, visited)
      else if AwaitsValue(text) && |arguments| > 1 then
        [Text(text, inGroup), Text(arguments[1], inGroup)] + Flattened(host, arguments[2..], inGroup, visited)
      else if IsOpenable(host, visited, text) then
        var path := host.resolve(text[1..]);
        Smaller(host.files.Keys, visited, path);
        Flattened(host, host.files[path].value, inGroup, visited + {path}) + [End]
          + Flattened(host, arguments[1..], inGroup, visited)
      else
        [Text(text, inGroup)] + Flattened(host, arguments[1..], inGroup, visited)
  }

  lemma {:induction false} ValueOptions(text: string)
    ensures AwaitsValue(text) <==> TakesValue(text)
    ensures AwaitsValue(text) ==> !IsStateArgument(text)
  {
  }

  lemma {:induction false} FlattenedIsStream(host: Host, arguments: seq<string>, allowWl: bool, visited: set<Path>)
    ensures Flattened(host, arguments, !allowWl, visited) == Stream(host, arguments, allowWl, visited)
    decreases host.files.Keys - visited, allowWl, |arguments|
  {
    hide AwaitsValue, TakesValue, IsStateArgument;
    if arguments != [] {
      var text := arguments[0];
      ValueOptions(text);
      if StartsWith(text, "-Wl,") && allowWl {
        FlattenedIsStream(host, SplitCommas(text[4..], ""), false, visited);
        FlattenedIsStream(host, arguments[1..], allowWl, visited);
      } else if AwaitsValue(text) && |arguments| > 1 {
        FlattenedIsStream(host, arguments[2..], allowWl, visited);
      } else if IsOpenable(host, visited, text) {
        var path := host.resolve(text[1..]);
        Smaller(host.files.Keys, visited, path);
        FlattenedIsStream(host, host.files[path].value, allowWl, visited + {path});
        FlattenedIsStream(host, arguments[1..], allowWl, visited);
      } else {
        FlattenedIsStream(host, arguments[1..], allowWl, visited);
      }
    }
  }

  // Groups

  ghost function JoinCommas(parts: seq<string>): string {
    if parts == [] then "" else if |parts| == 1 then parts[0] else parts[0] + "," + JoinCommas(parts[1..])
  }

  /** A group is split at all of its commas and nowhere else. */
  lemma {:induction false} GroupsSplitAtCommas(text: string, part: string)
    requires ',' !in part
    ensures var parts := SplitCommas(text, part);
            JoinCommas(parts) == part + text && forall i | 0 <= i < |parts| :: ',' !in parts[i]
    decreases |text|
  {
    if text == "" {
      assert part + text == part;
    } else if text[0] == ',' {
      GroupsSplitAtCommas(text[1..], "");
      var rest := SplitCommas(text[1..], "");
      assert ([part] + rest)[1..] == rest;
      assert part + "," + text[1..] == part + text;
      assert "" + text[1..] == text[1..];
    } else {
      GroupsSplitAtCommas(text[1..], part + [text[0]]);
      assert part + [text[0]] + text[1..] == part + text;
    }
  }

  // Modes by position

  datatype Effect = Switch(isStatic: bool) | Push | Pop | Lib(name: string)

  /** What an option does by itself; `-static` and `--static` only count inside a group. */
  ghost function ModeEffect(text: string, inGroup: bool): Option<Effect> {
    if text in {"-Bstatic", "-dn", "-non_shared"} || (inGroup && text in {"-static", "--static"})
      then Some(Switch(true))
    else if text in {"-Bdynamic", "-dy", "-call_shared"} then Some(Switch(false))
    else if text == "--push-state" then Some(Push)
    else if text == "--pop-state" then Some(Pop)
    else None
  }

  /** The switches, saves, restores and libraries of a stream, in order. */
  ghost function Effects(tokens: seq<Token>): seq<Effect>
    decreases |tokens|
  {
    if tokens == [] then []
    else if tokens[0].End? then Effects(tokens[1..])
    else
      var text := tokens[0].text;
      if AwaitsValue(text) && |tokens| > 1 && tokens[1].Text? then
        (if text == "-l" then [Lib(tokens[1].text)] else []) + Effects(tokens[2..])
      else
        (match ModeEffect(text, tokens[0].inGroup)
         case Some(effect) => [effect]
         case None => if StartsWith(text, "-l") && |text| > 2 then [Lib(text[2..])] else [])
        + Effects(tokens[1..])
  }

  /** The last save before `i` that has not been restored before `i`. */
  ghost function OpenPush(es: seq<Effect>, i: nat): (p: Option<nat>)
    requires i <= |es|
    ensures p.Some? ==> p.value < i && es[p.value].Push?
  {
    if i == 0 then None
    else match es[i-1]
      case Push => Some(i - 1)
      case Pop => (match OpenPush(es, i - 1) case None => None case Some(p) => OpenPush(es, p))
      case _ => OpenPush(es, i - 1)
  }

  /** The mode in front of effect `i`: that of the last switch, where a restored stretch counts
      for nothing; without any switch, the initial one. */
  ghost function ModeBefore(es: seq<Effect>, i: nat, initial: bool): bool
    requires i <= |es|
  {
    if i == 0 then initial
    else match es[i-1]
      case Switch(isStatic) => isStatic
      case Pop =>
        (match OpenPush(es, i - 1)
         case None => ModeBefore(es, i - 1, initial)
         case Some(p) => ModeBefore(es, p, initial))
      case _ => ModeBefore(es, i - 1, initial)
  }

  ghost function LibraryModes(es: seq<Effect>, i: nat, initial: bool): seq<(string, bool)>
    requires i <= |es|
    decreases |es| - i
  {
    if i == |es| then []
    else
      (match es[i] case Lib(name) => [(name, ModeBefore(es, i, initial))] case _ => [])
      + LibraryModes(es, i + 1, initial)
  }

  /** The modes saved and not restored before `i`. */
  ghost function Saved(es: seq<Effect>, i: nat, initial: bool): seq<bool>
    requires i <= |es|
  {
    match OpenPush(es, i)
    case None => []
    case Some(p) => Saved(es, p, initial) + [ModeBefore(es, p, initial)]
  }

  lemma {:induction false} StateApplies(text: string, inGroup: bool, s: State)
    ensures IsStateArgument(text) && ModeEffect(text, inGroup).None? ==> ChangeState(text, inGroup, s) == s
    ensures !IsStateArgument(text) ==> ModeEffect(text, inGroup).None?
    ensures match ModeEffect(text, inGroup)
            case Some(Switch(isStatic)) => ChangeState(text, inGroup, s) == s.(isStatic := isStatic)
            case Some(Push) => ChangeState(text, inGroup, s) == s.(stack := s.stack + [s.isStatic])
            case Some(Pop) => ChangeState(text, inGroup, s) ==
                (if s.stack == [] then s else State(s.stack[|s.stack|-1], s.stack[..|s.stack|-1]))
            case _ => true
    ensures !ModeEffect(text, inGroup).Some? || !ModeEffect(text, inGroup).value.Lib?
  {
    assert "--pop-state" != "--push-state" by { assert "--pop-state"[3] != "--push-state"[3]; }
  }

  ghost function StateBefore(es: seq<Effect>, i: nat, initial: bool): State
    requires i <= |es|
  {
    State(ModeBefore(es, i, initial), Saved(es, i, initial))
  }

  lemma {:induction false} NextState(es: seq<Effect>, i: nat, initial: bool)
    requires i < |es|
    ensures var s := StateBefore(es, i, initial);
            StateBefore(es, i + 1, initial) ==
            match es[i]
            case Switch(isStatic) => s.(isStatic := isStatic)
            case Push => s.(stack := s.stack + [s.isStatic])
            case Pop => if s.stack == [] then s else State(s.stack[|s.stack|-1], s.stack[..|s.stack|-1])
            case Lib(_) => s
  {
    if es[i].Pop? && OpenPush(es, i).Some? {
      var p := OpenPush(es, i).value;
      assert OpenPush(es, i + 1) == OpenPush(es, p);
      assert Saved(es, i + 1, initial) == Saved(es, p, initial);
      assert Saved(es, i, initial) == Saved(es, p, initial) + [ModeBefore(es, p, initial)];
    }
  }

  /** Scanning from the middle of a stream whose effects so far are `es[..i]`. */
  lemma {:induction false} ScanByPosition(tokens: seq<Token>, es: seq<Effect>, i: nat, initial: bool)
    requires i <= |es| && es[i..] == Effects(tokens)
    ensures Scan(tokens, StateBefore(es, i, initial)).0 == LibraryModes(es, i, initial)
    decreases |tokens|
  {
    hide IsStateArgument, TakesValue, AwaitsValue, ChangeState, ModeEffect, StateBefore, ModeBefore;
    if tokens == [] {
    } else if tokens[0].End? {
      ScanByPosition(tokens[1..], es, i, initial);
    } else {
      var text, s := tokens[0].text, StateBefore(es, i, initial);
      assert s.isStatic == ModeBefore(es, i, initial) by { StateMode(es, i, initial); }
      ValueOptions(text);
      StateApplies(text, tokens[0].inGroup, s);
      if AwaitsValue(text) && |tokens| > 1 && tokens[1].Text? {
        ScanValue(tokens, es, i, initial);
      } else if ModeEffect(text, tokens[0].inGroup).Some? {
        assert es[i] == es[i..][0] == ModeEffect(text, tokens[0].inGroup).value && es[i..][1..] == es[i+1..];
        NextState(es, i, initial);
        ScanByPosition(tokens[1..], es, i + 1, initial);
      } else if IsStateArgument(text) {
        StateNamesNoLibrary(text);
        ScanByPosition(tokens[1..], es, i, initial);
      } else if IsLibrary(text) {
        LibrarySlice(text);
        assert es[i] == es[i..][0] == Lib(text[2..]) && es[i..][1..] == es[i+1..];
        NextState(es, i, initial);
        ScanByPosition(tokens[1..], es, i + 1, initial);
      } else {
        ScanByPosition(tokens[1..], es, i, initial);
      }
    }
  }

  lemma {:induction false} StateNamesNoLibrary(text: string)
    requires IsStateArgument(text)
    ensures !(StartsWith(text, "-l") && |text| > 2)
  {
    if IsLibrary(text) {
      LibraryIsNothingElse(text);
    }
  }

  lemma {:induction false} StateMode(es: seq<Effect>, i: nat, initial: bool)
    requires i <= |es|
    ensures StateBefore(es, i, initial).isStatic == ModeBefore(es, i, initial)
  {
  }

  lemma {:induction false} ScanValue(tokens: seq<Token>, es: seq<Effect>, i: nat, initial: bool)
    requires i <= |es| && es[i..] == Effects(tokens)
    requires |tokens| > 1 && tokens[0].Text? && tokens[1].Text? && AwaitsValue(tokens[0].text)
    ensures Scan(tokens, StateBefore(es, i, initial)).0 == LibraryModes(es, i, initial)
    decreases |tokens|, 0
  {
    hide IsStateArgument, TakesValue, AwaitsValue, ChangeState, ModeEffect, StateBefore, ModeBefore;
    ValueOptions(tokens[0].text);
    StateMode(es, i, initial);
    if tokens[0].text == "-l" {
      assert es[i] == es[i..][0] == Lib(tokens[1].text) && es[i..][1..] == es[i+1..];
      NextState(es, i, initial);
      ScanByPosition(tokens[2..], es, i + 1, initial);
    } else {
      ScanByPosition(tokens[2..], es, i, initial);
    }
  }

  /** For all arguments, groups and response files: the recorded mode of each library is the one
      in front of its place, looked up backwards, without any stack. */
  lemma {:induction false} ModesByPosition(host: Host, arguments: seq<string>, initial: bool)
    ensures Modes(Normalize(host, arguments, true, State(initial, []), {}).0) ==
            LibraryModes(Effects(Flattened(host, arguments, false, {})), 0, initial)
  {
    FlattenedIsStream(host, arguments, true, {});
    NormalizeRefinesScan(host, arguments, true, State(initial, []), {});
    var tokens := Stream(host, arguments, true, {});
    var es := Effects(tokens);
    assert es[0..] == es;
    assert StateBefore(es, 0, initial) == State(initial, []);
    ScanByPosition(tokens, es, 0, initial);
  }

  // What that means for a stretch of arguments

  ghost predicate NoSaving(es: seq<Effect>, start: nat, end: nat)
    requires start <= end <= |es|
  {
    forall j | start <= j < end :: !es[j].Push? && !es[j].Pop?
  }

  /** Without saving and restoring, the last switch decides, or the mode in front if there is none. */
  lemma {:induction false} LastSwitchDecides(es: seq<Effect>, start: nat, end: nat, initial: bool)
    requires start <= end <= |es| && NoSaving(es, start, end)
    ensures (forall j | start <= j < end :: !es[j].Switch?) ==>
              ModeBefore(es, end, initial) == ModeBefore(es, start, initial)
    ensures forall k | start <= k < end && es[k].Switch? && (forall j | k < j < end :: !es[j].Switch?) ::
              ModeBefore(es, end, initial) == es[k].isStatic
    decreases end
  {
    if start < end {
      LastSwitchDecides(es, start, end - 1, initial);
    }
  }

  /** Saves minus restores. */
  ghost function Surplus(es: seq<Effect>, start: nat, end: nat): int
    requires start <= end <= |es|
    decreases end
  {
    if start == end then 0
    else Surplus(es, start, end - 1) + (if es[end-1].Push? then 1 else if es[end-1].Pop? then -1 else 0)
  }

  /** No restore of the stretch reaches in front of it. */
  ghost predicate StaysInside(es: seq<Effect>, start: nat, end: nat)
    requires start <= end <= |es|
  {
    forall j | start <= j <= end :: Surplus(es, start, j) >= 0
  }

  lemma {:induction false} SavedGrows(es: seq<Effect>, start: nat, end: nat, initial: bool)
    requires start <= end <= |es| && StaysInside(es, start, end)
    ensures var before, after := Saved(es, start, initial), Saved(es, end, initial);
            |after| == |before| + Surplus(es, start, end) && before <= after
    decreases end
  {
    hide Saved, ModeBefore, OpenPush;
    if start < end {
      SavedGrows(es, start, end - 1, initial);
      assert Surplus(es, start, end) >= 0;
      SavedNext(es, end - 1, initial);
    }
  }

  lemma {:induction false} SavedNext(es: seq<Effect>, i: nat, initial: bool)
    requires i < |es|
    ensures var s := Saved(es, i, initial);
            Saved(es, i + 1, initial) ==
            match es[i]
            case Push => s + [ModeBefore(es, i, initial)]
            case Pop => if s == [] then s else s[..|s|-1]
            case _ => s
  {
    NextState(es, i, initial);
  }

  /** A save, a balanced stretch and its restore leave the mode that was there before, whatever
      is switched in between. */
  lemma {:induction false} RestoredStretch(es: seq<Effect>, start: nat, end: nat, initial: bool)
    requires start < end < |es| && es[start].Push? && es[end].Pop?
    requires Surplus(es, start + 1, end) == 0 && StaysInside(es, start + 1, end)
    ensures ModeBefore(es, end + 1, initial) == ModeBefore(es, start, initial)
  {
    hide OpenPush, ModeBefore, Saved;
    SavedNext(es, start, initial);
    SavedGrows(es, start + 1, end, initial);
    NextState(es, end, initial);
    assert StateBefore(es, end, initial).stack == Saved(es, end, initial);
    StateMode(es, end + 1, initial);
  }

  /** A restore without anything saved changes nothing. */
  lemma {:induction false} UnmatchedRestore(es: seq<Effect>, i: nat, initial: bool)
    requires i < |es| && es[i].Pop? && forall j | 0 <= j < i :: !es[j].Push?
    ensures ModeBefore(es, i + 1, initial) == ModeBefore(es, i, initial)
  {
    NothingOpen(es, i);
  }

  lemma {:induction false} NothingOpen(es: seq<Effect>, i: nat)
    requires i <= |es| && forall j | 0 <= j < i :: !es[j].Push?
    ensures OpenPush(es, i).None?
    decreases i
  {
    if i > 0 {
      NothingOpen(es, i - 1);
    }
  }
}
