/** What a parsed filelist holds: the lines of all opened files in one stream, nested lists in
    the place of their first reference, and what each line of the stream names. */
module FilelistMeaning {
  import opened Texts
  import opened Collections
  import opened Options
  import opened Filelists
  import opened FilelistCache

  // What a line names

  ghost predicate Ignored(line: Line) {
    line.stripped == "" || StartsWith(line.stripped, "#") || StartsWith(line.stripped, "//")
    || StartsWith(line.stripped, "`")
  }

  ghost predicate NestsAnother(line: Line) {
    line.parts.Some? && line.parts.value != [] && line.parts.value[0] in {"-f", "-F"}
  }

  /** A line whose quoting is broken. */
  ghost predicate Broken(line: Line) {
    !Ignored(line) && line.parts.None?
  }

  /** A line that is read for what it names itself. */
  ghost predicate Speaks(line: Line) {
    !Ignored(line) && line.parts.Some? && !NestsAnother(line)
  }

  ghost function NestedRef(line: Line): Option<string> {
    if !Ignored(line) && NestsAnother(line) && |line.parts.value| > 1 && Strip(line.parts.value[1]) != ""
      then Some(StripQuotes(Strip(line.parts.value[1])))
    else None
  }

  ghost function NamedDefines(line: Line): seq<string> {
    if Speaks(line) && StartsWith(line.stripped, "+define+")
      then NonEmpty(Each(Pieces(Strip(line.stripped[8..]), ""), Strip))
    else []
  }

  ghost function NamedDirs(line: Line): seq<string> {
    if Speaks(line) && StartsWith(line.stripped, "+incdir+")
      then NonEmpty(Each(Pieces(Strip(line.stripped[8..]), ""), StripQuotes))
    else []
  }

  ghost function NamedSource(line: Line): Option<string> {
    if Speaks(line) && line.parts.value != [] && line.stripped[0] !in {'+', '-'}
       && (EndsWith(StripQuotes(line.parts.value[0]), ".v") || EndsWith(StripQuotes(line.parts.value[0]), ".sv"))
      then Some(StripQuotes(line.parts.value[0]))
    else None
  }

  // The stream

  /** A line of an opened file, below the directory of that file, or a reference that could not
      be opened. */
  datatype Piece = At(base: Path, line: Line) | Missing | Unreadable

  ghost function Opened(fs: FileSystem, host: Host, path: Path, visited: set<Path>): (r: (seq<Piece>, set<Path>))
    ensures visited <= r.1
    decreases fs.Keys - visited, 0
  {
    if path !in fs then ([Missing], visited)
    else if path in visited then ([], visited)
    else if !ReadableFile(fs, host, path) then ([Unreadable], visited)
    else
      Smaller(fs.Keys, visited, path);
      OpenedLines(fs, host, host.parent(path), host.lines(fs[path].content).value, visited + {path})
  }

  ghost function OpenedLines(fs: FileSystem, host: Host, base: Path, lines: seq<Line>,
                             visited: set<Path>): (r: (seq<Piece>, set<Path>))
    ensures visited <= r.1
    decreases fs.Keys - visited, 1, |lines|
  {
    if lines == [] then ([], visited)
    else
      var (first, visited') := match NestedRef(lines[0])
        case Some(ref) => Opened(fs, host, host.join(base, ref), visited)
        case None => ([At(base, lines[0])], visited);
      NoLarger(fs.Keys, visited, visited');
      var (later, visited'') := OpenedLines(fs, host, base, lines[1..], visited');
      (first + later, visited'')
  }

  // What the stream holds

  ghost function PieceError(fs: FileSystem, host: Host, piece: Piece): Option<ParseError> {
    match piece
    case Missing => Some(FilelistNotFound)
    case Unreadable => Some(NotReadable)
    case At(base, line) =>
      if Broken(line) then Some(InvalidEntry)
      else if NamedSource(line).Some? && host.join(base, NamedSource(line).value) !in fs then Some(SourceNotFound)
      else None
  }

  ghost function FirstError(fs: FileSystem, host: Host, pieces: seq<Piece>): Option<ParseError> {
    if pieces == [] then None
    else if PieceError(fs, host, pieces[0]).Some? then PieceError(fs, host, pieces[0])
    else FirstError(fs, host, pieces[1..])
  }

  ghost function Resolved(host: Host, base: Path, refs: seq<string>): seq<Path> {
    if refs == [] then [] else [host.join(base, refs[0])] + Resolved(host, base, refs[1..])
  }

  ghost function AllDefines(pieces: seq<Piece>): seq<string> {
    if pieces == [] then []
    else (if pieces[0].At? then NamedDefines(pieces[0].line) else []) + AllDefines(pieces[1..])
  }

  ghost function AllDirs(host: Host, pieces: seq<Piece>): seq<Path> {
    if pieces == [] then []
    else (if pieces[0].At? then Resolved(host, pieces[0].base, NamedDirs(pieces[0].line)) else [])
         + AllDirs(host, pieces[1..])
  }

  ghost function AllSources(host: Host, pieces: seq<Piece>): seq<Path> {
    if pieces == [] then []
    else (if pieces[0].At? && NamedSource(pieces[0].line).Some?
            then [host.join(pieces[0].base, NamedSource(pieces[0].line).value)] else [])
         + AllSources(host, pieces[1..])
  }

  ghost function Holds(fs: FileSystem, host: Host, pieces: seq<Piece>, visited: set<Path>): Parsed {
    match FirstError(fs, host, pieces)
    case Some(error) => Failed(error)
    case None => Parsed(Inputs(AllSources(host, pieces), AllDirs(host, pieces), AllDefines(pieces)), visited)
  }

  lemma {:induction false} ErrorsJoin(fs: FileSystem, host: Host, a: seq<Piece>, b: seq<Piece>)
    ensures FirstError(fs, host, a + b) ==
            if FirstError(fs, host, a).Some? then FirstError(fs, host, a) else FirstError(fs, host, b)
    decreases |a|
  {
    hide PieceError;
    if a == [] {
      assert a + b == b;
    } else {
      assert (a + b)[0] == a[0] && (a + b)[1..] == a[1..] + b;
      ErrorsJoin(fs, host, a[1..], b);
    }
  }

  lemma {:induction false} DefinesJoin(a: seq<Piece>, b: seq<Piece>)
    ensures AllDefines(a + b) == AllDefines(a) + AllDefines(b)
    decreases |a|
  {
    hide NamedDefines;
    if a == [] {
      assert a + b == b;
      assert AllDefines(a) == [];
    } else {
      assert (a + b)[0] == a[0] && (a + b)[1..] == a[1..] + b;
      DefinesJoin(a[1..], b);
    }
  }

  lemma {:induction false} DirsJoin(host: Host, a: seq<Piece>, b: seq<Piece>)
    ensures AllDirs(host, a + b) == AllDirs(host, a) + AllDirs(host, b)
    decreases |a|
  {
    hide NamedDirs, Resolved;
    if a == [] {
      assert a + b == b;
      assert AllDirs(host, a) == [];
    } else {
      assert (a + b)[0] == a[0] && (a + b)[1..] == a[1..] + b;
      DirsJoin(host, a[1..], b);
    }
  }

  lemma {:induction false} SourcesJoin(host: Host, a: seq<Piece>, b: seq<Piece>)
    ensures AllSources(host, a + b) == AllSources(host, a) + AllSources(host, b)
    decreases |a|
  {
    hide NamedSource;
    if a == [] {
      assert a + b == b;
      assert AllSources(host, a) == [];
    } else {
      assert (a + b)[0] == a[0] && (a + b)[1..] == a[1..] + b;
      SourcesJoin(host, a[1..], b);
    }
  }

  lemma {:induction false} PathsAreResolved(host: Host, base: Path, refs: seq<string>)
    ensures Paths(host, base, refs) == Resolved(host, base, refs)
    decreases |refs|
  {
    if refs != [] {
      PathsAreResolved(host, base, refs[1..]);
      assert Paths(host, base, refs) == [host.join(base, refs[0])] + Paths(host, base, refs[1..]);
    }
  }

  /** How the parser's reading of a line relates to what the line names. */
  lemma {:induction false} EntryNames(line: Line)
    ensures NestedRef(line) == (match ReadEntry(line) case Nested(ref) => Some(ref) case _ => None)
    ensures Broken(line) <==> ReadEntry(line).Malformed?
    ensures NestedRef(line).None? ==>
              && NamedDefines(line) == (match ReadEntry(line) case Defines(defines) => defines case _ => [])
              && NamedDirs(line) == (match ReadEntry(line) case IncDirs(dirs) => dirs case _ => [])
              && NamedSource(line) == (match ReadEntry(line) case Source(token) => Some(token) case _ => None)
  {
    hide NonEmpty, Each, Pieces, Strip, StripQuotes;
    OptionStarts(line.stripped);
    assert StripQuotes("") == "" by {
      NothingInside();
    }
  }

  lemma {:induction false} NothingInside()
    ensures StripQuotes("") == ""
  {
  }

  lemma {:induction false} OptionStarts(text: string)
    ensures StartsWith(text, "+incdir+") ==> !StartsWith(text, "+define+") && |text| >= 8 && text[0] == '+'
    ensures StartsWith(text, "+define+") ==> |text| >= 8 && text[0] == '+'
    ensures text != "" ==> (StartsWith(text, "+") || StartsWith(text, "-") <==> text[0] in {'+', '-'})
  {
    if StartsWith(text, "+incdir+") {
      assert text[1] == 'i';
    }
  }

  lemma {:induction false} OnePiece(fs: FileSystem, host: Host, piece: Piece)
    requires piece.At?
    ensures FirstError(fs, host, [piece]) == PieceError(fs, host, piece)
    ensures AllDefines([piece]) == NamedDefines(piece.line)
    ensures AllDirs(host, [piece]) == Resolved(host, piece.base, NamedDirs(piece.line))
    ensures AllSources(host, [piece]) ==
            match NamedSource(piece.line) case None => [] case Some(token) => [host.join(piece.base, token)]
  {
    hide PieceError, NamedDefines, NamedDirs, NamedSource, Resolved;
    assert [piece][1..] == [];
    assert AllDefines([piece]) == NamedDefines(piece.line) + [];
    assert AllDirs(host, [piece]) == Resolved(host, piece.base, NamedDirs(piece.line)) + [];
  }

  lemma {:induction false} OneLine(fs: FileSystem, host: Host, base: Path, line: Line, visited: set<Path>)
    requires NestedRef(line).None?
    ensures ReadOne(fs, host, base, ReadEntry(line), visited) == Holds(fs, host, [At(base, line)], visited)
  {
    hide ReadEntry, NestedRef, Broken, NamedDefines, NamedDirs, NamedSource;
    EntryNames(line);
    PathsAreResolved(host, base, NamedDirs(line));
    var piece := At(base, line);
    OnePiece(fs, host, piece);
  }

  /** For every file system: a parse fails with the first error of the stream, and otherwise
      holds, in the order of the stream, exactly the sources, the include directories and the
      defines that its lines name. */
  lemma {:induction false} ParseHoldsStream(fs: FileSystem, host: Host, path: Path, visited: set<Path>)
    ensures var (pieces, reached) := Opened(fs, host, path, visited);
            Parse(fs, host, path, visited) == Holds(fs, host, pieces, reached)
    decreases fs.Keys - visited, 0
  {
    hide Holds, PieceError;
    if path !in fs {
      OnlyError(fs, host, Missing, visited);
    } else if path in visited {
      NothingHeld(fs, host, visited);
    } else if !ReadableFile(fs, host, path) {
      OnlyError(fs, host, Unreadable, visited);
    } else {
      Smaller(fs.Keys, visited, path);
      ParseLinesHold(fs, host, host.parent(path), host.lines(fs[path].content).value, visited + {path});
    }
  }

  lemma {:induction false} OnlyError(fs: FileSystem, host: Host, piece: Piece, visited: set<Path>)
    requires !piece.At?
    ensures Holds(fs, host, [piece], visited) == Failed(if piece.Missing? then FilelistNotFound else NotReadable)
  {
  }

  lemma {:induction false} NothingHeld(fs: FileSystem, host: Host, visited: set<Path>)
    ensures Holds(fs, host, [], visited) == Parsed(NO_INPUTS, visited)
  {
  }

  lemma {:induction false} ParseLinesHold(fs: FileSystem, host: Host, base: Path, lines: seq<Line>, visited: set<Path>)
    ensures var (pieces, reached) := OpenedLines(fs, host, base, lines, visited);
            ParseLines(fs, host, base, lines, visited) == Holds(fs, host, pieces, reached)
    decreases fs.Keys - visited, 1, |lines|
  {
    hide Holds, ReadEntry, NestedRef, Parse;
    if lines == [] {
      NothingHeld(fs, host, visited);
    } else {
      var line := lines[0];
      EntryNames(line);
      var (first, visited') := match NestedRef(line)
        case Some(ref) => Opened(fs, host, host.join(base, ref), visited)
        case None => ([At(base, line)], visited);
      match NestedRef(line) {
        case Some(ref) => ParseHoldsStream(fs, host, host.join(base, ref), visited);
        case None => OneLine(fs, host, base, line, visited);
      }
      NoLarger(fs.Keys, visited, visited');
      ParseLinesHold(fs, host, base, lines[1..], visited');
      var (later, visited'') := OpenedLines(fs, host, base, lines[1..], visited');
      HoldsJoin(fs, host, first, later, visited', visited'');
    }
  }

  lemma {:induction false} HoldsJoin(fs: FileSystem, host: Host, a: seq<Piece>, b: seq<Piece>, visited: set<Path>,
                                     visited': set<Path>)
    ensures Holds(fs, host, a + b, visited') ==
            match Holds(fs, host, a, visited)
            case Failed(error) => Failed(error)
            case Parsed(first, _) =>
              match Holds(fs, host, b, visited')
              case Failed(error) => Failed(error)
              case Parsed(later, _) => Parsed(Plus(first, later), visited')
    ensures Holds(fs, host, a, visited).Parsed? ==> Holds(fs, host, a, visited).visited == visited
    ensures Holds(fs, host, b, visited').Parsed? ==> Holds(fs, host, b, visited').visited == visited'
  {
    hide FirstError, AllDefines, AllDirs, AllSources;
    ErrorsJoin(fs, host, a, b);
    DefinesJoin(a, b);
    DirsJoin(host, a, b);
    SourcesJoin(host, a, b);
  }

  // Lists with plus signs

  ghost function JoinPlus(items: seq<string>): string {
    if items == [] then "" else if |items| == 1 then items[0] else items[0] + "+" + JoinPlus(items[1..])
  }

  lemma {:induction false} PiecesKeep(item: string, rest: string, piece: string)
    requires '+' !in item
    ensures Pieces(item + rest, piece) == Pieces(rest, piece + item)
    decreases |item|
  {
    if item == "" {
      assert item + rest == rest && piece + item == piece;
    } else {
      assert (item + rest)[0] == item[0] && (item + rest)[1..] == item[1..] + rest;
      PiecesKeep(item[1..], rest, piece + [item[0]]);
      assert piece + [item[0]] + item[1..] == piece + item;
    }
  }

  /** Nonempty items without a plus sign come back from their plus-separated list. */
  lemma {:induction false} PiecesOfJoined(items: seq<string>)
    requires forall i | 0 <= i < |items| :: items[i] != "" && '+' !in items[i]
    ensures Pieces(JoinPlus(items), "") == items
    decreases |items|
  {
    if items != [] {
      var first := items[0];
      assert "" + first == first;
      if |items| == 1 {
        PiecesKeep(first, "", "");
        assert first + "" == first;
      } else {
        var rest := "+" + JoinPlus(items[1..]);
        assert JoinPlus(items) == first + rest;
        PiecesKeep(first, rest, "");
        assert rest[0] == '+' && rest[1..] == JoinPlus(items[1..]);
        PiecesOfJoined(items[1..]);
        assert items == [first] + items[1..];
      }
    }
  }

  /** Items that the reading of a list leaves alone. */
  ghost predicate Listable(items: seq<string>) {
    forall i | 0 <= i < |items| ::
      items[i] != "" && '+' !in items[i] && Strip(items[i]) == items[i] && StripQuotes(items[i]) == items[i]
  }

  lemma {:induction false} NonEmptyAll(items: seq<string>)
    requires forall i | 0 <= i < |items| :: items[i] != ""
    ensures NonEmpty(items) == items
    decreases |items|
  {
    if items != [] {
      NonEmptyAll(items[1..]);
      assert items == [items[0]] + items[1..];
    }
  }

  lemma {:induction false} UnblankedEnds(text: string)
    requires text != "" && Strip(text) == text
    ensures !IsSpace(text[0]) && !IsSpace(text[|text|-1])
  {
    assert |TrimRight(TrimLeft(text, IsSpace), IsSpace)| <= |TrimLeft(text, IsSpace)| <= |text|;
    assert TrimLeft(text, IsSpace) == text;
  }

  lemma {:induction false} UnblankedText(text: string)
    requires text != "" ==> !IsSpace(text[0]) && !IsSpace(text[|text|-1])
    ensures Strip(text) == text
  {
  }

  lemma {:induction false} JoinedEnds(items: seq<string>)
    requires |items| > 0 && forall i | 0 <= i < |items| :: items[i] != ""
    ensures var text := JoinPlus(items);
            && text != "" && text[0] == items[0][0]
            && text[|text|-1] == items[|items|-1][|items[|items|-1]|-1]
    decreases |items|
  {
    if |items| > 1 {
      JoinedEnds(items[1..]);
      assert items[1..][|items[1..]|-1] == items[|items|-1];
    }
  }

  /** A line that is printed from defines or include directories names exactly those. */
  lemma {:induction false} PrintedListIsNamed(line: Line, items: seq<string>)
    requires Listable(items) && Speaks(line)
    ensures line.stripped == "+define+" + JoinPlus(items) ==> NamedDefines(line) == items && NamedDirs(line) == []
    ensures line.stripped == "+incdir+" + JoinPlus(items) ==> NamedDirs(line) == items && NamedDefines(line) == []
  {
    hide Strip, StripQuotes, Pieces, JoinPlus, Speaks;
    var text := JoinPlus(items);
    OptionStarts(line.stripped);
    assert Strip(text) == text by {
      JoinedIsStripped(items);
    }
    PiecesOfJoined(items);
    NonEmptyAll(items);
    assert Each(items, Strip) == items && Each(items, StripQuotes) == items;
    assert ("+define+" + text)[8..] == text && ("+incdir+" + text)[8..] == text;
  }

  lemma {:induction false} JoinedIsStripped(items: seq<string>)
    requires Listable(items)
    ensures Strip(JoinPlus(items)) == JoinPlus(items)
  {
    hide Strip;
    if items != [] {
      JoinedEnds(items);
      UnblankedEnds(items[0]);
      UnblankedEnds(items[|items|-1]);
    }
    UnblankedText(JoinPlus(items));
  }

  // What is hashed

  /** Hashing another path adds an entry only for a path that is new, with the content of the
      file or the marker of a missing one. */
  lemma {:induction false} EntryAppended(fs: FileSystem, paths: seq<Path>, path: Path, seen: set<Path>)
    ensures HashedEntries(fs, paths + [path], seen) ==
            HashedEntries(fs, paths, seen)
            + (if path in paths || path in seen then []
               else [(path, if path in fs && fs[path].File? then fs[path].content else "<missing>")])
    decreases |paths|
  {
    if paths == [] {
      assert paths + [path] == [path] && [path][1..] == [];
    } else {
      assert (paths + [path])[0] == paths[0] && (paths + [path])[1..] == paths[1..] + [path];
      EntryAppended(fs, paths[1..], path, if paths[0] in seen then seen else seen + {paths[0]});
      assert path in paths <==> path == paths[0] || path in paths[1..];
    }
  }

  /** The paths that lines below the directory `base` name, to be visited or to be hashed. */
  ghost function NamedPaths(host: Host, base: Path, lines: seq<seq<string>>, visit: bool): set<Path> {
    if lines == [] then {}
    else NamedByHint(host, base, ReadHint(host, lines[0]), visit) + NamedPaths(host, base, lines[1..], visit)
  }

  ghost function NamedByHint(host: Host, base: Path, hint: Hint, visit: bool): set<Path> {
    match hint
    case Ignore => {}
    case Visit(ref) => if visit then {host.join(base, ref)} else {}
    case Hash(ref) => if visit then {} else {host.join(base, ref)}
  }

  /** Some readable file of `files` names `path`. */
  ghost predicate NamedInside(fs: FileSystem, host: Host, files: set<Path>, path: Path, visit: bool) {
    exists q :: q in files && q in fs && fs[q].File?
                && path in NamedPaths(host, host.parent(q), WalkTokens(host, fs[q].content), visit)
  }

  ghost function New(before: set<Path>, r: Walked): set<Path> {
    r.visited - before
  }

  /** Everything newly visited or hashed is given by the caller or named by a newly visited file. */
  ghost predicate Justified(fs: FileSystem, host: Host, before: set<Path>, r: Walked, toVisit: set<Path>,
                            toHash: set<Path>) {
    && (forall p | p in New(before, r) :: p in toVisit || NamedInside(fs, host, New(before, r), p, true))
    && (forall f | f in r.files ::
          f in New(before, r) || f in toHash || NamedInside(fs, host, New(before, r), f, false))
  }

  lemma {:induction false} NamedInsideMore(fs: FileSystem, host: Host, files: set<Path>, files': set<Path>, path: Path,
                                           visit: bool)
    requires NamedInside(fs, host, files, path, visit) && files <= files'
    ensures NamedInside(fs, host, files', path, visit)
  {
    hide NamedPaths;
  }

  lemma {:induction false} JustifiedTogether(fs: FileSystem, host: Host, before: set<Path>, first: Walked,
                                             later: Walked, v1: set<Path>, h1: set<Path>, v2: set<Path>, h2: set<Path>)
    requires before <= first.visited <= later.visited
    requires Justified(fs, host, before, first, v1, h1) && Justified(fs, host, first.visited, later, v2, h2)
    ensures Justified(fs, host, before, Walked(first.files + later.files, later.visited), v1 + v2, h1 + h2)
  {
    hide NamedInside;
    var r := Walked(first.files + later.files, later.visited);
    var n1, n2, n := New(before, first), New(first.visited, later), New(before, r);
    assert n1 <= n && n2 <= n && n <= n1 + n2;
    forall p, visit | NamedInside(fs, host, n1, p, visit) ensures NamedInside(fs, host, n, p, visit) {
      NamedInsideMore(fs, host, n1, n, p, visit);
    }
    forall p, visit | NamedInside(fs, host, n2, p, visit) ensures NamedInside(fs, host, n, p, visit) {
      NamedInsideMore(fs, host, n2, n, p, visit);
    }
  }

  lemma {:induction false} JustifiedByFile(fs: FileSystem, host: Host, before: set<Path>, path: Path, later: Walked)
    requires path !in before && path in fs && fs[path].File? && before + {path} <= later.visited
    requires var lines := WalkTokens(host, fs[path].content);
             Justified(fs, host, before + {path}, later, NamedPaths(host, host.parent(path), lines, true),
                       NamedPaths(host, host.parent(path), lines, false))
    ensures Justified(fs, host, before, Walked([path] + later.files, later.visited), {path}, {})
  {
    hide NamedPaths;
    var r := Walked([path] + later.files, later.visited);
    var inner, whole := New(before + {path}, later), New(before, r);
    assert whole == inner + {path};
    forall p, visit | NamedInside(fs, host, inner, p, visit) ensures NamedInside(fs, host, whole, p, visit) {
      NamedInsideMore(fs, host, inner, whole, p, visit);
    }
  }

  /** Whatever a walk newly visits or hashes, besides its root, is named by a line of a file that
      it newly visits: the fingerprint depends on nothing else. */
  lemma {:induction false} WalkNeedsNaming(fs: FileSystem, host: Host, path: Path, visited: set<Path>)
    ensures Justified(fs, host, visited, Walk(fs, host, path, visited), {path}, {})
    decreases fs.Keys - visited, 0
  {
    hide WalkTokens, NamedPaths, NamedInside;
    if path !in visited && path in fs && fs[path].File? {
      Smaller(fs.Keys, visited, path);
      var lines := WalkTokens(host, fs[path].content);
      WalkLinesNeedNaming(fs, host, host.parent(path), lines, visited + {path});
      JustifiedByFile(fs, host, visited, path, WalkLines(fs, host, host.parent(path), lines, visited + {path}));
    }
  }

  lemma {:induction false} HintNeedsNaming(fs: FileSystem, host: Host, base: Path, hint: Hint, visited: set<Path>)
    ensures Justified(fs, host, visited, WalkOne(fs, host, base, hint, visited),
                      NamedByHint(host, base, hint, true), NamedByHint(host, base, hint, false))
    decreases fs.Keys - visited, 1, 0
  {
    hide NamedInside;
    if hint.Visit? {
      WalkNeedsNaming(fs, host, host.join(base, hint.ref), visited);
    }
  }

  lemma {:induction false} WalkLinesNeedNaming(fs: FileSystem, host: Host, base: Path, lines: seq<seq<string>>,
                                               visited: set<Path>)
    ensures Justified(fs, host, visited, WalkLines(fs, host, base, lines, visited),
                      NamedPaths(host, base, lines, true), NamedPaths(host, base, lines, false))
    decreases fs.Keys - visited, 1, |lines|
  {
    hide ReadHint, NamedInside, NamedByHint, WalkOne;
    if lines != [] {
      var hint := ReadHint(host, lines[0]);
      HintNeedsNaming(fs, host, base, hint, visited);
      var first := WalkOne(fs, host, base, hint, visited);
      NoLarger(fs.Keys, visited, first.visited);
      WalkLinesNeedNaming(fs, host, base, lines[1..], first.visited);
      JustifiedTogether(fs, host, visited, first, WalkLines(fs, host, base, lines[1..], first.visited),
                        NamedByHint(host, base, hint, true), NamedByHint(host, base, hint, false),
                        NamedPaths(host, base, lines[1..], true), NamedPaths(host, base, lines[1..], false));
    }
  }

  // File names of RTL files

  lemma {:induction false} SuffixFound(name: string, tail: string, k: nat)
    requires k < |name| && name[k] == '.' && forall j | k < j < |name| :: name[j] != '.'
    ensures NameSuffix(name, tail) == if k > 0 && name[k+1..] + tail != "" then "." + (name[k+1..] + tail) else ""
    decreases |name|
  {
    if k < |name| - 1 {
      var front, last := name[..|name|-1], name[|name|-1];
      SuffixFound(front, [last] + tail, k);
      assert name[k+1..] == front[k+1..] + [last];
      assert front[k+1..] + ([last] + tail) == name[k+1..] + tail;
    } else {
      assert name[k+1..] + tail == tail;
    }
  }

  lemma {:induction false} SuffixMissing(name: string, tail: string)
    requires forall j | 0 <= j < |name| :: name[j] != '.'
    ensures NameSuffix(name, tail) == ""
    decreases |name|
  {
    if name != "" {
      SuffixMissing(name[..|name|-1], [name[|name|-1]] + tail);
    }
  }

  lemma {:induction false} LastDot(name: string, n: nat) returns (k: nat)
    requires n <= |name| && exists j :: 0 <= j < n && name[j] == '.'
    ensures k < n && name[k] == '.' && forall j | k < j < n :: name[j] != '.'
  {
    if name[n-1] == '.' {
      k := n - 1;
    } else {
      k := LastDot(name, n - 1);
    }
  }

  ghost const RTL_SUFFIXES: set<string> := {".v", ".sv", ".vh", ".svh"}

  lemma {:induction false} RtlSuffixFound(name: string, suffix: string)
    requires suffix in RTL_SUFFIXES && |suffix| < |name| && EndsWith(Lower(name), suffix)
    ensures Lower(NameSuffix(name, "")) == suffix
  {
    hide NameSuffix;
    var k := |name| - |suffix|;
    forall j | k <= j < |name| ensures LowerChar(name[j]) == suffix[j-k] {
      assert Lower(name)[k..][j-k] == suffix[j-k];
    }
    assert suffix[0] == '.' && forall j | 0 < j < |suffix| :: suffix[j] != '.';
    SuffixFound(name, "", k);
    assert name[k+1..] + "" == name[k+1..];
    assert Lower("." + name[k+1..]) == suffix;
  }

  lemma {:induction false} LowerOfRest(name: string, k: nat)
    requires k <= |name|
    ensures |Lower(name)| == |name| && |Lower(name[k..])| == |name| - k && Lower(name)[k..] == Lower(name[k..])
  {
  }

  lemma {:induction false} RtlSuffixEnds(name: string)
    requires Lower(NameSuffix(name, "")) in RTL_SUFFIXES
    ensures var suffix := Lower(NameSuffix(name, "")); |suffix| < |name| && EndsWith(Lower(name), suffix)
  {
    hide NameSuffix, Lower;
    LowerOfRest("", 0);
    assert Lower(NameSuffix(name, "")) != "";
    if forall j | 0 <= j < |name| :: name[j] != '.' {
      SuffixMissing(name, "");
    } else {
      var k := LastDot(name, |name|);
      SuffixFound(name, "", k);
      LowerOfRest(name, k);
      assert name[k+1..] + "" == name[k+1..];
      assert name[k..] == "." + name[k+1..];
    }
  }

  /** A name counts as that of an RTL file if and only if it ends, in upper or lower case, in one
      of four suffixes and has something in front of it. */
  lemma {:induction false} RtlNames(token: string)
    ensures var name := LastName(token);
            HasRtlSuffix(token) <==>
            exists suffix :: suffix in RTL_SUFFIXES && |suffix| < |name| && EndsWith(Lower(name), suffix)
  {
    hide LastName, NameSuffix, EndsWith, Lower;
    var name := LastName(token);
    if HasRtlSuffix(token) {
      RtlSuffixEnds(name);
    }
    forall suffix | suffix in RTL_SUFFIXES && |suffix| < |name| && EndsWith(Lower(name), suffix)
      ensures HasRtlSuffix(token) {
      RtlSuffixFound(name, suffix);
    }
  }

  // Collected inputs

  /** Every item once, in the place where it comes first. */
  ghost function FirstPlaces(items: seq<string>): seq<string> {
    if items == [] then []
    else
      var before, last := FirstPlaces(items[..|items|-1]), items[|items|-1];
      if last in items[..|items|-1] then before else before + [last]
  }

  lemma {:induction false} SameItems(items: seq<string>)
    ensures forall x :: x in FirstPlaces(items) <==> x in items
    decreases |items|
  {
    if items != [] {
      SameItems(items[..|items|-1]);
      assert items == items[..|items|-1] + [items[|items|-1]];
    }
  }

  lemma {:induction false} AddedInPlace(items: seq<string>, before: seq<string>)
    ensures AddUnique(items, FirstPlaces(before)) == FirstPlaces(before + items)
    decreases |items|
  {
    if items == [] {
      assert before + items == before;
    } else {
      var more := before + [items[0]];
      assert more[..|more|-1] == before && more + items[1..] == before + items;
      SameItems(before);
      AddedInPlace(items[1..], more);
    }
  }

  ghost function FieldInputs(fs: FileSystem, host: Host, field: Option<Path>): Option<Inputs> {
    match field
    case None => Some(NO_INPUTS)
    case Some(root) =>
      match Parse(fs, host, root, {}) case Failed(_) => None case Parsed(inputs, _) => Some(inputs)
  }

  /** The collected inputs are those of both filelists, CPU first, each path and define once; they
      are not collected if a filelist fails to parse or no RTL file is listed. */
  lemma {:induction false} CollectedOnce(fs: FileSystem, host: Host, w: Workspace)
    ensures var cpu, soc := FieldInputs(fs, host, w.cpuFilelist), FieldInputs(fs, host, w.socFilelist);
            CollectInputs(fs, host, w) ==
            if cpu.None? || soc.None? || cpu.value.rtlFiles + soc.value.rtlFiles == [] then NotCollected
            else Collected(Inputs(FirstPlaces(cpu.value.rtlFiles + soc.value.rtlFiles),
                                  FirstPlaces(cpu.value.incdirs + soc.value.incdirs),
                                  FirstPlaces(cpu.value.defines + soc.value.defines)))
  {
    hide Parse, FirstPlaces, AddUnique;
    var cpu, soc := FieldInputs(fs, host, w.cpuFilelist), FieldInputs(fs, host, w.socFilelist);
    NothingPlaced();
    if cpu.Some? {
      AddedToNothing(cpu.value.rtlFiles);
      AddedToNothing(cpu.value.incdirs);
      AddedToNothing(cpu.value.defines);
      if soc.Some? {
        AddedInPlace(soc.value.rtlFiles, cpu.value.rtlFiles);
        AddedInPlace(soc.value.incdirs, cpu.value.incdirs);
        AddedInPlace(soc.value.defines, cpu.value.defines);
        SameItems(cpu.value.rtlFiles + soc.value.rtlFiles);
        PlacedIsNothing(cpu.value.rtlFiles + soc.value.rtlFiles);
        assert cpu.value.rtlFiles + [] == cpu.value.rtlFiles && cpu.value.incdirs + [] == cpu.value.incdirs;
        assert cpu.value.defines + [] == cpu.value.defines;
      }
    }
  }

  lemma {:induction false} NothingPlaced()
    ensures FirstPlaces([]) == [] && forall target :: AddUnique([], target) == target
  {
  }

  lemma {:induction false} AddedToNothing(items: seq<string>)
    ensures AddUnique(items, []) == FirstPlaces(items)
  {
    AddedInPlace(items, []);
    assert [] + items == items;
    assert FirstPlaces([]) == [];
  }

  lemma {:induction false} PlacedIsNothing(items: seq<string>)
    ensures FirstPlaces(items) == [] <==> items == []
  {
    SameItems(items);
    if items != [] {
      assert items[0] in FirstPlaces(items);
    }
  }
}
