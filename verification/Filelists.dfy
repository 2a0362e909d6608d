/** Filelists: the prepare step's parser and the fingerprint walk that decides whether its
    cached result is still current.  Both follow nested filelists that may be cyclic. */
module Filelists {
  import opened Texts
  import opened Collections
  import opened Options

  type Path = string

  datatype Node = File(content: string) | Directory

  type FileSystem = map<Path, Node>

  /** One line as the two walks see it: stripped, as shell words of the stripped line (None
      when the quoting is malformed), and as the words the fingerprint walk reads. */
  datatype Line = Line(stripped: string, parts: Option<seq<string>>, tokens: seq<string>)

  /** What is outside the model: decoding and tokenising a file, the parent of a path, joining
      a reference to a base directory and resolving it, and expanding a leading tilde. */
  datatype Host = Host(
    lines: string -> Option<seq<Line>>,
    salvagedTokens: string -> seq<seq<string>>,
    parent: Path -> Path,
    join: (Path, string) -> Path,
    home: string -> string)

  // Texts

  predicate EndsWith(text: string, suffix: string) {
    |suffix| <= |text| && text[|text|-|suffix|..] == suffix
  }

  predicate IsQuote(c: char) {
    c == '"' || c == '\''
  }

  function StripQuotes(text: string): string {
    TrimRight(TrimLeft(text, IsQuote), IsQuote)
  }

  function ExpandUser(host: Host, text: string): string {
    if StartsWith(text, "~") then host.home(text) else text
  }

  function LastName(text: string): string {
    if text == "" || text[|text|-1] == '/' then "" else LastName(text[..|text|-1]) + [text[|text|-1]]
  }

  /** The file-name suffix: from the last dot, unless that dot starts or ends the name. */
  function NameSuffix(name: string, tail: string): string
    decreases |name|
  {
    if name == "" then ""
    else if name[|name|-1] == '.' then (if |name| > 1 && tail != "" then "." + tail else "")
    else NameSuffix(name[..|name|-1], [name[|name|-1]] + tail)
  }

  predicate HasRtlSuffix(token: string) {
    Lower(NameSuffix(LastName(token), "")) in [".v", ".sv", ".vh", ".svh"]
  }

  function Pieces(payload: string, piece: string): seq<string>
    decreases |payload|
  {
    if payload == "" then (if piece == "" then [] else [piece])
    else if payload[0] == '+' then (if piece == "" then [] else [piece]) + Pieces(payload[1..], "")
    else Pieces(payload[1..], piece + [payload[0]])
  }

  // What one line asks for

  /** The parser's reading of a line. */
  datatype Entry =
    | Skip
    | Malformed
    | Nested(ref: string)
    | IncDirs(dirs: seq<string>)
    | Defines(defines: seq<string>)
    | Source(token: string)

  function NonEmpty(texts: seq<string>): seq<string> {
    if texts == [] then [] else (if texts[0] == "" then [] else [texts[0]]) + NonEmpty(texts[1..])
  }

  function Each(texts: seq<string>, f: string -> string): seq<string> {
    seq(|texts|, i requires 0 <= i < |texts| => f(texts[i]))
  }

  function ReadEntry(line: Line): Entry {
    if line.stripped == "" || StartsWith(line.stripped, "#") || StartsWith(line.stripped, "//")
      || StartsWith(line.stripped, "`")
    then Skip
    else match line.parts
      case None => Malformed
      case Some(parts) =>
        var option := if parts != [] then parts[0] else "";
        if option == "-f" || option == "-F" then
          var ref := if |parts| > 1 then Strip(parts[1]) else "";
          if ref == "" then Skip else Nested(StripQuotes(ref))
        else if StartsWith(line.stripped, "+incdir+") then
          IncDirs(NonEmpty(Each(Pieces(Strip(line.stripped[8..]), ""), StripQuotes)))
        else if StartsWith(line.stripped, "+define+") then
          Defines(NonEmpty(Each(Pieces(Strip(line.stripped[8..]), ""), Strip)))
        else if StartsWith(line.stripped, "+") || StartsWith(line.stripped, "-") then Skip
        else
          var token := StripQuotes(option);
          if EndsWith(token, ".v") || EndsWith(token, ".sv") then Source(token) else Skip
  }

  /** The fingerprint walk's reading of a line. */
  datatype Hint = Ignore | Visit(ref: string) | Hash(ref: string)

  function ReadHint(host: Host, tokens: seq<string>): Hint {
    if tokens == [] then Ignore
    else if (tokens[0] == "-f" || tokens[0] == "-F") && |tokens| > 1
      then Visit(ExpandUser(host, StripQuotes(tokens[1])))
    else if (StartsWith(tokens[0], "-f") || StartsWith(tokens[0], "-F")) && |tokens[0]| > 2 then
      Visit(ExpandUser(host, StripQuotes(tokens[0][2..])))
    else if HasRtlSuffix(StripQuotes(tokens[0])) then Hash(ExpandUser(host, StripQuotes(StripQuotes(tokens[0]))))
    else Ignore
  }

  // The parser

  datatype Inputs = Inputs(rtlFiles: seq<Path>, incdirs: seq<Path>, defines: seq<string>)

  const NO_INPUTS := Inputs([], [], [])

  function Plus(a: Inputs, b: Inputs): Inputs {
    Inputs(a.rtlFiles + b.rtlFiles, a.incdirs + b.incdirs, a.defines + b.defines)
  }

  datatype ParseError = FilelistNotFound | NotReadable | InvalidEntry | SourceNotFound

  datatype Parsed = Failed(error: ParseError) | Parsed(inputs: Inputs, visited: set<Path>)

  function Paths(host: Host, base: Path, refs: seq<string>): seq<Path> {
    seq(|refs|, i requires 0 <= i < |refs| => host.join(base, refs[i]))
  }

  function Parse(fs: FileSystem, host: Host, path: Path, visited: set<Path>): (r: Parsed)
    ensures r.Parsed? ==> visited <= r.visited && path in r.visited
    decreases fs.Keys - visited, 0
  {
    if path !in fs then Failed(FilelistNotFound)
    else if path in visited then Parsed(NO_INPUTS, visited)
    else if fs[path].Directory? || host.lines(fs[path].content).None? then Failed(NotReadable)
    else
      Smaller(fs.Keys, visited, path);
      ParseLines(fs, host, host.parent(path), host.lines(fs[path].content).value, visited + {path})
  }

  function ParseLines(fs: FileSystem, host: Host, base: Path, lines: seq<Line>, visited: set<Path>): (r: Parsed)
    ensures r.Parsed? ==> visited <= r.visited
    decreases fs.Keys - visited, 1, |lines|
  {
    if lines == [] then Parsed(NO_INPUTS, visited)
    else
      match ReadOne(fs, host, base, ReadEntry(lines[0]), visited)
      case Failed(error) => Failed(error)
      case Parsed(first, visited') =>
        NoLarger(fs.Keys, visited, visited');
        match ParseLines(fs, host, base, lines[1..], visited')
        case Failed(error) => Failed(error)
        case Parsed(later, visited'') => Parsed(Plus(first, later), visited'')
  }

  function ReadOne(fs: FileSystem, host: Host, base: Path, entry: Entry, visited: set<Path>): (r: Parsed)
    ensures r.Parsed? ==> visited <= r.visited
    decreases fs.Keys - visited, 1, 0
  {
    match entry
    case Skip => Parsed(NO_INPUTS, visited)
    case Malformed => Failed(InvalidEntry)
    case Nested(ref) => Parse(fs, host, host.join(base, ref), visited)
    case IncDirs(dirs) => Parsed(Inputs([], Paths(host, base, dirs), []), visited)
    case Defines(defines) => Parsed(Inputs([], [], defines), visited)
    case Source(token) =>
      if host.join(base, token) in fs then Parsed(Inputs([host.join(base, token)], [], []), visited)
        else Failed(SourceNotFound)
  }

  lemma {:induction false} NoLarger(keys: set<Path>, visited: set<Path>, visited': set<Path>)
    requires visited <= visited'
    ensures keys - visited' <= keys - visited
  {
  }

  // The fingerprint walk

  datatype Walked = Walked(files: seq<Path>, visited: set<Path>)

  function WalkTokens(host: Host, content: string): seq<seq<string>> {
    match host.lines(content)
    case None => host.salvagedTokens(content)
    case Some(lines) => seq(|lines|, i requires 0 <= i < |lines| => lines[i].tokens)
  }

  function Walk(fs: FileSystem, host: Host, path: Path, visited: set<Path>): (r: Walked)
    ensures visited <= r.visited && path in r.visited
    decreases fs.Keys - visited, 0
  {
    if path in visited then Walked([], visited)
    else if path !in fs || fs[path].Directory? then Walked([path], visited + {path})
    else
      Smaller(fs.Keys, visited, path);
      var later := WalkLines(fs, host, host.parent(path), WalkTokens(host, fs[path].content), visited + {path});
      Walked([path] + later.files, later.visited)
  }

  function WalkLines(fs: FileSystem, host: Host, base: Path, lines: seq<seq<string>>, visited: set<Path>): (r: Walked)
    ensures visited <= r.visited
    decreases fs.Keys - visited, 1, |lines|
  {
    if lines == [] then Walked([], visited)
    else
      var first := WalkOne(fs, host, base, ReadHint(host, lines[0]), visited);
      NoLarger(fs.Keys, visited, first.visited);
      var later := WalkLines(fs, host, base, lines[1..], first.visited);
      Walked(first.files + later.files, later.visited)
  }

  function WalkOne(fs: FileSystem, host: Host, base: Path, hint: Hint, visited: set<Path>): (r: Walked)
    ensures visited <= r.visited
    decreases fs.Keys - visited, 1, 0
  {
    match hint
    case Ignore => Walked([], visited)
    case Visit(ref) => Walk(fs, host, host.join(base, ref), visited)
    case Hash(ref) => Walked([host.join(base, ref)], visited)
  }

  /** What is hashed in place of a file that cannot be read. */
  const MISSING := "<missing>"

  function HashedContent(fs: FileSystem, path: Path): string {
    if path in fs && fs[path].File? then fs[path].content else MISSING
  }

  /** The hashed entries: each path once, at its first occurrence. */
  function HashedEntries(fs: FileSystem, paths: seq<Path>, seen: set<Path>): seq<(Path, string)> {
    if paths == [] then []
    else if paths[0] in seen then HashedEntries(fs, paths[1..], seen)
    else [(paths[0], HashedContent(fs, paths[0]))] + HashedEntries(fs, paths[1..], seen + {paths[0]})
  }

  function TreeEntries(fs: FileSystem, host: Host, root: Path): seq<(Path, string)> {
    HashedEntries(fs, Walk(fs, host, root, {}).files, {})
  }

  // Coverage

  /** The references both walks take from a line coincide. */
  predicate SeenAlike(host: Host, line: Line) {
    match ReadEntry(line)
    case Nested(ref) => ReadHint(host, line.tokens) == Visit(ref)
    case Source(token) => ReadHint(host, line.tokens) == Hash(token)
    case _ => true
  }

  predicate ReadableFile(fs: FileSystem, host: Host, path: Path) {
    path in fs && fs[path].File? && host.lines(fs[path].content).Some?
  }

  predicate PlainFile(fs: FileSystem, host: Host, path: Path) {
    ReadableFile(fs, host, path) ==> forall line | line in host.lines(fs[path].content).value :: SeenAlike(host, line)
  }

  /** `path` is hashed, and so is everything its hints name; nested filelists are visited. */
  predicate CoveredLine(host: Host, base: Path, tokens: seq<string>, visited: set<Path>, files: seq<Path>) {
    match ReadHint(host, tokens)
    case Ignore => true
    case Visit(ref) => host.join(base, ref) in visited
    case Hash(ref) => host.join(base, ref) in files
  }

  predicate Covered(fs: FileSystem, host: Host, path: Path, visited: set<Path>, files: seq<Path>) {
    && path in files
    && (path in fs && fs[path].File? ==>
          forall tokens | tokens in WalkTokens(host, fs[path].content) ::
            CoveredLine(host, host.parent(path), tokens, visited, files))
  }

  /** Everything the walk newly visits is covered by its result. */
  ghost predicate AllCovered(fs: FileSystem, host: Host, before: set<Path>, after: Walked) {
    forall p | p in after.visited - before :: Covered(fs, host, p, after.visited, after.files)
  }

  lemma {:induction false} CoveredStays(fs: FileSystem, host: Host, path: Path, visited: set<Path>, files: seq<Path>,
                                        visited': set<Path>, files': seq<Path>)
    requires Covered(fs, host, path, visited, files)
    requires visited <= visited' && forall f | f in files :: f in files'
    ensures Covered(fs, host, path, visited', files')
  {
    if path in fs && fs[path].File? {
      forall tokens | tokens in WalkTokens(host, fs[path].content)
        ensures CoveredLine(host, host.parent(path), tokens, visited', files')
      {
        assert CoveredLine(host, host.parent(path), tokens, visited, files);
      }
    }
  }

  lemma {:induction false} WalkCovers(fs: FileSystem, host: Host, path: Path, visited: set<Path>)
    ensures AllCovered(fs, host, visited, Walk(fs, host, path, visited))
    decreases fs.Keys - visited, 0
  {
    hide CoveredLine, WalkTokens;
    var r := Walk(fs, host, path, visited);
    if path !in visited && path in fs && fs[path].File? {
      Smaller(fs.Keys, visited, path);
      var tokens := WalkTokens(host, fs[path].content);
      var later := WalkLines(fs, host, host.parent(path), tokens, visited + {path});
      WalkLinesCover(fs, host, host.parent(path), tokens, visited + {path});
      forall p | p in r.visited - visited ensures Covered(fs, host, p, r.visited, r.files) {
        if p == path {
          forall line | line in tokens ensures CoveredLine(host, host.parent(path), line, r.visited, r.files) {
            assert CoveredLine(host, host.parent(path), line, later.visited, later.files);
            LineStaysCovered(host, host.parent(path), line, later.visited, later.files, r.visited, r.files);
          }
        } else {
          CoveredStays(fs, host, p, later.visited, later.files, r.visited, r.files);
        }
      }
    }
  }

  lemma {:induction false} LineStaysCovered(host: Host, base: Path, tokens: seq<string>, visited: set<Path>,
                                            files: seq<Path>,
                                            visited': set<Path>, files': seq<Path>)
    requires CoveredLine(host, base, tokens, visited, files)
    requires visited <= visited' && forall f | f in files :: f in files'
    ensures CoveredLine(host, base, tokens, visited', files')
  {
  }

  lemma {:induction false} WalkLinesCover(fs: FileSystem, host: Host, base: Path, lines: seq<seq<string>>,
                                          visited: set<Path>)
    ensures var r := WalkLines(fs, host, base, lines, visited);
            && AllCovered(fs, host, visited, r)
            && (forall tokens | tokens in lines :: CoveredLine(host, base, tokens, r.visited, r.files))
    decreases fs.Keys - visited, 1, |lines|
  {
    hide WalkTokens, ReadHint, Covered;
    if lines != [] {
      var first := WalkOne(fs, host, base, ReadHint(host, lines[0]), visited);
      if ReadHint(host, lines[0]).Visit? {
        WalkCovers(fs, host, host.join(base, ReadHint(host, lines[0]).ref), visited);
      }
      NoLarger(fs.Keys, visited, first.visited);
      WalkLinesCover(fs, host, base, lines[1..], first.visited);
      var later := WalkLines(fs, host, base, lines[1..], first.visited);
      var r := WalkLines(fs, host, base, lines, visited);
      forall p | p in r.visited - visited ensures Covered(fs, host, p, r.visited, r.files) {
        if p in first.visited {
          CoveredStays(fs, host, p, first.visited, first.files, r.visited, r.files);
        } else {
          CoveredStays(fs, host, p, later.visited, later.files, r.visited, r.files);
        }
      }
      forall tokens | tokens in lines ensures CoveredLine(host, base, tokens, r.visited, r.files) {
        if tokens == lines[0] {
          LineStaysCovered(host, base, tokens, first.visited, first.files, r.visited, r.files);
        } else {
          assert tokens in lines[1..];
          LineStaysCovered(host, base, tokens, later.visited, later.files, r.visited, r.files);
        }
      }
    }
  }
}
