/** The prepare cache: when the recorded fingerprint equals today's, parsing the filelists
    again gives the recorded inputs. */
module FilelistCache {
  import opened Texts
  import opened Collections
  import opened Options
  import opened TextCodes
  import opened Filelists

  // Hashed entries identify the files behind them

  lemma {:induction false} EntryPresent(fs: FileSystem, paths: seq<Path>, seen: set<Path>, path: Path)
    requires path in paths && path !in seen
    ensures (path, HashedContent(fs, path)) in HashedEntries(fs, paths, seen)
    decreases |paths|
  {
    if paths[0] != path {
      assert path in paths[1..];
      EntryPresent(fs, paths[1..], if paths[0] in seen then seen else seen + {paths[0]}, path);
    }
  }

  lemma {:induction false} EntriesAreFaithful(fs: FileSystem, paths: seq<Path>, seen: set<Path>, entry: (Path, string))
    requires entry in HashedEntries(fs, paths, seen)
    ensures entry.1 == HashedContent(fs, entry.0)
    decreases |paths|
  {
    if paths[0] in seen {
      EntriesAreFaithful(fs, paths[1..], seen, entry);
    } else if entry in HashedEntries(fs, paths[1..], seen + {paths[0]}) {
      EntriesAreFaithful(fs, paths[1..], seen + {paths[0]}, entry);
    }
  }

  lemma {:induction false} EqualEntriesEqualContent(fs1: FileSystem, fs2: FileSystem, host: Host, root: Path,
                                                    path: Path)
    requires TreeEntries(fs1, host, root) == TreeEntries(fs2, host, root)
    requires path in Walk(fs1, host, root, {}).files
    ensures HashedContent(fs1, path) == HashedContent(fs2, path)
  {
    EntryPresent(fs1, Walk(fs1, host, root, {}).files, {}, path);
    EntriesAreFaithful(fs2, Walk(fs2, host, root, {}).files, {}, (path, HashedContent(fs1, path)));
  }

  // The parser stays inside what the walk covers

  predicate PlainFiles(fs: FileSystem, host: Host, paths: set<Path>) {
    forall p | p in paths :: PlainFile(fs, host, p)
  }

  ghost predicate Closed(fs: FileSystem, host: Host, walked: Walked) {
    AllCovered(fs, host, {}, walked)
  }

  lemma {:induction false} ParseStaysCovered(fs: FileSystem, host: Host, path: Path, visited: set<Path>, walked: Walked)
    requires Closed(fs, host, walked) && path in walked.visited
    requires var r := Parse(fs, host, path, visited); r.Parsed? && PlainFiles(fs, host, r.visited - visited)
    ensures var r := Parse(fs, host, path, visited);
            && r.visited - visited <= walked.visited
            && (forall f | f in r.inputs.rtlFiles :: f in walked.files && f in fs)
    decreases fs.Keys - visited, 0
  {
    if path !in visited {
      Smaller(fs.Keys, visited, path);
      var lines := host.lines(fs[path].content).value;
      assert Covered(fs, host, path, walked.visited, walked.files);
      assert PlainFile(fs, host, path);
      forall line | line in lines ensures SeenAlike(host, line)
      ensures CoveredLine(host, host.parent(path), line.tokens, walked.visited, walked.files) {
        TokensOfLine(fs, host, path, line);
      }
      var r := Parse(fs, host, path, visited);
      assert r.visited - (visited + {path}) <= r.visited - visited;
      LinesStayCovered(fs, host, host.parent(path), lines, visited + {path}, walked);
    }
  }

  lemma {:induction false} TokensOfLine(fs: FileSystem, host: Host, path: Path, line: Line)
    requires ReadableFile(fs, host, path) && line in host.lines(fs[path].content).value
    ensures line.tokens in WalkTokens(host, fs[path].content)
  {
    var lines := host.lines(fs[path].content).value;
    var i :| 0 <= i < |lines| && lines[i] == line;
    assert WalkTokens(host, fs[path].content)[i] == line.tokens;
  }

  lemma {:induction false} LinesStayCovered(fs: FileSystem, host: Host, base: Path, lines: seq<Line>,
                                            visited: set<Path>,
                                            walked: Walked)
    requires Closed(fs, host, walked)
    requires forall line | line in lines ::
               SeenAlike(host, line) && CoveredLine(host, base, line.tokens, walked.visited, walked.files)
    requires var r := ParseLines(fs, host, base, lines, visited); r.Parsed? && PlainFiles(fs, host, r.visited - visited)
    ensures var r := ParseLines(fs, host, base, lines, visited);
            && r.visited - visited <= walked.visited
            && (forall f | f in r.inputs.rtlFiles :: f in walked.files && f in fs)
    decreases fs.Keys - visited, 1, |lines|
  {
    hide PlainFile, ReadEntry, ReadHint, Closed;
    if lines != [] {
      var entry := ReadEntry(lines[0]);
      var first := ReadOne(fs, host, base, entry, visited);
      var r := ParseLines(fs, host, base, lines, visited);
      NoLarger(fs.Keys, visited, first.visited);
      assert first.visited - visited <= r.visited - visited && r.visited - first.visited <= r.visited - visited;
      assert lines[0] in lines;
      EntryStaysCovered(fs, host, base, lines[0], visited, walked);
      LinesStayCovered(fs, host, base, lines[1..], first.visited, walked);
    }
  }

  lemma {:induction false} EntryStaysCovered(fs: FileSystem, host: Host, base: Path, line: Line, visited: set<Path>,
                                             walked: Walked)
    requires Closed(fs, host, walked)
    requires SeenAlike(host, line) && CoveredLine(host, base, line.tokens, walked.visited, walked.files)
    requires var r := ReadOne(fs, host, base, ReadEntry(line), visited);
             r.Parsed? && PlainFiles(fs, host, r.visited - visited)
    ensures var r := ReadOne(fs, host, base, ReadEntry(line), visited);
            && r.visited - visited <= walked.visited
            && (forall f | f in r.inputs.rtlFiles :: f in walked.files && f in fs)
    decreases fs.Keys - visited, 1, 0
  {
    hide PlainFile, ReadEntry, ReadHint, Closed;
    match ReadEntry(line) {
      case Nested(ref) => ParseStaysCovered(fs, host, host.join(base, ref), visited, walked);
      case _ =>
    }
  }

  /** Every filelist the parser opens and every RTL file it lists is among the hashed files,
      cyclic references or not, provided both walks read the opened files' lines alike. */
  lemma {:induction false} FingerprintCoversParse(fs: FileSystem, host: Host, root: Path)
    requires var r := Parse(fs, host, root, {}); r.Parsed? && PlainFiles(fs, host, r.visited)
    ensures var r := Parse(fs, host, root, {});
            var hashed := Walk(fs, host, root, {}).files;
            && (forall p | p in r.visited :: p in hashed)
            && (forall f | f in r.inputs.rtlFiles :: f in hashed && f in fs)
  {
    var walked := Walk(fs, host, root, {});
    WalkCovers(fs, host, root, {});
    var r := Parse(fs, host, root, {});
    assert r.visited - {} == r.visited;
    ParseStaysCovered(fs, host, root, {}, walked);
    forall p | p in r.visited ensures p in walked.files {
      assert p in walked.visited - {};
      assert Covered(fs, host, p, walked.visited, walked.files);
    }
  }

  // Parsing depends on nothing else

  predicate AgreeOn(fs1: FileSystem, fs2: FileSystem, paths: set<Path>) {
    forall p | p in paths :: p in fs1 && p in fs2 && fs1[p] == fs2[p]
  }

  lemma {:induction false} ParseAgrees(fs1: FileSystem, fs2: FileSystem, host: Host, path: Path, visited: set<Path>)
    requires var r := Parse(fs1, host, path, visited);
             r.Parsed? && AgreeOn(fs1, fs2, r.visited) && forall f | f in r.inputs.rtlFiles :: f in fs2
    ensures Parse(fs2, host, path, visited) == Parse(fs1, host, path, visited)
    decreases fs1.Keys - visited, 0
  {
    if path !in visited {
      Smaller(fs1.Keys, visited, path);
      LinesAgree(fs1, fs2, host, host.parent(path), host.lines(fs1[path].content).value, visited + {path});
    }
  }

  lemma {:induction false} LinesAgree(fs1: FileSystem, fs2: FileSystem, host: Host, base: Path, lines: seq<Line>,
                                      visited: set<Path>)
    requires var r := ParseLines(fs1, host, base, lines, visited);
             r.Parsed? && AgreeOn(fs1, fs2, r.visited) && forall f | f in r.inputs.rtlFiles :: f in fs2
    ensures ParseLines(fs2, host, base, lines, visited) == ParseLines(fs1, host, base, lines, visited)
    decreases fs1.Keys - visited, 1, |lines|
  {
    hide ReadEntry;
    if lines != [] {
      var first := ReadOne(fs1, host, base, ReadEntry(lines[0]), visited);
      NoLarger(fs1.Keys, visited, first.visited);
      var later := ParseLines(fs1, host, base, lines[1..], first.visited);
      EntryAgrees(fs1, fs2, host, base, ReadEntry(lines[0]), visited);
      LinesAgree(fs1, fs2, host, base, lines[1..], first.visited);
    }
  }

  lemma {:induction false} EntryAgrees(fs1: FileSystem, fs2: FileSystem, host: Host, base: Path, entry: Entry,
                                       visited: set<Path>)
    requires var r := ReadOne(fs1, host, base, entry, visited);
             r.Parsed? && AgreeOn(fs1, fs2, r.visited) && forall f | f in r.inputs.rtlFiles :: f in fs2
    ensures ReadOne(fs2, host, base, entry, visited) == ReadOne(fs1, host, base, entry, visited)
    decreases fs1.Keys - visited, 1, 0
  {
    match entry {
      case Nested(ref) => ParseAgrees(fs1, fs2, host, host.join(base, ref), visited);
      case Source(token) => assert [host.join(base, token)][0] in [host.join(base, token)];
      case _ =>
    }
  }

  // The cache

  /** A file whose hash cannot be confused with that of an unreadable one. */
  predicate Unambiguous(fs: FileSystem, path: Path) {
    path in fs && fs[path].File? && fs[path].content != MISSING
  }

  /** Everything the parser opens or lists is among the hashed files, and hashed by content. */
  predicate AllHashed(fs: FileSystem, host: Host, root: Path) {
    var r := Parse(fs, host, root, {});
    var hashed := Walk(fs, host, root, {}).files;
    && r.Parsed?
    && (forall p | p in r.visited :: p in hashed && Unambiguous(fs, p))
    && (forall f | f in r.inputs.rtlFiles :: f in hashed && Unambiguous(fs, f))
  }

  /** Lines read alike are enough for the hashing to be complete. */
  lemma {:induction false} ReadAlikeMeansHashed(fs: FileSystem, host: Host, root: Path)
    requires var r := Parse(fs, host, root, {});
             && r.Parsed? && PlainFiles(fs, host, r.visited)
             && (forall p | p in r.visited :: Unambiguous(fs, p))
             && (forall f | f in r.inputs.rtlFiles :: Unambiguous(fs, f))
    ensures AllHashed(fs, host, root)
  {
    FingerprintCoversParse(fs, host, root);
  }

  lemma {:induction false} EqualEntriesEqualParse(fs1: FileSystem, fs2: FileSystem, host: Host, root: Path)
    requires AllHashed(fs1, host, root)
    requires TreeEntries(fs1, host, root) == TreeEntries(fs2, host, root)
    ensures Parse(fs2, host, root, {}) == Parse(fs1, host, root, {})
  {
    var r := Parse(fs1, host, root, {});
    forall p | p in r.visited || p in r.inputs.rtlFiles ensures p in fs2 && fs1[p] == fs2[p] {
      assert Unambiguous(fs1, p);
      EqualEntriesEqualContent(fs1, fs2, host, root, p);
    }
    ParseAgrees(fs1, fs2, host, root, {});
  }

  // Why the hashing must be complete

  lemma {:induction false} ParsedIsPresent(fs: FileSystem, host: Host, path: Path, visited: set<Path>)
    requires Parse(fs, host, path, visited).Parsed?
    ensures var r := Parse(fs, host, path, visited);
            (forall p | p in r.visited - visited :: p in fs) && (forall f | f in r.inputs.rtlFiles :: f in fs)
    decreases fs.Keys - visited, 0
  {
    if path !in visited {
      Smaller(fs.Keys, visited, path);
      LinesArePresent(fs, host, host.parent(path), host.lines(fs[path].content).value, visited + {path});
    }
  }

  lemma {:induction false} LinesArePresent(fs: FileSystem, host: Host, base: Path, lines: seq<Line>, visited: set<Path>)
    requires ParseLines(fs, host, base, lines, visited).Parsed?
    ensures var r := ParseLines(fs, host, base, lines, visited);
            (forall p | p in r.visited - visited :: p in fs) && (forall f | f in r.inputs.rtlFiles :: f in fs)
    decreases fs.Keys - visited, 1, |lines|
  {
    hide ReadEntry;
    if lines != [] {
      var entry := ReadEntry(lines[0]);
      var first := ReadOne(fs, host, base, entry, visited);
      if entry.Nested? { ParsedIsPresent(fs, host, host.join(base, entry.ref), visited); }
      NoLarger(fs.Keys, visited, first.visited);
      LinesArePresent(fs, host, base, lines[1..], first.visited);
    }
  }

  /** A path whose contents lead the walk nowhere. */
  predicate LeadsNowhere(fs: FileSystem, host: Host, path: Path) {
    path in fs && fs[path].File? ==> forall tokens | tokens in WalkTokens(host, fs[path].content) ::
      ReadHint(host, tokens).Ignore?
  }

  lemma {:induction false} IgnoredLines(fs: FileSystem, host: Host, base: Path, lines: seq<seq<string>>,
                                        visited: set<Path>)
    requires forall tokens | tokens in lines :: ReadHint(host, tokens).Ignore?
    ensures WalkLines(fs, host, base, lines, visited) == Walked([], visited)
    decreases |lines|
  {
    if lines != [] {
      assert lines[0] in lines;
      IgnoredLines(fs, host, base, lines[1..], visited);
    }
  }

  /** Removing a file the walk does not hash, or one that leads nowhere, changes no walk. */
  lemma {:induction false} RemovalUnseen(fs: FileSystem, host: Host, path: Path, visited: set<Path>, gone: Path)
    requires gone !in Walk(fs, host, path, visited).files || LeadsNowhere(fs, host, gone)
    ensures Walk(fs - {gone}, host, path, visited) == Walk(fs, host, path, visited)
    decreases fs.Keys - visited, 0
  {
    hide WalkTokens, ReadHint;
    if path !in visited && path in fs && fs[path].File? {
      Smaller(fs.Keys, visited, path);
      var tokens := WalkTokens(host, fs[path].content);
      if path == gone {
        IgnoredLines(fs, host, host.parent(path), tokens, visited + {path});
      } else {
        RemovalUnseenInLines(fs, host, host.parent(path), tokens, visited + {path}, gone);
      }
    }
  }

  lemma {:induction false} RemovalUnseenInLines(fs: FileSystem, host: Host, base: Path, lines: seq<seq<string>>,
                                                visited: set<Path>, gone: Path)
    requires gone !in WalkLines(fs, host, base, lines, visited).files || LeadsNowhere(fs, host, gone)
    ensures WalkLines(fs - {gone}, host, base, lines, visited) == WalkLines(fs, host, base, lines, visited)
    decreases fs.Keys - visited, 1, |lines|
  {
    hide WalkTokens, ReadHint, LeadsNowhere;
    if lines != [] {
      var hint := ReadHint(host, lines[0]);
      var first := WalkOne(fs, host, base, hint, visited);
      if hint.Visit? { RemovalUnseen(fs, host, host.join(base, hint.ref), visited, gone); }
      NoLarger(fs.Keys, visited, first.visited);
      RemovalUnseenInLines(fs, host, base, lines[1..], first.visited, gone);
    }
  }

  lemma {:induction false} EntriesWithout(fs: FileSystem, paths: seq<Path>, seen: set<Path>, gone: Path)
    requires gone !in paths || HashedContent(fs, gone) == MISSING
    ensures HashedEntries(fs - {gone}, paths, seen) == HashedEntries(fs, paths, seen)
    decreases |paths|
  {
    if paths != [] {
      EntriesWithout(fs, paths[1..], if paths[0] in seen then seen else seen + {paths[0]}, gone);
    }
  }

  /** The marker text, read as a filelist, refers to nothing. */
  predicate MarkerIsInert(host: Host) {
    forall tokens | tokens in WalkTokens(host, MISSING) :: ReadHint(host, tokens).Ignore?
  }

  lemma {:induction false} UnhashedGoesUnnoticed(fs: FileSystem, host: Host, root: Path, gone: Path)
    requires MarkerIsInert(host)
    requires gone !in Walk(fs, host, root, {}).files || !Unambiguous(fs, gone)
    ensures TreeEntries(fs - {gone}, host, root) == TreeEntries(fs, host, root)
  {
    hide WalkTokens, ReadHint;
    RemovalUnseen(fs, host, root, {}, gone);
    EntriesWithout(fs, Walk(fs, host, root, {}).files, {}, gone);
  }

  /** For a parsed tree, equal hashed entries always mean an equal parse if and only if
      everything the parser opened or listed is hashed by its content. */
  lemma {:induction false} EntriesDecideParse(fs: FileSystem, host: Host, root: Path)
    requires MarkerIsInert(host) && Parse(fs, host, root, {}).Parsed?
    ensures (forall fs': FileSystem ::
               TreeEntries(fs', host, root) == TreeEntries(fs, host, root) ==>
                 Parse(fs', host, root, {}) == Parse(fs, host, root, {}))
            <==> AllHashed(fs, host, root)
  {
    hide Parse, Walk, TreeEntries, Unambiguous;
    if AllHashed(fs, host, root) {
      forall fs': FileSystem | TreeEntries(fs', host, root) == TreeEntries(fs, host, root)
        ensures Parse(fs', host, root, {}) == Parse(fs, host, root, {})
      {
        EqualEntriesEqualParse(fs, fs', host, root);
      }
    } else {
      var r, hashed := Parse(fs, host, root, {}), Walk(fs, host, root, {}).files;
      var gone :| (gone in r.visited || gone in r.inputs.rtlFiles) && !(gone in hashed && Unambiguous(fs, gone));
      UnhashedGoesUnnoticed(fs, host, root, gone);
      RemovalBreaksParse(fs, host, root, gone);
    }
  }

  lemma {:induction false} RemovalBreaksParse(fs: FileSystem, host: Host, root: Path, gone: Path)
    requires var r := Parse(fs, host, root, {}); r.Parsed? && (gone in r.visited || gone in r.inputs.rtlFiles)
    ensures Parse(fs - {gone}, host, root, {}) != Parse(fs, host, root, {})
  {
    var fs' := fs - {gone};
    match Parse(fs', host, root, {}) {
      case Failed(_) =>
      case Parsed(inputs, visited) =>
        assert visited - {} == visited;
        assert gone !in fs';
        ParsedIsPresent(fs', host, root, {});
    }
  }

  /** The explicit frontend inputs of a workspace. */
  datatype Workspace = Workspace(cpuFilelist: Option<Path>, socFilelist: Option<Path>)

  datatype Fingerprint = Fingerprint(cpu: (Option<Path>, string), soc: (Option<Path>, string))

  function FieldFingerprint(fs: FileSystem, host: Host, digest: seq<(Path, string)> -> string, field: Option<Path>):
    (Option<Path>, string)
  {
    (field, match field case None => "" case Some(root) => digest(TreeEntries(fs, host, root)))
  }

  function InputFingerprint(fs: FileSystem, host: Host, digest: seq<(Path, string)> -> string,
                            w: Workspace): Fingerprint {
    Fingerprint(FieldFingerprint(fs, host, digest, w.cpuFilelist), FieldFingerprint(fs, host, digest, w.socFilelist))
  }

  function AddUnique(items: seq<string>, target: seq<string>): seq<string> {
    if items == [] then target
    else AddUnique(items[1..], if items[0] in target then target else target + [items[0]])
  }

  function AddInputs(merged: Inputs, more: Inputs): Inputs {
    Inputs(AddUnique(more.rtlFiles, merged.rtlFiles), AddUnique(more.incdirs, merged.incdirs),
           AddUnique(more.defines, merged.defines))
  }

  datatype Collected = NotCollected | Collected(inputs: Inputs)

  function AddFilelist(fs: FileSystem, host: Host, field: Option<Path>, merged: Collected): Collected {
    if merged.NotCollected? || field.None? then merged
    else match Parse(fs, host, field.value, {})
      case Failed(_) => NotCollected
      case Parsed(inputs, _) => Collected(AddInputs(merged.inputs, inputs))
  }

  /** The inputs collected from the CPU and SoC filelists; without any RTL file, none. */
  function CollectInputs(fs: FileSystem, host: Host, w: Workspace): Collected {
    var merged := AddFilelist(fs, host, w.socFilelist, AddFilelist(fs, host, w.cpuFilelist, Collected(NO_INPUTS)));
    if merged.Collected? && merged.inputs.rtlFiles == [] then NotCollected else merged
  }

  predicate FieldHashed(fs: FileSystem, host: Host, field: Option<Path>) {
    field.Some? ==> AllHashed(fs, host, field.value)
  }

  ghost predicate Injective(digest: seq<(Path, string)> -> string) {
    forall x, y :: digest(x) == digest(y) ==> x == y
  }

  function EntryTexts(entries: seq<(Path, string)>): (texts: seq<string>)
    ensures |texts| == 2 * |entries|
    ensures forall i | 0 <= i < |entries| :: texts[2*i] == entries[i].0 && texts[2*i+1] == entries[i].1
  {
    if entries == [] then []
    else
      var last := entries[|entries|-1];
      EntryTexts(entries[..|entries|-1]) + [last.0, last.1]
  }

  /** Collision-free digests of hashed entries exist. */
  lemma {:induction false} SomeDigestIsInjective()
    ensures exists digest: seq<(Path, string)> -> string :: Injective(digest)
  {
    forall x: seq<(Path, string)>, y: seq<(Path, string)> | CodeTexts(EntryTexts(x)) == CodeTexts(EntryTexts(y))
      ensures x == y
    {
      TextsReadBack(EntryTexts(x), EntryTexts(y));
      forall i | 0 <= i < |x| ensures x[i] == y[i] {
        assert EntryTexts(x)[2*i] == x[i].0 && EntryTexts(x)[2*i+1] == x[i].1;
      }
    }
    var digest: seq<(Path, string)> -> string := entries => CodeTexts(EntryTexts(entries));
    assert Injective(digest);
  }

  /** With a collision-free digest, an unchanged fingerprint means that collecting the inputs
      again gives the same RTL files, include directories and defines, in the same order. */
  lemma {:induction false} PreparedInputsStayCurrent(fs1: FileSystem, w1: Workspace, fs2: FileSystem, w2: Workspace,
                                                     host: Host, digest: seq<(Path, string)> -> string)
    requires Injective(digest)
    requires InputFingerprint(fs1, host, digest, w1) == InputFingerprint(fs2, host, digest, w2)
    requires FieldHashed(fs1, host, w1.cpuFilelist) && FieldHashed(fs1, host, w1.socFilelist)
    ensures w1 == w2
    ensures CollectInputs(fs2, host, w2) == CollectInputs(fs1, host, w1)
  {
    hide AllHashed, TreeEntries;
    if w1.cpuFilelist.Some? {
      EqualEntriesEqualParse(fs1, fs2, host, w1.cpuFilelist.value);
    }
    if w1.socFilelist.Some? {
      EqualEntriesEqualParse(fs1, fs2, host, w1.socFilelist.value);
    }
  }

  // Where the hypotheses are needed

  lemma {:induction false} TrimLeftTwice(text: string, drop: char -> bool)
    ensures TrimLeft(TrimLeft(text, drop), drop) == TrimLeft(text, drop)
    decreases |text|
  {
    if text != "" && drop(text[0]) {
      TrimLeftTwice(text[1..], drop);
    }
  }

  lemma {:induction false} TrimRightTwice(text: string, drop: char -> bool)
    ensures TrimRight(TrimRight(text, drop), drop) == TrimRight(text, drop)
    decreases |text|
  {
    if text != "" && drop(text[|text|-1]) {
      TrimRightTwice(text[..|text|-1], drop);
    }
  }

  lemma {:induction false} StripQuotesTwice(text: string)
    ensures StripQuotes(StripQuotes(text)) == StripQuotes(text)
  {
    var left := TrimLeft(text, IsQuote);
    TrimLeftTwice(text, IsQuote);
    TrimRightTwice(left, IsQuote);
    var both := TrimRight(left, IsQuote);
    assert both <= left;
    assert both == "" || both[0] == left[0];
    assert TrimLeft(both, IsQuote) == both;
  }

  lemma {:induction false} SourceEntry(line: Line)
    requires line.parts == Some(line.tokens) && ReadEntry(line).Source?
    ensures line.tokens != [] && line.tokens[0] != "-f" && line.tokens[0] != "-F"
    ensures var token := ReadEntry(line).token;
            token == StripQuotes(line.tokens[0]) && (EndsWith(token, ".v") || EndsWith(token, ".sv"))
  {
    assert StripQuotes("") == "";
    hide StripQuotes, Pieces;
  }

  /** Which source lines the two walks read alike, whatever words they see: the walk's word
      must not look like an option of the walk, and it must name an RTL file that expands to the
      parser's.  If both see the same words, the file name must have something in front of its
      suffix, and a leading tilde must expand to itself. */
  lemma {:induction false} SourceSeenAlike(host: Host, line: Line)
    requires ReadEntry(line).Source?
    ensures SeenAlike(host, line) <==>
            && line.tokens != [] && !StartsWith(line.tokens[0], "-f") && !StartsWith(line.tokens[0], "-F")
            && HasRtlSuffix(StripQuotes(line.tokens[0]))
            && ExpandUser(host, StripQuotes(line.tokens[0])) == ReadEntry(line).token
    ensures line.parts == Some(line.tokens) ==>
              && line.tokens != []
              && (SeenAlike(host, line) <==>
                    && !StartsWith(line.tokens[0], "-f") && !StartsWith(line.tokens[0], "-F")
                    && LastName(ReadEntry(line).token) != ".v" && LastName(ReadEntry(line).token) != ".sv"
                    && ExpandUser(host, ReadEntry(line).token) == ReadEntry(line).token)
  {
    hide *;
    SourceSeenBySuffix(host, line);
    if line.parts == Some(line.tokens) {
      SourceEntry(line);
      SuffixOfSource(ReadEntry(line).token);
    }
  }

  lemma {:induction false} SourceSeenBySuffix(host: Host, line: Line)
    requires ReadEntry(line).Source?
    ensures SeenAlike(host, line) <==>
            && line.tokens != [] && !StartsWith(line.tokens[0], "-f") && !StartsWith(line.tokens[0], "-F")
            && HasRtlSuffix(StripQuotes(line.tokens[0]))
            && ExpandUser(host, StripQuotes(line.tokens[0])) == ReadEntry(line).token
  {
    hide ReadEntry, StripQuotes, HasRtlSuffix, StartsWith, ExpandUser;
    if line.tokens != [] {
      StripQuotesTwice(line.tokens[0]);
      HintOfWord(host, line.tokens);
    }
  }

  lemma {:induction false} OptionNamesNoFile()
    ensures !HasRtlSuffix(StripQuotes("-f")) && !HasRtlSuffix(StripQuotes("-F"))
  {
    assert "-f" == ['-', 'f'] && "-F" == ['-', 'F'];
    NoSuffix('f');
    NoSuffix('F');
  }

  lemma {:induction false} NoSuffix(c: char)
    requires !IsQuote(c) && c != '/' && c != '.'
    ensures !HasRtlSuffix(StripQuotes(['-', c]))
  {
    var option := ['-', c];
    assert TrimLeft(option, IsQuote) == option && StripQuotes(option) == option;
    LastNameAppends("-", c);
    LastNameAppends("", '-');
    assert "" + ['-'] == "-" && "-" + [c] == option;
    SuffixAppends("-", c, "");
    SuffixAppends("", '-', [c]);
    assert [c] + "" == [c];
    assert NameSuffix(option, "") == "" && Lower("") == "";
  }

  lemma {:induction false} HintOfWord(host: Host, tokens: seq<string>)
    requires tokens != []
    ensures if StartsWith(tokens[0], "-f") || StartsWith(tokens[0], "-F") then !ReadHint(host, tokens).Hash?
            else if HasRtlSuffix(StripQuotes(tokens[0]))
            then ReadHint(host, tokens) == Hash(ExpandUser(host, StripQuotes(StripQuotes(tokens[0]))))
            else ReadHint(host, tokens) == Ignore
  {
    hide StripQuotes, HasRtlSuffix, ExpandUser;
    OptionNamesNoFile();
    if |tokens[0]| == 2 {
      assert tokens[0] == [tokens[0][0], tokens[0][1]];
    }
  }

  lemma {:induction false} LastNameAppends(front: string, c: char)
    requires c != '/'
    ensures LastName(front + [c]) == LastName(front) + [c]
  {
    assert (front + [c])[..|front|] == front;
  }

  lemma {:induction false} SuffixAppends(name: string, c: char, tail: string)
    ensures NameSuffix(name + [c], tail) ==
            if c == '.' then (if name != "" && tail != "" then "." + tail else "") else NameSuffix(name, [c] + tail)
  {
    assert (name + [c])[..|name|] == name;
  }

  lemma {:induction false} SuffixOfSource(token: string)
    requires EndsWith(token, ".v") || EndsWith(token, ".sv")
    ensures HasRtlSuffix(token) <==> LastName(token) != ".v" && LastName(token) != ".sv"
  {
    hide LastName, NameSuffix;
    assert Lower(".v") == ".v" && Lower(".sv") == ".sv" && Lower("") == "";
    if EndsWith(token, ".v") {
      var front := token[..|token|-2];
      assert token == front + ['.'] + ['v'];
      LastNameAppends(front, '.');
      LastNameAppends(front + ['.'], 'v');
      var base := LastName(front);
      SuffixAppends(base + ['.'], 'v', "");
      SuffixAppends(base, '.', "v");
      assert ['v'] + "" == "v" && "." + "v" == ".v";
      assert base + ['.'] + ['v'] == ".v" <==> base == "";
      assert base + ['.'] + ['v'] != ".sv" by { assert (base + ['.'] + ['v'])[|base|] == '.'; }
    } else {
      var front := token[..|token|-3];
      assert token == front + ['.'] + ['s'] + ['v'];
      LastNameAppends(front, '.');
      LastNameAppends(front + ['.'], 's');
      LastNameAppends(front + ['.'] + ['s'], 'v');
      var base := LastName(front);
      SuffixAppends(base + ['.'] + ['s'], 'v', "");
      SuffixAppends(base + ['.'], 's', "v");
      SuffixAppends(base, '.', "sv");
      assert ['v'] + "" == "v" && ['s'] + "v" == "sv" && "." + "sv" == ".sv";
      assert base + ['.'] + ['s'] + ['v'] == ".sv" <==> base == "";
      assert |base + ['.'] + ['s'] + ['v']| != |".v"|;
    }
  }

  /** The reference that the walk finds behind its option, which it may be attached to. */
  function WalkReference(tokens: seq<string>): Option<string> {
    if tokens == [] then None
    else if tokens[0] in ["-f", "-F"] then (if |tokens| > 1 then Some(tokens[1]) else None)
    else if StartsWith(tokens[0], "-f") || StartsWith(tokens[0], "-F") then Some(tokens[0][2..])
    else None
  }

  /** Which nested references the two walks read alike, whatever words they see: those that the
      walk expands to what the parser reads.  If both see the same words, these are the ones
      without surrounding blanks, and those whose leading tilde expands to what the parser reads. */
  lemma {:induction false} NestedSeenAlike(host: Host, line: Line)
    requires ReadEntry(line).Nested?
    ensures SeenAlike(host, line) <==>
            var ref := WalkReference(line.tokens);
            ref.Some? && ExpandUser(host, StripQuotes(ref.value)) == ReadEntry(line).ref
    ensures line.parts == Some(line.tokens) ==>
              && |line.tokens| > 1
              && (SeenAlike(host, line) <==>
                    if StartsWith(StripQuotes(line.tokens[1]), "~")
                    then host.home(StripQuotes(line.tokens[1])) == StripQuotes(Strip(line.tokens[1]))
                    else Strip(line.tokens[1]) == line.tokens[1])
  {
    hide LastName, StripQuotes, Strip;
    if line.tokens != [] {
      VisitOfWord(host, line.tokens);
    }
    if line.parts == Some(line.tokens) && |line.tokens| > 1 {
      if Strip(line.tokens[1]) != "" {
        BlanksShowThroughQuotes(line.tokens[1]);
      }
    }
  }

  lemma {:induction false} VisitOfWord(host: Host, tokens: seq<string>)
    requires tokens != []
    ensures match WalkReference(tokens)
            case Some(ref) => ReadHint(host, tokens) == Visit(ExpandUser(host, StripQuotes(ref)))
            case None => !ReadHint(host, tokens).Visit?
  {
    hide LastName, StripQuotes, ExpandUser, HasRtlSuffix;
    if |tokens[0]| == 2 {
      assert tokens[0] == [tokens[0][0], tokens[0][1]];
    }
  }

  lemma {:induction false} BlanksShowThroughQuotes(text: string)
    requires Strip(text) != ""
    ensures StripQuotes(Strip(text)) == StripQuotes(text) <==> Strip(text) == text
  {
    var left := TrimLeft(text, IsSpace);
    var stripped := TrimRight(left, IsSpace);
    if stripped != text {
      if left != text {
        // text starts with a blank: no quote is dropped from its left
        assert IsSpace(text[0]) && TrimLeft(text, IsQuote) == text;
        RightQuotes(text, stripped);
      } else {
        assert IsSpace(text[|text|-1]);
        LeftQuotesOnly(text, stripped);
      }
    }
  }

  lemma {:induction false} RightQuotes(text: string, stripped: string)
    requires text != "" && IsSpace(text[0]) && stripped == Strip(text) && stripped != ""
    ensures |StripQuotes(stripped)| < |StripQuotes(text)|
  {
    var left := TrimLeft(text, IsSpace);
    assert TrimLeft(text, IsQuote) == text;
    LeftIsSuffix(text, IsSpace);
    if IsSpace(text[|text|-1]) {
      assert TrimRight(text, IsQuote) == text;
    } else {
      assert stripped == left;
      LeftIsSuffix(stripped, IsQuote);
      TrimRightOfSuffix(text, TrimLeft(stripped, IsQuote), IsQuote);
    }
  }

  lemma {:induction false} LeftIsSuffix(text: string, drop: char -> bool)
    ensures var r := TrimLeft(text, drop); |r| <= |text| && text[|text|-|r|..] == r
    decreases |text|
  {
    if text != "" && drop(text[0]) {
      LeftIsSuffix(text[1..], drop);
      var r := TrimLeft(text[1..], drop);
      assert text[|text|-|r|..] == text[1..][|text|-1-|r|..];
    }
  }

  /** A shorter suffix that keeps something loses as much on the right and stays shorter. */
  lemma {:induction false} TrimRightOfSuffix(text: string, suffix: string, drop: char -> bool)
    requires |suffix| < |text| && text[|text|-|suffix|..] == suffix && !drop(text[0])
    ensures |TrimRight(suffix, drop)| < |TrimRight(text, drop)|
    decreases |text|
  {
    if suffix == "" {
      KeepsFirst(text, drop);
    } else {
      assert suffix[|suffix|-1] == text[|text|-1];
      if drop(text[|text|-1]) {
        assert text[..|text|-1][|text|-|suffix|..] == suffix[..|suffix|-1];
        TrimRightOfSuffix(text[..|text|-1], suffix[..|suffix|-1], drop);
      }
    }
  }

  lemma {:induction false} KeepsFirst(text: string, drop: char -> bool)
    requires text != "" && !drop(text[0])
    ensures |TrimRight(text, drop)| > 0
    decreases |text|
  {
    if drop(text[|text|-1]) {
      KeepsFirst(text[..|text|-1], drop);
    }
  }

  lemma {:induction false} LeftQuotesOnly(text: string, stripped: string)
    requires text != "" && IsSpace(text[|text|-1]) && !IsSpace(text[0])
    requires stripped == TrimRight(text, IsSpace) && stripped != "" && stripped != text
    ensures |StripQuotes(stripped)| < |StripQuotes(text)|
  {
    var bare := TrimLeft(text, IsQuote);
    LeftIsSuffix(text, IsQuote);
    LastNotDropped(text, IsQuote);
    assert bare[|bare|-1] == text[|text|-1];
    assert StripQuotes(text) == bare;
    LeftOfPrefix(text, stripped, IsQuote);
  }

  lemma {:induction false} LastNotDropped(text: string, drop: char -> bool)
    requires text != "" && !drop(text[|text|-1])
    ensures TrimLeft(text, drop) != ""
    decreases |text|
  {
    if drop(text[0]) {
      LastNotDropped(text[1..], drop);
    }
  }

  lemma {:induction false} LeftOfPrefix(text: string, prefix: string, drop: char -> bool)
    requires prefix < text && !drop(text[|text|-1])
    ensures |TrimLeft(prefix, drop)| < |TrimLeft(text, drop)|
    decreases |text|
  {
    if prefix == "" {
      LastNotDropped(text, drop);
    } else if drop(text[0]) {
      assert prefix[1..] < text[1..];
      LeftOfPrefix(text[1..], prefix[1..], drop);
    }
  }

  /** An RTL file whose content happens to be the marker for unreadable files: removing it
      leaves every hashed entry as it was, and the parser then fails. */
  lemma {:induction false} MarkerContentCollides(host: Host, root: Path, rtl: Path, list: string, line: Line)
    requires root != rtl && list != MISSING
    requires host.lines(list) == Some([line]) && ReadEntry(line).Source?
    requires ReadHint(host, line.tokens) == Hash(ReadEntry(line).token)
    requires host.join(host.parent(root), ReadEntry(line).token) == rtl
    ensures var fs1: FileSystem := map[root := File(list), rtl := File(MISSING)];
            var fs2: FileSystem := map[root := File(list)];
            && Parse(fs1, host, root, {}) == Parsed(Inputs([rtl], [], []), {root})
            && TreeEntries(fs1, host, root) == TreeEntries(fs2, host, root)
            && Parse(fs2, host, root, {}) == Failed(SourceNotFound)
  {
    hide ReadEntry, ReadHint;
    var fs1: FileSystem := map[root := File(list), rtl := File(MISSING)];
    var fs2: FileSystem := map[root := File(list)];
    var base, token := host.parent(root), ReadEntry(line).token;
    OneLineTree(fs1, host, root, rtl, list, line);
    OneLineTree(fs2, host, root, rtl, list, line);
    TwoEntries(fs1, root, rtl);
    TwoEntries(fs2, root, rtl);
    OneLineParse(fs1, host, root, list, line);
    OneLineParse(fs2, host, root, list, line);
    assert Plus(Inputs([rtl], [], []), NO_INPUTS) == Inputs([rtl], [], []);
  }

  lemma {:induction false} TwoEntries(fs: FileSystem, root: Path, rtl: Path)
    requires root != rtl
    ensures HashedEntries(fs, [root, rtl], {}) == [(root, HashedContent(fs, root)), (rtl, HashedContent(fs, rtl))]
  {
    assert [root, rtl][1..] == [rtl] && [rtl][1..] == [];
    assert HashedEntries(fs, [rtl], {} + {root}) == [(rtl, HashedContent(fs, rtl))]
        + HashedEntries(fs, [], {} + {root} + {rtl});
  }

  lemma {:induction false} OneLineParse(fs: FileSystem, host: Host, root: Path, list: string, line: Line)
    requires root in fs && fs[root] == File(list) && host.lines(list) == Some([line])
    ensures Parse(fs, host, root, {}) ==
            match ReadOne(fs, host, host.parent(root), ReadEntry(line), {root})
            case Failed(error) => Failed(error)
            case Parsed(first, visited) => Parsed(Plus(first, NO_INPUTS), visited)
  {
    hide ReadEntry, ReadOne;
    assert {} + {root} == {root};
    assert [line][1..] == [];
    match ReadOne(fs, host, host.parent(root), ReadEntry(line), {root}) {
      case Failed(_) =>
      case Parsed(_, visited) =>
        assert ParseLines(fs, host, host.parent(root), [], visited) == Parsed(NO_INPUTS, visited);
    }
  }

  lemma {:induction false} OneLineTree(fs: FileSystem, host: Host, root: Path, rtl: Path, list: string, line: Line)
    requires root in fs && fs[root] == File(list) && host.lines(list) == Some([line])
    requires ReadHint(host, line.tokens).Hash? && host.join(host.parent(root), ReadHint(host, line.tokens).ref) == rtl
    ensures Walk(fs, host, root, {}).files == [root, rtl]
  {
    var lines := WalkTokens(host, list);
    assert lines == [line.tokens];
    assert lines[1..] == [];
    assert WalkLines(fs, host, host.parent(root), lines[1..], {} + {root}) == Walked([], {} + {root});
    assert WalkOne(fs, host, host.parent(root), ReadHint(host, lines[0]), {} + {root}) == Walked([rtl], {} + {root});
    assert WalkLines(fs, host, host.parent(root), lines, {} + {root}).files == [rtl] + [];
  }
}
