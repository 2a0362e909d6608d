/** The two walks as the original runs them: one visited set shared by every nested call,
    and accumulators that grow line by line. */
module FilelistWalks {
  import opened Collections
  import opened Filelists

  datatype ParseResult = Err(error: ParseError) | Ok(inputs: Inputs)

  class VisitedPaths {
    var paths: set<Path>

    constructor ()
      ensures paths == {}
    {
      paths := {};
    }
  }

  predicate Matches(r: ParseResult, visited: set<Path>, expected: Parsed) {
    match expected
    case Failed(error) => r == Err(error)
    case Parsed(inputs, visited') => r == Ok(inputs) && visited == visited'
  }

  method ParseSvFilelist(fs: FileSystem, host: Host, path: Path, visited: VisitedPaths) returns (r: ParseResult)
    modifies visited
    ensures Matches(r, visited.paths, Parse(fs, host, path, old(visited.paths)))
    decreases fs.Keys - visited.paths
  {
    hide ReadEntry, Pieces;
    if path !in fs { return Err(FilelistNotFound); }
    if path in visited.paths { return Ok(NO_INPUTS); }
    if fs[path].Directory? { return Err(NotReadable); }
    var content := host.lines(fs[path].content);
    if content.None? { return Err(NotReadable); }
    Smaller(fs.Keys, visited.paths, path);
    ghost var before := visited.paths;
    visited.paths := visited.paths + {path};
    var base, lines := host.parent(path), content.value;
    var inputs := NO_INPUTS;
    var i := 0;
    assert lines[0..] == lines;
    NothingBefore(ParseLines(fs, host, base, lines, visited.paths));
    while i < |lines|
      invariant 0 <= i <= |lines|
      invariant before + {path} <= visited.paths
      invariant ParseLines(fs, host, base, lines, before + {path})
                == After(inputs, ParseLines(fs, host, base, lines[i..], visited.paths))
    {
      var entry := ReadEntry(lines[i]);
      assert lines[i..][0] == lines[i] && lines[i..][1..] == lines[i+1..];
      ghost var first := ReadOne(fs, host, base, entry, visited.paths);
      var more := NO_INPUTS;
      match entry {
        case Skip =>
        case Malformed => return Err(InvalidEntry);
        case Nested(ref) =>
          var nested := ParseSvFilelist(fs, host, host.join(base, ref), visited);
          if nested.Err? { return nested; }
          more := nested.inputs;
        case IncDirs(dirs) => more := Inputs([], Paths(host, base, dirs), []);
        case Defines(defines) => more := Inputs([], [], defines);
        case Source(token) =>
          if host.join(base, token) !in fs { return Err(SourceNotFound); }
          more := Inputs([host.join(base, token)], [], []);
      }
      assert first == Parsed(more, visited.paths);
      AfterTwice(inputs, more, ParseLines(fs, host, base, lines[i+1..], visited.paths));
      inputs := Plus(inputs, more);
      i := i + 1;
    }
    PlusNothing(inputs);
    return Ok(inputs);
  }

  /** The inputs read so far in front of what the remaining lines give. */
  function After(inputs: Inputs, rest: Parsed): Parsed {
    match rest case Failed(error) => Failed(error) case Parsed(more, visited) => Parsed(Plus(inputs, more), visited)
  }

  lemma {:induction false} PlusNothing(inputs: Inputs)
    ensures Plus(inputs, NO_INPUTS) == inputs && Plus(NO_INPUTS, inputs) == inputs
  {
  }

  lemma {:induction false} NothingBefore(rest: Parsed)
    ensures After(NO_INPUTS, rest) == rest
  {
    match rest {
      case Failed(_) =>
      case Parsed(inputs, _) => PlusNothing(inputs);
    }
  }

  lemma {:induction false} AfterTwice(inputs: Inputs, more: Inputs, rest: Parsed)
    ensures After(inputs, After(more, rest)) == After(Plus(inputs, more), rest)
  {
    match rest {
      case Failed(_) =>
      case Parsed(later, _) =>
        assert Plus(inputs, Plus(more, later)) == Plus(Plus(inputs, more), later) by {
          assert inputs.rtlFiles + (more.rtlFiles + later.rtlFiles) == inputs.rtlFiles + more.rtlFiles + later.rtlFiles;
          assert inputs.incdirs + (more.incdirs + later.incdirs) == inputs.incdirs + more.incdirs + later.incdirs;
          assert inputs.defines + (more.defines + later.defines) == inputs.defines + more.defines + later.defines;
        }
    }
  }

  class FingerprintWalk {
    var files: seq<Path>
    var visited: set<Path>

    constructor ()
      ensures files == [] && visited == {}
    {
      files, visited := [], {};
    }

    method Visit(fs: FileSystem, host: Host, path: Path)
      modifies this
      ensures var w := Walk(fs, host, path, old(visited)); files == old(files) + w.files && visited == w.visited
      decreases fs.Keys - visited, 0
    {
      hide ReadHint, WalkTokens, WalkLines;
      if path in visited { return; }
      ghost var was, before := files, visited;
      files := files + [path];
      if path in fs { Smaller(fs.Keys, visited, path); }
      visited := visited + {path};
      if path !in fs || fs[path].Directory? { return; }
      var base, lines := host.parent(path), WalkTokens(host, fs[path].content);
      VisitLines(fs, host, base, lines);
      ghost var later := WalkLines(fs, host, base, lines, before + {path}).files;
      assert was + [path] + later == was + ([path] + later);
    }

    method VisitLines(fs: FileSystem, host: Host, base: Path, lines: seq<seq<string>>)
      modifies this
      ensures var w := WalkLines(fs, host, base, lines, old(visited));
              files == old(files) + w.files && visited == w.visited
      decreases fs.Keys - visited, 1, |lines|
    {
      hide ReadHint, Walk;
      ghost var was, before := files, visited;
      var i := 0;
      assert lines[0..] == lines;
      while i < |lines|
        invariant 0 <= i <= |lines|
        invariant before <= visited
        invariant files + WalkLines(fs, host, base, lines[i..], visited).files
                  == was + WalkLines(fs, host, base, lines, before).files
        invariant WalkLines(fs, host, base, lines[i..], visited).visited
            == WalkLines(fs, host, base, lines, before).visited
      {
        assert lines[i..][0] == lines[i] && lines[i..][1..] == lines[i+1..];
        ghost var now, seen := files, visited;
        ghost var first := WalkOne(fs, host, base, ReadHint(host, lines[i]), visited);
        NoLarger(fs.Keys, before, visited);
        match ReadHint(host, lines[i]) {
          case Ignore =>
          case Visit(ref) => Visit(fs, host, host.join(base, ref));
          case Hash(ref) => files := files + [host.join(base, ref)];
        }
        assert files == now + first.files && visited == first.visited;
        ghost var rest := WalkLines(fs, host, base, lines[i+1..], visited);
        assert now + (first.files + rest.files) == now + first.files + rest.files;
        i := i + 1;
      }
    }
  }
}
