/** Publishing several files together: stage all, replace one by one, and on an exception
    restore what was already replaced. */
module TripletWriter {
  import opened Options
  import opened Triplet

  /** A file system whose operations fail, without any effect, as the fault plan says.  All
      states it passes through are recorded, so a kill leaves one of them. */
  class FileSystem {
    var files: Files
    var nextTemp: nat
    var clock: nat
    ghost var history: seq<Files>
    const faults: nat -> bool
    const unlinkFaults: nat -> bool

    constructor (files: Files, nextTemp: nat, faults: nat -> bool, unlinkFaults: nat -> bool)
      ensures this.files == files && history == [] && this.nextTemp == nextTemp
    {
      this.files, this.nextTemp, this.clock := files, nextTemp, 0;
      this.faults, this.unlinkFaults := faults, unlinkFaults;
      history := [];
    }

    ghost predicate Valid()
      reads this
    {
      forall i: nat | Temp(i) in files :: i < nextTemp
    }

    method Read(path: Path) returns (ok: bool, content: Option<Content>)
      modifies this`clock
      ensures ok == !faults(old(clock)) && clock == old(clock) + 1
      ensures ok ==> content == Lookup(files, path)
    {
      ok := !faults(clock);
      clock := clock + 1;
      content := if path in files then Some(files[path]) else None;
    }

    /** Writes a new temporary file; a failed attempt leaves none behind. */
    method Stage(content: Content) returns (temp: Option<Path>)
      requires Valid()
      modifies this`files, this`nextTemp, this`clock, this`history
      ensures Valid() && nextTemp > old(nextTemp)
      ensures temp.Some? == !faults(old(clock)) && clock == old(clock) + 1
      ensures temp.None? ==> files == old(files)
      ensures temp.Some? ==> temp.value == Temp(old(nextTemp)) && files == old(files)[temp.value := content]
      ensures |history| == |old(history)| + 2 && history[..|old(history)|] == old(history)
      ensures forall h | h in history[|old(history)|..] :: OnlyTempsDiffer(old(files), h)
    {
      var path := Temp(nextTemp);
      nextTemp := nextTemp + 1;
      ghost var before := files;
      files := files[path := Garbage];
      ghost var partial := files;
      if faults(clock) {
        files := files - {path};
        assert files == before;
        temp := None;
      } else {
        files := files[path := content];
        temp := Some(path);
      }
      clock := clock + 1;
      history := history + [partial, files];
    }

    method Replace(temp: Path, destination: Path) returns (ok: bool)
      requires Valid() && temp in files && temp.Temp? && destination.Named?
      modifies this`files, this`clock, this`history
      ensures Valid()
      ensures ok == !faults(old(clock)) && clock == old(clock) + 1
      ensures files == if ok then (old(files) - {temp})[destination := old(files)[temp]] else old(files)
      ensures history == old(history) + [files]
    {
      ok := !faults(clock);
      clock := clock + 1;
      if ok {
        var content := files[temp];
        files := (files - {temp})[destination := content];
      }
      history := history + [files];
    }

    method Unlink(path: Path) returns (ok: bool)
      requires Valid()
      modifies this`files, this`clock, this`history
      ensures Valid()
      ensures ok == !unlinkFaults(old(clock)) && clock == old(clock) + 1
      ensures files == if ok then old(files) - {path} else old(files)
      ensures history == old(history) + [files]
    {
      ok := !unlinkFaults(clock);
      clock := clock + 1;
      if ok { files := files - {path}; }
      history := history + [files];
    }
  }

  /** No operation fails from one time up to another. */
  ghost predicate Faultless(fs: FileSystem, from: nat, to: nat) {
    forall t | from <= t < to :: !fs.faults(t)
  }

  /** The operation before now failed, and none since `from`. */
  ghost predicate JustFailed(fs: FileSystem, from: nat, clock: nat) {
    from < clock && fs.faults(clock - 1) && Faultless(fs, from, clock - 1)
  }

  ghost predicate OnlyTempsDiffer(before: Files, after: Files) {
    forall p: Path | p.Named? && (p in before || p in after) :: Lookup(after, p) == Lookup(before, p)
  }

  type Entries = seq<(Path, Content)>

  /** What a named path holds once the first `j` entries are published. */
  function PublishedAt(entries: Entries, j: nat, base: Option<Content>, path: Path): Option<Content>
    requires j <= |entries|
  {
    if j == 0 then base
    else if entries[j-1].0 == path then Some(entries[j-1].1)
    else PublishedAt(entries, j - 1, base, path)
  }

  predicate IsDestination(entries: Entries, from: nat, to: nat, path: Path)
    requires from <= to <= |entries|
  {
    exists i | from <= i < to :: entries[i].0 == path
  }

  /** Named files are as before, or hold one of the entries' new contents. */
  ghost predicate OldOrNew(before: Files, after: Files, entries: Entries) {
    forall p: Path | p.Named? ::
      || Lookup(after, p) == Lookup(before, p)
      || exists i | 0 <= i < |entries| :: entries[i].0 == p && Lookup(after, p) == Some(entries[i].1)
  }

  lemma {:induction false} PublishedIsOldOrNew(entries: Entries, j: nat, base: Option<Content>, path: Path)
    requires j <= |entries|
    ensures || PublishedAt(entries, j, base, path) == base
            || exists i | 0 <= i < |entries| :: entries[i].0 == path
                && PublishedAt(entries, j, base, path) == Some(entries[i].1)
    decreases j
  {
    if j > 0 && entries[j-1].0 != path {
      PublishedIsOldOrNew(entries, j - 1, base, path);
    }
  }

  lemma {:induction false} NotPublished(entries: Entries, j: nat, base: Option<Content>, path: Path)
    requires j <= |entries| && !IsDestination(entries, 0, j, path)
    ensures PublishedAt(entries, j, base, path) == base
    decreases j
  {
    if j > 0 {
      assert entries[j-1].0 != path;
      NotPublished(entries, j - 1, base, path);
    }
  }

  datatype Outcome = Published | RolledBack | RollbackFailed

  ghost predicate AllNamed(entries: Entries) {
    forall i | 0 <= i < |entries| :: entries[i].0.Named?
  }

  /** Temporary files present are old ones or among `temps`. */
  ghost predicate NoOtherTemps(before: Files, after: Files, temps: seq<Path>) {
    forall p: Path | p.Temp? && p in after :: p in before || p in temps
  }

  ghost predicate NamedAs(before: Files, after: Files, entries: Entries, j: nat)
    requires j <= |entries|
  {
    forall p: Path | p.Named? :: Lookup(after, p) == PublishedAt(entries, j, Lookup(before, p), p)
  }

  ghost predicate HistoryOldOrNew(before: Files, states: seq<Files>, entries: Entries) {
    forall h | h in states :: OldOrNew(before, h, entries)
  }

  lemma {:induction false} NamedAsIsOldOrNew(before: Files, after: Files, entries: Entries, j: nat)
    requires j <= |entries| && NamedAs(before, after, entries, j)
    ensures OldOrNew(before, after, entries)
  {
    forall p: Path | p.Named?
      ensures Lookup(after, p) == Lookup(before, p)
              || exists i | 0 <= i < |entries| :: entries[i].0 == p && Lookup(after, p) == Some(entries[i].1)
    {
      PublishedIsOldOrNew(entries, j, Lookup(before, p), p);
    }
  }

  /** Reads every destination and stages every payload; stops at the first failure. */
  method StageAll(fs: FileSystem, entries: Entries)
    returns (ok: bool, staged: seq<Path>, originals: seq<Option<Content>>)
    requires fs.Valid() && AllNamed(entries)
    modifies fs`files, fs`nextTemp, fs`clock, fs`history
    ensures fs.Valid()
    ensures if ok then Faultless(fs, old(fs.clock), fs.clock) && fs.clock == old(fs.clock) + 2 * |entries|
            else JustFailed(fs, old(fs.clock), fs.clock) && fs.clock <= old(fs.clock) + 2 * |entries|
    ensures NamedAs(old(fs.files), fs.files, entries, 0)
    ensures NoOtherTemps(old(fs.files), fs.files, staged)
    ensures forall i | 0 <= i < |staged| :: staged[i].Temp?
    ensures ok ==> |staged| == |originals| == |entries|
    ensures ok ==> forall i | 0 <= i < |entries| :: originals[i] == Lookup(old(fs.files), entries[i].0)
    ensures ok ==> forall i | 0 <= i < |staged| :: staged[i] in fs.files && fs.files[staged[i]] == entries[i].1
    ensures forall i, j | 0 <= i < j < |staged| :: staged[i] != staged[j]
    ensures |old(fs.history)| <= |fs.history| && fs.history[..|old(fs.history)|] == old(fs.history)
    ensures HistoryOldOrNew(old(fs.files), fs.history[|old(fs.history)|..], entries)
  {
    ghost var before, past, begun := fs.files, fs.history, fs.clock;
    ok, staged, originals := true, [], [];
    for i := 0 to |entries|
      invariant ok && fs.Valid() && |staged| == |originals| == i
      invariant Faultless(fs, begun, fs.clock) && fs.clock == begun + 2 * i
      invariant NamedAs(before, fs.files, entries, 0)
      invariant NoOtherTemps(before, fs.files, staged)
      invariant forall k | 0 <= k < i :: staged[k].Temp? && staged[k] in fs.files && fs.files[staged[k]] == entries[k].1
      invariant forall k | 0 <= k < i :: originals[k] == Lookup(before, entries[k].0)
      invariant forall j, k | 0 <= j < k < i :: staged[j] != staged[k]
      invariant |past| <= |fs.history| && fs.history[..|past|] == past
      invariant HistoryOldOrNew(before, fs.history[|past|..], entries)
    {
      var readable, original := fs.Read(entries[i].0);
      if !readable { return false, staged, originals; }
      ghost var now, middle := fs.files, fs.history;
      var temp := fs.Stage(entries[i].1);
      assert fs.history[|past|..] == middle[|past|..] + fs.history[|middle|..];
      forall h | h in fs.history[|middle|..] ensures OldOrNew(before, h, entries) {
        NamedThrough(before, now, h, entries);
      }
      if temp.None? { return false, staged, originals; }
      staged, originals := staged + [temp.value], originals + [original];
    }
  }

  lemma {:induction false} NamedThrough(before: Files, now: Files, after: Files, entries: Entries)
    requires NamedAs(before, now, entries, 0) && OnlyTempsDiffer(now, after)
    ensures OldOrNew(before, after, entries)
  {
    forall p: Path | p.Named? ensures Lookup(after, p) == Lookup(before, p) {
      assert Lookup(now, p) == PublishedAt(entries, 0, Lookup(before, p), p);
      if p in now || p in after {
        assert Lookup(after, p) == Lookup(now, p);
      }
    }
  }

  lemma {:induction false} ReplacedOneMore(before: Files, now: Files, after: Files, entries: Entries, j: nat,
                                           temp: Path)
    requires j < |entries| && NamedAs(before, now, entries, j) && entries[j].0.Named?
    requires temp.Temp? && temp in now && now[temp] == entries[j].1
    requires after == (now - {temp})[entries[j].0 := entries[j].1]
    ensures NamedAs(before, after, entries, j + 1)
  {
    forall p: Path | p.Named? ensures Lookup(after, p) == PublishedAt(entries, j + 1, Lookup(before, p), p) {
      assert Lookup(now, p) == PublishedAt(entries, j, Lookup(before, p), p);
    }
  }

  lemma {:induction false} NamedAsKept(before: Files, now: Files, after: Files, entries: Entries, j: nat)
    requires j <= |entries| && NamedAs(before, now, entries, j)
    requires forall p: Path | p.Named? :: Lookup(after, p) == Lookup(now, p)
    ensures NamedAs(before, after, entries, j)
    ensures j == 0 ==> forall p: Path | p.Named? :: Lookup(after, p) == Lookup(before, p)
  {
  }

  /** The entries from `k` on wait in temporary files of their own. */
  ghost predicate StagedFrom(files: Files, entries: Entries, staged: seq<Path>, k: nat)
    requires |staged| == |entries|
  {
    && (forall i | k <= i < |staged| :: staged[i].Temp? && staged[i] in files && files[staged[i]] == entries[i].1)
    && (forall i, j | k <= i < j < |staged| :: staged[i] != staged[j])
  }

  /** Moving the next staged file to its destination leaves the others staged. */
  lemma {:induction false} NextStaged(before: Files, now: Files, entries: Entries, staged: seq<Path>, k: nat)
    requires k < |staged| == |entries| && AllNamed(entries) && StagedFrom(now, entries, staged, k)
    ensures staged[k].Temp? && staged[k] in now && now[staged[k]] == entries[k].1 && entries[k].0.Named?
    ensures var after := (now - {staged[k]})[entries[k].0 := entries[k].1];
            && StagedFrom(after, entries, staged, k + 1)
            && (NoOtherTemps(before, now, staged) ==> NoOtherTemps(before, after, staged))
  {
    var after := (now - {staged[k]})[entries[k].0 := entries[k].1];
    forall i | k < i < |staged| ensures staged[i].Temp? && staged[i] in after && after[staged[i]] == entries[i].1 {
      assert staged[k] != staged[i];
    }
  }

  lemma {:induction false} OneMoreTime(fs: FileSystem, from: nat, to: nat)
    requires from <= to && Faultless(fs, from, to)
    ensures !fs.faults(to) ==> Faultless(fs, from, to + 1)
  {
  }

  lemma {:induction false} NothingFailed(fs: FileSystem, from: nat)
    ensures Faultless(fs, from, from)
  {
  }

  lemma {:induction false} NothingHappened(before: Files, states: seq<Files>, entries: Entries)
    requires |states| == 0
    ensures HistoryOldOrNew(before, states, entries)
  {
  }

  lemma {:induction false} HistoryOneMore(before: Files, states: seq<Files>, next: Files, entries: Entries)
    requires HistoryOldOrNew(before, states, entries) && OldOrNew(before, next, entries)
    ensures HistoryOldOrNew(before, states + [next], entries)
  {
    hide OldOrNew;
  }

  /** Replaces the destinations one by one; stops at the first failure. */
  method PublishAll(fs: FileSystem, entries: Entries, staged: seq<Path>, ghost before: Files)
    returns (ok: bool, published: nat)
    requires fs.Valid() && AllNamed(entries) && |staged| == |entries|
    requires NamedAs(before, fs.files, entries, 0) && NoOtherTemps(before, fs.files, staged)
    requires StagedFrom(fs.files, entries, staged, 0)
    modifies fs`files, fs`clock, fs`history
    ensures fs.Valid() && published <= |entries|
    ensures ok <==> published == |entries|
    ensures if ok then Faultless(fs, old(fs.clock), fs.clock) && fs.clock == old(fs.clock) + |entries|
            else JustFailed(fs, old(fs.clock), fs.clock) && fs.clock <= old(fs.clock) + |entries|
    ensures NamedAs(before, fs.files, entries, published)
    ensures NoOtherTemps(before, fs.files, staged)
    ensures |old(fs.history)| <= |fs.history| && fs.history[..|old(fs.history)|] == old(fs.history)
    ensures HistoryOldOrNew(before, fs.history[|old(fs.history)|..], entries)
  {
    hide NamedAs, OldOrNew, PublishedAt, HistoryOldOrNew, NoOtherTemps, StagedFrom, Faultless;
    NothingFailed(fs, fs.clock);
    NothingHappened(before, fs.history[|fs.history|..], entries);
    ghost var past, begun := fs.history, fs.clock;
    published := 0;
    while published < |entries|
      invariant fs.Valid() && 0 <= published <= |entries|
      invariant Faultless(fs, begun, fs.clock) && fs.clock == begun + published
      invariant NamedAs(before, fs.files, entries, published)
      invariant NoOtherTemps(before, fs.files, staged)
      invariant StagedFrom(fs.files, entries, staged, published)
      invariant |past| <= |fs.history| && fs.history[..|past|] == past
      invariant HistoryOldOrNew(before, fs.history[|past|..], entries)
    {
      ghost var now, middle := fs.files, fs.history;
      NextStaged(before, now, entries, staged, published);
      var replaced := fs.Replace(staged[published], entries[published].0);
      assert fs.history[|past|..] == middle[|past|..] + [fs.files];
      NamedAsIsOldOrNew(before, now, entries, published);
      OneMoreTime(fs, begun, fs.clock - 1);
      if replaced { ReplacedOneMore(before, now, fs.files, entries, published, staged[published]); }
      NamedAsIsOldOrNew(before, fs.files, entries, if replaced then published + 1 else published);
      HistoryOneMore(before, middle[|past|..], fs.files, entries);
      if !replaced { return false, published; }
      published := published + 1;
    }
    ok := true;
  }

  /** Named files once the entries from `k` on are restored. */
  ghost predicate RestoredFrom(before: Files, after: Files, entries: Entries, k: nat, j: nat)
    requires k <= j <= |entries|
  {
    forall p: Path | p.Named? ::
      Lookup(after, p) ==
      if IsDestination(entries, k, j, p) then Lookup(before, p) else PublishedAt(entries, j, Lookup(before, p), p)
  }

  lemma {:induction false} RestoredOneMore(before: Files, now: Files, after: Files, entries: Entries, k: nat, j: nat)
    requires k < j <= |entries| && RestoredFrom(before, now, entries, k + 1, j)
    requires forall p: Path | p.Named? ::
               Lookup(after, p) == if p == entries[k].0 then Lookup(before, p) else Lookup(now, p)
    ensures RestoredFrom(before, after, entries, k, j)
  {
    forall p: Path | p.Named?
      ensures Lookup(after, p) ==
              if IsDestination(entries, k, j, p) then Lookup(before, p)
                else PublishedAt(entries, j, Lookup(before, p), p)
    {
      assert IsDestination(entries, k, j, p) <==> p == entries[k].0 || IsDestination(entries, k + 1, j, p) by {
        if p == entries[k].0 { assert entries[k].0 == p; }
      }
    }
  }

  /** Puts one destination back: removed when it was absent, replaced otherwise. */
  method RestoreOne(fs: FileSystem, path: Path, original: Option<Content>) returns (ok: bool)
    requires fs.Valid() && path.Named?
    modifies fs`files, fs`nextTemp, fs`clock, fs`history
    ensures fs.Valid()
    ensures forall p: Path | p.Named? && p != path :: Lookup(fs.files, p) == Lookup(old(fs.files), p)
    ensures Lookup(fs.files, path) == original || Lookup(fs.files, path) == Lookup(old(fs.files), path)
    ensures ok ==> Lookup(fs.files, path) == original
    ensures fs.clock > old(fs.clock)
    ensures !ok ==> exists t | old(fs.clock) <= t < fs.clock :: fs.faults(t) || fs.unlinkFaults(t)
    ensures (forall t :: !fs.unlinkFaults(t)) ==> NoOtherTemps(old(fs.files), fs.files, [])
    ensures |old(fs.history)| <= |fs.history| && fs.history[..|old(fs.history)|] == old(fs.history)
    ensures forall h | h in fs.history[|old(fs.history)|..] ::
              && (forall p: Path | p.Named? && p != path :: Lookup(h, p) == Lookup(old(fs.files), p))
              && (Lookup(h, path) == original || Lookup(h, path) == Lookup(old(fs.files), path))
  {
    if original.None? {
      ok := fs.Unlink(path);
      return;
    }
    ghost var before := fs.files;
    var temp := fs.Stage(original.value);
    forall h | h in fs.history[|old(fs.history)|..], p: Path | p.Named? ensures Lookup(h, p) == Lookup(before, p) {
      if p in before || p in h { assert OnlyTempsDiffer(before, h); }
    }
    if temp.None? { return false; }
    ok := fs.Replace(temp.value, path);
    var removed := fs.Unlink(temp.value);
    ok := ok && removed;
  }

  method Rollback(fs: FileSystem, entries: Entries, originals: seq<Option<Content>>, published: nat,
                  ghost before: Files)
    returns (ok: bool)
    requires fs.Valid() && AllNamed(entries) && published <= |entries| == |originals|
    requires NamedAs(before, fs.files, entries, published)
    requires forall i | 0 <= i < |entries| :: originals[i] == Lookup(before, entries[i].0)
    modifies fs`files, fs`nextTemp, fs`clock, fs`history
    ensures fs.Valid()
    ensures ok ==> NamedAs(before, fs.files, entries, 0)
    ensures !ok ==> exists t | old(fs.clock) <= t :: fs.faults(t) || fs.unlinkFaults(t)
    ensures OldOrNew(before, fs.files, entries)
    ensures (forall t :: !fs.unlinkFaults(t)) ==> NoOtherTemps(old(fs.files), fs.files, [])
    ensures |old(fs.history)| <= |fs.history| && fs.history[..|old(fs.history)|] == old(fs.history)
    ensures HistoryOldOrNew(before, fs.history[|old(fs.history)|..], entries)
  {
    ghost var past, start, begun := fs.history, fs.files, fs.clock;
    NamedAsIsOldOrNew(before, fs.files, entries, published);
    ok := true;
    var k := published;
    while k > 0
      invariant fs.Valid() && 0 <= k <= published
      invariant ok ==> RestoredFrom(before, fs.files, entries, k, published)
      invariant fs.clock >= begun && (!ok ==> exists t | begun <= t :: fs.faults(t) || fs.unlinkFaults(t))
      invariant OldOrNew(before, fs.files, entries)
      invariant (forall t :: !fs.unlinkFaults(t)) ==> NoOtherTemps(start, fs.files, [])
      invariant |past| <= |fs.history| && fs.history[..|past|] == past
      invariant HistoryOldOrNew(before, fs.history[|past|..], entries)
    {
      k := k - 1;
      ghost var now, middle := fs.files, fs.history;
      var restored := RestoreOne(fs, entries[k].0, originals[k]);
      assert fs.history[|past|..] == middle[|past|..] + fs.history[|middle|..];
      forall h | h in fs.history[|middle|..] || h == fs.files ensures OldOrNew(before, h, entries) {
        OneRestored(before, now, h, entries, entries[k].0);
      }
      if ok && restored {
        RestoredOneMore(before, now, fs.files, entries, k, published);
      }
      ok := ok && restored;
    }
    if ok {
      forall p: Path | p.Named? ensures Lookup(fs.files, p) == Lookup(before, p) {
        if !IsDestination(entries, 0, published, p) {
          NotPublished(entries, published, Lookup(before, p), p);
        }
      }
    }
  }

  lemma {:induction false} OneRestored(before: Files, now: Files, after: Files, entries: Entries, path: Path)
    requires OldOrNew(before, now, entries)
    requires forall p: Path | p.Named? && p != path :: Lookup(after, p) == Lookup(now, p)
    requires Lookup(after, path) == Lookup(before, path) || Lookup(after, path) == Lookup(now, path)
    ensures OldOrNew(before, after, entries)
  {
    forall p: Path | p.Named?
      ensures Lookup(after, p) == Lookup(before, p)
              || exists i | 0 <= i < |entries| :: entries[i].0 == p && Lookup(after, p) == Some(entries[i].1)
    {
      if Lookup(after, p) != Lookup(before, p) {
        assert Lookup(after, p) == Lookup(now, p);
      }
    }
  }

  /** Removes what is left of the temporary files; failures to do so are ignored. */
  method RemoveTemps(fs: FileSystem, staged: seq<Path>, ghost before: Files, ghost entries: Entries)
    requires fs.Valid() && forall i | 0 <= i < |staged| :: staged[i].Temp?
    requires OldOrNew(before, fs.files, entries)
    modifies fs`files, fs`clock, fs`history
    ensures fs.Valid()
    ensures forall p: Path | p.Named? :: Lookup(fs.files, p) == Lookup(old(fs.files), p)
    ensures (forall t :: !fs.unlinkFaults(t)) ==>
              forall p: Path | p in fs.files :: p in old(fs.files) && p !in staged
    ensures |old(fs.history)| <= |fs.history| && fs.history[..|old(fs.history)|] == old(fs.history)
    ensures HistoryOldOrNew(before, fs.history[|old(fs.history)|..], entries)
  {
    ghost var past, start := fs.history, fs.files;
    for i := 0 to |staged|
      invariant fs.Valid()
      invariant forall p: Path | p.Named? :: Lookup(fs.files, p) == Lookup(start, p)
      invariant (forall t :: !fs.unlinkFaults(t)) ==> forall p: Path | p in fs.files :: p in start && p !in staged[..i]
      invariant |past| <= |fs.history| && fs.history[..|past|] == past
      invariant HistoryOldOrNew(before, fs.history[|past|..], entries)
    {
      ghost var middle := fs.history;
      var _ := fs.Unlink(staged[i]);
      assert fs.history[|past|..] == middle[|past|..] + [fs.files];
      assert staged[..i+1] == staged[..i] + [staged[i]];
      SameNamesOldOrNew(before, start, fs.files, entries);
    }
    assert staged[..|staged|] == staged;
  }

  lemma {:induction false} SameNamesOldOrNew(before: Files, now: Files, after: Files, entries: Entries)
    requires OldOrNew(before, now, entries)
    requires forall p: Path | p.Named? :: Lookup(after, p) == Lookup(now, p)
    ensures OldOrNew(before, after, entries)
  {
    forall p: Path | p.Named?
      ensures Lookup(after, p) == Lookup(before, p)
              || exists i | 0 <= i < |entries| :: entries[i].0 == p && Lookup(after, p) == Some(entries[i].1)
    {
      assert Lookup(after, p) == Lookup(now, p);
    }
  }

  /** All destinations get their new content exactly when none of the reads, stagings and
      replacements fails; otherwise all of them are exactly as before, unless a second failure
      hits the rollback.  Nothing else changes, no temporary file stays unless removing one
      fails, and a kill at any point leaves each destination old or new. */
  method WriteAtomic(fs: FileSystem, entries: Entries) returns (outcome: Outcome)
    requires fs.Valid() && AllNamed(entries)
    modifies fs`files, fs`nextTemp, fs`clock, fs`history
    ensures fs.Valid()
    ensures outcome == Published <==> Faultless(fs, old(fs.clock), old(fs.clock) + 3 * |entries|)
    ensures outcome == RollbackFailed ==>
              exists t, u | old(fs.clock) <= t < u :: fs.faults(t) && (fs.faults(u) || fs.unlinkFaults(u))
    ensures outcome == Published ==> NamedAs(old(fs.files), fs.files, entries, |entries|)
    ensures outcome == RolledBack ==> forall p: Path | p.Named? :: Lookup(fs.files, p) == Lookup(old(fs.files), p)
    ensures OldOrNew(old(fs.files), fs.files, entries)
    ensures (forall t :: !fs.unlinkFaults(t)) ==> NoOtherTemps(old(fs.files), fs.files, [])
    ensures |old(fs.history)| <= |fs.history| && fs.history[..|old(fs.history)|] == old(fs.history)
    ensures HistoryOldOrNew(old(fs.files), fs.history[|old(fs.history)|..], entries)
  {
    hide NamedAs, OldOrNew, PublishedAt;
    ghost var before, past := fs.files, fs.history;
    var ok, staged, originals := StageAll(fs, entries);
    ghost var h1 := fs.history;
    NamedAsIsOldOrNew(before, fs.files, entries, 0);
    outcome := RolledBack;
    ghost var reached := 0;
    if ok {
      var published;
      ok, published := PublishAll(fs, entries, staged, before);
      ghost var h2 := fs.history;
      HistoryGrows(past, h1, h2);
      NamedAsIsOldOrNew(before, fs.files, entries, published);
      if ok {
        outcome := Published;
        reached := published;
      } else {
        var restored := Rollback(fs, entries, originals, published, before);
        HistoryGrows(past, h2, fs.history);
        outcome := if restored then RolledBack else RollbackFailed;
      }
    }
    ghost var h3, now := fs.history, fs.files;
    RemoveTemps(fs, staged, before, entries);
    SameNamesOldOrNew(before, now, fs.files, entries);
    HistoryGrows(past, h3, fs.history);
    if outcome != RollbackFailed {
      NamedAsKept(before, now, fs.files, entries, reached);
    }
  }

  lemma {:induction false} HistoryGrows(past: seq<Files>, middle: seq<Files>, now: seq<Files>)
    requires |past| <= |middle| <= |now| && middle[..|past|] == past && now[..|middle|] == middle
    ensures now[..|past|] == past
    ensures now[|past|..] == middle[|past|..] + now[|middle|..]
  {
    assert now == middle + now[|middle|..];
  }

  function TripletEntries(at: Layout, digest: Digest, r: Result): Entries {
    [(at(Metrics), Json(Stamped(digest, r, Metrics))),
     (at(Summary), Json(Stamped(digest, r, Summary))),
     (at(Hotspots), Json(Stamped(digest, r, Hotspots)))]
  }

  predicate DistinctFiles(at: Layout) {
    && at(Metrics).Named? && at(Summary).Named? && at(Hotspots).Named?
    && at(Metrics) != at(Summary) && at(Summary) != at(Hotspots) && at(Metrics) != at(Hotspots)
  }

  lemma {:induction false} OldOrNewIsInPart(before: Files, after: Files, at: Layout, digest: Digest, r: Result)
    requires DistinctFiles(at) && OldOrNew(before, after, TripletEntries(at, digest, r))
    ensures PublishedInPart(before, after, at, digest, r)
  {
    forall k: Kind
      ensures Lookup(after, at(k)) == Lookup(before, at(k)) || Lookup(after, at(k)) == Some(Json(Stamped(digest, r, k)))
    {
      var p := at(k);
      match k { case Metrics => case Summary => case Hotspots => }
      assert Lookup(after, p) == Lookup(before, p)
             || exists i | 0 <= i < 3 :: TripletEntries(at, digest, r)[i].0 == p
                                         && Lookup(after, p) == Some(TripletEntries(at, digest, r)[i].1);
    }
  }

  /** Publishing one step result: whatever happens, every state on the way is a partial
      publication in the sense of the reader's guarantee, and success stores all three. */
  method PublishStepResult(fs: FileSystem, at: Layout, digest: Digest, r: Result) returns (outcome: Outcome)
    requires fs.Valid() && DistinctFiles(at)
    modifies fs`files, fs`nextTemp, fs`clock, fs`history
    ensures fs.Valid()
    ensures |old(fs.history)| <= |fs.history|
    ensures forall h | h in fs.history[|old(fs.history)|..] :: PublishedInPart(old(fs.files), h, at, digest, r)
    ensures PublishedInPart(old(fs.files), fs.files, at, digest, r)
    ensures outcome == Published <==> Faultless(fs, old(fs.clock), old(fs.clock) + 9)
    ensures outcome == RollbackFailed ==>
              exists t, u | old(fs.clock) <= t < u :: fs.faults(t) && (fs.faults(u) || fs.unlinkFaults(u))
    ensures outcome == Published ==>
              var generation := digest([r.metrics, r.summary, r.hotspots]);
              && Lookup(fs.files, at(Metrics)) == Some(Json(Document(3, r.metrics, generation)))
              && Lookup(fs.files, at(Summary)) == Some(Json(Document(4, r.summary, generation)))
              && Lookup(fs.files, at(Hotspots)) == Some(Json(Document(3, r.hotspots, generation)))
    ensures outcome == RolledBack ==> forall p: Path | p.Named? :: Lookup(fs.files, p) == Lookup(old(fs.files), p)
  {
    ghost var before, past := fs.files, fs.history;
    var entries := TripletEntries(at, digest, r);
    outcome := WriteAtomic(fs, entries);
    forall h | h in fs.history[|past|..] ensures PublishedInPart(before, h, at, digest, r) {
      OldOrNewIsInPart(before, h, at, digest, r);
    }
    OldOrNewIsInPart(before, fs.files, at, digest, r);
    if outcome == Published {
      forall k: Kind ensures Lookup(fs.files, at(k)) == Some(Json(Stamped(digest, r, k))) {
        AllThreePublished(before, at, digest, r, k);
        assert at(k).Named? by { match k { case Metrics => case Summary => case Hotspots => } }
      }
    }
  }

  lemma {:induction false} AllThreePublished(before: Files, at: Layout, digest: Digest, r: Result, k: Kind)
    requires DistinctFiles(at)
    ensures PublishedAt(TripletEntries(at, digest, r), 3, Lookup(before, at(k)), at(k))
        == Some(Json(Stamped(digest, r, k)))
  {
    var entries := TripletEntries(at, digest, r);
    match k {
      case Metrics =>
        assert PublishedAt(entries, 1, Lookup(before, at(k)), at(k)) == Some(entries[0].1);
        assert PublishedAt(entries, 2, Lookup(before, at(k)), at(k)) == Some(entries[0].1);
      case Summary => assert PublishedAt(entries, 2, Lookup(before, at(k)), at(k)) == Some(entries[1].1);
      case Hotspots =>
    }
  }
}
