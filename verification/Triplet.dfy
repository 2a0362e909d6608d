/** The QoR triplet on disk: what a reader accepts, and why it never mixes two results. */
module Triplet {
  import opened Options
  import opened TextCodes

  datatype Kind = Metrics | Summary | Hotspots

  const KINDS: seq<Kind> := [Metrics, Summary, Hotspots]

  /** A payload as it lies on disk, with the generation stamped into all three files. */
  datatype Document = Document(schema: int, body: string, generation: string)

  datatype Content = Json(document: Document) | Garbage

  /** Destinations are named; temporary files get a name nobody else has. */
  datatype Path = Named(name: string) | Temp(id: nat)

  type Files = map<Path, Content>

  function Lookup(files: Files, path: Path): Option<Content> {
    if path in files then Some(files[path]) else None
  }

  function Schema(kind: Kind): int {
    match kind case Metrics => 3 case Summary => 4 case Hotspots => 3
  }

  /** The three payloads of one step result before stamping. */
  datatype Result = Result(metrics: string, summary: string, hotspots: string)

  function Body(r: Result, kind: Kind): string {
    match kind case Metrics => r.metrics case Summary => r.summary case Hotspots => r.hotspots
  }

  type Digest = seq<string> -> string

  function Generation(digest: Digest, r: Result): string {
    digest([r.metrics, r.summary, r.hotspots])
  }

  function Stamped(digest: Digest, r: Result, kind: Kind): Document {
    Document(Schema(kind), Body(r, kind), Generation(digest, r))
  }

  // The reader

  datatype Read =
    | Absent
    | Incomplete
    | InvalidArtifact
    | InvalidSchema
    | GenerationMismatch
    | Accepted(metrics: Document, summary: Document, hotspots: Document)

  /** The files of one step, by kind. */
  type Layout = Kind -> Path

  function ReadArtifacts(files: Files, at: Layout): Read {
    var m, s, h := Lookup(files, at(Metrics)), Lookup(files, at(Summary)), Lookup(files, at(Hotspots));
    if m.None? && s.None? && h.None? then Absent
    else if m.None? || s.None? || h.None? then Incomplete
    else if m.value.Garbage? || s.value.Garbage? || h.value.Garbage? then InvalidArtifact
    else
      var dm, ds, dh := m.value.document, s.value.document, h.value.document;
      if dm.schema != Schema(Metrics) || ds.schema != Schema(Summary) || dh.schema != Schema(Hotspots)
        then InvalidSchema
      else if dm.generation != ds.generation || ds.generation != dh.generation || dm.generation == ""
        then GenerationMismatch
      else Accepted(dm, ds, dh)
  }

  /** The three files are there as documents, of their schemas, and of one nonempty generation. */
  ghost predicate Readable(files: Files, at: Layout, m: Document, s: Document, h: Document) {
    && Lookup(files, at(Metrics)) == Some(Json(m)) && Lookup(files, at(Summary)) == Some(Json(s))
    && Lookup(files, at(Hotspots)) == Some(Json(h))
    && m.schema == 3 && s.schema == 4 && h.schema == 3
    && m.generation == s.generation == h.generation != ""
  }

  /** Exactly when the reader accepts, and otherwise what the error says: an earlier one only
      speaks when all that come before it do not apply. */
  lemma {:induction false} ReaderDecides(files: Files, at: Layout)
    ensures forall m, s, h :: ReadArtifacts(files, at) == Accepted(m, s, h) <==> Readable(files, at, m, s, h)
    ensures ReadArtifacts(files, at) == Absent <==> forall k: Kind :: at(k) !in files
    ensures ReadArtifacts(files, at) == Incomplete <==>
            (exists k: Kind :: at(k) in files) && exists k: Kind :: at(k) !in files
    ensures ReadArtifacts(files, at) == InvalidArtifact <==>
            (forall k: Kind :: at(k) in files) && exists k: Kind :: at(k) in files && files[at(k)].Garbage?
    ensures ReadArtifacts(files, at) == InvalidSchema <==>
            && (forall k: Kind :: at(k) in files && files[at(k)].Json?)
            && exists k: Kind :: at(k) in files && files[at(k)].Json?
                                 && files[at(k)].document.schema != if k == Summary then 4 else 3
  {
    assert at(Metrics) in files || at(Metrics) !in files;
    assert at(Summary) in files || at(Summary) !in files;
    assert at(Hotspots) in files || at(Hotspots) !in files;
    forall k: Kind
      ensures at(k) == match k case Metrics => at(Metrics) case Summary => at(Summary) case Hotspots => at(Hotspots)
    {
    }
  }

  lemma {:induction false} AllKinds()
    ensures forall k: Kind :: k in KINDS
  {
    forall k: Kind ensures k in KINDS {
      match k {
        case Metrics => assert KINDS[0] == k;
        case Summary => assert KINDS[1] == k;
        case Hotspots => assert KINDS[2] == k;
      }
    }
  }

  method ReadQorArtifacts(files: Files, at: Layout) returns (r: Read)
    ensures r == ReadArtifacts(files, at)
  {
    var present: set<Kind> := {};
    for i := 0 to |KINDS|
      invariant present == set k | k in KINDS[..i] && at(k) in files
    {
      assert KINDS[..i+1] == KINDS[..i] + [KINDS[i]];
      if at(KINDS[i]) in files { present := present + {KINDS[i]}; }
    }
    assert KINDS[..|KINDS|] == KINDS;
    AllKinds();
    assert Metrics in present <==> at(Metrics) in files;
    assert Summary in present <==> at(Summary) in files;
    assert Hotspots in present <==> at(Hotspots) in files;
    if present == {} { return Absent; }
    if Metrics !in present || Summary !in present || Hotspots !in present { return Incomplete; }
    var payloads: map<Kind, Document> := map[];
    for i := 0 to |KINDS|
      invariant payloads.Keys == set k | k in KINDS[..i]
      invariant forall k | k in payloads :: files[at(k)] == Json(payloads[k])
    {
      assert KINDS[..i+1] == KINDS[..i] + [KINDS[i]];
      assert KINDS[i] in present;
      if files[at(KINDS[i])].Garbage? { return InvalidArtifact; }
      payloads := payloads[KINDS[i] := files[at(KINDS[i])].document];
    }
    assert forall k: Kind :: k in payloads;
    for i := 0 to |KINDS|
      invariant forall k | k in KINDS[..i] :: payloads[k].schema == Schema(k)
    {
      if payloads[KINDS[i]].schema != Schema(KINDS[i]) { return InvalidSchema; }
    }
    var generations := {payloads[Metrics].generation, payloads[Summary].generation, payloads[Hotspots].generation};
    if generations != {payloads[Metrics].generation} || payloads[Metrics].generation == "" {
      return GenerationMismatch;
    }
    assert payloads[Summary].generation in generations && payloads[Hotspots].generation in generations;
    return Accepted(payloads[Metrics], payloads[Summary], payloads[Hotspots]);
  }

  // No mixed results

  ghost predicate Injective(digest: Digest) {
    forall x, y :: digest(x) == digest(y) ==> x == y
  }

  /** Such digests exist. */
  lemma {:induction false} SomeDigestIsInjective()
    ensures exists digest: Digest :: Injective(digest)
  {
    forall x, y | CodeTexts(x) == CodeTexts(y) ensures x == y {
      TextsReadBack(x, y);
    }
    var digest: Digest := CodeTexts;
    assert Injective(digest);
  }

  function AcceptedResult(digest: Digest, r: Result): Read {
    Accepted(Stamped(digest, r, Metrics), Stamped(digest, r, Summary), Stamped(digest, r, Hotspots))
  }

  /** Every artifact present was stamped for some result, though perhaps a different one each. */
  ghost predicate Written(files: Files, at: Layout, digest: Digest) {
    forall k: Kind :: at(k) in files ==> exists r :: files[at(k)] == Json(Stamped(digest, r, k))
  }

  /** After a complete, failed or killed publication of `r`, each artifact holds what it held
      before or its part of `r`. */
  predicate PublishedInPart(before: Files, after: Files, at: Layout, digest: Digest, r: Result) {
    forall k: Kind ::
      || Lookup(after, at(k)) == Lookup(before, at(k))
      || Lookup(after, at(k)) == Some(Json(Stamped(digest, r, k)))
  }

  /** After a complete or killed clearing, each artifact is as before or gone. */
  predicate ClearedInPart(before: Files, after: Files, at: Layout) {
    forall k: Kind :: Lookup(after, at(k)) == Lookup(before, at(k)) || Lookup(after, at(k)) == None
  }

  lemma {:induction false} SameGenerationSameResult(digest: Digest, r1: Result, r2: Result)
    requires Injective(digest) && Generation(digest, r1) == Generation(digest, r2)
    ensures r1 == r2
  {
    var x, y := [r1.metrics, r1.summary, r1.hotspots], [r2.metrics, r2.summary, r2.hotspots];
    assert x[0] == y[0] && x[1] == y[1] && x[2] == y[2];
  }

  /** With a collision-free digest the reader only accepts three parts of one result. */
  lemma {:induction false} AcceptedIsOneResult(files: Files, at: Layout, digest: Digest) returns (r: Result)
    requires Injective(digest) && Written(files, at, digest)
    requires ReadArtifacts(files, at).Accepted?
    ensures ReadArtifacts(files, at) == AcceptedResult(digest, r)
  {
    var r1 :| files[at(Metrics)] == Json(Stamped(digest, r1, Metrics));
    var r2 :| files[at(Summary)] == Json(Stamped(digest, r2, Summary));
    var r3 :| files[at(Hotspots)] == Json(Stamped(digest, r3, Hotspots));
    SameGenerationSameResult(digest, r1, r2);
    SameGenerationSameResult(digest, r2, r3);
    r := r1;
  }

  lemma {:induction false} WrittenStays(before: Files, after: Files, at: Layout, digest: Digest, r: Result)
    requires Written(before, at, digest)
    requires PublishedInPart(before, after, at, digest, r) || ClearedInPart(before, after, at)
    ensures Written(after, at, digest)
  {
    forall k: Kind | at(k) in after ensures exists r' :: after[at(k)] == Json(Stamped(digest, r', k)) {
      if Lookup(after, at(k)) == Lookup(before, at(k)) {
        var r' :| before[at(k)] == Json(Stamped(digest, r', k));
        assert after[at(k)] == Json(Stamped(digest, r', k));
      } else {
        assert after[at(k)] == Json(Stamped(digest, r, k));
      }
    }
  }

  /** One change of a step's artifacts, however it ended. */
  datatype Change = Publish(result: Result) | Clear

  predicate Changes(before: Files, after: Files, at: Layout, digest: Digest, change: Change) {
    match change
    case Publish(r) => PublishedInPart(before, after, at, digest, r)
    case Clear => ClearedInPart(before, after, at)
  }

  ghost predicate History(states: seq<Files>, changes: seq<Change>, at: Layout, digest: Digest) {
    && |states| == |changes| + 1
    && Written(states[0], at, digest)
    && forall i | 0 <= i < |changes| :: Changes(states[i], states[i+1], at, digest, changes[i])
  }

  lemma {:induction false} HistoryStaysWritten(states: seq<Files>, changes: seq<Change>, at: Layout, digest: Digest,
                                               n: nat)
    requires History(states, changes, at, digest) && n < |states|
    ensures Written(states[n], at, digest)
    decreases n
  {
    if n > 0 {
      HistoryStaysWritten(states, changes, at, digest, n - 1);
      assert Changes(states[n-1], states[n], at, digest, changes[n-1]);
      var r := if changes[n-1].Publish? then changes[n-1].result else Result("", "", "");
      WrittenStays(states[n-1], states[n], at, digest, r);
    }
  }

  /** Over every history of completed, failed and killed publications and clearings, whatever
      the reader accepts is one result, never a mixture. */
  lemma {:induction false} ReaderNeverMixes(states: seq<Files>, changes: seq<Change>, at: Layout, digest: Digest,
                                            n: nat)
    requires Injective(digest) && History(states, changes, at, digest) && n < |states|
    ensures ReadArtifacts(states[n], at).Accepted? ==> exists r ::
        ReadArtifacts(states[n], at) == AcceptedResult(digest, r)
  {
    HistoryStaysWritten(states, changes, at, digest, n);
    if ReadArtifacts(states[n], at).Accepted? {
      var r := AcceptedIsOneResult(states[n], at, digest);
    }
  }

  /** During a publication the reader sees the new result exactly when all three files are in
      place, and otherwise what it saw before or an error. */
  lemma {:induction false} PublicationIsAtomic(before: Files, after: Files, at: Layout, digest: Digest, r: Result)
    requires Injective(digest) && Written(before, at, digest)
    requires PublishedInPart(before, after, at, digest, r)
    ensures ReadArtifacts(after, at) == AcceptedResult(digest, r) <==>
            Generation(digest, r) != "" && forall k: Kind :: Lookup(after, at(k)) == Some(Json(Stamped(digest, r, k)))
    ensures ReadArtifacts(after, at).Accepted? && ReadArtifacts(after, at) != AcceptedResult(digest, r) ==>
              ReadArtifacts(after, at) == ReadArtifacts(before, at)
  {
  }
}
