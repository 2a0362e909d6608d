# FE compiler: verified models of its core

The FE compiler drives an RTL front-end flow (prepare, elaboration, lint, review, simulation)
over a workspace directory.  This Dafny project models the parts whose correctness does not
follow from reading one function, and proves what they promise for all inputs and all runs.

* **Flow engine** (`StepProvenance`, `Flow*`, `EngineFlow`, `WorkspaceService`).  An incremental
  build over an ordered list of steps.  A step has a state, stale marks, a runtime-operation
  marker and a provenance record whose signature chains it to its predecessor.  `Flow` is the
  state machine over memory and disk; every persisted write is one entry of a trace, so that a
  crash leaves any prefix of it.  `EngineFlow` is the class of the original, with its in-place
  updates, proved to compute the state machine.  `FlowHistory` replays arbitrary histories of
  operations, kills and environment changes; `FlowKills` says which kills cost a result its
  files, `FlowRecords` what each operation leaves in every record and directory, `FlowOrigins`
  where every record comes from, and `FlowEnds` and `FlowCompletion` what the
  end that the flow command reports means.  `StepDigests` shows that collision-free digests exist.
* **Framed transport** (`Transport`, `TransportHeaders`).  Content-Length framing with an incremental decoder.
* **SystemVerilog text machines** (`SvConditional`, `SvLists`).  Branch selection for conditional
  compilation, against the recursive meaning in section 22.6 of IEEE 1800-2017; the top-level
  list splitter and the delimiter matcher.
* **File-graph walks** (`Filelists`, `FilelistMeaning`, `FilelistWalks`, `FilelistCache`,
  `LinkArguments`, `LinkModes`, `LinkIdentity`, `LinkDriver`).  The filelist parser and the fingerprint walk that decides whether its cached
  result is current; linker arguments with groups and response files that share one state.
* **QoR triplet and scores** (`Triplet`, `TripletWriter`, `Scores`, `PortContracts`,
  `ReadinessScore`, `ElaborationScore`, `LintScore`, `ReviewScore`, `SimulationScore`).  What
  each score says about the facts behind it stands in `ReadinessMarks`, `ElaborationMarks`,
  `LintMarks`, `ReviewMarks` and `SimulationMarks`; `SimulationRegression` is the record that
  the simulator writes and the score validates.
* **Resource installer** (`Installer`, `ResourceManager`, `InstallSwap`).  Dependencies first,
  cycles detected, and a rename protocol with rollback.

Digests, path resolution, tokenisers, step handlers, compilers, downloads and health checks are
parameters: arbitrary functions, maps or fault plans.  Where a digest must not collide, the
theorem says so.  `Options`, `Texts`, `TextCodes`, `SortedNames` and `Collections` are helpers.

Five statements one would expect are not true of the code.  The model keeps the code, proves
exactly when each holds, and gives a concrete input that shows the failure.

* A returned success of `run_all` does not always mean that every step is a success.  It does
  if and only if no turn's refresh finds a stale step before its own
  (`FlowRuns.SuccessNeedsUndisturbedRun`).  There are two ways to fail: the environment changes
  during the run (`FlowRuns.ChangedSourcesBreakSuccess`); or, also in a stable environment,
  results recorded before provenance existed become stale when a later step is first recorded
  (`FlowRuns.ReturnedSuccess`; shown by `FlowRuns.LegacyRunReturnsSuccess`).
* A completed flow command does not always mean that every step is a success: the automatic
  prepare refresh stales steps that the command does not return to, and `--from` may start
  behind steps that are unfinished or stale (`FlowEnds.CompletedMeansSuccess`, and in a stable
  environment `FlowCompletion.CompletedFromStep`; shown by `FlowEnds.CompletedWithoutReview`).
* A success does not always have its QoR triplet after a kill: clearing the states, refreshing,
  staling what is downstream and starting a step all remove files before they persist the new
  state (`FlowKills.KillsLoseTriplets`; shown by `FlowTriplets.KilledClearLosesTriplet` for a
  flow without provenance and by `FlowKills.KilledRerunLosesTriplet` for a wholly current one).
* An equal input fingerprint does not always mean equal inputs: some lines are read differently
  by the parser and the fingerprint walk, and a file may contain the text that marks unreadable
  files (`FilelistCache.EntriesDecideParse`; shown by `FilelistCache.MarkerContentCollides`).
* A failed installation does not always restore the earlier tree
  (`InstallSwap.Slot.InstallOne`; shown by `InstallSwap.InstallLosesEarlierTree`).

## Model

| member | source | states |
|---|---|---|
| `StepProvenance.SignatureIdentifiesFacts` | fecompiler/engine/provenance.py:64-104 | With a collision-free digest two signatures are equal if and only if step, tool and source inputs are equal; every configuration key of the step has the same value or none, where the workspace record wins over the parameters file; the recorded resource versions are the same, none counting as an empty object; the step's tool files are the same; and so are step, signature and output of the upstream result, none counting as three empty texts. |
| `StepDigests.SomeDigestIsInjective` | fecompiler/engine/provenance.py:122-124 | There is a digest of JSON values into texts that never collides, so what is said of such digests is said of something. |
| `StepProvenance.ConfigurationAgrees` | fecompiler/engine/provenance.py:138-153 | Two environments give a step the same configuration if and only if they agree, on presence and value, on every key that is listed for the step, and on no other. |
| `StepProvenance.FingerprintsIdentifyFacts` | fecompiler/engine/provenance.py:64-104 | A new record names its step and tool and has no output; with a collision-free digest its input, configuration and tool fingerprints stand for exactly the facts of their kinds. |
| `FlowTheorems.RefreshEstablishesCurrency` | fecompiler/engine/flow.py:98-139 | After a refresh in any environment either no step has provenance or every success has one, every recorded signature is the one recomputed from that step's upstream, and a second refresh changes nothing in memory or on disk. |
| `FlowTheorems.CurrentMeansNoneStale` | fecompiler/engine/flow.py:98-139 | The refresh finds nothing stale if and only if the flow is current. |
| `FlowTheorems.SkippedResultIsCurrent` | fecompiler/engine/flow.py:276-293 | A run that skips the handler, from any state and in any environment, leaves a wholly current flow; in a tracked flow the skipped result carries today's signature. |
| `FlowTheorems.SkippedResultHasTodaysFacts` | fecompiler/engine/flow.py:276-293 | With a collision-free digest, whatever environment and upstream result produced the skipped result's signature agree with today's. |
| `FlowOrigins.RecordsHaveOrigins` | fecompiler/engine/flow.py:314-322 | Over every history from an untracked flow, each persisted record is the one that a turn of the history leaves behind when its handler succeeds. |
| `FlowOrigins.SkipRepeatsExecution` | fecompiler/engine/flow.py:276-293 | Over every such history a skipped step of a tracked flow keeps the record of a turn that succeeded at this step with exactly today's facts and the same upstream result. |
| `FlowTheorems.RunStepEffect` | fecompiler/engine/flow.py:276-354 | A step runs if and only if it is forced or not a refreshed success; then upstream stays, downstream loses success and provenance, and the step is a success signed for its upstream if and only if its handler succeeded. |
| `FlowTheorems.ForceStepEffect` | fecompiler/engine/flow.py:295-354 | The same for the part of a run behind the skip decision. |
| `FlowRecords.RefreshRecords` | fecompiler/engine/flow.py:98-139 | A refresh gives the first stale step the reason that its facts changed and every later one the reason that it is behind a stale step, takes their results and files, except from running ones, and leaves everything before alone. |
| `FlowRecords.ReasonNamesChanges` | fecompiler/engine/flow.py:474-483 | The reason names exactly the fingerprints that differ. |
| `FlowRecords.ExecutedRecords` | fecompiler/engine/flow.py:295-354 | An executed step has exactly the state, time, record and files of its handler's outcome, and no mark or marker; downstream steps are staled with their files; upstream ones keep record and files; and all of it is persisted. |
| `FlowRecords.RunStepIsRefreshThenExecution` | fecompiler/engine/flow.py:276-295 | A run is the refresh, and behind it the execution unless the step is a refreshed success that is not forced. |
| `FlowRecords.ClearedRecords` | fecompiler/engine/flow.py:88-96 | Cleared states are those of a new flow, without results, marks, markers and files. |
| `FlowRuns.RunAllExecutesOneBlock` | fecompiler/engine/flow.py:258-274 | With every success recorded and a stable environment a run executes one contiguous block: from the first non-current step to the first failure or the end; it returns success exactly when none failed, and then the flow is wholly current. |
| `FlowRuns.CurrentFlowRunsNothing` | fecompiler/engine/flow.py:258-274 | Running a wholly current flow executes nothing and writes nothing. |
| `FlowRuns.RerunExecutesEverything` | fecompiler/engine/flow.py:258-274 | A rerun executes every handler up to the first failure, whatever was recorded and however the environment changes, and returns success exactly when none failed. |
| `FlowRuns.RerunLeavesCurrentFlow` | fecompiler/engine/flow.py:258-274 | In a stable environment a successful rerun also leaves a wholly current flow. |
| `FlowRuns.SuccessNeedsUndisturbedRun` | fecompiler/engine/flow.py:258-293 | Whatever the environment does during the run, a returned success means that every step is a success if and only if no turn's refresh finds a stale step before its own. |
| `FlowRuns.ChangedSourcesBreakSuccess` | fecompiler/engine/flow.py:258-293 | The sources change between the two turns of a run whose first step is tracked and current: the run returns success and the first step is not a success. |
| `FlowRuns.ReturnedSuccess` | fecompiler/engine/flow.py:103-126 | In a stable environment, after a returned success every step is a success if and only if there was no untracked success prefix followed by an unfinished step before the last one; an immediate second run executes nothing if and only if there was no such prefix at all. |
| `FlowRuns.LegacyPrefixBreaks` | fecompiler/engine/flow.py:103-126 | In a stable environment, with such a prefix the second run always executes something. |
| `FlowRuns.LegacyRunReturnsSuccess` | fecompiler/engine/flow.py:103-126 | Three untracked steps, the first a success: the run returns success and leaves unfinished steps. |
| `FlowRuns.RunStepPromotesOnlyItself` | fecompiler/engine/flow.py:276-354 | Running one step never makes another one a success. |
| `FlowService.FromExecutesEveryStep` | fecompiler/application/workspace_service.py:733-782 | `--from s` executes s and every later step up to the first failure, with at most one prepare refresh in front, from any state and in any sequence of environments. |
| `FlowService.SelectedStepsRun` | fecompiler/application/workspace_service.py:733-782 | Once one step of the loop must run, all later ones run too. |
| `FlowEnds.FromReportsFirstFailure` | fecompiler/application/workspace_service.py:733-782 | `--from s` reports the end of the first turn from s on that does not succeed, of its automatic prepare refresh or of the step itself, and completion if and only if there is none. |
| `FlowEnds.EndsComeFromTurns` | fecompiler/application/workspace_service.py:733-782 | Also without `--from`, a reported failure names a step whose own handler did not succeed, or comes from a prepare refresh whose handler did not. |
| `FlowEnds.CompletedMeansSuccess` | fecompiler/application/workspace_service.py:733-782 | From any state and in any environments, a completed command leaves every step a success if and only if, turn by turn, the steps before the turn's own are successes, no refresh finds one of them stale, and a due prepare refresh has no other step between prepare and the turn's own. |
| `FlowCompletion.CompletedFromStep` | fecompiler/application/workspace_service.py:733-782 | In a stable environment a completed `--from s` leaves every step a success if and only if, before it runs, the steps before s are successes (prepare aside, if it is rerun first), none is stale, they have records unless s is the last step and runs alone, and a due prepare refresh comes with no other step between prepare and the one in front of which it runs. |
| `FlowCompletion.CompletedFlow` | fecompiler/application/workspace_service.py:701-782 | Without `--from`, when every success has a record or all states are cleared first, if and only if a due prepare refresh leaves no such gap. |
| `FlowEnds.CompletedWithoutReview` | fecompiler/application/workspace_service.py:891-917 | The third of three steps is selected and prepare is out of date: the command completes and the second step is not a success. |
| `FlowDetails.CommandRemovesDetails` | fecompiler/application/workspace_service.py:701-737 | Before the command runs anything, the selected steps lose their frontend snapshots, and with `--rerun` all files of all steps; nothing else changes. |
| `FlowDetails.TurnWritesDetail` | fecompiler/application/workspace_service.py:738-782 | A turn that gets to its step leaves the files of that run and, if it could be written, the snapshot, also when the step failed; an interrupted one leaves no snapshot. |
| `FlowCrash.ExecuteSafe` | fecompiler/engine/flow.py:295-354 | Executing a running step keeps every persisted disk free of unstarted steps with QoR files, touches no other step's files, and leaves the full triplet when it succeeds. |
| `FlowCrash.RunStepSafe` | fecompiler/engine/flow.py:276-354 | Running a step keeps every persisted disk on the way free of unstarted steps with QoR files. |
| `FlowHistory.PerformSafe` | fecompiler/application/workspace_service.py:701-808 | Every engine operation and the flow command keep every persisted disk on the way free of unstarted steps with QoR files. |
| `FlowHistory.UnstartedStepsHaveNoQor` | fecompiler/engine/flow.py:408-441 | Over every history of operations, each completed or killed after any write, a step persisted as unstarted has no QoR file. |
| `FlowRecovery.RecoverEffect` | fecompiler/runtime/recovery.py:12-54 | Recovery interrupts exactly the running steps whose marker, if it is a runtime's, names an operation that is not active and is the requested one, or that have no such marker when none is requested; it removes their QoR files, leaves all other steps and files alone, and a repeat recovers nothing. |
| `FlowRecovery.OnlyActiveStepsKeepRunning` | fecompiler/runtime/recovery.py:57-73 | After an unfiltered recovery every step still running carries a runtime's marker of an active operation. |
| `FlowRecovery.ClearOngoingIsFullRecovery` | fecompiler/engine/flow.py:141-158 | Clearing stale running states is recovery without any active operation, write by write. |
| `FlowTriplets.SuccessesHaveTriplets` | fecompiler/engine/flow.py:295-364 | In every history without kills each success has its full triplet. |
| `FlowTriplets.KilledClearLosesTriplet` | fecompiler/engine/flow.py:88-96 | In a one-step flow without provenance, one kill inside the clearing of states leaves a success without a triplet that later runs skip. |
| `FlowKills.KillsLoseTriplets` | fecompiler/engine/flow.py:408-441 | From a disk whose successes have their triplets, an operation killed after any number of writes leaves such a disk if and only if the kill is not between the removal of a persisted success's files and the write of its new state; the condition is computed from the flow and the number of writes, for every operation. |
| `FlowKills.KilledClears` | fecompiler/engine/flow.py:88-96 | For clearing the states: if and only if all writes are done or no step whose removal has begun is a success. |
| `FlowKills.KilledRefreshes` | fecompiler/engine/flow.py:98-139 | For a refresh: if and only if it has not begun or is complete. |
| `FlowKills.StartedStepLosesNothing` | fecompiler/engine/flow.py:295-354 | Once a step's running state is persisted, no kill of its execution costs a triplet. |
| `FlowKills.HarmlessHistoriesKeepTriplets` | fecompiler/engine/flow.py:295-364 | Over every history with such kills only, each success has its full triplet. |
| `FlowKills.KilledRerunLosesTriplet` | fecompiler/engine/flow.py:396-406 | In a wholly current flow of two tracked steps, a kill after the first write of a rerun leaves a success without a triplet, and the next run executes nothing and returns success. |
| `EngineFlowClass.EngineFlow.MarkStepStale` | fecompiler/engine/flow.py:408-436 | Marking one record in place, with its files cleared, is the machine's marking, and reports exactly whether the record changed. |
| `EngineFlowClass.EngineFlow.RefreshStaleStates` | fecompiler/engine/flow.py:98-139 | The one-pass loop that carries the upstream record along computes the refresh that asks every step on its own, and reports exactly whether anything changed. |
| `EngineFlowClass.EngineFlow.FindUpstreamProvenance` | fecompiler/engine/flow.py:385-394 | The search by name finds the record of the predecessor, if that is a success. |
| `EngineFlowClass.EngineFlow.MarkDownstreamStale` | fecompiler/engine/flow.py:396-406 | The loop by name stales exactly the steps behind the named one. |
| `EngineFlowClass.EngineFlow.ExecuteHandler` | fecompiler/engine/flow.py:309-354 | Success, failure and interruption leave the states, files and writes of the machine. |
| `EngineFlowClass.EngineFlow.RunStep` | fecompiler/engine/flow.py:276-354 | The method computes the machine's run of the step found by name; an unknown name changes nothing. |
| `EngineFlowClass.EngineFlow.RunAll` | fecompiler/engine/flow.py:258-274 | The loop computes the machine's run of all steps. |
| `EngineFlowClass.EngineFlow.ClearStates` | fecompiler/engine/flow.py:88-96 | The loop clears every record and file as the machine does. |
| `EngineFlowClass.EngineFlow.ClearStaleOngoingStates` | fecompiler/engine/flow.py:141-158 | The loop interrupts every running record as the machine does. |
| `EngineFlowClass.EngineFlow.RecoverInterrupted` | fecompiler/runtime/recovery.py:12-54 | The loop computes the machine's recovery and reports exactly the steps it recovered, in flow order, with their operations. |
| `WorkspaceService.RefreshPrepareIfStale` | fecompiler/application/workspace_service.py:891-917 | Prepare is rerun exactly when the step is another one, the inputs are stale and the flow has a prepare step. |
| `WorkspaceService.RunFlowCommand` | fecompiler/application/workspace_service.py:701-808 | The command loop computes the machine's selected run; an unknown `--from` step is reported and changes nothing. |
| `Transport.ChunksDoNotMatter` | fecompiler/runtime/transport.py:21-38 | Two ways of cutting the same bytes raise the same error or none; if none, they deliver the same messages and leave the same buffer. |
| `Transport.SessionConservesBytes` | fecompiler/runtime/transport.py:21-38 | Fed bytes equal the consumed frames followed by the buffer, and each message ends its frame. |
| `Transport.RoundTrip` | fecompiler/runtime/transport.py:11-63 | Encoding payloads and feeding the bytes in any chunks gives back the payloads and an empty buffer if and only if every payload is within the limit; otherwise the size error is raised. |
| `Transport.DrainEncoded` | fecompiler/runtime/transport.py:11-38 | Whole frames followed by a part of another give the whole payloads and leave exactly the part. |
| `Transport.IncompleteFrameWaits` | fecompiler/runtime/transport.py:21-38 | A frame that is not complete is never misread, whatever its payload contains. |
| `Transport.HeaderIsParsed` | fecompiler/runtime/transport.py:40-63 | Parsing a printed header gives back the length. |
| `TransportHeaders.HeaderMeans` | fecompiler/runtime/transport.py:40-63 | For every header: a nonempty line without a colon is an error before all others; otherwise there must be exactly one Content-Length line, in any case of letters; its value must be a number, not negative and within the limit, and is the length. |
| `TransportHeaders.LinesOfHeader` | fecompiler/runtime/transport.py:40-46 | A header is split at its line breaks and nowhere else. |
| `TransportHeaders.IntegersMean` | fecompiler/runtime/transport.py:53-56 | A number is an optional sign and digits, with single underscores between digits, and has their decimal value. |
| `Transport.ContentLengthDecoder.Feed` | fecompiler/runtime/transport.py:21-38 | The loop over the mutable buffer delivers, keeps and raises what draining the old buffer with the new bytes means. |
| `Transport.ContentLengthDecoder.ParseContentLength` | fecompiler/runtime/transport.py:40-63 | The accumulating loop computes the header specification, each error in its order. |
| `SvConditional.ApplyConditionalDirectives` | fecompiler/tools/common/sv_module.py:139-189 | The loop over lines with its stack of frames computes the run of the stack machine. |
| `SvConditional.EveryTextIsSelected` | fecompiler/tools/common/sv_module.py:139-189 | For every text, also one with stray or missing closing lines, output and macros are the recursive selection of the document it denotes: at most one branch of a chain, nothing under an inactive parent. |
| `SvConditional.ParseInvertsPrint` | fecompiler/tools/common/sv_module.py:139-189 | A well-nested document printed as lines denotes itself. |
| `SvConditional.MachineRefinesSelection` | fecompiler/tools/common/sv_module.py:139-189 | On the lines of every well-nested document the machine emits exactly the recursive selection and ends with its macros. |
| `SvLists.SplitTopLevelList` | fecompiler/tools/common/sv_module.py:239-249 | The loop over three depth counters computes the specified parts. |
| `SvLists.JoinInvertsSplit` | fecompiler/tools/common/sv_module.py:239-249 | Joining the parts with commas gives back every text. |
| `SvLists.SplitInvertsJoin` | fecompiler/tools/common/sv_module.py:239-249 | Splitting the comma-join of items gives the items if and only if none has a top-level comma and every item with a successor closes what it opens. |
| `SvLists.NestedItemsSurvive` | fecompiler/tools/common/sv_module.py:239-249 | In particular properly nested items without top-level commas come back. |
| `SvLists.MatchingDelimiter` | fecompiler/tools/common/sv_module.py:252-267 | Started on an opening character the loop returns the one index that closes it, or nothing when there is none. |
| `SvLists.ClosedOnce` | fecompiler/tools/common/sv_module.py:252-267 | At most one index closes a delimiter. |
| `FilelistWalks.ParseSvFilelist` | fecompiler/tools/prepare/runner.py:580-657 | The recursive parser with its shared visited set computes the specified inputs, visited files and errors, and terminates on cyclic filelists. |
| `FilelistWalks.FingerprintWalk.Visit` | fecompiler/tools/common/rtl_inputs.py:60-94 | The walk with its shared visited set and file list computes the specified files, and terminates on cyclic filelists. |
| `FilelistMeaning.ParseHoldsStream` | fecompiler/tools/prepare/runner.py:580-657 | Take the lines of all opened files as one stream, nested lists in the place of their first reference: the parse fails with the first error of the stream, and otherwise holds, in order, exactly the sources, include directories and defines that its lines name. |
| `FilelistMeaning.EntryNames` | fecompiler/tools/prepare/runner.py:599-650 | Each line names what its text says: a nested list behind -f or -F, a list of defines or include directories, a source, or nothing. |
| `FilelistMeaning.PrintedListIsNamed` | fecompiler/tools/prepare/runner.py:619-640 | A line printed from defines or include directories, joined with plus signs, names exactly those. |
| `FilelistMeaning.CollectedOnce` | fecompiler/tools/prepare/runner.py:89-135 | The collected inputs are those of the CPU and then the SoC filelist, each file, directory and define once, where it came first; none are collected if a list fails or no source is listed. |
| `FilelistMeaning.WalkNeedsNaming` | fecompiler/tools/common/rtl_inputs.py:60-94 | Whatever the fingerprint walk visits or hashes, besides its root, is named by a line of a file that it visits. |
| `FilelistMeaning.EntryAppended` | fecompiler/tools/common/rtl_inputs.py:147-162 | Each hashed path has one entry, where it came first, with its content or the marker of a missing file. |
| `FilelistMeaning.RtlNames` | fecompiler/tools/common/rtl_inputs.py:89-91 | A name is hashed as RTL if and only if it ends in one of four suffixes, in any case of letters, and has something in front. |
| `Filelists.WalkCovers` | fecompiler/tools/common/rtl_inputs.py:60-94 | Everything the walk visits is hashed, and so is everything its lines name. |
| `FilelistCache.FingerprintCoversParse` | fecompiler/tools/prepare/runner.py:580-657 | If both walks read the opened files' lines alike, every filelist the parser opens and every RTL file it lists is hashed. |
| `FilelistCache.SourceSeenAlike` | fecompiler/tools/common/rtl_inputs.py:74-99 | A source line is read alike if and only if the walk's word does not begin like an option and names an RTL file that expands to the parser's; if both see the same words, if and only if also the name has something in front of the suffix and a leading tilde expands to itself. |
| `FilelistCache.NestedSeenAlike` | fecompiler/tools/common/rtl_inputs.py:74-99 | A nested reference is read alike if and only if the walk finds a reference that expands to the parser's; if both see the same words, if and only if it has no surrounding blanks, or its leading tilde expands to what the parser reads. |
| `FilelistCache.ReadAlikeMeansHashed` | fecompiler/tools/prepare/runner.py:580-657 | If both walks read the opened files' lines alike and no file holds the marker text, everything parsed is hashed by content. |
| `FilelistCache.EqualEntriesEqualParse` | fecompiler/tools/common/rtl_inputs.py:60-94 | If everything parsed was hashed by content, equal hashed entries give an equal parse. |
| `FilelistCache.EntriesDecideParse` | fecompiler/tools/common/rtl_inputs.py:60-94 | For a parsed tree, equal hashed entries always give an equal parse if and only if everything the parser opened or listed is hashed by its content. |
| `FilelistCache.PreparedInputsStayCurrent` | fecompiler/tools/common/rtl_inputs.py:37-57 | With a collision-free digest an unchanged fingerprint means that collecting the inputs again gives the same RTL files, include directories and defines in the same order. |
| `FilelistCache.MarkerContentCollides` | fecompiler/tools/common/rtl_inputs.py:84-94 | An RTL file that contains the marker text can vanish without changing a hashed entry, and the parse then fails. |
| `LinkArguments.NormalizeRefinesScan` | fecompiler/analysis/qor.py:1924-2080 | For all arguments, groups and response files, cyclic ones included, the mode recorded for every library and the final state are those of one scan of the flattened stream, in which no option takes a value from behind the end of its own list. |
| `LinkArguments.SplicedScansAlike` | fecompiler/analysis/qor.py:1924-2080 | Unless an option still awaits its value at the end of its list, that scan is the plain scan of the arguments spliced in place. |
| `LinkArguments.DanglingValueDiffers` | fecompiler/analysis/qor.py:2271-2292 | A response file that ends on a bare -l is a case where the plain scan differs. |
| `LinkModes.ModesByPosition` | fecompiler/analysis/qor.py:1924-2080 | The recorded mode of each library is that of the last option before it that switches modes, where a saved and restored stretch counts for nothing, or else the initial one; groups and response files stand in place, and a global static option only switches inside a group. |
| `LinkModes.LastSwitchDecides` | fecompiler/analysis/qor.py:1956-1966 | Without saving and restoring in between, the last switch decides, or the mode in front. |
| `LinkModes.RestoredStretch` | fecompiler/analysis/qor.py:1967-1977 | A save, a balanced stretch and its restore leave the mode that was there before. |
| `LinkModes.UnmatchedRestore` | fecompiler/analysis/qor.py:1972-1977 | A restore without anything saved changes nothing. |
| `LinkModes.GroupsSplitAtCommas` | fecompiler/analysis/qor.py:1900-1921 | A group is split at all of its commas and nowhere else. |
| `LinkIdentity.NormalFormShowsArguments` | fecompiler/analysis/qor.py:1924-2080 | The normal form shows every argument in its place, inside groups and response files, too: options with their values, attached ones by the longest option, libraries, existing files, and whether a response file was read or is a cycle. |
| `LinkDriver.NormalizeLinkArguments` | fecompiler/analysis/qor.py:1924-2080 | The loop with the shared, mutated state computes the recursive normaliser. |
| `LinkDriver.LinkHasGlobalStatic` | fecompiler/analysis/qor.py:2248-2268 | The loop computes the depth-first search with its path-local visited set. |
| `LinkDriver.SearchIsReachability` | fecompiler/analysis/qor.py:2248-2268 | The search answers yes if and only if a global static option stands in the arguments or in some readable file they reach. |
| `LinkDriver.NormalizedLinkFlags` | fecompiler/analysis/qor.py:1871-1887 | Whether a global static option can be reached decides the initial mode, and the recorded modes are those by position from there. |
| `Triplet.ReadQorArtifacts` | fecompiler/cli/handlers/report.py:190-237 | The reader accepts or refuses in the stated order of errors. |
| `Triplet.ReaderDecides` | fecompiler/cli/handlers/report.py:190-237 | The reader accepts if and only if all three files are there as documents, of schemas 3, 4 and 3 and of one nonempty generation; and each error is reported if and only if its own condition, and none checked before it, applies. |
| `Triplet.AcceptedIsOneResult` | fecompiler/analysis/qor.py:175-182 | With a collision-free generation digest, three accepted files are parts of one result. |
| `Triplet.ReaderNeverMixes` | fecompiler/cli/handlers/report.py:190-237 | Over every history of completed, failed and killed publications and clearings the reader never accepts a mixture. |
| `Triplet.PublicationIsAtomic` | fecompiler/analysis/qor.py:128-138 | During a publication the reader sees the new result if and only if all three files are in place, and otherwise what it saw before or an error. |
| `TripletWriter.WriteAtomic` | fecompiler/analysis/qor.py:185-221 | All destinations get their new content if and only if no read, staging or replacement fails; otherwise they are exactly as before unless a second failure hits the rollback; a kill at any point leaves each one old or new. |
| `TripletWriter.PublishStepResult` | fecompiler/analysis/qor.py:57-138 | Every state on the way, and the last one, is a partial publication in the sense of the reader's guarantee; it succeeds if and only if none of its nine operations fails, and then the three files hold the three parts with their schemas and the generation of the whole. |
| `Installer.InstallIsCorrect` | fecompiler/cli/resource_manager.py:180-212 | With everything reachable resolvable, the cycle error is raised if and only if a dependency cycle is reachable; otherwise exactly the dependency closure is recorded, once each and after its dependencies, and is installed afterwards. |
| `Installer.SuccessIsDecided` | fecompiler/cli/resource_manager.py:180-212 | An installation succeeds if and only if no cycle is reachable, everything reachable is found, and nothing reachable that is not yet installed fails; each error means that its own case applies. |
| `Installer.ReportIsHonest` | fecompiler/cli/resource_manager.py:205-212 | The resource itself is reported last, as newly installed if and only if it was not installed before, and nothing that was is reported so. |
| `Installer.DedupeMeans` | fecompiler/cli/resource_manager.py:695-701 | Of every resource the last record is kept in the place of the first. |
| `Installer.InstallRequiredIsCorrect` | fecompiler/cli/resource_manager.py:166-178 | The same for the list of required resources together. |
| `Installer.InstalledStaysClosed` | fecompiler/cli/resource_manager.py:180-212 | Whatever fails, nothing is installed before its dependencies, and earlier installations stay. |
| `Installer.DedupeKeepsOrder` | fecompiler/cli/resource_manager.py:695-701 | Removing duplicates keeps dependencies first. |
| `ResourceManager.Manager.Install` | fecompiler/cli/resource_manager.py:180-212 | The recursion over one mutable path set computes the specification; the path is restored except that a missing resource stays on it. |
| `ResourceManager.Manager.InstallRequired` | fecompiler/cli/resource_manager.py:166-178 | The loop computes the specification. |
| `ResourceManager.Manager.DedupeRecords` | fecompiler/cli/resource_manager.py:695-701 | The dictionary loop keeps the first place and the last value of every resource. |
| `InstallSwap.Slot.InstallOne` | fecompiler/cli/resource_manager.py:291-382 | Success if and only if nothing on the way fails; with undoing and cleaning up working, nothing temporary is left and a failure restores the earlier tree and manifest if and only if it is not the case that the new tree was moved in and then the search for executables failed or the manifest was written; under any failures the manifest changes only together with the tree, and the earlier tree is gone exactly in the listed cases. |
| `InstallSwap.InstallLosesEarlierTree` | fecompiler/cli/resource_manager.py:357-361 | The same version is installed again from another archive with only the search for executables failing: the installation fails, the new tree stays, the earlier one is gone and the manifest goes on describing it. |
| `InstallSwap.Slot.Swap` | fecompiler/cli/resource_manager.py:349-356 | The new tree is in and the earlier one aside, or everything is as before, or the earlier tree is still aside because undoing failed. |
| `InstallSwap.Slot.Commit` | fecompiler/cli/resource_manager.py:362-369 | The manifest names the new tree, or the earlier tree is back, or undoing failed in one of two ways. |
| `InstallSwap.Slot.CleanUp` | fecompiler/cli/resource_manager.py:374-382 | Temporary files go, and a tree set aside without a replacement comes back. |
| `PortContracts.ComparePortContracts` | fecompiler/tools/common/sv_module.py:106-131 | The lists hold exactly the missing, extra and differing names, each once: the first two in the order in which the ports came, the last one sorted. |
| `PortContracts.DictionaryMeans` | fecompiler/tools/common/sv_module.py:106-112 | Of several ports of one name the comparison uses the last one, in the place of the first. |
| `PortContracts.ReportedInOrder` | fecompiler/tools/common/sv_module.py:112-114 | Missing names stand in the order of the expected ports, extra ones in that of the actual ports. |
| `PortContracts.PortsAddUp` | fecompiler/tools/prepare/runner.py:436-452 | Matched, missing and mismatched ports add up to the expected ones; the matched ones are the agreeing names plus the nameless and repeated expected ports, so exact if and only if there are none. |
| `PortContracts.AgreeingPorts` | fecompiler/tools/common/sv_module.py:106-131 | With distinct names an expected port agrees if and only if the top has a port of that name, direction and width. |
| `PortContracts.NoDifferencesMeansEqual` | fecompiler/tools/prepare/runner.py:318-321 | The comparison is empty if and only if both sides have the same ports. |
| `ReadinessScore.FactsAreScored` | fecompiler/analysis/qor.py:395-474 | The score refuses the facts of the prepare step if and only if there is no RTL file, whatever ports were expected and found. |
| `ReadinessScore.ReadinessScoreBounded` | fecompiler/analysis/qor.py:395-568 | Every readiness score keeps each component within its maximum and the total within 0 to 100, for any monotone rounding that fixes tenths. |
| `ReadinessMarks.ReadinessComponents` | fecompiler/analysis/qor.py:395-548 | Counts are refused if and only if they cannot belong together; otherwise sources, include directories and matched ports earn in proportion, the top for its one definition and its place, no extra ports and each kept output for themselves. |
| `ReadinessMarks.ReportedFacts` | fecompiler/tools/prepare/runner.py:424-501 | The facts are the numbers of existing files and directories, of definitions of the top, and of the ports that are missing, extra or different. |
| `ReadinessScore.CompleteScoresHundred` | fecompiler/tools/prepare/runner.py:424-501 | A completely prepared workspace whose top has exactly the expected ports scores 100. |
| `ElaborationScore.CompilerUnresolvedModules` | fecompiler/tools/slang/runner.py:335-347 | Each module an error reports as unknown, once, in sorted order. |
| `ElaborationScore.BuildElabSummary` | fecompiler/tools/slang/runner.py:251-332 | The summary states the run and its log. |
| `ElaborationScore.EverySummaryIsScored` | fecompiler/analysis/qor.py:951-1049 | For every run and log the score accepts the summary, is bounded, and is 100 if and only if the run passed without a warning and without an unresolved module. |
| `ElaborationMarks.ElaborationComponents` | fecompiler/analysis/qor.py:951-1049 | A report is refused if and only if it contradicts itself or is not the compiler's own; otherwise a pass and the top earn their marks, and each error, unresolved module and warning costs its price until nothing is left. |
| `ElaborationMarks.LogCounts` | fecompiler/tools/slang/runner.py:251-332 | The number of errors or warnings is the last one that the log states, or else that of the diagnostics in it. |
| `ElaborationScore.ElaborationScoreBounded` | fecompiler/analysis/qor.py:951-1049 | The same bounds and the same characterisation of full marks for any accepted report. |
| `LintScore.LintScoreBounded` | fecompiler/analysis/qor.py:1147-1263 | Every accepted lint score is bounded, and is 100 if and only if the analysis completed without an actionable diagnostic in the user's sources. |
| `LintMarks.LintComponents` | fecompiler/analysis/qor.py:1147-1263 | A report is refused if and only if its summary does not count its diagnostics; an incomplete analysis earns nothing, and a completed one loses a fixed price for each error, warning and broken rule among the user's actionable diagnostics. |
| `ReviewScore.ReviewScoreBounded` | fecompiler/analysis/qor.py:743-836 | Every accepted RTL review score is bounded, and it is 100 when nothing is reported, the precheck passed and every measure keeps to its target. |
| `ReviewMarks.ReviewComponents` | fecompiler/analysis/qor.py:743-836 | Facts are refused if and only if a count is negative or a target is not positive; each error and warning costs its price, and with a passed precheck each measure earns the share that its target is of it. |
| `SimulationScore.CheckSimRegression` | fecompiler/analysis/qor.py:2958-3032 | The loop that collects the names seen decides the validity of a regression record. |
| `SimulationScore.CoverageIsSafe` | fecompiler/analysis/qor.py:1558-1590 | Comparable cycle changes of a valid record name different eligible cases, so the divisor is positive and the coverage at most one. |
| `SimulationScore.CapNeverApplies` | fecompiler/analysis/qor.py:1582-1590 | The cap on the coverage never changes it. |
| `SimulationScore.MatchedMeansPassed` | fecompiler/analysis/qor.py:2907-2955 | Among accepted cases, matching the reference and passing are the same. |
| `SimulationScore.SimulationScoreBounded` | fecompiler/analysis/qor.py:1489-1653 | Every accepted simulation score is bounded. |
| `SimulationMarks.SimulationComponents` | fecompiler/analysis/qor.py:1489-1653 | The marks are in proportion to the cases that pass, that match the reference among those compared (or half for passing when none is), and that count their cycles; a new failure or a removed case earns nothing for stability; the worst steady increase costs half a mark per cent; and the score is the sum. |
| `SimulationMarks.ScoredRuns` | fecompiler/analysis/qor.py:1489-1507 | A run is scored if and only if it has a suite, an identifier and cases, all of them plausible and with names of their own, and a valid regression record. |
| `SimulationMarks.CasesDecideMarks` | fecompiler/analysis/qor.py:1509-1545 | Before rounding, the marks for passing, comparing and measuring are full if and only if all of their cases count, and nothing if and only if none does. |
| `SimulationMarks.PassingMoreNeverCosts` | fecompiler/analysis/qor.py:1509-1545 | When failing cases pass, nothing is lost for passing, comparing or measuring. |
| `SimulationMarks.HundredMeansFull` | fecompiler/analysis/qor.py:1489-1653 | A run scores 100 if and only if there is a previous run with nothing newly failing or removed, some case is compared with the reference, and the marks for passing, comparing, measuring and steady cycles are full. |
| `SimulationMarks.NothingPassesNothingEarned` | fecompiler/analysis/qor.py:1489-1653 | A first run in which every case fails scores 0. |
| `SimulationRegression.SimulationRegression` | fecompiler/tools/verilator/runner.py:649-725 | The record lists, sorted, exactly the new and persistent failures and the fixed, added and removed cases, and the cycle changes of the same programs. |
| `SimulationRegression.ValidMeans` | fecompiler/analysis/qor.py:2958-3032 | A record is valid if and only if it lists each failing case once as new or persistent, its fixed cases pass, its changes state what cases counted, and without a previous run it is empty. |
| `SimulationRegression.WrittenIsValid` | fecompiler/tools/verilator/runner.py:649-725 | The record that the simulator writes is valid if and only if, when there is a previous run, that has an identifier, failing cases have names, and no compared count is negative. |

## Left out

- FlowRuns.RunAllExecutesOneBlock: assumes that the environment stays the same during one run and that every success has provenance; FlowRuns.ReturnedSuccess covers flows without provenance.
- FlowRuns.ReturnedSuccess: assumes that the environment stays the same during both runs, and so does FlowRuns.LegacyPrefixBreaks; FlowRuns.SuccessNeedsUndisturbedRun makes no such assumption about the first run, and FlowRuns.RunAllExecutesOneBlock is about one run.
- FlowCompletion.CompletedFlow: assumes that the environment stays the same and that every success has a record unless the states are cleared first; FlowEnds.CompletedMeansSuccess covers all other commands, with a condition over their turns. FlowCompletion.CompletedFromStep assumes a stable environment, too.
- FilelistCache.PreparedInputsStayCurrent: covers the CPU and SoC filelists, not the single-filelist and single-source fallbacks, assumes that files keep the same names (no relocation of third-party trees), and says nothing about the fingerprint's text fields.
- FilelistWalks.ParseSvFilelist: relocated third-party paths and references that cannot be resolved are decided by the path resolution that is a parameter.
- StepProvenance.ConfigurationAgrees: values are JSON values, for which normalisation changes nothing; paths and other objects are not modelled.
- FilelistCache.EntriesDecideParse: assumes that the marker text for unreadable files, read as a filelist, refers to nothing.
- LinkArguments.SplicedScansAlike: one direction only; a dangling option whose following argument happens to leave no trace can also scan alike.
- ReadinessScore.CompleteScoresHundred: one direction only, because rounding to tenths can reach 100 with one of thousands of files missing; so is ReviewScore.ReviewScoreBounded.
- FilelistMeaning.CollectedOnce: covers the CPU and SoC filelists, not the single-filelist and single-source fallbacks.
- SimulationRegression.SimulationRegression: which earlier run is the previous one is a parameter; images are compared by their recorded hashes.
- LinkIdentity.NormalFormShowsArguments: shows options and values, not the identity records of the paths behind them.
- ElaborationScore.BuildElabSummary: ownership, the module inventory and the heuristic candidates are not part of the model; the score reads none of them.
- ResourceManager.Manager.Install: no version is requested, and versions, platforms and assets of a resource are one node of the registry.
- TripletWriter.WriteAtomic: a failing operation has no effect on files of its own; only failed stagings leave a partial temporary file for the moment of a kill.
- Writing `flow.json` is one atomic step of the trace; truncation of a half-written file is not modelled.
- Profile changes that add or drop steps while a flow is opened, and two processes in one workspace.
- Interruption by signals inside the engine's own bookkeeping; an interrupted handler is modelled.
- Memory use and subprocess details recorded in step information, logs and the time format.
- JSON types of report fields are taken as given; values out of range are refused as in the code.
- Python's limit on the number of digits that `int` accepts, and non-ASCII digits, in a Content-Length value.
- The identity records of paths (sizes, times, hashes) and of options with attached values in linker arguments; only the option, its value and the library modes are kept.
- Floating-point rounding inside score arithmetic: scores are computed over the reals with a monotone rounding to tenths.
- Regular expressions: directives, diagnostics and counts arrive as parsed records.
- Downloads, archive extraction, subprocesses and health checks succeed or fail as a fault plan says.
- Catalogs, sessions, parameter schemas and the rendering of results: plumbing with easier properties.
