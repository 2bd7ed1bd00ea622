# Verified models of the CARLA/Unreal ARM64 evidence tools

The repository decides, fail-closed, whether a port of CARLA and Unreal to ARM64 has been
shown to work: it walks binary containers, replays traces, validates hash-pinned reports,
runs a gate against a live server and replaces Unreal's FBX worker. This project models the
algorithms behind those decisions in Dafny and proves what they promise.

`dafny verify dfyconfig.toml` checks everything. One module stands for one component:

| module | models |
|---|---|
| `Wrappers` | Option (`None` where the source raises), bytes |
| `Archives`, `ArchiveFormat` | the ELF header reader and both `ar` readers, and the format they accept |
| `Spirv` | both SPIR-V instruction walkers |
| `DependencyInspector`, `InspectionOrder` | the memoised recursive `Inspector.file` |
| `StageReport`, `ReportLimits` | `stage_report.py`: writing and validating the graph of pinned reports, and what acceptance leaves open |
| `RuntimeEntry` | `runtime_entry_report.py`: capture and finalize with files changing between reads |
| `CacheLifecycle` | `analyze_vulkan_cache_lifecycle.py`: the event loop and the verdict |
| `FaultTrace` | the bounded ring of `GraphicsTrace` and `trace_analysis` |
| `PipelineLayout`, `LayoutGrammar` | `layout_text` in Python and `parse_layout_override` in C, and the language of the latter |
| `StaticParser`, `StaticWorker` | the static Interchange parser and its command loop |
| `SceneGeometry`, `SceneInstances` | the node, matrix and axis checks of `check-ufbx-fbx.py`, and its meshes and instances |
| `AlignedQueue`, `QueueRefinement` | the sensor queue of `check_carla_runtime.py`, serial and interleaved |
| `TickLoop`, `RuntimeGate` | its tick loop, its gate and its cleanup |

Where the source loops over variables or updates an object, the model is a method or a class
proved equal to a function of its input or old state, and the results below are lemmas about
that function. Calls into the platform (backends, gdb, CARLA, clocks, JSON and text decoding,
SHA-256) are parameters or recorded answers, so a result over all of them holds whatever they
return. A raised exception is `None` or `false`.

## What the proofs showed about the code

- `Inspector.file` never reports PASS for anything outside the least fixpoint
  (`FileIsSound`), but the converse depends on query order: a linker script reached through
  a symbolic link in another directory is read relative to the link, and asking for the link
  first leaves wrong entries in the cache (`OrderCanMatter` is a concrete tree of four
  paths). Order never matters, whatever order the scripts list their names in, exactly when
  no simple loop of references comes back to a file under a verified key
  (`ExactInEveryOrder`); two names of one file always naming the same references is a
  condition a caller can check that suffices (`FollowingFilesSuffices`).
- `write_report` and `validate_report` agree except when the file just written is evidence
  (or a report) that some prerequisite pins and the write changed it; `WriterAndValidatorAgree`
  says so exactly, and `WriteCanDisturb` exhibits a report written with PASS that does not
  validate.
- A PASS of `finalize` pins every input, the endpoint report and the whole graph below it
  (`PassPinsEndpoint`), but not the `sources` it copies: they come from the one read of the
  first validation, between two digests. For every run that passes there is another one,
  differing in that read only, that passes with the same pinned endpoint and other sources
  (`SourcesAreNotPinned`). They are determined exactly when no other files that validation may
  have read are accepted with other sources (`SourcesFixedExactly`), for instance when it read
  the bytes that were digested (`UnchangedEndpointFixesSources`).
- `AlignedQueue` promises to keep its first failure. It does exactly while at most one thread
  calls back (`FirstFailureIsSticky`): with two, both can find the queue full and overwrite
  each other (`ConcurrentFailureIsReplaced`). A failure is never cleared in any case.
- The two `ar` readers differ only in that one demands a full 64-byte ELF header and skips
  `__.SYMDEF` members (`ReadersAgree`); the bounded trace ring misses a correlation of the
  full log exactly when the chosen bind was dropped (`RingAgreesWithLog`).

## Model

| member | source | states |
|---|---|---|
| Archives.ArchiveInfo | scripts/carla/inspect_usd_dependencies.py:106-142 | the loop that advances `offset` and appends members returns what a recursive walk of the headers finds, or nothing exactly where the source raises |
| Archives.VerifyStaticArchive | scripts/carla/check-ufbx-fbx.py:67-102 | accepts exactly when the walk succeeds, finds members, and each is an AArch64 ELF64 relocatable; the names returned are the walk's |
| Archives.AcceptedIsTiled | scripts/carla/inspect_usd_dependencies.py:109-117 | an accepted archive is exactly its headers, bodies and padding: no byte skipped or read twice |
| Archives.MemberChecksAgree | scripts/carla/inspect_usd_dependencies.py:93-104 | `target_elf(elf_info(body), (1,))` holds exactly when the other reader's member checks hold and the body has 64 bytes |
| Archives.DescribePlain | scripts/carla/inspect_usd_dependencies.py:132-138 | without `__.SYMDEF` members one description per member, in order, with its own header |
| Archives.ReadersAgree | scripts/carla/check-ufbx-fbx.py:74-102 | without `__.SYMDEF` members: all members pass `target_elf` in the one reader exactly when they pass the other's checks and are at least 64 bytes long; same names |
| ArchiveFormat.ArchiveExactly | scripts/carla/inspect_usd_dependencies.py:107-142 | accepted, with these members, exactly if the file is the magic and then pieces (header, body, padding) with good headers, each a table, an index or the next member under the GNU, BSD or plain naming rules |
| ArchiveFormat.DescribesExactly | scripts/carla/inspect_usd_dependencies.py:132-138 | the descriptions are those of the members not named `__.SYMDEF...`, in order |
| ArchiveFormat.ElfExactly | scripts/carla/inspect_usd_dependencies.py:93-104 | which headers are read and what class, byte order, type and machine they give, byte by byte |
| ArchiveFormat.RelocatableExactly | scripts/carla/check-ufbx-fbx.py:91-99 | the member checks of the other reader, byte by byte |
| Spirv.DecodeEncode | scripts/carla/analyze_vulkan_driver_entries.py:47-58 | the word walk recovers the instructions of every well-formed stream |
| Spirv.EncodeDecode | scripts/carla/analyze_vulkan_driver_entries.py:47-58 | an accepted stream is nothing but its instructions: no word skipped, shared or left over |
| Spirv.WalkersAgree | scripts/carla/check-shader-output.py:17-25 | the byte walk and the word walk step over the same instructions and fail on the same files |
| Spirv.ModuleRoundTrip | scripts/carla/check-shader-output.py:9-27 | a module encoded to bytes is recovered by both walks |
| Spirv.EntriesAreTheDeclarations | scripts/carla/analyze_vulkan_driver_entries.py:53-57 | the entry set exists exactly when every OpEntryPoint has a decodable name, and is then the set of declarations |
| Spirv.SpirvEntries | scripts/carla/analyze_vulkan_driver_entries.py:39-59 | the loop returns the declarations of the decoded module, or nothing where it raises |
| Spirv.CheckSpirv | scripts/carla/check-shader-output.py:9-27 | accepts exactly: valid header, whole instructions to the last byte, an entry point among them |
| Spirv.ChecksAgree | scripts/carla/check-shader-output.py:9-27 | on a file with an acceptable header and named entry points the checker accepts exactly when the entry reader finds an entry |
| Spirv.CheckExactly | scripts/carla/check-shader-output.py:9-27 | accepts exactly the files that are a good header, byte by byte, and the bytes of instructions one of which is an entry point |
| Spirv.EntriesExactly | scripts/carla/analyze_vulkan_driver_entries.py:39-59 | succeeds exactly on the magic number and the bytes of instructions whose entry points all have a decodable name, and returns what they declare: first operand and name up to its NUL |
| DependencyInspector.VerifiedIsFixpoint | scripts/carla/inspect_usd_dependencies.py:205-229 | verified (a finite reference tree passes at every node) satisfies "locally valid and all references verified", both ways |
| DependencyInspector.VerifiedIsLeast | scripts/carla/inspect_usd_dependencies.py:205-229 | and is contained in everything closed under that rule |
| DependencyInspector.FileStatus | scripts/carla/inspect_usd_dependencies.py:173-237 | the memoised evaluation stores its answer and never changes an entry it found; it terminates on every reference graph |
| DependencyInspector.RefsStatus | scripts/carla/inspect_usd_dependencies.py:212-214 | every reference is checked and stored, and all of them must be PASS |
| DependencyInspector.Inspector.File | scripts/carla/inspect_usd_dependencies.py:173-237 | the method that updates `self.cache` while it recurses computes that evaluation: same status, same cache |
| DependencyInspector.VerifiedExactly | scripts/carla/inspect_usd_dependencies.py:173-229 | kind by kind, over the file's own fields: a key is verified exactly if its file deserves PASS (regular, nonempty; archives as static libraries of little-endian 64-bit AArch64 relocatables only; ELF types 3, or 2 or 3 and executable; text without NUL; scripts of at most 4096 bytes, no name starting with `-`; interpreter) and its references are verified |
| DependencyInspector.StatusExactly | scripts/carla/inspect_usd_dependencies.py:173-237 | the status evaluated for a key not yet cached: not on the ancestor stack, and the file deserves PASS with the statuses stored for its references |
| DependencyInspector.FileIsSound | scripts/carla/inspect_usd_dependencies.py:173-237 | for every world, cache and ancestor stack: PASS is reported and stored for verified keys only |
| DependencyInspector.FileIsExact | scripts/carla/inspect_usd_dependencies.py:173-237 | without a verified loop, evaluation under any reachable ancestor stack leaves each entry equal to the ancestor-free meaning |
| DependencyInspector.QueriesAreExact | scripts/carla/inspect_usd_dependencies.py:173-237 | then over any sequence of queries every answer is the cache-free meaning of its key |
| DependencyInspector.FollowingFilesSuffices | scripts/carla/inspect_usd_dependencies.py:212-213 | two names of one file leading to the same references rules such loops out |
| DependencyInspector.OrderCanMatter | scripts/carla/inspect_usd_dependencies.py:212-213 | a concrete tree in which the order of two queries changes both answers |
| InspectionOrder.ExactInEveryOrder | scripts/carla/inspect_usd_dependencies.py:173-237 | for every order of the script references and every query sequence the answers are exact, if and only if no simple loop returns to a file at a verified key |
| InspectionOrder.VerifiedLoopMisleads | scripts/carla/inspect_usd_dependencies.py:173-237 | from any such loop an order and two queries are found whose second answer is wrong |
| StageReport.ValidateFile | scripts/carla/stage_report.py:201-226 | returns the report exactly when the recursive acceptance holds, and then the document read under the pin |
| StageReport.ContentErrors | scripts/carla/stage_report.py:108-198 | the error list is empty exactly when identity, command, sources, checks, evidence and prerequisites are all in order |
| StageReport.SourceErrors | scripts/carla/stage_report.py:128-135 | no error exactly when there are sources and each has a location and a revision |
| StageReport.CheckErrors | scripts/carla/stage_report.py:137-155 | no error exactly when required checks are distinct names, all present, nothing undeclared, and every check is PASS |
| StageReport.EvidenceErrors | scripts/carla/stage_report.py:157-174 | given the checks, no error exactly when each check has evidence and each record is another file with the pinned digest |
| StageReport.PrerequisiteErrors | scripts/carla/stage_report.py:176-197 | no error exactly when every record is readable, names a distinct stage and leads to an accepted report |
| StageReport.AcceptsUnfolds | scripts/carla/stage_report.py:201-226 | acceptance is: not an ancestor, depth left, sound itself, and every prerequisite accepted below it |
| StageReport.AcceptedByChains | scripts/carla/stage_report.py:201-226 | accepted if and only if every prerequisite chain has at most 32 reports, never returns to one of them, and ends in a sound PASS report |
| StageReport.SoundExactly | scripts/carla/stage_report.py:108-226 | a report is sound exactly if its bytes have the pinned digest and decode to an object each of whose fields is in order, condition by condition, down to the 64 hexadecimal digits of each record |
| StageReport.NextExactly | scripts/carla/stage_report.py:182-195 | the reports a sound one leads to are exactly those its prerequisite records ask for: file, digest, stage and scope |
| StageReport.RootPinsEverything | scripts/carla/stage_report.py:157-226 | Merkle property both ways: a second file system with the same root bytes accepts exactly when every report and evidence file below is identical |
| StageReport.WriterAndValidatorAgree | scripts/carla/stage_report.py:229-271 | the written report validates for its stage and scope exactly when PASS was recorded and the write disturbed nothing a prerequisite reads |
| StageReport.ReportContent | scripts/carla/stage_report.py:242-264 | the written document reads back as the content that was checked, and says PASS exactly when there were no errors |
| StageReport.SnapshotIsEvidence | scripts/carla/stage_report.py:74-92 | a snapshot record passes the evidence check exactly when the file exists and is not the report itself |
| StageReport.WrittenDocument | scripts/carla/stage_report.py:242-264 | each field of the written document is that argument of the request, and each evidence and prerequisite record names the file asked for with its digest, stage and scope |
| StageReport.RecordedPassExactly | scripts/carla/stage_report.py:229-271 | PASS is recorded exactly if the arguments are in order, every evidence file exists apart from the output, and every requested prerequisite is a report accepted for its stage and scope |
| StageReport.FileStore.WriteReport | scripts/carla/stage_report.py:238-271 | exactly one file changes, the resolved output, to the encoding of the report returned; that report is the document of the request, and records PASS exactly when the request warrants it |
| ReportLimits.WriteCanDisturb | scripts/carla/stage_report.py:238-271 | files, and a report written over them with PASS, that then does not validate because the output was evidence of its prerequisite |
| ReportLimits.AcceptedAlone | scripts/carla/stage_report.py:201-226 | what validates as a prerequisite below other reports also validates on its own |
| ReportLimits.SourcesVary | scripts/carla/stage_report.py:128-135 | wherever a report is accepted, another of the same stage and scope with other sources is accepted in its place |
| RuntimeEntry.CaptureInputs | scripts/carla/runtime_entry_report.py:69-84 | refuses to overwrite; otherwise writes the manifest of all six labels once each and returns its digest, or raises |
| RuntimeEntry.RecordsPin | scripts/carla/runtime_entry_report.py:72-79 | each record is the digest of the bytes read for that label, and no other label appears |
| RuntimeEntry.CapturesExactly | scripts/carla/runtime_entry_report.py:69-84 | succeeds exactly on a free output and six readable files, one for each label, and then records the path and digest of each |
| RuntimeEntry.InputStateLoop | scripts/carla/runtime_entry_report.py:87-127 | the checks passed and the digests expected are those of the manifest read under the pinned digest |
| RuntimeEntry.CheckLate | scripts/carla/runtime_entry_report.py:192-199 | the loop finds a late error exactly when some recorded digest differs from the one checked before |
| RuntimeEntry.FinalizeRun | scripts/carla/runtime_entry_report.py:136-208 | status, recorded digests and sources of the published report, including a second write from new reads after late errors, or nothing where it raises |
| RuntimeEntry.FinalExactly | scripts/carla/runtime_entry_report.py:87-208 | over every tape of reads, in terms of the reads: nothing exactly if the output exists before or cannot be linked; PASS exactly if pinned manifest, inputs and endpoint stood, nothing moved before the write and what was written stands; which write the recorded digests come from; and the sources |
| RuntimeEntry.PassMeansAllInputs | scripts/carla/runtime_entry_report.py:182-206 | PASS implies exit code zero, all inputs checked, the endpoint accepted by both validations and no late change |
| RuntimeEntry.PassPinsInputs | scripts/carla/runtime_entry_report.py:69-208 | under the digest `capture` printed, PASS means every input read, recorded and rechecked was byte for byte the captured one, whatever changed between reads |
| RuntimeEntry.PassPinsEndpoint | scripts/carla/runtime_entry_report.py:161-199 | PASS means one byte string is digested before and after the first validation, recorded, and itself accepted; any file system holding it accepts it exactly if it agrees on every report and evidence file below |
| RuntimeEntry.OtherValidation | scripts/carla/runtime_entry_report.py:161-166 | with other files read by the first validation a passing run still passes exactly if they are accepted, and only the sources differ |
| RuntimeEntry.SourcesFixedExactly | scripts/carla/runtime_entry_report.py:161-166 | over all tapes: PASS determines the sources exactly when no possible files of that validation are accepted with other sources |
| RuntimeEntry.SourcesAreNotPinned | scripts/carla/runtime_entry_report.py:161-166 | every passing tape has another, differing only in the endpoint bytes that validation reads, that passes with the same pinned endpoint and other sources |
| RuntimeEntry.UnchangedEndpointFixesSources | scripts/carla/runtime_entry_report.py:161-166 | if that validation read the digested bytes, the sources are those of the pinned report |
| RuntimeEntry.UnchangedPasses | scripts/carla/runtime_entry_report.py:136-208 | conversely unchanged files, acceptable content and exit code zero give PASS |
| CacheLifecycle.Analyze | scripts/carla/analyze_vulkan_cache_lifecycle.py:32-105 | the loop over six mutable collections equals the step-by-step replay, raising where it raises |
| CacheLifecycle.SetsAreHistory | scripts/carla/analyze_vulkan_cache_lifecycle.py:43-105 | at every index `live`, `live_objects` and `queued_objects` are exactly what the history defines (created or enqueued with no later removal) |
| CacheLifecycle.QueuedAreLive | scripts/carla/analyze_vulkan_cache_lifecycle.py:45-50 | in every prefix without anomalies each queued handle is live |
| CacheLifecycle.PendingIsOpenCalls | scripts/carla/analyze_vulkan_cache_lifecycle.py:65-84 | `pending` is exactly the unreturned enters in sequence order, at most one per thread and operation |
| CacheLifecycle.CallsAreConserved | scripts/carla/analyze_vulkan_cache_lifecycle.py:51-84 | enters equal returns plus pending |
| CacheLifecycle.CreationsAreCounted | scripts/carla/analyze_vulkan_cache_lifecycle.py:87-91 | `created_caches` is the number of create returns with result 0 and a handle |
| CacheLifecycle.ReplaySucceeds | scripts/carla/analyze_vulkan_cache_lifecycle.py:53-86 | the analysis goes through exactly when every event respects the call discipline of its thread |
| CacheLifecycle.OverlapsAreHistory | scripts/carla/analyze_vulkan_cache_lifecycle.py:71-80 | one report per enter of a use on a non-null cache with another use open, in strictly ascending sequence, describing it |
| CacheLifecycle.MeetingUsesAreReported | scripts/carla/analyze_vulkan_cache_lifecycle.py:71-80 | two uses of one non-null cache with intersecting spans are reported at the later enter, and every report comes from such a pair |
| CacheLifecycle.AnomaliesAreHistory | scripts/carla/analyze_vulkan_cache_lifecycle.py:46-103 | `invalid` holds exactly the anomalies the history defines: event, reason and handle |
| CacheLifecycle.AnomaliesOnceInOrder | scripts/carla/analyze_vulkan_cache_lifecycle.py:46-103 | each anomaly is recorded once, in event order |
| CacheLifecycle.CleanLog | scripts/carla/analyze_vulkan_cache_lifecycle.py:46-103 | it is empty exactly when no event is anomalous |
| CacheLifecycle.FaultMatchIsUnique | scripts/carla/analyze_vulkan_cache_lifecycle.py:108-112 | the fault marker never matches two pending calls |
| CacheLifecycle.Report | scripts/carla/analyze_vulkan_cache_lifecycle.py:19-167 | the replay, with the submitted handles the marker asks for, and then the verdict on the fault |
| CacheLifecycle.JudgesExactly | scripts/carla/analyze_vulkan_cache_lifecycle.py:106-167 | in terms of the log: a verdict exactly if an unreturned call is the marker's and agrees on the submitted cache; clean exactly if no event is anomalous and its cache and every named object live at the end; objects, statuses and overlaps field by field |
| FaultTrace.GraphicsTrace.OnStop | scripts/carla/gdb_vulkan_fault_capture.py:357-377 | one breakpoint hit: counter, ring and drop count together; halts exactly on an error |
| FaultTrace.RingIsEndOfLog | scripts/carla/gdb_vulkan_fault_capture.py:357-377 | over every run count = retained + dropped, and the ring is the last min(n, 256) events of the unbounded log, consecutively numbered |
| FaultTrace.ErrorsAreLostHits | scripts/carla/gdb_vulkan_fault_capture.py:357-377 | `errors` counts exactly the unreadable hits and those past a million events |
| FaultTrace.TracerIsNeverRejected | scripts/carla/vulkan_fault_snapshot.py:14-28 | what the tracer writes passes the accounting and chronology checks |
| FaultTrace.RingAgreesWithLog | scripts/carla/vulkan_fault_snapshot.py:31-81 | the ring correlates exactly when the full log does and the chosen bind was kept; all conclusions then agree |
| FaultTrace.AnalyzeExactly | scripts/carla/vulkan_fault_snapshot.py:9-81 | refused exactly for wrong counts, wrong numbering or a disabled trace that is not empty; correlated exactly for an identified fault with a last event setting its shader (same context, list, thread, compatible command) and a last bind of its context before it; every conclusion given from these two events |
| FaultTrace.RunCorrelatesExactly | scripts/carla/vulkan_fault_snapshot.py:31-81 | over every run, in terms of the unbounded log: the pair is reported exactly if its bind was retained |
| PipelineLayout.LayoutText | scripts/carla/vulkan_pipeline_snapshot.py:156-167 | the appending loops produce the specified text |
| PipelineLayout.LayoutOverride.ParseFile | scripts/carla/vulkan-compute-replay.c:116-176 | reading lines into the fixed arrays and counters succeeds exactly when the specified parse does, with its result |
| PipelineLayout.LayoutOverride.Append | scripts/carla/vulkan-compute-replay.c:144-166 | one binding is stored last in its set, or refused with nothing changed |
| PipelineLayout.ScanDecimal | scripts/carla/vulkan-compute-replay.c:128-145 | `%u` reads back the decimal text of every 32-bit number and stops behind it |
| PipelineLayout.TypeNameIsRead | scripts/carla/vulkan-compute-replay.c:100-114 | every Python descriptor name is read back as its own type |
| PipelineLayout.ParseJoined | scripts/carla/vulkan-compute-replay.c:120-125 | reading through the 256-byte buffer sees the printed lines one by one |
| PipelineLayout.RoundTrip | scripts/carla/vulkan_pipeline_snapshot.py:131-167 | every validated capture comes back: sets, binding order, types, counts, flags, subgroup size, no push constants |
| PipelineLayout.TextIsInjective | scripts/carla/vulkan_pipeline_snapshot.py:156-167 | equal texts come from equal layouts |
| LayoutGrammar.LineExactly | scripts/carla/vulkan-compute-replay.c:123-168 | a line is accepted exactly if, after blanks and up to a NUL, it is empty, a comment, one of four keys with a number, or a binding of a known type within the bounds, and what it then does |
| LayoutGrammar.ScansNumber | scripts/carla/vulkan-compute-replay.c:128-145 | `%u` reads exactly blanks, an optional sign and digits, modulo 2^32 and saturated beyond 64 bits |
| LayoutGrammar.ParsesExactly | scripts/carla/vulkan-compute-replay.c:116-176 | over every text: accepted exactly if all lines say something allowed, with one to eight sets of 1 to 64 bindings each; the last number of each key counts, and bindings keep file order |
| StaticParser.FileStore.SaveVerified | scripts/carla/ue-parser/InterchangeFbxStaticParser.cpp:57-82 | success and files as specified; published bytes are recorded only on success |
| StaticParser.SaveKeeps | scripts/carla/ue-parser/InterchangeFbxStaticParser.cpp:57-82 | a save never changes an existing file; success means the file holds exactly the nonempty bytes |
| StaticParser.FbxParser.Clear | scripts/carla/ue-parser/InterchangeFbxStaticParser.cpp:93-102 | session, results and messages are gone; settings and counter stay |
| StaticParser.FbxParser.Configure | scripts/carla/ue-parser/InterchangeFbxStaticParser.cpp:121-128 | a reset parser with the new settings |
| StaticParser.FbxParser.Load | scripts/carla/ue-parser/InterchangeFbxStaticParser.cpp:130-145 | the parser after a load, reset first; `StaticWorker.LoadExactly` says when a scene is loaded and which |
| StaticParser.FbxParser.LoadToFolder | scripts/carla/ue-parser/InterchangeFbxStaticParser.cpp:147-166 | parser and store after publishing the description, or reset when any step fails |
| StaticParser.FbxParser.Fetch | scripts/carla/ue-parser/InterchangeFbxStaticParser.cpp:168-202 | identity, parser and store after a mesh fetch, every refusal dropping the stale entry |
| StaticParser.FbxParser.FetchOther | scripts/carla/ue-parser/InterchangeFbxStaticParser.cpp:204-224 | generic and animation payloads are refused with a message |
| StaticParser.ActKeeps | scripts/carla/ue-parser/InterchangeFbxStaticParser.cpp:93-224 | every operation keeps: loaded means a session, results name files holding their published bytes, no file content changes |
| StaticParser.EveryRunKeepsTheStore | scripts/carla/ue-parser/InterchangeFbxStaticParser.cpp:57-224 | the same over every run, whatever backend and file system answer |
| StaticParser.RepeatedFetch | scripts/carla/ue-parser/InterchangeFbxStaticParser.cpp:168-202 | repeating a successful fetch with the same answer changes nothing at all |
| StaticParser.FetchSucceeds | scripts/carla/ue-parser/InterchangeFbxStaticParser.cpp:168-202 | the exact condition under which a fetch succeeds |
| StaticWorker.Worker.ExecuteTask | scripts/carla/ue-parser/InterchangeWorkerStatic.cpp:21-70 | the answer, parser and store of one task |
| StaticWorker.LoadAnswers | scripts/carla/ue-parser/InterchangeWorkerStatic.cpp:32-38 | a load is answered ProcessOk exactly when the scene ends up loaded; see `LoadExactly` for when that is |
| StaticWorker.LoadExactly | scripts/carla/ue-parser/InterchangeFbxStaticParser.cpp:93-166 | over the task and the platform's answers: ok exactly if the one backend made a session that accepted the scene and its description was serialized, written to a new file, closed and read back; then the session is of this file with the command's four settings, and else nothing is loaded or left to serve |
| StaticWorker.MeshAnswers | scripts/carla/ue-parser/InterchangeWorkerStatic.cpp:43-47 | a mesh task answers ProcessOk exactly when its fetch succeeds, with a file holding the bytes of this request |
| StaticWorker.MeshExactly | scripts/carla/ue-parser/InterchangeFbxStaticParser.cpp:168-202 | over the state and the platform's answers: ok exactly if a scene is loaded and nonempty bytes under a 64-digit identity are already in the payload file or could be written; a refusal keeps the scene and drops the named payload |
| StaticWorker.OthersExactly | scripts/carla/ue-parser/InterchangeWorkerStatic.cpp:39-56 | every other task, in the order the commands are tried, fails and changes nothing but the messages |
| StaticWorker.ExecuteKeeps | scripts/carla/ue-parser/InterchangeWorkerStatic.cpp:21-70 | every task keeps the store invariant and answers with its own index |
| StaticWorker.LoadedByLatestLoad | scripts/carla/ue-parser/InterchangeWorkerStatic.cpp:32-38 | after any tasks a scene is in effect exactly when the latest load was answered ProcessOk |
| StaticWorker.SceneOfLatestLoad | scripts/carla/ue-parser/InterchangeWorkerStatic.cpp:32-38 | and it is the file that load named, under its settings |
| StaticWorker.Worker.Run | scripts/carla/ue-parser/InterchangeWorkerStatic.cpp:77-145 | result, messages and parser after any rounds of the command loop |
| StaticWorker.EveryTaskIsAnswered | scripts/carla/ue-parser/InterchangeWorkerStatic.cpp:122-131 | one answer per processed task, with its index, in arrival order |
| StaticWorker.LoopRunsItsJobs | scripts/carla/ue-parser/InterchangeWorkerStatic.cpp:102-143 | the loop's state is that of its tasks run in order |
| StaticWorker.DonesAreAnswers | scripts/carla/ue-parser/InterchangeWorkerStatic.cpp:122-131 | the answers sent are exactly those of the tasks run in order, so the task results hold for every command stream |
| StaticWorker.MeshNeedsLatestLoad | scripts/carla/ue-parser/InterchangeWorkerStatic.cpp:102-143 | over every command stream and in the messages sent: no mesh task is answered ProcessOk after a failed load until a later load succeeds |
| StaticWorker.TrueOnlyOnTerminate | scripts/carla/ue-parser/InterchangeWorkerStatic.cpp:102-144 | the loop returns true exactly on a received Terminate |
| StaticWorker.GoesOnExactly | scripts/carla/ue-parser/InterchangeWorkerStatic.cpp:77-144 | the loop is still going exactly after a good start and rounds with a living peer, no Terminate, no idle deadline passed and no failed send |
| StaticWorker.RoundReplies | scripts/carla/ue-parser/InterchangeWorkerStatic.cpp:102-143 | what each round sends: a pong, the task's answer, an error, or nothing |
| SceneGeometry.MultiplyComposes | scripts/carla/check-ufbx-fbx.py:122-130 | transforming by a product is transforming twice |
| SceneGeometry.NormalIsInverseTranspose | scripts/carla/check-ufbx-fbx.py:133-142 | the transposed normal matrix times the matrix is the identity |
| SceneGeometry.NormalsStayNormal | scripts/carla/check-ufbx-fbx.py:133-142 | dot(N n, M v) = dot(n, v) for every nonsingular M |
| SceneGeometry.Indexed | scripts/carla/check-ufbx-fbx.py:150-159 | succeeds exactly for distinct non-negative identifiers, and maps each to its entry and nothing else |
| SceneGeometry.ClimbToEnd | scripts/carla/check-ufbx-fbx.py:186-190 | the `visited`/`cursor` loop terminates and succeeds exactly when the parent chain ends |
| SceneGeometry.CheckLinks | scripts/carla/check-ufbx-fbx.py:179-185 | exact parent and child agreement of one node |
| SceneGeometry.CheckNodes | scripts/carla/check-ufbx-fbx.py:165-196 | accepts exactly the trees rooted at the root whose matrices compose and whose materials and meshes are listed |
| SceneGeometry.NodeExactly | scripts/carla/check-ufbx-fbx.py:177-196 | what is asked of a node besides its links, in terms of points: listed materials and mesh, and matrices that are compositions of the transformations they stand for |
| SceneGeometry.TreeExactly | scripts/carla/check-ufbx-fbx.py:167-190 | the tree in terms of the nodes' fields: one root without a parent, parents that exist, every child listed once, every node reaching the root |
| SceneGeometry.DeterminantExactly | scripts/carla/check-ufbx-fbx.py:133-142 | the determinant is that of the rule of Sarrus, and zero is refused |
| SceneGeometry.EndingIsReaching | scripts/carla/check-ufbx-fbx.py:180-190 | with the links checked, being a tree is the same as every chain ending; the last node is then the root |
| SceneGeometry.TreeHasOneLinkLess | scripts/carla/check-ufbx-fbx.py:182-190 | child links number nodes minus one |
| SceneGeometry.WorldIsThePath | scripts/carla/check-ufbx-fbx.py:193-195 | with normal inheritance each node-to-world matrix is the root's after the node-to-parent matrices along the path |
| SceneInstances.CheckMesh | scripts/carla/check-ufbx-fbx.py:197-211 | accepts exactly the nonempty meshes of triangles with distinct vertices in range, valid faces and slots, and unit normals |
| SceneInstances.CheckInstance | scripts/carla/check-ufbx-fbx.py:221-252 | accepts exactly when mesh, world positions, bounds, determinant, materials, areas and normalized normals are those of the node's geometry matrix |
| SceneInstances.CheckInstances | scripts/carla/check-ufbx-fbx.py:218-253 | accepts exactly one valid instance for each node with a mesh |
| SceneInstances.MeshExactly | scripts/carla/check-ufbx-fbx.py:197-211 | an accepted mesh, in terms of its triangles' own numbers |
| SceneInstances.InstanceExactly | scripts/carla/check-ufbx-fbx.py:218-252 | an accepted instance: the node's own mesh, every point transformed, the least and greatest coordinates, determinant, materials by slot, edges that are not parallel, and unit normals in the direction of the inverse transpose |
| SceneInstances.NormalizedByLength | scripts/carla/check-ufbx-fbx.py:246-252 | the normal condition says exactly that the normal is the transformed one divided by its length |
| SceneInstances.NormalsStayPerpendicular | scripts/carla/check-ufbx-fbx.py:233-252 | a mesh normal perpendicular to an edge has an accepted unit world normal perpendicular to that edge in the world |
| SceneInstances.PositionsFollowThePath | scripts/carla/check-ufbx-fbx.py:191-230 | every accepted world position is its mesh point taken into the node, up the path and into the world |
| SceneGeometry.ConvertPoint | scripts/carla/check-ufbx-fbx.py:307-309 | the point filled in place lies along each target axis as the input lies along the source axis, scaled |
| SceneGeometry.ComparePositions | scripts/carla/check-ufbx-fbx.py:306-310 | accepts exactly when every compared pair is such a conversion |
| SceneGeometry.ConvertsExactly | scripts/carla/check-ufbx-fbx.py:304-309 | the converted coordinates, one by one: right becomes +Y, up +Z and front -X |
| SceneGeometry.ConversionScalesDistances | scripts/carla/check-ufbx-fbx.py:307-309 | for any two bases squared distances grow by the scale squared |
| SceneGeometry.ConversionInverts | scripts/carla/check-ufbx-fbx.py:307-309 | converting back with the inverse scale undoes it; images and preimages are unique |
| AlignedQueue.Stream.Call | scripts/carla/check_carla_runtime.py:220-236 | one delivery: queue, flags and failure together |
| AlignedQueue.Stream.NextFrame | scripts/carla/check_carla_runtime.py:238-261 | the waiting loop's packet and the queue it leaves, with deliveries and the deadline between any two of its steps |
| AlignedQueue.NeverMisaligned | scripts/carla/check_carla_runtime.py:241-255 | a packet handed out is of the requested frame and was queued or arrived; never more than 32 are held |
| AlignedQueue.TakesOwn | scripts/carla/check_carla_runtime.py:241-255 | with only older packets queued and the awaited one queued or arriving in time, exactly the older ones go stale and the awaited one is returned |
| AlignedQueue.EveryRunConserves | scripts/carla/check_carla_runtime.py:220-261 | for any number of callbacks and any interleaving of single accesses to the shared state: bounded, and every packet is in order returned, stale, rejected, held or queued |
| AlignedQueue.NothingAfterOverflow | scripts/carla/check_carla_runtime.py:233-254 | overflow is never cleared and no packet is returned after it |
| AlignedQueue.FirstFailureIsSticky | scripts/carla/check_carla_runtime.py:220-236 | the first failure is kept in every run exactly when at most one thread calls back |
| AlignedQueue.FailureNeverClears | scripts/carla/check_carla_runtime.py:220-236 | with any number of callbacks a failure is never cleared |
| AlignedQueue.ConcurrentFailureIsReplaced | scripts/carla/check_carla_runtime.py:231-236 | for any two callbacks a concrete run in which the failure for frame 33 is replaced by that for frame 34 |
| QueueRefinement.CallIsDeliver | scripts/carla/check_carla_runtime.py:220-236 | one whole call of a single thread, as a run of single accesses, is the serial delivery |
| QueueRefinement.FrameIsARun | scripts/carla/check_carla_runtime.py:238-261 | every serial `frame`, whatever arrives around its passes, is a run of single accesses that leaves the same queue and hands out the same packet |
| TickLoop.DriftIsBounded | scripts/carla/check_carla_runtime.py:157-173 | after n ticks the frame is exact and the time within n tolerances of n steps |
| TickLoop.SnapshotAccepted | scripts/carla/check_carla_runtime.py:157-173 | the conditions on a snapshot spelled out, and the time it gives |
| TickLoop.PassExactly | scripts/carla/check_carla_runtime.py:529-572 | one pass of the tick loop: when it goes through, condition by condition, and what it then adds |
| TickLoop.RunSensorTicks | scripts/carla/check_carla_runtime.py:529-609 | the tick loop over two streams equals the specified run |
| TickLoop.SamplesAreAligned | scripts/carla/check_carla_runtime.py:529-609 | a completed run has one sample per requested tick, of the consecutive frames after warm-up, with both packets of that frame and time |
| TickLoop.RunExactly | scripts/carla/check_carla_runtime.py:529-609 | the whole loop completes exactly if every pass goes through, no stream has overflowed and two measured images differ |
| TickLoop.ScheduleNeverOverflows | scripts/carla/check_carla_runtime.py:529-572 | with one in-order packet per tick and stream, before or during the wait, no queue ever exceeds 11 or overflows, exactly 10 end up stale, and every measured tick gets its own packet |
| RuntimeGate.Gate.CleanUp | scripts/carla/check_carla_runtime.py:623-662 | the `finally` block attempts every call whatever the others do, stops an actor only if it is listening, and records exactly the broken calls |
| RuntimeGate.CleanupFollowsTheRun | scripts/carla/check_carla_runtime.py:460-672 | over positions of the run, wherever it raises: a restore exactly if the run came to `apply_settings`, also when that very step raises; a destroy of an actor exactly if its spawn returned, a stop if it also listens; controller, Traffic Manager and autopilot calls exactly if `_spawn_actors` returned |
| RuntimeGate.CleanupIsComplete | scripts/carla/check_carla_runtime.py:623-672 | one destroy per owned actor in reverse order, and one restore exactly if an apply was attempted |
| RuntimeGate.CleanupOrder | scripts/carla/check_carla_runtime.py:626-662 | controller, Traffic Manager and autopilot first, in this order; every stop directly before that actor's destroy; the restore last |
| RuntimeGate.PlanActs | scripts/carla/check_carla_runtime.py:299-412 | every mode comes to applying the settings, to the spawn of each of its actors and, in actor mode, to the return of `_spawn_actors` |
| RuntimeGate.CleanupPassed | scripts/carla/check_carla_runtime.py:624-672 | cleanup is PASS exactly when no call made raised, every destroy was acknowledged and after a restore the settings read are the original ones |
| RuntimeGate.ExecuteOutcome | scripts/carla/check_carla_runtime.py:460-622 | a body that raises leaves its active check failed; one that completes has passed every check it names |
| RuntimeGate.RaiseFailsItsCheck | scripts/carla/check_carla_runtime.py:460-622 | a named step that raises fails the check it belongs to |
| RuntimeGate.PassedExactly | scripts/carla/check_carla_runtime.py:460-622 | a check is PASS when the body ends exactly if the run came to its PASS and did not raise while it was active again |
| RuntimeGate.PlanCovers | scripts/carla/check_carla_runtime.py:459-622 | the body of each mode passes every required check but cleanup, and names no other |
| RuntimeGate.GatePasses | scripts/carla/check_carla_runtime.py:460-680 | all recorded checks are PASS exactly when no step raised, cleanup had no failure and the rehashed files are unchanged |
| RuntimeGate.FinishExactly | scripts/carla/check_carla_runtime.py:668-680 | the final status of each check: cleanup by its failures, provenance and handshake lost when their files changed, the others kept |
| RuntimeGate.SensorBody | scripts/carla/check_carla_runtime.py:518-619 | the body of the sensor gate goes through exactly when the tick loop completes on its data and nothing else in it raises |
| RuntimeGate.SensorsPassIsAligned | scripts/carla/check_carla_runtime.py:529-688 | all checks PASS in sensor mode means one aligned sample for exactly each requested consecutive frame |
| RuntimeGate.SensorReportIsAligned | scripts/carla/check_carla_runtime.py:684-687 | and so does the returned report whenever it records no content error |

## Left out

- Vulkan, gdb, CARLA, Unreal, ufbx and Assimp calls: each is a parameter or a recorded answer.
- JSON text, regular expressions, shell-word splitting, argument parsing, subprocesses, clocks and logs: the models start from parsed values; JSON encoding is a bijection and text decoding a shared parameter.
- SHA-256: an injective function from bytes to digests where a lemma says so; that a given digest is 64 lower-case hexadecimal digits is then a premise about that digest only.
- Floating point: `math.isclose`, rounding, NaN and infinities; geometry and time are exact reals, the 1e-4 drift bound is kept.
- File systems: a map from resolved path to bytes; permissions, partial reads and directory creation are only answers of the platform.
- Error and reason texts: only whether and which check fails is modelled; `Inspector.file`'s reasons are not.
- Python's recursion limit, memory and interrupts (KeyboardInterrupt during cleanup).
- DependencyInspector.FileIsExact: needs the absence of verified loops, because without it the property is false; `InspectionOrder.ExactInEveryOrder` has both directions.
- StageReport.EvidenceErrors: stated together with the check errors, because the evidence loop reads the required names that loop validates.
- AlignedQueue.EveryRunConserves: `queue.Queue` and `threading.Event` are atomic per call; nothing below that is modelled.
- SceneGeometry.CheckNodes: names, axes metadata, policy texts and the report's counts are not modelled; vectors have their sizes by type.
- SceneInstances.CheckMesh: attribute set names and their UV and colour channels are not modelled.
- SceneInstances.CheckInstance: UV and colour channels are not modelled; lengths are compared by their squares, since square roots are not.
- SceneGeometry.ComparePositions: positions of one instance; the surrounding field comparisons are plain equalities.
- RuntimeGate.ExecuteOutcome: what a step of the gate does beyond raising is its own; payload contents and the environment checks are answers.
- RuntimeGate.GatePasses: about the recorded checks; whether `write_report` then finds its own evidence in order is `StageReport`'s, joined in `SensorReportIsAligned`.
- PipelineLayout.LayoutOverride.ParseFile: only `parse_layout_override`; the replay, reflection and history pipelines of that program are not modelled. Numbers beyond 64 bits follow glibc.
- CacheLifecycle.Report: starts from parsed events and marker fields; the driver entries and line syntax they come from are not modelled.
- StaticParser.FbxParser.Fetch: the payload lock and the second result container are not modelled; tasks run serially in the worker.
- RuntimeEntry.FinalizeRun: within one validation of the endpoint report each path gives one answer; log, reporter and result evidence are one verdict per write.
- Smoke programs, build stages, header generators, manifest, drift and fork scripts: I/O and constants.
