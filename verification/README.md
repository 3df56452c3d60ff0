# Workflow tooling: a verified model

This project models five parts of the repository's workflow tooling and proves what they promise
over every input, every run or every reachable state.

- **Recovery quarantine.** Signed enter and release grants are driven through write-once files:
  reservation, marker or release claim, receipt, terminal, audit, acknowledgement. `QuarantineRecords`
  has the records and the chain check, `QuarantineProtocol` and `QuarantineTheorems` the state machine
  over them, `QuarantineDirectory` and `QuarantineStore` the directories (names, inodes, contents, link
  counts) and the operations on them, `QuarantineReruns` re-runs after stops, `QuarantineLauncher` the
  launcher's separate reader, `QuarantineResidue` what stops leave behind for it.
- **Recovery authority import.** Any number of importers publish one descriptor by hard links, one
  file-system call at a time: `RecoveryAuthority`, `RecoveryAuthoritySafety`, `RecoveryAuthorityResume`.
- **Shard scheduling.** Longest-processing-time placement and its bound (`LongestProcessingTime`,
  `Shards`, `ShardTheorems`, `ShardPlacement`), import closures (`ImportGraph`), forest ownership
  (`ImportForest`), discovery (`TestPaths`, `Topology`, `AdmittedSources`), the manifest validator and
  generator (`ShardManifest`, `ManifestFacts`, `ShardGeneration`, `ShardOrdinals`, `ShardRepository`).
- **Supervisor history and initial bootstrap.** The digest-linked history and the walk over it
  (`History`, `HistoryFacts`, `HistoryTheorems`), the three-phase initial bootstrap (`Bootstrap`,
  `BootstrapRun`, `BootstrapFacts`).
- **Canonical text, logs, telemetry and receipts.** `Json`, `JsonText` and `CanonicalJson`, the
  incremental counter and the failure locator (`RawLog`, `TapCounter`, `TapCounts`, `FailureLocator`,
  `LocatedFailures`), the reporter and the summary of its output (`Telemetry`, `TelemetrySummary`,
  `SummaryFacts`, `TelemetryPrefix`, `TelemetryBytes`), receipts (`Receipts`).

Methods are proved against functions, and `HistoryFacts`, `ShardPlacement`, `ShardOrdinals`,
`ManifestFacts`, `AdmittedSources`, `BootstrapFacts`, `JsonText`, `TapCounts`, `LocatedFailures` and
`SummaryFacts` say what those functions mean without using them: over the records, lines, units or
files themselves.

`Text`, `Encoding`, `Sorting`, `Lists` and `Results` hold what the others share.
`dafny verify dfyconfig.toml` checks the whole project.

Conventions. SHA-256 digests are symbolic and injective: a digest is the value it is of, or some other
digest. A signature check is an uninterpreted predicate. Durations are whole microseconds and other
times whole milliseconds; numbers in JSON are integers. A machine stops between two durable effects;
what was done before the stop is durable, as the source's `fsync` calls intend.

## Where the code and its promises part

- A lone import of the authority descriptor promises to leave no `descriptor.prepare.json`. That fails
  exactly when a settled `descriptor.json` had the file beside it when the import started
  (`RecoveryAuthorityResume.LoneImport`). Importers run one at a time never cause that
  (`ImportAfterSerialRuns`); two at once can (`ConcurrentImportersLeaveStray`).
- Discovery calls an imported test "unknown" because it tests the source text and not its presence. It
  does so only of a file that is there and empty, and always when nothing else is wrong
  (`Topology.Discover`, with `EmptyImport` and `OnlyTextMissing`); `EmptyImportIsUnknown` is such a
  source tree.
- The counter and the locator name the same first failure on exactly those newline-terminated logs where
  the first failing line with a name is also the first line the locator records: a TAP failure, or a
  node failure before the first node `tests` line (`FailureLocator.SameFirstFailure`). They part on a
  blank name (`BlankFirstDiffers`) and on a failure after that line (`FailureAfterTestsDiffers`).
- The launcher refuses a quarantine store with a temporary name in it, and the engine never removes some
  of those: a torn file, or a reservation or claim other than the one published. One stop between creating
  a file and writing it makes one (`QuarantineResidue.TornReservationIsRefused`), and the launcher then
  refuses the store for good, whatever is run (`RefusedForGood`). When every grant is audited, running the
  engine's readers makes the store acceptable exactly when there is no temporary name they keep, nor any
  beside the claims, which they do not read (`ReadThenInventory`, `KeptBesideAudited`).
- A telemetry report cut short is promised to be summarised without its unterminated end. Of its bytes
  that holds exactly when the cut parts no UTF-8 character; otherwise the whole input is refused
  (`TelemetryBytes.EveryByteCutIsDecided`). A report has a refused cut exactly when it holds a character
  beyond ASCII (`RefusedCuts`); `CutInsideNameIsRefused` is one. As text every prefix is accepted
  (`TelemetryPrefix.EveryPrefixIsSummarized`).

## Model

| member | source | states |
|---|---|---|
| LongestProcessingTime.PlacementBound | scripts/workflow-test-inventory.ts:305-351 | for descending weights, 24 times any shard's greedy load is at most 31 times the largest load of any assignment to eight shards |
| LongestProcessingTime.BigUnitFits | scripts/workflow-test-inventory.ts:326-335 | a unit of more than a third of the rival's best load always finds a shard where it stays within that load: the pigeonhole half of the bound |
| Shards.AssignWorkflowTestUnitsToShards | scripts/workflow-test-inventory.ts:305-351 | the loop that re-sorts the placements before every unit computes the greedy assignment, or reports the first invalid duration |
| ShardPlacement.AssignPlacesSo | scripts/workflow-test-inventory.ts:305-351 | the shards are those of taking the units longest first, equally long ones by ordinal, each to the least loaded shard, the lowest numbered of several; a shard lists its units by ordinal, and has its number, id, wrapper and total |
| ShardTheorems.AssignNearOptimal | scripts/workflow-test-inventory.ts:305-351 | the largest shard is at most 31/24 of the largest shard of any division of the same units over eight shards |
| ShardTheorems.AssignConserves | scripts/workflow-test-inventory.ts:336-350 | every unit lands in exactly one shard and a shard's duration is the sum of its units' |
| ShardTheorems.AssignOfPermutation | scripts/workflow-test-inventory.ts:312-317 | with distinct ordinals the order of the input does not matter |
| ShardTheorems.AssignIdempotent | scripts/workflow-test-inventory.ts:215-222 | assigning the flattened shards again gives the same shards |
| Text.AtMostMeans | scripts/workflow-test-inventory.ts:805-807 | texts compare by the first code unit that differs, a prefix first |
| Sorting.SortIsStable | scripts/workflow-test-inventory.ts:312-317 | sorting keeps the order of elements the comparator ties |
| ImportGraph.WorkflowTestImportClosures | scripts/workflow-test-inventory.ts:509-546 | the memoised search succeeds exactly when all imports are known and none forms a cycle; then each closure is the sorted set of reachable files; otherwise the error is a real unknown import or a real cycle |
| ImportGraph.CollectClosure | scripts/workflow-test-inventory.ts:734-746 | each reachable file once, on any graph, cyclic or not |
| ImportGraph.CollectedIsClosure | scripts/workflow-test-inventory.ts:487-493 | sorted, the plain collection is the closure the memoised search computed |
| ImportForest.OneEntrypoint | scripts/workflow-test-inventory.ts:447-477 | in a forest two entrypoints that reach one file are the same entrypoint |
| ImportForest.EveryFileHasEntrypoint | scripts/workflow-test-inventory.ts:447-477 | in a forest every file but a root is reached from some root's import |
| ImportForest.UnitsPartitionFiles | scripts/workflow-test-inventory.ts:479-502 | the units own every physical file exactly once |
| TestPaths.TestPathMeans | scripts/workflow-test-inventory.ts:752-774 | a test path lies below the test root, ends like a test, holds no forbidden character, and has no segment that is empty, `.` or `..` |
| TestPaths.DigestedFileSet | scripts/workflow-test-inventory.ts:370-382 | a file set is digested exactly when its members are test paths and distinct, and then by its sorted list |
| Topology.ParseTestImports | scripts/workflow-test-inventory.ts:695-717 | imports parse exactly when all are relative, resolve to test paths and are distinct |
| Topology.FindOwners | scripts/workflow-test-inventory.ts:447-463 | importers are found exactly when every imported file has text and no file has two importers |
| AdmittedSources.AdmissibleMeans | scripts/workflow-test-inventory.ts:390-507 | admissible sources are exactly those whose sources and roots are in order, where every file but a root is brought in by exactly one file and a root by none, only files with text are brought in, and no path of imports is a circle |
| Topology.UnitsAreExact | scripts/workflow-test-inventory.ts:496-502 | in an admissible topology both final exactness checks pass |
| Topology.Discover | scripts/workflow-test-inventory.ts:390-507 | discovery succeeds exactly on admissible sources, its units then own every file once, and the two final checks are never the ones that fail; an import is called unknown only when its file is there and empty |
| Topology.EmptyImportIsUnknown | scripts/workflow-test-inventory.ts:447-463 | a source tree in which a root imports an empty test that is there, and discovery calls it unknown |
| ShardManifest.AddFiles | scripts/workflow-test-inventory.ts:184-193 | files get an owner exactly when all are test paths, distinct and not owned yet |
| ShardManifest.AssignedShardOk | scripts/workflow-test-inventory.ts:122-198 | shard identity, unit order and shard duration follow from the shards being the assignment of their units |
| ShardManifest.SortedOrdinals | scripts/workflow-test-inventory.ts:200-206 | sorted distinct ordinals count up from one exactly when none up to their number is missing |
| ShardManifest.Validate | scripts/workflow-test-inventory.ts:108-229 | the validator accepts exactly the valid manifests |
| ManifestFacts.ValidMeans | scripts/workflow-test-inventory.ts:108-229 | a manifest is valid exactly when its units own their entrypoints and ordered test files, share none, and are numbered from one without gap or repetition, its counts are those of the units and of the files they list, its shards are the assignment of its units, and its digest is of all that |
| ShardGeneration.AggregateTiming | scripts/generate-workflow-test-shards.ts:44-69 | timing succeeds exactly when every outermost record names a physical test, and then holds each file's total and first sequence |
| ShardGeneration.WeighUnit | scripts/generate-workflow-test-shards.ts:71-81 | a unit's total and first sequence over the map are those over the telemetry itself |
| ShardGeneration.RankUnits | scripts/generate-workflow-test-shards.ts:71-99 | units get the places of the legacy order: seen units first, by first record, then by entrypoint |
| ShardOrdinals.OrdinalsFollowTelemetry | scripts/generate-workflow-test-shards.ts:71-96 | one unit has a smaller ordinal than another exactly when some outermost record about it precedes every one about the other, or neither is so and its entrypoint comes first |
| ShardOrdinals.RankedUnitSays | scripts/generate-workflow-test-shards.ts:71-99 | a ranked unit keeps its entrypoint and files, and has the duration of the outermost records about them |
| ShardGeneration.RankedUnitsContiguous | scripts/generate-workflow-test-shards.ts:82-99 | the ordinals are one to the number of units, none missing |
| ShardGeneration.TelemetryConserved | scripts/generate-workflow-test-shards.ts:44-81 | the units' durations add up to all outermost telemetry, nothing lost or counted twice |
| ShardGeneration.BuiltIsValid | scripts/generate-workflow-test-shards.ts:100-114 | from a valid topology the manifest is valid exactly when the run id is well formed |
| ShardGeneration.BuildWorkflowTestShardManifest | scripts/generate-workflow-test-shards.ts:35-115 | generation fails only on telemetry of unknown files or a malformed run id, and returns a valid manifest of the ranked units |
| ShardGeneration.DiscoverValid | scripts/workflow-test-inventory.ts:390-507 | what discovery returns is a topology the generator can rely on |
| ShardRepository.ValidateInRepository | scripts/workflow-test-inventory.ts:231-271 | the comparison with a repository accepts exactly the valid manifests that own its files and describe its units |
| ShardRepository.DescribesMeans | scripts/workflow-test-inventory.ts:231-271 | a manifest describes a repository exactly when its entrypoints, each with its files, are those discovered, and its units own exactly the physical files |
| ShardRepository.GenerateThenValidate | scripts/generate-workflow-test-shards.ts:35-115 | a generated manifest is never refused over the repository it was generated from |
| QuarantineRecords.ChainAcceptsPrefixes | packages/workflow-engine/src/recovery-quarantine.ts:1366-1436 | the chain check accepts exactly the non-empty prefixes of the five records one reservation determines, with times that do not run backwards |
| QuarantineRecords.ChainMeans | packages/workflow-engine/src/recovery-quarantine.ts:1366-1436 | the chain check accepts exactly records that come in order and agree field by field with the reserved grant and with each other |
| QuarantineProtocol.StepKeepsInv | packages/workflow-engine/src/recovery-quarantine.ts:258-417 | every write an operation may make keeps the invariant tying grants, claims, marker and ledger |
| QuarantineTheorems.ReachableKeepsInv | packages/workflow-engine/src/recovery-quarantine.ts:258-417 | so does every history from an empty store |
| QuarantineTheorems.RecordsSay | packages/workflow-engine/src/recovery-quarantine.ts:258-417 | in every reachable store records come in order and are dated by their reservation, made inside the grant's window, and a claim names the release that made it |
| QuarantineTheorems.AtMostOneRelease | packages/workflow-engine/src/recovery-quarantine.ts:350-385 | at most one release grant ever gets a receipt for a given marker |
| QuarantineTheorems.RetiredForever | packages/workflow-engine/src/recovery-quarantine.ts:273-292 | a marker once consumed and removed is never active again |
| QuarantineTheorems.RemovalJustified | packages/workflow-engine/src/recovery-quarantine.ts:386-413 | a marker stops being active by one step, and when that step is taken its enter grant and the removing release grant are already terminal |
| QuarantineTheorems.RemovesOnlyNamedMarker | packages/workflow-engine/src/recovery-quarantine.ts:1701-1718 | however often it is resumed, an operation removes only the marker its release grant names |
| QuarantineTheorems.ResumptionKeepsOutcome | packages/workflow-engine/src/recovery-quarantine.ts:497-567 | stopping and resuming under any clock changes nothing about the durable records the completed grant leaves |
| QuarantineTheorems.FinishedIsFinal | packages/workflow-engine/src/recovery-quarantine.ts:637-678 | after the acknowledgement the operation writes nothing more |
| QuarantineTheorems.LedgerRepeatsOneRecord | packages/workflow-engine/src/recovery-quarantine.ts:637-678 | every audit append of one operation carries the same record |
| QuarantineDirectory.LinkPublishes | packages/workflow-engine/src/recovery-quarantine.ts:1526-1553 | linking a complete temporary binds exactly its target name to exactly its record |
| QuarantineStore.Volume.ReconcileTemporaries | packages/workflow-engine/src/recovery-quarantine.ts:1559-1594 | one reconcile pass never fails, keeps every record, leaves every published file with one link, and, where each had one before, removes exactly the temporary copies of published records |
| QuarantineStore.Volume.EnsureImmutable | packages/workflow-engine/src/recovery-quarantine.ts:1510-1557 | write-once publication succeeds exactly when the name is free or holds this record; stopped, it has published or changed nothing |
| QuarantineStore.Volume.ReadGrantRecord | packages/workflow-engine/src/recovery-quarantine.ts:429-470 | the reader returns the grant's files, which the chain check always accepts, and fails only without a reservation |
| QuarantineStore.LetIn | packages/workflow-engine/src/recovery-quarantine.ts:497-635 | an operation is let in exactly with a genuine grant, signed for the loaded authority and signer and of a window of at most five minutes, that is fresh and in its window or its own reservation not yet acknowledged; a grant that fails only its signature is refused for that |
| QuarantineStore.WhyNotLetIn | packages/workflow-engine/src/recovery-quarantine.ts:497-635 | which error each other grant is refused with |
| QuarantineStore.Volume.ExecuteEnter | packages/workflow-engine/src/recovery-quarantine.ts:258-334 | only steps of its own grant; completion leaves the grant's completed records, and only for a genuine, welcome grant; any other is refused with no record written, one unsigned for its signature; unstopped, it completes or fails as the starting records call for |
| QuarantineStore.Volume.ExecuteRelease | packages/workflow-engine/src/recovery-quarantine.ts:336-417 | the same for release |
| QuarantineStore.ResumedRunCompletes | packages/workflow-engine/src/recovery-quarantine.ts:497-567 | a stopped reserved grant is complete, or still accepted under any later clock with the same records to come |
| QuarantineReruns.RerunAfterStops | packages/workflow-engine/src/recovery-quarantine.ts:258-417 | after stops anywhere, any number of times, the re-run ends with the durable records of one uninterrupted run, and all audit appends carried one record |
| QuarantineReruns.ExecuteAll | packages/workflow-engine/src/recovery-quarantine.ts:258-417 | any sequence of operations on a new store, each stopped anywhere, leaves durable records that a run of the state machine from the empty store leaves |
| QuarantineLauncher.ReadInventory | packages/workflow-engine/bootstrap/control-plane-trust.ts:7256-7477 | of any store the launcher accepts exactly those it can read in full, with the marker they hold; in every reachable store those are the quiescent ones and the marker is the engine's |
| QuarantineLauncher.ReadHistoryMeans | packages/workflow-engine/bootstrap/control-plane-trust.ts:7295-7430 | of any grant directory the launcher accepts exactly five records, alone in their files, of one grant and operation about one marker, each naming those before it |
| QuarantineResidue.RefusedForGood | packages/workflow-engine/src/recovery-quarantine.ts:1554-1594 | a torn temporary file, or one beside a different published record of a grant or claim, survives any operations, each stopped anywhere, and the launcher refuses the store |
| QuarantineResidue.TornReservationIsRefused | packages/workflow-engine/src/recovery-quarantine.ts:1510-1557 | one stop between creating and writing a reservation's file makes the launcher refuse after whatever is run |
| QuarantineResidue.ReadThenInventory | packages/workflow-engine/bootstrap/control-plane-trust.ts:7256-7477 | with every grant audited, running the engine's readers leaves a store the launcher accepts exactly when they keep no temporary name and there is none beside the claims; then both read the same marker |
| QuarantineResidue.KeptBesideAudited | packages/workflow-engine/src/recovery-quarantine.ts:1559-1594 | beside an audited grant's records, what a reconcile pass keeps is what nothing ever removes |
| RecoveryAuthoritySafety.StepKeepsInv | packages/workflow-engine/src/recovery-authority.ts:294-326 | every file-system call, start or stop of any importer keeps the directory invariant and never unbinds or changes the target |
| RecoveryAuthoritySafety.TargetIsComplete | packages/workflow-engine/src/recovery-authority.ts:294-326 | under any interleaving `descriptor.json` is unbound or one complete descriptor |
| RecoveryAuthoritySafety.TargetWrittenOnce | packages/workflow-engine/src/recovery-authority.ts:421-449 | once bound it is the same file with the same contents for good |
| RecoveryAuthoritySafety.SuccessfulImportersAgree | packages/workflow-engine/src/recovery-authority.ts:294-326 | importers that return have the same descriptor, the published one |
| RecoveryAuthoritySafety.SeenBeforeActing | packages/workflow-engine/src/recovery-authority.ts:349-466 | in any directory, reachable or not, an importer returns only on its own complete descriptor with one link, and links or unlinks a name only after seeing its own complete descriptor there |
| RecoveryAuthoritySafety.TouchesOnlyItsName | packages/workflow-engine/src/recovery-authority.ts:381-466 | one call binds or unbinds at most the name the importer is at, and never unbinds the target |
| RecoveryAuthorityResume.LoneStep | packages/workflow-engine/src/recovery-authority.ts:349-466 | every call of a lone importer brings it nearer to returning |
| RecoveryAuthorityResume.LoneImport | packages/workflow-engine/src/recovery-authority.ts:294-326 | a lone importer never fails after any stops of the same descriptor's importers, ends with the target at one link, and leaves `descriptor.prepare.json` exactly if it started as a stray |
| RecoveryAuthorityResume.LoneImportReturns | packages/workflow-engine/src/recovery-authority.ts:519-558 | and it does return |
| RecoveryAuthorityResume.SerialRunsLeaveNoStray | packages/workflow-engine/src/recovery-authority.ts:381-419 | importers run one at a time, each stopped anywhere, never leave the stray |
| RecoveryAuthorityResume.ImportAfterSerialRuns | packages/workflow-engine/src/recovery-authority.ts:294-326 | from an empty directory, after any importers of one descriptor one at a time, each stopped anywhere, one more importer returns, and then `descriptor.json` has one link and `descriptor.prepare.json` is gone |
| RecoveryAuthorityResume.ConcurrentImportersLeaveStray | packages/workflow-engine/src/recovery-authority.ts:349-379 | two importers of one descriptor at once can leave it: a run that does |
| Json.ReadPrinted | packages/workflow-engine/bootstrap/canonical-json.ts:9-50 | a reader undoes the printer, whatever text follows |
| Json.CanonicalTextIsMeaning | packages/workflow-engine/bootstrap/canonical-json.ts:5-50 | two values have the same canonical text exactly when they are equal with objects read as finite maps |
| Json.CanonicalTextReadsBack | packages/workflow-engine/bootstrap/canonical-json.ts:5-50 | reading canonical text gives a value of the same meaning and the same canonical text |
| Json.CanonicalKeysAscend | packages/workflow-engine/bootstrap/canonical-json.ts:36-43 | in every object of the text keys ascend by UTF-16 code unit (section 3.2.3 of RFC 8785) |
| Json.TornTextUnreadable | packages/workflow-engine/bootstrap/canonical-json.ts:5-50 | a canonical file cut short is never a canonical file |
| JsonText.StringText | packages/workflow-engine/bootstrap/canonical-json.ts:12-13 | a string is its units, each as itself if it may be, else by its two-unit escape, else by four hexadecimal digits; a surrogate pair is kept |
| JsonText.NumberText | packages/workflow-engine/bootstrap/canonical-json.ts:16-17 | a number is its decimal digits, without a leading zero, after a minus sign if negative |
| JsonText.ArrayText | packages/workflow-engine/bootstrap/canonical-json.ts:24-32 | an array is its items between brackets with commas |
| JsonText.ObjectText | packages/workflow-engine/bootstrap/canonical-json.ts:36-43 | an object is its keys and values between braces with colons and commas |
| CanonicalJson.DenotesOne | packages/workflow-engine/bootstrap/canonical-json.ts:21-35 | an object graph unfolds to at most one finite tree |
| CanonicalJson.CanonicalText | packages/workflow-engine/bootstrap/canonical-json.ts:5-50 | text is given exactly for the values that unfold to a finite tree of plain data, as that tree's canonical text |
| History.ListingOrderDoesNotMatter | packages/workflow-engine/bootstrap/control-plane-trust.ts:4495-4545 | whether a directory holds a history, and which, does not depend on how it is listed |
| History.OneHistory | packages/workflow-engine/bootstrap/control-plane-trust.ts:4539-4587 | a directory holds at most one history |
| History.ForkCheckIsImplied | packages/workflow-engine/bootstrap/control-plane-trust.ts:4522-4538 | a chain passes the duplicate check and the fork count |
| History.CheckForks | packages/workflow-engine/bootstrap/control-plane-trust.ts:4522-4538 | the two checks accept exactly lists without a repeated digest and without two records naming one predecessor |
| History.ReadBootstrapSupervisorHistory | packages/workflow-engine/bootstrap/control-plane-trust.ts:4495-4588 | the reader accepts exactly the directories that hold a history, and returns it |
| HistoryFacts.ChainIsHistory | packages/workflow-engine/bootstrap/control-plane-trust.ts:4776-4833 | records form a chain exactly when they are an anchor and transactions whose candidates start from the supervisor before them, whose rollbacks restore it with the candidate's lineage, and whose terminal records name the last transition's target; one repository, linked digests, and times that never run backwards |
| HistoryFacts.HoldsMeans | packages/workflow-engine/bootstrap/control-plane-trust.ts:4495-4588 | a directory holds a history exactly when its files are those of such records, each well formed |
| HistoryFacts.SupervisorsFollow | packages/workflow-engine/bootstrap/control-plane-trust.ts:4776-4833 | the leaf's supervisor is fixed by the last transaction |
| HistoryTheorems.HistoryIsTransactions | packages/workflow-engine/bootstrap/control-plane-trust.ts:4546-4587 | an accepted history is an anchor and one or more finalized or rolled-back transactions; the leaf's generation, artifact and trust commit are the ones those transactions give |
| HistoryTheorems.WalkVisitsEachTerminalOnce | packages/workflow-engine/bootstrap/control-plane-trust.ts:4165-4215 | the walk stops once at every terminal record, in order, and nowhere else |
| HistoryTheorems.WalkHistory | packages/workflow-engine/bootstrap/control-plane-trust.ts:4161-4216 | over an accepted history the walk meets no grammar error, ends at the last record, and expects exactly the grants named by terminal records and by a legacy anchor |
| Bootstrap.StandingHas | packages/workflow-engine/bootstrap/control-plane-trust.ts:2995-3073 | in every state stopped runs leave, a publication is final, pending or absent by its place in the order |
| BootstrapFacts.LeftInOrder | packages/workflow-engine/bootstrap/control-plane-trust.ts:915-1075 | whatever stopped runs left, each journal record is there only after what it records, the supervisor only after the whole artifact, all of the settled time |
| BootstrapFacts.FinishedIsComplete | packages/workflow-engine/bootstrap/control-plane-trust.ts:915-1075 | the finished disk has the three journal records, each naming the one before, exactly the artifact's files and directories, the supervisor, and nothing pending |
| BootstrapRun.Storage.PublishExactPrivateFile | packages/workflow-engine/bootstrap/control-plane-trust.ts:2995-3073 | publishing an exact file: corruption exactly on a different or doubled file, else pending then final |
| BootstrapRun.Storage.AssertInventory | packages/workflow-engine/bootstrap/control-plane-trust.ts:2134-2210 | on any disk, accepted exactly when the phases' records form a prefix, at most the last pending, and account for all that is there; then they are counted |
| BootstrapRun.Storage.ResolveTimestamp | packages/workflow-engine/bootstrap/control-plane-trust.ts:2212-2253 | the timestamp whose prepared record is there, the requested one if none is, corruption if it is the prepared record of no timestamp |
| BootstrapRun.Storage.Materialize | packages/workflow-engine/bootstrap/control-plane-trust.ts:2734-2794 | materializing resumes after any stop and ends with the artifact complete |
| BootstrapRun.Storage.InitializeBuiltInControlPlaneSupervisor | packages/workflow-engine/bootstrap/control-plane-trust.ts:915-1075 | whatever earlier runs left, no corruption is reported, the settled timestamp is kept or, exactly when this run is the first to prepare, set to its clock, and an unstopped run leaves the finished disk of that timestamp |
| BootstrapRun.BootstrapAfterStops | packages/workflow-engine/bootstrap/control-plane-trust.ts:915-1075 | after any stopped attempts under any clocks the same journal, artifact and supervisor bytes, all at the clock of the first attempt that prepared |
| RawLog.EndedLinesAppend | scripts/full-gate-progress.ts:415-436 | bytes that come later change no line already ended |
| RawLog.EndedLinesAre | scripts/full-gate-progress.ts:415-436 | every newline ends one line, which holds the bytes before it but for one carriage return, the next begins after it, and no newline is left over |
| RawLog.WalkerVisitsEndedLines | scripts/full-gate-progress.ts:692-711 | on a newline-terminated log the walker visits exactly the lines, with offsets, that the counter consumes |
| TapCounter.FullGateTapCounter.Push | scripts/full-gate-progress.ts:415-436 | after any chunk the counts are those of all bytes so far |
| TapCounter.FullGateTapCounter.TakeFirstFailureTransition | scripts/full-gate-progress.ts:451-455 | answers yes once, the first time after a failure is counted |
| TapCounter.PushAll | scripts/full-gate-progress.ts:415-461 | progress and first failure depend only on the concatenation of the chunks |
| TapCounts.ProgressIs | scripts/full-gate-progress.ts:463-522 | cancelled, skipped, todo, total and duration are the last summary line's; pass, fail and completed are the last summary's plus the results counted after it, a node result only before the first node `tests` line |
| FailureLocator.LocateFullGateFailures | scripts/full-gate-progress.ts:531-593 | the search over the visited lines, with a limit of one to a hundred and truncation exactly beyond it |
| LocatedFailures.SearchMeans | scripts/full-gate-progress.ts:531-593 | the lines listed, up to the limit, are the TAP failures and the node failures before the number of tests, in order, each with its line, offset, bounded name and number |
| LocatedFailures.NameMeans | scripts/full-gate-progress.ts:713-717 | a listed name is the words of the line's name with single spaces, cut to 240 units with an ellipsis |
| FailureLocator.CounterFirstFailure | scripts/full-gate-progress.ts:523-529 | the counter's first failure is the first failing line with a name, whatever summaries say |
| FailureLocator.CounterAgreesWithLocator | scripts/full-gate-progress.ts:463-593 | up to the first summary line both count the same failures, and name the same first one exactly when its name is not blank |
| FailureLocator.SameFirstFailure | scripts/full-gate-progress.ts:463-593 | on every newline-terminated log both name the same first failure, or none, exactly when the first failing line with a name is the first line the locator records |
| FailureLocator.NamedFirstAgrees | scripts/full-gate-progress.ts:463-593 | a log on which they agree |
| FailureLocator.BlankFirstDiffers | scripts/full-gate-progress.ts:523-529 | a log that begins with a failure of blank name, which only the locator names |
| FailureLocator.FailureAfterTestsDiffers | scripts/full-gate-progress.ts:463-475 | a log with a failing node line after the number of tests, which only the counter names |
| Telemetry.FullGateReporter.Observe | scripts/full-gate-reporter.ts:82-120 | a completed test node becomes the next numbered record, skipped, todo, passed or not passed in that order, with the event's file, name, nesting and duration, and its line is written; an event that cannot be written changes nothing |
| TelemetrySummary.SummarizeFullGateTelemetryJsonl | scripts/full-gate-telemetry-summary.ts:148-235 | the loop reads the lines in order and reports the first error |
| TelemetrySummary.SummarizeFullGateTelemetry | scripts/full-gate-telemetry-summary.ts:135-145 | the byte entry point decodes strictly, and reads the text it gets as the text entry point does |
| SummaryFacts.SummaryMeans | scripts/full-gate-telemetry-summary.ts:273-360 | observed files are distinct, ascending and exactly those records name; the counts are of records; the slowest are at most twenty, all if no more, in falling duration, none left out slower; files fall in total duration |
| SummaryFacts.LineMeans | scripts/full-gate-telemetry-summary.ts:185-235 | a line is a record exactly when it is within its bound, has exactly the nine properties of the record and numbers it next; the footer exactly when it is last and counts the records |
| SummaryFacts.TextMeans | scripts/full-gate-telemetry-summary.ts:148-235 | telemetry is summarised exactly when it is within its bounds, every line is accepted and nothing follows the footer; it is complete exactly when it ends in the footer |
| TelemetrySummary.FiguresAddUp | scripts/full-gate-telemetry-summary.ts:273-360 | per-file node counts, outcomes and durations sum to the totals |
| TelemetrySummary.TimingsAreExact | scripts/full-gate-telemetry-summary.ts:278-306 | every file has one timing, the figures of the records about it |
| TelemetryPrefix.RecordReadsBack | scripts/full-gate-telemetry-summary.ts:366-406 | parsing undoes the reporter's serialization, but for what the summary does to texts |
| TelemetryPrefix.EveryPrefixIsSummarized | scripts/full-gate-telemetry-summary.ts:155-235 | every prefix of the reporter's text is accepted, counts exactly the whole lines' records, and is complete only as a whole |
| Encoding.CutReads | scripts/full-gate-telemetry-summary.ts:528-534 | UTF-8 text cut at any byte decodes exactly when the cut falls between characters, to the characters before it |
| Encoding.DecodesExactly | scripts/full-gate-telemetry-summary.ts:528-534 | bytes decode to a text exactly when they are its UTF-8, a byte order mark aside, and no surrogate in it lacks its partner |
| Encoding.Utf8Means | scripts/full-gate-telemetry-summary.ts:148-153 | each character is encoded in the shortest form (section 3 of RFC 3629), half a surrogate pair as U+FFFD |
| TelemetryBytes.EveryByteCutIsDecided | scripts/full-gate-telemetry-summary.ts:135-235 | every byte prefix of the reporter's bytes is accepted exactly when it parts no character; it then counts exactly the whole lines' records, and is complete only as a whole |
| TelemetryBytes.RefusedCuts | scripts/full-gate-telemetry-summary.ts:528-534 | a report has a refused cut exactly when it holds a character beyond ASCII |
| TelemetryBytes.CutInsideNameIsRefused | scripts/full-gate-telemetry-summary.ts:528-534 | a report of one test with an accent in its name, cut after that letter's first byte, is refused |
| Receipts.ValidateFullGateCoverage | scripts/full-gate-progress.ts:595-652 | coverage evidence is that of the telemetry and a well-formed expectation, else the matching error |
| Receipts.CoverageMeans | scripts/full-gate-progress.ts:595-652 | coverage matches exactly when the observed files are the expected ones in whatever order, and repeats the summary's other figures |
| Receipts.OutcomeMeans | scripts/full-gate-progress.ts:719-760 | a run is interrupted exactly by a signal or for want of an exit code, and passed exactly when its exit, head, identity, counts and coverage all agree |
| Receipts.IdentityShapeMeans | scripts/full-gate-progress.ts:893-929 | an identity has the required shape exactly when its tree is 40 or 64 hexadecimal digits, its command is non-empty lines and its directory a relative path without `..` |
| Receipts.AcceptedReceiptMeans | scripts/full-gate-progress.ts:654-690 | an accepted receipt is its own digest's, of a clean exit at the same head and identity; its digests and sizes are of the evidence; it has no failed or cancelled test, a total of passes, skips and todos, and an observed file set equal to the expected one |
| Receipts.ReusableExactlyForItsEvidence | scripts/full-gate-progress.ts:719-840 | a receipt created as passed is reusable exactly when the run was well formed and the identity and evidence are its own |

## Left out

- File modes, owners, symlinks, real paths, before-and-after stat comparisons and namespace
  classification: only names, inodes, contents, link counts and directories are modelled.
- The contents of a signature check, Git calls, child processes, restart probes and prompts: an
  uninterpreted predicate or nothing.
- Field-by-field validation of grants, bundles, manifests and reviews, exact-key checks, the form of
  digests and ISO timestamps, and constant header fields (kinds, schema versions, the algorithm block).
- QuarantineStore.Volume.EnsureImmutable: the branch for a target that appears between the check and
  the link is not modelled, because one operation runs at a time.
- Truly concurrent quarantine operations, and the cross-process gate lock.
- RecoveryAuthority: importers are steps of a state machine on values, not methods, because their calls
  interleave; a process's own file descriptors and inode reuse are not modelled.
- BootstrapRun.Storage.PublishExactPrivateFile: a `.pending` file is written at once, files are never
  empty (the source's exact-file reader refuses zero bytes), and the repository's provenance does not
  change during or between runs.
- BootstrapRun.Storage.AssertInventory: names outside the journal's six, and entries that are no plain
  files, are not modelled.
- HistoryTheorems.WalkHistory: the check of one stop against its control-update record is an
  uninterpreted predicate, and the final listing of the control-update directory is left out.
- Topology.Discover: source text is already split into import specifiers and the outcomes of the
  textual checks; the two roots are a list of any length, and reading a loader never fails.
- Topology.ParseTestImports: the specifiers and the paths they resolve to are given to it.
- TestPaths.DigestedFileSet: Unicode normalisation (NFC) of paths is not modelled.
- ShardManifest.Validate: constant header fields and the form of digests are left out, counts and
  ordinals are unbounded integers, and comparison with the English locale is equality.
- ShardRepository.ValidateInRepository: the text of the shard wrapper files is not compared.
- ShardRepository.GenerateThenValidate: likewise.
- ShardGeneration.BuildWorkflowTestShardManifest: telemetry is already parsed.
- Shards.AssignWorkflowTestUnitsToShards: rounding of fractional milliseconds is not modelled.
- CanonicalJson.CanonicalText: numbers are integers printed in full, so fractions, exponents and negative
  zero are left out; `Json.Parse` reads the compact form only.
- TapCounter.FullGateTapCounter.Push: decoding a line and matching it against patterns is a function
  given to the class; fractional durations are integers.
- FailureLocator.LocateFullGateFailures: likewise.
- TelemetrySummary.SummarizeFullGateTelemetryJsonl: normalising and escaping texts is a function given to
  it; an object that repeats a key is refused rather than read with its last value; the file the bytes
  come from is not modelled.
- Telemetry.FullGateReporter.Observe: cleaning and bounding of texts, and the sidecar's file handling,
  happen before and after the model.
- Receipts.ValidateFullGateCoverage: the form of the inventory digest is not checked.
- The progress snapshots of `advanceFullGateProgress`, rendering of summaries, `cli.ts`, launcher
  dispatch, and the applications under `apps` are not modelled.
