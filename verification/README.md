# SpecBox engine: verified models of its stateful cores

The SpecBox engine is an MCP server that keeps a product's documents, decisions and board. Most of it is
plumbing; this project models the parts with state and exact behaviour, and proves what they are for.

| files | what they model |
|---|---|
| `workspace.dfy`, `workspace_paths.dfy`, `workspace_history.dfy` | content mode: which paths are accepted, the overlay of a client's files, the patch it reports, and runs on a partial upload |
| `zones.dfy`, `zone_marks.dfy`, `markers.dfy`, `marker_attributes.dfy`, `tiling.dfy`, `validation.dfy`, `signature.dfy` | zone documents: the line parser with its error states, the marker grammar, the splice of one zone, validation and signatures |
| `registry.dfy`, `versions.dfy`, `registry_targets.dfy`, `sync.dfy`, `sync_effect.dfy` | the canonical documents and their synchroniser |
| `canonical.dfy` | promotion of confirmed decisions |
| `queue_text.dfy`, `queue_round_trip.dfy`, `queue.dfy` | the decisions queue, a Markdown file as a database |
| `ratelimit.dfy`, `bodyguard.dfy` | the sliding-window rate limiter and the request body guard |
| `board.dfy`, `board_history.dfy`, `dual.dfy`, `convergence.dfy` | FreeForm, native and remote boards, and the wrapper that writes to a primary board and a best-effort native mirror |
| `native.dfy`, `native_columns.dfy`, `native_epics.dfy`, `ingest.dfy`, `ingest_contents.dfy` | the native backend: guarded updates over interleavings, transactional ingestion, real deletion |
| `decimals.dfy`, `freeform.dfy`, `epics.dfy`, `epic_moves.dfy`, `epic_counts.dfy`, `itemids.dfy` | fragments of a FreeForm board and their id floors, epics and their totals, ids in names |
| `prd_text.dfy`, `prd_round_trip.dfy`, `prd_deltas.dfy`, `prd_names.dfy`, `prd_append.dfy`, `prd_status.dfy`, `prd_verdict.dfy` | implementation status in a PRD: written, appended and parsed |
| `hygiene.dfy`, `hygiene_counts.dfy` | the registry scrubber and the attribution of entries |
| `text.dfy`, `strings.dfy`, `lists.dfy`, `wrappers.dfy` | strings and lists as Python sees them, and the result types |

Objects whose methods update their fields are classes; each method is proved against a function of the old state,
and the properties are lemmas about these functions and about whole runs of them. Code that only computes is
functions. Exceptions are `Result` or `Option` values. Clocks, random ids and stored files are parameters or
fields.

## What the code does not do

Where a promise of the code or its documentation turned out to have an exception, the model keeps the code's
behaviour, the condition under which the promise holds is proved, and a lemma gives an input outside it:

| promise | exception | condition | input |
|---|---|---|---|
| a path is normal after one normalisation | a path with a drive-like part is accepted after `./` and refused when its normal form is sent back | `NormalizeTwice` | `DriveLikeAnswerRefused` |
| the patch replays the overlay | a file that was appended to and then removed comes back, unless it was also written | `PatchReplay` | `UnlinkedLogComesBack` |
| an empty `files_requested` means a complete upload | the filtered list can hide a request that changed an answer | `PartialUploadExact` | `ReportedRequestsMislead` |
| a version with a suffix counts as the numbers before it | the numbers of the suffix count, too, so a pre-release comes after its release | `VersionReads` | `PreReleaseIsLater` |
| the returned wait suffices | a caller who asks for more than one hit may have to wait longer | `WaitForMany` | `WaitTooShort` |
| the mirror follows archiving | a FreeForm item the wrapper never resolved stays active on the mirror for good | `ArchiveExact` | `ArchivedUnseen` |
| the mirror follows creation | a new item under a parent that does not resolve to a story, or with the id of an archived row, never reaches the mirror; a story without a state gets one there | `CreateExact` | `OrphanUntold`, `ArchivedIdIsGone`, `StateMadeUp` |
| the mirror follows criteria | criteria of a story, or with an id that is taken or given twice, are refused by the mirror's table | `CriteriaExact` | `CriteriaUntold` |
| the mirror follows updates | an update with a parent that does not resolve to a story is lost as a whole, its name included | `UpdateExact` | `NameUntold` |
| the mirror follows purges | FreeForm purges a story, too, and the mirror only use cases | `PurgeExact` | `StoryStays` |
| a version guard protects what was read | a row purged and created again starts over at version 1, so an old guard can meet the new row | `GuardFindsWhatWasRead`, `GuardMeetsNewRow` | `RecreatedRowFoolsGuard`, `BothWin` |
| an ingestion can be repeated | a plan with an item that has no logical id aborts when it is run again | `IngestAgain` | `NamelessAborts` |
| board groups sum to the board | not when a story's epic is listed twice | `StoriesAddUp` | `ListedTwice` |
| a phase reads back | one of more than 500 words loses all its fields, because the truncation joins its lines; the single decision "ninguna" reads back as none | `PhaseReadsBack`, `OverBudgetLosesFields`, `DecisionsRead` | `FailureIsLost`, `NingunaIsLost` |
| deltas are counted | a phase without a plan counts as differing, and a file named after the phrase hides a difference | `CountedWhenDiffers` | `PhraseInName` |
| an appended status is found | not in a PRD that mentions the section's phrase without having its heading | `AppendAddsOne` | `MentionedIsNotFound` |
| unclaiming undoes claiming | a claimed entry does not get back an empty owner field it had | `UnclaimUndoesClaim` | `EmptyOwnerIsLost` |

## Model

| member | source | states |
|---|---|---|
| Workspace.NormalizeTwice | server/app_docs/workspace.py:37-46 | a normal path has no empty, dot or parent part, and is normal already exactly when its first part has no colon and it is not blank |
| Workspace.DriveLikeAnswerRefused | server/app_docs/workspace.py:37-46 | every path with a colon in its first part is refused as it stands and accepted after `./` |
| WorkspacePaths.NormalizeExact | server/app_docs/workspace.py:37-46 | a path is accepted exactly when it is not blank, has no backslash, NUL or leading slash, no colon before its first slash, no parent part and some part to keep; the result is the parts that are neither empty nor a dot, in order |
| Workspace.MemoryWorkspace.Exists | server/app_docs/workspace.py:217-221 | the answer and the new state are those of the step; a miss is recorded |
| Workspace.MemoryWorkspace.IsFile | server/app_docs/workspace.py:223-227 | the same for files; a directory is no request |
| Workspace.MemoryWorkspace.ReadText | server/app_docs/workspace.py:264-269 | the overlay's text, or FileNotFoundError with the miss recorded |
| Workspace.MemoryWorkspace.WriteText | server/app_docs/workspace.py:274-277 | the file is replaced and marked written, nothing else changes |
| Workspace.MemoryWorkspace.AppendText | server/app_docs/workspace.py:111-126 | the text goes to the end of the file and of the appended log |
| Workspace.MemoryWorkspace.Unlink | server/app_docs/workspace.py:290-294 | the file goes; a missing one raises unless allowed |
| Workspace.MemoryWorkspace.Mkdir | server/app_docs/workspace.py:282-284 | the directory and its ancestors exist |
| Workspace.AppendsConserved | server/app_docs/workspace.py:111-126 | over any run, what is left of an unwritten path plus what unlinks dropped is its original text plus everything appended |
| Workspace.PatchReplay | server/app_docs/workspace.py:94-108 | for any run, the reported lists are disjoint and replaying them gives exactly the overlay if and only if every appended, unwritten path was kept |
| Workspace.WrittenCoversUnlinked | server/app_docs/workspace.py:94-108 | a run in which a path both appended and unlinked is also written meets that condition |
| Workspace.UnlinkedLogComesBack | server/app_docs/workspace.py:290-294 | a log appended and then removed comes back on replay |
| Workspace.StepAgrees | server/app_docs/workspace.py:217-227 | one call on a partial upload has the answer of the whole tree exactly when it is truthful (what it misses is no file or directory kept back, what it reads is not the end of such a file), and the two overlays stay alike whatever the answer |
| Workspace.PartialUploadExact | server/app_docs/workspace.py:88-108 | for any run that unlinks nothing kept back: all answers are those of the whole tree if and only if every question was truthful, and replaying the patch on the whole tree gives the same final tree if and only if every appended, unwritten path was kept |
| Workspace.PartialUploadSound | server/app_docs/workspace.py:88-108 | what the workspace records suffices: when nothing among the raw requests is a file or directory of the whole tree, every question of a tidy run without blind reads was truthful and every answer the one of the whole tree |
| Workspace.ToolCannotTell | server/app_docs/workspace.py:217-277 | a tool that chooses its calls from the answers makes the same calls and gets the same answers on both, while the questions are truthful |
| Workspace.ReportedRequestsMislead | server/app_docs/workspace.py:94-108 | an empty reported request list does not suffice: the raw requests are needed |
| WorkspaceHistory.RunTells | server/app_docs/workspace.py:217-294 | after any run a path holds what its last write or unlink and the appends since make of it, and is marked written, appended (with the whole appended text) or made a directory exactly when some call did so |
| WorkspaceHistory.RequestsExact | server/app_docs/workspace.py:88-92 | the raw requests are exactly the non-empty paths that were not uploaded and that some call asked for and missed |
| WorkspaceHistory.ReportExact | server/app_docs/workspace.py:94-108 | all four lists of the report told from the calls alone: changed with their texts, deleted, appended with theirs, and requested, which is what was missed and is still not there |
| WorkspaceHistory.AnswersExact | server/app_docs/workspace.py:217-294 | every answer told from the calls before it |
| WorkspaceHistory.MissIsReported | server/app_docs/workspace.py:94-108 | one question about a path that was not sent is reported |
| Zones.ParseNext | server/app_docs/zones.py:122-186 | one turn of the parser loop is one step of the parser state |
| Zones.ParseDocument | server/app_docs/zones.py:101-201 | the loop computes the fold of that step over the lines, with the unclosed zone and the trailing text at the end |
| ZoneMarks.FaultsByMarks | server/app_docs/zones.py:114-201 | the faults of any document are exactly those its marks have, each once and in line order: both markers on a line, an invalid start with its reason, a start of either sort inside a zone, an end with no zone open, a zone left open |
| ZoneMarks.WellFormedExact | server/app_docs/zones.py:114-201 | no fault exactly when no line has both markers or an invalid start and the starts and ends alternate, first a start and last an end |
| ZoneMarks.ZonesByMarks | server/app_docs/zones.py:114-201 | the zones of any document, malformed or not, are exactly the stretches from a start to the next marker if that is an end, with the attributes of the start and the lines in between |
| ZoneMarks.ChunksByMarks | server/app_docs/zones.py:163-199 | its chunks are exactly the stretches from the last closed zone to a start, and the text after the last zone unless it is empty |
| Zones.ZonesOrdered | server/app_docs/zones.py:114-201 | in any document, also a malformed one, every zone ends before the next begins |
| Zones.ReplaceSplices | server/app_docs/zones.py:313-338 | the splice fails only without a zone of that id; otherwise exactly the lines between the first one's markers change, and the text is the same exactly when they were the new body |
| Zones.SpliceLocality | server/app_docs/zones.py:313-338 | re-parsing after a splice of lines without markers finds the same zones, chunks and faults, those after the zone shifted by a constant, the new body in the spliced one, and without the faults inside the old body, for any document |
| Markers.NoCommentIsPlain | server/app_docs/zones.py:84-91 | a line without a comment opening is no marker |
| Markers.InnocentIsPlain | server/app_docs/zones.py:84-91 | nor is a line that never names the zone tag, in any case of letters |
| Markers.EngineNoteIsPlain | server/app_docs/sync.py:452-470 | the comment line the decisions renderer always writes is no marker |
| Markers.EndReads | server/app_docs/zones.py:84-91 | the end marker of the templates reads as one |
| Markers.StartReads | server/app_docs/zones.py:84-96 | a start marker with kind and id reads back as that kind and id |
| MarkerAttributes.AttributesRead | server/app_docs/zones.py:84-168 | a start marker with any attributes in any order reads as they say, the last of a name counting; without a known kind or without an id it is an invalid start |
| MarkerAttributes.NamesAreWords | server/app_docs/zones.py:91 | attribute names are letters, digits and underscores |
| MarkerAttributes.EventsRead | server/app_docs/zones.py:159-162 | the listed events are the names between the commas |
| Markers.OneZoneParses | server/app_docs/zones.py:84-201 | a document of a start marker, lines without comments and an end marker parses to that one zone without fault |
| Tiling.ParseTiles | server/app_docs/zones.py:114-201 | in a well-formed document every line is in exactly one zone or chunk, except a lone blank last line, which is in none |
| Tiling.PiecesAreText | server/app_docs/zones.py:114-201 | every body is the lines between its markers and every chunk the lines it spans, in order |
| Signature.ComputeSignature | server/app_docs/zones.py:290-307 | what is fed to the hash is the zones in order of ids, each as its fields between separators |
| Signature.FedInjective | server/app_docs/zones.py:290-307 | the serialisation is injective on NUL-free zones with ids of their own |
| Signature.PreHashExact | server/app_docs/zones.py:290-307 | two documents feed the hash the same exactly when they have the same set of ids, kinds and bodies, whatever the order and the text around |
| Signature.TwoZonesFed | server/app_docs/zones.py:301-307 | two zones out of order, as they are fed |
| Registry.EligibleDocsGrow | server/app_docs/registry.py:170-191 | a newer engine version never loses a canonical document |
| Registry.EligibleExact | server/app_docs/registry.py:153-191 | the documents of a version are exactly those introduced no later by the first difference of the numbers, in the order of the registry; an unknown version has those of 5.29.0 |
| Registry.EligibleNow | server/app_docs/registry.py:75-191 | of the program's table: none before 5.29.0, two before 6.0.0 and when the version is unknown, then all three |
| Versions.VersionReads | server/app_docs/registry.py:155-191 | a dotted version is compared by its numbers and by those of whatever follows it |
| Versions.SuffixKeepsDocs | server/app_docs/registry.py:155-191 | the documents a release has, its pre-releases have |
| Versions.PreReleaseIsLater | server/app_docs/registry.py:155-168 | a release with a named, numbered suffix comes after the release itself |
| Registry.BuildEventZoneMap | server/app_docs/registry.py:194-208 | the map lists for every event exactly the zones of the documents' tables, in their order |
| RegistryTargets.TargetsExact | server/app_docs/registry.py:194-208 | the targets of an event are the zones the tables list for it, all of them, in the order of documents, entries and zones |
| Registry.DocsSpareManual | server/app_docs/registry.py:75-139 | no event of the table is mapped to a manual zone |
| Sync.ReplaceRetouches | server/app_docs/zones.py:313-338 | replacing a body changes no zone but the one of that id, adds no fault, and takes away none but lines with two markers |
| Sync.InnocentRendersPlain | server/app_docs/zones.py:84-91 | with the program's markers, payloads none of whose lines both opens a comment and names the zone tag render no marker line, which is what the properties below ask of them |
| Sync.SyncTouchesMappedOnly | server/app_docs/sync.py:262-355 | a whole synchronisation changes only zones its targets name |
| Sync.ManualZonesSafe | server/app_docs/sync.py:262-355 | on a document that validates against its required zones, no event changes a manual zone |
| Sync.ReplaceTwice | server/app_docs/zones.py:313-338 | replacing a zone with the same body again changes nothing |
| Sync.SyncTwice | server/app_docs/sync.py:262-355 | the same event again writes nothing and touches no zone |
| SyncEffect.OutcomeExact | server/app_docs/sync.py:294-349 | each target is told the reason that holds: no such document, no file, nothing rendered, no zone of the id, the zone has those lines already, or else it was written |
| SyncEffect.SyncDelivers | server/app_docs/sync.py:262-355 | after an event every target whose document is there, whose payload renders and whose zone exists holds exactly the rendered lines |
| Validation.ValidateDocument | server/app_docs/zones.py:214-287 | just the issues the document has are listed: every fault, every later zone of an id with the line the id was first seen on, manual zones with events, required zones that are missing or whose last zone has another kind |
| Validation.ErrorFree | server/app_docs/zones.py:214-287 | no error among them exactly when the document is well formed, has every required zone with its kind and no id twice |
| Sync.FaultsReported | server/app_docs/sync.py:145-212 | a structural fault is reported exactly when one of the documents has it |
| Sync.WarnedIfDrifted | server/app_docs/sync.py:145-212 | a document is warned about exactly when it is recorded, well formed, not pristine and its signature differs |
| Sync.Project.RecordSyncSignature | server/app_docs/sync.py:215-248 | afterwards the lock holds exactly the signatures of the well-formed documents, keeps malformed ones' and drops missing and unknown ones |
| SyncEffect.RecordingExact | server/app_docs/sync.py:215-248 | which entries the lock has afterwards and with which digest, document by document |
| SyncEffect.PristineExact | server/app_docs/sync.py:122-142 | a document counts as an untouched template exactly when the statuses of its manual zones are just that one |
| Sync.Project.VerifyAppDocsInSync | server/app_docs/sync.py:145-212 | it returns every fault of the eligible documents and then the documents that drifted |
| Sync.Project.SyncAppDocs | server/app_docs/sync.py:262-355 | the loop leaves the files the targets make one after another, reports each outcome, and records signatures only when a zone changed |
| Sync.NoDriftAfterRecord | server/app_docs/sync.py:145-248 | right after recording there is no signature warning |
| Sync.DriftExact | server/app_docs/sync.py:122-248 | later a recorded document is warned about exactly when some zone's id, kind or body changed, for any hash function without a collision of the two serialisations |
| Canonical.CanonicalStore.GetCanonical | server/app_docs/canonical.py:85-94 | the first active entry of the key |
| Canonical.CanonicalStore.RecordConfirmation | server/app_docs/canonical.py:103-186 | the in-place updates make the step of the store on a confirmation |
| Canonical.CanonicalStore.InvalidateCanonical | server/app_docs/canonical.py:189-204 | the same for an invalidation |
| Canonical.CanonicalStore.RevokeCanonical | server/app_docs/canonical.py:207-220 | the same for a revocation |
| Canonical.StoreRefinesHistory | server/app_docs/canonical.py:103-220 | after any run the store holds for every key exactly what its history spells, every field: the entries it invalidated, with time and reason, in order, then the active one with its times and count when promoted, or the counter when not |
| Canonical.PromotedMeansLong | server/app_docs/canonical.py:103-186 | with one threshold, promoted means as long as the threshold |
| Canonical.RepliesFollowHistory | server/app_docs/canonical.py:103-220 | every reply, the returned entry included, is what the history says |
| Canonical.AuditTrailGrows | server/app_docs/canonical.py:103-220 | no call alters or removes an invalidated entry, and at most the active entry joins them |
| RateLimit.RateLimiter.Acquire | server/coordination/abuse_guard.py:95-108 | the deque operations make the step on the shared table, garbage collection included |
| RateLimit.Independence | server/coordination/abuse_guard.py:95-108 | on a clock that does not go back, the answers for a key are those of a limiter that only ever saw that key |
| RateLimit.AcceptExact | server/coordination/abuse_guard.py:95-108 | a call is accepted by the shared limiter exactly when the hits accepted for its key that are younger than the window, and its own, are at most the limit |
| RateLimit.RateBound | server/coordination/abuse_guard.py:95-108 | whatever all identities ask and whoever is forgotten, every half-open interval as long as the window holds at most `limit` hits that the shared limiter accepted for a key |
| RateLimit.WaitIsExact | server/coordination/abuse_guard.py:95-108 | for one hit, a rejected caller that stays silent is accepted by the shared limiter from exactly the returned wait on, whatever the others do |
| RateLimit.WaitForMany | server/coordination/abuse_guard.py:95-108 | for more hits, when a caller is accepted exactly, and that the returned wait may be too short |
| RateLimit.WaitTooShort | server/coordination/abuse_guard.py:95-108 | two hits at once, still rejected at the announced time |
| BodyGuard.Drain | server/coordination/abuse_guard.py:218-233 | it reads up to and including the first message that ends the body or goes past the limit, or to the end, and everything before that is part of the body |
| BodyGuard.DrainStops | server/coordination/abuse_guard.py:218-233 | there is only one such place |
| BodyGuard.Gather | server/coordination/abuse_guard.py:174-190 | the loop accepts with the whole body, refuses or gives up exactly by what the stream says first, and after refusing has read exactly what draining takes |
| BodyGuard.Collect | server/coordination/abuse_guard.py:164-190 | a declared length too large decides alone and is drained only within the drain limit; otherwise the loop decides |
| BodyGuard.OnlyVerdict | server/coordination/abuse_guard.py:174-190 | a stream has only one such verdict |
| BodyGuard.CutsDoNotMatter | server/coordination/abuse_guard.py:174-190 | however a client cuts a body into messages, it is collected as that body exactly when it is within the limit, and too large exactly when it is not |
| BodyGuard.Replay.Receive | server/coordination/abuse_guard.py:206-213 | the application gets the body once and then the rest of the stream |
| QueueText.ParseEntries | server/app_docs/queue.py:95-133 | the line loop computes the fold of the line step |
| QueueRoundTrip.EntryReadsBack | server/app_docs/queue.py:136-207 | a rendered entry reads back as itself, every field |
| QueueRoundTrip.ParseRender | server/app_docs/queue.py:95-207 | parsing a rendered queue gives the queue |
| DecisionsQueue.QueueFile.EnqueueDecision | server/app_docs/queue.py:220-259 | the file becomes the rendering of the queue with the entry at the end, unless the key is inviolable |
| DecisionsQueue.QueueFile.ResolveEntry | server/app_docs/queue.py:278-303 | the file becomes the rendering of the queue with the entry moved, unless there is none |
| DecisionsQueue.FileRefinesLists | server/app_docs/queue.py:220-303 | after any run of calls the file parses to exactly the two lists the calls make in memory |
| DecisionsQueue.EntriesConserved | server/app_docs/queue.py:220-303 | every entry enqueued is in exactly one list once, nothing else is, and none is inviolable |
| DecisionsQueue.NewestFirst | server/app_docs/queue.py:278-303 | a resolved entry goes in front, the others keep their order |
| DecisionsQueue.ResolvedAsTold | server/app_docs/queue.py:278-303 | the resolved list is the log of the calls that found their decision pending, latest first, each entry with the resolution, time and flag of its call; pending entries have none |
| DecisionsQueue.PendingInOrder | server/app_docs/queue.py:220-259 | the pending list has the decisions as they were enqueued, oldest first |
| DualBackend.DualBackendWrapper.ResolveMirrorId | server/backends/dual_backend.py:98-120 | the cache, then the mirror's search by logical id; the answer is remembered |
| DualBackend.DualBackendWrapper.CreateItem | server/backends/dual_backend.py:179-228 | the primary first; the mirror only under a parent that resolves, and its new id is remembered |
| DualBackend.DualBackendWrapper.UpdateItem | server/backends/dual_backend.py:230-283 | the primary first; the mirror only if item and parent resolve |
| DualBackend.DualBackendWrapper.WriteOnItem | server/backends/dual_backend.py:285-386 | the same for criteria, epics of stories and archiving |
| DualBackend.DualBackendWrapper.WriteEpic | server/backends/dual_backend.py:514-576 | the same for epics, by the same id on both boards |
| DualBackend.DualBackendWrapper.PurgeUseCase | server/backends/dual_backend.py:388-412 | the mirror id is resolved before the primary deletes |
| DualBackend.MirrorNeverInterferes | server/backends/dual_backend.py:66-78 | whatever the mirror is and does, every result of a run and the primary are as on the primary alone |
| BoardHistory.LastWriteWins | server/spec_backend.py:339-612 | over any calls on a board, a field of an item that is still there holds what was written to it last |
| BoardHistory.CreatedAsGiven | server/spec_backend.py:339-366 | a new item is what the call says, but for the parent of a story and a missing state on the native board |
| BoardHistory.GoesExactly | server/spec_backend.py:525-563 | an item goes exactly when a purge that goes through names it, or FreeForm archives it |
| BoardHistory.RefusedExactly | server/spec_backend.py:339-612 | a refused call changes nothing; which calls a service refuses, when an epic or a row exists already, and which purges are refused |
| BoardHistory.EpicsAsTold | server/spec_backend.py:569-612 | an epic call changes the epic it names as it says, and no other call changes one |
| BoardHistory.CriteriaAsTold | server/spec_backend.py:428-523 | a call on a criterion changes the first with its id, as it says, and is refused exactly when there is none; the others keep text, state and order |
| BoardHistory.NewCriteriaLast | server/spec_backend.py:472-486 | new criteria come at the end, in order and not done |
| Convergence.EditRenamed | server/backends/dual_backend.py:230-370 | an edit of an item commutes with renaming its ids and with what archiving did to its row, where the tables take its parent and its criteria |
| Convergence.RemoteMirrored | server/backends/native_backend.py:1741-1753 | an item archived on a remote board in its own way and its row stamped archived remain twins |
| Convergence.FreeFormMirrored | server/backends/freeform_backend.py:853-890 | an item FreeForm takes off its list leaves an archived row behind |
| Convergence.StepInStep | server/backends/dual_backend.py:179-412 | one call the mirror can follow, on a session in step with a native mirror that works, leaves it in step |
| Convergence.MirrorConverges | server/backends/dual_backend.py:179-412 | over any run of calls the mirror can follow, from a FreeForm or a remote primary, the mirror equals the primary up to a renaming of ids and, for FreeForm, further rows that are archived |
| Convergence.ArchiveExact | server/backends/dual_backend.py:372-386 | archiving keeps the boards in step always on a remote primary, which keeps the item, and on FreeForm, which drops it, exactly when the item was resolved before or already says archived; otherwise no renaming works any more |
| Convergence.CreateExact | server/backends/dual_backend.py:179-228 | creating stays in step exactly when the parent, if any, resolves to a story of the mirror, no archived row has the logical id, and a story comes with a state |
| Convergence.CriteriaExact | server/backends/native_backend.py:1481-1513 | adding criteria stays in step exactly when there are none, or they are of a use case and have ids of their own; otherwise the table refuses what the primary took |
| Convergence.UpdateExact | server/backends/dual_backend.py:230-283 | updating stays in step when the parent, if any, resolves to a story of the mirror; otherwise the mirror gets nothing of the update, and unless nothing of it would show on the row, no renaming works any more |
| Convergence.PurgeExact | server/backends/dual_backend.py:388-412 | purging stays in step exactly when it is not FreeForm purging an active story |
| Convergence.ArchivedUnseen | server/backends/dual_backend.py:372-386 | archived without ever being resolved, a row stays in the mirror's backlog |
| Convergence.ArchivedIdIsGone | server/backends/native_backend.py:784-822 | archived and created again under its old id, an item is refused by the mirror, whose archived row holds the primary key |
| Convergence.OrphanUntold | server/backends/dual_backend.py:202-209 | created under a parent nobody can resolve, an item never reaches the mirror |
| Convergence.StateMadeUp | server/backends/native_backend.py:680-693 | a story created without a state gets one on the mirror only |
| Convergence.CriteriaUntold | server/backends/native_backend.py:1494-1513 | two criteria under one id are both on the primary and neither on the mirror |
| Convergence.NameUntold | server/backends/dual_backend.py:258-266 | a new name given together with a parent nobody can resolve does not reach the mirror |
| Convergence.StoryStays | server/backends/native_backend.py:1783-1790 | a story purged on FreeForm stays on the mirror |
| NativeUpdates.NativeBackend.UpdateItem | server/backends/native_backend.py:1078-1198 | it succeeds exactly when the row is there in the version expected and its parent is a story; otherwise no row changes |
| NativeUpdates.NativeBackend.ArchiveItem | server/backends/native_backend.py:1688-1761 | state and meta of a story or use case are stamped, of a criterion only meta, and the version goes up |
| NativeUpdates.NativeBackend.SetEpicOf | server/backends/native_backend.py:2024-2062 | refused without the story or the epic; otherwise the version goes up |
| NativeUpdates.NativeBackend.AddComment | server/backends/native_backend.py:2109-2135 | the comment goes to the end of a row of any of the three tables and the version stays |
| NativeUpdates.VersionsNeverFall | server/backends/native_backend.py:1140-1163 | over any interleaving in which the row is not purged and created again, its version never falls as long as it is there, and between equal versions only comments were added and only the epic went away |
| NativeUpdates.GuardFindsWhatWasRead | server/backends/native_backend.py:1140-1163 | a guarded update that succeeds lays its change over exactly the columns its caller read, unless the row was purged and created again |
| NativeUpdates.GuardMeetsNewRow | server/backends/native_backend.py:1140-1163 | and if it was, whenever the new row has reached the version read, the guard lets the update through onto the row some later insertion made |
| NativeUpdates.OneLife | server/backends/native_backend.py:1764-1847 | only a purge ends a row, so a run without an insertion after a purge has one row for the key |
| NativeUpdates.AtMostOneWins | server/backends/native_backend.py:1140-1163 | of two updates that expect the same version at most one succeeds, over any interleaving in which the row is not purged and created again |
| NativeUpdates.BothWin | server/backends/native_backend.py:1140-1163 | otherwise both can win: one on the old row, one on the new |
| NativeUpdates.FailureLeavesNoTrace | server/backends/native_backend.py:1140-1236 | a call that failed leaves rows and all other calls as if it had not been made, over any interleaving |
| NativeUpdates.RecreatedRowFoolsGuard | server/backends/native_backend.py:1140-1163 | a purge, an insertion and a stale guard, for any rows |
| NativeColumns.LastWriteWins | server/backends/native_backend.py:1097-1163 | over any interleaving, in one life of a row, every column and every key of its meta holds what a successful update or an archiving wrote to it last |
| NativeColumns.VersionCountsWrites | server/backends/native_backend.py:1130-1163 | and its version went up by exactly the number of its writes; comments and deleted epics are none |
| NativeEpics.EpicAsGiven | server/backends/native_backend.py:1991-2062 | a story is in the epic it was given to last, until that epic is deleted, whatever else happens in between |
| NativeEpics.EpicsStayThere | server/backends/native_backend.py:1991-2062 | no story ever points at an epic that is not there |
| NativeTables.NativeBackend.IngestAtomic | server/backends/native_backend.py:913-1076 | whichever statement raises, the tables are as before; otherwise they are what the plan makes of them |
| NativeTables.IngestConserves | server/backends/native_backend.py:957-1076 | every story and use case of the plan is counted as migrated or skipped, the tables keep every row and gain exactly the counted ones, and foreign keys hold |
| IngestContents.IngestWrites | server/backends/native_backend.py:957-1067 | a committed ingestion leaves exactly the rows of the plan beside those that were there: each new story and use case with its planned fields and the documented defaults, each use case under the id its source parent stands for, its criteria with text and state, comments in order where their source points; the id map and the number of comments are as reported |
| IngestContents.ParentIsItsStory | server/backends/native_backend.py:1002-1028 | with distinct sources a new use case sits under the story its source parent became |
| NativeTables.IngestAgain | server/backends/native_backend.py:957-1076 | run again, a plan adds no story, use case or criterion and gives the same id map, exactly when all its items have logical ids; otherwise it aborts |
| NativeTables.NamelessAborts | server/backends/native_backend.py:957-1076 | a story without a logical id is ingested once and then aborts the plan |
| NativeTables.NativeBackend.PurgeUseCase | server/backends/native_backend.py:1764-1847 | refused without a change, or the use case goes with its criteria, state transitions and branches, and the snapshot is what row and criteria were |
| NativeTables.PurgeRestores | server/backends/native_backend.py:1783-1847 | a purge goes through exactly for a use case that never had work, leaves nothing that refers to it, and re-inserting the snapshot restores stories, use cases and criteria exactly, but not transitions and branches |
| NativeTables.RefusalsInOrder | server/backends/native_backend.py:1783-1847 | which refusal is told when: the state, then work done, then evidence, then a reservation |
| Decimals.TwoDigitsRead | server/spec_backend.py:158-161 | a number printed with two digits at least reads back |
| Fragments.NextIsFresh | server/spec_backend.py:158-161 | the next epic id is none of the existing and one above the highest number |
| Fragments.AutoIdFresh | server/backends/freeform_backend.py:1012-1022 | an automatic id is no epic's of the fragment, nor of any board whose epic numbers the floor bounds |
| Fragments.RaisedBounds | server/backends/freeform_backend.py:324-347 | the floors sent back never fall and bound every id sent back |
| Fragments.RaisedLeast | server/backends/freeform_backend.py:324-347 | and they are no higher than they must be: each is the one received or an item's number |
| EpicMoves.NumberReads | server/backends/freeform_backend.py:124-142 | the number of an item is the one in the id of its meta, or else of its name, whatever follows the digits |
| EpicMoves.OtherPrefixHasNone | server/backends/freeform_backend.py:124-142 | an id with another prefix counts as 0 |
| Fragments.IdsNeverCollide | server/backends/freeform_backend.py:124-153 | over any chain of fragments with any writes, floors that bound the board go on bounding it, and no automatic epic id is taken on the whole board |
| Fragments.LowFloorRepeats | server/backends/freeform_backend.py:1012-1022 | one below the highest number is too low a floor: the next id repeats it |
| Fragments.NewEpicGoesLast | server/backends/freeform_backend.py:1012-1044 | a new epic without a position is added at the end, after every other by position, under an id of its own |
| Fragments.FreeformBackend.CreateEpic | server/backends/freeform_backend.py:1001-1046 | the checks in their order, whether the target date is one given as an argument; the id, the position after the last and the new item at the end |
| EpicMoves.CreateEpicExact | server/backends/freeform_backend.py:1001-1046 | a blank name, a date or an id that is none is refused, then an id that is taken; otherwise one epic is added at the end under the id given or a free one, with the stripped name, at the place given or after the last |
| EpicMoves.AutoIdExact | server/backends/freeform_backend.py:1012-1022 | an automatic id is one above the floor and every epic's number, and no higher |
| Fragments.FreeformBackend.DeleteEpic | server/backends/freeform_backend.py:1079-1092 | the loop takes the stories out of the epic and the epic out of the list |
| EpicMoves.DeleteEpicExact | server/backends/freeform_backend.py:1079-1092 | it fails exactly when there is no such epic; otherwise the first with the id goes, and of the other items just the stories that were in it are in none |
| Fragments.FreeformBackend.SetUsEpic | server/backends/freeform_backend.py:1094-1108 | the story's epic, if both exist |
| EpicMoves.SetUsEpicFails | server/backends/freeform_backend.py:1094-1102 | it fails exactly when the story or the epic is missing, and then changes nothing |
| EpicMoves.SetUsEpicMoves | server/backends/freeform_backend.py:1094-1108 | afterwards the story is in the group of the epic it was given, or without one, and in no other; every other story stays in its group, in its place |
| EpicMoves.SetUsEpicKeepsTotals | server/backends/freeform_backend.py:1094-1108 | a tidy board stays tidy and the totals of its groups sum to what they did before |
| Fragments.FreeformBackend.ReturnedFloors | server/backends/freeform_backend.py:336-347 | the floors of a fragment raised to what it holds; none for a whole board |
| EpicTotals.StoriesAddUp | server/epics.py:98-109 | the groups' stories sum to the board's exactly when no story's epic is listed twice |
| EpicTotals.ListedTwice | server/epics.py:98-109 | an epic listed twice counts its story twice |
| EpicTotals.UseCasesAddUp | server/epics.py:46-109 | the groups' use cases sum to the board's when each belongs to one story |
| EpicTotals.BoardAddsUp | server/epics.py:46-109 | stories, use cases and criteria of the groups sum to the board's on a tidy board |
| EpicCounts.GroupCounts | server/epics.py:46-83 | on any board a group counts its stories, the pairs of such a story and a use case in the workflow that hangs from it, and the criteria whose parent is one of those use cases |
| EpicCounts.BoardListed | server/epics.py:98-109 | a board is summed up epic by epic in their order, and then by the stories of no known epic if there are any |
| EpicTotals.DeleteEpicMoves | server/backends/freeform_backend.py:1079-1092 | deleting an epic keeps every other epic's stories and moves its own to those without one |
| EpicTotals.DeleteEpicKeepsTotals | server/backends/freeform_backend.py:1079-1092 | deleting an epic keeps a tidy board tidy, and stories, use cases and criteria of its groups sum to what they did before |
| ItemIds.WithItemId | server/spec_backend.py:194-207 | the loop strips every copy of the id in front |
| ItemIds.IdOnce | server/spec_backend.py:194-207 | the id is in front exactly once, and adding it again changes nothing |
| ItemIds.IdReadsBack | server/spec_backend.py:210-225 | the id put in front and the rest of the name are what is read back |
| PrdText.GeneratePhaseDelta | server/delta_generator.py:19-92 | the lines appended one after another are the phase's heading and its fields, the comparison with the plan among them, within the budget |
| PrdText.SummarizePhases | server/prd_parser.py:174-194 | overall status and delta count of the loop are those of the set of phases |
| PrdDeltas.SortedDifference | server/delta_generator.py:143-169 | what is listed of a difference of files is that difference, sorted and without repetition |
| PrdDeltas.CountedWhenDiffers | server/prd_parser.py:178-186 | a phase that reads back counts as differing from its plan exactly when it touched other files and no file listed has the phrase in its name, or when it had no plan |
| PrdDeltas.PhraseInName | server/prd_parser.py:182-184 | a file named after the phrase hides that it was not planned |
| PrdNames.DeltasNameFiles | server/delta_generator.py:143-169 | the text of the comparison names the first five unplanned files and then the first five planned ones not touched, and nothing else |
| PrdNames.ExampleDeltas | server/delta_generator.py:157-169 | one comparison word for word |
| PrdNames.ExampleWritten | server/delta_generator.py:51-92 | one phase line for line |
| PrdRoundTrip.FilesRead | server/prd_parser.py:236-245 | a file list reads back as its first ten names |
| PrdRoundTrip.DecisionsRead | server/prd_parser.py:206-221 | decisions read back as shown, the third with the note about the rest |
| PrdRoundTrip.NingunaIsLost | server/prd_parser.py:218-219 | the one decision that reads back as none |
| PrdRoundTrip.PhaseReadsBack | server/delta_generator.py:51-92 | a phase within the word budget reads back: every field, with the limits' cuts spelled out |
| PrdRoundTrip.OverBudgetLosesFields | server/delta_generator.py:172-184 | over the budget it loses all fields, whatever they were |
| PrdRoundTrip.FailureIsLost | server/delta_generator.py:172-184 | a failed phase with a very long name reads back as complete, without its files |
| PrdAppend.AppendAddsOne | server/prd_writer.py:100-116 | appending keeps every use case parsed before and adds exactly the new one, if and only if the PRD has the section's heading or lacks its phrase |
| PrdAppend.AppendKeepsText | server/prd_writer.py:100-116 | appending keeps the document but for white space at its end, adds a rule and the heading exactly when the phrase is missing, and ends with the status |
| PrdAppend.MentionedIsNotFound | server/prd_writer.py:100-116 | a status appended to a document that only mentions the heading is not found |
| PrdStatus.CompiledReadsBack | server/delta_generator.py:95-125 | a compiled status reads back: id, timestamp, branch and all phases |
| PrdStatus.StatusReadsBack | server/prd_parser.py:121-203 | written, compiled, appended and parsed, a status is found after those found before |
| PrdVerdict.VerdictReadsBack | server/prd_parser.py:169-203 | of an appended status the parser says "parcial" exactly when a reported phase failed, else "con_deltas" exactly when some phase counts as differing, else "conforme" if there is a phase; its count is the phases that differ plus those with a healing event |
| RegistryHygiene.ScrubCleans | server/registry_hygiene.py:74-100 | a scrubbed document has no sensitive key and no local path at any depth |
| RegistryHygiene.CleanUntouched | server/registry_hygiene.py:74-100 | the counts are zero exactly for a clean document, which stays as it is |
| RegistryHygiene.ScrubTwice | server/registry_hygiene.py:74-100 | a second scrub changes and counts nothing |
| HygieneCounts.ReportExact | server/registry_hygiene.py:74-100 | the counts are the numbers of places with a sensitive key and with a local path, but for those under a sensitive key |
| HygieneCounts.LocalPathExact | server/registry_hygiene.py:57-71 | a text looks like a local path exactly when it starts with a drive or a network share, or is one of the absolute roots or below it |
| HygieneCounts.SchemeIsNoPath | server/registry_hygiene.py:54-71 | a text that starts with a scheme of two letters or more does not |
| RegistryHygiene.ScrubKeepsTheRest | server/registry_hygiene.py:74-100 | whatever is reached without passing a sensitive key is still there, scrubbed; the rest is gone |
| RegistryHygiene.RegistryScrubbed | server/registry_hygiene.py:103-128 | every project of the dict form stays under its name, scrubbed, and everything beside the projects as it was |
| RegistryHygiene.LegacyRegistryScrubbed | server/registry_hygiene.py:103-128 | the same for the legacy list form |
| HygieneCounts.RegistryReport | server/registry_hygiene.py:103-128 | the totals are the number of projects and what there is to remove and blank in them; a registry without projects stays as it is |
| RegistryHygiene.Registry.ClaimEntries | server/registry_hygiene.py:131-152 | it stamps exactly the wanted entries nobody owns |
| RegistryHygiene.Registry.UnclaimEntries | server/registry_hygiene.py:155-169 | it releases exactly the named entries the developer owns |
| HygieneCounts.ClaimExact | server/registry_hygiene.py:131-152 | a claim stamps exactly the wanted dict entries whose owner field is missing or empty, and changes nothing else of them |
| HygieneCounts.UnclaimExact | server/registry_hygiene.py:155-169 | unclaiming takes the owner field, and nothing else, from exactly the named entries the developer owns |
| RegistryHygiene.UnclaimUndoesClaim | server/registry_hygiene.py:131-169 | unclaiming what was claimed brings the registry back exactly when no claimed entry carried an empty owner field |
| RegistryHygiene.EmptyOwnerIsLost | server/registry_hygiene.py:131-169 | claimed and released again, an entry loses the empty owner field it had |

## Left out

- Real files, JSON text, SQL, HTTP, sessions, logging, encryption of the registry backup and PDF reports: maps,
  sequences and functions stand for stored data; a statement of the database is one step.
- Unicode: line breaks other than the line feed, white space and digits outside ASCII, and case folding.
- Order of sorted reports: lists that the program sorts before it returns them are sets or come in the order found, except
  the zones of a signature and the files of a comparison, which are sorted.
- `glob` and `rglob` of the workspace, which request their pattern when nothing matches, `iterdir` and `is_dir`, which
  request nothing, and `touch`, which writes an empty file where there is none.
- Workspace.PartialUploadExact: runs that unlink a path that is on the client and was not sent are outside its premise; they
  answer as if it were missing.
- Sync: the renderers of the zones are a function from zone to text; the lock file is a map; the template-pristine test
  is by the status of the zones.
- Registry: where a project keeps its version.
- Signature.PreHashExact: SHA-256 is left out; `Sync.DriftExact` takes any hash function.
- RateLimit: floating-point rounding; time is real numbers.
- BodyGuard: headers, the declared length as text and the count of tool calls in a body.
- QueueRoundTrip.ParseRender: for single-line trimmed fields, the only ones the file format can hold.
- Boards: evidence, reservations, attachments, comments, labels, meta, modules and positions of the boards behind the dual
  wrapper; an item's logical id is a field that updates do not change, and an item without one has no key on the native board;
  criteria are part of their item, in the order they came, with ids of the form the boards parse, so FreeForm has none for an
  item it archived; a FreeForm board on disk has no archive file, so purging an archived item finds nothing. A remote board
  (Trello, Plane) is a list of items with one state for archived ones.
- NativeUpdates: an expected version given as text, other writes on criteria, membership checks, audit rows and lifecycle
  triggers.
- NativeTables: the construction of the write plan from a source board and the order of the criteria in a snapshot.
- Fragments: the progress files on disk; whether a target date is one is an argument.
- EpicTotals: the derived state, percentages and satellites of a group.
- PrdText: a heading, timestamp or field with a blank value counts as absent or blank on its own line; selecting statuses
  by story.
- PrdStatus.StatusReadsBack: for timestamps and branches without a star, and phases within the word budget.
- Trello and Plane clients, Stitch, identity, autopilot catalogue, audit scoring, migrations and the VS Code extension are
  not part of this model.
