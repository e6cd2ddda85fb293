# podsim verification

A Dafny model of the protocols, schedulers, graph checks and arithmetic of podsim, with proofs of what they promise.
Pure functions give the meaning of each step, methods and classes follow the loops and the mutable objects of the source and are proved against those functions, and lemmas prove properties of whole runs.
Run `dafny verify dfyconfig.toml`.

The parts:

- **Adaptive sweep** (`RateGroup`, `ArmGrouping`, `ArmPool`, `ArmRuns`, `AdaptiveSweep`).
  A pool of workers runs the arms of a rate sweep.
  The pool is a transition system in which any worker can make its step at any time.
  Every order of completions, with any number of workers, runs exactly the arms of the one-after-the-other rule and gives the same report; the pool cannot block, and every step brings it closer to its end.
- **Editor transport and history** (`EditorTimeline`, `EditorLaws`, `EditorTransport`, `TransportLaws`, `EditorSystem`, `EditorSafety`, `EditorRuns`, `EditorSteps`, `EditorPage`).
  The page, its worker and the Go engine exchange one message at a time.
  The project that the worker rebuilds from a delta is the project that the page passed, in every run; the render cache, the worker snapshots and the engine agree on every retained entry; a history fails only when the worker is lost or the queue is full.
- **Draft keeper** (`DraftKeeper`, `DraftLaws`).
  A write queue with one running and one waiting write, replacement, failure and retry.
  Every queued write settles exactly once, and two store replies later at the latest.
- **Image table** (`ImageTable`, `ImageLaws`).
  Image bytes under a cap, with reference counts, pins and a trim that is planned, rechecked and installed.
- **Reachability checks** (`Graphs`, `BerthReach`, `CutOff`, `PassengerRoutes`, `BerthRoutes`, `RouteLaws`).
  Searches with reusable marks and memoised rows compute all-berths reach, the two-search shortcut changes no error, and the cut-off stations are those outside the main class of mutual reach.
- **JSON** (`JsonText`, `JsonSyntax`, `JsonParser`, `JsonReader`, `JsonUnique`, `JsonPrinter`, `JsonDecimals`, `JsonLaws`, `JsonRepeats`).
  Texts are sequences of UTF-16 units, and syntax trees keep every unit of a text.
  The grammar is unambiguous, the bounded parser accepts exactly the texts of trees within its limits, it undoes the printer on every finite decimal, so on the exact decimal of every `float64`, and the scan for repeated names finds the earliest one.
- **Server session and apply** (`ServerSession`, `ApplyProtocol`, `SessionLaws`).
  Snapshot reads against a server that changes and restarts, and the outcomes of an apply over a network that loses requests and replies.
- **Comparison arithmetic** (`DailyOffers`, `Schedules`, `ArmSimulation`, `Energy`, `EnergyLaws`, `NodeFlow`).
  The closed form of daily offers, the cursor that offers each request once, the energy balance of whole runs, and the sliding window of node passes.

The modules named laws state what the step functions do without naming how they compute it: what an undo gives back after an edit, which calls write, which images a prune deletes, which texts and bytes a token means, and when exactly a command or an apply succeeds.

Assumptions: a `float64` is a `real`; promises, goroutines and channels are steps of a transition system; canonical JSON, number printing, random draws and what a simulation answers are parameters, so the results hold for all of them.

Two promises of the source do not hold as stated, and the model proves when they do.
`left-paused` says that the editor paused the simulation and could not resume it.
It is false when the resume command arrives and only its reply is lost, or when the pause command never arrived (`ApplyProtocol.LeftPausedCanBeFalse`); `ApplyProtocol.LeftPausedExact` gives the exact condition, and `ApplyProtocol.LeftPausedHidden` shows that the editor's answers do not tell it.
A project command without a server start ID can replace the project of another process (`ServerSession.EmptyStartReplacesOther`), and a snapshot from a server without start IDs can mix two projects (`ServerSession.MissingStartMixes`).
Both guarantees hold for every history exactly when the start ID is there (`ServerSession.GuardedExactly`, `ServerSession.ExactExactly`).

## Model

| member | source | states |
|---|---|---|
| RateGroups.LeadingRatesRun | cmd/compare/adaptive.go:18-24 | every rate below drained + 1 + pastLimit runs under the rule, whatever the rates that still run give |
| RateGroups.SkippedRate | cmd/compare/adaptive.go:14-16 | a rate is skipped exactly when some rate more than pastLimit places below it fails |
| RateGroups.RateGroup.constructor | cmd/compare/adaptive.go:38-49 | a new group waits for every seed of every rate |
| RateGroups.RateGroup.Release | cmd/compare/adaptive.go:53-60 | starts exactly the arms between the old and the new end, in rate order |
| RateGroups.RateGroup.Finish | cmd/compare/adaptive.go:63-69 | records a seed, and advances past all leading rates that finished and drained |
| ArmGrouping.GroupMembers | cmd/compare/adaptive.go:131-145 | partitions the inputs by key, groups and members in input order |
| ArmGrouping.StableSort | cmd/compare/adaptive.go:151-153 | a stable permutation by descending request interval |
| ArmGrouping.SplitRates | cmd/compare/adaptive.go:150-162 | partitions a group into rates of one interval, lowest offered rate first |
| ArmGrouping.PlaceArms | cmd/compare/adaptive.go:115-127 | every input gets the group and the rate that hold it, exactly once |
| ArmPool.RunsUnlessSkipped | cmd/compare/adaptive.go:14-16 | the rule on groups and rates is the rule on the inputs: an arm is skipped exactly when some arm of its key fails more than pastLimit distinct rates below it |
| ArmPool.SkippedMeans | cmd/compare/adaptive.go:11-16 | an arm is skipped exactly when an arm that differs in interval and seed only fails or does not drain at a longer interval, with at least pastLimit other intervals between |
| ArmPool.PlacesBetween | cmd/compare/adaptive.go:150-162 | the rates between two arms of a group are the request intervals between theirs |
| ArmPool.StartsOnlyRule | cmd/compare/adaptive.go:18-24 | a group that has recorded any set of results has started only rates that the rule runs |
| ArmPool.StartsWholeRule | cmd/compare/adaptive.go:18-24 | when every started arm has finished, every rate that the rule runs has started |
| ArmPool.FinishRecords | cmd/compare/adaptive.go:62-69 | recording one more result keeps the group's counters equal to what the set of results says |
| ArmRuns.StartInv | cmd/compare/adaptive.go:164-171 | the pool starts in the invariant: queued, held and finished arms are the released ones, each once |
| ArmRuns.ReceiveInv | cmd/compare/adaptive.go:173-180 | a received result queues only arms that were never released before |
| ArmRuns.StepInv | cmd/compare/adaptive.go:205-222 | every step of any worker keeps the invariant of the pool |
| AdaptiveSweep.NeverStartsSkipped | cmd/compare/adaptive.go:21-23 | no run ever queues, runs or finishes an arm that the rule skips |
| AdaptiveSweep.SettledResults | cmd/compare/adaptive.go:215-223 | when nothing runs, exactly the arms of the rule have finished, each with its own outcome |
| AdaptiveSweep.Confluence | cmd/compare/adaptive.go:21-24 | two complete runs agree on all results, for any pool sizes and completion orders |
| AdaptiveSweep.JobsFit | cmd/compare/adaptive.go:227-234 | the queue never holds more arms than the inputs, so no send blocks |
| AdaptiveSweep.NoDeadlock | cmd/compare/adaptive.go:205-220 | while an arm is outstanding some worker can make its step |
| AdaptiveSweep.RunGoesOn | cmd/compare/adaptive.go:216-221 | every run of a pool with a worker can go on until nothing is outstanding |
| AdaptiveSweep.StepCloser | cmd/compare/adaptive.go:216-221 | every step lowers a lexicographic measure |
| AdaptiveSweep.FinishedResults | cmd/compare/adaptive.go:236-248 | the report is the first error in input order, or one row for each arm that ran, drained or not, at the place that the arms before it leave |
| AdaptiveSweep.SettledByRule | cmd/compare/adaptive.go:236-248 | the results of a settled pool are those of the rule on the inputs |
| AdaptiveSweep.ArmScheduler.constructor | cmd/compare/adaptive.go:115-127 | the scheduler's groups are new groups over the placed rates |
| AdaptiveSweep.ArmScheduler.Start | cmd/compare/adaptive.go:165-171 | releases the first rates of every group in group order |
| AdaptiveSweep.ArmScheduler.Finish | cmd/compare/adaptive.go:175-180 | records in the arm's own group and releases from it, and changes no other group |
| AdaptiveSweep.RunAdaptive | cmd/compare/adaptive.go:200-224 | whichever worker steps next, the report has the first error or the row of every arm that the sequential rule on the inputs runs, each at its place |
| EditorTimeline.HistoryKeeps | internal/editormodel/history.go:73-111 | no command reaches a timeline with a repeated entry ID or a proposal without a present entry |
| EditorTimeline.TransitionEntries | internal/editormodel/history.go:203-258 | a transition keeps entries of the state and adds only the captured one, as the new present |
| EditorTimeline.UndoRedoInverse | internal/editormodel/history.go:236-257 | redo takes an undo back, and undo takes a redo back |
| EditorTimeline.AcceptShowsProposal | internal/editormodel/history.go:96-108 | an accept answers with the very view of its prepare, without the token |
| EditorLaws.EditChangesExactly | internal/editormodel/history.go:283-304 | an edit changes the draft exactly when a branch or the background differs in more than member order |
| EditorLaws.RecordedEdit | internal/editormodel/history.go:223-235 | one undo takes a recorded edit back: it gives the entry before it, with the rest of the trimmed past, and leaves the edit to redo |
| EditorLaws.TrimmedEdit | internal/editormodel/history.go:229-235 | an edit that trims the whole past cannot be undone, and a larger trim is refused |
| EditorLaws.UnrecordedEdit | internal/editormodel/history.go:226-228 | an unrecorded edit leaves the past alone: an undo after it gives what it gave before |
| EditorLaws.ResetClears | internal/editormodel/history.go:217-219 | after a reset nothing can be undone or redone |
| EditorLaws.DropsOldest | internal/editormodel/history.go:248-253 | dropping removes the oldest entry of the past and nothing else |
| EditorLaws.EditsUndone | internal/editormodel/history.go:223-241 | as many undos as recorded edits give the first state back, with all the edits to redo |
| EditorLaws.PrepareShownExactly | internal/editormodel/history.go:153-201 | a prepare is shown exactly for a current revision, free counters, fitting parameters and a possible move |
| EditorLaws.RefusedPrepare | internal/editormodel/history.go:153-177 | a refused prepare changes nothing but the count of captured entries |
| EditorLaws.PrepareThenComplete | internal/editormodel/history.go:85-108 | a prepared move of the captured project waits for its token; accepting installs it under the next revision, discarding leaves the timeline |
| EditorLaws.CompletesOnce | internal/editormodel/history.go:89-94 | only the token of the pending proposal completes, and only once |
| EditorLaws.ViewTells | internal/editormodel/history.go:305-331 | canUndo and canRedo tell whether an undo or a redo would change the draft; the entries are listed oldest first, and each image key once |
| EditorTimeline.EditorEngine.HistoryOperation | internal/editormodel/history.go:73-111 | the engine's new state and reply are those of the timeline function |
| EditorTransport.DeltaRebuilds | web/editor-model.js:45-54 | the keys and the changed branches rebuild exactly the passed project |
| TransportLaws.PatchIsChanged | web/editor-model.js:36-54 | the delta has exactly the members whose object is new to the worker |
| TransportLaws.MessageTells | web/editor-model.js:36-54 | each message tells the operation, its plan and as much of the project as it needs |
| EditorTransport.SyncAgrees | web/editor-model.js:352-356 | after any synchronization the engine holds the worker's project, or the next message repairs it |
| TransportLaws.SyncRefuses | internal/editormodel/engine.go:107-135 | a patch is refused exactly when it does not fit the keys or cannot be decoded, and every other one replaces the branches |
| EditorTransport.EditorClient.Enqueue | web/editor-model.js:55-72 | a job rejects the queued ones that it makes obsolete, last first, and waits in its place; a stopped client and a full queue refuse it |
| EditorTransport.ReplacedOnce | web/editor-model.js:57-64 | every queued job is either kept or rejected, once |
| EditorTransport.EditorClient.Fail | web/editor-model.js:8-14 | the first failure stops the client for good and rejects the active and every queued job, later ones do nothing |
| TransportLaws.InsertedInOrder | web/editor-model.js:66-71 | a new job waits behind every job of its kind, and validations stay behind all others |
| TransportLaws.TrimmedExactly | web/editor-model.js:57-64 | exactly the older validations, and the older requests of three helpers, are dropped |
| TransportLaws.EnqueueInOrder | web/editor-model.js:55-72 | queueing keeps the order of the queue, and refuses exactly when eight jobs are left |
| TransportLaws.AcceptInOrder | web/editor-model.js:77-86 | an acceptance drops exactly the validations of other drafts and goes before the rest |
| EditorTransport.EditorClient.Pump | web/editor-model.js:16-54 | posts the first job with its plan: as a delta against the sent project, with the whole project for a helper that needs it, or as a command alone |
| EditorTransport.EditorClient.OnMessage | web/editor-model.js:22-31 | a fatal message and a malformed or failed reply stop the client, a stale reply changes nothing, an accepted proposal becomes the sent project, and other answers leave it |
| EditorTransport.WorkerOperations.HistoryOperation | web/editor-model.js:347-373 | prepare, accept and discard change the proposal, the snapshots and the project as the worker function says |
| EditorTransport.WorkerOperations.Handle | web/editor-model.js:374-396 | one message changes the worker and the engine as the worker function says |
| EditorSafety.EnqueueJobs | web/editor-model.js:55-95 | queueing an operation leaves the running action's job in place |
| EditorSafety.SnapshotAtHand | web/editor-model.js:223-224 | the snapshot that a proposal names is in the render cache, or it is the action's own draft |
| EditorSafety.PublishKeeps | web/editor-model.js:225-236 | publishing before the acknowledgment keeps the invariant |
| EditorSafety.AcknowledgedKeeps | web/editor-model.js:237-243 | the acknowledgment is the published view, and pruning leaves exactly the retained copies |
| EditorSafety.PreparedKeeps | web/editor-model.js:180-222 | a prepared proposal is published, trimmed or discarded without leaving a stale one |
| EditorSafety.AcceptKeeps | web/editor-model.js:365-371 | an accepted proposal has the same scenario on the page, at the worker and in the engine |
| EditorSafety.StepKeeps | web/editor-model.js:16-54 | every step of page, client, worker and engine keeps the invariant of the system |
| EditorRuns.DeltaRefinesFull | web/editor-model.js:45-54 | in every run the worker rebuilds from a delta the project of the job that the client sent |
| EditorRuns.CopiesAgree | web/editor-model.js:345-356 | between messages the client's and the worker's copies agree, and the engine's unless a full synchronization is due |
| EditorRuns.RetainedCopies | web/editor-model.js:239-241 | every retained entry has one scenario in the cache, at the worker and in the engine, and between actions nothing else is kept |
| EditorRuns.OnlyTransportFails | web/editor-model.js:223-248 | no proposal names a missing snapshot, no discard is refused, and each acknowledgment matches its proposal |
| EditorRuns.NoProposalAtRest | web/editor-model.js:174-251 | between actions neither the worker nor the engine has a proposal |
| EditorRuns.ShownDraft | web/editor-model.js:231-232 | outside a local preview the page shows its head's snapshot, and at rest that head is the engine's |
| EditorSteps.ValidationsLast | web/editor-model.js:66-71 | in every run the validations wait behind all other jobs |
| EditorSteps.BeginAsks | web/editor-model.js:180-193 | in every run an action asks for its move from the shown revision, with the background and image of its draft |
| EditorSteps.PreparedDecides | web/editor-model.js:194-233 | a prepared view is given up when the draft changed or the page gives up, asked for once more with a trim, and else published: the new head is shown and its acceptance queued |
| EditorSteps.RejectedDecides | web/editor-model.js:194-195 | a refused preparation leaves the page as it was, after the discard of a first proposal |
| EditorSteps.AnsweredRests | web/editor-model.js:237-243 | an answered discard or acceptance ends the action and shows what was shown, and an acceptance lets go of the snapshots that are not retained |
| EditorPage.PageHistory.Run | web/editor-model.js:180-193 | an action starts by asking for a preparation from the shown revision |
| EditorPage.PageHistory.Proceed | web/editor-model.js:194-248 | each answer moves the action as the system's step says, and refuses a malformed view |
| EditorPage.PageHistory.PublishProposal | web/editor-model.js:223-233 | queues the acceptance first, then shows the new head |
| DraftKeepers.StepKeeps | web/editor.js:1740-1840 | every call, timer and store reply keeps the invariant of the keeper |
| DraftKeepers.WritesSettleOnce | web/editor.js:1694-1703 | one write runs and one waits at most, pending counts them, every other queued write settled exactly once, commits are in call order |
| DraftKeepers.OutstandingMoves | web/editor.js:1769-1792 | while a write is outstanding the drain can take it or the store can answer |
| DraftKeepers.SettlesAtLast | web/editor.js:1694-1703 | whatever else the page does, two store replies settle every write that is queued by then |
| DraftKeepers.RepliesSettleAll | web/editor.js:1769-1783 | store replies alone, committed or failed, bring pending to 0 and settle every queued write |
| DraftKeepers.StoreHoldsLastCommit | web/editor.js:1694-1697 | the store holds the record of the last committed write, or the one from before the first |
| DraftKeepers.FlushNeverSkips | web/editor.js:1801-1806 | a flush skips only a text that is stored or is the last queued write, still outstanding |
| DraftLaws.ReplaceWrites | web/editor.js:1833-1837 | a replace writes exactly its record at once, whatever was stored or queued, and nothing without a store |
| DraftLaws.FlushWrites | web/editor.js:1801-1806 | a flush writes its snapshot exactly when the keeper is armed, has a store and a change, and did not queue the text last |
| DraftLaws.ArmWrites | web/editor.js:1823-1826 | the first arm takes the baseline, and arming writes a changed draft as a flush does |
| DraftLaws.OthersWriteNothing | web/editor.js:1809-1831 | a schedule and a question write nothing |
| DraftLaws.ScheduleTimes | web/editor.js:1827-1831 | a schedule leaves a timer exactly when an armed keeper with a store has a change |
| DraftLaws.TimerFindsChange | web/editor.js:1827-1831 | in every run a waiting timer finds an armed, changed keeper with a store |
| DraftLaws.ChangeMarked | web/editor.js:1760-1764 | the change mark is set by a replace or by an armed text that is not the baseline, and then stays |
| DraftLaws.StatusTells | web/editor.js:1722-1725 | the status tells how the last store call ended, or that there is no store |
| DraftLaws.LoadRemembers | web/editor.js:1816-1822 | a read at the start remembers the text of the stored record |
| DraftKeepers.SavedMeansStored | web/editor.js:1720-1723 | unsaved is false exactly when no write is outstanding and the store holds the snapshot |
| DraftKeepers.RemovedMeansDeleted | web/editor.js:1727-1731 | a removed record stays unsaved until its delete commits |
| DraftKeepers.HoldsUntilChange | web/editor.js:1712-1718 | a holding keeper writes nothing before the first change and calls nothing unsaved |
| DraftKeepers.DraftKeeper.QueueWrite | web/editor.js:1784-1792 | counts the write, settles the replaced one uncommitted, and starts the drain once |
| DraftKeepers.DraftKeeper.EndWrite | web/editor.js:1769-1783 | a reply settles the running write, and a failure forgets the queued text only when nothing waits |
| DraftKeepers.DraftKeeper.Flush | web/editor.js:1801-1806 | writes the snapshot unless it may not or need not |
| DraftKeepers.DraftKeeper.IsUnsaved | web/editor.js:1809-1815 | the value of unsaved, and the change that reading it can note |
| ImageTables.PlanImageAdmission | web/editor.js:2012-2033 | the trim is the least number of oldest snapshots that makes the image fit, never passing the head; it fails only when an image is missing or nothing fits |
| ImageTables.TrimStep | web/editor.js:2023-2031 | the counts, the keys and the byte total stay those of what the trim leaves |
| ImageTables.FitsFrom | web/editor.js:2023-2031 | from the least trim on every trim fits |
| ImageTables.ImageBytes | web/editor.js:2003-2011 | the byte sum of the keys, or nothing exactly when an image is missing |
| ImageTables.NothingMissing | web/editor.js:2014-2022 | a plan never finds an image of a retained snapshot missing |
| ImageTables.InstallFits | web/editor.js:2034-2039 | the keys at the installation are those of the plan and fit, so its check always succeeds |
| ImageTables.InstalledFits | web/editor.js:2036-2038 | the installed table holds the counted keys and nothing else, within the cap |
| ImageTables.PruneKeeps | web/editor.js:1996-2001 | pruning removes no pinned, shown, present or baseline image |
| ImageTables.ImportKeeps | web/editor.js:2089-2107 | a published import keeps all images that the table must hold |
| ImageTables.RestoreKeeps | web/editor.js:2108-2118 | a restored image keeps all images that the table must hold |
| ImageTables.StepKeeps | web/editor.js:1983-2119 | every event keeps the images of unsettled writes, of the draft, of the baseline and of the view, within the cap |
| ImageTables.ResetDraftKeeps | web/editor.js:4299-4306 | Reset draft, which publishes the baseline's key, keeps the baseline's image and its size in the table, also when every snapshot with it was trimmed |
| ImageTables.ResetDraftEnabled | web/editor.js:4299-4306 | Reset draft is possible in every settled state of the invariant |
| ImageTables.RunInv | web/editor.js:1983-2119 | in every run the table holds what it must and never exceeds the cap |
| ImageLaws.PinsCounted | web/editor.js:2061-2062 | in every run the count of a key is the number of its pins less the number of its unpins |
| ImageLaws.UnsettledPresent | web/editor.js:2061-2062 | while one of several writes that hold an image is unsettled, the image is in the table |
| ImageLaws.PruneExactly | web/editor.js:1996-2001 | a prune deletes exactly the images that the history, pins, draft and baseline do not hold, and none after a failure |
| ImageLaws.RunTight | web/editor.js:1996-2001 | in every run without a failure each image in the table is held by something |
| ImageLaws.PublishKeepsHeld | web/editor.js:1990-1994 | a publication keeps the images of the view before it until it is acknowledged |
| ImageLaws.PublicationsShow | web/editor.js:2089-2118 | an import and a restore show their image with its size, and set the reset baseline as asked |
| ImageLaws.AcknowledgeLetsGo | web/editor.js:1990-1994 | the acknowledgment deletes exactly the images that only an older view had |
| ImageLaws.SizesStay | web/editor.js:2034-2039 | only an import or a restore brings an image in or changes its size |
| ImageTables.ImportDisplaces | web/editor.js:2034-2039 | an import is in the table with its size, and what it displaced was neither pinned nor shown |
| ImageTables.BackgroundModel.InstallImage | web/editor.js:2034-2039 | installs exactly when the keys fit, and else changes nothing |
| ImageTables.BackgroundModel.PublishImport | web/editor.js:2089-2105 | publishes exactly while the draft and the pins are those of the plan |
| ImageTables.BackgroundModel.UnpinImage | web/editor.js:2062-2062 | lowers a count, forgets a pin at its last use, and prunes |
| Graphs.DraftReach | internal/editormodel/checks.go:499-510 | the seen nodes are exactly those that some path reaches |
| Graphs.DraftRoute | internal/editormodel/checks.go:483-497 | true exactly when some route of at least one lane has no blocked inner node |
| Graphs.ReachTransitive | internal/editormodel/check_routes.go:129-130 | reach composes |
| Graphs.ReverseReaches | internal/editormodel/check_routes.go:143-149 | reach on turned lanes is reach backwards |
| BerthReach.AllReachTransitive | internal/editormodel/check_routes.go:165-190 | all-berths reach is transitive through a station that has a berth |
| BerthReach.Search | internal/editormodel/check_routes.go:104-113 | marks exactly the reached nodes, with older marks left in place |
| BerthReach.StationRow | internal/editormodel/check_routes.go:96-125 | conjoins memoised rows into all-berths reach, and every memoised row stays right |
| BerthReach.SameReach | internal/editormodel/check_routes.go:62-91 | reach on node numbers is reach on node names |
| BerthReach.DraftStationReach | internal/editormodel/check_routes.go:59-127 | cell (s, t) is true exactly when every berth of s reaches every berth of t |
| CutOffs.ClassAgrees | internal/editormodel/check_routes.go:183-207 | every representative gives a class the same members and the same misses |
| CutOffs.NeverOverwritten | internal/editormodel/check_routes.go:190-200 | no station of a new class has a group number yet |
| CutOffs.SeedIsFirst | internal/editormodel/check_routes.go:190-195 | a new seed is the first station of its class |
| CutOffs.LeaderIsMain | internal/editormodel/check_routes.go:201-207 | the leading group is the largest class, then the one with fewest misses, then the one with the first station |
| CutOffs.MainUnique | README.md:971-973 | the ranking leaves one main class |
| CutOffs.CutOff | internal/editormodel/check_routes.go:165-215 | for transitive reach the result is the stations outside the main class with their missing links |
| CutOffs.CutOffUnique | README.md:969-976 | the matrix leaves one possible result |
| CutOffs.ReportedExactly | README.md:974-976 | each cut-off station is reported once, in order, with a nonempty out or in list that names the main class |
| CutOffs.NothingCutOff | README.md:968-974 | nothing is reported exactly when all stations reach each other |
| RouteLaws.MainRanks | README.md:971-973 | the main class has the most stations, then the fewest missing links, then the least station |
| PassengerRoutes.Reverse | internal/editormodel/check_routes.go:143-148 | the reverse graph has exactly the turned lanes |
| PassengerRoutes.AllBerthsConnected | internal/editormodel/check_routes.go:129-158 | two searches from one root decide whether every berth reaches every berth |
| PassengerRoutes.ReachIsTransitive | internal/editormodel/check_routes.go:34-39 | the matrix is transitive over the checked stations |
| PassengerRoutes.ShortcutSound | internal/editormodel/check_routes.go:31-33 | when the shortcut holds, the full check reports nothing |
| PassengerRoutes.RouteErrorsUnique | internal/editormodel/check_routes.go:20-57 | the draft leaves one list of errors, with or without the shortcut |
| PassengerRoutes.NoRouteErrors | README.md:967-974 | there is no error exactly when the berths of any two stations all reach each other |
| PassengerRoutes.FindPassengerRoutes | internal/editormodel/check_routes.go:20-57 | the reported stations are the cut-off ones over the unbroken berths |
| RouteLaws.OpenNodesMean | internal/editormodel/check_routes.go:20-30 | a node counts exactly when a berth of the station is on it and no berth check has failed there |
| RouteLaws.LinkTells | internal/editormodel/check_routes.go:39-57 | a report names a station with an open berth, exactly the stations that it does not reach and exactly those that do not reach it |
| RouteLaws.NoLinks | README.md:967-974 | nothing is reported exactly when every open berth of each station reaches every open berth of every other |
| BerthRoutes.OpenedSlots | internal/editormodel/checks.go:453-481 | only slots of a lane that lists the berth are opened, and the berth's own node is |
| BerthRoutes.DepotBlocked | internal/editormodel/checks.go:457-481 | each listed berth gets the station nodes without the slots of its last lane |
| BerthRoutes.CheckBerthRoutes | internal/editormodel/checks.go:423-451 | the errors of all berths in order, and the broken nodes |
| BerthRoutes.NoBerthErrors | internal/editormodel/checks.go:420-422 | there is no error exactly when every berth has both its routes past no blocked node |
| BerthRoutes.BrokenMeans | internal/editormodel/checks.go:447-449 | a node is broken exactly when a berth on it misses a route |
| RouteLaws.BerthErrorsMean | internal/editormodel/checks.go:423-451 | the errors of a berth are the routes it misses, from its gates and past the station nodes that its depot lane does not open |
| RouteLaws.NodeOfMeans | internal/editormodel/checks.go:458-461 | the node of a berth ID is that of the last berth with the ID |
| RouteLaws.LastLaneMeans | internal/editormodel/checks.go:467-478 | the lane of a berth is the last one that lists it |
| RouteLaws.LanesAtJoin | internal/editormodel/checks.go:463-467 | the lanes at a station are those of its depots, in order |
| RouteLaws.BankForMeans | internal/editormodel/edit_banks.go:400-407 | a station with banks uses the gates of the first bank that lists the berth |
| JsonTexts.BodyEnds | web/offline.js:29-37 | a well-formed string body ends exactly at the quote after it |
| JsonTexts.QuoteRoundTrip | web/offline.js:33-33 | unquoting undoes quoting, for every UTF-16 text |
| JsonLaws.EscapeMeans | web/offline.js:33-33 | an escape of one letter denotes its unit, and any other letter but u is malformed |
| JsonLaws.HexEscapeMeans | web/offline.js:33-33 | four hexadecimal digits in either case denote their unit |
| JsonLaws.PlainMeans | web/offline.js:33-33 | every other unit denotes itself, but not a quote or a control unit |
| JsonTexts.ReadNumber | web/offline.js:63-64 | the longest number is well formed and a prefix of the text |
| JsonTexts.ReadNumberOf | web/offline.js:63-65 | a number that no unit continues is read back whole |
| JsonLaws.NumberMeans | web/offline.js:66-66 | a number denotes its digits, divided by ten for each place and scaled by ten for each unit of the exponent, with its sign |
| JsonLaws.ExponentScales | web/offline.js:66-66 | the exponent scales the number without it by a power of ten, up or down |
| JsonParsers.ValueSound | web/offline.js:38-72 | what is read as a value is the text of a tree within the limits, and the counter grew by its size |
| JsonParsers.ElementsSound | web/offline.js:48-62 | what is read as elements has new distinct names and ends at the closing bracket |
| JsonParsers.ValueComplete | web/offline.js:38-72 | the text of a tree within the limits is read back as that tree |
| JsonParsers.ElementsComplete | web/offline.js:48-62 | the text of elements with new distinct names is read back as those elements |
| JsonParsers.ParserAccepts | web/offline.js:25-76 | a text is accepted with a value exactly when it is the text of a tree within the limits with that value |
| JsonLaws.LiteralsRead | web/offline.js:63-66 | the three literals are read as their values |
| JsonLaws.NodesMean | web/offline.js:38-72 | strings, literals, arrays and objects denote their values |
| JsonLaws.ElementsMean | web/offline.js:48-62 | the items and the names of a block come in the order of the text |
| JsonLaws.BytesCountUtf8 | web/offline.js:26-26 | the byte limit counts the UTF-8 form, with the replacement character for a lone surrogate |
| JsonUnique.OneValidTree | web/offline.js:25-76 | a text has at most one valid tree, whatever its size, depth, names and numbers |
| JsonUnique.TakenExactly | web/offline.js:25-76 | the text of a valid tree is taken exactly when the tree is within the limits, with its value |
| JsonReaders.Parser.TokenString | web/offline.js:29-37 | the scan that skips escapes reads the string that the grammar reads |
| JsonReaders.Parser.Value | web/offline.js:38-72 | the value, the index and the counter after a step are those of the grammar |
| JsonReaders.Parser.Items | web/offline.js:48-62 | the loop over elements gives the elements of the grammar, or its failure |
| JsonReaders.Parse | web/offline.js:25-76 | the parser with its shared index and counter computes the grammar's result for every text and limit |
| JsonPrinters.LayoutGood | web/offline.js:186-186 | the indented text of a value is the text of a tree with that value, size and nesting |
| JsonLaws.LayoutIndented | web/offline.js:186-186 | every element is on its own line, two spaces in for each block, with one space after a colon and none in an empty block |
| JsonPrinters.PrintThenParse | web/offline.js:186-186 | parsing undoes printing exactly for the values within the node, depth, number and byte limits, and refuses the texts of all others |
| JsonPrinters.Encode | web/offline.js:186-186 | writes the indented text exactly for the values within the limits, it parses back to the value, and a value with an unsafe number gives no text |
| JsonDecimals.WholeFaithful | web/offline.js:65-70 | every whole number printed in digits reads back as itself |
| JsonDecimals.WholeRoundTrip | web/offline.js:186-186 | a value with whole numbers, printed in digits, is read back exactly when it is within the limits |
| JsonDecimals.DecimalRoundTrip | web/offline.js:186-186 | a value with finite decimals, printed in decimal, is read back exactly when it is within the limits |
| JsonDecimals.BinaryIsDecimal | web/offline.js:66-70 | every binary fraction, so every finite float64, is a finite decimal |
| JsonRepeats.ParityAgrees | web/editor.js:586-592 | the backward backslash count finds the string end of the forward escape scan, for every text |
| JsonRepeats.NoRepeatsMeans | web/editor.js:578-580 | a tree has no repeat exactly when every object has distinct names |
| JsonRepeats.RepeatsMean | web/editor.js:578-580 | the repeats are exactly the names that some object has twice |
| JsonRepeats.FirstRepeat | web/editor.js:593-604 | in a flat object the first repeat is the first name that stands twice up to its place |
| JsonRepeats.ScanElements | web/editor.js:593-604 | the stack holds the names of the open objects, and the scan stops at the first repeat among them |
| JsonRepeats.ScanFindsFirst | web/editor.js:578-606 | for any valid JSON text the scan gives the earliest repeat, and nothing exactly when no object repeats a name |
| JsonRepeats.RepeatedMember | web/editor.js:581-606 | the loop with its index and stack computes the scan |
| ServerSession.OriginsKept | internal/session/checkpoint.go:89-115 | save points and the session with one origin hold one project, through every command |
| ServerSession.RewindRestores | internal/session/checkpoint.go:75-127 | an accepted rewind always gives the project of its save point, also when it installs nothing |
| ServerSession.RevisionNamesProject | internal/session/session.go:866-949 | no command moves a revision back, and a different project has a different revision |
| ServerSession.ReplacesOnlyItsRevision | internal/session/session.go:900-951 | a project command replaces only the paused project at its revision, epoch and named process |
| SessionLaws.ApplyAcceptedExactly | internal/session/session.go:900-951 | a project command is accepted exactly in its epoch and process, paused, at its revision, valid and saved, and then replaces the project |
| SessionLaws.RejectedChangesNothing | internal/session/session.go:570-951 | a rejected command changes nothing |
| SessionLaws.OthersAcceptedExactly | internal/session/session.go:757-951 | a demand change installs its project without a restart, a reset and a demo restart the simulation alone |
| SessionLaws.CaptureSaves | internal/session/checkpoint.go:46-72 | a capture adds the project as the newest of at most eight save points and drops the oldest |
| SessionLaws.RewindExactly | internal/session/checkpoint.go:80-127 | a rewind needs its save point, and a save when that holds another project; it pauses and gives the project back under a new revision |
| SessionLaws.CaptureThenRewind | internal/session/checkpoint.go:46-127 | what a capture saved a rewind gives back, whatever was applied since |
| ServerSession.SameRevisionSameProject | README.md:867-875 | in one process a revision comes back only with the same project |
| ServerSession.ReadSnapshot | web/editor.js:1347-1356 | the first pass that decides among three gives the result: a failed read, a reply without a scenario, or a consistent snapshot; nothing exactly when none decides |
| ServerSession.TakenIsConsistent | web/editor.js:1321-1327 | a snapshot that is taken has one start ID, one epoch and one revision in its three reads |
| ServerSession.GoesOnExactly | web/editor.js:1347-1356 | a pass is read again exactly when its reads came and do not agree |
| ServerSession.AcceptedPairHeld | web/editor.js:1338-1346 | an accepted pair was held by one server state, for every interleaving of changes and restarts |
| ServerSession.QuietPassAccepted | web/editor.js:1321-1327 | a pass without a change is accepted |
| ServerSession.ReplacesOnlyItsBase | README.md:867-879 | an apply with the revision and start ID of an accepted pair replaces no other project |
| ServerSession.MissingStartMixes | web/editor.js:1321-1327 | without start IDs an accepted pair can mix two projects |
| ServerSession.EmptyStartReplacesOther | web/editor.js:1329-1336 | without a start ID a project command can replace the project of another process |
| ServerSession.EmptyStartInOneProcess | web/editor.js:1329-1336 | without a start ID the guarantee lasts for the process of the draft |
| ServerSession.GuardedExactly | web/editor.js:1329-1336 | a project command replaces no project but its base in every history exactly when it sends the start ID |
| ServerSession.ExactExactly | web/editor.js:1321-1327 | accepted pairs are single server states in every history exactly when the server has start IDs |
| ApplyProtocol.Connection.ApplyToServer | web/editor.js:1404-1436 | the requests of an apply, one after the other, give the protocol's server state and outcome |
| ApplyProtocol.DoneIsTrue | web/editor.js:1358-1364 | a successful apply leaves the draft's project paused on the server and tells its revision |
| SessionLaws.DoneExactly | web/editor.js:1404-1436 | an apply succeeds exactly when its checks pass and both commands are accepted and heard |
| SessionLaws.NotPausedExactly | web/editor.js:1387-1394 | not-paused exactly when a check fails or the pause command got a 4xx status |
| SessionLaws.WasPausedExactly | web/editor.js:1387-1394 | was-paused exactly for a failure on a simulation that was paused before |
| SessionLaws.ResumeExactly | web/editor.js:1451-1462 | resumed, restarted or left paused, by what the editor reads and hears after the failure |
| ApplyProtocol.OutcomesTrue | web/editor.js:1387-1394 | not-paused, was-paused, resumed and restarted are each true of the pause flag and the simulation at the end |
| ApplyProtocol.FailureAppliesOnlyUnheard | web/editor.js:1451-1454 | after a failure the project is on the server only when the reply to its command was lost |
| ApplyProtocol.LeftPausedExact | web/editor.js:1392-1392 | left-paused is true exactly when the pause command took effect and the resume command did not |
| ApplyProtocol.LeftPausedCanBeFalse | web/editor.js:1455-1462 | a lost reply to the resume command makes left-paused false |
| ApplyProtocol.OutcomeIsSeen | web/editor.js:1404-1462 | the outcome of an apply is a function of the answers that reach the editor |
| ApplyProtocol.LeftPausedHidden | web/editor.js:1455-1462 | two networks give the editor the same answers and left-paused, and leave different pause flags |
| ApplyProtocol.ApplyReplacesItsBase | web/editor.js:1329-1346 | an apply from an accepted snapshot replaces no other project, after any history of the server |
| DailyOffers.MinuteBudget | cmd/compare/daily.go:51-70 | within a minute the closed form gives the offers and the units of the tick-by-tick budget |
| DailyOffers.WholeMinutes | cmd/compare/daily.go:51-52 | every complete minute ends with zero budget |
| DailyOffers.DailyOfferTicks | cmd/compare/daily.go:53-72 | for every end and every rates the loop gives the offers of the tick-by-tick budget in order, and the counting pass their number |
| DailyOffers.OffersInOrder | cmd/compare/daily_test.go:69-90 | the offers are in tick order, inside the window, each in the band of its tick |
| DailyOffers.UnitsConserved | internal/session/demand.go:212-216 | offers and units left account for every rate that was added, and less than one offer is left |
| DailyOffers.ClearingChangesNothing | cmd/compare/daily_test.go:77-80 | clearing the budget where bands start changes nothing |
| DailyOffers.BandHolds | internal/project/daily.go:105-110 | the 3600 ticks of a minute have the band of that minute of the day |
| DailyOffers.OneOfferATick | cmd/compare/daily_test.go:82-85 | at rates of at most one offer a tick no tick has two offers |
| Schedules.TicksInOrder | cmd/compare/schedule.go:264-276 | request ticks do not decrease, and a burst shares the tick of its first request |
| Schedules.TicksInWindow | cmd/compare/schedule.go:264-276 | every counted request is inside the arrival window |
| Schedules.CountIsGreatest | cmd/compare/schedule.go:264-265 | the last counted interval ends inside the window, and one more would leave it |
| Schedules.IntervalSchedule | cmd/compare/schedule.go:264-295 | synthetic, burst and profile schedules are in tick order inside the window |
| Schedules.DailySchedule | cmd/compare/daily.go:74-84 | the daily schedule has one request for each offer of the budget, in order |
| ArmSimulation.ArmRun.SubmitDue | cmd/compare/run.go:449-470 | offers exactly the requests of the tick, each once, and logs each with the simulation's answer |
| ArmSimulation.ArmRun.Sample | cmd/compare/run.go:528-554 | an arm may stop exactly at an observed tick after the window at which it has drained, with every request offered |
| ArmSimulation.ArmRun.Step | cmd/compare/run.go:392-412 | the cursor is at the next tick after every step, in service and in other runs |
| ArmSimulation.ArmRun.Simulate | cmd/compare/run.go:379-388 | a run without an error offers every request once at its own tick, counts exactly the requests that were not accepted as skipped, met no failure, and stops at the first tick at which it may |
| ArmSimulation.CountSplits | cmd/compare/run.go:455-466 | every offer is accepted or skipped |
| Energy.SampleBalance | cmd/compare/energy.go:170-183 | drawn minus recovered energy covers the kinetic change and the resistance of a sample |
| EnergyLaws.WheelExactly | cmd/compare/energy.go:178-178 | the drive draws the wheel energy over its efficiency, and braking recovers its fraction, never both |
| EnergyLaws.WheelMeans | cmd/compare/energy.go:174-177 | the wheels need the kinetic change and the resistance force at the mean speed over the distance |
| Energy.FrameBalance | cmd/compare/energy.go:190-206 | the balance holds for the whole fleet in an accepted frame |
| EnergyLaws.FrameExactly | cmd/compare/energy.go:190-206 | a frame is accepted exactly when all its samples fit, and gives the sums over them |
| EnergyLaws.ConsumedExactly | cmd/compare/energy.go:185-222 | a frame counts exactly at the next tick with finite sums, and adds them and one tick of the load |
| EnergyLaws.LoadIsPower | cmd/compare/energy.go:157-163 | sixty ticks of the load are one second of the fleet's power |
| Energy.NextBalanced | cmd/compare/energy.go:185-222 | every frame keeps the balance, and a repeated or rejected one changes nothing |
| Energy.RunBalanced | cmd/compare/energy.go:185-222 | in every run net energy covers the kinetic change, the resistance and the auxiliary load, which is exactly per-tick load times ticks |
| Energy.NewEnergyMeter | cmd/compare/energy.go:127-168 | a meter opens exactly for the model name, finite valid profiles, a supported fleet with unique IDs and a finite load, which is that of all vehicles |
| Energy.LoadGrows | cmd/compare/energy.go:157-163 | the load by classes grows by one vehicle's load |
| Energy.EnergyMeter.Consume | cmd/compare/energy.go:185-222 | accepts exactly the frames of the frame function, which rejects nonfinite sums, and leaves the report alone otherwise |
| NodeFlows.WindowCounts | cmd/compare/traffic.go:92-98 | the trimmed list of a node is its passes in the window, as counted from the definition |
| NodeFlows.FullThen | cmd/compare/traffic.go:86-88 | the whole window of a pass was counted when the last pass of its node at its tick came |
| NodeFlows.OnlineIsOffline | cmd/compare/traffic.go:76-101 | the online peak is the maximum over all passes, and its node is the lowest that reaches it, also with several passes at one tick |
| NodeFlows.PeakUnique | cmd/compare/traffic.go:86-88 | the definition leaves one peak and one node |
| NodeFlows.PeakOverAll | cmd/compare/traffic.go:67-67 | no node has more passes than the peak in any 60 seconds, whether or not a pass ends them |
| NodeFlows.WindowCountMeans | cmd/compare/traffic.go:86-88 | the window count is the number of passes of the node in the 60 seconds |
| NodeFlows.BelowMeans | cmd/compare/traffic.go:99-99 | a node ID is lower when it is a proper prefix or lower at the first difference |
| NodeFlows.NodeFlow.RecordPass | cmd/compare/traffic.go:89-101 | one pass changes the window and the peak as the step function says |
| NodeFlows.PeakNodeFlow | cmd/compare/traffic.go:78-84 | for every tick-ordered pass list the result is the offline peak |

## Left out

- Floating point: numbers are reals, so rounding is not modelled. Which numbers are finite is a parameter of the energy meter.
- Integer widths: counters are unbounded, except the 64-bit revision, entry and token counters of the editor timeline; the 32-bit search number of the station reach stays below the number of nodes plus one.
- The library sorts of the rate split and of the node rows are modelled by insertion with the same contract.
- The dimensions of a rate group key other than the sharing consent are one list.
- Editor checks: error texts are not modelled, a list of missing links stands for them; field checks, warnings and draft edits are left out.
- Iteration over Go maps takes any order.
- EditorTimeline.EditorEngine.HistoryOperation: takes a decoded command; the errors of its decoding and of an invalid background are left out.
- EditorTransport.WorkerOperations.Handle: the results of edits, checks and helpers are one plain answer, because they leave the engine's timeline alone.
- ImageTables.BackgroundModel.PublishImport: the ticket, edit and drag checks are left out; a plan can be dropped at any time instead.
- ArmSimulation.ArmRun.Step: band changes, the energy meter and the rail forecast are parameters that tell at which ticks they fail.
- Editor transport: edits, checks and helper operations answer without changing the engine's branches; timeouts and worker crashes are one lost-worker event; the page's edit queue is left out.
- Draft keeper: writes of other tabs, the channel and the hooks' own calls back into the keeper are left out; the hooks are a log.
- Image table: drag and opacity gestures, request tickets and abort signals are left out; a plan can be dropped at any time instead. New image keys are any keys.
- Image table: a restore is one event at its publication, because its keys and their sizes are checked against the same pinned keys.
- JSON: the order in which JavaScript lists members with integer-like names is left out; an object is its members in text order. A text that is not JSON can make the scan for repeated names loop for ever; the model returns nothing there.
- JsonPrinters.PrintThenParse: the number printer is a parameter that writes a token of the same value. `JsonDecimals` has one for whole numbers and one for all finite decimals, but not the shortest float64 token, which rounds.
- JSON numbers: the acceptance bound is exact for float64, and the accepted value is the exact decimal one.
- Server session: command receipts, client limits, trips, faults and file formats are left out; saving and validation are parameters.
- ApplyProtocol.LeftPausedExact: the condition names the fates of the pause and resume requests, which the editor cannot see (`ApplyProtocol.LeftPausedHidden`).
- Schedules: the rail schedules are left out; the run theorem covers any schedule in tick order inside the window.
- Arm runs: the simulation, rail connections and positioning are parameters that answer each offer and each tick in any way.
- Servers, files, flags, hashing, reports, tiles, maps and the page's rendering are left out.
