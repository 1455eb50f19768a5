# Verified kernel of the praxis runtime

This project models the event-sourced kernel of `packages/core-sdk` and the stateful algorithms around it,
and proves what they promise over all journals, graphs, frames and interleavings. `dafny verify dfyconfig.toml`
checks all of it (Dafny 4.11).

How the pieces fit together:

- **Graphs** defines walks, cycles and acyclicity once. The queue of the workflow kernel, the recursive search
  of the plan reducer and the walk of the cancellation tree are all proved against it.
- **Workflow** (`WorkflowGraph`, `WorkflowReadiness`, `WorkflowEvents`, `WorkflowHistory`): specification checks, the
  three-valued join evaluator and the event reducer, and what a projection says about the history that led to it. The
  main result is scheduler progress, which needs the graph proof, the reducer invariant and the evaluator together.
- **Session journal** (`SessionPlan`, `SessionReducer`, `PlanDependencies`, `SessionHistory`, `PlanHistory`, `PlanRules`,
  `PlanEvidence`, `SessionCompaction`, `SessionJournal`, `CommitStore`, `SessionTransfer`): the reducer of sessions,
  runs, checkpoints and plans; that its projection is what the entries say, and which entries may follow; why success
  is earned and verified attempts are final; compare-and-swap commits, pinned paging and crash-resumable import. The
  store follows the append and read rules of the JSONL backend.
- **Review plan** (`ReviewPlan`, `ReviewRules`, `ReviewAcceptance`): a machine of seventeen events, each with exactly
  what it asks and leaves, in which acceptance is earned and then frozen.
- **Canonical JSON** (`JsonText`, `CanonicalJson`, `CanonicalIdentity`, `JsonReader`): the printer is exact, and an
  independent reader reads back what it printed. String escapes follow section 7 of RFC 8259, key order section 3.2.3
  of RFC 8785.
- **Terminal** (`Terminal`, `TerminalOutput`, `TerminalRefinement`, `TerminalSession`, `TerminalModes`): the differential
  renderer proved against a small emulator with rows, cursor, scrolling on line feeds, clamped moves, a cursor that
  can be hidden and output that is held back.
- **Client** (`EventChannel`, `ClientDemux`, `ClientProtocol`, `ClientListeners`, `ClientEndings`, `ListenerEndings`,
  `ClientDraining`, `ClientRuns`): the bounded channel, the run demultiplexer with its channel objects, and every
  interleaving of requests, the event pump, consumers of single runs and listeners to all events: what they see, and
  how reading ends for them.
- **Cancellation**, **ProviderStream** with **ProviderHistory** and **ProviderInterleaving**, **CommandHeader**, and
  **CommandRegistry** with **CommandListing**: the cancellation tree, the stream accumulator, the tokenizer and the
  command catalogs.

Objects whose methods update their fields (renderer, channel, demultiplexer, cancellation tree, accumulator,
commit store, registry, dependency search) are modelled as classes; each method is tied to a function of the old
state, and the theorems are about these functions. The functions in turn are tied to what was written, said or
published before, or to relations that name what an event asks and leaves, so that no definition only vouches for
itself. The checks of a workflow specification run the queue, and the event reducer runs these checks, so what is
proved of reduced histories is proved of the code as it runs.

Where a natural statement is false of the code, the exact condition is proved beside a concrete witness:

- a step or attempt may be created with an outcome already claimed (`PlanEvidence.EntryKeepsEarned`,
  `PlanEvidence.ClaimedSuccessIsAccepted`);
- an archive may be valid as a whole and still be refused commit by commit, because a plan is only checked at the
  end of a reduction (`SessionTransfer.ImportSessionJournal`, `SessionTransfer.ValidArchiveMayNotImport`);
- frames that end in blank lines can part the tracked viewport from the terminal (`TerminalRefinement.UpdateExact`,
  `TerminalSession.BlankEndingsLoseTrack`);
- with conditional edges a join may wait although nothing is open; it is undecided exactly if something is left open
  among its pending edges (`WorkflowReadiness.UndecidedExactly`, `WorkflowReadiness.ConditionalMayWaitIdly`);
- a page can pass the reader's check without progress; readings end if no page that announces more is empty, and such
  an answer can be repeated without end exactly if it is empty (`SessionJournal.CheckedReadingEnds`,
  `SessionJournal.EndlessExactlyIfStuck`, `SessionJournal.ValidPageWithoutProgress`). The pages of the store always
  make progress (`CommitStore.SessionCommitStore.ReadAllEntries`).

## Model

| member | source | states |
|---|---|---|
| `WorkflowGraph.AssertAcyclic` | packages/core-sdk/src/workflow.ts:922-944 | Kahn's queue terminates and accepts exactly the acyclic edge sets |
| `WorkflowGraph.ValidateWorkflowSpec` | packages/core-sdk/src/workflow.ts:438-523 | the checks as they run, the queue included, give the first failing check of distinct nodes, edges inside the node set, no cycle at all, admissible joins and mode, or the specification unchanged |
| `WorkflowReadiness.NodeReadiness` | packages/core-sdk/src/workflow.ts:734-774 | the one-pass counter loop returns the three-valued join verdict over the classified incoming branches |
| `WorkflowReadiness.RootIsReady` | packages/core-sdk/src/workflow.ts:734-740 | a node without incoming edges is ready |
| `WorkflowReadiness.IncomingIsComplete` | packages/core-sdk/src/workflow.ts:736-738 | the incoming edges of a node are all edges of the graph that lead to it, as often as they occur |
| `WorkflowReadiness.ReadinessBySources` | packages/core-sdk/src/workflow.ts:734-774 | ready, skipped, blocked and waiting in terms of the sources: which edges are still open, which were taken, which of those succeeded, and what the declared join asks of them |
| `WorkflowReadiness.VerdictStands` | packages/core-sdk/src/workflow.ts:769-773 | a verdict other than waiting is unchanged by every way the pending branches can settle |
| `WorkflowReadiness.WaitingIsOpen` | packages/core-sdk/src/workflow.ts:769-773 | while a join waits, settling all pending branches well gives ready and settling them badly gives blocked |
| `WorkflowReadiness.VerdictIsFinal` | packages/core-sdk/src/workflow.ts:734-774 | ready, skipped and blocked survive every completion of the unfinished nodes, and with all nodes finished nothing waits |
| `WorkflowReadiness.WaitsExactlyWhileOpen` | packages/core-sdk/src/workflow.ts:734-774 | with unconditional edges, waiting is returned if and only if two completions give different verdicts |
| `WorkflowReadiness.UndecidedExactly` | packages/core-sdk/src/workflow.ts:734-774 | whatever the edge conditions, two completions give different verdicts if and only if the node waits and its join has something left open: enough pending edges that can succeed together for any and quorum; for all, a pending edge that can fail, or no success yet and one that can succeed |
| `WorkflowReadiness.SeparateSourcesReach` | packages/core-sdk/src/workflow.ts:769-773 | if no two pending edges share a source, a quorum is within reach exactly if successes and pending edges that can succeed add up to it |
| `WorkflowReadiness.ConditionalMayWaitIdly` | packages/core-sdk/src/workflow.ts:755-768 | with a condition that can never hold, a node waits although every completion gives the same verdict |
| `WorkflowEvents.ApplySound` | packages/core-sdk/src/workflow.ts:568-718 | every accepted event keeps nodes in specification order, distinct attempts linked by ordinal, a valid graph, mutations equal to the revision distance, and adds exactly its own charge |
| `WorkflowEvents.ApplyWorkflowEvent` | packages/core-sdk/src/workflow.ts:568-718 | applying an event, with every specification it brings run through the checks and the queue, is the step that the invariants are about |
| `WorkflowEvents.ReduceWorkflowEvents` | packages/core-sdk/src/workflow.ts:560-566 | the loop over the events gives the reduction, or the error of the first event that is refused |
| `WorkflowEvents.HistorySound` | packages/core-sdk/src/workflow.ts:560-566 | the same over every accepted history, with one sequence number per event and usage equal to the sum of the charges |
| `WorkflowEvents.FinishedIsAbsorbing` | packages/core-sdk/src/workflow.ts:1129-1139 | a finished workflow keeps its state and code through every further accepted event |
| `WorkflowEvents.HistoryStaysFinished` | packages/core-sdk/src/workflow.ts:560-566 | every prefix of an accepted history is accepted, and no continuation reopens a finished one |
| `WorkflowEvents.SchedulerProgress` | packages/core-sdk/src/workflow.ts:720-774 | in every reachable projection with an unfinished node, some unfinished node has a verdict other than waiting |
| `WorkflowEvents.ReadyWorkflowNodeIds` | packages/core-sdk/src/workflow.ts:720-730 | a running workflow lists those nodes of its specification that have not started and are ready, in specification order |
| `WorkflowEvents.ReadyIdsExact` | packages/core-sdk/src/workflow.ts:720-730 | in a sound projection a node is listed, once, if and only if it has not started and its verdict is ready |
| `WorkflowHistory.RunIsEnteredFrom` | packages/core-sdk/src/workflow.ts:1129-1139 | for each state of a run, the states from which it is entered |
| `WorkflowHistory.NodeIsEnteredFrom` | packages/core-sdk/src/workflow.ts:1141-1164 | for each state of a node, the states from which it is entered |
| `WorkflowHistory.AttemptIsEnteredFrom` | packages/core-sdk/src/workflow.ts:1166-1186 | for each state of an attempt, the states from which it is entered |
| `WorkflowHistory.SpecFaultExactly` | packages/core-sdk/src/workflow.ts:438-523 | a specification is accepted unchanged if and only if nothing is wrong with it: ids, edges, cycles, joins that can be met, mode; and refused for the first thing that is |
| `WorkflowHistory.InitialExactly` | packages/core-sdk/src/workflow.ts:541-558 | a workflow starts created, at its own revision, with every node proposed and nothing spent |
| `WorkflowHistory.EventIsAcceptedExactly` | packages/core-sdk/src/workflow.ts:568-718 | in every reachable projection an event is accepted if and only if nothing is held against it: sequence, known nodes and attempts, ordinals, transition tables, patch limits; and refused with the error of what is |
| `WorkflowHistory.RunFollowsHistory` | packages/core-sdk/src/workflow.ts:560-718 | over every accepted history the run is in the state last announced, with the code last given |
| `WorkflowHistory.EventOnNode` | packages/core-sdk/src/workflow.ts:817-830 | an accepted event does to the node of each id exactly what it says of it, and moves it only along its table |
| `WorkflowHistory.EventOnAttempts` | packages/core-sdk/src/workflow.ts:832-857 | attempts are only added, and each is changed only by an event that names it, with its lease, times, results and code as given or kept |
| `WorkflowHistory.EventOnSpec` | packages/core-sdk/src/workflow.ts:568-718 | the specification changes only by a patch, an admitted task or a new topology, and the revision only by a patch |
| `WorkflowHistory.UsageAddsUp` | packages/core-sdk/src/workflow.ts:560-566 | by each of its five measures the usage is the sum of the recorded charges |
| `WorkflowHistory.RunningCanStart` | packages/core-sdk/src/workflow.ts:720-774 | in every reachable running workflow in which no node has started, some node is listed as ready |
| `WorkflowHistory.AdmittedJoinCanBeMet` | packages/core-sdk/src/workflow.ts:478-485 | only decisions and syntheses join, and a join of an admitted graph is ready once all its sources have succeeded |
| `WorkflowHistory.ReadyIdsInOrder` | packages/core-sdk/src/workflow.ts:720-730 | ready nodes are listed in the order of the specification |
| `TerminalOutput.NativeTerminalOutput.UpdateFrame` | apps/cli/src/ui/terminalOutput.ts:96-192 | the diff loops emit the operations, and leave the tracked state, of the functional update |
| `TerminalOutput.NativeTerminalOutput.RewriteRows` | apps/cli/src/ui/terminalOutput.ts:140-191 | the rewriting and removing loops emit the differential operations and track cursor and viewport |
| `TerminalOutput.NativeTerminalOutput.RenderFully` | apps/cli/src/ui/terminalOutput.ts:194-204 | a full render emits all lines and tracks the last row and the first visible line |
| `TerminalOutput.NativeTerminalOutput.Finish` | apps/cli/src/ui/terminalOutput.ts:51-66 | finishing emits the moves to the row below the frame once and tracks the last row, and does nothing afterwards |
| `TerminalRefinement.FullRenderRun` | apps/cli/src/ui/terminalOutput.ts:194-204 | after a full render the screen shows the frame from its tracked viewport top |
| `TerminalRefinement.RewritesRun` | apps/cli/src/ui/terminalOutput.ts:168-175 | rewriting rows in place, scrolling at the bottom, replaces exactly those rows |
| `TerminalRefinement.RemovalsRun` | apps/cli/src/ui/terminalOutput.ts:177-185 | erasing the removed rows leaves exactly the shorter frame |
| `TerminalRefinement.UpdateExact` | apps/cli/src/ui/terminalOutput.ts:96-192 | one update keeps terminal and tracker synchronized on the new frame if and only if no row it erases lies below the screen |
| `TerminalSession.EveryFrameIsShown` | apps/cli/src/ui/terminalOutput.ts:96-219 | over every sequence of frames that end in text, resizes included, the screen shows the last frame from the tracked viewport top and the cursor is on the tracked row |
| `TerminalSession.TopSinceRender` | apps/cli/src/ui/terminalOutput.ts:96-219 | the tracked viewport top is the furthest top that any frame since the last full render asks for |
| `TerminalSession.RefinesRepaint` | apps/cli/src/ui/terminalOutput.ts:96-219 | after every frame the viewport top is not before that of a repaint, and the screen shows the rows of the repaint from there on, then blanks; from the same top the screens are equal |
| `TerminalSession.FinishBelow` | apps/cli/src/ui/terminalOutput.ts:51-66 | finishing leaves the cursor on a blank row below the frame and keeps the frame on the screen |
| `TerminalSession.BlankEndingsLoseTrack` | apps/cli/src/ui/terminalOutput.ts:113-118 | frames that end in blank lines can part tracker and terminal: a concrete run of three frames |
| `TerminalModes.ShownAtOnce` | apps/cli/src/ui/terminalOutput.ts:139-191 | output between its synchronization marks is held back by the terminal until the last operation |
| `TerminalModes.UpdatesAppearAtOnce` | apps/cli/src/ui/terminalOutput.ts:96-204 | whatever a frame makes the renderer write is nothing, or one such stretch |
| `TerminalModes.CursorIsHidden` | apps/cli/src/ui/terminalOutput.ts:194-204 | after every session of frames the cursor is hidden and nothing is held back |
| `TerminalModes.CursorIsShownAgain` | apps/cli/src/ui/terminalOutput.ts:51-66 | after finishing, from any screen, the cursor is visible and nothing is held back |
| `TerminalModes.UnchangedWritesNothing` | apps/cli/src/ui/terminalOutput.ts:111-119 | a frame drawn again at the same size writes nothing and is still tracked |
| `TerminalModes.OnlyChangedRowsAreWritten` | apps/cli/src/ui/terminalOutput.ts:107-146 | without a full render an update writes no row outside the changed ones, or, when the frame shrinks, none before the first change |
| `JsonText.LessIsLexicographic` | packages/core-sdk/src/canonical-json.ts:72-74 | one key comes before another exactly if it is a proper prefix, or at the first difference its code unit is smaller |
| `JsonText.SortAscends` | packages/core-sdk/src/canonical-json.ts:66-74 | sorting keys by code units gives a strictly ascending list of the same keys |
| `JsonText.AscendingUnique` | packages/core-sdk/src/canonical-json.ts:66-74 | the ascending order of a set of keys is unique |
| `JsonText.QuoteUnambiguous` | packages/core-sdk/src/canonical-json.ts:27-27 | a quoted string can be read back: equal texts come from equal strings and equal rests |
| `JsonText.EscapeIsShort` | packages/core-sdk/src/canonical-json.ts:27-27 | a code unit is escaped exactly if it has to be, by a short escape where there is one |
| `CanonicalJson.SameText` | packages/core-sdk/src/canonical-json.ts:24-70 | equal values, with objects read as maps, have the same canonical text whatever the insertion order |
| `CanonicalJson.Unambiguous` | packages/core-sdk/src/canonical-json.ts:24-70 | from a common text two values and their delimited rests can be recovered, so texts never collide |
| `CanonicalJson.CanonicalTextIsExact` | packages/core-sdk/src/canonical-json.ts:24-70 | two values have the same canonical text if and only if they are equal with objects read as maps |
| `CanonicalIdentity.PrintExact` | packages/core-sdk/src/canonical-json.ts:33-35 | with the set of objects seen so far, printing succeeds exactly for values in which nothing is reached twice or was seen, and adds the objects it passed |
| `CanonicalIdentity.CanonicalPrintExact` | packages/core-sdk/src/canonical-json.ts:12-70 | the printer accepts exactly the writable values in which each object occurs once, and then returns the canonical text |
| `JsonReader.CanonicalRoundTrip` | packages/core-sdk/src/canonical-json.ts:12-70 | a reader written after the grammar of RFC 8259 reads every canonical text, objects with members in lexicographic key order, as the value it was printed from, and stops at its end |
| `PlanDependencies.AssertPlanDependencies` | packages/core-sdk/src/session-journal.ts:2088-2106 | the visiting/visited search terminates and succeeds exactly if every dependency exists and there is no cycle |
| `PlanDependencies.DependencySearch.Visit` | packages/core-sdk/src/session-journal.ts:2092-2104 | a visit finishes the step after everything it depends on, or a missing step or a cycle is on its trail |
| `SessionReducer.ReduceSessionEntries` | packages/core-sdk/src/session-journal.ts:765-1468 | the one-pass loop computes the fold of the entries followed by the check of the finished plan |
| `SessionReducer.ProjectPlan` | packages/core-sdk/src/session-journal.ts:1941-2008 | the final check accepts exactly plans with sound dependencies, consistent results, distinct orders, attempts and child runs, and at least one step |
| `SessionReducer.FailureStays` | packages/core-sdk/src/session-journal.ts:806-835 | once an entry is refused every longer journal is refused for the same reason |
| `SessionHistory.JournalIsRead` | packages/core-sdk/src/session-journal.ts:806-983 | over every accepted journal: a run is known exactly if an entry started it, has the status of the entry that ended it, and is the active one until then; lifecycle, leaf and checkpoint are what the last entry about them left; ids in use are those the entries name |
| `SessionHistory.NextEntryExactly` | packages/core-sdk/src/session-journal.ts:806-983 | after an accepted journal an entry is accepted if and only if the entries before it hold nothing against it, and is refused with the error they call for |
| `PlanHistory.PlanIsRead` | packages/core-sdk/src/session-journal.ts:984-1274 | over every accepted journal the plan holds the steps created since it was and carried by every revision since; each step and attempt is in the state last given to it, and results, executions and verifications are those recorded |
| `PlanRules.PlanTurnsExactly` | packages/core-sdk/src/plan.ts:412-420 | for each state of a plan, exactly when it may be entered |
| `PlanRules.StepTurnsExactly` | packages/core-sdk/src/plan.ts:189-207 | for each state of a step, exactly when it may be entered, with what its newest attempt must have reached |
| `PlanRules.AttemptTurnsExactly` | packages/core-sdk/src/session-journal.ts:1149-1274 | exactly when an attempt may change its state, complete, be bound, or have a result or a verification recorded |
| `PlanRules.RevisedExactly` | packages/core-sdk/src/session-journal.ts:1023-1064 | a plan may be revised exactly if it runs, is blocked or failed, nothing of it is being worked on, and every proof names a step verified on unchanged input with all its dependencies proven |
| `PlanRules.PresentableExactly` | packages/core-sdk/src/session-journal.ts:1941-2008 | a reduced plan is presented exactly if it has steps, distinct orders, existing dependencies without a cycle, attempts that agree with their results, and no attempt id or child run twice |
| `PlanRules.NextPlanEntryExactly` | packages/core-sdk/src/session-journal.ts:984-1274 | after an accepted journal an entry about the plan is accepted if and only if its envelope is in order and its event fits the current plan, its revision, the ids in use and these rules |
| `PlanEvidence.EntryKeepsEarned` | packages/core-sdk/src/session-journal.ts:1065-1274 | an accepted entry keeps every success backed by evidence if and only if it does not create a succeeded step or an attempt past its execution |
| `PlanEvidence.SuccessIsEarned` | packages/core-sdk/src/session-journal.ts:1065-1274 | in every prefix of every journal whose created entries claim no outcome, each succeeded step holds a verified attempt with a recorded success and only passed verifications |
| `PlanEvidence.ClaimedSuccessIsAccepted` | packages/core-sdk/src/session-journal.ts:1065-1083 | the reducer accepts a step created as succeeded: a concrete journal |
| `PlanEvidence.VerifiedIsFinal` | packages/core-sdk/src/plan.ts:431-441 | a verified attempt is never altered by later entries, revisions included, while its step is in the plan |
| `PlanEvidence.ProofIsKept` | packages/core-sdk/src/session-journal.ts:1023-1064 | a step that had succeeded still holds its proof at every later moment at which it is in the plan |
| `PlanEvidence.AttemptsAreNumbered` | packages/core-sdk/src/session-journal.ts:1120-1149 | attempts of a step are numbered from one and bounded, and the latest attempt is the one created last |
| `PlanEvidence.RevisionKeepsProvenWork` | packages/core-sdk/src/session-journal.ts:1023-1064 | a revision keeps exactly the proven steps, succeeded and verified, closed under dependencies, and keeps an acyclic graph sound |
| `SessionCompaction.PreparedIsAccepted` | packages/core-sdk/src/session-compaction.ts:43-80 | the reducer accepts the entry of a compaction exactly if its range passes preparation, the session is open, both ids are fresh and time has not gone back; the new checkpoint then is what was asked for |
| `SessionCompaction.OmittedAndRetainedAreAll` | packages/core-sdk/src/session-journal.ts:1457-1468 | in every journal the checkpoint covers entries 1..e with e below the head, and omitted plus retained entries equal the head |
| `SessionCompaction.CoverageGrows` | packages/core-sdk/src/session-journal.ts:948-983 | as a journal grows its checkpoint stays or is replaced by one that covers strictly more |
| `SessionCompaction.PreparedCommitIsAppended` | packages/core-sdk/src/session-compaction.ts:72-95 | the commit of a prepared compaction is appended if nobody came in between |
| `SessionCompaction.OvertakenCommitIsRefused` | packages/core-sdk/src/session-journal-port.ts:218-230 | if another writer came in between, that commit is refused with a revision conflict |
| `SessionJournal.FindDuplicate` | apps/runtime/src/session-db/jsonlSessionJournalV3.ts:669-691 | a duplicate is found exactly if a key is shared, and only the very same commit is one |
| `SessionJournal.AppendKeepsLog` | apps/runtime/src/session-db/jsonlSessionJournalV3.ts:188-215 | an append keeps one commit per revision, each prefix reducible, no key used twice, and only extends the log |
| `SessionJournal.AcceptedSawHead` | packages/core-sdk/src/session-journal-port.ts:218-230 | an accepted new commit was prepared against the current head |
| `SessionJournal.RetryIsDuplicate` | apps/runtime/src/session-db/jsonlSessionJournalV3.ts:194-197 | retrying a stored commit at any later time returns its own receipt and changes nothing |
| `SessionJournal.AppendExactly` | packages/core-sdk/src/session-journal-port.ts:218-246 | an append is answered exactly so: a stored commit by the receipt of its place in the log, any other that takes a used key or does not follow the head by its conflict, a new one that reduces by the revision and the sequences it has in the log after it |
| `SessionJournal.WritersLeaveALog` | packages/core-sdk/src/session-journal-port.ts:119-131 | after any interleaving of append attempts the sequences are 1..n without a gap and exactly the first entry creates the session |
| `SessionJournal.PageIsStretch` | apps/runtime/src/session-db/jsonlSessionJournalV3.ts:217-241 | a page is the next stretch of entries up to the limit or the pinned head |
| `SessionJournal.PageAnswersExactly` | apps/runtime/src/session-db/jsonlSessionJournalV3.ts:217-241 | any request for a page: a session without entries is not found, a bound past the head is refused, a reader past the bound gets nothing, and every page tells the current head |
| `SessionJournal.PagesHold512` | packages/core-sdk/src/session-journal-port.ts:363-382 | a page of a log holds 512 entries whenever that many follow |
| `SessionJournal.PageIsValid` | packages/core-sdk/src/session-journal-port.ts:412-452 | the reader's check accepts every page of a log |
| `SessionJournal.CheckedReadingIsComplete` | packages/core-sdk/src/session-journal-port.ts:412-452 | whatever a backend answered, a finished reading whose pages pass the check and whose entries reduce is exactly 1..head |
| `SessionJournal.CheckedReadingEnds` | packages/core-sdk/src/session-journal-port.ts:363-382 | whatever a backend answered, if no page that announces more is empty, a checked reading asks at most once for each entry of the pinned head |
| `SessionJournal.EndlessExactlyIfStuck` | packages/core-sdk/src/session-journal-port.ts:434-448 | an answer that announces more passes the check again any number of times if and only if it is empty |
| `SessionJournal.ProgressMeansEntries` | packages/core-sdk/src/session-journal-port.ts:434-448 | a valid page brings the reader further if and only if it holds an entry |
| `SessionJournal.ValidPageWithoutProgress` | packages/core-sdk/src/session-journal-port.ts:434-448 | a page can pass the check without bringing the reader any further |
| `CommitStore.SessionCommitStore.AppendCommit` | apps/runtime/src/session-db/jsonlSessionJournalV3.ts:188-215 | the store method performs the append on the log of the commit's session and changes nothing else |
| `CommitStore.SessionCommitStore.ReadAllEntries` | packages/core-sdk/src/session-journal-port.ts:363-382 | with writers appending between pages the paging loop terminates and returns exactly the log as it was at the first page |
| `CommitStore.SessionCommitStore.LoadProjection` | packages/core-sdk/src/session-journal-port.ts:389-395 | loading succeeds exactly for sessions that exist and returns the reduction of that log |
| `SessionTransfer.ValidateCommitStream` | packages/core-sdk/src/session-journal-transfer.ts:156-178 | the counter loop accepts exactly non-empty streams of consecutive commits that reduce as a whole |
| `SessionTransfer.StreamIsValidExactly` | packages/core-sdk/src/session-journal-transfer.ts:156-178 | a stream is valid if and only if its commits are sound, hold one revision of the session each, are numbered on from one another, and reduce together |
| `SessionTransfer.ExportSessionJournal` | packages/core-sdk/src/session-journal-transfer.ts:36-54 | a valid store is always exported, completely |
| `SessionTransfer.HeldIsValid` | packages/core-sdk/src/session-journal-transfer.ts:36-54 | what a valid store holds is a valid archive and can be imported elsewhere |
| `SessionTransfer.ImportSession` | packages/core-sdk/src/session-journal-transfer.ts:106-113 | importing one session only extends it towards the archive; stored commits count as duplicates, the others as accepted |
| `SessionTransfer.ImportSessionJournal` | packages/core-sdk/src/session-journal-transfer.ts:96-154 | a diverged target is refused untouched; otherwise, wherever the import stops the target stays a prefix of the archive, it completes exactly if the archive is importable and it is not stopped, and accepted plus duplicate equals the commit count |
| `SessionTransfer.ImportAgain` | packages/core-sdk/src/session-journal-transfer.ts:96-130 | an interrupted import is finished by running it again, and a further import accepts nothing |
| `SessionTransfer.CopyJournal` | packages/core-sdk/src/session-journal-transfer.ts:36-130 | export followed by import into an empty store copies every session |
| `SessionTransfer.ValidArchiveMayNotImport` | packages/core-sdk/src/session-journal-transfer.ts:156-178 | an archive can be valid as a whole and yet not importable commit by commit: a concrete archive |
| `Cancellation.CancellationTree.WouldCreateCycle` | packages/core-sdk/src/contracts.ts:395-402 | the walk up terminates and says whether the parent is already a descendant of the child |
| `Cancellation.CancellationTree.Cancel` | packages/core-sdk/src/contracts.ts:371-385 | cancel returns exactly the newly cancelled descendants, once each, level by level with siblings in the order in which they were linked, keeps first reasons and closes cancellation under children |
| `Cancellation.CancellationTree.Link` | packages/core-sdk/src/contracts.ts:325-360 | a link is refused exactly for a second parent or a cycle; each with its own error; otherwise parents stay a forest inverse to the children lists and cancellation stays closed |
| `Cancellation.CancellationTree.Unlink` | packages/core-sdk/src/contracts.ts:362-369 | unlinking removes exactly that link and keeps the forest, the inverse and all cancellations |
| `Cancellation.WaveIsComplete` | packages/core-sdk/src/contracts.ts:371-385 | when no child of the wave is left, the wave is exactly the uncancelled descendants of its root |
| `EventChannel.AsyncEventChannel.PushEvent` | packages/client/src/index.ts:535-551 | a push goes to the oldest waiter, into the buffer, or fails the channel when the buffer is full |
| `EventChannel.AsyncEventChannel.CallNext` | packages/client/src/index.ts:524-533 | a read takes the oldest buffered event, the failure, the end, or waits |
| `EventChannel.AsyncEventChannel.FailWith` | packages/client/src/index.ts:561-568 | failing drops the buffer and rejects every waiter |
| `ClientDemux.RunDemultiplexer.PublishEvent` | packages/client/src/index.ts:393-434 | an event goes to everyone who follows all events, and then to the subscribers of its run, or is kept for a pending request, or is dropped |
| `ClientDemux.RunDemultiplexer.Subscribe` | packages/client/src/index.ts:333-354 | a new subscriber's channel starts with everything kept for its run |
| `ClientDemux.RunDemultiplexer.Unsubscribe` | packages/client/src/index.ts:356-373 | a leaving subscriber's channel is completed and a run it left early is ignored |
| `ClientDemux.RunDemultiplexer.Listen` | packages/client/src/index.ts:190-199 | a new listener has an open channel, or one closed from the start if the stream is over |
| `ClientDemux.RunDemultiplexer.RequestEnds` | packages/client/src/index.ts:290-293 | with the last request in flight everything kept for unclaimed runs is dropped |
| `ClientDemux.RunDemultiplexer.StreamEnds` | packages/client/src/index.ts:219-220 | the end of the stream completes the channel of every subscriber and forgets them |
| `ClientDemux.RunDemultiplexer.StreamFails` | packages/client/src/index.ts:383-388 | a failed stream fails the channel of every subscriber and forgets them |
| `ClientDemux.RunDemultiplexer.CompleteEventSubscribers` | packages/client/src/index.ts:441-451 | every subscriber of a run and every listener is completed and forgotten, with everything kept |
| `ClientProtocol.StepKeeps` | packages/client/src/index.ts:276-463 | every step of the client keeps consumers, runs and kept events in agreement with what was published |
| `ClientProtocol.ConsumersSeeTheirRun` | packages/client/src/index.ts:276-309 | in every interleaving a consumer has seen a gap-free, duplicate-free, in-order prefix of its run's events since the request, and a stream that ends without error ends at the terminal event |
| `ClientProtocol.SubscribersMissNothing` | packages/client/src/index.ts:333-434 | while a consumer is subscribed, what it has seen, was handed and has buffered is all its run published |
| `ClientListeners.ListenersHearAll` | packages/client/src/index.ts:190-199 | in every interleaving a listener has seen an initial part of the history since it subscribed, and while its channel is subscribed and open nothing of it is missing |
| `ClientEndings.EndingsHaveTheirCause` | packages/client/src/index.ts:276-309 | in every interleaving a run ends early for its consumer only if the stream ended or the client was closed, with the stream failure only if it failed, with an overflow only if more was published than it has seen and can hold; a consumer that reads an open channel is subscribed |
| `ClientEndings.FailureReachesConsumers` | packages/client/src/index.ts:453-463 | when the stream fails a waiting consumer is rejected at once, and whatever happens then no consumer that was following ends in another way than with that failure or by leaving |
| `ListenerEndings.ListeningEndsWithCause` | packages/client/src/index.ts:190-199 | a listener is finished only if the stream ended or the client was closed, and fails only with cause |
| `ListenerEndings.FailureReachesListeners` | packages/client/src/index.ts:453-463 | a listener on an open channel when the stream fails is never finished: its wait is rejected at once and every later read too, unless it had been answered |
| `ClientDraining.EndReachesConsumers` | packages/client/src/index.ts:441-451 | when the stream ends or the client is closed, a waiting consumer is told at once, and every other is still given all its run had published, in order, before it is told |
| `ClientDraining.EndReachesListeners` | packages/client/src/index.ts:441-451 | a listener is still given everything published since it subscribed, and then the end |
| `ClientDraining.FlagsFollowSteps` | packages/client/src/index.ts:200-388 | the stream is over, failed or closed exactly if that has happened |
| `ClientDraining.NothingIsLeft` | packages/client/src/index.ts:441-463 | after the end or the failure nobody is subscribed and nothing is kept or ignored |
| `ClientRuns.LeftRunsAreIgnored` | packages/client/src/index.ts:356-373 | a run whose consumer stopped is ignored until its last event while the stream goes on; one read to its end, or whose last event still waits, is not |
| `ClientRuns.LastEventForgets` | packages/client/src/index.ts:399-417 | once the last event of a run has been published the run is neither followed nor ignored |
| `ReviewAcceptance.AcceptanceByHandIsRefused` | packages/core-sdk/src/review-plan.ts:798-802 | setting an item to accepted by a state change is always refused, by the projection rule alone |
| `ReviewAcceptance.AcceptanceIsFrozen` | packages/core-sdk/src/review-plan-events.ts:148-431 | an accepted item keeps its state, attempt, evidence and review through an accepted event if and only if the event is not a revision that drops or redefines it |
| `ReviewAcceptance.AcceptanceIsEarned` | packages/core-sdk/src/review-plan-events.ts:348-401 | in every history an item is accepted if and only if it carries an accepted attempt, and then a review of that attempt was prepared and later recorded as accepted with the evidence it holds |
| `ReviewAcceptance.AcceptanceLasts` | packages/core-sdk/src/review-plan-events.ts:196-261 | an acceptance lasts over every run of events whose revisions repeat the item's definition |
| `ReviewAcceptance.EventIsStepwise` | packages/core-sdk/src/review-plan-events.ts:196-430 | outside revisions every accepted event changes prepared reviews and acceptance of an item only by preparing, recording or clearing |
| `ReviewRules.FirstEventExactly` | packages/core-sdk/src/review-plan-events.ts:148-195 | a plan is created exactly from a sound definition hashed as it is, at revision one with every item pending |
| `ReviewRules.DefinitionSoundExactly` | packages/core-sdk/src/review-plan.ts:371-408 | a definition is accepted exactly if criteria and items have ids of their own, items check known criteria without repetition, every required criterion is checked, and limits lie between one and 32 |
| `ReviewRules.NextEventExactly` | packages/core-sdk/src/review-plan-events.ts:196-430 | after every accepted journal an event is accepted with a given plan as its result if and only if it leads there: the states from which each state is entered, the open attempt it names, the one item it changes and everything it leaves alone |
| `ReviewRules.FinalReviewDecides` | packages/core-sdk/src/review-plan-events.ts:393-399 | while a final review is prepared the next recorded review is that one; accepted it completes a plan under review, blocked it blocks it, and otherwise the plan goes on |
| `ProviderStream.ProviderStreamAccumulator.AcceptChunk` | packages/core-sdk/src/provider-stream.ts:49-104 | accepting a chunk changes the fields as the functional step does, or fails with the same error and leaves what that step leaves |
| `ProviderStream.RefusalChangesNothing` | packages/core-sdk/src/provider-stream.ts:49-104 | after every accepted stream a refused chunk changes nothing, unless it lists calls without an index |
| `ProviderStream.ProviderStreamAccumulator.FinishTurn` | packages/core-sdk/src/provider-stream.ts:106-151 | finishing gives the finished turn, or the first reason why it is not finished |
| `ProviderStream.FinishedInOrder` | packages/core-sdk/src/provider-stream.ts:128-150 | a finished turn holds each block at the place given by how many blocks have smaller indexes, then the text without an index, then the calls in the order of completion |
| `ProviderHistory.AcceptedExactly` | packages/core-sdk/src/provider-stream.ts:49-104 | a stream is accepted if and only if every chunk is allowed by the chunks before it, otherwise the first that is not is refused for its reason, and the state is what the chunks said |
| `ProviderHistory.FinishedExactly` | packages/core-sdk/src/provider-stream.ts:106-151 | an accepted stream finishes if and only if it has a last chunk or listed calls without an index and ended every block and call it started; the turn has the stop reason and usage of the last chunk, or else ends for its tool calls without usage |
| `ProviderHistory.RefusalLeavesExactly` | packages/core-sdk/src/provider-stream.ts:49-104 | after an accepted stream a refused chunk leaves everything as it was, except that of calls listed without an index those before the first refused one are kept |
| `ProviderHistory.BlocksAsSaid` | packages/core-sdk/src/provider-stream.ts:128-130 | the finished turn holds for each started block the text of its pieces, at the place given by the smaller indexes |
| `ProviderHistory.CallsAreListed` | packages/core-sdk/src/provider-stream.ts:212-246 | with each chunk the list grows by the calls it ends or lists, with the name of their start and the input given, read from all their pieces, or empty |
| `ProviderStream.Ascending` | packages/core-sdk/src/provider-stream.ts:128-130 | indexes are listed once each in ascending order |
| `ProviderInterleaving.BlocksFollow` | packages/core-sdk/src/provider-stream.ts:153-182 | a text block is determined by the chunks that carry its index |
| `ProviderInterleaving.ToolCallsFollow` | packages/core-sdk/src/provider-stream.ts:212-246 | the listed calls are determined by the completion order and by what each call received |
| `ProviderInterleaving.InterleavingDoesNotMatter` | packages/core-sdk/src/provider-stream.ts:49-151 | two accepted streams with the same substreams, completion order and end finish with equal results |
| `ProviderInterleaving.OneCallPerIndex` | packages/core-sdk/src/provider-stream.ts:184-246 | a finished turn lists distinct call ids; started indexes have different ids, and each is listed with its name and the input that its last chunk gave or left to be read |
| `CommandHeader.TokenizeHeader` | packages/core-sdk/src/input-router.ts:356-387 | the character loop computes the tokenizer, and its limit on a single token never fires within the header limit |
| `CommandHeader.TokenizeIsGrammar` | packages/core-sdk/src/input-router.ts:356-387 | a header is accepted with some tokens if and only if it is a row of blanks, plain characters and quotations with these words |
| `CommandHeader.UnbalancedIsRefused` | packages/core-sdk/src/input-router.ts:384-384 | a header that ends inside a quotation is refused |
| `CommandHeader.QuotingIsComplete` | packages/core-sdk/src/input-router.ts:356-387 | every list of tokens, empty ones and ones with blanks or both quotes included, is read back from its quoted form |
| `CommandHeader.CommandRoundTrip` | packages/core-sdk/src/input-router.ts:328-354 | a command with quoted arguments and a body on the following lines is parsed back exactly, its name in lower case and with either line break |
| `CommandHeader.ParseExactly` | packages/core-sdk/src/input-router.ts:328-354 | an input is read as a command if and only if its first line, within the limits, has a slash and a name, in whatever case, and at most sixteen arguments; what is too short or too long is told apart |
| `CommandHeader.SplitsSomewhere` | packages/core-sdk/src/input-router.ts:331-333 | every input is its first line, a line feed with or without a carriage return before it, and the body |
| `CommandHeader.WidthExactly` | packages/core-sdk/src/input-router.ts:336-337 | the byte length counts each character by its only UTF-8 encoding (RFC 3629) |
| `CommandRegistry.CommandRegistry.Register` | packages/core-sdk/src/command.ts:189-209 | a descriptor is registered exactly if it is well formed, allowed to the owner, free of collisions and claims no reserved alias, and else refused for the first of these |
| `CommandRegistry.CommandRegistry.Snapshot` | packages/core-sdk/src/command.ts:211-248 | a snapshot lists exactly the offered descriptors in order with their free aliases |
| `CommandRegistry.CommandRegistry.SnapshotPasses` | packages/core-sdk/src/command.ts:255-346 | a snapshot passes the validator exactly if it has at most 512 entries and lists no reserved alias, which the default reserved names ensure |
| `CommandListing.CatalogLists` | packages/core-sdk/src/command.ts:211-248 | a catalog lists exactly the registered descriptors that its binding grants, builtin ones before those of the workspace and of extensions and by name within, and of each in order exactly the aliases that are neither reserved nor had by another |
| `CommandListing.SoundExactly` | packages/core-sdk/src/command.ts:599-605 | where a descriptor of each kind may come from |
| `CommandRegistry.CommandRegistry.RegisterAll` | packages/core-sdk/src/command.ts:189-209 | registering a list succeeds exactly if no member collides with an earlier one |
| `CommandRegistry.OrderOfRegistration` | packages/core-sdk/src/command.ts:189-209 | a collision-free set gives the same registry in every order |
| `CommandRegistry.OneCatalog` | packages/core-sdk/src/command.ts:211-248 | whatever the order in which the same collision-free descriptors were registered, the same catalog is published |
| `CommandRegistry.OneOrder` | packages/core-sdk/src/command.ts:643-646 | if the collation tells names apart, the order of a catalog is determined by what it lists |
| `CommandRegistry.ResolveIsExact` | packages/core-sdk/src/input-router.ts:389-404 | over the entries of any number of catalogs a name resolves to an entry if and only if that entry alone has the command, or nobody has it and that entry alone has the alias and offers it |
| `CommandRegistry.SharedCommandConflicts` | packages/core-sdk/src/input-router.ts:396-396 | a command that two entries have is a conflict |
| `CommandListing.UnresolvedExactly` | packages/core-sdk/src/input-router.ts:389-404 | a name is a conflict exactly if two entries have the command, ambiguous exactly if nobody has and two have the alias, and else unknown |
| `CommandRegistry.ResolveInCatalog` | packages/core-sdk/src/input-router.ts:389-404 | in one valid catalog a name resolves to an entry if and only if it is its command, or nobody's command and an alias it makes available |

## Left out

- Shape validators (regular expressions, byte and count limits, exact keys), freezing and cloning: inputs are typed.
- Timestamps are integers that only have to be ordered; digests stand for the content they cover.
- Workflow edge conditions are arbitrary predicates of the source node; pointer lookup and deep comparison are not modelled.
- Retry, timeout, budget and effect contracts of workflow nodes, which no property here depends on.
- `SessionReducer.ReduceSessionEntries`: leaves out usage totals, message contents, planner generations, control facts, review
  budgets and working plans; the review plan reducer is modelled on its own. Plan steps keep title, order, dependencies and limits.
- Session entries are checked one at a time as they are reduced, so when several are wrong the error reported may differ.
- The stable order of reduced steps and of listed ready steps, which rests on locale collation.
- The durability of the backends (files, locks, fsync, transactions, projection caches); the store keeps logs in memory.
- Portable archives are maps from session to commits: the sorted listing and the archive checksum are not modelled.
- Canonical JSON: numbers are identified with their text, objects are finite trees with identities, and the digest itself is left out.
- Terminal lines are opaque and fit one row; the filter for frames without visible content and the stream plumbing
  around the renderer are left out. The first frame meets a blank screen with the cursor at its top.
- `CommitStore.SessionCommitStore.LoadProjection`: a backend may instead answer from a projection cache of its own, which is not part of this model.
- Client: reconnection, request validation and the timing of the pump; channel objects are addressed by ids.
- `ClampChildBudget` and the other budget functions of the contracts module, which are plain minima.
- Provider streams: the normalisation of stop reasons.
- Review plans: digests of definitions are compared as the definitions themselves; criteria are opaque apart from their ids and whether they are required.
- Command lines are sequences of code points; lower-casing covers ASCII letters, and argument values are not typed against their schema.
- `CommandRegistry.CommandRegistry.Snapshot`: names that the collation does not tell apart are listed in some order; the original
  keeps their order of registration. Safe command names consist of lower-case ASCII letters, digits and a few marks.
- Snapshot, capability and descriptor digests of command catalogs.
