# A verified model of kkode's run protocol, workspace, session log and tool loop

kkode is a Go runtime for coding agents. This project models four of its parts in Dafny and
proves properties of them for all inputs, all runs and all interleavings.

**Background runs** (`RunModel`, `RunTables`, `RunManager`, `RunProtocol`, `RunSafety`,
`RunTheorems`, `RunStored`, `RunSignals`, `RunWitness`, `RunStore`, `RunEvents`, `EventBus`). Any number of
gateways share one store.
Start, execute, Cancel, Shutdown, progress reports and recovery are threads of one state
machine, `RunProtocol`, whose steps are the lock regions, the transactions and the context
signals of the code; a save may fail at any time. `AsyncRunManager` performs the lock regions
in place on its fields, `SQLiteRunStore` the transactions, with the retry loop around them.
One invariant over reachable states carries the theorems: a run id is executed at most once,
a terminal status never changes, a run whose context was cancelled ends cancelled, slots
bound the running runs and are released once, and the event log stays numbered 1..n.
`RunStored` says exactly when the stored status of an ended run is still terminal, and
`RunSignals` what a Cancel or a Shutdown that is through has brought about.

**Workspace edits and undo** (`Text`, `Paths`, `FileTree`, `Checkpoint`, `Snapshot`, `Undo`,
`Edits`, `UndoEdits`, `EditResults`, `Patch`, `PatchText`, `PatchApply`, `Workspaces`, `Witnesses`). A file tree is a map
from component paths to contents and a set of directories. Paths are resolved as strings, the
way the code does it, and related to components. `Undo` gives the exact condition under which
restoring a checkpoint gives back the files, for any edit at all; `UndoEdits` turns it into a
condition per edit, and `Workspaces` states it for the tools that take a checkpoint first.
`EditResults` says what each edit leaves in which file, and `PatchText` what any patch text
means line by line.

**Session log** (`SessionTables`, `SessionLog`, `SessionRuntime`). Tables are rows with
explicit ordinals and unique keys. The atomic save, the three separate calls and the full
rewrite of a session are compared by what `LoadSession` then returns.

**Tool loop and codecs** (`ToolCalls`, `ParallelTools`, `ToolLoop`, `Utf8`, `Decimal`,
`Frames`, `Sse`, `SseBlocks`). Parallel tool calls are goroutines with a semaphore, and every schedule is
shown to give the sequential results; writers and readers of frames are inverse; two
truncation algorithms agree.

Code that changes state is a method or a class, proved against a function of the old state;
the properties are lemmas about those functions. `dafny verify dfyconfig.toml` checks all of it.

## Where the code differs from what one might expect

- `filepath.WalkDir` is given the skip test on files too. A file whose name is on the skip
  list (for example `build`) makes the walk leave out every later entry of its directory, so
  that a recursive delete of that directory cannot be undone (`Witnesses.SkippedFileIsLost`).
- A patch that deletes an empty directory and adds a file in its place cannot be undone
  (`Witnesses.PatchOverDirectoryIsLost`). `UndoEdits.UndoPatch` shows, in terms of the
  operations, that an add which stays last at the path of a directory is the only case.
- The snapshot trims its paths and the write does not: a path with white space at an edge is
  recorded under another name than it is written (`Witnesses.EdgeSpaceIsLost`; the exact
  condition is `UndoEdits.UndoWriteAs`).
- A file whose name puts white space at the edge of its stored path is restored under the
  trimmed name, so deleting it is not undone (`Undo.UndoneOnlyWhereTouched`).
- An event that names another session is stored under that name but numbered by the session
  being saved (`SessionLog.AtomicRows`).
- Moving a directory onto another one is not undone even if every file on both sides was
  recorded: a file that lands under a new name stays (`UndoEdits.NewNameStays`; the exact
  condition is `UndoEdits.UndoMoveOntoExisting`).
- An overwriting move whose destination is a directory above the source removes the source
  with the destination and then fails (`UndoEdits.UndoFailedMove`).
- Saves run outside the lock: a Cancel that is overtaken by the end of its run stores
  `cancelling` over the final status, for good (`RunWitness.LateCancelIsStored`). A Cancel
  that comes after the end does so too, at a gateway that has only reserved the id
  (`RunWitness.OtherGatewayCancelIsStored`). `RunStored.StoredStatusAfterEnd` gives the exact
  condition for all behaviours.
- With the root `/`, `Resolve` rejects every path but `/` (`Paths.ResolveExactly`).
- A starter that reports an unknown status leaves a run that is neither active nor terminal,
  and Shutdown moves it back to cancelling; all theorems about runs account for it.
- A full rewrite of a session forgets every turn it had not loaded (`SessionLog.RewriteForgets`).

## Model

| member | source | states |
|---|---|---|
| RunModel.FinishIsTerminal | gateway/run_manager.go:556-608 | the final update of a run leaves it terminal exactly when its context ended, the starter failed, or the reported status is known or empty; never queued, running or cancelling; always cancelled when the context ended |
| RunModel.FinishStatus | gateway/run_manager.go:592-608 | which status and which error the final update gives: each terminal status exactly under its own causes, the starter's error text when the context is live, otherwise what was reported |
| RunModel.FinishKeepsFields | gateway/run_manager.go:538-561 | the starter's fields are kept, blank ones come from the request, and without a result the run keeps its own |
| RunModel.EventTypeTells | gateway/server.go:1190-1195 | the event type tells the status name, except that a blank one reads updated |
| RunTables.AppendNext | session/sqlite_store.go:1437-1449 | an event without a number gets the next one, and its insert cannot fail while the log is dense |
| RunTables.SaveEffect | session/sqlite_store.go:1122-1151 | a save upserts the row and appends exactly one event, numbered one past the log, that carries the stored row |
| RunTables.SaveKeepsInvariant | session/sqlite_store.go:1122-1151 | a save keeps every log numbered 1..n and every row equal to its latest snapshot event |
| RunTables.ClaimKeepsInvariant | session/sqlite_store.go:1155-1262 | a claim succeeds exactly when the id is free, leaves a row either way, and keeps the same invariant |
| RunTables.ProgressKeepsInvariant | session/sqlite_store.go:1411-1449 | a progress event extends one existing log by one and touches no row |
| RunManager.AsyncRunManager.ReserveId | gateway/run_manager.go:231-262 | a new id is reserved as queued with the fields of the request; a known id changes nothing and is handed back only for the same idempotency key and session |
| RunManager.AsyncRunManager.ForgetId | gateway/run_manager.go:257-273 | a lost or failed claim removes the reservation; every other entry and the slots stay |
| RunManager.AsyncRunManager.MarkCancelling | gateway/run_manager.go:427-468 | only a queued or running run becomes cancelling, and only then a context is returned for cancelling |
| RunManager.AsyncRunManager.MarkShutdown | gateway/run_manager.go:471-510 | every run that is not terminal becomes cancelling with the shutdown error, terminal runs stay, and exactly the changed ones are returned |
| RunManager.AsyncRunManager.MarkRefused | gateway/run_manager.go:512-526 | a run without a slot becomes cancelled with the context's error |
| RunManager.AsyncRunManager.MarkRunning | gateway/run_manager.go:527-534 | a run with a slot becomes running, whatever its status was; its error and context, every other entry and the slots stay |
| RunManager.AsyncRunManager.MarkFinished | gateway/run_manager.go:556-610 | the branch-by-branch final update equals the merge of FinishStatus and FinishKeepsFields; an error that is not a context's fails the run, and no other run changes |
| RunManager.AsyncRunManager.TryAcquire | gateway/run_manager.go:630-646 | a slot is taken exactly when one is free or no limit is set |
| RunManager.AsyncRunManager.Release | gateway/run_manager.go:630-646 | a slot is given back exactly when there is a limit; afterwards one is free, and no run changes |
| RunSafety.InvAlways | gateway/run_manager.go:231-297 | in every reachable state: memory entries and threads own each other one to one, claimed ids are stored and claimed by one thread, slots are counted, tables are consistent |
| RunSafety.OwnershipKept | gateway/run_manager.go:427-615 | every step keeps each entry with the one thread that reserved it, in a status that fits how far that thread has come |
| RunSafety.ClaimsKept | gateway/run_manager.go:280-297 | every step keeps at most one claimant per run id over all gateways |
| RunSafety.SlotsKept | gateway/run_manager.go:630-646 | every step keeps the used slots equal to the threads that hold one, within the limit |
| RunTheorems.AtMostOneExecute | gateway/run_manager.go:231-297 | in every interleaving of any number of gateways, execute is launched at most once per run id |
| RunTheorems.TerminalStep | gateway/run_manager.go:427-615 | no step of any thread changes or removes the entry of a run that is terminal in memory |
| RunTheorems.TerminalForever | gateway/run_manager.go:427-615 | once terminal in memory, a run keeps its status, error and context for the rest of every behaviour |
| RunTheorems.ClosesOnce | gateway/run_manager.go:512-615 | an executed run takes at most one closing update |
| RunTheorems.ClosingStep | gateway/run_manager.go:512-615 | a run that is past its last update took a closing one |
| RunTheorems.ClosingStatus | gateway/run_manager.go:556-608 | the closing update starts from a status that is not terminal and never ends active or blank; failed, completed and cancelled each exactly under their causes in terms of the step, with the starter's error text while the context is live, and cancelled whenever the context was cancelled |
| RunTheorems.ClosingStores | gateway/run_manager.go:648-660 | what the closing update computed is what memory then holds for that run |
| RunTheorems.CancelledRunEndsCancelled | gateway/run_manager.go:512-615 | a run whose context was cancelled at any time before its last update ends cancelled in memory whatever the starter returned, and stays so |
| RunTheorems.SlotBound | gateway/run_manager.go:512-534 | running runs are at most the slot holders, the holders are exactly the used slots, and at most the configured maximum |
| RunTheorems.ReleasedAfterUpdate | gateway/run_manager.go:611-613 | a slot is released only after the final update of a run that acquired it, and no acquisition or release of a thread happens twice |
| RunTheorems.NothingHeldAtTheEnd | gateway/run_manager.go:611-646 | a run that has ended holds no slot, and if it acquired one it released it |
| RunWitness.LateCancelIsStored | gateway/run_manager.go:427-468 | the counterexample with a Cancel that marked the run before its end: the memory ends completed, every thread has ended, and the store says cancelling |
| RunWitness.OtherGatewayCancelIsStored | gateway/run_manager.go:231-278 | the counterexample with a Cancel that came after the end, at a gateway where the id was reserved and lost its claim |
| RunTheorems.StoreAlways | session/sqlite_store.go:1122-1202 | over every behaviour logs are numbered 1..n in commit order and only grow at the end, rows equal their latest snapshot event, and rows are never deleted |
| RunStored.StoredIsLastSave | gateway/run_manager.go:668-687 | once a run is stored, its row is at any time what the last committed save of that run wrote, by whatever thread, and unchanged if there was none |
| RunStored.LaterCancel | gateway/run_manager.go:427-468 | a SaveCancel after the end writes the outcome if its Cancel found the run ended in the memory that ran it, and nothing terminal if it marked the run before or at another gateway |
| RunStored.LaterSave | gateway/run_manager.go:427-510 | a save after the final one writes a terminal status exactly when it is not a stale cancellation; for an unknown outcome, exactly when it comes from an orphaned Cancel or from recovery |
| RunStored.StoredStatusAfterEnd | gateway/run_manager.go:512-615 | from the final save of a run on, the stored status is terminal at any time exactly when the last save since, if any, is not stale, and the row is still the outcome if there was none or it was a Cancel that is not stale; unknown outcomes separately |
| RunSignals.CompletedCancelWins | gateway/run_manager.go:427-468 | a Cancel that found the run queued or running and has returned before the last update of that run makes it end cancelled in memory, whatever the starter returned |
| RunSignals.ShutdownReaches | gateway/run_manager.go:471-503 | when Shutdown has nothing left to save or to signal, the context of every run that had not ended when it began is cancelled |
| RunSignals.CompletedShutdownWins | gateway/run_manager.go:471-503 | so each of those runs whose last update comes later ends cancelled |
| RunSignals.ContextsEndAlways | gateway/run_manager.go:257-273 | in every reachable state the contexts of ended runs and of Starts that lost their claim are cancelled |
| RunSignals.OrphanOrigin | gateway/run_manager.go:432-450 | a Cancel of a run unknown to its gateway only closes a row that was active when it was loaded, as cancelled with its own error text |
| RunSignals.RecoveryOrigin | gateway/run_manager.go:198-228 | recovery only closes rows that were active when it listed them |
| RunSignals.RecoveryWrites | gateway/run_manager.go:213-222 | recovery writes failed with its own error text over an otherwise unchanged row, and stops at the first save that fails |
| RunSignals.ReportAppends | gateway/run_manager.go:697-725 | a progress event carries the reported kind and the run as memory had it when the report began, and is the next in its log |
| RunStore.SQLiteRunStore.TrySave | session/sqlite_store.go:1122-1151 | one attempt commits the save on top of whatever transaction another connection committed meanwhile, unless that one logged an event of the same run; then it changes nothing of its own |
| RunStore.SQLiteRunStore.SaveRunWithEvent | session/sqlite_store.go:213-225 | whatever transactions of any runs other connections commit during the attempts, the retry loop saves at the first attempt that none contests, on top of what they committed, and gives up with nothing saved when all attempts are contested |
| RunStore.RivalTakesNumber | session/sqlite_store.go:213-229 | an insert whose number was read before another commit breaks the unique index exactly when that commit logged an event of the same run |
| RunStore.SQLiteRunStore.ClaimRunWithEvent | session/sqlite_store.go:1155-1262 | insert if absent: reports whether this call created the row, returns the stored row, and logs one event only when it did |
| RunStore.SQLiteRunStore.ListRuns | session/sqlite_store.go:1334-1364 | lists distinct rows of the status, as many as there are up to the limit |
| RunStore.RecoverStatus | gateway/run_manager.go:198-228 | listing and closing pages ends with no row of that status left, for any number of rows |
| RunStore.RecoverStaleRuns | gateway/run_manager.go:198-228 | terminates; afterwards every queued, running or cancelling row is failed with the recovery error and exactly one more event, and every other row and log is untouched |
| RunEvents.NextMatches | session/sqlite_store.go:1451-1482 | past the last event of a page lie exactly the matches that the page left out |
| RunEvents.PageOf | gateway/server.go:973-997 | asking for one event more than the limit tells exactly whether there are more; between its cursors a page holds every event of the kind and nothing else |
| RunEvents.FollowPages | gateway/server.go:1042-1052 | following the cursor from 0, with or without a kind and any limit of at least 1, ends with exactly the events of the kind in the log, once and in order, in as few pages as the limit allows |
| RunEvents.EmptyLogPage | gateway/server.go:978-997 | a run without stored events shows its current state as event 1 unless a cursor or a kind was asked for |
| EventBus.AlwaysReliable | gateway/event_bus.go:126-172 | under any publishing, receiving and closing, received plus buffered is an in-order subsequence of what was published, the buffer keeps its bound, the latest terminal event is never lost, and after any terminal event one is received or buffered |
| EventBus.SendKeeps | gateway/event_bus.go:149-172 | publishing keeps that guarantee, dropping what does not fit unless it is terminal |
| EventBus.SentExactly | gateway/event_bus.go:126-172 | with room the channel gains exactly the event, whatever its kind; a full channel ignores an event that is not terminal and gives up its oldest for a terminal one |
| EventBus.LostExactly | gateway/event_bus.go:126-172 | over any behaviour exactly one event is lost per publish that meets a full channel; without those, received plus buffered is exactly what was published while the channel was open |
| EventBus.LiveChannel.Publish | gateway/event_bus.go:126-172 | try to send, evict the oldest for a terminal event, try again: equal to the one-step publish of SentExactly; with room the event is put at the end |
| EventBus.RunEventBus.PublishEvent | gateway/event_bus.go:110-124 | every subscriber of the event's run gets the event, no other channel changes, and an event without a run id changes nothing |
| EventBus.RunEventBus.Publish | gateway/event_bus.go:93-108 | a run update reaches the run subscribers as it is and the event subscribers as an event without a number |
| EventBus.RunEventBus.Subscribe | gateway/event_bus.go:25-57 | a new open channel joins the run subscribers of one run only |
| EventBus.RunEventBus.Unsubscribe | gateway/event_bus.go:39-52 | the channel is closed and leaves its run, whose entry disappears with its last channel |
| EventBus.RunEventBus.SubscribeEvents | gateway/event_bus.go:59-91 | a new open channel joins the subscribers of one run only |
| EventBus.RunEventBus.UnsubscribeEvents | gateway/event_bus.go:73-86 | the channel is closed and leaves its run, whose entry disappears with its last channel |
| Text.SplitJoin | workspace/workspace.go:848-849 | joining separator-free parts and splitting again gives the parts |
| Text.LessIsStrictOrder | workspace/checkpoint.go:72-74 | the byte order by which entries are sorted is a strict total order |
| Text.CountAndReplace | workspace/workspace.go:257-269 | a text around n occurrences counts n, and replacing the first of them puts the new text in their places and leaves the gaps alone |
| Text.CutAtEach | workspace/workspace.go:257-269 | every text is cut into such gaps |
| Paths.ResolveExactly | workspace/workspace.go:114-130 | Resolve succeeds exactly when the normalised component path extends the root's components (for the root "/" only at "/" itself), and returns that path |
| Paths.PrefixTest | workspace/workspace.go:126-128 | the string prefix test equals the component prefix test unless the root is "/" |
| Paths.ResolveIsIdempotent | workspace/workspace.go:114-130 | resolving a resolved path changes nothing |
| Paths.ResolveRelative | workspace/checkpoint.go:355-361 | resolving the relative path of a path inside the root gives that path back |
| Paths.CleanIsIdempotent | workspace/workspace.go:118-125 | cleaning a path twice is cleaning it once |
| Paths.CleaningRules | workspace/workspace.go:114-130 | blank and dot components vanish, a name followed by dot-dot vanishes with it, dot-dot below the root of the file system vanishes, and any other name is one more component |
| Paths.ClimbExactly | workspace/workspace.go:114-130 | a relative path that climbs n steps resolves exactly when the names after them lead back through all that was climbed out of, and to which path |
| Paths.UpAndOver | workspace/workspace.go:114-130 | one step up and into a name leaves the root unless the name is the root's own |
| Paths.ResolveAbsolute | workspace/workspace.go:114-130 | an absolute path resolves to itself exactly when it is inside the root |
| Checkpoint.VisitedExactly | workspace/checkpoint.go:245-270 | the walk reaches a path exactly when nothing from below its top down to it is skipped or cut off by a skipped file |
| Checkpoint.NotEntered | workspace/workspace.go:437-445 | the walk records nothing at or below a name on the skip list or the logs, wherever it starts above them |
| Checkpoint.SavedAreNotRecorded | workspace/checkpoint.go:236-262 | a saved checkpoint is never recorded by another one |
| Checkpoint.CheckpointFileResolves | workspace/checkpoint.go:78-123 | the checkpoint directory and file resolve to where the model keeps them |
| Snapshot.UniqueNonEmptyPaths | workspace/checkpoint.go:341-353 | exactly the trimmed nonempty paths, each once |
| Snapshot.CollectTree | workspace/checkpoint.go:240-281 | the walk adds an entry for exactly the captured paths of one tree, none twice |
| Snapshot.SnapshotPath | workspace/checkpoint.go:212-238 | one path succeeds exactly when it resolves below the root and can be looked up, and then adds what it captures |
| Snapshot.SnapshotPaths | workspace/checkpoint.go:59-76 | succeeds exactly when there is a path and all are snapshotable; the entries are sorted and are exactly the captured paths with what is there |
| Undo.UndoExactly | workspace/checkpoint.go:191-202 | restoring a faithful checkpoint succeeds and gives back exactly the files if and only if the edit changed no file outside what it records and turned no recorded file into a directory |
| Undo.UndoneOnlyWhereTouched | workspace/checkpoint.go:283-331 | for any stored paths at all, an edit is only undone where an entry is restored to, and that is the trimmed path of the entry |
| UndoEdits.UndoneExactly | workspace/checkpoint.go:191-322 | the same condition in terms of the tree before the snapshot, for any edit that leaves the checkpoint's own file alone |
| UndoEdits.UndoWriteAnywhere | workspace/workspace.go:167-176 | a write anywhere, the checkpoint's own file included, is undone exactly when it failed, changed nothing, or hit a path that restoring decides |
| UndoEdits.UndoWriteAs | workspace/workspace.go:167-176 | the same for a write at a path as the caller gives it, trimmed or not, resolvable or not |
| UndoEdits.UndoEditAs | workspace/workspace.go:247-270 | an edit at any path is undone exactly when it failed, left the text as it was, or hit a path that restoring decides |
| UndoEdits.UndoWrite | workspace/workspace.go:167-176 | writing a snapshotted file, new or not, is always undone |
| UndoEdits.UndoEdit | workspace/workspace.go:247-270 | editing a snapshotted file is always undone, whether the edit succeeds or fails |
| UndoEdits.UndoDelete | workspace/workspace.go:178-197 | deleting is undone exactly when every file of a deleted directory was captured by the walk |
| UndoEdits.UndoDeleteAs | workspace/workspace.go:178-197 | deleting at any path is undone exactly when it failed, or took no checkpoint file with it and every file it took was recorded |
| UndoEdits.UndoPatch | workspace/workspace.go:541-572 | a patch is undone exactly when, among the operations that were applied (all if it succeeds, none if it cannot be planned), no add at a directory is the last one at its path |
| UndoEdits.UndoPatchByResult | workspace/workspace.go:541-572 | a patch, complete or stopped part way, is undone exactly when it left no file where there was a directory |
| UndoEdits.FileAfter | workspace/workspace.go:557-570 | after some executed plans there is a file at a path that had none exactly when the last of them there wrote it |
| UndoEdits.UndoOrdinaryPatch | workspace/workspace.go:541-572 | a patch that adds at no existing directory is always undone |
| UndoEdits.UndoMoveToAbsent | workspace/workspace.go:199-241 | a move to an absent path is undone exactly when every file below the source was recorded |
| UndoEdits.UndoMoveOntoFile | workspace/workspace.go:199-241 | a move of a file onto a file is always undone |
| UndoEdits.MoveAcrossKindsIsNotUndone | workspace/workspace.go:199-241 | a move of a directory onto a file, or of a file onto a directory, is never undone |
| UndoEdits.UndoMoveOntoExisting | workspace/workspace.go:199-241 | a move onto an existing path, of any kinds, is undone exactly when every file below the source was recorded, what lands where no file was recorded is what was there, and no directory lands on a recorded file |
| UndoEdits.NewNameStays | workspace/workspace.go:199-241 | a moved file that lands below an existing destination where there was none is never undone |
| UndoEdits.UndoFailedMove | workspace/workspace.go:223-241 | a failed move is undone unless it removed a directory above its own source that was not fully recorded |
| UndoEdits.UndoMove | workspace/workspace.go:199-241 | the exact condition for the paths as the caller gives them, in every case: onto itself, failing, to an absent path, onto an existing one |
| Witnesses.PatchOverDirectoryIsLost | workspace/workspace.go:541-572 | a concrete patch that restoring does not undo |
| Witnesses.SkippedFileIsLost | workspace/checkpoint.go:248-252 | a concrete directory whose recursive delete restoring does not undo |
| Witnesses.EdgeSpaceIsLost | workspace/checkpoint.go:341-353 | a concrete path with an edge space whose write restoring does not undo |
| EditResults.WriteLeaves | workspace/workspace.go:167-176 | a write leaves the text at its path and changes no other file; over an existing file it succeeds |
| EditResults.EditLeaves | workspace/workspace.go:247-270 | an edit succeeds exactly when the file holds the old text, as often as expected, and then leaves the new text in all its places and the rest as it was |
| EditResults.DeleteLeaves | workspace/workspace.go:178-197 | a deletion succeeds exactly for a file below the root or, recursively, a directory below it, and takes away exactly what is at and below its path |
| EditResults.MoveLeaves | workspace/workspace.go:199-241 | exactly when a move succeeds; then the destination is what the source was, the source is gone, and every other file stays |
| EditResults.PlanExactly | workspace/workspace.go:599-628 | an operation of a patch is planned exactly when its path resolves and there is something to delete, or a file that holds the old text |
| EditResults.PlanLeaves | workspace/workspace.go:599-628 | a planned operation works at its path, and a planned update writes the text before, the new text and the text after the first occurrence of the old one |
| EditResults.PatchLeaves | workspace/workspace.go:541-572 | a patch leaves at every path what the last applied operation there says, read against the tree before it, and changes no other file |
| Patch.ParsePatch | workspace/workspace.go:848-886 | the parser's loops compute the operations of the lines, with an error for an update without old text and for no operation |
| Patch.ParseUpdateHunk | workspace/workspace.go:888-915 | the hunk loop collects the old and the new text that BodyReads describes, up to the next header |
| Patch.RoundTrip | workspace/workspace.go:848-915 | parsing the text of a nonempty list of operations (trimmed one-line paths, nonempty old text, no carriage returns) gives back exactly that list |
| Patch.ParseIsStable | workspace/workspace.go:848-915 | whatever a text looked like, rendering what was parsed and parsing that again changes nothing, and the result is not empty |
| PatchText.BodyReads | workspace/workspace.go:888-915 | of any mix of kept, removed, added and other lines, the old text is the kept and removed lines and the new text the kept and added lines, in order; of an added file only the added lines count |
| PatchText.SectionsParse | workspace/workspace.go:848-886 | headers, bodies and skipped lines in any mix parse to the operations they mean, and an update without old text is an error |
| PatchText.PatchReads | workspace/workspace.go:848-886 | the same for texts, with either line end |
| PatchText.EveryPatchReads | workspace/workspace.go:848-886 | every text is made of such sections, so this is what any patch text parses to |
| Patch.PatchPaths | workspace/workspace.go:574-591 | exactly the paths of the operations, each once, in order of first use |
| PatchApply.BatchIsOneByOne | workspace/workspace.go:541-628 | with operations at, above and below different paths, the batch succeeds exactly when every operation would succeed alone, and then leaves the tree of applying them one by one |
| PatchApply.AnyOrder | workspace/workspace.go:541-572 | any order of the same operations, in one batch or one by one, succeeds or fails alike and leaves the same tree; no other file changes |
| Workspaces.Workspace.Write | workspace/workspace.go:167-176 | the steps of WriteFile leave the tree of the edit function, error or not |
| Workspaces.Workspace.Edit | workspace/workspace.go:247-270 | the checks and the replacement of EditFile |
| Workspaces.Workspace.Delete | workspace/workspace.go:178-197 | the branches of DeletePath |
| Workspaces.Workspace.Move | workspace/workspace.go:199-241 | the branches and steps of MovePath |
| Workspaces.Workspace.ApplyPatch | workspace/workspace.go:541-572 | too large a text, a parse error or a failed plan changes nothing; otherwise the planned operations are executed in order until one fails |
| Workspaces.Workspace.CreateCheckpoint | workspace/checkpoint.go:48-57 | a failed checkpoint changes no file; a successful one records the requested paths and is the starting point of the undo theorems |
| Workspaces.Workspace.Restore | workspace/checkpoint.go:191-202 | the entries are restored in order until one fails |
| Workspaces.Workspace.RestoreOne | workspace/checkpoint.go:283-331 | one entry: remove, make a directory, or write a file |
| Workspaces.Workspace.FileWrite | tools/file.go:41-56 | the tool's checkpoint undoes its write at a trimmed path, and at any other exactly when restoring decides the path it leads to or nothing changed |
| Workspaces.Workspace.FileEdit | tools/file.go:90-107 | the tool's checkpoint undoes its edit at a trimmed path, also when the edit fails, and at any other exactly when restoring decides the path it leads to or the text stayed the same |
| Workspaces.Workspace.FileDelete | tools/file.go:57-72 | the tool's checkpoint undoes its delete exactly when the walk captured every file of a deleted directory; at an untrimmed path, exactly when everything it took was recorded |
| Workspaces.Workspace.FileMove | tools/file.go:73-89 | the tool's checkpoint undoes its move exactly under the condition of UndoMove, for every kind of source and destination |
| Workspaces.Workspace.FileApplyPatch | tools/file.go:108-126 | the tool's checkpoint undoes its patch exactly when no applied add at a directory is the last one at its path |
| SessionTables.InsertBatch | session/sqlite_store.go:276-322 | a batch numbered from the next ordinal is inserted exactly when its keys are new and distinct, at the end |
| SessionTables.DenseIsSorted | session/sqlite_store.go:1810-1863 | with dense ordinals, ordering by ordinal is the commit order |
| SessionTables.InsertAllExactly | session/sqlite_store.go:386-392 | any rows are inserted one by one exactly when their sessions exist and all keys and places are different, and then all of them are appended |
| SessionTables.NormalFields | session/sqlite_store.go:2030-2086 | saving fills in the mode, the agent and the status of a todo only where they are blank |
| SessionLog.AtomicSave | session/sqlite_store.go:333-414 | succeeds exactly when the session exists and all ids are new; the session then loads with the turn and the events added at the end, and no other session changes |
| SessionLog.AtomicRows | session/sqlite_store.go:333-414 | the rows that an atomic save adds, field by field; an event that names another session keeps that name but is numbered by the session being saved |
| SessionLog.BlankIdFails | session/sqlite_store.go:453-460 | a blank session id stops the separate calls before they write anything |
| SessionLog.StepsKeepWhatTheyWrote | runtime/runtime.go:97-122 | separate calls that stop at an event keep the turn and the events before it, and no new state |
| SessionLog.StepsAreAtomic | runtime/runtime.go:103-113 | with new ids, AppendTurn, AppendEvent for each event and SaveSessionState leave exactly the database of the atomic save |
| SessionLog.RewriteSave | session/sqlite_store.go:248-331 | the full rewrite succeeds exactly when no other session uses the ids; the session then loads as what was saved, whatever was stored before |
| SessionLog.ThreeWaysAgree | runtime/runtime.go:98-115 | with new ids all three ways succeed and the session then loads as the saved object; no other session changes |
| SessionLog.NothingIsLost | session/sqlite_store.go:333-414 | whatever order atomic saves of any sessions commit in, each session holds its old turns and events and, per committed run in commit order, one turn and one batch of events, with dense ordinals |
| SessionLog.BatchesAreUnbroken | session/sqlite_store.go:382-392 | each committed run's events lie together between those committed before and after it, at the place of its turn |
| SessionLog.RewriteForgets | session/sqlite_store.go:286-331 | of two full rewrites the second leaves no turn that only the first knew |
| SessionRuntime.LiveSession.AppendTurn | session/session.go:273-280 | the turn is added, and a response replaces the last response id and items |
| SessionRuntime.LiveSession.AppendEvent | session/session.go:282-294 | the event is added, under the session's id if it had none |
| SessionRuntime.SQLiteSessionStore.Rewrite | session/sqlite_store.go:248-331 | the loops of SaveSession commit the full rewrite or roll back |
| SessionRuntime.SQLiteSessionStore.AppendRun | session/sqlite_store.go:333-414 | the loops of AppendTurnWithEvents commit the atomic save or roll back |
| SessionRuntime.Runtime.SaveSessionAfterRun | runtime/runtime.go:98-115 | picks the way the store offers and saves the events since the start of the run |
| SessionRuntime.Runtime.Run | runtime/runtime.go:61-95 | the session object gains the turn and the run's events, started first and completed or failed last; with new ids the save succeeds and the session loads as the object, for every kind of store |
| SessionRuntime.SavedRunLoads | runtime/runtime.go:84-95 | also when the todo tool changed the list during the run, or compaction replaced the summary |
| SessionRuntime.RanExactly | runtime/runtime.go:61-95 | a run adds its turn and its events in order under the session and the turn, ends with the failure or the completion, and takes over the response and the summary only if there is one |
| ToolCalls.ResultMatchesCall | llm/tools.go:77-103 | a result carries the kind of its call, and otherwise what the handler returned, the error it reported or panicked with, or that there is no handler |
| ToolCalls.ExecuteInOrder | llm/tools.go:161-168 | the sequential branch fills each slot with the result of its call |
| ParallelTools.ParallelRefinesSequential | llm/tools.go:169-194 | every schedule of the goroutines ends, runs at most as many handlers at once as the limit (4 by default) and as there are calls, writes each slot once, and gives the sequential results when nothing is cancelled |
| ParallelTools.BoundIsReached | llm/tools.go:169-176 | some schedule has as many handlers running at once as the limit allows |
| ParallelTools.NeverStuck | llm/tools.go:176-192 | until all goroutines are done some goroutine can move |
| ParallelTools.StepKeeps | llm/tools.go:176-192 | every step keeps the bound on holders and the record of writes, and brings the end closer |
| ParallelTools.ExecuteToolCalls | llm/tools.go:161-194 | either branch, under any schedule of a context that does not end, returns the sequential results |
| ToolLoop.RunToolLoop | llm/tools.go:130-159 | at most the maximum of Generate calls (8 by default); the first receives the request, and each later one the request before it with the response's items and the outputs added, without messages and with the id of that response; the last answer alone decides the result, and a returned response has no tool calls |
| ToolLoop.ItemsMatchCalls | llm/tools.go:149-152 | a round adds the response's items and then one output item per call, in call order, of the call's kind |
| ToolLoop.RoundIsInOrder | llm/tools.go:138-157 | each round lies in the conversation right after the earlier ones |
| Utf8.FitIsLongest | gateway/tools_api.go:650-661 | no valid prefix within the limit is longer than the one cut at a character |
| Utf8.ShortenedIsBest | gateway/tools_api.go:644-666 | the shortened text is valid, within the limit, the longest such, and less than four bytes short of it |
| Utf8.ScanForward | gateway/tools_api.go:650-661 | the forward scan stays within the limit, ends at that cut on valid text, and on any text stops at the first character that, as it is seen, would not fit |
| Utf8.ReplacedIsValid | gateway/tools_api.go:644-668 | what ranging over any bytes sees is valid UTF-8, and the bytes themselves if they are valid |
| Utf8.TrimBack | providers/internal/httptransport/httptransport.go:107-111 | trimming back gives the longest valid prefix of any bytes, and on valid text the same cut as the forward scan |
| Utf8.TruncateToolOutput | gateway/tools_api.go:644-666 | unchanged unless a positive limit is exceeded; otherwise the shortened text, with the full size reported |
| Utf8.TruncateContextBlock | gateway/context_blocks.go:248-272 | empty without a limit, otherwise the same shortened text |
| Utf8.TruncateUtf8Bytes | providers/internal/httptransport/httptransport.go:100-112 | empty without a limit, otherwise the same shortened text |
| Utf8.TruncateMcpText | tools/mcp.go:373-382 | unchanged without a limit, otherwise the same shortened text |
| Utf8.BoundedCommandBuffer.Write | workspace/workspace.go:510-527 | every write reports its full length, the buffer holds the first bytes written, up to the limit, and the flag is set by exactly the writes that meet a full buffer or are cut |
| Utf8.BoundedCommandBuffer.Text | workspace/workspace.go:529-539 | the longest valid prefix of what was kept; for valid output, the shortened text |
| Decimal.PrintThenScan | tools/mcp.go:484-499 | reading back a printed number that fits an int gives that number |
| Decimal.ScanReads | tools/mcp.go:484-498 | a number may carry a sign, ends at the first character that is no digit, and reads as 0 when it is outside the range of an int or there is none |
| Frames.FrameReadsBack | tools/mcp.go:241-302 | a written frame is read back exactly when its payload has 1 byte to 8 MiB, and then the rest of the stream is left |
| Frames.StreamReadsBack | tools/mcp.go:241-302 | reading a stream of frames gives the payloads in order and consumes exactly the frames |
| Frames.ReplyIsFound | tools/mcp.go:253-275 | the reply with the wanted id is found behind any number of replies to other calls |
| Frames.HeaderReads | tools/mcp.go:277-300 | a header is its lines up to the first blank one, with either line end and any other fields, and the last length field counts |
| Frames.LengthInAnyCase | tools/mcp.go:277-293 | the length field is known in any case and with white space around its name and number |
| Frames.FrameReader.Read | tools/mcp.go:277-302 | the header loop and the body read equal the frame reader function, errors included |
| Frames.FrameReader.ReadResponse | tools/mcp.go:253-275 | the loop over frames returns the first reply with the id, or the first error |
| Frames.FrameWriter.WriteFrame | tools/mcp.go:241-251 | what was sent is the stream of the payloads written, extended by one, and grows by the header and the payload |
| Sse.ReadSse | providers/internal/httptransport/httptransport.go:289-353 | the scan loop hands over the events of the lines; the running byte count always equals the length of the joined data |
| Sse.StreamReadsBack | gateway/server.go:1165-1188 | reading any mix of written frames and heartbeats hands over the frames' events once each, in order |
| SseBlocks.BlockReads | providers/internal/httptransport/httptransport.go:289-345 | a block hands over its joined data lines under its last name, whatever comments and other fields stand between and with either line end; the end marker or a handler that wants no more stops the reading |
| SseBlocks.LastBlockReads | providers/internal/httptransport/httptransport.go:349-352 | the last block needs no blank line |
| SseBlocks.BlocksRead | providers/internal/httptransport/httptransport.go:289-353 | whole streams of blocks hand over their events in order, up to the end marker or the first refusal |
| SseBlocks.TooLarge | providers/internal/httptransport/httptransport.go:289-345 | a line or an event over the limit is an error that hands over nothing of it |
| Sse.JoinedBytes | providers/internal/httptransport/httptransport.go:333-345 | one more data line adds its length and, after the first, one separator |
| Sse.ResponseWriter.WriteFrame | gateway/server.go:1177-1188 | the body is the stream of the pieces written, extended by one frame |
| Sse.ResponseWriter.WriteHeartbeat | gateway/server.go:1165-1170 | the body is the stream of the pieces written, extended by a comment and a blank line |

## Left out

- HTTP routing, authentication, CLI, provider clients, subprocesses, the Copilot SDK, source scanning and templates: plumbing around the modelled parts.
- Request fields that the gateway only carries along (provider, model, working directory, limits, tool lists, usage), run metadata other than the idempotency key, and all times.
- JSON is opaque: requests, payloads and items are strings, a checkpoint file holds its checkpoint as a value, and reading such a file as text is not modelled.
- The run protocol starts with a store that can claim; a gateway over a store without that capability uses SaveRun alone. A limit on concurrent runs is fixed before the first Start.
- RunStore.RecoverStaleRuns: assumes no other writer, as at gateway start; recovery beside running gateways is covered by the steps of the run protocol, without the claim about termination.
- RunStore.SQLiteRunStore.ListRuns: the order of rows (newest first) is left open, since times are left out.
- EventBus.AlwaysReliable: one publish to one channel is one step; two publishers inside one channel publish are not interleaved.
- Publishing to the event bus is not part of the run protocol's steps; it changes no run.
- Symbolic links, file modes, sizes and I/O errors other than those that follow from the tree (a missing parent, a file or directory in the way).
- UndoEdits.UndoneExactly: the exact condition, and those of the single edits, are for snapshots whose stored paths have no white space at an edge; for others there is only the necessary condition Undo.UndoneOnlyWhereTouched.
- RunSignals.ReportAppends: the code ignores a report with a blank type; the protocol allows it, so its behaviours include those of the code.
- Pruning, listing and deleting of checkpoints, and the read, list, glob and grep tools, which change no file.
- Patch.RoundTrip: a text with carriage returns is excluded, because the parser turns a carriage return before a line end into the line end; PatchText.PatchReads covers texts with carriage returns.
- SessionLog.ThreeWaysAgree: ids are new and nonempty and every event carries its session's id, as the runtime makes them; blank ids that the store would replace are not modelled, nor is the retry loop around these transactions, which is modelled for the run tables.
- SessionLog.RewriteSave: events of other sessions inside the saved list are excluded.
- Forking a session: turn ids are a global key and forks keep them, so a fork of a session with turns cannot be stored beside it.
- Paging of session events and turns, counters, statistics, artifacts, resources and checkpoints of sessions.
- ParallelTools.ParallelRefinesSequential: handlers depend only on the call. A handler that reads its context, or shared state, is outside the model.
- Tool middleware and decoding of tool arguments.
- Frames.FrameReader.Read: white space beyond ASCII in header lines is not decoded, since the stream has one character per byte.
- Sse.ReadSse: the context does not end while reading.
- The limited buffers of the codex and MCP clients, and MCP over HTTP.
