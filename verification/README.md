# Hopper: what its stores, journals and protocols keep

Hopper connects an agent host with Rhino and Grasshopper. It keeps scripts and their runs in files that
several processes share, calls a native side that may fail at any moment, and lets a user switch tools on
and off while agents work. This project models those parts and proves what they keep in every run.

* **The shared script store.** `WriterLock` is the protocol of `writer.lock` and `recovery.lock`, one step for
  each system call and each liveness answer, with processes that die, process numbers that are used again,
  several hosts, and calls that fail. `WriterTransaction` is `transaction` itself, as a program that only takes
  such steps. `StoreQuota` is the byte quota with its reservations, `RunReserve` the reason why 128,000 reserved
  bytes are enough, and `RunRecordFiles` the JSON text whose bytes they are.
* **Script runs.** `RunJournal` follows one batch identity: a runner, any number of inspectors with stale
  copies, deaths and failing writes. `RunBatch` holds `runBatch` and `reconcileRun` as programs over it,
  `JournalSteps` says what each step writes.
* **Script revisions.** `ScriptWorkspace` is the append-only revision log with its retained mutations,
  `ScriptEdits` what each request makes of a script, `SourceLinePatches` the line edits and diffs, `PatchMeaning`
  what a list of patches means, `ScriptPages` the paged reading.
* **Calls to the native side.** `RpcClient` is the table of pending requests, `MutationResultStore` the store of
  retained results behind it.
* **The tool policy.** `ToolPolicy` has the transitions and the storage check, `ToolPolicyWrites` what each of them
  does to gates and keys, `ToolPolicyStore` the stores that share the settings file, `ToolPolicyHistory` what whole
  histories of that file guarantee, and `ToolPolicyRuntime` one session's view of them.
* **Canvas and snapshots.** `SnapshotPatch` with `SnapshotKeys`, `SubGraphs` and `CanvasFilter`.

State that the program changes in place is a class here, or a program over a state machine; each method is
proved against a function of the old state, and the properties are proved about that function; what each
function does is told once more without it, by lemmas whose names mostly end in `Exactly`, `IsExact` or `Decides`.
`MapSums`, `Sequences`, `Decimals`, `Wires` and `Wrappers` hold what several modules need.

`dafny verify dfyconfig.toml` checks everything.

## What was found

* A verdict "original runner died before dispatch" that an inspector reaches from a stale copy can replace the
  record of an item that was dispatched meanwhile, although every liveness answer was sound:
  `update` promotes a terminal state over any newer record of the same claim
  (`src/services/rhino-script-execution.ts:174-184`). `docs/rhino-script-workspace.md:44` says that a
  dispatched item remains uncertain unless its original host retains a result. The model follows the code:
  `RunJournal.StaleVerdictHidesADispatch` is the run, and `RunJournal.VerdictIsRightExactlyOnPrepared` says
  exactly when the verdict can be trusted.
* `reconcileRun` asks `provenDead` without comparing host names, as `transaction` does. When an answer is wrong,
  a terminal record can change once more, from `notStarted` to `notRun`, and in no other way
  (`RunJournal.UnsoundVerdictIsOverwritten`, `RunJournal.RecordsOnlyAdvance`). `RunJournal.TerminalRecordStaysExactly`
  says from which states: those in which a living runner has yet to come to the item.
* Nothing is held back for a finished record, and the message of the runner is 3 bytes longer than what it then
  writes over. For every batch of two runs, whatever its files' sizes, each quota that has room for it can so be
  exceeded (`StoreQuota.OverwriteExceeds`), by 3 bytes for each such record
  (`StoreQuota.UsageNeverExceedsTheQuota`); `StoreQuota.QuotaHoldsIfNoTwoRunsFit` says, for any least sizes of such
  a batch, that the quota holds exactly if the manifest fits and the smallest batch does not.
* The manifest is written without a capacity check. While finished records stay, the quota of a new workspace
  holds exactly if it is no smaller than the manifest (`StoreQuota.QuotaHoldsIfTheManifestFits`).
* With a field set to `undefined` in the earlier row, a changed row can be taken for the same
  (`SnapshotPatch.UndefinedHidesAChange`). `SnapshotPatch.PatchIsExact` and `SnapshotPatch.StreamArrivesExactly`
  give the condition, which a sender can check: no earlier row with the key of a new one compares equal to it and
  has an undefined field that the new one lacks. Top-level fields are never dropped
  (`SnapshotPatch.StreamKeepsDroppedFields`).
* A wire at a component with an empty identifier joins nothing, yet it is sorted as if it did
  (`SubGraphs.KnownWireIsInternalIfConnected`).

## Model

| member | source | states |
|---|---|---|
| WriterLock.StepKeepsInvariant | src/services/rhino-script-store.ts:57-141 | every system call and liveness question of every process, every crash and every failing call keeps what the lock relies on |
| WriterLock.AtMostOneWriter | src/services/rhino-script-store.ts:57-141 | in every run, at most one live process has the writer lock open as its own |
| WriterLock.AtMostOneInsideCallback | src/services/rhino-script-store.ts:118-132 | at most one live process is inside the callback, and the lock file names its claim |
| WriterLock.OnlyDeadOrOwnLocksAreUnlinked | src/services/rhino-script-store.ts:97-103 | a lock that disappears was that of a dead process, or of the very process that removes it after its transaction |
| WriterLock.LockStaysWhileOwned | src/services/rhino-script-store.ts:132-140 | no step of anybody takes the lock away from a process that has it |
| WriterLock.GuardIsDroppedByItsCreator | src/services/rhino-script-store.ts:85-112 | `recovery.lock` disappears only by the hand of the process that created it |
| WriterLock.RecheckedLockIsTheDeadOnes | src/services/rhino-script-store.ts:97-103 | what is about to be unlinked is still the lock that was inspected, and its writer is dead |
| WriterLock.GuardComesAfterTheDeath | src/services/rhino-script-store.ts:77-87 | from the guard on, the owner that was read is known to be dead, however the calls of others fall between the read and the question |
| WriterLock.FinishedTransactionRemovesItsLock | src/services/rhino-script-store.ts:132-140 | a transaction whose claim reached the file, even by a write that failed, finds it again at the end and goes on to unlink its lock |
| WriterLock.CallbackIsEnteredExactly | src/services/rhino-script-store.ts:129-131 | in every run, the look before the callback lets a process in exactly if there is no `recovery.lock` then, and otherwise sends it to its way out; guard and lock stay as they are |
| WriterLock.InsideWasEntered | src/services/rhino-script-store.ts:129-131 | whoever is inside the callback went in by that look, in a state without a guard, and has been inside ever since |
| WriterLock.OnlyTheCallerMoves | src/services/rhino-script-store.ts:57-141 | a step moves only the process whose call it is; others are left where they are, and a new process begins idle |
| WriterLock.BeginDecides | src/services/rhino-script-store.ts:64-66 | the exclusive creation makes a new, empty lock file exactly if there is none, and otherwise leads to the inspection |
| WriterLock.InspectionDecides | src/services/rhino-script-store.ts:67-93 | the inspection goes on to the recovery exactly if the owner is of this host, has a process number and is dead, and the guard is taken exactly if there is none; everything else refuses |
| WriterLock.NoteComesFirst | src/services/rhino-script-store.ts:94-97 | the note is written into the guard and synced before the second look |
| WriterLock.SecondLookDecides | src/services/rhino-script-store.ts:97-112 | the lock is unlinked and created anew exactly if it still has the claim that was read and its writer is still dead; then, or else, the guard is closed and dropped, and only a new lock leads on to the claim |
| WriterLock.WriteDecides | src/services/rhino-script-store.ts:119-128 | the claim goes into the file that the process has open and nowhere else, and is synced next |
| WriterLock.WayOutDecides | src/services/rhino-script-store.ts:132-140 | the way out closes the file, reads the lock, and unlinks it exactly if it names the own claim |
| WriterLock.FaultDecides | src/services/rhino-script-store.ts:66-140 | a failing call leaves the directory as it was, but for a claim that reached the file, and leads out: under the guard to where that is dropped, after the creation to where the file is closed |
| WriterLock.StaleLockIsRecovered | src/services/rhino-script-store.ts:77-117 | an undisturbed process gets past a dead writer's lock and into its callback in at most seventeen calls |
| WriterTransaction.LockDirectory.Call | src/services/rhino-script-store.ts:57-141 | one call after whatever others do: it leads where the program goes on, is a step of the protocol, and the history before it stays |
| WriterTransaction.LockDirectory.Inspect | src/services/rhino-script-store.ts:67-82 | reading the lock file and asking for its writer: refused and idle, or a writer found dead |
| WriterTransaction.LockDirectory.TakeGuard | src/services/rhino-script-store.ts:85-93 | the guard is taken and names this process, or the call throws |
| WriterTransaction.LockDirectory.NoteInGuard | src/services/rhino-script-store.ts:94-96 | the note in the guard is written, or the guard is still to be dropped |
| WriterTransaction.LockDirectory.CheckAgain | src/services/rhino-script-store.ts:97-102 | the second look: whatever is refused or fails, the guard is still to be dropped |
| WriterTransaction.LockDirectory.Renew | src/services/rhino-script-store.ts:103-108 | the stale lock is unlinked before it is created anew |
| WriterTransaction.LockDirectory.DropGuardAfter | src/services/rhino-script-store.ts:109-112 | the `finally` of the recovery |
| WriterTransaction.LockDirectory.Recover | src/services/rhino-script-store.ts:85-112 | from the guard to a lock created anew; undisturbed it succeeds on a stale lock |
| WriterTransaction.LockDirectory.Acquire | src/services/rhino-script-store.ts:57-117 | up to an opened lock file; succeeds undisturbed if there is no lock or a stale one; never enters the callback |
| WriterTransaction.LockDirectory.WriteOwn | src/services/rhino-script-store.ts:119-128 | the claim is written and synced and the lock file names it, or the way out is taken |
| WriterTransaction.LockDirectory.RunCallback | src/services/rhino-script-store.ts:129-131 | if it says that the callback ran, this very call went inside by a look that found no `recovery.lock`, with the lock file naming it and no other live process inside; if it throws there, it found a guard or was disturbed, and no state has it inside |
| WriterTransaction.LockDirectory.UnderLock | src/services/rhino-script-store.ts:118-140 | the two `try` blocks after the lock is opened: claim, look, callback and way out, with the same truth about the callback |
| WriterTransaction.LockDirectory.LookAtOwn | src/services/rhino-script-store.ts:134-135 | the lock file is unlinked only after it was read to be still its own |
| WriterTransaction.LockDirectory.GiveBack | src/services/rhino-script-store.ts:132-140 | afterwards the process is idle; undisturbed, its lock is gone |
| WriterTransaction.LockDirectory.Transaction | src/services/rhino-script-store.ts:57-141 | the whole call extends the history by protocol steps, ends idle unless its process died, tells truly whether its callback ran, alone and entered without a guard, and leaves no lock when undisturbed; undisturbed and without a `writer.lock`, but with the guard of another, it throws, its own lock is gone again and the guard is untouched |
| StoreQuota.RhinoScriptStore.WorkspaceId | src/services/rhino-script-store.ts:38-48 | the first to ask for the identity writes the manifest, without asking for room |
| StoreQuota.RhinoScriptStore.UsageBytes | src/services/rhino-script-store.ts:163-172 | the loop adds up all files of the directory |
| StoreQuota.RhinoScriptStore.AssertCapacity | src/services/rhino-script-store.ts:173-207 | accepts exactly if stored bytes, the growth by all writes of the list, and what is held back for unfinished runs fit the quota |
| StoreQuota.RhinoScriptStore.AdmitBatch | src/services/rhino-script-execution.ts:384-396 | a batch is written exactly if its inventory and a reservation for each run fit, behind the others, and nothing else changes but the manifest |
| StoreQuota.RhinoScriptStore.WriteScript | src/services/rhino-script-workspace.ts:240-241 | a script record is written exactly if the growth fits, and nothing else changes but the manifest |
| StoreQuota.RhinoScriptStore.UpdateRun | src/services/rhino-script-execution.ts:170-194 | a run record is replaced without asking for room, a finished one only as `RunReserve.Overwrites` says |
| StoreQuota.CommitmentsAreCovered | src/services/rhino-script-store.ts:182-196 | what unfinished runs may come to take lies between what is stored and what the check counts |
| StoreQuota.CheckCountsExactly | src/services/rhino-script-store.ts:173-196 | what the check counts is exactly what is committed and, a second time, what unfinished records have grown |
| StoreQuota.ReserveIsExact | src/services/rhino-script-execution.ts:388-393 | a batch asks for its inventory entries and 128,000 bytes for each run |
| StoreQuota.UpdateStaysWithin | src/services/rhino-script-execution.ts:170-194 | an unchecked run update never raises what the workspace is committed to, but by 3 bytes when the longer message goes over a finished record |
| StoreQuota.UsageNeverExceedsTheQuota | src/services/rhino-script-store.ts:163-207 | a workspace whose commitments fit its quota at the start never stores more, over all admissions, script writes, unchecked run updates and the manifest, but for 3 bytes for each finished record that was written over |
| StoreQuota.QuotaHoldsIfTheManifestFits | src/services/rhino-script-store.ts:38-48 | while finished records stay, a new workspace keeps within its quota in every run exactly if the unchecked manifest fits |
| StoreQuota.OverwriteExceeds | src/services/rhino-script-execution.ts:409-425 | for every batch of two runs and every quota with room for it, a run that ends 3 bytes above the quota: both runs given up, the room they held filled, a record written over |
| StoreQuota.QuotaHoldsIfNoTwoRunsFit | src/services/rhino-script-execution.ts:409-425 | with finished records written over, and given what a batch of two runs takes at least, a new workspace keeps within its quota in every run exactly if the manifest fits and the smallest such batch does not |
| StoreQuota.NothingIsHeldBackWhenIdle | src/services/rhino-script-store.ts:182-196 | when all runs are finished, nothing is held back any more |
| RunReserve.UpdateKeepsLimits | src/services/rhino-script-execution.ts:249-320 | whatever the native side returns or throws, and with each message of the program, the fields of a record stay within their limits |
| RunReserve.ResultIsRecorded | src/services/rhino-script-execution.ts:249-320 | of a native result exactly what is within its limit is recorded whole, of the rest as much as the limit allows, and an output tells whether it is cut |
| RunReserve.VerdictIsRecorded | src/services/rhino-script-execution.ts:170-194 | any other change records its state and its message and leaves result, output and settings as they were |
| RunRecordFiles.FileIsAsLargeAsCounted | src/services/rhino-script-store.ts:208-222 | the JSON text of a record, its members in any order, takes exactly the bytes that are counted from its inventory entry |
| RunRecordFiles.EscapedTextReadsBack | src/services/rhino-script-store.ts:213 | escaped text is read back from its JSON string, lone surrogates and all |
| RunRecordFiles.EncodedTextReadsBack | src/services/rhino-script-store.ts:180 | text is read back from its bytes, and these are as many as were counted |
| RunRecordFiles.EscapeBytes | src/services/rhino-script-store.ts:213 | escaping costs exactly the bytes that the limits reckon with |
| RunReserve.PreviewAtMostThree | src/services/rhino-script-execution.ts:306-309 | a cut through encoded text costs at most three bytes a unit, and three more for one broken pair |
| RunReserve.RecordFitsItsReserve | src/services/rhino-script-store.ts:20 | a run record never outgrows its inventory entry by more than 128,000 bytes, and an unfinished one is no smaller than it |
| RunReserve.OverwriteGrows | src/services/rhino-script-execution.ts:199-212 | by how much the message of the runner makes a given-up record longer or shorter |
| RunJournal.StepKeepsInvariant | src/services/rhino-script-execution.ts:170-248 | every step of the runner, of inspectors and of death keeps the journal consistent |
| RunJournal.AtMostOneDispatch | src/services/rhino-script-execution.ts:402-502 | each item is dispatched at most once, in order, over all calls, replays, inspections and crashes |
| RunJournal.DispatchIsJournaledAndInOrder | src/services/rhino-script-execution.ts:437-474 | a dispatch comes after its record was on disk as `dispatching` under the runner's claim, and after every earlier item completed |
| RunJournal.OneRunner | src/services/rhino-script-execution.ts:384-397 | the batch never changes hands |
| RunJournal.RecordsTellTheTruth | src/services/rhino-script-execution.ts:402-502 | `notRun` means never dispatched; `completed` and `failed` mean dispatched |
| RunJournal.RecordsOnlyAdvance | src/services/rhino-script-execution.ts:170-194 | a record changes by one version at a time; of the terminal ones only `notStarted` can change, to `notRun`, by its own runner |
| RunJournal.VersionsGrow | src/services/rhino-script-execution.ts:170-194 | versions never shrink, one version names one content, `completed` and `failed` stay |
| RunJournal.UncertaintyIsPromoted | src/services/rhino-script-execution.ts:174-184 | a verified result replaces an inspector's `outcome_unknown`, and uncertainty never replaces a terminal record |
| RunJournal.TerminalRecordsStay | src/services/rhino-script-execution.ts:170-248 | with sound liveness answers all four terminal states are final |
| RunJournal.TerminalRecordStaysExactly | src/services/rhino-script-execution.ts:170-248 | whatever the liveness answers, a terminal record stays in every continuation exactly unless it is `notStarted` and a living runner has yet to come to it |
| RunJournal.VerdictOnPreparedRecordIsRight | src/services/rhino-script-execution.ts:199-212 | "died before dispatch" over a record that is still prepared is right for good |
| RunJournal.VerdictIsRightExactlyOnPrepared | src/services/rhino-script-execution.ts:174-184 | over a record that is not final, that verdict is right in every run exactly if the record is still `prepared` |
| RunJournal.StaleVerdictHidesADispatch | src/services/rhino-script-execution.ts:174-184 | a run in which that verdict, from a stale copy, covers up a dispatch |
| RunJournal.UnsoundVerdictIsOverwritten | src/services/rhino-script-execution.ts:199-212 | a run in which a wrong liveness answer makes a terminal record change |
| JournalSteps.UpdateIsExact | src/services/rhino-script-execution.ts:170-194 | `update` writes exactly if its copy is current, or if a final state of the same claim replaces one that is not final; then it sets the state and raises the version, and the owner stays |
| JournalSteps.WritesAreExact | src/services/rhino-script-execution.ts:170-194 | each step writes to one record, in the manner of `update`, or to none; the admission writes the inventory |
| JournalSteps.OnlyADispatchSends | src/services/rhino-script-execution.ts:464-474 | only a dispatch sends, and it sends the item that the runner is at |
| JournalSteps.RunnerGoesOn | src/services/rhino-script-execution.ts:402-497 | where each step of the loop leaves the runner, and that nobody else moves it |
| JournalSteps.MarkDecides | src/services/rhino-script-execution.ts:437-454 | the mark leads to a dispatch exactly if its write is certain and the record is then `dispatching` under the own claim |
| JournalSteps.FinalizeDecides | src/services/rhino-script-execution.ts:485-496 | the batch goes on after an item exactly if it is recorded `completed` for certain and nobody has aborted |
| JournalSteps.InspectorGoesOn | src/services/rhino-script-execution.ts:195-248 | a prepared record is given up exactly if its claim is over in its own process or its process is said to be dead; other inspectors are left alone |
| RunBatch.Journal.ReadAndMark | src/services/rhino-script-execution.ts:402-454 | the loop body up to the journaled dispatch; what it reports for an item that is over is true, and left alone exactly what its turn says |
| RunBatch.Journal.JudgeItem | src/services/rhino-script-execution.ts:409-436 | what is done with the copy that was read: recorded as not run, reported as it is, or marked |
| RunBatch.Journal.Dispatch | src/services/rhino-script-execution.ts:455-484 | sends exactly if neither cancelled nor refused; a cancelled item is recorded and reported `notStarted` |
| RunBatch.Journal.SendItem | src/services/rhino-script-execution.ts:464-484 | a refused item is not sent, and its refusal is what is recorded: `notStarted` for a denial; any other item is sent once, and its answer is recorded |
| RunBatch.Journal.Finalize | src/services/rhino-script-execution.ts:485-497 | records and reports the answer; the loop goes on exactly after a completion that was written and not aborted |
| RunBatch.Journal.RunItem | src/services/rhino-script-execution.ts:402-497 | one item: its report is true, and it is not sent once the batch has stopped; left alone, it is sent, recorded, reported and halts the batch exactly as its turn says, whether refused, cancelled, failing or answered |
| RunBatch.Journal.RunItems | src/services/rhino-script-execution.ts:384-502 | all reports are true and the history before the call stays; left alone, every item is sent, recorded and reported as its turn says, given whether an earlier one halted the batch; if nothing fails either, exactly the items up to the first that does not complete are sent |
| RunBatch.Journal.MarkItem | src/services/rhino-script-execution.ts:428-454 | goes on only when the record is certain to be on disk as `dispatching` under the runner's claim |
| RunBatch.Journal.Decide | src/services/rhino-script-execution.ts:199-240 | what an inspector makes of its copy: given up, left alone, the retained result, or unknown |
| RunBatch.Journal.WriteBack | src/services/rhino-script-execution.ts:170-194 | a decided change is merged into the current record, an undecided one changes nothing |
| RunBatch.Journal.ReconcileRun | src/services/rhino-script-execution.ts:195-248 | an inspection sends nothing, touches no terminal record and extends the history; left alone it changes exactly its record, as decided |
| ScriptWorkspace.RhinoScriptWorkspace.Mutate | src/services/rhino-script-workspace.ts:119-248 | the new records and the answer are those of the specification, error for error |
| ScriptWorkspace.RhinoScriptWorkspace.MutateNew | src/services/rhino-script-workspace.ts:157-248 | a mutation with a new identity: the edit, the checks, and the record written |
| ScriptWorkspace.RhinoScriptWorkspace.ConflictElsewhere | src/services/rhino-script-workspace.ts:130-137 | finds an identity exactly if another script retains it |
| ScriptWorkspace.RhinoScriptWorkspace.Resolve | src/services/rhino-script-workspace.ts:103-118 | the head or the named revision, with its errors |
| ScriptWorkspace.RhinoScriptWorkspace.Get | src/services/rhino-script-workspace.ts:265-323 | the page of the resolved revision |
| ScriptWorkspace.MutationKeepsStoreOk | src/services/rhino-script-workspace.ts:119-248 | revisions stay numbered from one, each made by exactly one retained request from the revisions before it; histories only grow |
| ScriptWorkspace.RefusalChangesNothing | src/services/rhino-script-workspace.ts:119-248 | a refused mutation leaves every record as it was |
| ScriptWorkspace.ChangesNamedTheHead | src/services/rhino-script-workspace.ts:158-165 | every change but the first named the revision it replaced |
| ScriptWorkspace.NoLostUpdate | src/services/rhino-script-workspace.ts:158-165 | of two changes that named the same head at most one was accepted |
| ScriptWorkspace.DeletedIsNotEdited | src/services/rhino-script-workspace.ts:166-171 | after a deletion only an undelete follows, and it changes nothing else |
| ScriptWorkspace.SourcesStayOk | src/services/rhino-script-workspace.ts:188-222 | however a script was edited, its sources stay normalized and within 64,000 characters |
| ScriptWorkspace.HistoriesOnlyGrow | src/services/rhino-script-workspace.ts:226-241 | over any run, no retained revision or mutation is changed or dropped |
| ScriptWorkspace.RepeatingIsHarmless | src/services/rhino-script-workspace.ts:148-156 | repeating an accepted mutation gives the same revision, flag and diff and writes nothing, whatever came between |
| ScriptWorkspace.IdentityIsNotReused | src/services/rhino-script-workspace.ts:130-156 | a retained identity is refused for any other request on any script |
| ScriptEdits.AcceptedRequestIsRecorded | src/services/rhino-script-workspace.ts:187-247 | an accepted request with a new identity adds the revision that it makes exactly if that differs from the head, or restores or creates; the identity is retained with it, no other script changes, and the answer is that revision with the source before it |
| ScriptEdits.EditedIsMadeBy | src/services/rhino-script-workspace.ts:172-225 | a new revision has the fields that its request sets, and all others from the head |
| ScriptEdits.EditRefusalIsExact | src/services/rhino-script-workspace.ts:157-204 | each refusal of an edit, exactly: a bad or an old revision number, a deleted script, a patch that fails, a revision that is not there |
| ScriptEdits.NameAndLengthAreChecked | src/services/rhino-script-workspace.ts:212-225 | an edit is refused for its name, and then for its length, exactly if they are bad |
| ScriptEdits.MutationRefusalIsExact | src/services/rhino-script-workspace.ts:119-147 | each refusal before the script is looked at: the identity, its other script, and a script that is not there |
| ScriptEdits.OpenedMutationDecides | src/services/rhino-script-workspace.ts:148-243 | a repeated identity is refused exactly for another request, a new one exactly if its edit is or there is no room |
| ScriptEdits.ResolvedRevisionIsExact | src/services/rhino-script-workspace.ts:103-118 | the head or the revision of the number asked for, and each error exactly |
| ScriptPages.Get | src/services/rhino-script-workspace.ts:265-323 | accepts exactly the valid requests and returns the page for them |
| ScriptPages.SelectWhole | src/services/rhino-script-workspace.ts:283-291 | the loop takes as many whole lines as fit, and no more |
| ScriptPages.PagesAreBounded | src/services/rhino-script-workspace.ts:282-310 | a page has at most 200 lines and 16,000 characters |
| ScriptPages.RequestIsValidExactly | src/services/rhino-script-workspace.ts:274-282 | which requests are valid: lines of the text in order, and an offset only inside a line too long for one page |
| ScriptPages.PageIsFull | src/services/rhino-script-workspace.ts:283-291 | a page has the next lines of the text, and fewer than were asked for only if it has 200 or the next one does not fit |
| ScriptPages.LongLinesComeInParts | src/services/rhino-script-workspace.ts:292-305 | a line too long for one page, and no other, is shown in parts of 16,000 characters, with its place and length |
| ScriptPages.PageTellsWhatIsLeft | src/services/rhino-script-workspace.ts:306-322 | a page says that there is more, and names the next line, exactly if so |
| ScriptPages.FollowingIsValidAndFurther | src/services/rhino-script-workspace.ts:311-322 | where a page leads is a valid request again, and further on |
| ScriptPages.ReadingShowsEverything | src/services/rhino-script-workspace.ts:265-323 | following the pages shows every character and line end from the start to the requested end |
| ScriptPages.EverythingIsInOrder | src/services/rhino-script-workspace.ts:265-323 | nothing is shown twice, and all in reading order |
| ScriptPages.EverythingIsThere | src/services/rhino-script-workspace.ts:265-323 | every character and line end of the requested lines is among what is shown |
| SourceLinePatches.ApplySourcePatches | src/services/source-line-patches.ts:48-111 | sorting and splicing in place gives what all edits mean at once, or the first error; `PatchMeaning` tells what that is |
| PatchMeaning.PatchErrorIsExact | src/services/source-line-patches.ts:55-86 | why a single patch is refused, exactly: text of several lines, a number out of range, `expectedText` unequal to the joined span |
| PatchMeaning.ListErrorIsExact | src/services/source-line-patches.ts:55-104 | a list is refused with the error of its first bad patch, or, if there is none, as overlapping exactly if two of its patches collide |
| PatchMeaning.PatchedLinesAre | src/services/source-line-patches.ts:105-111 | the lines of the result: each original line stays exactly if no patch spans its number, and the text of each patch stands directly behind its place |
| PatchMeaning.PatchedTextEnds | src/services/source-line-patches.ts:107-110 | the result ends with a newline exactly if the source did or the last line is empty |
| PatchMeaning.OnePatchedSource | src/services/source-line-patches.ts:64-85 | one patch: its text between the lines up to the place and those behind it, or in place of the span, or the span gone |
| SourceLinePatches.SpliceAll | src/services/source-line-patches.ts:105-106 | splicing from the back is the simultaneous application of all edits |
| SourceLinePatches.HasOverlap | src/services/source-line-patches.ts:87-104 | finds an overlap exactly if two edits overlap |
| SourceLinePatches.SortByStartDescending | src/services/source-line-patches.ts:105 | a permutation of the edits by descending start |
| SourceLinePatches.AcceptedEditsStartApart | src/services/source-line-patches.ts:87-104 | accepted edits have pairwise distinct starts |
| SourceLinePatches.OrderDoesNotMatter | src/services/source-line-patches.ts:48-111 | any permutation of an accepted patch list gives the same text |
| SourceLinePatches.PatchedTextReadsBack | src/services/source-line-patches.ts:18-22 | reading the patched text back gives exactly the lines the edits mean |
| SourceLinePatches.LineEndsBecomeNewlines | src/services/source-line-patches.ts:15-16 | each line end, of whichever of the three kinds, becomes one newline, and all else stays |
| SourceLinePatches.ReadLinesRenderBack | src/services/source-line-patches.ts:107-110 | rendering the lines of a text gives the text |
| SourceLinePatches.NoPatchesNoChange | src/services/source-line-patches.ts:48-111 | an empty patch list is the identity |
| SourceLinePatches.NormalizedHasNoReturns | src/services/source-line-patches.ts:15-16 | normalized text has no carriage return |
| SourceLinePatches.NormalizedStays | src/services/source-line-patches.ts:15-16 | text without carriage returns is normalized already |
| SourceLinePatches.PatchingKeepsNormalized | src/services/source-line-patches.ts:54-60 | patching a normalized source leaves it normalized |
| SourceLinePatches.FindHunk | src/services/source-line-patches.ts:112-122 | the two loops find the longest common beginning and then the longest common end |
| SourceLinePatches.TightIsUnique | src/services/source-line-patches.ts:112-122 | there is only one such hunk |
| SourceLinePatches.TightIsSmallest | src/services/source-line-patches.ts:112-122 | no other single hunk removes or adds fewer lines |
| SourceLinePatches.Diff | src/services/source-line-patches.ts:112-139 | the diff text of the one tight hunk, cut at 12,000 characters, with its full length |
| SourceLinePatches.DiffRebuildsTheTextAfter | src/services/source-line-patches.ts:123-134 | the lines of a diff with the text before give back the text after, final newline included |
| SourceLinePatches.UncutDiffTells | src/services/source-line-patches.ts:123-139 | two later texts with the same uncut diff text against one earlier text are the same |
| SourceLinePatches.DiffLineReadsBack | src/services/source-line-patches.ts:127-132 | every line of a diff is read back from its text, the counts of the header included |
| SourceLinePatches.CutIsExact | src/services/source-line-patches.ts:134-138 | a diff is cut exactly if it is longer than 12,000 characters, and tells its full length |
| RpcClient.StepKeepsInvariant | src/infra/rpc-client.ts:210-474 | every interleaving of calls, replies, disconnects, timers, recoveries and close keeps the request table consistent |
| RpcClient.FirstOutcomeStays | src/infra/rpc-client.ts:443-473 | a call has one outcome, the first, for ever |
| RpcClient.EachPayloadIsSentOnce | src/infra/rpc-client.ts:280-285 | no payload is handed to a socket twice |
| RpcClient.NothingIsSentAfterSettlement | src/infra/rpc-client.ts:266-285 | after its outcome a request is never sent |
| RpcClient.NotHappenedMeansNeverSent | src/infra/rpc-client.ts:286-293 | a mutation reported as timed out, disconnected, cancelled or failed was never sent and never will be |
| RpcClient.UnknownMeansSentMutation | src/infra/rpc-client.ts:434-457 | `outcome_unknown` is said only of a mutation whose send began |
| RpcClient.TimerArmedExactlyWhileUnsettled | src/infra/rpc-client.ts:246-261 | a request has an armed timer exactly while it is pending, which is exactly while it has no outcome |
| RpcClient.TimerSettles | src/infra/rpc-client.ts:434-441 | a timer that fires settles its request, unknown for a sent mutation and a timeout for all else |
| RpcClient.ReplySettles | src/infra/rpc-client.ts:354-381 | a reply to a pending request settles it as answered exactly if it matches, with a protocol error exactly if it is one, and as mismatched exactly if it is foreign; to any other request it does nothing |
| RpcClient.OthersAreLeftAlone | src/infra/rpc-client.ts:210-441 | a reply, a timer, a recovery and each stretch of a call touch no other request: neither its entry nor its timer, its outcome or its place |
| RpcClient.RecoverySettles | src/infra/rpc-client.ts:402-432 | a recovered result answers its request if nothing has settled it, and otherwise changes nothing |
| RpcClient.CallRegisters | src/infra/rpc-client.ts:210-261 | a call is pending with its timer, unsent and unsettled, exactly if the client is open |
| RpcClient.ConnectedCallGoesOn | src/infra/rpc-client.ts:264-279 | behind the connection a call is over if it was settled meanwhile, is cancelled if it was aborted, and otherwise waits for its admission |
| RpcClient.AdmittedCallIsSent | src/infra/rpc-client.ts:280-285 | behind the admission a call is sent exactly if it is still pending, and then marked as sent |
| RpcClient.FailingCallDecides | src/infra/rpc-client.ts:286-293 | a failing call is a lost connection if it was sent, and otherwise fails its own request |
| RpcClient.ConnectionChanges | src/infra/rpc-client.ts:297-351 | a socket is dropped exactly if it is the present one and the client is open, set up only where there is none and only while open, and closing drops it |
| RpcClient.DisconnectRejectsTheRest | src/infra/rpc-client.ts:383-394 | a lost connection settles as disconnected exactly the pending requests that are no sent mutations |
| RpcClient.CloseDecides | src/infra/rpc-client.ts:297-313 | closing settles each pending request: unknown for a sent mutation, disconnected for all else |
| RpcClient.DisconnectLeavesOnlyRecoveries | src/infra/rpc-client.ts:383-414 | after a lost connection exactly the sent mutations are pending, all of them in recovery, and with them the lookups that these recoveries have begun, new queries and not sent yet |
| RpcClient.CloseSettlesEverything | src/infra/rpc-client.ts:297-313 | after `close` every call ever made has an outcome |
| RpcClient.HopperRpcClient.Call | src/infra/rpc-client.ts:210-261 | registers a request with its timer, or refuses when closed |
| RpcClient.HopperRpcClient.CallConnected | src/infra/rpc-client.ts:264-279 | the stretch after the connection |
| RpcClient.HopperRpcClient.CallAdmitted | src/infra/rpc-client.ts:280-285 | the stretch after the admission: marked as sent before it is sent |
| RpcClient.HopperRpcClient.CallCatch | src/infra/rpc-client.ts:286-293 | a failing call: a disconnect if it was sent, a rejection if not |
| RpcClient.HopperRpcClient.HandleDisconnect | src/infra/rpc-client.ts:383-385 | only the current socket is dropped |
| RpcClient.HopperRpcClient.HandleDisconnectSettle | src/infra/rpc-client.ts:386-394 | the loop recovers sent mutations, registers the lookups of the recoveries that begin, and rejects the rest |
| RpcClient.HopperRpcClient.HandlePayload | src/infra/rpc-client.ts:354-381 | a reply settles its pending request, as `RpcClient.ReplySettles` tells, and nothing else |
| RpcClient.HopperRpcClient.RecoverMutation | src/infra/rpc-client.ts:402-432 | a recovered result settles the promise if nothing has yet |
| RpcClient.HopperRpcClient.OnCompletionTimeout | src/infra/rpc-client.ts:434-441 | unknown for a sent mutation, a timeout error otherwise |
| RpcClient.HopperRpcClient.Close | src/infra/rpc-client.ts:297-303 | closes once |
| RpcClient.HopperRpcClient.CloseSettle | src/infra/rpc-client.ts:304-313 | the loop settles every pending request |
| RpcClient.HopperRpcClient.FinishPending | src/infra/rpc-client.ts:469-473 | removes the entry together with its timer |
| MutationResultStore.MutationResultStore.Admit | dotnet/Hopper.Core/MutationResultStore.cs:147-196 | reserves, answers from what is retained, or refuses, exactly as specified and without overflow, and reports the counters |
| MutationResultStore.MutationResultStore.Lookup | dotnet/Hopper.Core/MutationResultStore.cs:198-210 | the state of an operation after expired results are gone |
| MutationResultStore.MutationResultStore.CompleteBegin | dotnet/Hopper.Core/MutationResultStore.cs:217-238 | the first locked section of `Complete` |
| MutationResultStore.MutationResultStore.CompleteEnd | dotnet/Hopper.Core/MutationResultStore.cs:240-285 | the second one: a reservation becomes its real byte count, or the notice that the body was too large |
| MutationResultStore.MutationResultStore.ReleaseInFlight | dotnet/Hopper.Core/MutationResultStore.cs:287-299 | gives back one reservation, never a retained result |
| MutationResultStore.MutationResultStore.ReleaseAllInFlight | dotnet/Hopper.Core/MutationResultStore.cs:301-315 | gives back all reservations and keeps all retained results |
| MutationResultStore.MutationResultStore.RemoveExpired | dotnet/Hopper.Core/MutationResultStore.cs:317-321 | removes exactly the expired results and counts them |
| MutationResultStore.MutationResultStore.RemoveExpiredLocked | dotnet/Hopper.Core/MutationResultStore.cs:332-344 | the loop keeps the byte count equal to the sum of what remains |
| MutationResultStore.MutationResultStore.SnapshotLocked | dotnet/Hopper.Core/MutationResultStore.cs:346-356 | the counters of pending and of retained entries and the bytes in use |
| MutationResultStore.MutationResultStore.GetSnapshot | dotnet/Hopper.Core/MutationResultStore.cs:323-330 | the same after expired results are gone |
| MutationResultStore.CountersAddUp | dotnet/Hopper.Core/MutationResultStore.cs:346-356 | every entry is counted once, within the maximum, and the bytes in use cover all reservations and stay within theirs |
| MutationResultStore.OperationsKeepSound | dotnet/Hopper.Core/MutationResultStore.cs:147-344 | count, bytes and the size of every body stay within the limits |
| MutationResultStore.RunsStaySound | dotnet/Hopper.Core/MutationResultStore.cs:147-344 | the limits hold at every moment of every interleaving |
| MutationResultStore.AdmissionIsExact | dotnet/Hopper.Core/MutationResultStore.cs:147-196 | each answer to an admission, exactly: a query, a useless identity, what is there already, no room, or a reservation; all other entries stay |
| MutationResultStore.LookupIsExact | dotnet/Hopper.Core/MutationResultStore.cs:198-238 | a lookup, and the beginning of a completion, tell of an entry what it is, and change nothing but what has expired |
| MutationResultStore.CompletionIsExact | dotnet/Hopper.Core/MutationResultStore.cs:240-285 | a completion retains the body that was handed in exactly if it is within the limit, and else the notice, with its byte count and for the time to live; all other entries stay |
| MutationResultStore.ReleaseIsExact | dotnet/Hopper.Core/MutationResultStore.cs:287-299 | a release gives back exactly its own reservation, if that is what is there |
| MutationResultStore.ReleaseAllIsExact | dotnet/Hopper.Core/MutationResultStore.cs:301-315 | giving back all reservations leaves exactly the retained results that have not expired |
| MutationResultStore.BytesAreExact | dotnet/Hopper.Core/MutationResultStore.cs:147-315 | the bytes in use change by exactly what an operation reserves, gives back, or finds smaller in the end |
| MutationResultStore.UsedFitsLong | dotnet/Hopper.Core/MutationResultStore.cs:180-190 | for all accepted options no sum of byte counts leaves the range of `long` |
| MutationResultStore.AnswersAreWithinTheirWindow | dotnet/Hopper.Core/MutationResultStore.cs:332-344 | nothing is ever returned before its completion, at its expiry or after |
| MutationResultStore.FirstTerminalBodyIsTheAnswer | dotnet/Hopper.Core/MutationResultStore.cs:147-285 | the first retained body, the one that was handed in or the notice if that was too large, is what every operation answers until exactly completion plus time to live |
| MutationResultStore.ReservationsNeverExpire | dotnet/Hopper.Core/MutationResultStore.cs:332-344 | a reservation ends only by completion or release |
| ToolPolicy.StoredIsSound | src/services/tool-policy-schema.ts:19-52 | what the storage check reads back unchanged, as a list of conditions |
| ToolPolicy.AcceptedIsStored | src/services/tool-policy.ts:62-135 | every accepted transition yields a storable snapshot with the same epoch and the next revision, asked for under the version it replaces |
| ToolPolicy.FilledInIsSound | src/services/tool-policy-store.ts:84-99 | filling in the catalog keeps the snapshot storable and its epoch |
| ToolPolicy.DefaultsAreSound | src/services/tool-policy-store.ts:76-79 | the defaults of a valid catalog are storable |
| ToolPolicy.MigratedIsStored | src/services/tool-policy-schema.ts:44-51 | a migrated version-1 file is accepted as it is by later reads |
| ToolPolicyWrites.ReadingIsExact | src/services/tool-policy-schema.ts:19-52 | which settings are read, and which error is given for all others |
| ToolPolicyWrites.PatchSetsItsGate | src/services/tool-policy.ts:67-79 | in every history an accepted patch turns its gate to what was asked for, with a new stamp exactly if it was off and is on; all other gates and all credentials stay |
| ToolPolicyWrites.PublishSetsItsKey | src/services/tool-policy.ts:82-104 | a publication leaves exactly the new reference under the next generation, and turns its parent on only if asked |
| ToolPolicyWrites.RemoveTakesItsKey | src/services/tool-policy.ts:107-117 | a removal leaves no reference, under the next generation, and changes nothing else |
| ToolPolicyWrites.ResetSetsDefaults | src/services/tool-policy.ts:121-135 | a reset gives every installed gate its catalog default and a new stamp, and leaves the others as they were |
| ToolPolicyWrites.ResetTakesAllKeys | src/services/tool-policy.ts:133 | a reset leaves no reference under any plugin, each under its next generation |
| ToolPolicyWrites.FillAddsWhatIsMissing | src/services/tool-policy-store.ts:88-98 | filling in adds exactly what is installed and missing, at its default, and leaves known entries alone |
| ToolPolicyWrites.RepairSetsDefaults | src/services/tool-policy-store.ts:134 | a repair has exactly the gates of the catalog, at their defaults, and no key |
| ToolPolicyWrites.PatchRefusalIsExact | src/services/tool-policy.ts:67-72 | each refusal of a patch, exactly |
| ToolPolicyWrites.PublishRefusalIsExact | src/services/tool-policy.ts:86-96 | each refusal of a publication, exactly |
| ToolPolicyWrites.RemoveRefusalIsExact | src/services/tool-policy.ts:108-112 | each refusal of a removal, exactly |
| ToolPolicyWrites.ResetRefusalIsExact | src/services/tool-policy.ts:122-125 | each refusal of a reset, exactly |
| ToolPolicyWrites.ToolStateIsExact | src/services/tool-policy.ts:186-201 | enabled, available, active and callable, each exactly |
| ToolPolicyWrites.StatusIsExact | src/services/tool-policy.ts:153-195 | which status a tool has: the first of its obstacles, in the order of the checks |
| ToolPolicyWrites.FirstUnmetIsTheFirst | src/services/tool-policy.ts:160-173 | of several requirements that are not met the first one is told |
| ToolPolicyWrites.SessionIsExact | src/services/tool-policy.ts:204-213 | which tools a session has: those that are on and available, and, when tools are disclosed step by step, active by default or activated |
| ToolPolicyHistory.SnapshotsStaySound | src/services/tool-policy-store.ts:84-142 | every snapshot of every history is storable |
| ToolPolicyHistory.EpochsAreStretches | src/services/tool-policy-store.ts:84-142 | an epoch is an unbroken stretch in which each write raises the revision by one |
| ToolPolicyHistory.OneUpdatePerVersion | src/services/tool-policy.ts:62-64 | of all updates that name one version at most one is ever accepted |
| ToolPolicyHistory.SessionsAreAppliedAt | src/services/tool-policy.ts:204-213 | a reconciled session carries the version of the snapshot it was made from |
| ToolPolicyHistory.StampsAreTrue | src/services/tool-policy.ts:67-79 | a gate that is on was on in every snapshot of its epoch since its stamp |
| ToolPolicyHistory.CallableMeansNeverDisabled | src/services/tool-policy.ts:176-201 | a callable tool and its parent were on in every snapshot since the session was applied; no disable and re-enable is missed |
| ToolPolicyHistory.PendingExposureIsExact | src/services/tool-policy.ts:176-183 | the gates let a session through exactly if its epoch lasts, tool and parent were on all the time, and no reset whose catalog has one of them came between |
| ToolPolicyHistory.GenerationCountsChanges | src/services/tool-policy.ts:82-135 | within an epoch the generation counts the changes of a credential exactly |
| ToolPolicyHistory.AdmittedKeyIsUntouched | src/services/tool-policy-runtime.ts:243-252 | the locked comparison passes exactly if nothing touched the credential since the key was read |
| ToolPolicyStore.Directory.Lose | src/services/tool-policy-store.ts:69-70 | a file that is deleted or damaged leaves the history as it was |
| ToolPolicyStore.AddMissing | src/services/tool-policy-store.ts:95-97 | each fill-in loop adds exactly what is missing |
| ToolPolicyStore.ToolPolicyStore.Fill | src/services/tool-policy-store.ts:92-98 | the snapshot with everything the catalog has, under the next revision |
| ToolPolicyStore.ToolPolicyStore.Load | src/services/tool-policy-store.ts:67-101 | what `load` returns for every state of file and marker: settings that were there once are never made anew |
| ToolPolicyStore.ToolPolicyStore.LoadFailsExactly | src/services/tool-policy-store.ts:67-101 | exactly when `load` fails, for every state of file, marker and disk |
| ToolPolicyStore.ToolPolicyStore.LoadedIsExact | src/services/tool-policy-store.ts:67-101 | what `load` finds: new settings only where there never were any, and else those of the file, with what is missing under the next revision |
| ToolPolicyStore.ToolPolicyStore.Complete | src/services/tool-policy-store.ts:82-101 | a readable file is completed and stays the last snapshot of its history |
| ToolPolicyStore.ToolPolicyStore.Transact | src/services/tool-policy-store.ts:107-113 | an accepted transition is written and extends the history by its event; a rejected one is not |
| ToolPolicyStore.ToolPolicyStore.Update | src/services/tool-policy-store.ts:114-119 | an accepted update leaves the gate as was asked for and everything else as it was; only gates of installed tools and parents can be set, and every refusal is the specified one |
| ToolPolicyStore.ToolPolicyStore.PutAside | src/services/tool-policy-store.ts:125-132 | what cannot be read is copied before it is replaced; what can be read is not replaced |
| ToolPolicyStore.ToolPolicyStore.Repair | src/services/tool-policy-store.ts:123-142 | new defaults under a new epoch, only over a file that cannot be read and has been put aside |
| ToolPolicyRuntime.Runtime.Register | src/services/tool-policy-runtime.ts:143-154 | an installed tool is registered once, unless its name is taken; a conflict is for good, and for other tools nothing changes |
| ToolPolicyRuntime.Runtime.MarkPluginConflict | src/services/tool-policy-runtime.ts:141 | exactly the tools of the plugin can no longer be activated |
| ToolPolicyRuntime.Runtime.Bind | src/services/tool-policy-runtime.ts:113-127 | another conversation starts without activations, calls, waits and session, and activations left are always of the present one |
| ToolPolicyRuntime.Runtime.AskStatus | src/services/tool-policy-runtime.ts:296-319 | the status is known at once without a key or without a tool that needs it; otherwise a wait begins that these settings would not cancel |
| ToolPolicyRuntime.Runtime.CancelWaits | src/services/tool-policy-runtime.ts:264-267 | exactly the waits go on that no later settings have made idle |
| ToolPolicyRuntime.Runtime.ObserveActivations | src/services/tool-policy-runtime.ts:268-273 | exactly the activations that no disable has overtaken survive |
| ToolPolicyRuntime.Runtime.AbortCalls | src/services/tool-policy-runtime.ts:274-280 | exactly the calls go on whose plugin and tool are on, with the key they need |
| ToolPolicyRuntime.Runtime.Observe | src/services/tool-policy-runtime.ts:263-281 | all three, for every settings that are seen or for none |
| ToolPolicyRuntime.Runtime.Activate | src/services/tool-policy-runtime.ts:378-395 | activates exactly if the tool is registered, on, was on when the request was prepared, and is available; otherwise the specified refusal |
| ToolPolicyRuntime.Runtime.AdmitKey | src/services/tool-policy-runtime.ts:243-252 | hands out the key exactly if the credential is untouched, the tool without conflict and callable; otherwise the specified denial |
| ToolPolicyRuntime.Runtime.Reconcile | src/services/tool-policy-runtime.ts:346-357 | a new session only at a boundary or when idle, and of registered tools only |
| ToolPolicyRuntime.SurvivingActivationWasNeverDisabled | src/services/tool-policy-runtime.ts:268-273 | an activation that survives was never overtaken by a disable, in snapshots seen or unseen |
| ToolPolicyRuntime.AdmittedPluginCall | src/services/tool-policy-runtime.ts:234-253 | when a key is handed out, nobody touched the credential since it was read, and the tool was on since the session was applied |
| ToolPolicyRuntime.ActivationSurvivesExactly | src/services/tool-policy-runtime.ts:268-273 | an activation survives later settings exactly if the conversation and the epoch are the same, tool and parent were on all the time, and no reset whose catalog has one of them came between |
| ToolPolicyRuntime.WaitLastsExactly | src/services/tool-policy-runtime.ts:264-267 | a wait goes on exactly until other settings are seen, and while a tool that is on needs the key |
| ToolPolicyRuntime.StatusIsNeededExactly | src/services/tool-policy-runtime.ts:288-290 | a plugin's key is looked after exactly while one of its tools that need it may be used |
| ToolPolicyRuntime.CallGoesOnExactly | src/services/tool-policy-runtime.ts:274-280 | a call goes on exactly while its gates are on and the key it needs is there |
| ToolPolicyRuntime.ActivationDenialIsExact | src/services/tool-policy-runtime.ts:388-394 | each denial of an activation, exactly |
| ToolPolicyRuntime.KeyDenialIsExact | src/services/tool-policy-runtime.ts:244-251 | each denial of a key, exactly |
| SnapshotPatch.SnapshotPatch | src/protocol/snapshot-patch.ts:13-25 | the patch between two snapshots, table by table |
| SnapshotPatch.ApplySnapshotPatch | src/protocol/snapshot-patch.ts:28-45 | the patched snapshot, or the error |
| SnapshotPatch.ApplyTableLoop | src/protocol/snapshot-patch.ts:34-41 | the rows of one patched table, or the missing row |
| SnapshotPatch.EqualIsSameUnlessHidden | src/protocol/snapshot-patch.ts:10 | exactly the differences that an undefined field hides pass for equality |
| SnapshotPatch.OwnPatchesApply | src/protocol/snapshot-patch.ts:37-41 | the program's own patches never name a missing row |
| SnapshotPatch.RowArrivesUnlessHidden | src/protocol/snapshot-patch.ts:13-45 | a row arrives as it is exactly if no earlier row with its key hides the difference |
| SnapshotPatch.PatchIsExact | src/protocol/snapshot-patch.ts:13-45 | patching a table gives the new rows exactly if their keys determine them and no undefined field hides a difference |
| SnapshotPatch.NothingUndefinedNothingHidden | src/protocol/snapshot-patch.ts:10 | rows without undefined fields hide nothing, so that keys alone decide |
| SnapshotPatch.UnchangedRowsAreKept | src/protocol/snapshot-patch.ts:27-41 | an unchanged row is not sent, and the receiver keeps its own row object |
| SnapshotPatch.UndefinedHidesAChange | src/protocol/snapshot-patch.ts:10 | two rows for which it does not: the changed row is not sent |
| SnapshotPatch.PatchGivesTheNextSnapshot | src/protocol/snapshot-patch.ts:13-45 | applying a patch gives the next tables exactly if each can be transmitted, and the next top-level fields exactly if none was dropped |
| SnapshotPatch.PatchOutOfSequence | src/protocol/snapshot-patch.ts:29 | a patch is refused as out of sequence exactly by a receiver at another cursor |
| SnapshotPatch.StreamArrivesExactly | src/protocol/snapshot-patch.ts:13-45 | however long the stream, every snapshot arrives in all tables exactly if each can be transmitted after the one before |
| SnapshotPatch.StreamKeepsDroppedFields | src/protocol/snapshot-patch.ts:16-33 | the receiver has every top-level field that ever was; those of the last snapshot exactly if it has them all |
| SnapshotKeys.RowsAreKnownByKindAndId | src/protocol/snapshot-patch.ts:9 | two rows have the same key exactly if they have the same kind, or none, and the same identity |
| SnapshotKeys.PatchIsMinimal | src/protocol/snapshot-patch.ts:18-23 | a table is left out exactly if nothing in it has to be sent; otherwise exactly the rows that must be are sent, and the keys exactly if they are not as they were |
| SnapshotKeys.SentInOrder | src/protocol/snapshot-patch.ts:20 | rows are sent in their order |
| SnapshotKeys.AppliedTableIsExact | src/protocol/snapshot-patch.ts:34-41 | any patch of a table: the last row under each key, in the order asked for, or an error exactly if a key has no row |
| SnapshotKeys.AppliedPatchIsExact | src/protocol/snapshot-patch.ts:28-45 | any patch of a snapshot: each error exactly, and otherwise its fields and tables in place of those that were there |
| SubGraphs.BuildAdjacency | src/services/subgraph.ts:13-30 | neighbours are exactly the components that a wire joins |
| SubGraphs.OwnerIsExact | src/services/subgraph.ts:3-7 | the component of a handle is what stands before its first dot |
| SubGraphs.NeighboursAreExact | src/services/subgraph.ts:20-30 | two components are neighbours exactly if they are known, named, and at the two ends of some wire |
| SubGraphs.VisitNeighbours | src/services/subgraph.ts:44-50 | the inner loop: all neighbours are in the cluster, new ones wait |
| SubGraphs.Search | src/services/subgraph.ts:37-52 | the search returns exactly what is connected to its root |
| SubGraphs.AllClusters | src/services/subgraph.ts:32-55 | the clusters partition the components |
| SubGraphs.SameClusterIffConnected | src/services/subgraph.ts:32-55 | two components share a cluster exactly if wires connect them |
| SubGraphs.SortBySize | src/services/subgraph.ts:57 | a permutation with larger clusters first, stable among clusters of one size |
| SubGraphs.WiresOf | src/services/subgraph.ts:63-76 | the internal and the external wires of a cluster |
| SubGraphs.FilterJoins | src/services/subgraph.ts:63-76 | the wires of a sub-graph keep the order of the canvas |
| SubGraphs.ComputeSubGraphs | src/services/subgraph.ts:9-86 | nothing exactly if all or no components are connected; else the partition with its wires |
| SubGraphs.KnownWireIsInternalIfConnected | src/services/subgraph.ts:63-76 | a wire between known components is internal to one sub-graph and external to none exactly if they are connected, as they are unless an identifier is empty; otherwise it is external to exactly their two |
| SubGraphs.ExternalIfNotConnected | src/services/subgraph.ts:63-76 | a wire is external to some sub-graph exactly if one of its ends is known, or both are but not connected |
| CanvasFilter.BuildAdjacency | src/services/canvas-filter.ts:14-22 | neighbours as the wires have them |
| CanvasFilter.ExpandExcludedIds | src/services/canvas-filter.ts:10-33 | the single pass is one round of exclusion |
| CanvasFilter.RoundIsClosed | src/services/canvas-filter.ts:25-31 | after one round no wired node outside has all its neighbours excluded |
| CanvasFilter.OnePassIsEnough | src/services/canvas-filter.ts:25-31 | any number of rounds gives what one gives |
| CanvasFilter.RoundIsLeast | src/services/canvas-filter.ts:10-33 | it is the least such set |
| CanvasFilter.ApplyCanvasExclusions | src/services/canvas-filter.ts:94-113 | the components and wires that stay |
| CanvasFilter.WhoStaysExactly | src/services/canvas-filter.ts:94-113 | a component stays exactly if it is of no excluded type and has no wires, or one to a component that is of none either |
| CanvasFilter.OwnerIsExact | src/services/canvas-filter.ts:16-17 | the component of a handle is what stands before its first dot, or all of it |
| CanvasFilter.WhoStaysKeepsAWire | src/services/canvas-filter.ts:94-113 | a wired node that stays keeps a wire |
| CanvasFilter.ExclusionIsFinal | src/services/canvas-filter.ts:94-113 | excluding again takes nothing away |
| CanvasFilter.ExpandSelectedIdsForGroups | src/services/canvas-filter.ts:41-53 | the least set with the selection and all members of its groups, nested ones too |

## Left out

- JSON encoding, hashes and identifiers: digests are injective, drawn identifiers are new, and the JSON text is modelled of run records only.
- Unreadable or foreign files in a script workspace (`WORKSPACE_CORRUPT`): only records that the workspace wrote are modelled, and `ScriptWorkspace.MutationKeepsStoreOk` says that they pass its checks.
- Directory syncing, and the temporary file that a crash between writing and renaming leaves behind; such a file counts against the quota.
- Liveness answers are an assumption where a name says so: `provenDead` never calls a live process of the asking host dead.
- ScriptWorkspace.RhinoScriptWorkspace.Mutate: counts characters, as do `ScriptPages` and `SourceLinePatches`, where the program counts UTF-16 units; timestamps and the answer of the capacity check are parameters.
- `list`, `history` and the search by name of `rhino-script-workspace.ts`, which only select.
- RpcClient.HopperRpcClient.RecoverMutation: the polling loop, after its first lookup, is the event of its success; deadlines and pauses decide only when it comes.
- ZeroMQ sockets, request validation and response schemas: a reply is matching, a protocol error, or foreign.
- MutationResultStore.MutationResultStore.CompleteEnd: an expiry beyond the largest date throws and leaves the reservation, as in the code; the serializer is the interval between the two sections.
- ToolPolicyStore.ToolPolicyStore.Load: the file lock makes each method one step; listeners, polling and `close` are not modelled, nor is the deletion of the marker.
- ToolPolicyRuntime.Runtime.AskStatus: leaves out a closed runtime and the time limit of a wait.
- SnapshotPatch.SnapshotPatch: field values are strings, whole numbers, null and undefined; the transport by JSON, which drops undefined fields, is not modelled.
- `filterCanvasBySelection` and `applySelectionFilter`: filters by lower-cased identifiers around `ExpandSelectedIdsForGroups`.
- Rhino and Grasshopper adapters, the host server, user interface and key storage.
