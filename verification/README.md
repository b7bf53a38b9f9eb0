# Verified model of the durable core

This project models the parts of Trusted Autonomy that promise something across crashes, races and
tampering, and proves those promises for every input, every run and every interleaving:

- **Apply journal** (`ApplyFiles`, `ApplyRuns`, `ApplySafety`, `ApplyTheorems`, `ApplyWrites`, `ApplyTears`,
  `ApplyJournal`, `ApplyRestore`): an undo log, one commit point (the draft's status flip) and a recovery that rolls
  forward or back. An apply is a system that can lose power between any two durable steps, after any byte
  of a journal record, in the middle of a staged copy or a queue append, and inside recovery itself, any
  number of times, while the repository's head may move. The same operations are also given as a class
  over the journal's bytes.
- **Record files** (`Utf8`, `JsonLines`, `LineFiles`): one record per line, as bytes. The queue reads them
  leniently, the apply journal strictly, and a torn append shows the difference.
- **Action queue** (`QueueModel`, `QueueLaws`, `QueueRuns`, `QueueSafety`, `QueueHandOff`,
  `QueueLimits`, `QueueEntries`, `QueueOutcomes`, `QueuePass`, `QueuePassRuns`, `ActionQueue`): state rebuilt
  by replaying an append-only log, and workers that claim, send and record, interleaved with other workers,
  crashes, startup recovery and people.
- **Ledger and checkpoints** (`LedgerChain`, `Checkpoints`, `CheckpointTheorems`, `CheckpointRuns`): a
  hash chain and signed checkpoints that only together pin a whole history.
- **Outcome envelopes** (`OutcomeEnvelope`, `OutcomeVerify`, `OutcomeReplay`): unique decoding of
  the signed bytes, the exact acceptance condition, and a replay cache that forgets.
- **Streams and tasks** (`MemoryTransport`, `KvRuns`, `StreamRuns`, `Handoff`, `SessionKeys`, `Tasks`,
  `TaskLists`, `TaskRuns`): leased delivery to many consumers, race-free claiming, and keys that keep sessions apart.
- **Rate limiter** (`RateLimit`, `RateLimitRuns`): a pruned list of times that still bounds every window.

Code that changes things step by step is a class or a method with a loop, proved equal to a function of
the old state; the theorems are then about that function, over runs. `Text` and `Wrappers` hold small
shared pieces. Hash, signature, JSON, policy, connector and clock are parameters; what a theorem assumes
of them is a named predicate in its `requires`.

## What the proofs found

Each of these is a lemma; the matching positive theorem carries the exact condition.

- A journal record torn inside a character that is not ASCII makes the whole journal unreadable, and
  recovery then discards it with its backups. Power lost while the move of a new file `é.txt` is journaled
  leaves the file new, the draft not applied and nothing queued (`ApplyTears.TornNameLosesUndoLog`). An
  apply is all or nothing in every run if and only if every path journaled once the files differ from the
  initial ones is ASCII (`ApplyTears.AllOrNothingExactly`). The queue's lenient reader has no such case
  (`LineFiles.TornBytesAddAPrefix`).
- Restoring an apply deletes the temporary name of every recorded path. A file of the project that
  happens to have such a name, and was not itself saved first, is lost
  (`ApplyFiles.TemporaryClashLosesAFile`); a roll-back loses nothing else
  (`ApplyFiles.RestoreUndoesEverything`). A successful apply overwrites and removes a file at such a name
  too (`ApplyTheorems.NewFilesLoseNothingExactly` says exactly when).
- A local commit that stands as the repository's head with no earlier head on record leaves recovery
  failing on every start (`ApplyWrites.NoWayBackReached`, `ApplyTheorems.NoWayBackIsForever`); in every
  other state one undisturbed recovery finishes.
- Giving up in-process after a local commit restores the files and leaves the commit
  (`ApplyWrites.AbandonLeavesCommit`), and so does recovery once the head has moved off it
  (`ApplyWrites.MovedHeadLeavesCommit`); there is no other way (`ApplyTheorems.CommitLeftExactly`).
- Two different drafts can share a key if and only if one id extends the other by a colon
  (`QueueModel.KeysSharedExactly`). An undo request whose key `undo-<id>` is taken is accepted and then
  replays to nothing (`QueueHandOff.UndoTakesEffect`).
- The "irrecoverable last" check is not repeated under the queue lock (`QueueLimits.HoldIsNotRechecked`),
  and startup recovery beside a live worker would let two workers hold one key
  (`QueueLimits.RecoveryMustWait`).
- A pass over a draft that mixes ordered and unordered actions can leave some held (`QueuePass.PassCompletes`
  says exactly when). An unordered irrecoverable action queued before an ordered one of another class waits
  for it while it waits in turn, and no pass ever sends either (`QueuePass.MixedDraftIsInverted`,
  `QueuePass.DeadlockLasts`).
- Checkpoints missing from the end of the file go unnoticed, and the last signature may be respelled:
  the hex parser takes upper case and a plus sign (`CheckpointTheorems.FileIsGenuinePrefix`).
- A clock that falls by one second more than the allowed skew lets an envelope in twice
  (`OutcomeReplay.ClockJumpReplays`).
- A consumer that acknowledges the id at its cursor when no message is there moves past the end of the
  stream and misses messages (`StreamRuns.UnreadAckSkips`); nothing else does
  (`StreamRuns.AcksAreAPrefixExactly`).
- Recipients whose names differ only in replaced characters share a handoff stream, and a session called
  `role` or `agent` shares streams with recipients outside any session
  (`SessionKeys.SessionStreamsExactly`, `SessionKeys.SessionlessClashExactly`).
- A claimant that stops between its marker and storing the task blocks that task for good
  (`TaskRuns.LostMarkerReached`), and a claim that has its marker, or can still create it, puts a completed
  task back in progress (`TaskRuns.CompletionCanBeLost`); no other claim can (`TaskRuns.DoneStaysDone`).
- The rate limiter reads the clock twice per call. Its daily window is a full day only when both readings
  agree (`RateLimitRuns.WindowsHold`, `RateLimitRuns.SecondReadingLeaks`).

## Model

| member | source | states |
|---|---|---|
| ApplyTears.AllOrNothingExactly | crates/ta-actions/src/apply_journal.rs:5-32 | Crash atomicity over any number of files, actions, crash points, tears at any byte and crashes inside recovery: every run that leaves no journal ends applied, with every file new and every action queued exactly once in order, or not applied, with every file as before, nothing queued and no local commit (unless given up or passed over), if and only if every path journaled once the files differ is ASCII |
| ApplyTears.TearsSurvivedExactly | crates/ta-actions/src/apply_journal.rs:448-453 | The undo log survives every tear of every run if and only if every path journaled once the files differ from the initial ones is ASCII |
| ApplyTears.TornNameLosesUndoLog | crates/ta-actions/src/apply_journal.rs:606-618 | The run for one new file `é.txt` torn inside its name: recovery removes journal and backups and leaves the file new, the draft not applied and nothing queued |
| ApplyTheorems.AllOrNothing | crates/ta-actions/src/apply_journal.rs:5-32 | In each run, once no journal is left, one of the two ends is reached if and only if no torn record cost the undo log |
| ApplyTheorems.CommitLeftExactly | crates/ta-actions/src/package_effects.rs:80-126 | A completed roll-back leaves the local commit if and only if there was one and the caller gave up itself or recovery found the head moved off it |
| ApplyTheorems.NewFilesLoseNothingExactly | crates/ta-actions/src/apply_journal.rs:203-212 | The new files are the initial ones with each written path at its last content, nothing else added, changed or lost, if and only if no file, initial or written before, sits at a temporary name used after it |
| ApplyTheorems.NewFilesAreTheWrites | crates/ta-actions/src/apply_journal.rs:203-212 | So it is when temporary names are apart from all other files |
| ApplyTheorems.RolledBackFilesExactly | crates/ta-actions/src/apply_journal.rs:676-692 | Without the proviso on temporary names a completed roll-back restores every file if and only if no initial file sat at a temporary name before it was saved |
| ApplyTheorems.StatusDecidesThroughout | crates/ta-actions/src/apply_journal.rs:14-18 | At every moment of every run: before the flip nothing is queued, after it no file ever changes |
| ApplyTheorems.RecoveryFinishes | crates/ta-actions/src/apply_journal.rs:634-693 | From every reachable state, an unreadable journal included, one undisturbed recovery settles the apply, unless a commit stands as the head with no earlier head |
| ApplyTheorems.NoWayBackIsForever | crates/ta-actions/src/apply_journal.rs:676-682 | In that one case no sequence of steps settles it while the head stays |
| ApplyTheorems.MovedHeadFinishes | crates/ta-actions/src/package_effects.rs:99-104 | Once the head has moved off the commit, recovery finishes from every reachable state |
| ApplyTheorems.CommitUndoneExactly | crates/ta-actions/src/package_effects.rs:80-126 | Undoing the local commit touches nothing durable but the commit, which goes exactly when git works, it is still the head and an earlier head is on record; when that fails, recovery stops with journal and files as they were |
| ApplyWrites.ApplyCompletes | crates/ta-actions/src/apply_journal.rs:5-20 | An apply of a plan with safe paths that nothing stops, disturbs or takes over comes to its end by itself: every file new, every action queued, no journal left |
| ApplyWrites.NoWayBackReached | crates/ta-actions/src/package_effects.rs:105-111 | A run from the start reaches that case, for every plan with safe paths and no earlier head |
| ApplyWrites.AbandonLeavesCommit | crates/ta-actions/src/apply_journal.rs:384-394 | A run from the start in which giving up in-process settles the apply and leaves its local commit standing |
| ApplyWrites.MovedHeadLeavesCommit | crates/ta-actions/src/package_effects.rs:99-104 | A run from the start in which recovery finds the head moved, rolls the files back and leaves the commit |
| ApplyWrites.CopyCanBeTorn | crates/ta-actions/src/apply_journal.rs:203-212 | In the crash model power can be lost inside any copy, with any content at the temporary name and everything else as it was |
| ApplyWrites.RestoreCanFail | crates/ta-actions/src/apply_journal.rs:500-527 | In the crash model a prior that cannot be restored is passed over and makes the roll-back incomplete, and a copy of a restore can be torn |
| ApplySafety.StepKeepsReachable | crates/ta-actions/src/apply_journal.rs:5-20 | Every step, torn after any byte or not, keeps: the queue holds an initial part of the actions, the undo log covers the files until the flip, and the files are the new ones from the flip on; or a tear has cost the log, and then nothing is queued or applied |
| ApplyFiles.RestoreUndoesEverything | crates/ta-actions/src/apply_journal.rs:491-535 | Restoring the priors newest first returns exactly the initial file map and touches nothing else, if and only if no initial file sat at a temporary name used before it was saved |
| ApplyFiles.RestoreAllLooks | crates/ta-actions/src/apply_journal.rs:491-529 | What restoring leaves at each path: the first saved state, nothing at a temporary name, the present content elsewhere |
| ApplyFiles.SavingKeepsUndoable | crates/ta-actions/src/apply_journal.rs:291-316 | Saving a path's present state before it is touched keeps the log able to undo everything |
| ApplyFiles.WritingKeepsUndoable | crates/ta-actions/src/apply_journal.rs:325-333 | Any change at a path with an earlier prior record keeps the log able to undo everything |
| ApplyFiles.TemporaryClashLosesAFile | crates/ta-actions/src/apply_journal.rs:185-189 | A roll-back deletes an initial file that sits at the temporary name of a written path |
| ApplyFiles.CheckedPathStaysInside | crates/ta-actions/src/apply_journal.rs:153-183 | Either slash names the same file, and a path passes the check if and only if it is not empty, not absolute and has no parent step |
| ApplyFiles.ResolvesStepByStep | crates/ta-actions/src/apply_journal.rs:153-183 | A path names its steps, joined at slashes of either kind, where an empty step or a dot names nothing |
| ApplyFiles.SpellingsOfOneFile | crates/ta-actions/src/apply_journal.rs:177-183 | `a` and `./a` are two spellings of one file |
| ApplyJournalFile.ApplyJournal.constructor | crates/ta-actions/src/apply_journal.rs:228-263 | Opening replaces a stale journal with one that holds the begin record alone and can undo everything |
| ApplyJournalFile.ApplyJournal.RecordPrior | crates/ta-actions/src/apply_journal.rs:294-316 | Refuses unsafe paths without a trace, records each spelling once with a backup of what was there, and keeps the log undoable |
| ApplyJournalFile.ApplyJournal.Install | crates/ta-actions/src/apply_journal.rs:328-340 | Saves the prior, puts the content in place, journals the move: the exact files and records, and the log still undoes everything |
| ApplyJournalFile.ApplyJournal.LocalCommitted | crates/ta-actions/src/apply_journal.rs:343-348 | Appends the commit record and keeps the log undoable |
| ApplyJournalFile.ApplyJournal.MarkedApplied | crates/ta-actions/src/apply_journal.rs:352-355 | Appends the applied record and keeps the log undoable |
| ApplyJournalFile.ApplyJournal.EnqueueAndComplete | crates/ta-actions/src/apply_journal.rs:359-376 | Queues exactly the actions of the begin record that the queue does not know, in order, counts them, and removes the journal |
| ApplyJournalFile.ApplyJournal.AbandonAfterRollback | crates/ta-actions/src/apply_journal.rs:378-394 | Removes the journal if and only if every path was restored, then the files are as when it was opened; otherwise keeps journal and backups |
| ApplyJournalFile.Store.ReadJournal | crates/ta-actions/src/apply_journal.rs:448-487 | Nothing when some byte is not text; otherwise the loop over lines yields the fold of the readable records, blank and torn lines skipped |
| ApplyJournalFile.Store.RestorePriors | crates/ta-actions/src/apply_journal.rs:491-535 | The loop restores newest first and gives the files, the count and the failures of the specified restore; it reports an unsafe path, and otherwise fails exactly when something failed |
| ApplyJournalFile.CleanRestoreIsComplete | crates/ta-actions/src/apply_journal.rs:530-534 | A restore that reports no failure has restored everything |
| ApplyJournalFile.UnbrokenRestoreIsClean | crates/ta-actions/src/apply_journal.rs:491-535 | With all backups present and no path broken, restoring reports no failure |
| ApplyRestore.RestoreGoesOn | crates/ta-actions/src/apply_journal.rs:491-535 | For all priors, backups and broken paths: a failure never stops a restore; every path ends at what its oldest prior that can be restored saved; the failures are exactly the paths that needed restoring and could not be, newest first; only an unsafe path stops it, with all that is newer restored and nothing older |
| ApplyRestore.FirstSavedComesBack | crates/ta-actions/src/apply_journal.rs:497-527 | A path that can be written and has its backups comes back to its first saved state, whatever else is broken |
| ApplyRestore.ReportedExactly | crates/ta-actions/src/apply_journal.rs:497-534 | A restore is clean if and only if no prior failed, and a path is reported if and only if one of its priors needed restoring and could not be |
| ApplyRestore.RetryCompletes | crates/ta-actions/src/apply_journal.rs:378-394 | Once nothing is broken any more, restoring again after a failed attempt leaves the very files an undisturbed first attempt would have left |
| ApplyJournalFile.Store.Recover | crates/ta-actions/src/apply_journal.rs:583-693 | Each outcome of one recovery exactly when the code reports it, an unreadable journal discarded among them, what it does to files, queue and journal, and that the directory goes exactly when recovery is complete |
| ApplyJournalFile.InstallRefinesSteps | crates/ta-actions/src/apply_journal.rs:294-340 | Uninterrupted, the crash model's small steps reach the very files and journal that `Install` leaves |
| JsonLines.AppendAddsExactly | crates/ta-actions/src/queue.rs:568-599 | Whatever the text before, torn tail or not, decoding after an append gives the old records followed by exactly the new ones, and no new unreadable line |
| JsonLines.TornAppendAddsAPrefix | crates/ta-actions/src/queue.rs:560-599 | A text cut after any number of characters of an append holds a prefix of the new records and at most one more unreadable line |
| JsonLines.EveryLineCounts | crates/ta-actions/src/queue.rs:552-566 | Every line that is not blank is read as one record or counted as unreadable |
| JsonLines.TrimIgnoresPadding | crates/ta-actions/src/queue.rs:552-566 | Blanks around a line do not matter, and only blank lines trim to nothing |
| LineFiles.AppendAddsExactlyBytes | crates/ta-actions/src/queue.rs:552-599 | On bytes read leniently: whatever the file holds, an append adds exactly the new records and no new unreadable line |
| LineFiles.TornBytesAddAPrefix | crates/ta-actions/src/queue.rs:552-599 | A crash after any number of bytes, inside a character or not, leaves a prefix of the new records and at most one more unreadable line |
| Utf8.StrayByte | crates/ta-actions/src/queue.rs:552-557 | Read leniently, a byte that starts no character is one replacement character, and reading goes on behind it |
| LineFiles.TornLine | crates/ta-actions/src/apply_journal.rs:448-459 | Read strictly, a line torn after any byte was not written, was written, or made the file unreadable; the last only when its record is not ASCII |
| LineFiles.TornInside | crates/ta-actions/src/apply_journal.rs:448-450 | Every record that is not ASCII can be torn so that the file is unreadable |
| Utf8.DecodeExactly | crates/ta-actions/src/apply_journal.rs:449 | Bytes are accepted as text exactly when they are the UTF-8 form of one, which they give back |
| LineFiles.SoundCodecExists | crates/ta-actions/src/queue.rs:568-599 | What is assumed of serialization can hold together, for records of any text that are ASCII exactly when it is |
| QueueModel.ReplayConcat | crates/ta-actions/src/queue.rs:344-469 | Replay of a concatenation is replay of the second part from the first part's state |
| QueueModel.KeysSharedExactly | crates/ta-actions/src/queue.rs:251-254 | Two drafts have a key in common if and only if they are one draft or one id extends the other by a colon |
| QueueModel.MakeKeyInjective | crates/ta-actions/src/queue.rs:251-254 | A key names one draft and one action unless one draft id extends the other by a colon |
| QueueModel.MakeKeyCollides | crates/ta-actions/src/queue.rs:251-254 | With colons two different actions share a key |
| QueueModel.HoldGo | crates/ta-actions/src/queue.rs:957-997 | An entry goes ahead exactly when every entry that must precede it is done |
| QueueModel.DelayIsExact | crates/ta-actions/src/queue.rs:861-872 | The retry delay is min(base * 2^min(n-1, 20), cap) despite saturation if and only if the product stays above the i64 minimum, and is at most the cap |
| QueueModel.DelaysGrow | crates/ta-actions/src/queue.rs:861-872 | Delays never shrink from one failed attempt to the next |
| QueueEntries.DelaysDouble | crates/ta-actions/src/queue.rs:861-872 | The first delay is the base; each next one doubles, up to the cap and to twenty doublings |
| QueueEntries.LastEventDecides | crates/ta-actions/src/queue.rs:344-469 | The last event that names a queued key decides its state, attempts, next try, result and attention |
| QueueEntries.QueuedUntilNamed | crates/ta-actions/src/queue.rs:344-469 | Until an event names it, an action stands as it was first queued |
| QueueEntries.AnswerTakesEffect | crates/ta-actions/src/queue.rs:1036-1081 | Recording an answer: success is done; a retryable one is retried after the delay while attempts are left and needs a person after that; a rejected or unknown one needs a person, whatever the attempt; nothing else moves |
| QueueEntries.ClaimTakesEffect | crates/ta-actions/src/queue.rs:760-796 | A claim is made if and only if the action is queued or its next try has come and policy allows; a block then goes to a person, and otherwise nothing is written |
| QueueEntries.ResolutionTakesEffect | crates/ta-actions/src/queue.rs:665-693 | A decision is taken if and only if the action needs attention: it is then done as sent or as dropped, or queued again with its attempts kept |
| QueueEntries.UndoDecidesExactly | crates/ta-actions/src/queue.rs:697-758 | An undo is accepted if and only if the action is done, compensable, has an undo verb and was not undone, and is refused for the first of these that fails; the queued undo runs that verb on the original parameters and result |
| QueueEntries.UndoNeverWaits | crates/ta-actions/src/queue.rs:957-997 | An undo never waits for its siblings and never makes them wait |
| QueueEntries.GoesAheadExactly | crates/ta-actions/src/queue.rs:957-997 | An ordered action goes ahead if and only if no earlier sibling is open, an unordered irrecoverable one if and only if no sibling of another class is, any other always |
| QueueEntries.StoppedExactly | crates/ta-actions/src/queue.rs:957-1000 | An action that must wait is stopped if and only if it is ordered and its first open earlier sibling needs a person; otherwise it is held |
| QueueEntries.RecoveryReportsExactly | crates/ta-actions/src/queue.rs:633-662 | After startup recovery no action is sending: each that was needs a person because its outcome is unknown, and no other has moved |
| QueueLaws.DoneIsAbsorbing | crates/ta-actions/src/queue.rs:344-469 | Once done, a key stays done with the same result whatever lawful event follows |
| QueueLaws.SendBound | crates/ta-actions/src/queue.rs:785-791 | The attempt number equals the count of the key's sends, which never exceeds the retry limit (at least one) plus the `Resend` decisions |
| QueueLaws.SendsAreSeparated | crates/ta-actions/src/queue.rs:760-796 | Between two sends of one key there is a failed attempt or a `Resend` |
| QueueRuns.RunKeepsInv | crates/ta-actions/src/queue.rs:760-801 | Every interleaving of workers, crashes, startup recovery, batches and people keeps the queue invariant |
| QueueSafety.OneHolderPerKey | crates/ta-actions/src/queue.rs:756-796 | At most one worker holds a claim on a key, and a held key is `Sending` |
| QueueSafety.CallFollowsDurableIntent | crates/ta-actions/src/queue.rs:1007-1035 | Every connector call follows a policy Allow and its own durable `Sending`, once per claim |
| QueueSafety.OnlyThenCalls | crates/ta-actions/src/queue.rs:1007-1035 | Every step leaves every key's connector calls as they were, except a `Calling` step of a holder, which adds one call of the held key |
| QueueSafety.DoneForever | crates/ta-actions/src/queue.rs:344-469 | In every continuation of every run a done key stays done with its result |
| QueueSafety.NeverResentOnItsOwn | crates/ta-actions/src/queue.rs:633-693 | In every run two sends of one key have a `Retrying` or a `Resend` between them |
| QueueOutcomes.WhoWrites | crates/ta-actions/src/queue.rs:603-1081 | A step that appends an event of some kind is the step that kind calls for: a retry comes only from a retryable answer, an unknown outcome only from such an answer or from startup recovery, a send only from a claim policy allowed |
| QueueOutcomes.EventsAreWrittenBy | crates/ta-actions/src/queue.rs:603-1081 | So it is for every event of the log of every run |
| QueueOutcomes.RetryingMeansRetryable | crates/ta-actions/src/queue.rs:1050-1069 | In every run a `Retrying` event is only written for a retryable answer |
| QueueOutcomes.AnswerIsRecorded | crates/ta-actions/src/queue.rs:1036-1081 | In every run recording an answer leaves the action of its claim where the answer says and every other where it was |
| QueueOutcomes.UnknownWaitsForPerson | crates/ta-actions/src/queue.rs:896-897 | Never retried automatically: after an unknown or rejected answer is recorded, in every continuation of every run, each later send of that action has a `Resend` before it |
| QueueOutcomes.SendsNeedResend | crates/ta-actions/src/queue.rs:665-693 | What needs attention at some point of a run is sent later only after a `Resend` |
| QueueOutcomes.SentWhenDue | crates/ta-actions/src/queue.rs:760-796 | In every run each send is of an action that was queued or whose next try had come, with the next attempt number and a policy that allowed it |
| QueueOutcomes.AcceptedUndoIsClaimed | crates/ta-actions/src/queue.rs:697-758 | An accepted undo with a free key can be chosen and claimed at once by an idle worker, whatever its siblings are doing |
| QueueSafety.CallsAreBounded | crates/ta-actions/src/queue.rs:785-791 | Connector calls never outnumber durable sends, which the entry counts and the limit bounds |
| QueueSafety.SagaOrder | crates/ta-actions/src/queue.rs:957-997 | In every interleaving an ordered action is sent only when all earlier non-undo actions of its draft are done, however stale the snapshot |
| QueueSafety.IrrecoverableLast | crates/ta-actions/src/queue.rs:983-997 | An unordered irrecoverable action is sent only when every other-class sibling of its worker's snapshot is done |
| QueueSafety.IrrecoverableLastExactly | crates/ta-actions/src/queue.rs:983-997 | For the queue at the moment of the send the same holds if and only if no open sibling was enqueued between snapshot and claim |
| QueueLimits.HoldIsNotRechecked | crates/ta-actions/src/queue.rs:959-997 | A run in which a sibling arrives after the snapshot and an irrecoverable action goes first |
| QueueLimits.RecoveryMustWait | crates/ta-actions/src/queue.rs:630-662 | In every run with a held key, recovery beside the holder would let a second worker come to hold it |
| QueueLimits.HeldKeyReached | crates/ta-actions/src/queue.rs:760-796 | A run from the empty queue that reaches a held key |
| QueueHandOff.ExactlyOnceHandOff | crates/ta-actions/src/queue.rs:603-628 | At every point of every run the queue holds an initial part of the batch's distinct actions in order, each once, and all of them after a whole append |
| QueueHandOff.BatchMovesOn | crates/ta-actions/src/apply_journal.rs:663-674 | A batch append torn after any event moves the hand-off forward; a repeated whole one finishes it |
| QueueHandOff.ReEnqueueKeepsEntries | crates/ta-actions/src/queue.rs:603-628 | Writing a batch again never disturbs an entry already there, sent or not |
| QueueHandOff.UndoTakesEffect | crates/ta-actions/src/queue.rs:697-758 | An accepted undo queues the undo and marks the action undone if and only if the key `undo-<id>` is free |
| QueuePass.CandidatesExact | crates/ta-actions/src/queue.rs:939-956 | A pass takes exactly the due entries, strictly ordered by class rank and place |
| QueuePass.CandidatesInOrder | crates/ta-actions/src/queue.rs:927-956 | A pass takes exactly the actions that are queued or whose next try has come, each once: ordered and reversible ones first, as queued, then compensable ones, irrecoverable ones last |
| QueuePass.PassCompletes | crates/ta-actions/src/queue.rs:939-1005 | With everything done or due, nothing blocked and every send succeeding, one pass finishes all and holds none if and only if no entry comes up before an open one that must precede it |
| QueuePass.HomogeneousPassCompletes | crates/ta-actions/src/queue.rs:939-1005 | So it does when each draft's non-undo actions are all ordered or all unordered |
| QueuePass.MixedDraftIsInverted | crates/ta-actions/src/queue.rs:957-997 | An unordered irrecoverable action queued before an ordered one of its draft and of another class comes up after it, and each waits for the other |
| QueuePass.DeadlockLasts | crates/ta-actions/src/queue.rs:939-1005 | Two entries that wait for each other stay as they are through any number of passes, whatever clock, policy and connectors do |
| QueuePassRuns.PassIsARun | crates/ta-actions/src/queue.rs:939-1005 | From any reachable state, what a pass of an idle worker writes is what some steps of that worker alone write: every guarantee about runs holds of passes |
| QueuePassRuns.AttemptTakesEffect | crates/ta-actions/src/queue.rs:1007-1081 | An attempt at a due, allowed action writes the intent, calls the connector with the action as it stood and records the answer; a panic is an unknown outcome |
| QueuePassRuns.PolicyComesFirst | crates/ta-actions/src/queue.rs:1007-1035 | An action that is not due is left alone; a due one that policy blocks goes to a person and no connector is called |
| QueuePassRuns.ReportIsTheJournal | crates/ta-actions/src/queue.rs:939-1081 | The report lists, in order, exactly the keys of the events of each kind that the pass wrote, and the candidates that had to wait |
| ActionQueueFile.ActionQueue.Snapshot | crates/ta-actions/src/queue.rs:344-469 | The replay loop over text lines equals replay of the readable events and counts the unreadable lines |
| ActionQueueFile.ActionQueue.AppendLocked | crates/ta-actions/src/queue.rs:568-599 | The log afterwards is the log before followed by exactly the events |
| ActionQueueFile.ActionQueue.EnqueueBatch | crates/ta-actions/src/queue.rs:603-628 | Appends one event per action whose key is neither known nor earlier in the batch, and reports added and present keys in order |
| ActionQueueFile.ActionQueue.RecoverInFlight | crates/ta-actions/src/queue.rs:633-662 | Appends an unknown-outcome event for every entry still `Sending`, nothing else, and returns their keys |
| ActionQueueFile.ActionQueue.Resolve | crates/ta-actions/src/queue.rs:665-693 | Accepts or refuses as decided on the replayed state, and appends the decision only when accepted |
| ActionQueueFile.ActionQueue.RequestUndo | crates/ta-actions/src/queue.rs:697-758 | Appends the undo entry when the action may be undone, and nothing when refused |
| ActionQueueFile.ActionQueue.ClaimKey | crates/ta-actions/src/queue.rs:760-796 | Claims only a due key that policy allows, writing the `Sending` event with the next attempt number; a block writes attention instead |
| ActionQueueFile.QueueWorker.AttemptKey | crates/ta-actions/src/queue.rs:1007-1081 | One claim, one call, one recorded outcome, and the report entry for it |
| ActionQueueFile.QueueWorker.RunOnce | crates/ta-actions/src/queue.rs:939-1005 | The pass over the sorted due list leaves the log, clock readings and report of the specified pass |
| LedgerChain.VerifyChain | crates/ta-audit/src/chain.rs:245-333 | One result per non-blank line with its line number, link, signature and readability verdicts; all links hold if and only if the chain is valid |
| LedgerChain.SignVerifiesExactly | crates/ta-audit/src/chain.rs:189-203 | A signature made with the key verifies if and only if the text has the same tag |
| LedgerChain.WrittenIsReadBack | crates/ta-audit/src/checkpoint.rs:84-99 | What is written line by line, with either line ending, is read back, and exactly the blank lines are left out |
| LedgerChain.TrimsExactly | crates/ta-audit/src/checkpoint.rs:92-99 | Trimming takes every carriage return at the end of a line and nothing else |
| Text.HexSpellings | crates/ta-audit/src/chain.rs:340-350 | The hex parser reads other spellings of the same bytes: upper case, and a plus sign for a leading zero |
| LedgerChain.ChainExtends | crates/ta-audit/src/ledger.rs:265-285 | An entry extends a valid chain if and only if it can be read and names the hash of the last line, as appending writes it |
| LedgerChain.LinePinsHistory | crates/ta-audit/src/chain.rs:261-305 | Chain-valid ledgers that agree at one line agree on every line before it |
| LedgerChain.LinePinsPosition | crates/ta-audit/src/chain.rs:261-305 | In chain-valid ledgers equal lines sit at equal positions |
| LedgerChain.SameLinesUpToCRs | crates/ta-audit/src/checkpoint.rs:84-99 | A checkpoint counts exactly the lines the chain check reads, up to carriage returns at their ends |
| LedgerChain.HeadPinsPrefix | crates/ta-audit/src/checkpoint.rs:204-233 | Chain-valid ledgers that agree on the hash of entry n agree on all n lines |
| Checkpoints.SigningInputInjective | crates/ta-audit/src/checkpoint.rs:56-69 | The signed text determines every signed field, even when the other head and link hold newlines |
| CheckpointTheorems.SignedTextsApart | crates/ta-audit/src/checkpoint.rs:28-69 | What is signed for a checkpoint is never what is signed for an outcome |
| Checkpoints.CheckpointLog.Record | crates/ta-audit/src/checkpoint.rs:138-158 | Appends the next checkpoint of the present ledger, keeps a genuine file genuine, and covers the ledger |
| Checkpoints.CheckpointLog.Verify | crates/ta-audit/src/checkpoint.rs:162-235 | The exact problems in order and the verified count; none if and only if all signatures and links hold and the ledger covers the current epoch |
| Checkpoints.EpochStartsExactly | crates/ta-audit/src/checkpoint.rs:202-213 | The current epoch starts at the last checkpoint whose epoch flag is set, or at the first when none is |
| Checkpoints.LinkProblemsExactly | crates/ta-audit/src/checkpoint.rs:175-201 | The file problems reported are exactly: an invalid signature where one does not verify, a broken link where one does but does not link to the signature before it |
| Checkpoints.CoverProblemsExactly | crates/ta-audit/src/checkpoint.rs:202-232 | The ledger problems reported are exactly: entries removed where a checkpoint of the epoch counts more than there are, history rewritten where the last entry it counts has another hash |
| CheckpointTheorems.FileIsGenuinePrefix | crates/ta-audit/src/checkpoint.rs:175-203 | With unforgeable, injective signatures a file passes the signature and link checks if and only if it is a prefix of the genuinely recorded sequence, up to the spelling of the last signature |
| CheckpointTheorems.CoversExactly | crates/ta-audit/src/checkpoint.rs:204-233 | A genuine checkpoint fits a chain-valid ledger if and only if that ledger still starts with every signed line |
| CheckpointTheorems.VerifiedLedgerExtendsSigned | crates/ta-audit/src/checkpoint.rs:12-20 | Tamper evidence: no problem reported and a valid chain mean the ledger still begins with the whole ledger of every checkpoint that has no epoch checkpoint after it |
| CheckpointTheorems.AssumptionsAreConsistent | crates/ta-audit/src/chain.rs:189-203 | What is assumed of hash, tags and parsing holds together, with a chain-valid ledger of two lines and a recorded checkpoint that verifies and covers it |
| CheckpointRuns.HonestRunVerifies | crates/ta-audit/src/checkpoint.rs:138-235 | After any run of appends, recordings and rewrites in which no rewrite is left unrecorded, verification finds no problem |
| CheckpointRuns.EpochCloses | crates/ta-audit/src/checkpoint.rs:22-24 | An epoch checkpoint closes any honest run so that it verifies |
| OutcomeEnvelope.PreImageInjective | crates/ta-agent-whiteboard/src/outcome_envelope.rs:355-382 | The digested bytes determine the body: absent and empty titles differ and the optional trailer is unambiguous |
| OutcomeEnvelope.PlainDigestUnchanged | crates/ta-agent-whiteboard/src/outcome_envelope.rs:361-382 | A body without reason and fix is digested as its four fields alone, as envelopes signed before those existed were; with either, those same bytes come first |
| OutcomeEnvelope.PeelLengthPrefixed | crates/ta-agent-whiteboard/src/outcome_envelope.rs:355-369 | A length-prefixed field, present or absent, is determined by the bytes it starts |
| OutcomeEnvelope.Hasher.FeedBody | crates/ta-agent-whiteboard/src/outcome_envelope.rs:361-382 | The hasher is fed exactly the pre-image, field by field |
| OutcomeEnvelope.SignedTextDetermines | crates/ta-agent-whiteboard/src/outcome_envelope.rs:385-397 | The signed text determines key id, stamp and body of validated envelopes |
| OutcomeEnvelope.NewlinesWouldCollide | crates/ta-agent-whiteboard/src/outcome_envelope.rs:228-247 | Without the identifier check two different stamps would sign the same text |
| OutcomeEnvelope.ValuesAreLines | crates/ta-agent-whiteboard/src/outcome_envelope.rs:230-352 | Validation makes every signed value a single line |
| OutcomeEnvelope.ValidBodyShape | crates/ta-agent-whiteboard/src/outcome_envelope.rs:250-338 | A valid body carries a reason and a fix exactly when it reports a launch failure; its candidate and title are single lines |
| OutcomeEnvelope.ValidBodyExactly | crates/ta-agent-whiteboard/src/outcome_envelope.rs:250-338 | Exactly which bodies are valid, field by field |
| OutcomeEnvelope.ValidStampExactly | crates/ta-agent-whiteboard/src/outcome_envelope.rs:340-352 | Exactly which stamps are valid |
| OutcomeEnvelope.FaultIsReal | crates/ta-agent-whiteboard/src/outcome_envelope.rs:228-352 | A body or stamp is refused for a field that is wrong |
| OutcomeEnvelope.PlainEnvelopeIsValid | crates/ta-agent-whiteboard/src/outcome_envelope.rs:230-352 | Validation admits a plain envelope |
| OutcomeVerify.AcceptedExactly | crates/ta-agent-whiteboard/src/outcome_envelope.rs:542-713 | Of every payload, before the replay cache: accepted as stamped if and only if it is signed, of version 1, small, well formed, signed by a trusted key, fresh, and from a role that may say it; as legacy if and only if it is unsigned, of allowed size, no launch failure, and stamps are not required; never otherwise |
| OutcomeVerify.VerifiedExactly | crates/ta-agent-whiteboard/src/outcome_envelope.rs:542-728 | Of verification with its cache: accepted if and only if it passes and, when stamped, is not remembered; exactly that is remembered then |
| OutcomeVerify.RefusedUnread | crates/ta-agent-whiteboard/src/outcome_envelope.rs:549-612 | The error of every payload refused before its envelope is read, in order of the checks |
| OutcomeVerify.RefusedForKey | crates/ta-agent-whiteboard/src/outcome_envelope.rs:632-683 | The error of a well-formed envelope whose key or signature is at fault, in order of the checks |
| OutcomeVerify.RefusedForAgeOrRole | crates/ta-agent-whiteboard/src/outcome_envelope.rs:685-720 | The error of a properly signed envelope that is too old, from the future, or from a role that may not say it |
| OutcomeVerify.FindsFirst | crates/ta-agent-whiteboard/src/outcome_envelope.rs:635-640 | The key with an id is the first of the ring that has it |
| OutcomeVerify.SignsExactly | crates/ta-agent-whiteboard/src/outcome_envelope.rs:400-441 | Signing succeeds if and only if body, stamp and key id are valid and the envelope is small enough, and makes an envelope of exactly what was asked for |
| OutcomeVerify.SignedVerifies | crates/ta-agent-whiteboard/src/outcome_envelope.rs:400-441 | What the daemon signs, a verifier holding its trusted key accepts while fresh |
| OutcomeVerify.AcceptedIsWhatWasSigned | crates/ta-agent-whiteboard/src/outcome_envelope.rs:385-441 | An accepted envelope carries the very key id, stamp and body that were signed |
| OutcomeVerify.LaunchFailedIsTheDaemons | crates/ta-agent-whiteboard/src/outcome_envelope.rs:560-566 | Only the daemon's signed envelopes report a launch failure, and the daemon's report nothing else |
| OutcomeVerify.ReplayCache.CheckAndInsert | crates/ta-agent-whiteboard/src/outcome_envelope.rs:487-496 | New exactly when no retained entry has the id; the cache afterwards is the retained one with the id added when new |
| OutcomeVerify.ReplayCache.Verify | crates/ta-agent-whiteboard/src/outcome_envelope.rs:542-728 | Verdict and cache of the specified verification; only a fully verified envelope enters the cache |
| OutcomeReplay.NoReplay | crates/ta-agent-whiteboard/src/outcome_envelope.rs:487-496 | With a clock never more than the skew below its running maximum, a message id accepted again always has a strictly later issue time: no envelope is accepted twice in a run of any length |
| OutcomeReplay.RememberedOrForgotten | crates/ta-agent-whiteboard/src/outcome_envelope.rs:487-496 | An accepted message stays in the cache until some call comes late enough to forget it |
| OutcomeReplay.CacheStaysFresh | crates/ta-agent-whiteboard/src/outcome_envelope.rs:487-496 | After each acceptance every cached entry is inside the window |
| OutcomeReplay.ClockJumpReplays | crates/ta-agent-whiteboard/src/outcome_envelope.rs:686-722 | One second more of clock fall-back and the same envelope is accepted twice |
| Utf8.EncodeInjective | crates/ta-agent-whiteboard/src/outcome_envelope.rs:361-382 | Texts are determined by their UTF-8 bytes |
| SessionKeys.EncodeKeyComponent | crates/ta-agent-whiteboard/src/presence.rs:102-112 | The byte loop computes the encoding, which holds only letters, digits, `-` and `=` |
| SessionKeys.DecodeEncoded | crates/ta-agent-whiteboard/src/presence.rs:97-112 | The encoding has a left inverse on all byte strings |
| SessionKeys.PlainStays | crates/ta-agent-whiteboard/src/presence.rs:97-112 | Letters, digits and dashes stand for themselves, in keys and in stream names |
| SessionKeys.SessionKeyDetermines | crates/ta-agent-whiteboard/src/presence.rs:114-127 | A session-scoped key has exactly one underscore and determines session and id |
| SessionKeys.SessionStreamsExactly | crates/ta-agent-whiteboard/src/handoff.rs:20-50 | Two sessions never share a handoff stream; within one, recipients share exactly when kind and replaced name agree |
| SessionKeys.SessionlessClashExactly | crates/ta-agent-whiteboard/src/handoff.rs:23-34 | Exactly which session streams coincide with streams outside any session |
| MemoryTransport.InMemoryTransport.KvCreate | crates/ta-agent-whiteboard/src/memory_transport.rs:104-121 | Succeeds exactly when no live entry is there, then stores one that does not expire; other buckets unchanged |
| MemoryTransport.InMemoryTransport.KvGet | crates/ta-agent-whiteboard/src/memory_transport.rs:123-132 | Returns the value exactly while it has not expired |
| KvRuns.ReadsLastWrite | crates/ta-agent-whiteboard/src/memory_transport.rs:82-139 | Over any sequence of operations on any buckets a read finds what the last one on its key in its bucket left: a value put until its time to live is over, a value created for good, nothing after a delete |
| KvRuns.OneCreatorWins | crates/ta-agent-whiteboard/src/memory_transport.rs:104-121 | Of any number of creators of one key in one bucket only one wins, unless the key is put or deleted in between |
| MemoryTransport.InMemoryTransport.StreamReadNext | crates/ta-agent-whiteboard/src/memory_transport.rs:164-194 | Delivers and leases the message at the cursor unless leased or past the end; other streams unchanged |
| MemoryTransport.InMemoryTransport.StreamAck | crates/ta-agent-whiteboard/src/memory_transport.rs:196-208 | Moves the cursor and ends the lease only for the id at the cursor |
| MemoryTransport.InMemoryTransport.StreamNakDelayed | crates/ta-agent-whiteboard/src/memory_transport.rs:225-242 | Replaces the deadline only of the leased message named |
| MemoryTransport.InMemoryTransport.StreamRecoverPending | crates/ta-agent-whiteboard/src/memory_transport.rs:244-266 | Releases the lease exactly when its message is among the ids, and counts it |
| MemoryTransport.IdRoundTrip | crates/ta-agent-whiteboard/src/memory_transport.rs:189-200 | The id a read returns parses back to its index |
| MemoryTransport.ParsesExactly | crates/ta-agent-whiteboard/src/memory_transport.rs:199-200 | Exactly which ids parse, and to what: digits, with a plus sign in front or not |
| StreamRuns.AcksAreAPrefixExactly | crates/ta-agent-whiteboard/src/memory_transport.rs:164-208 | In any mix of operations a consumer has acknowledged exactly a prefix of the appended messages at every point if and only if it never acknowledges the id at its cursor where there is no message |
| StreamRuns.AcksAreAPrefix | crates/ta-agent-whiteboard/src/memory_transport.rs:164-208 | So it is when consumers acknowledge what their own reads returned |
| StreamRuns.ReadsFirstUnacked | crates/ta-agent-whiteboard/src/memory_transport.rs:164-194 | A read returns the first unacknowledged message unless it is leased |
| StreamRuns.LeaseAtCursor | crates/ta-agent-whiteboard/src/memory_transport.rs:252-256 | A lease always sits at the cursor, on an existing message |
| StreamRuns.NotRedeliveredEarly | crates/ta-agent-whiteboard/src/memory_transport.rs:177-182 | A leased message is not delivered again before its deadline, whatever happens in between |
| StreamRuns.DeliversExactly | crates/ta-agent-whiteboard/src/memory_transport.rs:164-194 | A read delivers if and only if there is a message at the cursor and no lease that still lasts |
| StreamRuns.RecoveredComesBack | crates/ta-agent-whiteboard/src/memory_transport.rs:244-266 | Recovering the leased id gives the message to the very next read of the consumer |
| StreamRuns.WaitIsSet | crates/ta-agent-whiteboard/src/memory_transport.rs:268-283 | An ack wait is what was last set for the consumer |
| StreamRuns.LeaseSet | crates/ta-agent-whiteboard/src/memory_transport.rs:183-242 | When a lease starts, to what deadline, and when it ends: delivery, progress, delayed nak, the acknowledgement at the cursor and recovery, and nothing else |
| StreamRuns.OthersDoNotMatter | crates/ta-agent-whiteboard/src/memory_transport.rs:23-36 | A consumer's view is the same with the other consumers' operations left out |
| StreamRuns.UnreadAckSkips | crates/ta-agent-whiteboard/src/memory_transport.rs:199-204 | Acknowledging an id never read makes a later message undeliverable |
| Handoff.ReceiveHandoffIn | crates/ta-agent-whiteboard/src/handoff.rs:118-136 | Receives from the recipient's stream of that session alone, failing on an unreadable message |
| Handoff.AckConsumesDelivered | crates/ta-agent-whiteboard/src/handoff.rs:138-149 | Acknowledging a received handoff consumes exactly that one |
| Handoff.SentIsReceived | crates/ta-agent-whiteboard/src/handoff.rs:97-136 | A handoff sent to a recipient that has consumed all others is what it receives next, and no other stream sees it |
| TaskRuns.AtMostOneClaimWins | crates/ta-agent-whiteboard/src/tasks.rs:102-132 | Over every interleaving of key-value steps at most one claim of a task ever returns true |
| TaskRuns.UndisturbedClaim | crates/ta-agent-whiteboard/src/tasks.rs:107-132 | Uninterrupted, a claim's steps win exactly on a pending task without a marker and leave marker and taken task |
| TaskRuns.InProgressNamesTheWinner | crates/ta-agent-whiteboard/src/tasks.rs:128-131 | A task stored as in progress names the agent whose claim won |
| TaskRuns.LostMarkerBlocks | crates/ta-agent-whiteboard/src/tasks.rs:120-131 | Once a marker has no holder, no later claim ever wins |
| TaskRuns.LostMarkerReached | crates/ta-agent-whiteboard/src/tasks.rs:120-131 | A run from the empty list reaches such a marker, with the task still listed as pending |
| TaskRuns.DoneStaysDone | crates/ta-agent-whiteboard/src/tasks.rs:107-143 | A completed task stays done in every continuation that does not publish it again if and only if no claim of it has its marker, or saw it pending and finds the marker still free |
| TaskRuns.CompletionCanBeLost | crates/ta-agent-whiteboard/src/tasks.rs:115-143 | A run from the empty list in which a claim under way overwrites a completion |
| Tasks.ClaimTask | crates/ta-agent-whiteboard/src/tasks.rs:107-132 | Undisturbed, a claim wins exactly on a readable pending task without a marker, and stores marker and task |
| Tasks.CompleteTask | crates/ta-agent-whiteboard/src/tasks.rs:136-143 | Stores a readable task as done, and fails only on an unreadable one |
| Tasks.UnfinishedHasClaimable | crates/ta-agent-whiteboard/src/tasks.rs:84-100 | With closed, acyclic dependencies and nothing in progress, something is claimable if and only if something is unfinished |
| Tasks.ClaimableExactly | crates/ta-agent-whiteboard/src/tasks.rs:84-100 | Claimable are exactly the pending tasks of the list each of whose dependencies is the id of a listed task that is done, each once, in list order |
| Tasks.ClaimableDependsOnDone | crates/ta-agent-whiteboard/src/tasks.rs:84-100 | No claimable task depends on an unfinished one |
| TaskLists.DependenciesComeFirst | crates/ta-agent-whiteboard/src/tasks.rs:84-143 | In every run in which agents claim from lists of claimable tasks, however old, a task in progress has all its dependencies done |
| TaskRuns.UndisturbedCompletion | crates/ta-agent-whiteboard/src/tasks.rs:136-143 | Uninterrupted, a completion stores a readable task as done and changes nothing else |
| TaskRuns.PublishedIsStored | crates/ta-agent-whiteboard/src/tasks.rs:58-69 | A published task is what is read until something else is stored |
| RateLimit.SessionRateLimiter.Prune | crates/ta-actions/src/ratelimit.rs:69-75 | The loop keeps, of every type, exactly the times younger than a day |
| RateLimit.SessionRateLimiter.CheckAndRecord | crates/ta-actions/src/ratelimit.rs:142-198 | The verdict on the pruned list, the new list of the type, the others only pruned, and the file written exactly when allowed |
| RateLimit.DecidesExactly | crates/ta-actions/src/ratelimit.rs:142-198 | Refused for the hour if and only if the last hour is full, for the day if and only if the hour is not and the day is, with limit and count; allowed otherwise |
| RateLimit.RecordsExactly | crates/ta-actions/src/ratelimit.rs:183-186 | An allowed check adds its time, and the list is in order afterwards even when it was not |
| RateLimit.AboveExactly | crates/ta-actions/src/ratelimit.rs:69-75 | Pruning keeps every time after the moment, as often as it was there, and no other |
| RateLimit.SortSorts | crates/ta-actions/src/ratelimit.rs:183-186 | Sorting keeps the times, orders them, and changes nothing on a sorted list |
| RateLimitRuns.WindowsHold | crates/ta-actions/src/ratelimit.rs:142-198 | In every run, restarts included, no hour and no day less the clock lag holds more allowed actions of a type than its limit |
| RateLimitRuns.AllowedExactly | crates/ta-actions/src/ratelimit.rs:142-198 | In every run a check is allowed if and only if its last hour, and its last day up to the second clock reading, hold fewer allowed actions of the type than their limits |
| RateLimitRuns.CheckIsAnEvent | crates/ta-actions/src/ratelimit.rs:142-198 | A call of `CheckAndRecord` is one event of such a run |
| RateLimitRuns.RestartIsAnEvent | crates/ta-actions/src/ratelimit.rs:93-124 | So is a restart, which reads the file back and prunes it |
| RateLimitRuns.ListRemembers | crates/ta-actions/src/ratelimit.rs:69-75 | Memory and file hold exactly the allowed times after a moment a day before some clock reading |
| RateLimitRuns.ListStaysSorted | crates/ta-actions/src/ratelimit.rs:183-186 | The list of every type stays sorted |
| RateLimitRuns.SecondReadingLeaks | crates/ta-actions/src/ratelimit.rs:70-75 | With two clock readings one tick apart two actions pass a daily limit of one |

## Left out

Contracts stated weaker than a reader may expect:

- ApplyTears.AllOrNothingExactly: the local commit and its journal record are one step that is not torn, because recovery undoes only a recorded commit; a crash between the caller's commit and its record is not covered. It assumes that no initial file sits at a temporary name of the plan (`ApplyTheorems.RolledBackFilesExactly` and `ApplyTheorems.NewFilesLoseNothingExactly` do without), and that a journal record is ASCII exactly when its path is (the begin record aside).
- ApplyTheorems.RecoveryFinishes: assumes one recovery without failures of the file system, git or the status read; with failures the journal is kept and the next recovery starts over, which the safety theorems cover.
- ApplyJournalFile.Store.Recover: one journal at a time; walking the directory of several drafts is not modelled. A failed enqueue (an I/O error) is not modelled, and a path that cannot be written leaves no partial temporary file.
- ApplyJournalFile.ApplyJournal.constructor: failures to create the directory are not modelled; the journal directory's permissions are left out.
- QueueRuns.RunKeepsInv: startup recovery is a step only while no worker is live, as the source demands of its caller.
- CheckpointTheorems.FileIsGenuinePrefix: unforgeability is assumed of the file at hand; a line of the file that does not parse makes the source return an error, which is not modelled.
- OutcomeReplay.NoReplay: needs a skew that is not negative and a steady clock.
- RateLimitRuns.WindowsHold: limits are fixed per type, the state file is always written, and the clock does not go back.
- TaskRuns.InProgressNamesTheWinner: assumes that no task id starts with `claim_` and nobody publishes a task as already in progress.
- TaskLists.DependenciesComeFirst: a claim is one act on the stored list, nothing is published meanwhile, and completed tasks are not put back (`TaskRuns.DoneStaysDone` says exactly when they are). Agents claim from a list of claimable tasks; the claim itself does not look at dependencies.
- StreamRuns.ReadsFirstUnacked: assumes, before the read, no acknowledgement of the id at the cursor where there is no message, which is exactly when the prefix property holds.

Not modelled:

- Real I/O: file permissions, fsync, directory sync, directories in place of files, and errors of reads and writes. An append is durable when it returns; a crash may leave a prefix of it.
- The queue's lock file, its polling and its staleness rule: the lock is mutual exclusion.
- JSON: an injective encoder whose proper prefixes do not parse; payload sizes are given. No record cut short parses with a replacement character behind it.
- Cryptography: SHA-256, HMAC (RFC 2104) and Ed25519 (section 5.1 of RFC 8032) are parameters. Loading, custody and encoding of keys are left out; signature texts that are not ASCII are outside the hex parser's model.
- git: undoing the local commit is an abstract step that needs the earlier head, or finds the head moved and does nothing; a failing `rev-parse` reads as a moved head.
- Policies, connectors and the clock are arbitrary functions; the length cap on stored results and all message texts are left out.
- Machine integers: sequence numbers, attempt counts, cursors and times are unbounded, except for the 64-bit saturation in retry delays and the 64-bit field lengths.
- The chain check's goal ids, which it only copies into its report.
- Reading the list of tasks or entries (`kv_list`), presence records and their refresh.
- NATS transport, plugin subprocesses, the command line, configuration, advisors and pipelines.
- The per-goal counter, the email guard, reversibility tables and single-branch role checks.
