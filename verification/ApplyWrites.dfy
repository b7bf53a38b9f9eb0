/** Applies that nothing disturbs: how the small steps of one write add up, and that every write of a
    plan with safe paths is reached. */
module ApplyWrites {
  import opened Wrappers
  import opened LineFiles
  import opened QueueModel
  import opened ApplyFiles
  import opened ApplyRuns
  import opened ApplySafety
  import opened ApplyTheorems

  predicate At(job: Job, w: World, sub: Sub) {
    w.proc.Writing? && w.proc.sub == sub && w.disk.journal.Some? && w.proc.next < |job.plan|
  }

  function NextRel(job: Job, w: World): string
    requires w.proc.Writing? && w.proc.next < |job.plan|
  {
    Normalize(job.plan[w.proc.next].rel)
  }

  // The prior state of the next path, as saving it records it.
  function NextPrior(job: Job, w: World): Prior
    requires w.proc.Writing? && w.proc.next < |job.plan|
  {
    PriorOf(w.disk.files, NextRel(job, w), w.proc.nextBackup)
  }

  // The next path is safe, not saved before, and its backup is at hand.
  predicate CanSave(job: Job, w: World)
    requires At(job, w, AtTop)
  {
    CheckRel(NextRel(job, w)).Success? && NextRel(job, w) !in w.proc.seen && BackupReady(w.disk, NextPrior(job, w))
  }

  // Nothing stops, disturbs or takes over the apply.
  predicate Calm(steps: seq<Step>) {
    forall s | s in steps ::
      !s.Crash? && !s.Torn? && !s.Abandon? && !s.StartRecovery? && !s.MoveHead? && !s.OtherQueueEvents?
  }

  lemma CalmBoth(a: seq<Step>, b: seq<Step>)
    requires Calm(a) && Calm(b)
    ensures Calm(a + b)
  {
  }

  // ── Single steps ────────────────────────────────────────────────────────────

  predicate Inside(step: Step) { !step.Crash? && !step.OtherQueueEvents? && !step.MoveHead? && !step.Torn? }

  lemma DoWriting(job: Job, w: World, step: Step)
    requires w.proc.Writing? && w.disk.journal.Some? && Inside(step)
    ensures Do(job, w, step) == WritingStep(job, w, step)
  {
    ActIsDo(job, w, step);
    ActWriting(job, w, step);
  }

  lemma CopyDone(job: Job, w: World)
    requires At(job, w, AtTop)
    ensures Resolve(NextRel(job, w)) in w.disk.files ==>
      var content := w.disk.files[Resolve(NextRel(job, w))];
      var w' := Do(job, w, CopyBackup(content));
      && w' == w.(disk := w.disk.(backups := w.disk.backups[w.proc.nextBackup := content]))
      && NextPrior(job, w') == NextPrior(job, w) && BackupReady(w'.disk, NextPrior(job, w))
    ensures Resolve(NextRel(job, w)) !in w.disk.files ==> BackupReady(w.disk, NextPrior(job, w))
  {
    if Resolve(NextRel(job, w)) in w.disk.files {
      DoWriting(job, w, CopyBackup(w.disk.files[Resolve(NextRel(job, w))]));
    }
    hide Do, Act, Resolve, Normalize, NoteStep, MoveStep, Journal;
  }

  lemma SaveDone(job: Job, w: World)
    requires At(job, w, AtTop) && CanSave(job, w)
    ensures Do(job, w, AppendPrior) == w.(disk := Append(job, w.disk, PriorRecord(NextPrior(job, w))),
      proc := Writing(w.proc.next, w.proc.seen + {NextRel(job, w)},
                      w.proc.nextBackup + (if NextPrior(job, w).existed then 1 else 0), PriorSaved))
  {
    DoWriting(job, w, AppendPrior);
    hide Do, Act, Append, Resolve, Normalize, CheckRel, BackupReady, NoteStep, MoveStep, Journal;
  }

  lemma SeenDone(job: Job, w: World)
    requires At(job, w, AtTop) && CheckRel(NextRel(job, w)).Success? && NextRel(job, w) in w.proc.seen
    ensures Do(job, w, AppendPrior) == w.(proc := Writing(w.proc.next, w.proc.seen, w.proc.nextBackup, PriorSaved))
  {
    DoWriting(job, w, AppendPrior);
    hide Do, Act, Append, Resolve, Normalize, CheckRel, BackupReady, NoteStep, MoveStep, Journal, PriorOf;
  }

  lemma StageDone(job: Job, w: World)
    requires At(job, w, PriorSaved)
    ensures
      var staged := w.disk.files[Staged(Resolve(NextRel(job, w))) := job.plan[w.proc.next].content];
      Do(job, w, FinishCopy) == w.(disk := w.disk.(files := staged), proc := w.proc.(sub := StagedFully))
  {
    DoWriting(job, w, FinishCopy);
    hide Do, Act, Append, Resolve, Normalize, Staged, NoteStep, SaveStep, Journal;
  }

  /** Power can be lost inside any copy: whatever is at the temporary name then, everything else is as it was. */
  lemma CopyCanBeTorn(job: Job, w: World, content: string)
    requires At(job, w, PriorSaved)
    ensures RunFrom(job, w, [CopyStaged(content)] + ([Crash] + []))
      == w.(disk := w.disk.(files := w.disk.files[Staged(Resolve(NextRel(job, w))) := content]), proc := Dead)
  {
    DoWriting(job, w, CopyStaged(content));
    CrashIs(job, Do(job, w, CopyStaged(content)));
    TwoSteps(job, w, CopyStaged(content), Crash);
    hide Do, Act, Append, Resolve, Normalize, Staged, NoteStep, SaveStep, Journal, RunFrom;
  }

  /** The same when restoring; and a prior that cannot be restored is passed over: its files stay as they are,
      and the roll-back is not complete. */
  lemma RestoreCanFail(job: Job, w: World, content: string, ok: bool)
    requires w.proc.Restoring? && 0 < w.proc.left <= |Journal(job, w.disk).priors|
    ensures
      var prior := Journal(job, w.disk).priors[w.proc.left - 1];
      var temp := Staged(Resolve(prior.rel));
      && (prior.existed ==> Do(job, w, CopyRestored(content)) == w.(disk := w.disk.(files := w.disk.files[temp := content])))
      && (!ok || !Restorable(prior, w.disk.backups) ==>
            Do(job, w, RestoreNext(ok)) == w.(proc := w.proc.(left := w.proc.left - 1, failed := true)))
  {
    hide RecoveryStart, WritingStep, FinishingStep, UncommittingStep, Journal, Resolve, Staged, Restorable;
  }

  lemma RenameDone(job: Job, w: World, files: Files)
    requires At(job, w, StagedFully)
    requires w.disk.files == files[Staged(Resolve(NextRel(job, w))) := job.plan[w.proc.next].content]
    ensures
      var put := Put(files, Resolve(NextRel(job, w)), job.plan[w.proc.next].content);
      Do(job, w, RenameStaged) == w.(disk := w.disk.(files := put), proc := w.proc.(sub := Moved))
  {
    var path, content := Resolve(NextRel(job, w)), job.plan[w.proc.next].content;
    PutOverStaged(files, path, content);
    DoWriting(job, w, RenameStaged);
    hide Do, Act, Append, Resolve, Normalize, Staged, Put, NoteStep, SaveStep, Journal;
  }

  lemma PutOverStaged(files: Files, path: Path, content: string)
    ensures Put(files[Staged(path) := content], path, content) == Put(files, path, content)
  {
  }

  lemma MovedDone(job: Job, w: World)
    requires At(job, w, Moved)
    ensures Do(job, w, AppendMoved)
      == w.(disk := Append(job, w.disk, FileMovedRecord(NextRel(job, w))), proc := w.proc.(next := w.proc.next + 1, sub := AtTop))
  {
    DoWriting(job, w, AppendMoved);
    hide Do, Act, Append, Resolve, Normalize, Staged, Put, NoteStep, SaveStep, Journal;
  }

  // ── One whole write ─────────────────────────────────────────────────────────

  // Nothing but files, journal, backups and process differ.
  predicate SameElsewhere(w: World, w': World) {
    w' == w.(disk := w.disk.(files := w'.disk.files, journal := w'.disk.journal, backups := w'.disk.backups),
             proc := w'.proc)
  }

  lemma TwoSteps(job: Job, w: World, a: Step, b: Step)
    ensures RunFrom(job, w, [a] + ([b] + [])) == Do(job, Do(job, w, a), b)
  {
    TwoMore(job, w, a, b, []);
    NoMore(job, Do(job, Do(job, w, a), b));
  }

  lemma OneStep(job: Job, w: World, a: Step)
    ensures RunFrom(job, w, [a] + []) == Do(job, w, a)
  {
    OneMore(job, w, a, []);
    NoMore(job, Do(job, w, a));
  }

  // The steps before a prior record, so that it can be written.
  lemma ToSavable(job: Job, w: World) returns (steps: seq<Step>)
    requires At(job, w, AtTop) && CheckRel(NextRel(job, w)).Success? && NextRel(job, w) !in w.proc.seen
    ensures Calm(steps)
    ensures
      var w' := RunFrom(job, w, steps);
      && SameElsewhere(w, w') && w'.proc == w.proc && w'.disk.files == w.disk.files && w'.disk.journal == w.disk.journal
      && At(job, w', AtTop) && CanSave(job, w') && NextRel(job, w') == NextRel(job, w)
  {
    CopyDone(job, w);
    hide Do, Resolve, Normalize, CheckRel, BackupReady, PriorOf, RunFrom;
    if Resolve(NextRel(job, w)) in w.disk.files {
      var copy := CopyBackup(w.disk.files[Resolve(NextRel(job, w))]);
      OneStep(job, w, copy);
      steps := [copy] + [];
    } else {
      NoMore(job, w);
      steps := [];
    }
  }

  lemma ToSaved(job: Job, w: World) returns (steps: seq<Step>)
    requires At(job, w, AtTop) && CheckRel(NextRel(job, w)).Success?
    ensures Calm(steps)
    ensures
      var w' := RunFrom(job, w, steps);
      && SameElsewhere(w, w') && At(job, w', PriorSaved) && w'.proc.next == w.proc.next
  {
    hide Do, Resolve, Normalize, CheckRel, BackupReady, PriorOf, RunFrom, LineBytes, CanSave;
    if NextRel(job, w) in w.proc.seen {
      SeenDone(job, w);
      OneStep(job, w, AppendPrior);
      steps := [AppendPrior] + [];
    } else {
      var before := ToSavable(job, w);
      var w1 := RunFrom(job, w, before);
      SaveDone(job, w1);
      OneStep(job, w1, AppendPrior);
      RunFromConcat(job, w, before, [AppendPrior] + []);
      CalmBoth(before, [AppendPrior] + []);
      steps := before + ([AppendPrior] + []);
    }
  }

  lemma {:induction false} RunFromConcat(job: Job, w: World, a: seq<Step>, b: seq<Step>)
    ensures RunFrom(job, w, a + b) == RunFrom(job, RunFrom(job, w, a), b)
    decreases |a|
  {
    hide *;
    if a == [] {
      NoMore(job, w);
      assert a + b == b;
    } else {
      RunFirst(job, w, a);
      RunFirst(job, w, a + b);
      assert (a + b)[0] == a[0] && (a + b)[1..] == a[1..] + b;
      RunFromConcat(job, Do(job, w, a[0]), a[1..], b);
    }
  }

  lemma ToMoved(job: Job, w: World) returns (steps: seq<Step>)
    requires At(job, w, PriorSaved)
    ensures Calm(steps)
    ensures
      var w' := RunFrom(job, w, steps);
      SameElsewhere(w, w') && At(job, w', Moved) && w'.proc.next == w.proc.next
  {
    StageDone(job, w);
    hide Do, Resolve, Normalize, Staged, Put, RunFrom;
    RenameDone(job, Do(job, w, FinishCopy), w.disk.files);
    TwoSteps(job, w, FinishCopy, RenameStaged);
    steps := [FinishCopy] + ([RenameStaged] + []);
  }

  lemma ToTop(job: Job, w: World) returns (steps: seq<Step>)
    requires At(job, w, Moved)
    ensures Calm(steps)
    ensures
      var w' := RunFrom(job, w, steps);
      && SameElsewhere(w, w') && w'.proc.Writing? && w'.proc.sub.AtTop? && w'.proc.next == w.proc.next + 1
      && w'.disk.journal.Some?
  {
    MovedDone(job, w);
    hide Do, Normalize, RunFrom, LineBytes;
    OneStep(job, w, AppendMoved);
    steps := [AppendMoved] + [];
  }

  // ── Reaching every write ────────────────────────────────────────────────────

  // The apply itself is all that has happened.
  predicate Undisturbed(job: Job, w: World) {
    && !w.disk.applied && w.disk.committed.None? && !w.disk.headMoved && w.disk.queue == job.queue0
    && w.rolled.None? && !w.abandoned && !w.spared && !w.lost
  }

  lemma StillUndisturbed(job: Job, w: World, w': World)
    requires Undisturbed(job, w) && SameElsewhere(w, w')
    ensures Undisturbed(job, w')
  {
  }

  predicate Ready(job: Job, w: World, k: nat) {
    w.proc.Writing? && w.proc.sub.AtTop? && w.proc.next == k && w.disk.journal.Some? && Undisturbed(job, w)
  }

  lemma FirstTwoSteps(job: Job)
    ensures Ready(job, RunFrom(job, Init(job), [MakeDirectory] + ([AppendBegin] + [])), 0)
  {
    TwoSteps(job, Init(job), MakeDirectory, AppendBegin);
    hide RunFrom, LineBytes;
  }

  lemma ReadyIsAt(job: Job, w: World, k: nat)
    requires Ready(job, w, k) && k < |job.plan|
    ensures At(job, w, AtTop) && Undisturbed(job, w) && w.proc.next == k
  {
  }

  lemma SafeAt(job: Job, w: World, k: nat)
    requires At(job, w, AtTop) && w.proc.next == k && SafeTo(job, k + 1)
    ensures CheckRel(NextRel(job, w)).Success?
  {
    hide CheckRel;
  }

  lemma ReadyAgain(job: Job, w: World, w': World, k: nat)
    requires Undisturbed(job, w) && SameElsewhere(w, w') && w'.disk.journal.Some?
    requires w'.proc.Writing? && w'.proc.sub.AtTop? && w'.proc.next == k
    ensures Ready(job, w', k)
  {
  }

  lemma SafeBefore(job: Job, k: nat)
    requires k < |job.plan| && SafeTo(job, k + 1)
    ensures SafeTo(job, k)
  {
    hide CheckRel;
  }

  lemma AfterNone(job: Job)
    ensures After(job, []) == Init(job)
  {
  }

  /** Every write of a plan is reached when the paths before it are safe. */
  lemma {:induction false} ReachWrite(job: Job, k: nat) returns (steps: seq<Step>)
    requires k <= |job.plan| && SafeTo(job, k)
    ensures Calm(steps)
    ensures Ready(job, After(job, steps), k)
  {
    hide *;
    if k == 0 {
      FirstTwoSteps(job);
      FirstIsCalm();
      AfterNone(job);
      RunFromAfter(job, [], [MakeDirectory] + ([AppendBegin] + []));
      steps := [] + ([MakeDirectory] + ([AppendBegin] + []));
    } else {
      SafeBefore(job, k - 1);
      var before := ReachWrite(job, k - 1);
      var more := WriteWhole(job, After(job, before), k - 1);
      RunFromAfter(job, before, more);
      CalmBoth(before, more);
      steps := before + more;
    }
  }

  lemma FirstIsCalm()
    ensures Calm([] + ([MakeDirectory] + ([AppendBegin] + [])))
  {
  }

  // One whole write.
  lemma WriteWhole(job: Job, w: World, k: nat) returns (steps: seq<Step>)
    requires k < |job.plan| && SafeTo(job, k + 1) && Ready(job, w, k)
    ensures Calm(steps)
    ensures Ready(job, RunFrom(job, w, steps), k + 1)
  {
    hide *;
    ReadyIsAt(job, w, k);
    SafeAt(job, w, k);
    var a := ToSaved(job, w);
    var w1 := RunFrom(job, w, a);
    StillUndisturbed(job, w, w1);
    var b := ToMoved(job, w1);
    var w2 := RunFrom(job, w1, b);
    StillUndisturbed(job, w1, w2);
    var c := ToTop(job, w2);
    RunFromConcat(job, w, a, b);
    RunFromConcat(job, w, a + b, c);
    CalmBoth(a, b);
    CalmBoth(a + b, c);
    ReadyAgain(job, w2, RunFrom(job, w2, c), k + 1);
    steps := a + b + c;
  }

  /** The move of a write is reached too: the new content in place, its record not yet written. */
  lemma ReachMoved(job: Job, k: nat) returns (steps: seq<Step>)
    requires k < |job.plan| && SafeTo(job, k + 1)
    ensures
      var w := After(job, steps);
      At(job, w, Moved) && w.proc.next == k && Undisturbed(job, w)
  {
    hide *;
    SafeBefore(job, k);
    var before := ReachWrite(job, k);
    var w := After(job, before);
    ReadyIsAt(job, w, k);
    SafeAt(job, w, k);
    var a := ToSaved(job, w);
    var w1 := RunFrom(job, w, a);
    StillUndisturbed(job, w, w1);
    var b := ToMoved(job, w1);
    StillUndisturbed(job, w1, RunFrom(job, w1, b));
    RunFromConcat(job, w, a, b);
    RunFromAfter(job, before, a + b);
    steps := before + (a + b);
  }

  // ── To the end ──────────────────────────────────────────────────────────────

  // What an apply does once its draft is applied.
  function StageStep(job: Job, at: int, stage: nat): Step {
    if stage == 0 then AppendMarked
    else if stage == 1 then EnqueueActions(at, |job.actions|)
    else if stage == 2 then AppendEnqueued
    else CloseJournal
  }

  lemma FinishingDo(job: Job, w: World, at: int, stage: nat)
    requires w.proc == Finishing(stage) && stage <= 3 && w.disk.journal.Some?
    ensures Do(job, w, StageStep(job, at, stage)) == FinishingStep(job, w, StageStep(job, at, stage))
  {
    ActIsDo(job, w, StageStep(job, at, stage));
    hide FinishingStep, WritingStep, RestoringStep, Journal;
  }

  lemma FinishingMoves(job: Job, w: World, at: int, stage: nat)
    requires w.proc == Finishing(stage) && stage <= 3 && w.disk.journal.Some? && w.disk.applied
    requires Journal(job, w.disk).actions == job.actions
    ensures
      var w' := FinishingStep(job, w, StageStep(job, at, stage));
      && w'.disk.applied && w'.lost == w.lost
      && (if stage < 3 then w'.proc == Finishing(stage + 1) && w'.disk.journal.Some? else Settled(w'))
  {
    hide Journal, LineBytes;
    if stage == 1 { QueueingIs(job, w, at, |job.actions|); }
    hide QueueActions;
  }

  lemma QueueingIs(job: Job, w: World, at: int, durable: nat)
    ensures var w' := QueueActions(job, w, at, durable); w' == w.(disk := w.disk.(queue := w'.disk.queue))
  {
    hide Journal;
  }

  lemma FinishFrom(job: Job, w: World, at: int, stage: nat) returns (steps: seq<Step>)
    requires Inv(job, w) && w.proc == Finishing(stage) && stage <= 3 && w.disk.journal.Some?
    ensures Calm(steps)
    ensures var w' := RunFrom(job, w, steps); Inv(job, w') && Settled(w') && w'.disk.applied && w'.lost == w.lost
    decreases 3 - stage
  {
    hide *;
    var step := StageStep(job, at, stage);
    var w1 := FinishingStep(job, w, step);
    FinishingFacts(job, w);
    FinishingDo(job, w, at, stage);
    FinishingStepKeepsInv(job, w, step);
    FinishingMoves(job, w, at, stage);
    StageIsCalm(job, at, stage);
    if stage == 3 {
      OneStep(job, w, step);
      steps := [step] + [];
    } else {
      var rest := FinishFrom(job, w1, at, stage + 1);
      OneMore(job, w, step, rest);
      CalmBoth([step], rest);
      steps := [step] + rest;
    }
  }

  lemma StageIsCalm(job: Job, at: int, stage: nat)
    ensures Calm([StageStep(job, at, stage)]) && Calm([StageStep(job, at, stage)] + [])
  {
  }

  lemma FlipDone(job: Job, w: World)
    requires Ready(job, w, |job.plan|)
    ensures Do(job, w, FlipStatus) == w.(disk := w.disk.(applied := true), proc := Finishing(0))
    ensures !w.lost && Calm([FlipStatus])
  {
    DoWriting(job, w, FlipStatus);
    hide Do, Act, SaveStep, MoveStep, Journal;
  }

  lemma AppliedEnd(job: Job, w: World)
    requires Inv(job, w) && Settled(w) && w.disk.applied
    ensures w.disk.files == NewFiles(job) && HandedCount(job, w.disk.queue) == AllHanded(job)
  {
    hide QueueOk, HandedCount, NewFiles, CodecOk, StrictRecords, ReadState, AllHanded;
  }

  /** An apply of a plan with safe paths that nothing stops comes to its end by itself: every file new,
      every action queued, no journal left. */
  lemma ApplyCompletes(job: Job, at: int) returns (steps: seq<Step>)
    requires GoodJob(job) && SafeTo(job, |job.plan|)
    ensures Calm(steps)
    ensures
      var w := After(job, steps);
      && Settled(w) && !w.lost && w.disk.applied
      && w.disk.files == NewFiles(job) && HandedCount(job, w.disk.queue) == AllHanded(job)
  {
    hide *;
    var before := ReachWrite(job, |job.plan|);
    var w := After(job, before);
    RunKeepsReachable(job, before);
    NotLost(job, w);
    ReadyIs(job, w, |job.plan|);
    FlipDone(job, w);
    FlipKeepsInv(job, w);
    var w1 := Do(job, w, FlipStatus);
    var rest := FinishFrom(job, w1, at, 0);
    OneMore(job, w, FlipStatus, rest);
    RunFromAfter(job, before, [FlipStatus] + rest);
    CalmBoth([FlipStatus], rest);
    CalmBoth(before, [FlipStatus] + rest);
    steps := before + ([FlipStatus] + rest);
    AppliedEnd(job, After(job, steps));
  }

  lemma ReadyIs(job: Job, w: World, k: nat)
    requires Ready(job, w, k)
    ensures w.proc.Writing? && w.proc.sub.AtTop? && w.proc.next == k && w.disk.journal.Some? && !w.lost
  {
  }

  // ── After the last write ────────────────────────────────────────────────────

  lemma CommitDone(job: Job, w: World, commit: string)
    requires Ready(job, w, |job.plan|)
    ensures Do(job, w, CommitLocally(commit))
      == w.(disk := Append(job, w.disk, LocalCommittedRecord(commit)).(committed := Some(commit)))
  {
    DoWriting(job, w, CommitLocally(commit));
    hide Do, Act, LineBytes, SaveStep, MoveStep, Journal;
  }

  /** A plan with safe paths comes to its local commit. */
  lemma ReachCommit(job: Job, commit: string) returns (steps: seq<Step>)
    requires GoodJob(job) && SafeTo(job, |job.plan|)
    ensures
      var w := After(job, steps);
      && Inv(job, w) && !w.lost && !w.disk.applied && !w.disk.headMoved && !w.spared && !w.abandoned
      && w.proc.Writing? && w.disk.committed == Some(commit)
  {
    hide *;
    var before := ReachWrite(job, |job.plan|);
    var w := After(job, before);
    CommitDone(job, w, commit);
    OneStep(job, w, CommitLocally(commit));
    RunFromAfter(job, before, [CommitLocally(commit)] + []);
    steps := before + ([CommitLocally(commit)] + []);
    ReadyFields(job, w, |job.plan|);
    CommittedFields(job, w, commit);
    RunKeepsReachable(job, steps);
    NotLost(job, After(job, steps));
  }

  lemma ReadyFields(job: Job, w: World, k: nat)
    requires Ready(job, w, k)
    ensures w.proc.Writing? && w.disk.journal.Some? && !w.lost && !w.disk.applied && !w.disk.headMoved
    ensures !w.spared && !w.abandoned
  {
  }

  lemma CommittedFields(job: Job, w: World, commit: string)
    requires w.disk.journal.Some?
    ensures
      var w' := w.(disk := Append(job, w.disk, LocalCommittedRecord(commit)).(committed := Some(commit)));
      && w'.lost == w.lost && w'.disk.applied == w.disk.applied && w'.disk.headMoved == w.disk.headMoved
      && w'.spared == w.spared && w'.abandoned == w.abandoned && w'.proc == w.proc && w'.disk.committed == Some(commit)
  {
  }

  lemma CommitIsKnown(job: Job, w: World)
    requires Inv(job, w) && w.proc.Writing? && w.disk.committed.Some?
    ensures Journal(job, w.disk).localCommit.Some? && Journal(job, w.disk).begun && w.disk.journal.Some?
    ensures Journal(job, w.disk).priorHead == job.priorHead
  {
    hide CodecOk, QueueOk, StrictRecords, ReadState, Undoable, FilesAfter, HandedCount, FromPlan, HasPrior, InPlace, Checked;
  }

  /** Reached from the start: a plan with safe paths and no earlier head, committed locally and then cut
      off, is a state no recovery settles while the head stays. */
  lemma NoWayBackReached(job: Job, commit: string) returns (steps: seq<Step>)
    requires GoodJob(job) && SafeTo(job, |job.plan|) && job.priorHead.None?
    ensures NoWayBack(job, After(job, steps))
    ensures forall more: seq<Step> | HeadStays(more) :: !Settled(After(job, steps + more))
  {
    hide *;
    var before := ReachCommit(job, commit);
    var w := After(job, before);
    CommitIsKnown(job, w);
    CrashIs(job, w);
    CrashKeepsInv(job, w);
    OneStep(job, w, Crash);
    RunFromAfter(job, before, [Crash] + []);
    steps := before + ([Crash] + []);
    NoWayBackIs(job, w);
    forall more: seq<Step> | HeadStays(more) ensures !Settled(After(job, steps + more)) {
      RunFromAfter(job, steps, more);
      NoWayBackIsForever(job, After(job, steps), more);
    }
  }

  lemma NoWayBackIs(job: Job, w: World)
    requires !w.disk.applied && Journal(job, w.disk).begun && Journal(job, w.disk).localCommit.Some?
    requires w.disk.committed.Some? && !w.disk.headMoved && Journal(job, w.disk).priorHead.None?
    ensures NoWayBack(job, w)
  {
    hide Journal;
  }

  lemma AbandonIs(job: Job, w: World)
    requires w.proc.Writing? && w.disk.journal.Some?
    ensures Do(job, w, Abandon) == w.(proc := Restoring(|Journal(job, w.disk).priors|, false, true))
  {
    DoWriting(job, w, Abandon);
    hide Do, Act, SaveStep, MoveStep, Journal;
  }

  /** Giving up in-process after a local commit settles the apply with the files restored and leaves the
      commit standing: undoing it is left to the caller. */
  lemma AbandonLeavesCommit(job: Job, commit: string) returns (steps: seq<Step>)
    requires GoodJob(job) && SafeTo(job, |job.plan|)
    ensures
      var w := After(job, steps);
      Settled(w) && !w.lost && !w.disk.applied && w.abandoned && w.disk.committed == Some(commit)
  {
    hide *;
    var before := ReachCommit(job, commit);
    var w := After(job, before);
    CommitIsKnown(job, w);
    AbandonIs(job, w);
    AbandonKeepsInv(job, w);
    var w1 := Do(job, w, Abandon);
    var rest := RestoreToEnd(job, w1);
    OneMore(job, w, Abandon, rest);
    RunFromAfter(job, before, [Abandon] + rest);
    steps := before + ([Abandon] + rest);
  }

  lemma SparedIs(job: Job, w: World)
    requires w.proc.Uncommitting? && w.disk.headMoved && w.disk.committed.Some?
    ensures UncommittingStep(job, w, true)
      == w.(proc := Restoring(|Journal(job, w.disk).priors|, false, false), spared := true)
  {
    hide Journal;
  }

  lemma StartsUncommitting(job: Job, w: World)
    requires w.proc.Dead? && w.disk.journal.Some? && !w.disk.applied
    requires Journal(job, w.disk).begun && Journal(job, w.disk).localCommit.Some?
    ensures RecoveryStart(job, w, true) == w.(proc := Uncommitting)
  {
    hide Journal;
  }

  lemma MoveHeadIs(job: Job, w: World, away: bool)
    ensures Do(job, w, MoveHead(away)) == w.(disk := w.disk.(headMoved := away))
    ensures Journal(job, w.disk.(headMoved := away)) == Journal(job, w.disk)
  {
    hide WritingStep, FinishingStep, RestoringStep, UncommittingStep;
  }

  /** So does recovery when the repository's head has moved off the commit before it. */
  lemma MovedHeadLeavesCommit(job: Job, commit: string) returns (steps: seq<Step>)
    requires GoodJob(job) && SafeTo(job, |job.plan|)
    ensures
      var w := After(job, steps);
      Settled(w) && !w.lost && !w.disk.applied && !w.abandoned && w.disk.committed == Some(commit)
  {
    hide *;
    var before := ReachCommit(job, commit);
    var w := After(job, before);
    CommitIsKnown(job, w);
    var w1, w2 := Do(job, w, Crash), Do(job, Do(job, w, Crash), MoveHead(true));
    CrashIs(job, w);
    CrashKeepsInv(job, w);
    MoveHeadIs(job, w1, true);
    MoveHeadKeepsInv(job, w1, true);
    RecoveryStarts(job, w2);
    StartsUncommitting(job, w2);
    RecoveryStartKeepsInv(job, w2, true);
    var w3 := Do(job, w2, StartRecovery(true));
    UndoStarts(job, w3);
    SparedIs(job, w3);
    UncommittingKeepsInv(job, w3, true);
    var rest := RestoreToEnd(job, Do(job, w3, UndoCommit(true)));
    TwoMore(job, w2, StartRecovery(true), UndoCommit(true), rest);
    var more := [StartRecovery(true)] + ([UndoCommit(true)] + rest);
    TwoMore(job, w, Crash, MoveHead(true), more);
    RunFromAfter(job, before, [Crash] + ([MoveHead(true)] + more));
    steps := before + ([Crash] + ([MoveHead(true)] + more));
  }
}
