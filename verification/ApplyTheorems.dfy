/** What an apply guarantees once it, or a recovery of it, has finished; and that it can finish. */
module ApplyTheorems {
  import opened Wrappers
  import opened LineFiles
  import opened QueueModel
  import opened QueueHandOff
  import opened ApplyFiles
  import opened ApplyRuns
  import opened ApplySafety

  // No process is at work and no journal is left to recover.
  predicate Settled(w: World) { w.proc.Dead? && w.disk.journal.None? }

  // No initial file sits at the temporary name of a file the job writes.
  predicate TemporaryFree(job: Job) {
    forall k | 0 <= k < |job.plan| :: Staged(Resolve(job.plan[k].rel)) !in job.initial
  }

  lemma {:induction false} TemporaryIsStaged(priors: seq<Prior>, backups: Backups, x: Path) returns (i: nat)
    requires AllRestorable(priors, backups) && TouchOf(priors, backups, x) == Temporary
    ensures i < |priors| && Staged(Resolve(priors[i].rel)) == x
    decreases |priors|
  {
    hide Staged, Resolve, Restorable, SavedContent;
    var front := priors[..|priors| - 1];
    if TouchOf(front, backups, x) == Temporary {
      i := TemporaryIsStaged(front, backups, x);
    } else {
      i := |priors| - 1;
    }
  }

  lemma TemporaryFreeMeansNoClash(job: Job, priors: seq<Prior>, backups: Backups)
    requires TemporaryFree(job) && AllRestorable(priors, backups) && FromPlan(job, priors)
    ensures NoTemporaryClash(job.initial, priors, backups)
  {
    forall x | x in job.initial ensures TouchOf(priors, backups, x) != Temporary {
      if TouchOf(priors, backups, x) == Temporary {
        var i := TemporaryIsStaged(priors, backups, x);
        var k :| 0 <= k < |job.plan| && priors[i].rel == Normalize(job.plan[k].rel);
        NormalizeKeepsParts(job.plan[k].rel);
      }
    }
  }

  /** The two ends an apply may come to: applied, with every file new and every action queued exactly
      once in order; or not applied, with every file as before, nothing queued, and no local commit
      left, unless the caller gave up itself or the repository's head had moved off the commit. */
  ghost predicate Atomic(job: Job, w: World) {
    var d := w.disk;
    if d.applied then
      d.files == NewFiles(job) && HandedOff(Replay(d.queue), job.actions, |Distinct(job.actions)|)
    else
      && d.files == job.initial && HandedOff(Replay(d.queue), job.actions, 0)
      && (d.committed.None? || w.abandoned || w.spared)
  }

  lemma SettledUnlost(job: Job, w: World)
    requires TemporaryFree(job) && Inv(job, w) && Settled(w)
    ensures Atomic(job, w)
  {
    if !w.disk.applied && w.rolled.Some? {
      var Rolled(priors, backups, commit) := w.rolled.value;
      TemporaryFreeMeansNoClash(job, priors, backups);
      RolledBackExactly(job.initial, priors, backups);
    }
  }

  /** Crash atomicity. Whatever happened, once no journal is left one of the two ends is reached, and
      the durable status alone tells which, if and only if no torn record cost the undo log. */
  lemma AllOrNothing(job: Job, steps: seq<Step>)
    requires GoodJob(job) && TemporaryFree(job) && Settled(After(job, steps))
    ensures Atomic(job, After(job, steps)) <==> !After(job, steps).lost
  {
    RunKeepsReachable(job, steps);
    var w := After(job, steps);
    if !w.lost { SettledUnlost(job, w); }
  }

  /** A completed roll-back leaves the local commit exactly when there was one and either the caller
      gave up itself or recovery found the repository's head moved off it. */
  lemma CommitLeftExactly(job: Job, steps: seq<Step>)
    requires GoodJob(job) && Settled(After(job, steps)) && !After(job, steps).disk.applied
    requires !After(job, steps).lost
    ensures
      var w := After(job, steps);
      w.disk.committed.Some? <==> w.rolled.Some? && w.rolled.value.commit.Some? && (w.abandoned || w.spared)
  {
    RunKeepsReachable(job, steps);
  }

  lemma RolledBackExactly(initial: Files, priors: seq<Prior>, backups: Backups)
    requires AllRestorable(priors, backups)
    ensures RolledBack(initial, priors, backups) == initial <==> NoTemporaryClash(initial, priors, backups)
  {
    var r := RolledBack(initial, priors, backups);
    if r == initial {
      forall x | x in initial ensures TouchOf(priors, backups, x) != Temporary { assert x in r; }
    }
  }

  /** Without the proviso about temporary names, the files are as before exactly when no initial
      file sat at a temporary name used before the file itself was saved. */
  lemma RolledBackFilesExactly(job: Job, steps: seq<Step>)
    requires GoodJob(job) && Settled(After(job, steps)) && !After(job, steps).disk.applied
    requires After(job, steps).rolled.Some? && !After(job, steps).lost
    ensures
      var w := After(job, steps);
      var Rolled(priors, backups, _) := w.rolled.value;
      && AllRestorable(priors, backups)
      && w.disk.files == RolledBack(job.initial, priors, backups)
      && (w.disk.files == job.initial <==> NoTemporaryClash(job.initial, priors, backups))
  {
    RunKeepsReachable(job, steps);
    var Rolled(priors, backups, _) := After(job, steps).rolled.value;
    RolledBackExactly(job.initial, priors, backups);
  }

  /** Even before anything is settled, and whatever was torn: until the flip nothing is ever queued,
      and from the flip on no file ever changes again. */
  lemma StatusDecidesThroughout(job: Job, steps: seq<Step>)
    requires GoodJob(job)
    ensures
      var d := After(job, steps).disk;
      && (!d.applied ==> HandedOff(Replay(d.queue), job.actions, 0))
      && (d.applied ==> d.files == NewFiles(job))
  {
    RunKeepsReachable(job, steps);
  }

  // ── What the new files are ──────────────────────────────────────────────────

  // The content the first `n` writes of a plan leave at a path, if any of them writes it.
  function LastWrite(plan: seq<Write>, n: nat, x: Path): Option<string>
    requires n <= |plan|
  {
    if n == 0 then None
    else if Resolve(plan[n - 1].rel) == x then Some(plan[n - 1].content)
    else LastWrite(plan, n - 1, x)
  }

  datatype Effect = Kept | Written(content: string) | Removed

  // The last thing the first `n` writes do to a path: each also removes its temporary name.
  function LastEffect(plan: seq<Write>, n: nat, x: Path): Effect
    requires n <= |plan|
  {
    if n == 0 then Kept
    else if Resolve(plan[n - 1].rel) == x then Written(plan[n - 1].content)
    else if Staged(Resolve(plan[n - 1].rel)) == x then Removed
    else LastEffect(plan, n - 1, x)
  }

  lemma PutLooks(files: Files, p: Path, content: string, x: Path)
    ensures Look(Put(files, p, content), x) ==
      if x == p then Some(content) else if x == Staged(p) then None else Look(files, x)
  {
  }

  lemma {:induction false} FilesAfterLook(initial: Files, plan: seq<Write>, n: nat, x: Path)
    requires n <= |plan|
    ensures Look(FilesAfter(initial, plan, n), x) ==
      match LastEffect(plan, n, x)
      case Kept => Look(initial, x)
      case Written(content) => Some(content)
      case Removed => None
  {
    if n > 0 {
      PutLooks(FilesAfter(initial, plan, n - 1), Resolve(plan[n - 1].rel), plan[n - 1].content, x);
      hide Resolve, Staged, Put;
      FilesAfterLook(initial, plan, n - 1, x);
    }
  }

  lemma {:induction false} EffectsAndWrites(plan: seq<Write>, n: nat, x: Path) returns (k: nat)
    requires n <= |plan|
    ensures LastEffect(plan, n, x).Written? ==> LastWrite(plan, n, x) == Some(LastEffect(plan, n, x).content)
    ensures LastEffect(plan, n, x).Kept? ==> LastWrite(plan, n, x) == None
    ensures LastEffect(plan, n, x).Removed? ==> k < n && Staged(Resolve(plan[k].rel)) == x
  {
    hide Resolve, Staged;
    k := 0;
    if n > 0 {
      k := EffectsAndWrites(plan, n - 1, x);
      if LastEffect(plan, n, x).Removed? && Staged(Resolve(plan[n - 1].rel)) == x { k := n - 1; }
    }
  }

  // What an apply is meant to leave at a path.
  function Intended(job: Job, x: Path): Option<string> {
    var last := LastWrite(job.plan, |job.plan|, x);
    if last.Some? then last else Look(job.initial, x)
  }

  // No file, initial or written, sits at a temporary name that is last used as one.
  predicate NothingOverwritten(job: Job) {
    forall k | 0 <= k < |job.plan| ::
      var x := Staged(Resolve(job.plan[k].rel));
      LastEffect(job.plan, |job.plan|, x).Removed? ==> Intended(job, x) == None
  }

  /** The new files are the initial ones with each written path at its last content, nothing else
      added, changed or lost, exactly when no file sits at a temporary name that is used after it. */
  lemma NewFilesLoseNothingExactly(job: Job)
    ensures (forall x: Path :: Look(NewFiles(job), x) == Intended(job, x)) <==> NothingOverwritten(job)
  {
    hide Resolve, Staged, FilesAfter, LastEffect, LastWrite;
    if NothingOverwritten(job) {
      forall x: Path ensures Look(NewFiles(job), x) == Intended(job, x) {
        FilesAfterLook(job.initial, job.plan, |job.plan|, x);
        var k := EffectsAndWrites(job.plan, |job.plan|, x);
      }
    }
    if forall x: Path :: Look(NewFiles(job), x) == Intended(job, x) {
      forall k | 0 <= k < |job.plan|
        ensures var x := Staged(Resolve(job.plan[k].rel));
          LastEffect(job.plan, |job.plan|, x).Removed? ==> Intended(job, x) == None
      {
        var x := Staged(Resolve(job.plan[k].rel));
        assert Look(NewFiles(job), x) == Intended(job, x);
        FilesAfterLook(job.initial, job.plan, |job.plan|, x);
      }
    }
  }

  // No path of the plan is the temporary name of another.
  predicate TemporariesApart(plan: seq<Write>) {
    forall k, l | 0 <= k < |plan| && 0 <= l < |plan| :: Staged(Resolve(plan[k].rel)) != Resolve(plan[l].rel)
  }

  /** So it is whenever temporary names are apart from all other files. */
  lemma NewFilesAreTheWrites(job: Job, x: Path)
    requires TemporaryFree(job) && TemporariesApart(job.plan)
    ensures Look(NewFiles(job), x) == Intended(job, x)
  {
    forall k | 0 <= k < |job.plan| ensures Intended(job, Staged(Resolve(job.plan[k].rel))) == None {
      NeverWritten(job, k, |job.plan|);
    }
    hide Resolve, Staged, FilesAfter, LastEffect, LastWrite;
    NewFilesLoseNothingExactly(job);
  }

  lemma {:induction false} NeverWritten(job: Job, k: nat, n: nat)
    requires TemporariesApart(job.plan) && k < |job.plan| && n <= |job.plan|
    ensures LastWrite(job.plan, n, Staged(Resolve(job.plan[k].rel))) == None
  {
    hide Resolve, Staged;
    if n > 0 { NeverWritten(job, k, n - 1); }
  }

  // ── Recovery can finish ─────────────────────────────────────────────────────

  function RunFrom(job: Job, w: World, steps: seq<Step>): World
    decreases |steps|
  {
    if steps == [] then w else RunFrom(job, Do(job, w, steps[0]), steps[1..])
  }

  lemma {:induction false} RunFromAfter(job: Job, a: seq<Step>, b: seq<Step>)
    ensures RunFrom(job, After(job, a), b) == After(job, a + b)
    decreases |b|
  {
    if b == [] {
      assert a + b == a;
    } else {
      assert (a + [b[0]])[..|a + [b[0]]| - 1] == a;
      assert a + b == (a + [b[0]]) + b[1..];
      RunFromAfter(job, a + [b[0]], b[1..]);
    }
  }

  lemma OneMore(job: Job, w: World, step: Step, rest: seq<Step>)
    ensures RunFrom(job, w, [step] + rest) == RunFrom(job, Do(job, w, step), rest)
  {
    assert ([step] + rest)[1..] == rest;
  }

  lemma RestoreDone(job: Job, w: World)
    requires w.proc.Restoring? && 0 < w.proc.left <= |Journal(job, w.disk).priors|
    requires Restorable(Journal(job, w.disk).priors[w.proc.left - 1], w.disk.backups)
    ensures Do(job, w, RestoreNext(true)) ==
      w.(disk := w.disk.(files := RestoreOne(w.disk.files, Journal(job, w.disk).priors[w.proc.left - 1], w.disk.backups)),
         proc := w.proc.(left := w.proc.left - 1))
  {
    hide Restorable, RestoreOne, Journal, Staged, Resolve, Append, WritingStep, FinishingStep, UncommittingStep;
  }

  lemma RestoreOneMore(job: Job, w: World) returns (w': World)
    requires Inv(job, w) && w.proc.Restoring? && !w.proc.failed && w.proc.left > 0
    ensures w' == Do(job, w, RestoreNext(true)) && Inv(job, w')
    ensures w' == w.(disk := w.disk.(files := w'.disk.files), proc := w.proc.(left := w.proc.left - 1))
  {
    hide *;
    RestoringBounds(job, w);
    RestoreKeepsInv(job, w);
    RestoreDone(job, w);
    w' := Do(job, w, RestoreNext(true));
  }

  lemma RollbackDone(job: Job, w: World)
    requires w.proc.Restoring? && w.proc.left == 0 && !w.proc.failed
    ensures
      var s, w' := Journal(job, w.disk), Do(job, w, FinishRollback);
      w' == w.(disk := Closed(w.disk), proc := Dead, abandoned := w.proc.inProcess,
               rolled := Some(Rolled(s.priors, w.disk.backups, s.localCommit)))
  {
    hide Journal, Append, WritingStep, FinishingStep, UncommittingStep, Closed;
  }

  /** A roll-back left undisturbed comes to its end, and touches nothing but files and journal. */
  lemma {:induction false} RestoreToEnd(job: Job, w: World) returns (steps: seq<Step>)
    requires Inv(job, w) && w.proc.Restoring? && !w.proc.failed
    ensures
      var w' := RunFrom(job, w, steps);
      && Settled(w') && w'.abandoned == w.proc.inProcess && w'.spared == w.spared && w'.lost == w.lost
      && w'.disk.applied == w.disk.applied && w'.disk.committed == w.disk.committed && w'.disk.queue == w.disk.queue
    decreases w.proc.left
  {
    hide *;
    if w.proc.left == 0 {
      RollbackDone(job, w);
      ClosedIs(w.disk);
      SettledIs(Do(job, w, FinishRollback));
      OneMore(job, w, FinishRollback, []);
      NoMore(job, Do(job, w, FinishRollback));
      steps := [FinishRollback] + [];
    } else {
      var w' := RestoreOneMore(job, w);
      var rest := RestoreToEnd(job, w');
      OneMore(job, w, RestoreNext(true), rest);
      steps := [RestoreNext(true)] + rest;
    }
  }

  lemma SettledIs(w: World)
    ensures Settled(w) <==> w.proc.Dead? && w.disk.journal.None?
  {
  }

  lemma NoMore(job: Job, w: World)
    ensures RunFrom(job, w, []) == w
  {
  }

  // The commit still stands, is the repository's head, and the journal has no earlier head to return to.
  predicate NoWayBack(job: Job, w: World) {
    var s := Journal(job, w.disk);
    && !w.disk.applied && s.begun && s.localCommit.Some?
    && w.disk.committed.Some? && !w.disk.headMoved && s.priorHead.None?
  }

  // What recovery does first.
  lemma RecoveryStarts(job: Job, w: World)
    requires w.proc.Dead? && w.disk.journal.Some?
    ensures Do(job, w, StartRecovery(true)) == RecoveryStart(job, w, true)
  {
    hide RecoveryStart, WritingStep, FinishingStep, RestoringStep, UncommittingStep;
  }

  lemma UndoStarts(job: Job, w: World)
    requires w.proc.Uncommitting?
    ensures Do(job, w, UndoCommit(true)) == UncommittingStep(job, w, true)
  {
    hide RecoveryStart, WritingStep, FinishingStep, RestoringStep, UncommittingStep;
  }

  /** Undoing the local commit during recovery changes nothing durable but the commit. The commit goes
      exactly when git works, it is still the head and an earlier head is on record. The roll-back goes
      on exactly when git works and the commit went or was not the head; otherwise recovery stops
      with the journal and every file as they were. */
  lemma CommitUndoneExactly(job: Job, w: World, gitWorks: bool)
    requires w.proc.Uncommitting?
    ensures
      var d, w' := w.disk, Do(job, w, UndoCommit(gitWorks));
      var standing := d.committed.Some? && !d.headMoved;
      var hasPrior := Journal(job, d).priorHead.Some?;
      && w'.disk == d.(committed := if gitWorks && standing && hasPrior then None else d.committed)
      && (w'.proc.Restoring? <==> gitWorks && (standing ==> hasPrior))
      && (w'.proc.Restoring? ==> w'.proc.left == |Journal(job, d).priors| && !w'.proc.failed && !w'.proc.inProcess)
      && (!w'.proc.Restoring? ==> w' == w.(proc := Dead))
  {
    hide RecoveryStart, WritingStep, FinishingStep, RestoringStep, Journal;
  }

  lemma ForwardEnds(job: Job, w: World)
    requires Inv(job, w) && w.proc.Forwarding?
    ensures Settled(Do(job, w, EnqueueActions(0, |job.actions|)))
  {
    hide RecoveryStart, WritingStep, FinishingStep, RestoringStep, UncommittingStep, StrictRecords, ReadState,
         CodecOk, QueueOk, Undoable, FilesAfter, HandedCount;
  }

  lemma TwoMore(job: Job, w: World, a: Step, b: Step, rest: seq<Step>)
    ensures RunFrom(job, w, [a] + ([b] + rest)) == RunFrom(job, Do(job, Do(job, w, a), b), rest)
  {
    OneMore(job, w, a, [b] + rest);
    OneMore(job, Do(job, w, a), b, rest);
  }

  lemma UndoneIsRestoring(job: Job, w: World)
    requires Inv(job, w) && w.proc.Uncommitting? && !NoWayBack(job, w)
    ensures var w' := UncommittingStep(job, w, true); w'.proc.Restoring? && !w'.proc.failed
  {
    hide StrictRecords, ReadState, CodecOk, QueueOk, Undoable, FilesAfter, HandedCount, FromPlan, AtRest;
  }

  lemma StartedStillHasWay(job: Job, w: World)
    requires Inv(job, w) && w.proc.Dead? && w.disk.journal.Some?
    ensures
      var w1 := RecoveryStart(job, w, true);
      && (w1.disk.journal.Some? ==> w1.disk == w.disk && (NoWayBack(job, w1) <==> NoWayBack(job, w)))
      && (w1.disk.journal.None? ==> Settled(w1))
      && (w1.disk.journal.Some? ==> w1.proc.Forwarding? || w1.proc.Uncommitting? || (w1.proc.Restoring? && !w1.proc.failed))
  {
    hide Journal, Inv;
  }

  lemma RecoverDead(job: Job, w: World) returns (steps: seq<Step>)
    requires Inv(job, w) && w.proc.Dead? && w.disk.journal.Some? && !NoWayBack(job, w)
    ensures Settled(RunFrom(job, w, steps))
  {
    hide *;
    var w1 := RecoveryStart(job, w, true);
    RecoveryStarts(job, w);
    RecoveryStartKeepsInv(job, w, true);
    StartedStillHasWay(job, w);
    if w1.disk.journal.None? {
      OneMore(job, w, StartRecovery(true), []);
      NoMore(job, w1);
      steps := [StartRecovery(true)] + [];
    } else if w1.proc.Forwarding? {
      var last := EnqueueActions(0, |job.actions|);
      ForwardEnds(job, w1);
      TwoMore(job, w, StartRecovery(true), last, []);
      NoMore(job, Do(job, w1, last));
      steps := [StartRecovery(true)] + ([last] + []);
    } else if w1.proc.Uncommitting? {
      UndoStarts(job, w1);
      UncommittingKeepsInv(job, w1, true);
      UndoneIsRestoring(job, w1);
      var rest := RestoreToEnd(job, UncommittingStep(job, w1, true));
      TwoMore(job, w, StartRecovery(true), UndoCommit(true), rest);
      steps := [StartRecovery(true)] + ([UndoCommit(true)] + rest);
    } else {
      var rest := RestoreToEnd(job, w1);
      OneMore(job, w, StartRecovery(true), rest);
      steps := [StartRecovery(true)] + rest;
    }
  }

  // With the undo log lost, recovery drops the journal and is done.
  lemma LostIsDropped(job: Job, w: World)
    requires LostInv(job, w) && w.lost && w.disk.journal.Some?
    ensures Settled(Do(job, w, StartRecovery(true)))
  {
    hide StrictRecords, WritingStep, FinishingStep, RestoringStep, UncommittingStep, QueueOk, HandedCount;
  }

  lemma CrashIs(job: Job, w: World)
    ensures Do(job, w, Crash) == w.(proc := Dead)
    ensures NoWayBack(job, Do(job, w, Crash)) <==> NoWayBack(job, w)
  {
    hide Journal;
  }

  lemma LostIsDead(job: Job, w: World)
    requires w.lost && Reachable(job, w)
    ensures LostInv(job, w) && w.proc.Dead?
  {
    hide QueueOk, HandedCount, StrictRecords;
  }

  /** From every reachable state, however many crashes deep and whatever was torn, one undisturbed
      recovery after a crash settles the apply, unless a local commit stands as the repository's head
      with no earlier head on record. */
  lemma RecoveryFinishes(job: Job, steps: seq<Step>) returns (more: seq<Step>)
    requires GoodJob(job) && !NoWayBack(job, After(job, steps))
    ensures Settled(After(job, steps + more))
  {
    hide *;
    RunKeepsReachable(job, steps);
    var w := After(job, steps);
    NotLost(job, w);
    CrashIs(job, w);
    var w1 := Do(job, w, Crash);
    var rest := [];
    if w1.disk.journal.Some? {
      if w.lost {
        LostIsDead(job, w);
        LostIsDropped(job, w);
        OneMore(job, w1, StartRecovery(true), []);
        NoMore(job, Do(job, w1, StartRecovery(true)));
        rest := [StartRecovery(true)] + [];
      } else {
        CrashKeepsInv(job, w);
        rest := RecoverDead(job, w1);
      }
    } else {
      NoMore(job, w1);
      SettledIs(w1);
    }
    OneMore(job, w, Crash, rest);
    more := [Crash] + rest;
    RunFromAfter(job, steps, more);
  }

  // The repository's head never moves off the commit.
  predicate HeadStays(steps: seq<Step>) { forall i | 0 <= i < |steps| :: steps[i] != MoveHead(true) }

  lemma NoWayBackStep(job: Job, w: World, step: Step)
    requires Inv(job, w) && NoWayBack(job, w) && (w.proc.Dead? || w.proc.Uncommitting?) && step != MoveHead(true)
    ensures
      var w' := Act(job, w, step);
      NoWayBack(job, w') && (w'.proc.Dead? || w'.proc.Uncommitting?)
  {
    hide StrictRecords, ReadState, CodecOk, QueueOk, JournalOk, BeforeFlip, AfterFlip, HandedCount, WritingStep,
         FinishingStep, RestoringStep, Inv;
  }

  lemma TornNothing(job: Job, w: World, step: Step)
    requires step.Torn? && (w.proc.Dead? || w.proc.Uncommitting?)
    ensures Do(job, w, step) == w
  {
    RecoveryKeepsJournal(job, w, step.append);
    hide Act, Unreadable;
  }

  /** In that one case no recovery ever finishes while the head stays: the journal and the commit
      remain until a person steps in. */
  lemma {:induction false} NoWayBackIsForever(job: Job, w: World, steps: seq<Step>)
    requires Inv(job, w) && NoWayBack(job, w) && (w.proc.Dead? || w.proc.Uncommitting?) && HeadStays(steps)
    ensures NoWayBack(job, RunFrom(job, w, steps)) && !Settled(RunFrom(job, w, steps))
    decreases |steps|
  {
    if steps == [] {
      assert w.disk.journal.Some?;
    } else {
      assert steps[0] != MoveHead(true);
      assert HeadStays(steps[1..]);
      hide *;
      RunFirst(job, w, steps);
      if steps[0].Torn? {
        TornNothing(job, w, steps[0]);
      } else {
        ActIsDo(job, w, steps[0]);
        ActKeepsInv(job, w, steps[0]);
        NoWayBackStep(job, w, steps[0]);
      }
      NoWayBackIsForever(job, Do(job, w, steps[0]), steps[1..]);
    }
  }

  lemma RunFirst(job: Job, w: World, steps: seq<Step>)
    requires steps != []
    ensures RunFrom(job, w, steps) == RunFrom(job, Do(job, w, steps[0]), steps[1..])
  {
  }

  /** Once the head has moved, recovery passes over the commit and finishes. */
  lemma MovedHeadFinishes(job: Job, steps: seq<Step>) returns (more: seq<Step>)
    requires GoodJob(job)
    ensures Settled(After(job, steps + [MoveHead(true)] + more))
  {
    var moved := steps + [MoveHead(true)];
    assert moved[..|moved| - 1] == steps;
    assert !NoWayBack(job, After(job, moved)) by {
      hide Journal, WritingStep, FinishingStep, RestoringStep, UncommittingStep;
    }
    more := RecoveryFinishes(job, moved);
  }
}
