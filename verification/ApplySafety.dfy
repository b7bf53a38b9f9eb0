/** Crash atomicity of an apply, over every sequence of steps, crashes and recoveries. */
module ApplySafety {
  import opened Wrappers
  import opened Text
  import opened JsonLines
  import opened LineFiles
  import Utf8
  import opened QueueModel
  import QueueRuns
  import opened QueueHandOff
  import opened ApplyFiles
  import opened ApplyRuns

  // ── The queue ───────────────────────────────────────────────────────────────

  lemma HandedIs(job: Job, queue: seq<Event>, m: nat)
    requires HandedOff(Replay(queue), job.actions, m)
    ensures HandedCount(job, queue) == m && QueueOk(job, queue)
  {
  }

  lemma BatchQueues(job: Job, queue: seq<Event>, at: int, durable: nat)
    requires QueueOk(job, queue)
    ensures
      var queue' := queue + QueueRuns.Durable(QueueRuns.BatchEvents(queue, job.actions, at), durable);
      && QueueOk(job, queue')
      && (durable >= |job.actions| ==> HandedCount(job, queue') == AllHanded(job))
      && (HandedCount(job, queue) == AllHanded(job) ==> HandedCount(job, queue') == AllHanded(job))
  {
    var queue' := queue + QueueRuns.Durable(QueueRuns.BatchEvents(queue, job.actions, at), durable);
    var n := BatchMovesOn(queue, job.actions, HandedCount(job, queue), at, durable);
    HandedIs(job, queue', n);
  }

  lemma OthersQueue(job: Job, queue: seq<Event>, events: seq<Event>)
    requires QueueOk(job, queue) && OtherKeys(job, events)
    ensures QueueOk(job, queue + events) && HandedCount(job, queue + events) == HandedCount(job, queue)
  {
    OtherEvents(queue, events, job.actions, HandedCount(job, queue));
    HandedIs(job, queue + events, HandedCount(job, queue));
  }

  // ── The journal ─────────────────────────────────────────────────────────────

  // A whole record is read back after all the others.
  lemma JournalNext(job: Job, d: Disk, rec: Record)
    requires CodecOk(job.codec) && Writable(d)
    ensures Journal(job, Append(job, d, rec)) == ReadOne(Journal(job, d), rec)
    ensures Writable(Append(job, d, rec))
  {
    LineAdds(job.codec, d.journal.value, rec);
    ReadNext(StrictRecords(job.codec, d.journal.value).value, rec);
    hide Intact, LineBytes, ReadState, ReadOne, Sound;
  }

  // ── The apply ───────────────────────────────────────────────────────────────

  lemma PriorTouches(priors: seq<Prior>, backups: Backups, rel: string)
    requires AllRestorable(priors, backups) && HasPrior(priors, rel)
    ensures !TouchOf(priors, backups, Resolve(rel)).Untouched?
    ensures !TouchOf(priors, backups, Staged(Resolve(rel))).Untouched?
  {
    var i :| 0 <= i < |priors| && priors[i].rel == rel;
    SavedIsTouched(priors, backups, i);
  }

  lemma HasPriorGrows(priors: seq<Prior>, prior: Prior, rel: string)
    requires HasPrior(priors, rel) || prior.rel == rel
    ensures HasPrior(priors + [prior], rel)
  {
    var all := priors + [prior];
    if HasPrior(priors, rel) {
      var i :| 0 <= i < |priors| && priors[i].rel == rel;
      assert all[i].rel == rel;
    } else {
      assert all[|priors|].rel == rel;
    }
  }

  // Bookkeeping records change nothing the invariant speaks of.
  lemma NoteKeepsInv(job: Job, w: World, rec: Record, w': World)
    requires Inv(job, w) && w.proc.Writing? && w.proc.sub.AtTop?
    requires rec.CommitBegunRecord? || (rec.LocalCommittedRecord? && w'.disk.committed.Some?)
    requires w' == w.(disk := Append(job, w.disk, rec).(committed := w'.disk.committed))
    requires rec.CommitBegunRecord? ==> w'.disk.committed == w.disk.committed
    requires rec.LocalCommittedRecord? ==> w.proc.next == |job.plan|
    ensures Inv(job, w')
  {
    JournalNext(job, w.disk, rec);
  }

  lemma FlipKeepsInv(job: Job, w: World)
    requires Inv(job, w) && w.proc.Writing? && w.proc.sub.AtTop? && w.proc.next == |job.plan|
    ensures Inv(job, w.(disk := w.disk.(applied := true), proc := Finishing(0)))
  {
  }

  lemma AbandonKeepsInv(job: Job, w: World)
    requires Inv(job, w) && w.proc.Writing?
    ensures Inv(job, w.(proc := Restoring(|Journal(job, w.disk).priors|, false, true)))
  {
    var priors := Journal(job, w.disk).priors;
    RestoreUndoesEverything(job.initial, w.disk.files, priors, w.disk.backups);
    assert priors[..|priors|] == priors;
  }

  lemma BackupKeepsInv(job: Job, w: World, content: string)
    requires Inv(job, w) && w.proc.Writing? && w.proc.sub.AtTop?
    ensures Inv(job, w.(disk := w.disk.(backups := w.disk.backups[w.proc.nextBackup := content])))
  {
    var priors := Journal(job, w.disk).priors;
    assert forall i | 0 <= i < |priors| && priors[i].existed :: Restorable(priors[i], w.disk.backups);
    NewBackupKeepsUndoable(job.initial, w.disk.files, priors, w.disk.backups, w.proc.nextBackup, content);
  }

  // The next path counts as checked and spelled.
  lemma CheckedNext(job: Job, p: Proc, nextBackup: nat)
    requires p.Writing? && p.sub.AtTop? && p.next < |job.plan| && Checked(job, p)
    requires CheckRel(Normalize(job.plan[p.next].rel)).Success?
    ensures Checked(job, Writing(p.next, p.seen + {Normalize(job.plan[p.next].rel)}, nextBackup, PriorSaved))
  {
    hide CheckRel, Normalize;
  }

  lemma BackupsGrow(priors: seq<Prior>, prior: Prior, n: nat)
    requires BackupsBelow(priors, n) && (prior.existed ==> prior.backup == Some(n))
    ensures BackupsBelow(priors + [prior], if prior.existed then n + 1 else n)
  {
  }

  lemma SeenGrows(priors: seq<Prior>, prior: Prior, seen: set<string>)
    requires forall r | r in seen :: HasPrior(priors, r)
    ensures forall r | r in seen + {prior.rel} :: HasPrior(priors + [prior], r)
  {
    hide HasPrior;
    forall r | r in seen + {prior.rel} ensures HasPrior(priors + [prior], r) { HasPriorGrows(priors, prior, r); }
  }

  lemma PriorIsOk(job: Job, d: Disk, d': Disk, p: Proc, prior: Prior)
    requires p.Writing? && p.sub.AtTop? && p.next < |job.plan| && WritingOk(job, d, p)
    requires prior == PriorOf(d.files, Normalize(job.plan[p.next].rel), p.nextBackup)
    requires CheckRel(prior.rel).Success? && d' == d.(journal := d'.journal) && Writable(d') && d.committed.None?
    requires Journal(job, d') == ReadOne(Journal(job, d), PriorRecord(prior))
    ensures WritingOk(job, d', Writing(p.next, p.seen + {prior.rel},
                                       p.nextBackup + (if prior.existed then 1 else 0), PriorSaved))
  {
    hide Normalize, Resolve, Journal, FilesAfter, Writable, CheckRel, Checked, HasPrior, BackupsBelow, Erase, Look, Staged;
    var priors := Journal(job, d).priors;
    PriorOfIs(d.files, Normalize(job.plan[p.next].rel), p.nextBackup);
    hide PriorOf;
    CheckedNext(job, p, p.nextBackup + if prior.existed then 1 else 0);
    BackupsGrow(priors, prior, p.nextBackup);
    SeenGrows(priors, prior, p.seen);
    assert prior.rel in p.seen + {prior.rel};
  }

  lemma PriorOfIs(files: Files, rel: string, n: nat)
    ensures var p := PriorOf(files, rel, n);
      && p.rel == rel && (p.existed ==> p.backup == Some(n))
      && (p.existed <==> Look(files, Resolve(rel)).Some?)
  {
  }

  lemma ReadyBackup(d: Disk, prior: Prior)
    requires BackupReady(d, prior) && (prior.existed <==> Look(d.files, Resolve(prior.rel)).Some?)
    ensures Restorable(prior, d.backups) && SavedContent(prior, d.backups) == Look(d.files, Resolve(prior.rel))
  {
  }

  // A prior record keeps what the invariant says of the journal and of the files.
  lemma PriorRecordKeepsInv(job: Job, w: World, prior: Prior, proc: Proc)
    requires Inv(job, w) && Writable(w.disk) && Journal(job, w.disk).begun && !w.disk.applied && w.rolled.None?
    requires proc.Writing? && !w.spared && WritingOk(job, Append(job, w.disk, PriorRecord(prior)), proc)
    requires Undoable(job.initial, w.disk.files, Journal(job, w.disk).priors + [prior], w.disk.backups)
    requires FromPlan(job, Journal(job, w.disk).priors + [prior])
    ensures Inv(job, w.(disk := Append(job, w.disk, PriorRecord(prior)), proc := proc))
  {
    JournalNext(job, w.disk, PriorRecord(prior));
    hide StrictRecords, LineBytes, Intact, CodecOk, ReadState, Undoable, HandedOff, FilesAfter, WritingOk, FromPlan;
  }

  lemma UndoableOf(job: Job, w: World)
    requires Inv(job, w) && w.proc.Writing?
    ensures Undoable(job.initial, w.disk.files, Journal(job, w.disk).priors, w.disk.backups)
    ensures FromPlan(job, Journal(job, w.disk).priors)
    ensures w.proc.next < |job.plan| ==> w.disk.committed.None?
    ensures Writable(w.disk) && Journal(job, w.disk).begun
  {
    hide CodecOk, QueueOk, AfterFlip, Intact, Undoable, FromPlan, Journal, HasPrior, InPlace, FilesAfter, Checked;
  }

  lemma PriorKeepsInv(job: Job, w: World, w': World)
    requires Inv(job, w) && w.proc.Writing? && w.proc.sub.AtTop? && w.proc.next < |job.plan|
    requires
      var rel := Normalize(job.plan[w.proc.next].rel);
      var prior := PriorOf(w.disk.files, rel, w.proc.nextBackup);
      && BackupReady(w.disk, prior) && CheckRel(rel).Success?
      && w' == w.(disk := Append(job, w.disk, PriorRecord(prior)),
                  proc := w.proc.(seen := w.proc.seen + {rel}, sub := PriorSaved,
                                  nextBackup := w.proc.nextBackup + if prior.existed then 1 else 0))
    ensures Inv(job, w')
  {
    hide *;
    var d, rel := w.disk, Normalize(job.plan[w.proc.next].rel);
    var prior := PriorOf(d.files, rel, w.proc.nextBackup);
    var priors := Journal(job, d).priors;
    WritingFacts(job, w);
    UndoableOf(job, w);
    PriorOfIs(d.files, rel, w.proc.nextBackup);
    ReadyBackup(d, prior);
    JournalNext(job, d, PriorRecord(prior));
    ReadPrior(Journal(job, d), prior);
    AppendIs(job, d, PriorRecord(prior));
    PriorIsOk(job, d, w'.disk, w.proc, prior);
    SavingKeepsUndoable(job.initial, d.files, priors, d.backups, prior);
    FromPlanGrows(job, priors, prior, w.proc.next);
    PriorRecordKeepsInv(job, w, prior, w'.proc);
  }

  lemma ReadPrior(s: JournalState, prior: Prior)
    ensures ReadOne(s, PriorRecord(prior)) == s.(priors := s.priors + [prior])
  {
  }

  lemma AppendIs(job: Job, d: Disk, rec: Record)
    requires d.journal.Some?
    ensures Append(job, d, rec) == d.(journal := Append(job, d, rec).journal)
  {
  }

  lemma FromPlanGrows(job: Job, priors: seq<Prior>, prior: Prior, k: nat)
    requires FromPlan(job, priors) && k < |job.plan| && prior.rel == Normalize(job.plan[k].rel)
    ensures FromPlan(job, priors + [prior])
  {
    var all := priors + [prior];
    forall i | 0 <= i < |all| ensures exists l :: 0 <= l < |job.plan| && all[i].rel == Normalize(job.plan[l].rel) {
      if i < |priors| {
        var l :| 0 <= l < |job.plan| && priors[i].rel == Normalize(job.plan[l].rel);
        assert all[i].rel == Normalize(job.plan[l].rel);
      } else {
        assert all[i].rel == Normalize(job.plan[k].rel);
      }
    }
  }

  lemma SeenIsOk(job: Job, d: Disk, p: Proc)
    requires p.Writing? && p.sub.AtTop? && p.next < |job.plan| && WritingOk(job, d, p)
    requires Normalize(job.plan[p.next].rel) in p.seen && CheckRel(Normalize(job.plan[p.next].rel)).Success?
    requires d.committed.None?
    ensures WritingOk(job, d, p.(sub := PriorSaved))
  {
    CheckedNext(job, p, p.nextBackup);
    assert p.seen + {Normalize(job.plan[p.next].rel)} == p.seen;
    hide Normalize, Resolve, Journal, FilesAfter, Writable, CheckRel, Checked, HasPrior;
  }

  // A change of the process alone.
  lemma ProcKeepsInv(job: Job, w: World, proc: Proc)
    requires Inv(job, w) && proc.Writing? && WritingOk(job, w.disk, proc) && !w.spared
    ensures Inv(job, w.(proc := proc))
  {
    hide CodecOk, QueueOk, JournalOk, Undoable, HandedOff, FilesAfter, WritingOk, Journal;
  }

  lemma SeenKeepsInv(job: Job, w: World)
    requires Inv(job, w) && w.proc.Writing? && w.proc.sub.AtTop? && w.proc.next < |job.plan|
    requires Normalize(job.plan[w.proc.next].rel) in w.proc.seen
    requires CheckRel(Normalize(job.plan[w.proc.next].rel)).Success?
    ensures Inv(job, w.(proc := w.proc.(sub := PriorSaved)))
  {
    hide *;
    WritingFacts(job, w);
    UndoableOf(job, w);
    SeenIsOk(job, w.disk, w.proc);
    ProcKeepsInv(job, w, w.proc.(sub := PriorSaved));
  }

  // Any content may go to the temporary name of the path being written.
  lemma StageKeepsInv(job: Job, w: World, content: string, sub: Sub)
    requires Inv(job, w) && w.proc.Writing? && w.proc.sub.PriorSaved?
    requires sub.PriorSaved? || (sub.StagedFully? && content == job.plan[w.proc.next].content)
    ensures
      var temp := Staged(Resolve(Normalize(job.plan[w.proc.next].rel)));
      Inv(job, w.(disk := w.disk.(files := w.disk.files[temp := content]), proc := w.proc.(sub := sub)))
  {
    hide FilesAfter, TouchOf, Resolve, Normalize, Staged, ReadState, PathUndoable, HandedOff, StrictRecords, Intact,
         CodecOk, SeenAfter, SafeTo, HasPrior, FromPlan, BackupsBelow;
    var d, rel := w.disk, Normalize(job.plan[w.proc.next].rel);
    var temp, priors := Staged(Resolve(rel)), Journal(job, d).priors;
    PriorTouches(priors, d.backups, rel);
    WritingKeepsUndoable(job.initial, d.files, d.files[temp := content], priors, d.backups, temp);
    assert Erase(d.files[temp := content], temp) == Erase(d.files, temp);
  }

  lemma RenameKeepsInv(job: Job, w: World)
    requires Inv(job, w) && w.proc.Writing? && w.proc.sub.StagedFully?
    ensures
      var path := Resolve(Normalize(job.plan[w.proc.next].rel));
      && Staged(path) in w.disk.files
      && Inv(job, w.(disk := w.disk.(files := Put(w.disk.files, path, w.disk.files[Staged(path)])),
                     proc := w.proc.(sub := Moved)))
  {
    hide TouchOf, PathUndoable, HandedOff, StrictRecords, Intact, CodecOk, ReadState, Normalize, Parts, Plain, FromPlan;
    var d, rel, content := w.disk, Normalize(job.plan[w.proc.next].rel), job.plan[w.proc.next].content;
    var path, priors := Resolve(rel), Journal(job, d).priors;
    var before := FilesAfter(job.initial, job.plan, w.proc.next);
    NormalizeKeepsParts(job.plan[w.proc.next].rel);
    PriorTouches(priors, d.backups, rel);
    var files1 := d.files[path := content];
    WritingKeepsUndoable(job.initial, d.files, files1, priors, d.backups, path);
    WritingKeepsUndoable(job.initial, files1, Put(d.files, path, content), priors, d.backups, Staged(path));
    PutIgnoresTemp(d.files, before, path, content);
  }

  lemma PutIgnoresTemp(a: Files, b: Files, p: Path, content: string)
    requires Erase(a, Staged(p)) == Erase(b, Staged(p))
    ensures Put(a, p, content) == Put(b, p, content)
  {
    var x, y := Put(a, p, content), Put(b, p, content);
    assert forall q | q in a && q != Staged(p) :: q in Erase(a, Staged(p)) && Erase(a, Staged(p))[q] == a[q];
    assert forall q | q in b && q != Staged(p) :: q in Erase(b, Staged(p)) && Erase(b, Staged(p))[q] == b[q];
    assert x.Keys == y.Keys;
  }

  // A record recovery makes nothing of.
  lemma InertRecordKeepsInv(job: Job, w: World, rec: Record, proc: Proc)
    requires Inv(job, w) && Writable(w.disk) && Journal(job, w.disk).begun
    requires rec.CommitBegunRecord? || rec.FileMovedRecord? || rec.MarkedAppliedRecord? || rec.EnqueuedRecord?
    requires ProcOk(job, w.(disk := Append(job, w.disk, rec), proc := proc))
    ensures Inv(job, w.(disk := Append(job, w.disk, rec), proc := proc))
  {
    JournalNext(job, w.disk, rec);
    hide StrictRecords, LineBytes, Intact, CodecOk, ReadState, Undoable, HandedOff, FilesAfter, ProcOk, FromPlan;
  }

  lemma WritingFacts(job: Job, w: World)
    requires Inv(job, w) && w.proc.Writing?
    ensures WritingOk(job, w.disk, w.proc) && !w.spared && CodecOk(job.codec)
    ensures w.disk.journal.Some? && w.rolled.None? && !w.disk.applied
    ensures !w.proc.sub.AtTop? ==> w.proc.next < |job.plan|
  {
    hide CodecOk, QueueOk, JournalOk, BeforeFlip, AfterFlip, Intact, Journal, HasPrior, InPlace, FilesAfter, BackupsBelow;
  }

  lemma MovedFiles(job: Job, d: Disk, p: Proc)
    requires p.Writing? && p.sub.Moved? && p.next < |job.plan| && WritingOk(job, d, p)
    ensures d.files == FilesAfter(job.initial, job.plan, p.next + 1) && d.committed.None?
    ensures Writable(d) && Journal(job, d).begun
  {
    hide FilesAfter, HasPrior, Normalize, Resolve, Staged, Erase, Look, BackupsBelow, Journal, Intact, Put;
  }

  // The next write may begin once the files are those after this one.
  lemma NextWriteIsOk(job: Job, d: Disk, d': Disk, p: Proc)
    requires p.Writing? && p.sub.Moved? && p.next < |job.plan| && WritingOk(job, d, p)
    requires d.committed.None? && d.files == FilesAfter(job.initial, job.plan, p.next + 1)
    requires d' == d.(journal := d'.journal) && Writable(d')
    requires var s, s' := Journal(job, d), Journal(job, d');
      s'.begun && s'.priors == s.priors && s'.localCommit == s.localCommit
    ensures WritingOk(job, d', Writing(p.next + 1, p.seen, p.nextBackup, AtTop))
  {
    hide FilesAfter, HasPrior, InPlace, Journal, Writable, BackupsBelow, SafeTo, SeenAfter;
  }

  lemma WritingProcOk(job: Job, w: World)
    requires w.proc.Writing? && WritingOk(job, w.disk, w.proc) && !w.spared
    ensures ProcOk(job, w)
  {
    hide WritingOk;
  }

  lemma MovedRead(job: Job, d: Disk, rel: string)
    requires CodecOk(job.codec) && Writable(d) && Journal(job, d).begun
    ensures
      var d' := Append(job, d, FileMovedRecord(rel));
      var s, s' := Journal(job, d), Journal(job, d');
      && d' == d.(journal := d'.journal) && Writable(d')
      && s'.begun && s'.priors == s.priors && s'.localCommit == s.localCommit
  {
    JournalNext(job, d, FileMovedRecord(rel));
    hide Journal, Writable, CodecOk, LineBytes;
  }

  lemma MovedKeepsInv(job: Job, w: World)
    requires Inv(job, w) && w.proc.Writing? && w.proc.sub.Moved? && w.proc.next < |job.plan|
    ensures Inv(job, w.(disk := Append(job, w.disk, FileMovedRecord(Normalize(job.plan[w.proc.next].rel))),
                        proc := w.proc.(next := w.proc.next + 1, sub := AtTop)))
  {
    hide *;
    var d, rec := w.disk, FileMovedRecord(Normalize(job.plan[w.proc.next].rel));
    WritingFacts(job, w);
    MovedFiles(job, d, w.proc);
    MovedRead(job, d, rec.rel);
    var w' := w.(disk := Append(job, d, rec), proc := Writing(w.proc.next + 1, w.proc.seen, w.proc.nextBackup, AtTop));
    NextWriteIsOk(job, d, w'.disk, w.proc);
    WritingProcOk(job, w');
    InertRecordKeepsInv(job, w, rec, w'.proc);
  }

  lemma NoteStepKeepsInv(job: Job, w: World, step: Step)
    requires Inv(job, w) && w.proc.Writing? && w.disk.journal.Some?
    ensures Inv(job, NoteStep(job, w, step))
  {
    hide Inv, LineBytes, Journal;
    var w' := NoteStep(job, w, step);
    if w' == w {
    } else if step.AppendCommitBegun? {
      NoteKeepsInv(job, w, CommitBegunRecord, w');
    } else if step.CommitLocally? {
      NoteKeepsInv(job, w, LocalCommittedRecord(step.commit), w');
    } else if step.FlipStatus? {
      FlipKeepsInv(job, w);
    } else {
      AbandonKeepsInv(job, w);
    }
  }

  lemma SaveStepKeepsInv(job: Job, w: World, step: Step)
    requires Inv(job, w) && w.proc.Writing? && w.disk.journal.Some? && w.proc.next < |job.plan|
    ensures Inv(job, SaveStep(job, w, step))
  {
    hide Inv, Resolve, CheckRel, PriorOf, BackupReady, Journal, Append, Normalize;
    var w' := SaveStep(job, w, step);
    if w' == w {
    } else if step.CopyBackup? {
      BackupKeepsInv(job, w, step.content);
    } else if Normalize(job.plan[w.proc.next].rel) in w.proc.seen {
      SeenKeepsInv(job, w);
    } else {
      PriorKeepsInv(job, w, w');
    }
  }

  lemma MoveStepKeepsInv(job: Job, w: World, step: Step)
    requires Inv(job, w) && w.proc.Writing? && w.disk.journal.Some? && w.proc.next < |job.plan|
    ensures Inv(job, MoveStep(job, w, step))
  {
    hide Inv, Put, Resolve, Normalize, Staged, Append, Journal;
    var w' := MoveStep(job, w, step);
    if w' == w {
    } else if step.CopyStaged? {
      StageKeepsInv(job, w, step.content, PriorSaved);
    } else if step.FinishCopy? {
      StageKeepsInv(job, w, job.plan[w.proc.next].content, StagedFully);
    } else if step.RenameStaged? {
      RenameKeepsInv(job, w);
    } else {
      MovedKeepsInv(job, w);
    }
  }

  lemma WritingStepKeepsInv(job: Job, w: World, step: Step)
    requires Inv(job, w) && w.proc.Writing? && w.disk.journal.Some?
    ensures Inv(job, WritingStep(job, w, step))
  {
    hide Inv, NoteStep, SaveStep, MoveStep;
    NoteStepKeepsInv(job, w, step);
    if w.proc.next < |job.plan| {
      SaveStepKeepsInv(job, w, step);
      MoveStepKeepsInv(job, w, step);
    }
  }

  // ── Finishing and rolling forward ───────────────────────────────────────────

  lemma QueueStepKeepsInv(job: Job, w: World, at: int, durable: nat, proc: Proc, close: bool)
    requires Inv(job, w) && w.disk.applied && Journal(job, w.disk).begun
    requires proc.Dead? || (proc == Finishing(2) && durable >= |job.actions| && Writable(w.disk))
    requires close ==> proc.Dead? && durable >= |job.actions|
    ensures
      var w' := QueueActions(job, w, at, durable);
      Inv(job, w'.(disk := if close then Closed(w'.disk) else w'.disk, proc := proc))
  {
    BatchQueues(job, w.disk.queue, at, durable);
  }

  // A record of a finished stage.
  lemma StageKeepsFinishing(job: Job, w: World, rec: Record, stage: nat)
    requires Inv(job, w) && w.proc.Finishing? && (rec.MarkedAppliedRecord? || rec.EnqueuedRecord?)
    requires w.proc.stage <= stage && (stage >= 2 ==> w.proc.stage >= 2)
    ensures Inv(job, w.(disk := Append(job, w.disk, rec), proc := Finishing(stage)))
  {
    hide Journal, Intact, LineBytes, NewFiles, CodecOk, QueueOk, HandedCount, AllHanded, AllRestorable, Undoable,
         RestoringOk, WritingOk, BeforeFlip;
    JournalNext(job, w.disk, rec);
  }

  lemma CloseKeepsInv(job: Job, w: World)
    requires Inv(job, w) && w.proc.Finishing? && w.proc.stage >= 2
    ensures Inv(job, w.(disk := Closed(w.disk), proc := Dead))
  {
  }

  lemma FinishingFacts(job: Job, w: World)
    requires Inv(job, w) && w.proc.Finishing?
    ensures w.disk.applied && Journal(job, w.disk).begun && Journal(job, w.disk).actions == job.actions && Writable(w.disk)
  {
  }

  lemma FinishingStepKeepsInv(job: Job, w: World, step: Step)
    requires Inv(job, w) && w.proc.Finishing? && w.disk.journal.Some?
    ensures Inv(job, FinishingStep(job, w, step))
  {
    FinishingFacts(job, w);
    hide Inv, QueueActions, Append, Journal, Closed, Writable;
    var stage := w.proc.stage;
    if step.AppendMarked? && stage == 0 {
      StageKeepsFinishing(job, w, MarkedAppliedRecord, 1);
    } else if step.EnqueueActions? && stage <= 1 {
      var whole := step.durable >= |job.actions|;
      QueueStepKeepsInv(job, w, step.at, step.durable, if whole then Finishing(2) else Dead, false);
    } else if step.AppendEnqueued? && stage == 2 {
      StageKeepsFinishing(job, w, EnqueuedRecord, 3);
    } else if step.CloseJournal? && stage == 3 {
      CloseKeepsInv(job, w);
    }
  }

  // ── Rolling back ────────────────────────────────────────────────────────────

  // Restoring a path does not depend on what is left at its temporary name.
  lemma RestoreOneIgnoresTemp(a: Files, b: Files, prior: Prior, backups: Backups)
    requires Restorable(prior, backups)
    requires forall x: Path | x != Staged(Resolve(prior.rel)) :: Look(a, x) == Look(b, x)
    ensures RestoreOne(a, prior, backups) == RestoreOne(b, prior, backups)
  {
    forall x: Path ensures Look(RestoreOne(a, prior, backups), x) == Look(RestoreOne(b, prior, backups), x) {
      RestoreOneLooks(a, prior, backups, x);
      RestoreOneLooks(b, prior, backups, x);
    }
    SameLooks(RestoreOne(a, prior, backups), RestoreOne(b, prior, backups));
  }

  lemma RestoreUnfold(files: Files, priors: seq<Prior>, left: nat, backups: Backups)
    requires AllRestorable(priors, backups) && 0 < left <= |priors|
    ensures RestoreAll(files, priors[..left], backups)
         == RestoreAll(RestoreOne(files, priors[left - 1], backups), priors[..left - 1], backups)
  {
    assert priors[..left][..left - 1] == priors[..left - 1];
  }

  // Whatever happens at the temporary name of the prior being restored.
  lemma TemporaryKeepsInv(job: Job, w: World, files: Files)
    requires Inv(job, w) && w.proc.Restoring? && 0 < w.proc.left <= |Journal(job, w.disk).priors|
    requires forall x: Path | x != Staged(Resolve(Journal(job, w.disk).priors[w.proc.left - 1].rel)) ::
      Look(files, x) == Look(w.disk.files, x)
    ensures Inv(job, w.(disk := w.disk.(files := files)))
  {
    var d, priors, left := w.disk, Journal(job, w.disk).priors, w.proc.left;
    var prior := priors[left - 1];
    SavedIsTouched(priors, d.backups, left - 1);
    WritingKeepsUndoable(job.initial, d.files, files, priors, d.backups, Staged(Resolve(prior.rel)));
    RestoreOneIgnoresTemp(d.files, files, prior, d.backups);
    RestoreUnfold(d.files, priors, left, d.backups);
    RestoreUnfold(files, priors, left, d.backups);
  }

  lemma RestoringFacts(job: Job, w: World)
    requires Inv(job, w) && w.proc.Restoring?
    ensures RestoringOk(job, w) && !w.disk.applied && w.rolled.None? && w.disk.journal.Some?
    ensures Undoable(job.initial, w.disk.files, Journal(job, w.disk).priors, w.disk.backups)
  {
    hide CodecOk, QueueOk, JournalOk, AfterFlip, Intact, RestoreAll, Undoable, AtRest;
  }

  // Files the log still covers, with the rest of a roll-back still leading to the same end.
  lemma FilesKeepInv(job: Job, w: World, files: Files, left: nat)
    requires Inv(job, w) && w.proc.Restoring? && left <= |Journal(job, w.disk).priors|
    requires Undoable(job.initial, files, Journal(job, w.disk).priors, w.disk.backups)
    requires
      var s := Journal(job, w.disk);
      && AllRestorable(s.priors, w.disk.backups) && AllRestorable(s.priors[..left], w.disk.backups)
      && (!w.proc.failed ==>
            RestoreAll(files, s.priors[..left], w.disk.backups) == RolledBack(job.initial, s.priors, w.disk.backups))
    ensures Inv(job, w.(disk := w.disk.(files := files), proc := w.proc.(left := left)))
  {
    hide CodecOk, QueueOk, StrictRecords, Intact, RestoreAll, Undoable, AllRestorable, RolledBack, ReadState, FromPlan,
         HandedCount, FilesAfter;
  }

  lemma RestoreOneKeepsUndoable(initial: Files, files: Files, priors: seq<Prior>, backups: Backups, i: nat)
    requires Undoable(initial, files, priors, backups) && i < |priors|
    ensures Restorable(priors[i], backups) && Undoable(initial, RestoreOne(files, priors[i], backups), priors, backups)
  {
    var prior := priors[i];
    var path := Resolve(prior.rel);
    SavedIsTouched(priors, backups, i);
    hide TouchOf, PathUndoable, Parts, Plain;
    var files1 := Erase(files, Staged(path));
    WritingKeepsUndoable(initial, files, files1, priors, backups, Staged(path));
    var files2 := RestoreOne(files, prior, backups);
    forall x: Path | x != path ensures Look(files2, x) == Look(files1, x) {
      RestoreOneLooks(files, prior, backups, x);
    }
    WritingKeepsUndoable(initial, files1, files2, priors, backups, path);
  }

  lemma AllRestorableTake(priors: seq<Prior>, backups: Backups, n: nat)
    requires AllRestorable(priors, backups) && n <= |priors|
    ensures AllRestorable(priors[..n], backups)
  {
  }

  lemma RestoreKeepsInv(job: Job, w: World)
    requires Inv(job, w) && w.proc.Restoring? && 0 < w.proc.left <= |Journal(job, w.disk).priors|
    ensures
      var prior := Journal(job, w.disk).priors[w.proc.left - 1];
      && Restorable(prior, w.disk.backups)
      && Inv(job, w.(disk := w.disk.(files := RestoreOne(w.disk.files, prior, w.disk.backups)),
                     proc := w.proc.(left := w.proc.left - 1)))
  {
    RestoringFacts(job, w);
    var d, priors, left := w.disk, Journal(job, w.disk).priors, w.proc.left;
    hide Inv, Undoable, RestoreAll, RestoreOne, AllRestorable, Journal, Restorable, RolledBack;
    RestoreUnfold(d.files, priors, left, d.backups);
    RestoreOneKeepsUndoable(job.initial, d.files, priors, d.backups, left - 1);
    AllRestorableTake(priors, d.backups, left - 1);
    FilesKeepInv(job, w, RestoreOne(d.files, priors[left - 1], d.backups), left - 1);
  }

  lemma FinishRollbackKeepsInv(job: Job, w: World)
    requires Inv(job, w) && w.proc.Restoring? && w.proc.left == 0 && !w.proc.failed
    ensures
      var s := Journal(job, w.disk);
      Inv(job, w.(disk := Closed(w.disk), proc := Dead, abandoned := w.proc.inProcess,
                  rolled := Some(Rolled(s.priors, w.disk.backups, s.localCommit))))
  {
    assert Journal(job, w.disk).priors[..0] == [];
  }

  lemma FailedRestoreKeepsInv(job: Job, w: World)
    requires Inv(job, w) && w.proc.Restoring? && w.proc.left > 0
    ensures Inv(job, w.(proc := w.proc.(left := w.proc.left - 1, failed := true)))
  {
  }

  lemma RestoringBounds(job: Job, w: World)
    requires Inv(job, w) && w.proc.Restoring?
    ensures w.proc.left <= |Journal(job, w.disk).priors|
  {
  }

  // What one step does while a prior is being restored.
  lemma RestoringCases(job: Job, w: World, step: Step)
    requires w.proc.Restoring? && 0 < w.proc.left <= |Journal(job, w.disk).priors|
    ensures
      var d, p, prior, w' := w.disk, w.proc, Journal(job, w.disk).priors[w.proc.left - 1], RestoringStep(job, w, step);
      var temp := Staged(Resolve(prior.rel));
      || w' == w
      || w' == w.(disk := d.(files := Erase(d.files, temp)))
      || (step.CopyRestored? && w' == w.(disk := d.(files := d.files[temp := step.content])))
      || (Restorable(prior, d.backups)
          && w' == w.(disk := d.(files := RestoreOne(d.files, prior, d.backups)), proc := p.(left := p.left - 1)))
      || w' == w.(proc := p.(left := p.left - 1, failed := true))
  {
    hide Resolve, RestoreOne, Erase, Staged, Journal, Restorable;
  }

  // At the end only closing the roll-back does anything.
  lemma RestoringEnds(job: Job, w: World, step: Step)
    requires w.proc.Restoring? && w.proc.left == 0
    ensures
      var d, s, w' := w.disk, Journal(job, w.disk), RestoringStep(job, w, step);
      || w' == w
      || (w.proc.failed && w' == w.(proc := Dead))
      || (!w.proc.failed
          && w' == w.(disk := Closed(d), proc := Dead, abandoned := w.proc.inProcess,
                      rolled := Some(Rolled(s.priors, d.backups, s.localCommit))))
  {
    hide Journal, Closed;
  }

  lemma RestoringStepKeepsInv(job: Job, w: World, step: Step)
    requires Inv(job, w) && w.proc.Restoring?
    ensures Inv(job, RestoringStep(job, w, step))
  {
    hide *;
    RestoringBounds(job, w);
    if w.proc.left == 0 {
      RestoringEnds(job, w, step);
      CrashKeepsInv(job, w);
      if !w.proc.failed { FinishRollbackKeepsInv(job, w); }
    } else {
      var d := w.disk;
      var temp := Staged(Resolve(Journal(job, d).priors[w.proc.left - 1].rel));
      RestoringCases(job, w, step);
      RestoreKeepsInv(job, w);
      FailedRestoreKeepsInv(job, w);
      AnyTemporaryKeepsInv(job, w, Erase(d.files, temp), temp, None);
      if step.CopyRestored? { AnyTemporaryKeepsInv(job, w, d.files[temp := step.content], temp, Some(step.content)); }
    }
  }

  lemma AnyTemporaryKeepsInv(job: Job, w: World, files: Files, temp: Path, content: Option<string>)
    requires Inv(job, w) && w.proc.Restoring? && 0 < w.proc.left <= |Journal(job, w.disk).priors|
    requires temp == Staged(Resolve(Journal(job, w.disk).priors[w.proc.left - 1].rel))
    requires files == if content.Some? then w.disk.files[temp := content.value] else Erase(w.disk.files, temp)
    ensures Inv(job, w.(disk := w.disk.(files := files)))
  {
    hide Inv, Staged, Resolve, Journal;
    TemporaryKeepsInv(job, w, files);
  }

  lemma StartRestoringKeepsInv(job: Job, w: World, w': World)
    requires Inv(job, w) && !w.disk.applied && Journal(job, w.disk).begun
    requires w' == w.(disk := w.disk.(committed := w'.disk.committed), spared := w'.spared,
                      proc := Restoring(|Journal(job, w.disk).priors|, false, false))
    requires w'.disk.committed.Some? <==> w'.spared
    requires w'.disk.committed.Some? ==> w.disk.committed.Some?
    ensures Inv(job, w')
  {
    var priors := Journal(job, w.disk).priors;
    RestoreUndoesEverything(job.initial, w.disk.files, priors, w.disk.backups);
    assert priors[..|priors|] == priors;
  }

  lemma RecoveryStartKeepsInv(job: Job, w: World, readable: bool)
    requires Inv(job, w) && w.proc.Dead? && w.disk.journal.Some?
    ensures Inv(job, RecoveryStart(job, w, readable))
  {
    var s := Journal(job, w.disk);
    if s.begun && readable && !w.disk.applied && s.localCommit.None? {
      assert w.disk.committed.None? && !w.spared;
      StartRestoringKeepsInv(job, w, RecoveryStart(job, w, readable));
    }
  }

  // ── Every step ──────────────────────────────────────────────────────────────

  lemma OthersKeepInv(job: Job, w: World, events: seq<Event>)
    requires Inv(job, w) && OtherKeys(job, events)
    ensures Inv(job, w.(disk := w.disk.(queue := w.disk.queue + events)))
  {
    OthersQueue(job, w.disk.queue, events);
  }

  lemma UncommittingKeepsInv(job: Job, w: World, gitWorks: bool)
    requires Inv(job, w) && w.proc.Uncommitting?
    ensures Inv(job, UncommittingStep(job, w, gitWorks))
  {
    var w' := UncommittingStep(job, w, gitWorks);
    if w'.proc.Restoring? { StartRestoringKeepsInv(job, w, w'); }
  }

  lemma ForwardKeepsInv(job: Job, w: World, at: int, durable: nat)
    requires Inv(job, w) && w.proc.Forwarding?
    ensures Inv(job, Act(job, w, EnqueueActions(at, durable)))
  {
    hide *;
    ForwardingFacts(job, w);
    ForwardingAct(job, w, at, durable);
    QueueStepKeepsInv(job, w, at, durable, Dead, durable >= |job.actions|);
  }

  lemma ForwardingAct(job: Job, w: World, at: int, durable: nat)
    requires w.proc.Forwarding? && Journal(job, w.disk).actions == job.actions
    ensures
      var w' := QueueActions(job, w, at, durable);
      Act(job, w, EnqueueActions(at, durable))
      == w'.(disk := if durable >= |job.actions| then Closed(w'.disk) else w'.disk, proc := Dead)
  {
    hide Journal, QueueActions, Closed;
  }

  lemma ForwardingFacts(job: Job, w: World)
    requires Inv(job, w) && w.proc.Forwarding?
    ensures Journal(job, w.disk).actions == job.actions && w.disk.applied && Journal(job, w.disk).begun
  {
    hide Journal, CodecOk, QueueOk, AfterFlip, BeforeFlip, FromPlan;
  }

  lemma MoveHeadKeepsInv(job: Job, w: World, away: bool)
    requires Inv(job, w)
    ensures Inv(job, w.(disk := w.disk.(headMoved := away)))
  {
  }

  lemma CrashKeepsInv(job: Job, w: World)
    requires Inv(job, w)
    ensures Inv(job, w.(proc := Dead))
  {
  }

  lemma StartKeepsInv(job: Job, w: World)
    requires Inv(job, w) && w.proc.Starting?
    ensures Inv(job, w.(disk := w.disk.(journal := Some([])), proc := Opened))
  {
    IntactEmpty(job.codec);
  }

  lemma ActKeepsInv(job: Job, w: World, step: Step)
    requires Inv(job, w)
    ensures Inv(job, Act(job, w, step))
  {
    var d := w.disk;
    if step.OtherQueueEvents? {
      if OtherKeys(job, step.events) { OthersKeepInv(job, w, step.events); }
    } else if step.MoveHead? {
      MoveHeadKeepsInv(job, w, step.away);
    } else if step.Crash? {
      CrashKeepsInv(job, w);
    } else {
      hide Inv, QueueActions, WritingStep, FinishingStep, RestoringStep, UncommittingStep, RecoveryStart;
      match w.proc
      case Starting => if step.MakeDirectory? { StartKeepsInv(job, w); }
      case Opened => if step.AppendBegin? { BeginKeepsInv(job, w); }
      case Writing(_, _, _, _) => if d.journal.Some? { WritingStepKeepsInv(job, w, step); }
      case Finishing(_) => if d.journal.Some? { FinishingStepKeepsInv(job, w, step); }
      case Restoring(_, _, _) => RestoringStepKeepsInv(job, w, step);
      case Dead => if step.StartRecovery? && d.journal.Some? { RecoveryStartKeepsInv(job, w, step.statusReadable); }
      case Uncommitting => if step.UndoCommit? { UncommittingKeepsInv(job, w, step.gitWorks); }
      case Forwarding => if step.EnqueueActions? { ForwardKeepsInv(job, w, step.at, step.durable); }
    }
  }

  lemma OpenedFacts(job: Job, w: World)
    requires Inv(job, w) && w.proc.Opened?
    ensures w.disk.journal == Some([]) && w.rolled.None? && !w.disk.applied && CodecOk(job.codec) && !w.spared
    ensures HandedCount(job, w.disk.queue) == 0 && QueueOk(job, w.disk.queue)
    ensures w.disk.files == job.initial && w.disk.committed.None?
    ensures Journal(job, w.disk) == BLANK && Writable(w.disk)
  {
    IntactEmpty(job.codec);
    hide CodecOk, QueueOk, StrictRecords, Intact;
  }

  lemma BeginKeepsInv(job: Job, w: World)
    requires Inv(job, w) && w.proc.Opened?
    ensures Inv(job, Act(job, w, AppendBegin))
  {
    var w' := Act(job, w, AppendBegin);
    OpenedFacts(job, w);
    BegunFacts(job, w);
    FirstWriteOk(job, w'.disk);
    WritingProcOk(job, w');
    NothingSavedYet(job.initial, w.disk.backups);
    hide CodecOk, QueueOk, Writable, HandedCount, Undoable, Journal, WritingOk, ProcOk, Act, AfterFlip;
  }

  lemma BegunFacts(job: Job, w: World)
    requires w.proc.Opened? && Writable(w.disk) && CodecOk(job.codec) && Journal(job, w.disk) == BLANK
    ensures
      var w' := Act(job, w, AppendBegin);
      var s := Journal(job, w'.disk);
      && w' == w.(disk := w.disk.(journal := w'.disk.journal), proc := Writing(0, {}, 0, AtTop))
      && Writable(w'.disk)
      && s.begun && s.actions == job.actions && s.priorHead == job.priorHead && s.priors == [] && s.localCommit.None?
  {
    JournalNext(job, w.disk, BeginRecord(job.draftId, job.actions, job.priorHead));
    hide CodecOk, Journal, Intact, LineBytes;
  }

  lemma FirstWriteOk(job: Job, d: Disk)
    requires Writable(d) && Journal(job, d).begun && Journal(job, d).priors == [] && Journal(job, d).localCommit.None?
    requires !d.applied && d.committed.None? && d.files == job.initial
    ensures WritingOk(job, d, Writing(0, {}, 0, AtTop))
  {
    hide Journal, Writable;
    assert SeenAfter(job.plan, 0) == {};
  }

  // ── Torn records ────────────────────────────────────────────────────────────

  // The record a step appends, if it appends one.
  function RecordOf(job: Job, w: World, step: Step): Record {
    if step.AppendBegin? then BeginRecord(job.draftId, job.actions, job.priorHead)
    else if step.AppendPrior? && w.proc.Writing? && w.proc.next < |job.plan| then
      PriorRecord(PriorOf(w.disk.files, Normalize(job.plan[w.proc.next].rel), w.proc.nextBackup))
    else if step.AppendMoved? && w.proc.Writing? && w.proc.next < |job.plan| then
      FileMovedRecord(Normalize(job.plan[w.proc.next].rel))
    else if step.AppendMarked? then MarkedAppliedRecord
    else if step.AppendEnqueued? then EnqueuedRecord
    else CommitBegunRecord
  }

  // A step that makes the journal longer, the local commit aside, appends its record and does
  // nothing else to the disk.
  predicate Appends(job: Job, w: World, step: Step) {
    && w.disk.journal.Some?
    && Act(job, w, step).disk == Append(job, w.disk, RecordOf(job, w, step))
    && match w.proc
       case Opened => step.AppendBegin?
       case Writing(next, seen, _, sub) =>
         || (step.AppendCommitBegun? && sub.AtTop?)
         || (next < |job.plan| && step.AppendPrior? && sub.AtTop? && NewAndSafe(job, next, seen))
         || (next < |job.plan| && step.AppendMoved? && sub.Moved?)
       case Finishing(_) => step.AppendMarked? || step.AppendEnqueued?
       case _ => false
  }

  predicate NewAndSafe(job: Job, next: nat, seen: set<string>)
    requires next < |job.plan|
  {
    var rel := Normalize(job.plan[next].rel);
    rel !in seen && CheckRel(rel).Success?
  }

  predicate Grows(d: Disk, d': Disk) { Lengthens(d, d') && |d.journal.value| < |d'.journal.value| }

  lemma WritingAppends(job: Job, w: World, step: Step)
    requires w.proc.Writing? && w.disk.journal.Some? && !step.CommitLocally?
    requires Grows(w.disk, WritingStep(job, w, step).disk) && Act(job, w, step) == WritingStep(job, w, step)
    ensures Appends(job, w, step)
  {
    hide Act, Journal, Resolve, Normalize, CheckRel, Put, PriorOf, BackupReady, Staged, LineBytes;
  }

  lemma FinishingAppends(job: Job, w: World, step: Step)
    requires w.proc.Finishing? && w.disk.journal.Some?
    requires Grows(w.disk, FinishingStep(job, w, step).disk) && Act(job, w, step) == FinishingStep(job, w, step)
    ensures Appends(job, w, step)
  {
    hide Act, Journal, LineBytes;
  }

  lemma RestoringKeepsJournal(job: Job, w: World, step: Step)
    requires w.proc.Restoring?
    ensures !Grows(w.disk, RestoringStep(job, w, step).disk)
  {
    hide Journal, LineBytes, RestoreOne, Staged, Resolve, Restorable;
  }

  lemma RecoveryKeepsJournal(job: Job, w: World, step: Step)
    requires !w.proc.Opened? && !w.proc.Writing? && !w.proc.Finishing? && !w.proc.Restoring?
    ensures !Grows(w.disk, Act(job, w, step).disk)
  {
    hide Act;
    RecoveryJournal(job, w, step);
  }

  lemma RecoveryJournal(job: Job, w: World, step: Step)
    requires !w.proc.Opened? && !w.proc.Writing? && !w.proc.Finishing? && !w.proc.Restoring?
    ensures var after := Act(job, w, step).disk.journal;
      after == w.disk.journal || after == None || after == Some([])
  {
    QueueingKeepsJournal(job, w, step);
    hide Journal, WritingStep, FinishingStep, RestoringStep, OtherKeys, QueueActions;
  }

  lemma QueueingKeepsJournal(job: Job, w: World, step: Step)
    ensures step.EnqueueActions? ==> QueueActions(job, w, step.at, step.durable).disk.journal == w.disk.journal
  {
    hide Journal, QueueRuns.Durable, QueueRuns.BatchEvents;
  }

  lemma OpenedAppends(job: Job, w: World, step: Step)
    requires w.proc.Opened? && !step.CommitLocally? && Grows(w.disk, Act(job, w, step).disk)
    ensures Appends(job, w, step)
  {
    hide Journal, LineBytes;
  }

  lemma OutsideKeepsJournal(job: Job, w: World, step: Step)
    requires step.Crash? || step.OtherQueueEvents? || step.MoveHead?
    ensures !Grows(w.disk, Act(job, w, step).disk)
  {
  }

  lemma OnlyAppendsLengthen(job: Job, w: World, step: Step)
    requires !step.CommitLocally? && !step.Torn? && Grows(w.disk, Act(job, w, step).disk)
    ensures Appends(job, w, step)
  {
    hide *;
    GrowsIs(w.disk, Act(job, w, step).disk);
    if step.Crash? || step.OtherQueueEvents? || step.MoveHead? {
      OutsideKeepsJournal(job, w, step);
    } else if w.proc.Writing? {
      ActWriting(job, w, step);
      WritingAppends(job, w, step);
    } else if w.proc.Finishing? {
      ActFinishing(job, w, step);
      FinishingAppends(job, w, step);
    } else if w.proc.Opened? {
      OpenedAppends(job, w, step);
    } else if w.proc.Restoring? {
      ActRestoring(job, w, step);
      RestoringKeepsJournal(job, w, step);
    } else {
      RecoveryKeepsJournal(job, w, step);
    }
  }

  lemma GrowsIs(d: Disk, d': Disk)
    requires Grows(d, d')
    ensures d.journal.Some? && d'.journal.Some?
  {
  }

  lemma ActRestoring(job: Job, w: World, step: Step)
    requires w.proc.Restoring? && !step.Crash? && !step.OtherQueueEvents? && !step.MoveHead?
    ensures Act(job, w, step) == RestoringStep(job, w, step)
  {
    hide RestoringStep;
  }

  lemma ActWriting(job: Job, w: World, step: Step)
    requires w.proc.Writing? && w.disk.journal.Some?
    requires !step.Crash? && !step.OtherQueueEvents? && !step.MoveHead?
    ensures Act(job, w, step) == WritingStep(job, w, step)
  {
    hide WritingStep;
  }

  lemma ActFinishing(job: Job, w: World, step: Step)
    requires w.proc.Finishing? && w.disk.journal.Some?
    requires !step.Crash? && !step.OtherQueueEvents? && !step.MoveHead?
    ensures Act(job, w, step) == FinishingStep(job, w, step)
  {
    hide FinishingStep;
  }

  // Once the process is dead, only what the journal reads as matters.
  lemma SameReadingKeepsInv(job: Job, w: World, journal: seq<Byte>)
    requires Inv(job, w) && w.disk.journal.Some?
    requires Journal(job, w.disk.(journal := Some(journal))) == Journal(job, w.disk)
    ensures Inv(job, w.(disk := w.disk.(journal := Some(journal)), proc := Dead))
  {
    hide StrictRecords, Intact, HandedOff, FilesAfter, CodecOk, TouchOf, PathUndoable;
  }

  // A journal nobody can read, with the files still the initial ones.
  lemma UnreadableKeepsInv(job: Job, w: World, step: Step, journal: seq<Byte>)
    requires Inv(job, w) && Appends(job, w, step) && !w.disk.applied && w.disk.files == job.initial
    requires StrictRecords(job.codec, journal).None? && !step.AppendCommitBegun?
    ensures Inv(job, w.(disk := w.disk.(journal := Some(journal)), proc := Dead))
  {
    IntactEmpty(job.codec);
    hide StrictRecords, Intact, HandedOff, FilesAfter, CodecOk, TouchOf, PathUndoable, Act;
    assert w.disk.committed.None?;
  }

  lemma AppliedIsFinishing(job: Job, w: World, step: Step)
    requires Inv(job, w) && Appends(job, w, step)
    ensures Writable(w.disk)
    ensures w.disk.applied ==> step.AppendMarked? || step.AppendEnqueued?
    ensures !w.disk.applied ==> HandedCount(job, w.disk.queue) == 0
    ensures QueueOk(job, w.disk.queue) && CodecOk(job.codec)
  {
    IntactEmpty(job.codec);
    hide StrictRecords, Intact, HandedOff, FilesAfter, CodecOk, TouchOf, PathUndoable, Act;
  }

  lemma FixedRecordsAreAscii(job: Job, w: World, step: Step)
    requires CodecOk(job.codec)
    requires step.AppendMarked? || step.AppendEnqueued? || step.AppendCommitBegun?
    ensures Utf8.IsAscii(job.codec.enc(RecordOf(job, w, step)))
  {
  }

  /** A torn append is as if it had not been made, or had been made, or it leaves a journal nobody can
      read; and then the undo log is lost only if the files had changed. */
  lemma TornKeepsReachable(job: Job, w: World, step: Step, durable: nat)
    requires Inv(job, w) && !w.lost && Appends(job, w, step) && Inv(job, Act(job, w, step))
    requires durable < |LineBytes(job.codec, RecordOf(job, w, step))|
    ensures
      var torn := w.disk.(journal := Some(w.disk.journal.value + LineBytes(job.codec, RecordOf(job, w, step))[..durable]));
      Reachable(job, w.(disk := torn, proc := Dead, lost := Unreadable(job, torn) && w.disk.files != job.initial))
  {
    var rec, before := RecordOf(job, w, step), w.disk.journal.value;
    var bytes := before + LineBytes(job.codec, rec)[..durable];
    var torn := w.disk.(journal := Some(bytes));
    AppliedIsFinishing(job, w, step);
    TornLine(job.codec, before, rec, durable);
    var seen := StrictRecords(job.codec, bytes);
    var d' := Append(job, w.disk, rec);
    LineAdds(job.codec, before, rec);
    hide Inv, Act, RecordOf, LineBytes, StrictRecords, Utf8.IsAscii, CodecOk, ReadState, HandedCount, QueueOk, Intact;
    if seen == StrictRecords(job.codec, before) {
      SameReadingKeepsInv(job, w, bytes);
    } else if seen == StrictRecords(job.codec, before + LineBytes(job.codec, rec)) {
      SameReadingKeepsInv(job, Act(job, w, step), bytes);
      SameButJournal(job, w, step, bytes);
    } else {
      if step.AppendMarked? || step.AppendEnqueued? || step.AppendCommitBegun? {
        FixedRecordsAreAscii(job, w, step);
        assert false;
      }
      if w.disk.files == job.initial { UnreadableKeepsInv(job, w, step, bytes); }
    }
  }

  lemma SameButJournal(job: Job, w: World, step: Step, bytes: seq<Byte>)
    requires Appends(job, w, step)
    ensures
      var w' := Act(job, w, step);
      w'.(disk := w'.disk.(journal := Some(bytes)), proc := Dead) == w.(disk := w.disk.(journal := Some(bytes)), proc := Dead)
  {
    hide Journal, LineBytes, Normalize, CheckRel, Resolve, PriorOf, BackupReady;
  }

  // ── Every step ──────────────────────────────────────────────────────────────

  lemma ClosedIs(d: Disk)
    ensures Closed(d) == d.(journal := None, backups := map[])
  {
  }

  lemma LostStays(job: Job, w: World, step: Step)
    requires LostInv(job, w) && w.lost
    ensures Reachable(job, Do(job, w, step))
  {
    hide StrictRecords, HandedOff, FilesAfter, TouchOf, PathUndoable, WritingStep, FinishingStep, RestoringStep,
         QueueOk, HandedCount, UncommittingStep, QueueActions, Inv, ReadState, Closed, Append;
    if step.OtherQueueEvents? && OtherKeys(job, step.events) { OthersQueue(job, w.disk.queue, step.events); }
    ClosedIs(w.disk);
  }

  lemma TornIs(job: Job, w: World, step: Step)
    requires step.Torn?
    ensures
      var d, d' := w.disk, Act(job, w, step.append).disk;
      if !step.append.CommitLocally? && Grows(d, d') && |d.journal.value| + step.durable < |d'.journal.value| then
        var torn := d.(journal := Some(d'.journal.value[..|d.journal.value| + step.durable]));
        Do(job, w, step)
        == w.(disk := torn, proc := Dead, lost := w.lost || (Unreadable(job, torn) && d.files != job.initial))
      else Do(job, w, step) == w
  {
    hide Act, Unreadable;
  }

  lemma TornTwice(job: Job, w: World, step: Step)
    requires step.Torn?
    ensures !Grows(w.disk, Act(job, w, step).disk)
  {
    hide Journal, LineBytes, Normalize, CheckRel, Resolve, PriorOf, BackupReady;
  }

  lemma TornStepKeepsReachable(job: Job, w: World, step: Step)
    requires Inv(job, w) && !w.lost && step.Torn?
    ensures Reachable(job, Do(job, w, step))
  {
    NotLost(job, w);
    hide *;
    TornIs(job, w, step);
    var d, d', n := w.disk, Act(job, w, step.append).disk, step.durable;
    if step.append.Torn? { TornTwice(job, w, step.append); }
    if !step.append.CommitLocally? && Grows(d, d') {
      GrowsIs(d, d');
      if |d.journal.value| + n < |d'.journal.value| {
        OnlyAppendsLengthen(job, w, step.append);
        ActKeepsInv(job, w, step.append);
        AppendedBytes(job, w, step.append);
        TornKeepsReachable(job, w, step.append, n);
        var line := LineBytes(job.codec, RecordOf(job, w, step.append));
        assert (d.journal.value + line)[..|d.journal.value| + n] == d.journal.value + line[..n];
      }
    }
  }

  /** Every step, torn after any byte or not, keeps what every reachable state satisfies. */
  lemma StepKeepsReachable(job: Job, w: World, step: Step)
    requires Reachable(job, w)
    ensures Reachable(job, Do(job, w, step))
  {
    NotLost(job, w);
    hide *;
    if w.lost {
      LostStays(job, w, step);
    } else if step.Torn? {
      TornStepKeepsReachable(job, w, step);
    } else {
      ActKeepsInv(job, w, step);
      ActKeepsLost(job, w, step);
      ActIsDo(job, w, step);
      NotLost(job, Do(job, w, step));
    }
  }

  lemma NotLost(job: Job, w: World)
    ensures !w.lost ==> (Reachable(job, w) <==> Inv(job, w))
    ensures w.lost ==> (Reachable(job, w) <==> LostInv(job, w))
  {
    hide Inv, LostInv;
  }

  lemma AppendedBytes(job: Job, w: World, step: Step)
    requires Appends(job, w, step)
    ensures w.disk.journal.Some?
    ensures Act(job, w, step).disk.journal
         == Some(w.disk.journal.value + LineBytes(job.codec, RecordOf(job, w, step)))
  {
    hide Act;
  }

  lemma ActIsDo(job: Job, w: World, step: Step)
    requires !step.Torn?
    ensures Do(job, w, step) == Act(job, w, step)
  {
    hide Act;
  }

  lemma WritingKeepsLost(job: Job, w: World, step: Step)
    requires w.proc.Writing? && w.disk.journal.Some?
    ensures WritingStep(job, w, step).lost == w.lost
  {
    hide Append, Journal, Resolve, Normalize, CheckRel, Put, PriorOf, BackupReady, Staged;
  }

  lemma RestoringKeepsLost(job: Job, w: World, step: Step)
    requires w.proc.Restoring?
    ensures RestoringStep(job, w, step).lost == w.lost
  {
    hide Journal, RestoreOne, Staged, Resolve, Restorable;
  }

  lemma ActKeepsLost(job: Job, w: World, step: Step)
    ensures Act(job, w, step).lost == w.lost
  {
    hide WritingStep, RestoringStep, Append, Journal;
    if w.proc.Writing? && w.disk.journal.Some? { WritingKeepsLost(job, w, step); }
    if w.proc.Restoring? { RestoringKeepsLost(job, w, step); }
  }

  lemma {:induction false} RunKeepsReachable(job: Job, steps: seq<Step>)
    requires GoodJob(job)
    ensures Reachable(job, After(job, steps))
  {
    if steps == [] {
      HandedIs(job, job.queue0, 0);
    } else {
      hide Reachable, Do;
      RunKeepsReachable(job, steps[..|steps| - 1]);
      StepKeepsReachable(job, After(job, steps[..|steps| - 1]), steps[|steps| - 1]);
    }
  }
}
