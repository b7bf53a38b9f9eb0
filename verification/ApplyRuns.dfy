/** One apply as a system that can lose power at any point: between a journal record and its
    effect, after any byte of a journal record, in the middle of a staged copy or a queue append, and
    during recovery itself. */
module ApplyRuns {
  import opened Wrappers
  import opened Text
  import opened JsonLines
  import opened LineFiles
  import Utf8
  import opened QueueModel
  import QueueRuns
  import opened QueueHandOff
  import opened ApplyFiles

  // ── Journal records ─────────────────────────────────────────────────────────

  datatype Record =
    | BeginRecord(draftId: string, actions: seq<NewAction>, priorHead: Option<string>)
    | PriorRecord(prior: Prior)
    | CommitBegunRecord
    | FileMovedRecord(rel: string)
    | LocalCommittedRecord(commit: string)
    | MarkedAppliedRecord
    | EnqueuedRecord

  datatype JournalState = JournalState(
    begun: bool, draftId: string, priorHead: Option<string>, actions: seq<NewAction>,
    priors: seq<Prior>, moved: seq<string>, localCommit: Option<string>, markedApplied: bool)

  const BLANK := JournalState(false, "", None, [], [], [], None, false)

  function ReadOne(s: JournalState, rec: Record): JournalState {
    match rec
    case BeginRecord(draftId, actions, priorHead) =>
      s.(begun := true, draftId := draftId, priorHead := priorHead, actions := actions)
    case PriorRecord(prior) => s.(priors := s.priors + [prior])
    case FileMovedRecord(rel) => s.(moved := s.moved + [rel])
    case LocalCommittedRecord(commit) => s.(localCommit := Some(commit))
    case MarkedAppliedRecord => s.(markedApplied := true)
    case _ => s
  }

  function ReadState(recs: seq<Record>): JournalState {
    if recs == [] then BLANK else ReadOne(ReadState(recs[..|recs| - 1]), recs[|recs| - 1])
  }

  lemma ReadNext(recs: seq<Record>, rec: Record)
    ensures ReadState(recs + [rec]) == ReadOne(ReadState(recs), rec)
  {
    assert (recs + [rec])[..|recs + [rec]| - 1] == recs;
  }

  /** Text outside ASCII is written as it is, and only the fields of a record can hold any. */
  ghost predicate PlainText(c: Codec<Record>) {
    && (forall p: Prior :: Utf8.IsAscii(c.enc(PriorRecord(p))) <==> Utf8.IsAscii(p.rel))
    && (forall rel: string :: Utf8.IsAscii(c.enc(FileMovedRecord(rel))) <==> Utf8.IsAscii(rel))
    && Utf8.IsAscii(c.enc(CommitBegunRecord)) && Utf8.IsAscii(c.enc(MarkedAppliedRecord))
    && Utf8.IsAscii(c.enc(EnqueuedRecord))
  }

  ghost predicate CodecOk(c: Codec<Record>) { Sound(c) && PlainText(c) }

  // ── The system ──────────────────────────────────────────────────────────────

  datatype Write = Write(rel: string, content: string)

  /** What one apply sets out to do, the files and queue it starts from, and how its journal is
      written. */
  datatype Job = Job(draftId: string, actions: seq<NewAction>, priorHead: Option<string>,
                     plan: seq<Write>, initial: Files, queue0: seq<Event>, codec: Codec<Record>)

  /** Everything durable. `journal` is the journal file, byte by byte; None means its directory is
      gone. `applied` is the draft's status, `committed` the apply's own local commit while it stands,
      `headMoved` whether the repository's head is no longer that commit. */
  datatype Disk = Disk(files: Files, journal: Option<seq<Byte>>, backups: Backups, applied: bool,
                       committed: Option<string>, headMoved: bool, queue: seq<Event>)

  datatype Sub = AtTop | PriorSaved | StagedFully | Moved

  // The volatile part: what the apply, or a recovery, is in the middle of.
  datatype Proc =
    | Dead
    | Starting
    | Opened
    | Writing(next: nat, seen: set<string>, nextBackup: nat, sub: Sub)
    | Finishing(stage: nat)
    | Restoring(left: nat, failed: bool, inProcess: bool)
    | Uncommitting
    | Forwarding

  // The undo log of a completed roll-back, and the commit its journal knew of.
  datatype Rolled = Rolled(priors: seq<Prior>, backups: Backups, commit: Option<string>)

  /** The last four are history: the completed roll-back, whether it was the caller who gave up,
      whether recovery passed over a commit because the head had moved, and whether a torn record made
      the journal unreadable while the files were not the initial ones. */
  datatype World = World(disk: Disk, proc: Proc, rolled: Option<Rolled>, abandoned: bool, spared: bool, lost: bool)

  function Init(job: Job): World {
    World(Disk(job.initial, None, map[], false, None, false, job.queue0), Starting, None, false, false, false)
  }

  datatype Step =
    | MakeDirectory
    | AppendBegin
    | AppendCommitBegun
    | CopyBackup(content: string)      // any content: a torn copy is followed by a crash
    | AppendPrior
    | CopyStaged(content: string)      // any content, as above
    | FinishCopy
    | RenameStaged
    | AppendMoved
    | CommitLocally(commit: string)    // the commit and its record are one step
    | FlipStatus
    | AppendMarked
    | EnqueueActions(at: int, durable: nat)
    | AppendEnqueued
    | CloseJournal
    | Abandon
    | Crash
    | StartRecovery(statusReadable: bool)
    | UndoCommit(gitWorks: bool)
    | CleanTemporary
    | CopyRestored(content: string)
    | RestoreNext(ok: bool)
    | FinishRollback
    | OtherQueueEvents(events: seq<Event>)
    | MoveHead(away: bool)
    | Torn(append: Step, durable: nat)  // power is lost after some bytes of a journal append

  function Append(job: Job, d: Disk, rec: Record): Disk
    requires d.journal.Some?
  {
    d.(journal := Some(d.journal.value + LineBytes(job.codec, rec)))
  }

  /** What recovery makes of the journal: nothing at all when some byte of it is not text. */
  function Journal(job: Job, d: Disk): JournalState {
    if d.journal.None? then BLANK
    else match StrictRecords(job.codec, d.journal.value)
      case Some(recs) => ReadState(recs)
      case None => BLANK
  }

  function Closed(d: Disk): Disk { d.(journal := None, backups := map[]) }

  predicate OtherKeys(job: Job, events: seq<Event>) {
    forall i | 0 <= i < |events| && events[i].EnqueuedEvent? :: events[i].action.Key() !in KeySet(job.actions)
  }

  // The prior that saving `rel` now would record.
  function PriorOf(files: Files, rel: string, nextBackup: nat): Prior {
    if Resolve(rel) in files then Prior(rel, true, Some(nextBackup)) else Prior(rel, false, None)
  }

  // The backup of an existing file is a complete copy of it.
  predicate BackupReady(d: Disk, prior: Prior) {
    prior.existed ==> prior.backup.Some? && Look(d.backups, prior.backup.value) == Look(d.files, Resolve(prior.rel))
  }

  // Bookkeeping records, the local commit, the flip, and giving up.
  function NoteStep(job: Job, w: World, step: Step): World
    requires w.proc.Writing? && w.disk.journal.Some?
  {
    var d, p := w.disk, w.proc;
    if step.AppendCommitBegun? && p.sub.AtTop? then w.(disk := Append(job, d, CommitBegunRecord))
    else if step.CommitLocally? && p.sub.AtTop? && p.next == |job.plan| && d.committed.None? then
      w.(disk := Append(job, d, LocalCommittedRecord(step.commit)).(committed := Some(step.commit)))
    else if step.FlipStatus? && p.sub.AtTop? && p.next == |job.plan| then
      w.(disk := d.(applied := true), proc := Finishing(0))
    else if step.Abandon? then w.(proc := Restoring(|Journal(job, d).priors|, false, true))
    else w
  }

  // Saving the prior state of the next path.
  function SaveStep(job: Job, w: World, step: Step): World
    requires w.proc.Writing? && w.disk.journal.Some? && w.proc.next < |job.plan|
  {
    var d, p, rel := w.disk, w.proc, Normalize(job.plan[w.proc.next].rel);
    if !p.sub.AtTop? then w
    else if step.CopyBackup? then w.(disk := d.(backups := d.backups[p.nextBackup := step.content]))
    else if !step.AppendPrior? || CheckRel(rel).Failure? then w
    else if rel in p.seen then w.(proc := p.(sub := PriorSaved))
    else
      var prior := PriorOf(d.files, rel, p.nextBackup);
      if !BackupReady(d, prior) then w
      else w.(disk := Append(job, d, PriorRecord(prior)),
              proc := p.(seen := p.seen + {rel}, sub := PriorSaved,
                         nextBackup := p.nextBackup + if prior.existed then 1 else 0))
  }

  // Putting the new content of the next path in place.
  function MoveStep(job: Job, w: World, step: Step): World
    requires w.proc.Writing? && w.disk.journal.Some? && w.proc.next < |job.plan|
  {
    var d, p, rel := w.disk, w.proc, Normalize(job.plan[w.proc.next].rel);
    var path, content := Resolve(rel), job.plan[p.next].content;
    if step.CopyStaged? && p.sub.PriorSaved? then w.(disk := d.(files := d.files[Staged(path) := step.content]))
    else if step.FinishCopy? && p.sub.PriorSaved? then
      w.(disk := d.(files := d.files[Staged(path) := content]), proc := p.(sub := StagedFully))
    else if step.RenameStaged? && p.sub.StagedFully? && Staged(path) in d.files then
      w.(disk := d.(files := Put(d.files, path, d.files[Staged(path)])), proc := p.(sub := Moved))
    else if step.AppendMoved? && p.sub.Moved? then
      w.(disk := Append(job, d, FileMovedRecord(rel)), proc := p.(next := p.next + 1, sub := AtTop))
    else w
  }

  function WritingStep(job: Job, w: World, step: Step): World
    requires w.proc.Writing? && w.disk.journal.Some?
  {
    if step.AppendCommitBegun? || step.CommitLocally? || step.FlipStatus? || step.Abandon? then NoteStep(job, w, step)
    else if w.proc.next >= |job.plan| then w
    else if step.CopyBackup? || step.AppendPrior? then SaveStep(job, w, step)
    else MoveStep(job, w, step)
  }

  function QueueActions(job: Job, w: World, at: int, durable: nat): World {
    var d := w.disk;
    w.(disk := d.(queue := d.queue + QueueRuns.Durable(QueueRuns.BatchEvents(d.queue, Journal(job, d).actions, at), durable)))
  }

  function FinishingStep(job: Job, w: World, step: Step): World
    requires w.proc.Finishing? && w.disk.journal.Some?
  {
    var d, stage := w.disk, w.proc.stage;
    if step.AppendMarked? && stage == 0 then w.(disk := Append(job, d, MarkedAppliedRecord), proc := Finishing(1))
    else if step.EnqueueActions? && stage <= 1 then
      QueueActions(job, w, step.at, step.durable)
        .(proc := if step.durable >= |Journal(job, d).actions| then Finishing(2) else Dead)
    else if step.AppendEnqueued? && stage == 2 then w.(disk := Append(job, d, EnqueuedRecord), proc := Finishing(3))
    else if step.CloseJournal? && stage == 3 then w.(disk := Closed(d), proc := Dead)
    else w
  }

  function RestoringStep(job: Job, w: World, step: Step): World
    requires w.proc.Restoring?
  {
    var d, p := w.disk, w.proc;
    var priors := Journal(job, d).priors;
    if step.FinishRollback? && p.left == 0 then
      if p.failed then w.(proc := Dead)
      else w.(disk := Closed(d), proc := Dead, abandoned := p.inProcess,
                  rolled := Some(Rolled(priors, d.backups, Journal(job, d).localCommit)))
    else if p.left == 0 || p.left > |priors| then w
    else
      var prior := priors[p.left - 1];
      var temp := Staged(Resolve(prior.rel));
      if step.CleanTemporary? then w.(disk := d.(files := Erase(d.files, temp)))
      else if step.CopyRestored? && prior.existed then w.(disk := d.(files := d.files[temp := step.content]))
      else if step.RestoreNext? && step.ok && Restorable(prior, d.backups) then
        w.(disk := d.(files := RestoreOne(d.files, prior, d.backups)), proc := p.(left := p.left - 1))
      else if step.RestoreNext? then w.(proc := p.(left := p.left - 1, failed := true))
      else w
  }

  /** Recovery reads the journal, then the durable status decides. */
  function RecoveryStart(job: Job, w: World, statusReadable: bool): World
    requires w.proc.Dead? && w.disk.journal.Some?
  {
    var d := w.disk;
    var s := Journal(job, d);
    if !s.begun then w.(disk := Closed(d))
    else if !statusReadable then w
    else if d.applied then w.(proc := Forwarding)
    else if s.localCommit.Some? then w.(proc := Uncommitting)
    else w.(proc := Restoring(|s.priors|, false, false))
  }

  // The local commit is undone only while it is the repository's head.
  function UncommittingStep(job: Job, w: World, gitWorks: bool): World {
    var d, s := w.disk, Journal(job, w.disk);
    var restoring := Restoring(|s.priors|, false, false);
    if !gitWorks then w.(proc := Dead)
    else if d.committed.None? || d.headMoved then w.(proc := restoring, spared := d.committed.Some?)
    else if s.priorHead.None? then w.(proc := Dead)
    else w.(disk := d.(committed := None), proc := restoring, spared := false)
  }

  // One step that is not torn.
  function Act(job: Job, w: World, step: Step): World {
    var d := w.disk;
    if step.Crash? then w.(proc := Dead)
    else if step.OtherQueueEvents? then
      if OtherKeys(job, step.events) then w.(disk := d.(queue := d.queue + step.events)) else w
    else if step.MoveHead? then w.(disk := d.(headMoved := step.away))
    else match w.proc
      case Starting => if step.MakeDirectory? then w.(disk := d.(journal := Some([])), proc := Opened) else w
      case Opened =>
        if step.AppendBegin? && d.journal.Some? then
          w.(disk := Append(job, d, BeginRecord(job.draftId, job.actions, job.priorHead)), proc := Writing(0, {}, 0, AtTop))
        else w
      case Writing(_, _, _, _) => if d.journal.Some? then WritingStep(job, w, step) else w
      case Finishing(_) => if d.journal.Some? then FinishingStep(job, w, step) else w
      case Restoring(_, _, _) => RestoringStep(job, w, step)
      case Dead =>
        if step.StartRecovery? && d.journal.Some? then RecoveryStart(job, w, step.statusReadable) else w
      case Uncommitting => if step.UndoCommit? then UncommittingStep(job, w, step.gitWorks) else w
      case Forwarding =>
        if !step.EnqueueActions? then w
        else
          var w' := QueueActions(job, w, step.at, step.durable);
          if step.durable >= |Journal(job, d).actions| then w'.(disk := Closed(w'.disk), proc := Dead)
          else w'.(proc := Dead)
  }

  predicate Unreadable(job: Job, d: Disk) {
    d.journal.Some? && StrictRecords(job.codec, d.journal.value).None?
  }

  /** One step. A step that cannot be taken changes nothing. A torn append leaves some of the bytes
      it would have added; the record of a local commit is one step with the commit. */
  function Do(job: Job, w: World, step: Step): World {
    if !step.Torn? then Act(job, w, step)
    else
      var d, d' := w.disk, Act(job, w, step.append).disk;
      if step.append.CommitLocally? || !Lengthens(d, d') || |d.journal.value| + step.durable >= |d'.journal.value| then w
      else
        var torn := d.(journal := Some(d'.journal.value[..|d.journal.value| + step.durable]));
        w.(disk := torn, proc := Dead, lost := w.lost || (Unreadable(job, torn) && d.files != job.initial))
  }

  predicate Lengthens(d: Disk, d': Disk) {
    d.journal.Some? && d'.journal.Some? && d.journal.value <= d'.journal.value
  }

  /** The state after any sequence of steps. */
  function After(job: Job, steps: seq<Step>): World {
    if steps == [] then Init(job) else Do(job, After(job, steps[..|steps| - 1]), steps[|steps| - 1])
  }

  // ── The invariant ───────────────────────────────────────────────────────────

  /** The files once the first `n` writes of the plan are in place. */
  function FilesAfter(initial: Files, plan: seq<Write>, n: nat): Files
    requires n <= |plan|
  {
    if n == 0 then initial
    else Put(FilesAfter(initial, plan, n - 1), Resolve(plan[n - 1].rel), plan[n - 1].content)
  }

  function NewFiles(job: Job): Files { FilesAfter(job.initial, job.plan, |job.plan|) }

  // How many of the job's actions the queue holds.
  function HandedCount(job: Job, queue: seq<Event>): nat {
    |Mine(Replay(queue).order, KeySet(job.actions))|
  }

  ghost predicate QueueOk(job: Job, queue: seq<Event>) {
    HandedOff(Replay(queue), job.actions, HandedCount(job, queue))
  }

  function AllHanded(job: Job): nat { |Distinct(job.actions)| }

  // The apply owns its keys, and none of them is queued yet.
  ghost predicate GoodJob(job: Job) {
    HandedOff(Replay(job.queue0), job.actions, 0) && CodecOk(job.codec)
  }

  predicate FromPlan(job: Job, priors: seq<Prior>) {
    forall i | 0 <= i < |priors| :: exists k :: 0 <= k < |job.plan| && priors[i].rel == Normalize(job.plan[k].rel)
  }

  predicate BackupsBelow(priors: seq<Prior>, n: nat) {
    forall i | 0 <= i < |priors| && priors[i].existed && priors[i].backup.Some? :: priors[i].backup.value < n
  }

  // An open journal describes this job.
  ghost predicate JournalOk(job: Job, d: Disk) {
    var s := Journal(job, d);
    && (s.begun ==> s.actions == job.actions && s.priorHead == job.priorHead)
    && (!s.begun ==> s.priors == [] && s.localCommit.None?)
    && FromPlan(job, s.priors)
  }

  /** Before the status flip: nothing is queued, and the files are the initial ones, rolled back, or
      still covered by the undo log. */
  ghost predicate BeforeFlip(job: Job, w: World) {
    var d, s := w.disk, Journal(job, w.disk);
    && HandedCount(job, d.queue) == 0
    && (s.begun ==>
          && Undoable(job.initial, d.files, s.priors, d.backups)
          && (d.committed.Some? ==> s.localCommit.Some?))
    && (!s.begun ==> AtRest(job, w))
  }

  // No apply is open: the files are as they were before it, or rolled back to that.
  ghost predicate AtRest(job: Job, w: World) {
    match w.rolled
    case None => w.disk.files == job.initial && w.disk.committed.None?
    case Some(Rolled(priors, backups, commit)) =>
      && AllRestorable(priors, backups) && FromPlan(job, priors)
      && w.disk.files == RolledBack(job.initial, priors, backups)
      && (w.disk.committed.Some? <==> commit.Some? && (w.abandoned || w.spared))
  }

  // The journal can take another record.
  predicate Writable(d: Disk) { d.journal.Some? && Intact(d.journal.value) }

  // After the status flip: every file is new, and a closed journal means everything is queued.
  ghost predicate AfterFlip(job: Job, w: World) {
    && w.disk.files == NewFiles(job)
    && (!Journal(job, w.disk).begun ==> w.disk.journal.None? && HandedCount(job, w.disk.queue) == AllHanded(job))
  }

  // The spellings of the first `n` paths of a plan.
  function SeenAfter(plan: seq<Write>, n: nat): set<string>
    requires n <= |plan|
  {
    if n == 0 then {} else SeenAfter(plan, n - 1) + {Normalize(plan[n - 1].rel)}
  }

  predicate SafeTo(job: Job, n: nat)
    requires n <= |job.plan|
  {
    forall k | 0 <= k < n :: CheckRel(Normalize(job.plan[k].rel)).Success?
  }

  // The paths whose prior state is saved are the safe ones up to the present write.
  predicate Checked(job: Job, p: Proc)
    requires p.Writing?
  {
    var n := if p.sub.AtTop? then p.next else p.next + 1;
    n <= |job.plan| && p.seen == SeenAfter(job.plan, n) && SafeTo(job, n)
  }

  ghost predicate WritingOk(job: Job, d: Disk, p: Proc)
    requires p.Writing?
  {
    var s := Journal(job, d);
    && Writable(d) && s.begun && !d.applied && p.next <= |job.plan|
    && (d.committed.Some? <==> s.localCommit.Some?)
    && (d.committed.Some? ==> p.next == |job.plan|)
    && Checked(job, p)
    && BackupsBelow(s.priors, p.nextBackup)
    && (forall r | r in p.seen :: HasPrior(s.priors, r))
    && (p.sub.AtTop? ==> d.files == FilesAfter(job.initial, job.plan, p.next))
    && (!p.sub.AtTop? ==> p.next < |job.plan| && InPlace(job, d, p))
  }

  ghost predicate HasPrior(priors: seq<Prior>, rel: string) {
    exists i :: 0 <= i < |priors| && priors[i].rel == rel
  }

  // One write is under way.
  ghost predicate InPlace(job: Job, d: Disk, p: Proc)
    requires p.Writing? && p.next < |job.plan|
  {
    var rel, content := Normalize(job.plan[p.next].rel), job.plan[p.next].content;
    var path := Resolve(rel);
    && HasPrior(Journal(job, d).priors, rel)
    && (p.sub.Moved? ==> d.files == FilesAfter(job.initial, job.plan, p.next + 1))
    && (!p.sub.Moved? ==>
          Erase(d.files, Staged(path)) == Erase(FilesAfter(job.initial, job.plan, p.next), Staged(path)))
    && (p.sub.StagedFully? ==> Look(d.files, Staged(path)) == Some(content))
  }

  ghost predicate RestoringOk(job: Job, w: World)
    requires w.proc.Restoring?
  {
    var d, p := w.disk, w.proc;
    var s := Journal(job, d);
    && s.begun && !d.applied && p.left <= |s.priors|
    && AllRestorable(s.priors, d.backups)
    && (d.committed.Some? <==> if p.inProcess then s.localCommit.Some? else w.spared)
    && (p.inProcess ==> !w.spared)
    && (!p.failed ==>
          RestoreAll(d.files, s.priors[..p.left], d.backups) == RolledBack(job.initial, s.priors, d.backups))
  }

  ghost predicate ProcOk(job: Job, w: World) {
    var d, s := w.disk, Journal(job, w.disk);
    match w.proc
    case Dead => true
    case Starting => d.journal.None? && w.rolled.None? && !d.applied
    case Opened => d.journal == Some([]) && w.rolled.None? && !d.applied
    case Writing(_, _, _, _) => WritingOk(job, d, w.proc) && !w.spared
    case Finishing(stage) => Writable(d) && s.begun && d.applied && (stage >= 2 ==> HandedCount(job, d.queue) == AllHanded(job))
    case Restoring(_, _, _) => RestoringOk(job, w)
    case Uncommitting => s.begun && !d.applied
    case Forwarding => s.begun && d.applied
  }

  ghost predicate Inv(job: Job, w: World) {
    && CodecOk(job.codec)
    && QueueOk(job, w.disk.queue)
    && JournalOk(job, w.disk)
    && (!w.disk.applied ==> BeforeFlip(job, w))
    && (w.disk.applied ==> AfterFlip(job, w))
    && ProcOk(job, w)
    && (w.rolled.Some? ==> w.disk.journal.None?)
    && (w.spared ==> w.disk.committed.Some?)
  }

  /** A torn record has cost the undo log: the files stay as they were then, the draft is not applied
      and nothing is queued. */
  ghost predicate LostInv(job: Job, w: World) {
    && QueueOk(job, w.disk.queue) && HandedCount(job, w.disk.queue) == 0
    && !w.disk.applied && w.proc.Dead? && w.disk.files != job.initial
    && (w.disk.journal.Some? ==> Unreadable(job, w.disk))
  }

  /** What every reachable state satisfies. */
  ghost predicate Reachable(job: Job, w: World) { if w.lost then LostInv(job, w) else Inv(job, w) }
}
