/** Any number of agents claiming and completing tasks at once: every read and write of the store is
    a step of its own, and an agent may stop for good between any two. */
module TaskRuns {
  import opened Wrappers
  import opened Tasks

  // Tasks and markers never expire, so a bucket is its live entries.
  type Store = map<string, string>

  /** One call of the claim or the completion, by its own number. */
  datatype Attempt =
    | Looked(task: Task, agent: string)    // read the task as pending
    | Marked(task: Task, agent: string)    // created the claim marker
    | Claimed(taskId: string, agent: string)
    | Completing(task: Task)               // read the task, about to store it as done
    | Over

  datatype State = State(store: Store, attempts: map<nat, Attempt>, owner: map<string, nat>)

  datatype Step =
    | Publish(task: Task)
    | LookUp(n: nat, taskId: string, agent: string)
    | CreateMarker(n: nat)
    | StoreClaim(n: nat)
    | LookToComplete(n: nat, taskId: string)
    | StoreDone(n: nat)
    | GiveUp(n: nat)

  const INIT := State(map[], map[], map[])

  function Stored(c: Codec, store: Store, key: string): Option<Task> {
    if key in store then c.dec(store[key]) else None
  }

  function PutTask(c: Codec, store: Store, task: Task): Store { store[task.id := c.enc(task)] }

  predicate Is(s: State, n: nat) { n in s.attempts }

  // `owner` is history: which attempt created a task's marker.
  function Do(c: Codec, s: State, step: Step): State {
    match step
    case Publish(task) => s.(store := PutTask(c, s.store, task))
    case LookUp(n, taskId, agent) =>
      if Is(s, n) then s
      else
        var task := Stored(c, s.store, taskId);
        s.(attempts := s.attempts[n :=
          if task.Some? && task.value.status.Pending? then Looked(task.value, agent) else Over])
    case CreateMarker(n) =>
      if !Is(s, n) || !s.attempts[n].Looked? then s
      else
        var a := s.attempts[n];
        var key := MarkerKey(a.task.id);
        if key in s.store then s.(attempts := s.attempts[n := Over])
        else s.(store := s.store[key := a.agent], attempts := s.attempts[n := Marked(a.task, a.agent)],
                owner := s.owner[a.task.id := n])
    case StoreClaim(n) =>
      if !Is(s, n) || !s.attempts[n].Marked? then s
      else
        var a := s.attempts[n];
        s.(store := PutTask(c, s.store, Taken(a.task, a.agent)), attempts := s.attempts[n := Claimed(a.task.id, a.agent)])
    case LookToComplete(n, taskId) =>
      if Is(s, n) then s
      else
        var task := Stored(c, s.store, taskId);
        s.(attempts := s.attempts[n := if task.Some? then Completing(task.value) else Over])
    case StoreDone(n) =>
      if !Is(s, n) || !s.attempts[n].Completing? then s
      else s.(store := PutTask(c, s.store, s.attempts[n].task.(status := Done)), attempts := s.attempts[n := Over])
    case GiveUp(n) =>
      if !Is(s, n) || s.attempts[n].Claimed? then s else s.(attempts := s.attempts[n := Over])
  }

  function After(c: Codec, steps: seq<Step>): State {
    if steps == [] then INIT else Do(c, After(c, steps[..|steps| - 1]), steps[|steps| - 1])
  }

  /** No task id starts like a claim marker, and nobody publishes a task as already in progress. */
  predicate Proper(step: Step) {
    match step
    case Publish(task) => !IsMarkerKey(task.id) && !task.status.InProgress?
    case LookUp(_, taskId, _) => !IsMarkerKey(taskId)
    case LookToComplete(_, taskId) => !IsMarkerKey(taskId)
    case _ => true
  }

  predicate AllProper(steps: seq<Step>) { forall i | 0 <= i < |steps| :: Proper(steps[i]) }

  // ── The invariant ───────────────────────────────────────────────────────────

  // A stored task sits under its own id; one in progress names the agent that owns it.
  ghost predicate EntryOk(c: Codec, s: State, key: string)
    requires key in s.store
  {
    !IsMarkerKey(key) ==>
      var t := c.dec(s.store[key]);
      && t.Some? && t.value.id == key
      && (t.value.status.InProgress? ==> OwnedBy(s, key, t.value.claimedBy))
  }

  ghost predicate OwnedBy(s: State, taskId: string, agent: Option<string>) {
    && agent.Some? && taskId in s.owner && Is(s, s.owner[taskId])
    && s.attempts[s.owner[taskId]] == Claimed(taskId, agent.value)
  }

  ghost predicate AttemptOk(s: State, n: nat)
    requires Is(s, n)
  {
    match s.attempts[n]
    case Looked(task, _) => !IsMarkerKey(task.id)
    case Marked(task, _) => !IsMarkerKey(task.id) && task.id in s.owner && s.owner[task.id] == n
    case Claimed(taskId, _) => taskId in s.owner && s.owner[taskId] == n
    case Completing(task) => !IsMarkerKey(task.id)
    case Over => true
  }

  ghost predicate Inv(c: Codec, s: State) {
    && (forall key | key in s.store :: EntryOk(c, s, key))
    && (forall n | Is(s, n) :: AttemptOk(s, n))
    && (forall t | t in s.owner :: MarkerKey(t) in s.store && Is(s, s.owner[t]))
  }

  lemma MarkerIsMarker(t: string)
    ensures IsMarkerKey(MarkerKey(t))
  {
  }

  // Storing a task that is not in progress, or whose owner has just claimed it.
  lemma PutKeepsEntries(c: Codec, s: State, s': State, task: Task)
    requires Sound(c) && Inv(c, s) && !IsMarkerKey(task.id)
    requires s'.store == PutTask(c, s.store, task) && s'.owner == s.owner
    requires forall t, agent | OwnedBy(s, t, agent) :: OwnedBy(s', t, agent)
    requires task.status.InProgress? ==> OwnedBy(s', task.id, task.claimedBy)
    ensures forall key | key in s'.store :: EntryOk(c, s', key)
  {
    forall key | key in s'.store ensures EntryOk(c, s', key) {
      if key != task.id { assert EntryOk(c, s, key); }
    }
  }

  lemma SameStoreKeepsEntries(c: Codec, s: State, s': State)
    requires Inv(c, s) && s'.store == s.store && s'.owner == s.owner
    requires forall t, agent | OwnedBy(s, t, agent) :: OwnedBy(s', t, agent)
    ensures forall key | key in s'.store :: EntryOk(c, s', key)
  {
    forall key | key in s'.store ensures EntryOk(c, s', key) { assert EntryOk(c, s, key); }
  }

  lemma PublishKeepsInv(c: Codec, s: State, task: Task)
    requires Sound(c) && Inv(c, s) && Proper(Publish(task))
    ensures Inv(c, Do(c, s, Publish(task)))
  {
    var s' := Do(c, s, Publish(task));
    PutKeepsEntries(c, s, s', task);
    forall n | Is(s', n) ensures AttemptOk(s', n) { assert AttemptOk(s, n); }
  }

  // A new attempt, or one that ends without having claimed.
  lemma AttemptMoves(c: Codec, s: State, n: nat, a: Attempt)
    requires Inv(c, s) && (Is(s, n) ==> !s.attempts[n].Claimed?)
    requires a.Looked? || a.Completing? ==> !IsMarkerKey(a.task.id)
    requires a.Looked? || a.Completing? || a.Over?
    ensures Inv(c, s.(attempts := s.attempts[n := a]))
  {
    var s' := s.(attempts := s.attempts[n := a]);
    SameStoreKeepsEntries(c, s, s');
    forall m | Is(s', m) ensures AttemptOk(s', m) { if m != n { assert AttemptOk(s, m); } }
  }

  lemma MarkKeepsInv(c: Codec, s: State, n: nat)
    requires Inv(c, s) && Is(s, n) && s.attempts[n].Looked? && MarkerKey(s.attempts[n].task.id) !in s.store
    ensures Inv(c, Do(c, s, CreateMarker(n)))
  {
    var s', a := Do(c, s, CreateMarker(n)), s.attempts[n];
    MarkerIsMarker(a.task.id);
    assert a.task.id !in s.owner;
    forall key | key in s'.store ensures EntryOk(c, s', key) {
      if key in s.store { assert EntryOk(c, s, key); }
    }
    forall m | Is(s', m) ensures AttemptOk(s', m) { if m != n { assert AttemptOk(s, m); } }
  }

  lemma ClaimKeepsInv(c: Codec, s: State, n: nat)
    requires Sound(c) && Inv(c, s) && Is(s, n) && s.attempts[n].Marked?
    ensures Inv(c, Do(c, s, StoreClaim(n)))
  {
    var s', a := Do(c, s, StoreClaim(n)), s.attempts[n];
    assert AttemptOk(s, n);
    PutKeepsEntries(c, s, s', Taken(a.task, a.agent));
    forall m | Is(s', m) ensures AttemptOk(s', m) { if m != n { assert AttemptOk(s, m); } }
  }

  lemma DoneKeepsInv(c: Codec, s: State, n: nat)
    requires Sound(c) && Inv(c, s) && Is(s, n) && s.attempts[n].Completing?
    ensures Inv(c, Do(c, s, StoreDone(n)))
  {
    var s', a := Do(c, s, StoreDone(n)), s.attempts[n];
    assert AttemptOk(s, n);
    PutKeepsEntries(c, s, s', a.task.(status := Done));
    forall m | Is(s', m) ensures AttemptOk(s', m) { if m != n { assert AttemptOk(s, m); } }
  }

  lemma StepKeepsInv(c: Codec, s: State, step: Step)
    requires Sound(c) && Inv(c, s) && Proper(step)
    ensures Inv(c, Do(c, s, step))
  {
    var s' := Do(c, s, step);
    match step
    case Publish(task) => PublishKeepsInv(c, s, task);
    case LookUp(n, taskId, agent) =>
      if !Is(s, n) {
        if taskId in s.store { assert EntryOk(c, s, taskId); }
        hide Inv;
        AttemptMoves(c, s, n, s'.attempts[n]);
      }
    case LookToComplete(n, taskId) =>
      if !Is(s, n) {
        if taskId in s.store { assert EntryOk(c, s, taskId); }
        hide Inv;
        AttemptMoves(c, s, n, s'.attempts[n]);
      }
    case CreateMarker(n) =>
      hide Inv;
      if Is(s, n) && s.attempts[n].Looked? {
        if MarkerKey(s.attempts[n].task.id) in s.store { AttemptMoves(c, s, n, Over); } else { MarkKeepsInv(c, s, n); }
      }
    case StoreClaim(n) => hide Inv; if Is(s, n) && s.attempts[n].Marked? { ClaimKeepsInv(c, s, n); }
    case StoreDone(n) => hide Inv; if Is(s, n) && s.attempts[n].Completing? { DoneKeepsInv(c, s, n); }
    case GiveUp(n) => hide Inv; if Is(s, n) && !s.attempts[n].Claimed? { AttemptMoves(c, s, n, Over); }
  }

  lemma {:induction false} RunKeepsInv(c: Codec, steps: seq<Step>)
    requires Sound(c) && AllProper(steps)
    ensures Inv(c, After(c, steps))
  {
    if steps != [] {
      RunKeepsInv(c, steps[..|steps| - 1]);
      StepKeepsInv(c, After(c, steps[..|steps| - 1]), steps[|steps| - 1]);
    }
  }

  // ── Results ─────────────────────────────────────────────────────────────────

  predicate Won(s: State, n: nat, taskId: string) {
    Is(s, n) && s.attempts[n].Claimed? && s.attempts[n].taskId == taskId
  }

  /** Race-free claiming: over every interleaving, of all the claims ever made on a task at most one
      returns true. */
  lemma AtMostOneClaimWins(c: Codec, steps: seq<Step>, n: nat, m: nat, taskId: string)
    requires Sound(c) && AllProper(steps)
    requires Won(After(c, steps), n, taskId) && Won(After(c, steps), m, taskId)
    ensures n == m
  {
    RunKeepsInv(c, steps);
    assert AttemptOk(After(c, steps), n) && AttemptOk(After(c, steps), m);
  }

  /** Left undisturbed, a claim wins exactly on a pending task without a marker, and then leaves the
      marker and the taken task. */
  lemma UndisturbedClaim(c: Codec, s: State, n: nat, taskId: string, agent: string)
    requires Sound(c) && Inv(c, s) && !Is(s, n) && !IsMarkerKey(taskId)
    ensures
      var s' := Do(c, Do(c, Do(c, s, LookUp(n, taskId, agent)), CreateMarker(n)), StoreClaim(n));
      var task := Stored(c, s.store, taskId);
      && (Won(s', n, taskId) <==> task.Some? && task.value.status.Pending? && MarkerKey(taskId) !in s.store)
      && s'.store == (if Won(s', n, taskId) then
                        s.store[MarkerKey(taskId) := agent][taskId := c.enc(Taken(task.value, agent))]
                      else s.store)
  {
    if taskId in s.store { assert EntryOk(c, s, taskId); }
  }

  /** Left undisturbed, a completion stores a readable task as done, whatever it was, and nothing else. */
  lemma UndisturbedCompletion(c: Codec, s: State, n: nat, taskId: string)
    requires Sound(c) && Inv(c, s) && !Is(s, n) && !IsMarkerKey(taskId)
    ensures
      var s', task := Do(c, Do(c, s, LookToComplete(n, taskId)), StoreDone(n)), Stored(c, s.store, taskId);
      && s'.store == (if task.Some? then s.store[taskId := c.enc(task.value.(status := Done))] else s.store)
      && (task.Some? ==> Stored(c, s'.store, taskId) == Some(task.value.(status := Done)))
  {
    if taskId in s.store {
      assert EntryOk(c, s, taskId);
      var task := Stored(c, s.store, taskId).value;
      assert c.dec(c.enc(task.(status := Done))) == Some(task.(status := Done));
    }
  }

  /** A published task is what is read, until something else is stored. */
  lemma PublishedIsStored(c: Codec, s: State, task: Task)
    requires Sound(c)
    ensures var s' := Do(c, s, Publish(task));
      && Stored(c, s'.store, task.id) == Some(task)
      && forall k | k != task.id :: Stored(c, s'.store, k) == Stored(c, s.store, k)
  {
    assert c.dec(c.enc(task)) == Some(task);
  }

  /** A task stored as in progress names the agent whose claim won. */
  lemma InProgressNamesTheWinner(c: Codec, steps: seq<Step>, taskId: string)
    requires Sound(c) && AllProper(steps) && !IsMarkerKey(taskId)
    requires var t := Stored(c, After(c, steps).store, taskId); t.Some? && t.value.status.InProgress?
    ensures
      var s := After(c, steps);
      var agent := Stored(c, s.store, taskId).value.claimedBy;
      && agent.Some? && taskId in s.owner
      && Won(s, s.owner[taskId], taskId) && s.attempts[s.owner[taskId]] == Claimed(taskId, agent.value)
  {
    RunKeepsInv(c, steps);
    assert EntryOk(c, After(c, steps), taskId);
  }

  function RunFrom(c: Codec, s: State, steps: seq<Step>): State
    decreases |steps|
  {
    if steps == [] then s else RunFrom(c, Do(c, s, steps[0]), steps[1..])
  }

  // The one attempt that may still win a task, if any.
  predicate Holds(s: State, n: nat, taskId: string) {
    Is(s, n) && ((s.attempts[n].Marked? && s.attempts[n].task.id == taskId) || Won(s, n, taskId))
  }

  /** A claimant that stops between its marker and storing the task blocks it for good: no later
      claim ever wins, although the task may still be listed as claimable. */
  lemma {:induction false} LostMarkerBlocks(c: Codec, s: State, steps: seq<Step>, taskId: string, n: nat)
    requires MarkerKey(taskId) in s.store && forall m :: !Holds(s, m, taskId)
    ensures !Won(RunFrom(c, s, steps), n, taskId)
    decreases |steps|
  {
    if steps == [] {
      assert !Holds(s, n, taskId);
    } else {
      var s' := Do(c, s, steps[0]);
      forall m ensures !Holds(s', m, taskId) { NobodyTakesOver(c, s, steps[0], taskId, m); }
      LostMarkerBlocks(c, s', steps[1..], taskId, n);
    }
  }

  lemma NobodyTakesOver(c: Codec, s: State, step: Step, taskId: string, m: nat)
    requires MarkerKey(taskId) in s.store && !Holds(s, m, taskId)
    ensures !Holds(Do(c, s, step), m, taskId) && MarkerKey(taskId) in Do(c, s, step).store
  {
  }

  // ── When done stays done ────────────────────────────────────────────────────

  // A claim that may still store the task in progress: it has its marker, or has seen the task pending
  // while the marker is free.
  predicate Threatens(s: State, n: nat, taskId: string) {
    Is(s, n) && (s.attempts[n].Looked? || s.attempts[n].Marked?) && s.attempts[n].task.id == taskId
    && (s.attempts[n].Looked? ==> MarkerKey(taskId) !in s.store)
  }

  predicate StoredDone(c: Codec, s: State, taskId: string) {
    Stored(c, s.store, taskId).Some? && Stored(c, s.store, taskId).value.status.Done?
  }

  predicate Republishes(steps: seq<Step>, taskId: string) {
    exists i :: 0 <= i < |steps| && steps[i].Publish? && steps[i].task.id == taskId
  }

  lemma DoneSurvivesStep(c: Codec, s: State, step: Step, taskId: string)
    requires Sound(c) && Inv(c, s) && Proper(step) && !IsMarkerKey(taskId)
    requires StoredDone(c, s, taskId) && !(step.Publish? && step.task.id == taskId)
    requires forall n :: !Threatens(s, n, taskId)
    ensures StoredDone(c, Do(c, s, step), taskId) && forall n :: !Threatens(Do(c, s, step), n, taskId)
  {
    var s' := Do(c, s, step);
    if step.CreateMarker? && Is(s, step.n) && s.attempts[step.n].Looked? { MarkerIsMarker(s.attempts[step.n].task.id); }
    if step.LookUp? && step.taskId in s.store { assert EntryOk(c, s, step.taskId); }
    forall n ensures !Threatens(s', n, taskId) { assert !Threatens(s, n, taskId); }
    if step.StoreClaim? { assert !Threatens(s, step.n, taskId); }
  }

  lemma {:induction false} DoneSurvives(c: Codec, s: State, steps: seq<Step>, taskId: string)
    requires Sound(c) && Inv(c, s) && AllProper(steps) && !IsMarkerKey(taskId)
    requires StoredDone(c, s, taskId) && (forall n :: !Threatens(s, n, taskId)) && !Republishes(steps, taskId)
    ensures StoredDone(c, RunFrom(c, s, steps), taskId)
    decreases |steps|
  {
    if steps != [] {
      assert Proper(steps[0]) && !(steps[0].Publish? && steps[0].task.id == taskId);
      assert AllProper(steps[1..]) && !Republishes(steps[1..], taskId);
      DoneSurvivesStep(c, s, steps[0], taskId);
      StepKeepsInv(c, s, steps[0]);
      DoneSurvives(c, Do(c, s, steps[0]), steps[1..], taskId);
    }
  }

  // Any such claim does overwrite the task, in two steps at most.
  lemma ThreatOverwrites(c: Codec, s: State, n: nat, taskId: string)
    requires Sound(c) && Threatens(s, n, taskId)
    ensures
      var steps := [CreateMarker(n), StoreClaim(n)];
      AllProper(steps) && !Republishes(steps, taskId) && !StoredDone(c, RunFrom(c, s, steps), taskId)
  {
    var steps, a := [CreateMarker(n), StoreClaim(n)], s.attempts[n];
    assert c.dec(c.enc(Taken(a.task, a.agent))) == Some(Taken(a.task, a.agent));
    var s1 := Do(c, s, steps[0]);
    assert steps[1..] == [StoreClaim(n)] && steps[1..][1..] == [];
    assert RunFrom(c, s, steps) == Do(c, s1, StoreClaim(n)) by {
      assert RunFrom(c, s1, steps[1..]) == RunFrom(c, Do(c, s1, StoreClaim(n)), []);
    }
  }

  /** Done stays done, whatever the agents do short of publishing the task again, if and only if no
      claim under way can still win the task: one that has its marker, or one that has seen the task
      pending while no marker is there. */
  lemma DoneStaysDone(c: Codec, s: State, taskId: string)
    requires Sound(c) && Inv(c, s) && !IsMarkerKey(taskId) && StoredDone(c, s, taskId)
    ensures (forall steps | AllProper(steps) && !Republishes(steps, taskId) :: StoredDone(c, RunFrom(c, s, steps), taskId))
      <==> forall n :: !Threatens(s, n, taskId)
  {
    hide Inv, StoredDone, Do, Threatens, AllProper, Republishes, RunFrom;
    if n :| Threatens(s, n, taskId) {
      ThreatOverwrites(c, s, n, taskId);
    } else {
      forall steps | AllProper(steps) && !Republishes(steps, taskId) ensures StoredDone(c, RunFrom(c, s, steps), taskId) {
        DoneSurvives(c, s, steps, taskId);
      }
    }
  }

  // ── Runs that end badly ─────────────────────────────────────────────────────

  lemma {:induction false} RunFromInit(c: Codec, a: seq<Step>, b: seq<Step>)
    ensures RunFrom(c, After(c, a), b) == After(c, a + b)
    decreases |b|
  {
    if b == [] {
      assert a + b == a;
    } else {
      assert (a + [b[0]])[..|a + [b[0]]| - 1] == a;
      assert a + b == (a + [b[0]]) + b[1..];
      RunFromInit(c, a + [b[0]], b[1..]);
    }
  }

  // A pending task, and one agent that has made its claim marker.
  function MarkedRun(taskId: string, agent: string): seq<Step> {
    [Publish(Task(taskId, "", [], Pending, None)), LookUp(0, taskId, agent), CreateMarker(0)]
  }

  lemma MarkerKeyDiffers(taskId: string)
    requires !IsMarkerKey(taskId)
    ensures MarkerKey(taskId) != taskId
  {
    MarkerIsMarker(taskId);
  }

  lemma MarkedState(c: Codec, taskId: string, agent: string)
    requires Sound(c) && !IsMarkerKey(taskId)
    ensures
      var task := Task(taskId, "", [], Pending, None);
      After(c, MarkedRun(taskId, agent))
      == State(map[taskId := c.enc(task), MarkerKey(taskId) := agent], map[0 := Marked(task, agent)], map[taskId := 0])
  {
    var run, task := MarkedRun(taskId, agent), Task(taskId, "", [], Pending, None);
    MarkerKeyDiffers(taskId);
    assert c.dec(c.enc(task)) == Some(task);
    assert run[..2][..1] == run[..1] && run[..1][..0] == [] && run[..0] == [];
    assert After(c, run[..1]) == State(map[taskId := c.enc(task)], map[], map[]);
    assert After(c, run[..2]) == State(map[taskId := c.enc(task)], map[0 := Looked(task, agent)], map[]);
  }

  /** From the empty list: an agent makes its marker, another call completes the task, and the claim
      then puts it back in progress. */
  lemma CompletionCanBeLost(c: Codec, taskId: string, agent: string) returns (steps: seq<Step>)
    requires Sound(c) && !IsMarkerKey(taskId)
    ensures AllProper(steps) && StoredDone(c, After(c, steps), taskId)
    ensures !StoredDone(c, After(c, steps + [StoreClaim(0)]), taskId)
  {
    var task := Task(taskId, "", [], Pending, None);
    var run := MarkedRun(taskId, agent);
    MarkedState(c, taskId, agent);
    MarkerKeyDiffers(taskId);
    var done := task.(status := Done);
    assert c.dec(c.enc(task)) == Some(task) && c.dec(c.enc(done)) == Some(done);
    assert c.dec(c.enc(Taken(task, agent))) == Some(Taken(task, agent));
    var more := [LookToComplete(1, taskId), StoreDone(1)];
    steps := run + more;
    assert steps[..|steps| - 1] == run + [LookToComplete(1, taskId)];
    assert (run + [LookToComplete(1, taskId)])[..|run|] == run;
    var all := steps + [StoreClaim(0)];
    assert all[..|all| - 1] == steps;
    var s1 := After(c, run + [LookToComplete(1, taskId)]);
    assert s1.attempts == map[0 := Marked(task, agent), 1 := Completing(task)];
    var s2 := After(c, steps);
    assert s2.store[taskId] == c.enc(done) && s2.attempts[0] == Marked(task, agent);
  }

  /** From the empty list: an agent makes its marker and stops for good. The task is still listed as
      pending, and no claim of it ever wins again. */
  lemma LostMarkerReached(c: Codec, taskId: string, agent: string) returns (steps: seq<Step>)
    requires Sound(c) && !IsMarkerKey(taskId)
    ensures
      && AllProper(steps)
      && Stored(c, After(c, steps).store, taskId) == Some(Task(taskId, "", [], Pending, None))
    ensures forall more, n :: !Won(After(c, steps + more), n, taskId)
  {
    hide *;
    steps := MarkedRun(taskId, agent) + [GiveUp(0)];
    StoppedState(c, taskId, agent);
    forall more, n ensures !Won(After(c, steps + more), n, taskId) {
      RunFromInit(c, steps, more);
      LostMarkerBlocks(c, After(c, steps), more, taskId, n);
    }
  }

  lemma StoppedState(c: Codec, taskId: string, agent: string)
    requires Sound(c) && !IsMarkerKey(taskId)
    ensures
      var steps := MarkedRun(taskId, agent) + [GiveUp(0)];
      var s := After(c, steps);
      && AllProper(steps) && Stored(c, s.store, taskId) == Some(Task(taskId, "", [], Pending, None))
      && MarkerKey(taskId) in s.store && forall m :: !Holds(s, m, taskId)
  {
    var task, run := Task(taskId, "", [], Pending, None), MarkedRun(taskId, agent);
    MarkedState(c, taskId, agent);
    MarkerKeyDiffers(taskId);
    assert c.dec(c.enc(task)) == Some(task);
    hide MarkerKey, IsMarkerKey;
    var steps := run + [GiveUp(0)];
    assert steps[..|steps| - 1] == run;
    hide After;
    assert Do(c, After(c, run), GiveUp(0)).attempts == map[0 := Over];
  }
}
