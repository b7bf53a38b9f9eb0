/** The shared task list over the transport's key-value store. */
module Tasks {
  import opened Wrappers
  import opened MemoryTransport

  datatype Status = Pending | InProgress | Done

  datatype Task = Task(id: string, description: string, dependsOn: seq<string>, status: Status,
                       claimedBy: Option<string>)

  /** How tasks are stored. Reading back a stored task gives it again. */
  datatype Codec = Codec(enc: Task -> string, dec: string -> Option<Task>)

  ghost predicate Sound(c: Codec) { forall t: Task :: c.dec(c.enc(t)) == Some(t) }

  const TASKS_BUCKET := "wb_tasks"

  function MarkerKey(taskId: string): string { "claim_" + taskId }

  predicate IsMarkerKey(key: string) { "claim_" <= key }

  // ── Operations ──────────────────────────────────────────────────────────────

  method PublishTask(t: InMemoryTransport, c: Codec, task: Task, clock: int)
    modifies t`kv
    ensures t.BucketAt(TASKS_BUCKET) == PutIn(old(t.BucketAt(TASKS_BUCKET)), task.id, c.enc(task), None, 0)
    ensures forall other | other != TASKS_BUCKET :: t.BucketAt(other) == old(t.BucketAt(other))
  {
    t.KvPut(TASKS_BUCKET, task.id, c.enc(task), None, clock);
  }

  datatype ClaimError = Unreadable

  // The task as a claim stores it.
  function Taken(task: Task, agent: string): Task { task.(status := InProgress, claimedBy := Some(agent)) }

  /** One undisturbed claim. */
  method ClaimTask(t: InMemoryTransport, c: Codec, taskId: string, agent: string, clock: int)
    returns (r: Result<bool, ClaimError>)
    modifies t`kv
    ensures
      var before, after := old(t.BucketAt(TASKS_BUCKET)), t.BucketAt(TASKS_BUCKET);
      var now := clock + t.skew;
      var raw := Live(before, taskId, now);
      var task := if raw.Some? then c.dec(raw.value) else None;
      var free := Live(before, MarkerKey(taskId), now).None?;
      && (r == Success(true) <==> task.Some? && task.value.status.Pending? && free)
      && (r.Failure? <==> raw.Some? && task.None?)
      && after == (if r != Success(true) then before
                   else PutIn(PutIn(before, MarkerKey(taskId), agent, None, 0),
                              task.value.id, c.enc(Taken(task.value, agent)), None, 0))
    ensures forall other | other != TASKS_BUCKET :: t.BucketAt(other) == old(t.BucketAt(other))
  {
    var raw := t.KvGet(TASKS_BUCKET, taskId, clock);
    if raw.None? {
      return Success(false);
    }
    var task := c.dec(raw.value);
    if task.None? {
      return Failure(Unreadable);
    }
    if !task.value.status.Pending? {
      return Success(false);
    }
    var won := t.KvCreate(TASKS_BUCKET, MarkerKey(taskId), agent, clock);
    if !won {
      return Success(false);
    }
    PublishTask(t, c, task.value.(status := InProgress, claimedBy := Some(agent)), clock);
    return Success(true);
  }

  method CompleteTask(t: InMemoryTransport, c: Codec, taskId: string, clock: int) returns (r: Result<(), ClaimError>)
    modifies t`kv
    ensures
      var before, after := old(t.BucketAt(TASKS_BUCKET)), t.BucketAt(TASKS_BUCKET);
      var raw := Live(before, taskId, clock + t.skew);
      var task := if raw.Some? then c.dec(raw.value) else None;
      && (r.Failure? <==> raw.Some? && task.None?)
      && after == (if task.None? then before
                   else PutIn(before, task.value.id, c.enc(task.value.(status := Done)), None, 0))
    ensures forall other | other != TASKS_BUCKET :: t.BucketAt(other) == old(t.BucketAt(other))
  {
    var raw := t.KvGet(TASKS_BUCKET, taskId, clock);
    if raw.None? {
      return Success(());
    }
    var task := c.dec(raw.value);
    if task.None? {
      return Failure(Unreadable);
    }
    PublishTask(t, c, task.value.(status := Done), clock);
    return Success(());
  }

  // ── What is claimable ───────────────────────────────────────────────────────

  predicate IsDone(all: seq<Task>, id: string) { exists i :: 0 <= i < |all| && all[i].id == id && all[i].status.Done? }

  predicate Ready(all: seq<Task>, task: Task) {
    task.status.Pending? && forall d | d in task.dependsOn :: IsDone(all, d)
  }

  function ClaimableFrom(all: seq<Task>, list: seq<Task>): (r: seq<Task>)
    ensures forall t :: t in r <==> t in list && Ready(all, t)
  {
    if list == [] then []
    else
      var rest := ClaimableFrom(all, list[1..]);
      assert list == [list[0]] + list[1..];
      if Ready(all, list[0]) then [list[0]] + rest else rest
  }

  /** The pending tasks whose dependencies are all done, in list order. */
  function Claimable(all: seq<Task>): seq<Task> { ClaimableFrom(all, all) }

  // `at` are the places, from `offset` on, of the tasks that are ready, and `r` those tasks.
  ghost predicate PlacesOf(all: seq<Task>, offset: nat, at: seq<nat>, r: seq<Task>) {
    && |at| == |r| && (forall k | 0 <= k < |at| :: offset <= at[k] < |all| && all[at[k]] == r[k])
    && (forall k, l | 0 <= k < l < |at| :: at[k] < at[l])
    && (forall i | offset <= i < |all| :: i in at <==> Ready(all, all[i]))
  }

  lemma PlacesStep(all: seq<Task>, offset: nat, at: seq<nat>, r: seq<Task>)
    requires offset < |all| && PlacesOf(all, offset + 1, at, r)
    ensures Ready(all, all[offset]) ==> PlacesOf(all, offset, [offset] + at, [all[offset]] + r)
    ensures !Ready(all, all[offset]) ==> PlacesOf(all, offset, at, r)
  {
    hide Ready;
  }

  lemma {:induction false} ClaimablePlaces(all: seq<Task>, offset: nat) returns (at: seq<nat>)
    requires offset <= |all|
    ensures PlacesOf(all, offset, at, ClaimableFrom(all, all[offset..]))
    decreases |all| - offset
  {
    if offset == |all| {
      at := [];
    } else {
      hide PlacesOf, Ready;
      var rest := ClaimablePlaces(all, offset + 1);
      PlacesStep(all, offset, rest, ClaimableFrom(all, all[offset + 1..]));
      assert all[offset..][1..] == all[offset + 1..];
      at := if Ready(all, all[offset]) then [offset] + rest else rest;
    }
  }

  /** What is claimable: exactly the pending tasks of the list each of whose dependencies is the id of a
      listed task that is done, each once, in list order. */
  lemma ClaimableExactly(all: seq<Task>) returns (at: seq<nat>)
    ensures |at| == |Claimable(all)| && forall k | 0 <= k < |at| :: at[k] < |all| && all[at[k]] == Claimable(all)[k]
    ensures forall k, l | 0 <= k < l < |at| :: at[k] < at[l]
    ensures forall i | 0 <= i < |all| :: i in at <==>
      all[i].status == Pending && forall d | d in all[i].dependsOn :: exists u :: u in all && u.id == d && u.status == Done
  {
    at := ClaimablePlaces(all, 0);
    assert all[0..] == all;
    forall i | 0 <= i < |all|
      ensures Ready(all, all[i]) <==>
        all[i].status == Pending && forall d | d in all[i].dependsOn :: exists u :: u in all && u.id == d && u.status == Done
    {
      forall d | d in all[i].dependsOn ensures IsDone(all, d) <==> exists u :: u in all && u.id == d && u.status == Done {
        if j :| 0 <= j < |all| && all[j].id == d && all[j].status.Done? { assert all[j] in all; }
      }
    }
  }

  /** No claimable task depends on an unfinished one. */
  lemma ClaimableDependsOnDone(all: seq<Task>, t: Task, u: Task)
    requires t in Claimable(all) && u in all && u.id in t.dependsOn
    requires forall x, y | x in all && y in all && x.id == y.id :: x == y
    ensures u.status == Done
  {
    var at := ClaimableExactly(all);
    var k :| 0 <= k < |at| && Claimable(all)[k] == t;
    assert at[k] in at;
  }

  // Every dependency is on the list, and `rank` falls along dependencies: there is no cycle.
  ghost predicate ClosedAndAcyclic(all: seq<Task>, rank: string -> nat) {
    forall t, d | t in all && d in t.dependsOn ::
      rank(d) < rank(t.id) && exists u :: u in all && u.id == d
  }

  lemma {:induction false} LowestPending(all: seq<Task>, rank: string -> nat, t: Task) returns (low: Task)
    requires t in all && t.status.Pending?
    ensures low in all && low.status.Pending?
    ensures forall u | u in all && u.status.Pending? :: rank(low.id) <= rank(u.id)
    decreases rank(t.id)
  {
    if u :| u in all && u.status.Pending? && rank(u.id) < rank(t.id) {
      low := LowestPending(all, rank, u);
    } else {
      low := t;
    }
  }

  /** Progress: with closed, acyclic dependencies and nothing in progress, an unfinished list always
      has a claimable task; and only an unfinished list has one. */
  lemma UnfinishedHasClaimable(all: seq<Task>, rank: string -> nat)
    requires ClosedAndAcyclic(all, rank)
    requires forall t | t in all :: !t.status.InProgress?
    ensures Claimable(all) != [] <==> exists t :: t in all && !t.status.Done?
  {
    if t :| t in all && !t.status.Done? {
      var low := LowestPending(all, rank, t);
      forall d | d in low.dependsOn ensures IsDone(all, d) {
        var u :| u in all && u.id == d;
        assert rank(u.id) < rank(low.id);
        var i :| 0 <= i < |all| && all[i] == u;
      }
      assert low in Claimable(all);
    }
    if Claimable(all) != [] {
      assert Claimable(all)[0] in all;
    }
  }
}
