/** Runs of a task list: agents take tasks from a list they read, perhaps some time ago, and finish them. */
module TaskLists {
  import opened Wrappers
  import opened Tasks

  /** `seen` is how many acts had happened when the agent read the list it takes the task from. */
  datatype Act = Take(i: nat, seen: nat, agent: string) | Finish(i: nat)

  /** The list after a run. A taken task must have been claimable on the list that was read, and be
      pending when it is taken. */
  function After(start: seq<Task>, acts: seq<Act>): (all: seq<Task>)
    ensures |all| == |start|
    decreases |acts|
  {
    if acts == [] then start
    else
      var front, act := acts[..|acts| - 1], acts[|acts| - 1];
      var all := After(start, front);
      if act.i >= |all| then all
      else if act.Finish? then all[act.i := all[act.i].(status := Done)]
      else if act.seen <= |front| && all[act.i].status.Pending? && WasClaimable(After(start, front[..act.seen]), act.i)
      then all[act.i := Taken(all[act.i], act.agent)]
      else all
  }

  predicate WasClaimable(all: seq<Task>, i: nat) { i < |all| && all[i] in Claimable(all) }

  // The task at `i` is what it was, apart from where it stands.
  predicate SameTask(a: Task, b: Task) { a.id == b.id && a.dependsOn == b.dependsOn }

  // Done stays done, and no task changes its name or its dependencies.
  ghost predicate Later(earlier: seq<Task>, later: seq<Task>) {
    && |earlier| == |later|
    && forall i | 0 <= i < |earlier| ::
         SameTask(earlier[i], later[i]) && (earlier[i].status.Done? ==> later[i].status.Done?)
  }

  lemma {:induction false} OnlyForward(start: seq<Task>, acts: seq<Act>, n: nat)
    requires n <= |acts|
    ensures Later(After(start, acts[..n]), After(start, acts))
    decreases |acts|
  {
    hide WasClaimable;
    if n == |acts| {
      assert acts[..n] == acts;
    } else {
      var front := acts[..|acts| - 1];
      OnlyForward(start, front, n);
      assert front[..n] == acts[..n];
    }
  }

  // Everything `t` depends on is done on the list.
  ghost predicate DependenciesDone(all: seq<Task>, t: Task) {
    forall d | d in t.dependsOn :: exists j :: 0 <= j < |all| && all[j].id == d && all[j].status.Done?
  }

  lemma DoneLater(earlier: seq<Task>, later: seq<Task>, t: Task, t': Task)
    requires Later(earlier, later) && DependenciesDone(earlier, t) && SameTask(t, t')
    ensures DependenciesDone(later, t')
  {
    forall d | d in t'.dependsOn ensures exists j :: 0 <= j < |later| && later[j].id == d && later[j].status.Done? {
      var j :| 0 <= j < |earlier| && earlier[j].id == d && earlier[j].status.Done?;
      assert SameTask(earlier[j], later[j]) && later[j].status.Done?;
    }
  }

  lemma ClaimableIsReady(all: seq<Task>, i: nat)
    requires WasClaimable(all, i)
    ensures DependenciesDone(all, all[i])
  {
    var at := ClaimableExactly(all);
    var k :| 0 <= k < |Claimable(all)| && Claimable(all)[k] == all[i];
    assert at[k] in at;
    forall d | d in all[i].dependsOn ensures exists j :: 0 <= j < |all| && all[j].id == d && all[j].status.Done? {
      var u :| u in all && u.id == d && u.status == Done;
      var j :| 0 <= j < |all| && all[j] == u;
    }
  }

  /** Order of work: in every run, however old the lists were that agents took their tasks from, a task in
      progress has all its dependencies done. */
  lemma {:induction false} DependenciesComeFirst(start: seq<Task>, acts: seq<Act>, i: nat)
    requires forall t | t in start :: !t.status.InProgress?
    requires i < |start| && After(start, acts)[i].status.InProgress?
    ensures forall d | d in After(start, acts)[i].dependsOn ::
      exists j :: 0 <= j < |start| && After(start, acts)[j].id == d && After(start, acts)[j].status.Done?
    decreases |acts|
  {
    hide WasClaimable, Later, SameTask;
    if acts != [] {
      var front, act := acts[..|acts| - 1], acts[|acts| - 1];
      var before, all := After(start, front), After(start, acts);
      OnlyForward(start, acts, |front|);
      SameAt(before, all, i);
      if before[i].status.InProgress? {
        DependenciesComeFirst(start, front, i);
        DoneLater(before, all, before[i], all[i]);
      } else {
        var read := After(start, front[..act.seen]);
        assert act.Take? && act.i == i && WasClaimable(read, i);
        ClaimableIsReady(read, i);
        OnlyForward(start, acts, act.seen);
        assert acts[..act.seen] == front[..act.seen];
        SameAt(read, all, i);
        DoneLater(read, all, read[i], all[i]);
      }
    }
  }

  lemma SameAt(earlier: seq<Task>, later: seq<Task>, i: nat)
    requires Later(earlier, later) && i < |earlier|
    ensures SameTask(earlier[i], later[i])
  {
  }
}
