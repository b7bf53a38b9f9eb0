/** The cross-session rate limiter: per action type a pruned list of times, checked against a sliding
    hour and a sliding day. */
module RateLimit {
  import opened Wrappers

  const HOUR: int := 3_600_000_000_000  // nanoseconds
  const DAY: int := 24 * HOUR

  datatype Entry = Entry(actionType: string, timestamps: seq<int>)

  datatype Limits = Limits(perHour: Option<nat>, perDay: Option<nat>)

  datatype Outcome = Allowed | HourlyExceeded(limit: nat, count: nat) | DailyExceeded(limit: nat, count: nat)

  // ── Lists of times ──────────────────────────────────────────────────────────

  // The times after `lo`, in order.
  function Above(ts: seq<int>, lo: int): (r: seq<int>)
    ensures |r| <= |ts|
  {
    if ts == [] then []
    else Above(ts[..|ts| - 1], lo) + if ts[|ts| - 1] > lo then [ts[|ts| - 1]] else []
  }

  predicate Sorted(ts: seq<int>) { forall i, j | 0 <= i < j < |ts| :: ts[i] <= ts[j] }

  function Insert(ts: seq<int>, t: int): seq<int> {
    if ts == [] || ts[|ts| - 1] <= t then ts + [t]
    else Insert(ts[..|ts| - 1], t) + [ts[|ts| - 1]]
  }

  // Sorting in ascending order.
  function Sort(ts: seq<int>): seq<int> {
    if ts == [] then [] else Insert(Sort(ts[..|ts| - 1]), ts[|ts| - 1])
  }

  predicate AtMost(ts: seq<int>, hi: int) { forall i | 0 <= i < |ts| :: ts[i] <= hi }

  lemma SnocSorted(ts: seq<int>, t: int)
    requires Sorted(ts) && AtMost(ts, t)
    ensures Sorted(ts + [t])
  {
  }

  lemma LastIsMost(ts: seq<int>)
    requires Sorted(ts) && ts != []
    ensures AtMost(ts, ts[|ts| - 1]) && Sorted(ts[..|ts| - 1]) && AtMost(ts[..|ts| - 1], ts[|ts| - 1])
  {
  }

  lemma SnocMultiset(ts: seq<int>, t: int)
    ensures multiset(ts + [t]) == multiset(ts) + multiset{t}
  {
  }

  lemma FrontAndLast(ts: seq<int>)
    requires ts != []
    ensures ts == ts[..|ts| - 1] + [ts[|ts| - 1]]
  {
  }

  lemma {:induction false} InsertAtMost(ts: seq<int>, t: int, hi: int)
    requires AtMost(ts, hi) && t <= hi
    ensures AtMost(Insert(ts, t), hi)
  {
    if ts != [] && ts[|ts| - 1] > t { InsertAtMost(ts[..|ts| - 1], t, hi); }
  }

  lemma InsertUnfold(ts: seq<int>, t: int)
    requires ts != [] && ts[|ts| - 1] > t
    ensures Insert(ts, t) == Insert(ts[..|ts| - 1], t) + [ts[|ts| - 1]]
  {
  }

  lemma InsertLast(ts: seq<int>, t: int)
    requires Sorted(ts) && (ts == [] || ts[|ts| - 1] <= t)
    ensures Insert(ts, t) == ts + [t] && AtMost(ts, t)
  {
  }

  lemma {:induction false} InsertSorts(ts: seq<int>, t: int)
    requires Sorted(ts)
    ensures Sorted(Insert(ts, t)) && multiset(Insert(ts, t)) == multiset(ts) + multiset{t}
  {
    hide *;
    if ts != [] && ts[|ts| - 1] > t {
      var front, last := ts[..|ts| - 1], ts[|ts| - 1];
      LastIsMost(ts);
      InsertSorts(front, t);
      InsertAtMost(front, t, last);
      InsertUnfold(ts, t);
      SnocSorted(Insert(front, t), last);
      SnocMultiset(Insert(front, t), last);
      FrontAndLast(ts);
      SnocMultiset(front, last);
    } else {
      InsertLast(ts, t);
      SnocSorted(ts, t);
      SnocMultiset(ts, t);
    }
  }

  lemma SortUnfold(ts: seq<int>)
    requires ts != []
    ensures Sort(ts) == Insert(Sort(ts[..|ts| - 1]), ts[|ts| - 1])
  {
  }

  /** Sorting gives the same times in ascending order, and leaves a sorted list as it is. */
  lemma {:induction false} SortSorts(ts: seq<int>)
    ensures Sorted(Sort(ts)) && multiset(Sort(ts)) == multiset(ts)
    ensures Sorted(ts) ==> Sort(ts) == ts
  {
    if ts != [] {
      hide *;
      var front, last := ts[..|ts| - 1], ts[|ts| - 1];
      SortSorts(front);
      SortUnfold(ts);
      InsertSorts(Sort(front), last);
      FrontAndLast(ts);
      SnocMultiset(front, last);
      if Sorted(ts) {
        LastIsMost(ts);
        SortedFrontInserts(front, last);
      }
    }
  }

  lemma SortedFrontInserts(front: seq<int>, last: int)
    requires AtMost(front, last)
    ensures Insert(front, last) == front + [last]
  {
  }

  // ── The limiter ─────────────────────────────────────────────────────────────

  // The first entry of a type.
  function Times(es: seq<Entry>, actionType: string): seq<int> {
    if es == [] then []
    else if es[0].actionType == actionType then es[0].timestamps
    else Times(es[1..], actionType)
  }

  function PruneAll(es: seq<Entry>, now: int): seq<Entry> {
    if es == [] then []
    else PruneAll(es[..|es| - 1], now) + [es[|es| - 1].(timestamps := Above(es[|es| - 1].timestamps, now - DAY))]
  }

  function Position(es: seq<Entry>, actionType: string): (i: nat)
    ensures i <= |es|
    ensures i < |es| ==> es[i].actionType == actionType
    ensures forall k | 0 <= k < i :: es[k].actionType != actionType
  {
    if es == [] then 0
    else if es[0].actionType == actionType then 0
    else
      var i := Position(es[1..], actionType);
      assert forall k | 0 < k < i + 1 :: es[k] == es[1..][k - 1];
      i + 1
  }

  lemma {:induction false} TimesAtPosition(es: seq<Entry>, actionType: string)
    ensures Times(es, actionType) ==
      var i := Position(es, actionType);
      if i < |es| then es[i].timestamps else []
  {
    if es != [] && es[0].actionType != actionType { TimesAtPosition(es[1..], actionType); }
  }

  lemma {:induction false} PruneAllAt(es: seq<Entry>, now: int)
    ensures |PruneAll(es, now)| == |es|
    ensures forall i | 0 <= i < |es| ::
      PruneAll(es, now)[i] == es[i].(timestamps := Above(es[i].timestamps, now - DAY))
  {
    if es != [] { PruneAllAt(es[..|es| - 1], now); }
  }

  // Two lists with the same types in the same places find a type in the same place.
  lemma PositionUnique(es: seq<Entry>, actionType: string, i: nat)
    requires i <= |es| && (i < |es| ==> es[i].actionType == actionType)
    requires forall k | 0 <= k < i :: es[k].actionType != actionType
    ensures Position(es, actionType) == i
  {
  }

  lemma PruneAllTimes(es: seq<Entry>, now: int, actionType: string)
    ensures Times(PruneAll(es, now), actionType) == Above(Times(es, actionType), now - DAY)
  {
    PruneAllAt(es, now);
    var i := Position(es, actionType);
    PositionUnique(PruneAll(es, now), actionType, i);
    TimesAtPosition(es, actionType);
    TimesAtPosition(PruneAll(es, now), actionType);
  }

  function Decide(times: seq<int>, now: int, limits: Limits): Outcome {
    var hourly, daily := |Above(times, now - HOUR)|, |times|;
    if limits.perHour.Some? && hourly >= limits.perHour.value then HourlyExceeded(limits.perHour.value, hourly)
    else if limits.perDay.Some? && daily >= limits.perDay.value then DailyExceeded(limits.perDay.value, daily)
    else Allowed
  }

  // The list of a type once a check of it has been decided.
  function Recorded(times: seq<int>, now: int, limits: Limits): seq<int> {
    if Decide(times, now, limits).Allowed? then Sort(times + [now]) else times
  }

  /** The verdict: refused for the hour exactly when the last hour is full, for the day exactly when the
      hour is not and the list is full, with the limit and the count; allowed exactly otherwise. */
  lemma DecidesExactly(times: seq<int>, now: int, limits: Limits)
    ensures
      var r, hourly, daily := Decide(times, now, limits), |Above(times, now - HOUR)|, |times|;
      && (r == Allowed <==> (limits.perHour.Some? ==> hourly < limits.perHour.value)
                            && (limits.perDay.Some? ==> daily < limits.perDay.value))
      && (limits.perHour.Some? && hourly >= limits.perHour.value <==> r.HourlyExceeded?)
      && (r.HourlyExceeded? ==> r == HourlyExceeded(limits.perHour.value, hourly))
      && (r.DailyExceeded? ==> limits.perDay.Some? && r == DailyExceeded(limits.perDay.value, daily))
  {
  }

  /** A check that is allowed adds its time, and the list is in order afterwards even when it was not. */
  lemma RecordsExactly(times: seq<int>, now: int, limits: Limits)
    ensures var after := Recorded(times, now, limits);
      if Decide(times, now, limits).Allowed? then Sorted(after) && multiset(after) == multiset(times) + multiset{now}
      else after == times
  {
    hide Decide;
    SortSorts(times + [now]);
    SnocMultiset(times, now);
  }

  /** Pruning keeps every time after the moment, as often as it was there, and no other. */
  lemma {:induction false} AboveExactly(ts: seq<int>, lo: int, t: int)
    ensures multiset(Above(ts, lo))[t] == if t > lo then multiset(ts)[t] else 0
  {
    if ts != [] {
      var front, last := ts[..|ts| - 1], ts[|ts| - 1];
      AboveExactly(front, lo, t);
      FrontAndLast(ts);
      SnocMultiset(front, last);
      SnocMultiset(Above(front, lo), last);
    }
  }

  class SessionRateLimiter {
    var entries: seq<Entry>
    var disk: seq<Entry>  // what the state file holds

    constructor ()
      ensures entries == [] && disk == []
    {
      entries, disk := [], [];
    }

    /** Starts again from the state file. */
    method Reload(now: int)
      modifies `entries
      ensures entries == PruneAll(disk, now)
    {
      entries := disk;
      Prune(now);
    }

    // Forgets times a day old or older.
    method Prune(now: int)
      modifies `entries
      ensures entries == PruneAll(old(entries), now)
    {
      var cutoff := now - DAY;
      var pruned := [];
      for i := 0 to |entries|
        invariant pruned == PruneAll(entries[..i], now)
      {
        assert entries[..i + 1][..i] == entries[..i];
        var e := entries[i];
        pruned := pruned + [e.(timestamps := Above(e.timestamps, cutoff))];
      }
      assert entries[..|entries|] == entries;
      entries := pruned;
    }

    method CountAfter(times: seq<int>, lo: int) returns (n: nat)
      ensures n == |Above(times, lo)|
    {
      n := 0;
      for i := 0 to |times|
        invariant n == |Above(times[..i], lo)|
      {
        assert times[..i + 1][..i] == times[..i];
        if times[i] > lo {
          n := n + 1;
        }
      }
      assert times[..|times|] == times;
    }

    /** Checks both limits, the hour first, and records the action when it is allowed. Pruning reads
        the clock a second time. */
    method CheckAndRecord(actionType: string, limits: Limits, now: int, pruneNow: int) returns (r: Outcome)
      modifies this
      ensures r == Decide(Above(Times(old(entries), actionType), pruneNow - DAY), now, limits)
      ensures Times(entries, actionType) == Recorded(Above(Times(old(entries), actionType), pruneNow - DAY), now, limits)
      ensures forall t | t != actionType :: Times(entries, t) == Above(Times(old(entries), t), pruneNow - DAY)
      ensures disk == if r.Allowed? then entries else old(disk)
    {
      Prune(pruneNow);
      forall t ensures Times(entries, t) == Above(Times(old(entries), t), pruneNow - DAY) {
        PruneAllTimes(old(entries), pruneNow, t);
      }
      var pos := Position(entries, actionType);
      TimesAtPosition(entries, actionType);
      var times := if pos < |entries| then entries[pos].timestamps else [];
      var hourly := CountAfter(times, now - HOUR);
      if limits.perHour.Some? && hourly >= limits.perHour.value {
        return HourlyExceeded(limits.perHour.value, hourly);
      }
      if limits.perDay.Some? && |times| >= limits.perDay.value {
        return DailyExceeded(limits.perDay.value, |times|);
      }
      RecordAt(actionType, pos, Sort(times + [now]));
      disk := entries;
      r := Allowed;
    }

    // Replaces the list of a type, adding the type when it is new.
    method RecordAt(actionType: string, pos: nat, times: seq<int>)
      requires pos == Position(entries, actionType)
      modifies `entries
      ensures Times(entries, actionType) == times
      ensures forall t | t != actionType :: Times(entries, t) == Times(old(entries), t)
    {
      ghost var before := entries;
      if pos < |entries| {
        entries := entries[pos := entries[pos].(timestamps := times)];
      } else {
        entries := entries + [Entry(actionType, times)];
      }
      PositionUnique(entries, actionType, pos);
      TimesAtPosition(entries, actionType);
      forall t | t != actionType ensures Times(entries, t) == Times(before, t) {
        OtherTypeKept(before, entries, t, actionType, pos);
      }
    }
  }

  lemma OtherTypeKept(before: seq<Entry>, after: seq<Entry>, t: string, changed: string, pos: nat)
    requires t != changed && pos == Position(before, changed) && pos < |after|
    requires |before| <= |after| <= |before| + 1
    requires after[pos].actionType == changed && (|after| > |before| ==> pos == |before|)
    requires forall i | 0 <= i < |before| && i != pos :: after[i] == before[i]
    ensures Times(after, t) == Times(before, t)
  {
    var i := Position(before, t);
    TimesAtPosition(before, t);
    TimesAtPosition(after, t);
    if i < |before| {
      PositionUnique(after, t, i);
    } else {
      PositionUnique(after, t, |after|);
    }
  }
}
