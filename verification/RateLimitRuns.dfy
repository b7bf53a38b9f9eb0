/** Whole runs of the rate limiter, restarts included: no window ever holds more allowed actions than
    its limit. */
module RateLimitRuns {
  import opened Wrappers
  import opened RateLimit

  /** A check reads the clock at `now` and again, to prune, at `pruneNow`. */
  datatype Event = Check(actionType: string, now: int, pruneNow: int) | Restart(now: int)

  function Latest(e: Event): int { if e.Check? then e.pruneNow else e.now }

  /** The list of one type, in memory and in the state file. */
  datatype View = View(times: seq<int>, saved: seq<int>)

  // The outcome of a check, given the lists of its own type.
  function OutcomeOf(limits: string -> Limits, v: View, e: Event): Outcome
    requires e.Check?
  {
    Decide(Above(v.times, e.pruneNow - DAY), e.now, limits(e.actionType))
  }

  // The view of type `t` after a run.
  function ViewAfter(limits: string -> Limits, events: seq<Event>, t: string): View
    decreases |events|
  {
    if events == [] then View([], [])
    else
      var front, e := events[..|events| - 1], events[|events| - 1];
      var v := ViewAfter(limits, front, t);
      match e
      case Restart(now) => v.(times := Above(v.saved, now - DAY))
      case Check(u, now, pruneNow) =>
        var pruned := Above(v.times, pruneNow - DAY);
        var times := if u == t then Recorded(pruned, now, limits(t)) else pruned;
        View(times, if OutcomeOf(limits, ViewAfter(limits, front, u), e).Allowed? then times else v.saved)
  }

  // For every type, `entries` and `disk` are what the view says.
  ghost predicate Shows(limits: string -> Limits, events: seq<Event>, entries: seq<Entry>, disk: seq<Entry>) {
    forall t: string :: ViewAfter(limits, events, t) == View(Times(entries, t), Times(disk, t))
  }

  /** A check of the limiter is one event of a run: what `CheckAndRecord` promises of the lists and the
      file is what the views of every type become. */
  lemma CheckIsAnEvent(limits: string -> Limits, events: seq<Event>, actionType: string, now: int, pruneNow: int,
                       entries: seq<Entry>, disk: seq<Entry>, entries': seq<Entry>, disk': seq<Entry>, r: Outcome)
    requires Shows(limits, events, entries, disk)
    requires r == Decide(Above(Times(entries, actionType), pruneNow - DAY), now, limits(actionType))
    requires Times(entries', actionType)
      == Recorded(Above(Times(entries, actionType), pruneNow - DAY), now, limits(actionType))
    requires forall t | t != actionType :: Times(entries', t) == Above(Times(entries, t), pruneNow - DAY)
    requires disk' == if r.Allowed? then entries' else disk
    ensures Shows(limits, events + [Check(actionType, now, pruneNow)], entries', disk')
  {
    hide *;
    var all := events + [Check(actionType, now, pruneNow)];
    ShowsAt(limits, events, entries, disk, actionType);
    forall t: string ensures ViewAfter(limits, all, t) == View(Times(entries', t), Times(disk', t)) {
      ShowsAt(limits, events, entries, disk, t);
      ViewOfCheck(limits, events, actionType, now, pruneNow, t);
    }
    ShowsAll(limits, all, entries', disk');
  }

  lemma ViewOfCheck(limits: string -> Limits, events: seq<Event>, u: string, now: int, pruneNow: int, t: string)
    ensures
      var v, pruned := ViewAfter(limits, events, t), Above(ViewAfter(limits, events, t).times, pruneNow - DAY);
      var r := Decide(Above(ViewAfter(limits, events, u).times, pruneNow - DAY), now, limits(u));
      var times := if u == t then Recorded(pruned, now, limits(t)) else pruned;
      ViewAfter(limits, events + [Check(u, now, pruneNow)], t) == View(times, if r.Allowed? then times else v.saved)
  {
    hide *;
    var all := events + [Check(u, now, pruneNow)];
    assert all[..|all| - 1] == events && all[|all| - 1] == Check(u, now, pruneNow);
    ViewUnfold(limits, all, t);
  }

  lemma ViewUnfold(limits: string -> Limits, events: seq<Event>, t: string)
    requires events != [] && events[|events| - 1].Check?
    ensures
      var front, e := events[..|events| - 1], events[|events| - 1];
      var v, pruned := ViewAfter(limits, front, t), Above(ViewAfter(limits, front, t).times, e.pruneNow - DAY);
      var r := Decide(Above(ViewAfter(limits, front, e.actionType).times, e.pruneNow - DAY), e.now, limits(e.actionType));
      var times := if e.actionType == t then Recorded(pruned, e.now, limits(t)) else pruned;
      ViewAfter(limits, events, t) == View(times, if r.Allowed? then times else v.saved)
  {
    hide Decide, Recorded, Above;
  }

  lemma ShowsAt(limits: string -> Limits, events: seq<Event>, entries: seq<Entry>, disk: seq<Entry>, t: string)
    requires Shows(limits, events, entries, disk)
    ensures ViewAfter(limits, events, t) == View(Times(entries, t), Times(disk, t))
  {
  }

  lemma ShowsAll(limits: string -> Limits, events: seq<Event>, entries: seq<Entry>, disk: seq<Entry>)
    requires forall t: string :: ViewAfter(limits, events, t) == View(Times(entries, t), Times(disk, t))
    ensures Shows(limits, events, entries, disk)
  {
  }

  /** So is a restart: the list is read back from the file and pruned. */
  lemma RestartIsAnEvent(limits: string -> Limits, events: seq<Event>, now: int, entries: seq<Entry>, disk: seq<Entry>)
    requires Shows(limits, events, entries, disk)
    ensures Shows(limits, events + [Restart(now)], PruneAll(disk, now), disk)
  {
    var all := events + [Restart(now)];
    assert all[..|all| - 1] == events;
    forall t: string ensures ViewAfter(limits, all, t) == View(Times(PruneAll(disk, now), t), Times(disk, t)) {
      PruneAllTimes(disk, now, t);
    }
  }

  predicate AllowedLast(limits: string -> Limits, events: seq<Event>, t: string) {
    && events != [] && events[|events| - 1].Check? && events[|events| - 1].actionType == t
    && OutcomeOf(limits, ViewAfter(limits, events[..|events| - 1], t), events[|events| - 1]).Allowed?
  }

  /** Every time at which an action of type `t` was allowed, in order. */
  function AllowedTimes(limits: string -> Limits, events: seq<Event>, t: string): seq<int>
    decreases |events|
  {
    if events == [] then []
    else
      AllowedTimes(limits, events[..|events| - 1], t)
      + if AllowedLast(limits, events, t) then [events[|events| - 1].now] else []
  }

  /** The clock never goes back, and pruning reads it at most `lag` after the check. */
  predicate Clocked(events: seq<Event>, lag: int) {
    && (forall i | 0 <= i < |events| && events[i].Check? ::
          events[i].now <= events[i].pruneNow <= events[i].now + lag)
    && (forall i, j | 0 <= i < j < |events| :: Latest(events[i]) <= events[j].now)
  }

  // The moment of the latest clock reading, or anything before the first.
  predicate NotAfter(events: seq<Event>, moment: int) { forall i | 0 <= i < |events| :: Latest(events[i]) <= moment }

  // ── What the list remembers ─────────────────────────────────────────────────

  lemma AboveNext(ts: seq<int>, t: int, lo: int)
    ensures Above(ts + [t], lo) == if t > lo then Above(ts, lo) + [t] else Above(ts, lo)
  {
    assert (ts + [t])[..|ts + [t]| - 1] == ts;
  }

  lemma {:induction false} AboveTwice(ts: seq<int>, a: int, b: int)
    ensures Above(Above(ts, a), b) == Above(ts, if a < b then b else a)
  {
    if ts != [] {
      hide *;
      var front, last := ts[..|ts| - 1], ts[|ts| - 1];
      FrontAndLast(ts);
      AboveTwice(front, a, b);
      AboveNext(front, last, a);
      AboveNext(Above(front, a), last, b);
      AboveNext(front, last, if a < b then b else a);
    }
  }

  lemma {:induction false} AboveAtMost(ts: seq<int>, lo: int, hi: int)
    requires AtMost(ts, hi)
    ensures AtMost(Above(ts, lo), hi)
  {
    if ts != [] { AboveAtMost(ts[..|ts| - 1], lo, hi); }
  }

  lemma {:induction false} AboveSorted(ts: seq<int>, lo: int)
    requires Sorted(ts)
    ensures Sorted(Above(ts, lo))
  {
    if ts != [] {
      hide *;
      var front, last := ts[..|ts| - 1], ts[|ts| - 1];
      LastIsMost(ts);
      AboveSorted(front, lo);
      AboveAtMost(front, lo, last);
      SnocSorted(Above(front, lo), last);
      FrontAndLast(ts);
      AboveNext(front, last, lo);
    }
  }

  // One more event.
  lemma AllowedNext(limits: string -> Limits, events: seq<Event>, t: string)
    requires events != []
    ensures
      var front, e := events[..|events| - 1], events[|events| - 1];
      AllowedTimes(limits, events, t) ==
        if AllowedLast(limits, events, t) then AllowedTimes(limits, front, t) + [e.now] else AllowedTimes(limits, front, t)
    ensures AllowedLast(limits, events, t) ==> events[|events| - 1].Check?
  {
  }

  // Times allowed so far lie in the past and are in order.
  lemma {:induction false} AllowedInOrder(limits: string -> Limits, events: seq<Event>, t: string, moment: int, lag: int)
    requires Clocked(events, lag) && NotAfter(events, moment)
    ensures Sorted(AllowedTimes(limits, events, t)) && AtMost(AllowedTimes(limits, events, t), moment)
  {
    if events != [] {
      var front, e := events[..|events| - 1], events[|events| - 1];
      assert Latest(e) <= moment;
      assert e.Check? ==> e.now <= e.pruneNow;
      ClockedFront(events, lag);
      assert e.now <= moment;
      hide *;
      AllowedInOrder(limits, front, t, e.now, lag);
      var all := AllowedTimes(limits, front, t);
      SnocSorted(all, e.now);
      AtMostLater(all, e.now, moment);
      SnocAtMost(all, e.now, moment);
      AllowedNext(limits, events, t);
    }
  }

  lemma AtMostLater(ts: seq<int>, a: int, b: int)
    requires AtMost(ts, a) && a <= b
    ensures AtMost(ts, b)
  {
  }

  lemma SnocAtMost(ts: seq<int>, t: int, hi: int)
    requires AtMost(ts, hi) && t <= hi
    ensures AtMost(ts + [t], hi)
  {
  }

  lemma ClockedFront(events: seq<Event>, lag: int)
    requires events != [] && Clocked(events, lag)
    ensures Clocked(events[..|events| - 1], lag) && NotAfter(events[..|events| - 1], events[|events| - 1].now)
    ensures events[|events| - 1].Check? ==>
      var e := events[|events| - 1]; e.now <= e.pruneNow <= e.now + lag
  {
    var front := events[..|events| - 1];
    assert forall i | 0 <= i < |front| :: front[i] == events[i];
  }

  /** The list in memory, and the one in the file, hold exactly the allowed times after some moment a
      day before a clock reading: pruning forgets nothing younger. */
  ghost predicate Remembers(all: seq<int>, v: View, memoryFrom: int, fileFrom: int) {
    v.times == Above(all, memoryFrom) && v.saved == Above(all, fileFrom)
  }

  lemma SortedAppend(ts: seq<int>, t: int)
    requires Sorted(ts) && AtMost(ts, t)
    ensures Sort(ts + [t]) == ts + [t]
  {
    SnocSorted(ts, t);
    SortSorts(ts + [t]);
  }

  lemma {:induction false} ListRemembers(limits: string -> Limits, events: seq<Event>, t: string, moment: int, lag: int)
    returns (memoryFrom: int, fileFrom: int)
    requires Clocked(events, lag) && NotAfter(events, moment) && 0 <= lag < DAY
    ensures memoryFrom <= moment - DAY && fileFrom <= moment - DAY
    ensures Remembers(AllowedTimes(limits, events, t), ViewAfter(limits, events, t), memoryFrom, fileFrom)
  {
    if events == [] {
      memoryFrom, fileFrom := moment - DAY, moment - DAY;
    } else {
      var front, e := events[..|events| - 1], events[|events| - 1];
      ClockedFront(events, lag);
      var m, f := ListRemembers(limits, front, t, e.now, lag);
      AllowedInOrder(limits, front, t, e.now, lag);
      assert Latest(e) <= moment;
      memoryFrom, fileFrom := StepRemembers(limits, events, t, m, f);
    }
  }

  // What one event does to the lists of a type.
  lemma ViewNext(limits: string -> Limits, events: seq<Event>, t: string)
    requires events != []
    ensures
      var front, e := events[..|events| - 1], events[|events| - 1];
      var v, v' := ViewAfter(limits, front, t), ViewAfter(limits, events, t);
      match e
      case Restart(now) => v' == View(Above(v.saved, now - DAY), v.saved)
      case Check(_, now, pruneNow) =>
        var pruned := Above(v.times, pruneNow - DAY);
        && v'.times == (if AllowedLast(limits, events, t) then Sort(pruned + [now]) else pruned)
        && (v'.saved == v'.times || (v'.saved == v.saved && !AllowedLast(limits, events, t)))
    ensures AllowedLast(limits, events, t) ==>
      var front, e := events[..|events| - 1], events[|events| - 1];
      e.Check? && Decide(Above(ViewAfter(limits, front, t).times, e.pruneNow - DAY), e.now, limits(t)).Allowed?
  {
    hide Above, Sort, Decide;
  }

  lemma StepRemembers(limits: string -> Limits, events: seq<Event>, t: string, m: int, f: int)
    returns (m': int, f': int)
    requires events != []
    requires var front, e := events[..|events| - 1], events[|events| - 1];
      var all := AllowedTimes(limits, front, t);
      && Remembers(all, ViewAfter(limits, front, t), m, f) && m <= e.now - DAY && f <= e.now - DAY
      && Sorted(all) && AtMost(all, e.now)
      && (e.Check? ==> e.now <= e.pruneNow < e.now + DAY)
    ensures m' <= Latest(events[|events| - 1]) - DAY && f' <= Latest(events[|events| - 1]) - DAY
    ensures Remembers(AllowedTimes(limits, events, t), ViewAfter(limits, events, t), m', f')
  {
    hide Above, Sort, Decide, ViewAfter, AllowedTimes, AllowedLast, Sorted, AtMost, OutcomeOf, Recorded;
    var front, e := events[..|events| - 1], events[|events| - 1];
    var all, v, v' := AllowedTimes(limits, front, t), ViewAfter(limits, front, t), ViewAfter(limits, events, t);
    m' := Latest(e) - DAY;
    AboveTwice(all, if e.Restart? then f else m, m');
    ViewNext(limits, events, t);
    AllowedNext(limits, events, t);
    if AllowedLast(limits, events, t) {
      AboveSorted(all, m');
      AboveAtMost(all, m', e.now);
      SortedAppend(Above(all, m'), e.now);
      AboveNext(all, e.now, m');
      f' := m';
    } else if v'.saved == v.saved {
      f' := f;
    } else {
      f' := m';
    }
  }

  /** The list of every type stays sorted. */
  lemma ListStaysSorted(limits: string -> Limits, events: seq<Event>, t: string, moment: int, lag: int)
    requires Clocked(events, lag) && NotAfter(events, moment) && 0 <= lag < DAY
    ensures Sorted(ViewAfter(limits, events, t).times)
  {
    var m, _ := ListRemembers(limits, events, t, moment, lag);
    AllowedInOrder(limits, events, t, moment, lag);
    AboveSorted(AllowedTimes(limits, events, t), m);
  }

  // ── The windows ─────────────────────────────────────────────────────────────

  // How many times lie after `lo` and not after `hi`.
  function Within(ts: seq<int>, lo: int, hi: int): nat {
    if ts == [] then 0
    else Within(ts[..|ts| - 1], lo, hi) + if lo < ts[|ts| - 1] <= hi then 1 else 0
  }

  lemma {:induction false} WithinIsAbove(ts: seq<int>, lo: int, hi: int)
    ensures Within(ts, lo, hi) <= |Above(ts, lo)|
  {
    if ts != [] { WithinIsAbove(ts[..|ts| - 1], lo, hi); }
  }

  lemma {:induction false} AboveMonotone(ts: seq<int>, a: int, b: int)
    requires a <= b
    ensures |Above(ts, b)| <= |Above(ts, a)|
  {
    if ts != [] { AboveMonotone(ts[..|ts| - 1], a, b); }
  }

  /** The sliding window. In a run of any length, restarts included, no hour holds more allowed
      actions of a type than its hourly limit, and no window of a day less the lag between the two
      clock readings holds more than the daily limit; with one reading, that is a full day. */
  lemma {:induction false} WindowsHold(limits: string -> Limits, events: seq<Event>, t: string, lag: int, end: int)
    requires Clocked(events, lag) && 0 <= lag <= DAY - HOUR
    ensures
      var all := AllowedTimes(limits, events, t);
      && (limits(t).perHour.Some? ==> Within(all, end - HOUR, end) <= limits(t).perHour.value)
      && (limits(t).perDay.Some? ==> Within(all, end - (DAY - lag), end) <= limits(t).perDay.value)
    decreases |events|
  {
    if events != [] {
      var front, e := events[..|events| - 1], events[|events| - 1];
      ClockedFront(events, lag);
      WindowsHold(limits, front, t, lag, end);
      hide *;
      var all := AllowedTimes(limits, front, t);
      AllowedNext(limits, events, t);
      WithinNext(all, e.now, end - HOUR, end);
      WithinNext(all, e.now, end - (DAY - lag), end);
      if AllowedLast(limits, events, t) && e.now <= end { RoomLeft(limits, events, t, lag, end); }
    }
  }

  lemma WithinNext(ts: seq<int>, t: int, lo: int, hi: int)
    ensures Within(ts + [t], lo, hi) == Within(ts, lo, hi) + if lo < t <= hi then 1 else 0
  {
    assert (ts + [t])[..|ts + [t]| - 1] == ts;
  }

  // What an allowed check saw.
  lemma AllowedMeansRoom(times: seq<int>, now: int, limits: Limits)
    requires Decide(times, now, limits).Allowed?
    ensures limits.perHour.Some? ==> |Above(times, now - HOUR)| < limits.perHour.value
    ensures limits.perDay.Some? ==> |times| < limits.perDay.value
  {
  }

  lemma LagFits(lag: int)
    requires 0 <= lag <= DAY - HOUR
    ensures lag < DAY && 0 < HOUR
  {
  }

  // An allowed action found room in every window that ends at it or later.
  lemma RoomLeft(limits: string -> Limits, events: seq<Event>, t: string, lag: int, end: int)
    requires events != [] && Clocked(events, lag) && 0 <= lag <= DAY - HOUR && AllowedLast(limits, events, t)
    requires events[|events| - 1].now <= end
    ensures
      var all := AllowedTimes(limits, events[..|events| - 1], t);
      && (limits(t).perHour.Some? ==> Within(all, end - HOUR, end) < limits(t).perHour.value)
      && (limits(t).perDay.Some? ==> Within(all, end - (DAY - lag), end) < limits(t).perDay.value)
  {
    hide *;
    var front, e := events[..|events| - 1], events[|events| - 1];
    ClockedFront(events, lag);
    ViewNext(limits, events, t);
    LagFits(lag);
    var all := AllowedTimes(limits, front, t);
    var m, f := ListRemembers(limits, front, t, e.now, lag);
    RemembersIs(all, ViewAfter(limits, front, t), m, f);
    var from := e.pruneNow - DAY;
    AboveTwice(all, m, from);
    AllowedMeansRoom(Above(all, from), e.now, limits(t));
    AboveTwice(all, from, e.now - HOUR);
    WithinIsAbove(all, end - HOUR, end);
    AboveMonotone(all, e.now - HOUR, end - HOUR);
    WithinIsAbove(all, end - (DAY - lag), end);
    AboveMonotone(all, from, end - (DAY - lag));
  }

  lemma RemembersIs(all: seq<int>, v: View, memoryFrom: int, fileFrom: int)
    requires Remembers(all, v, memoryFrom, fileFrom)
    ensures v.times == Above(all, memoryFrom)
  {
  }

  lemma {:induction false} WithinAll(ts: seq<int>, lo: int, hi: int)
    requires AtMost(ts, hi)
    ensures Within(ts, lo, hi) == |Above(ts, lo)|
  {
    if ts != [] { WithinAll(ts[..|ts| - 1], lo, hi); }
  }

  /** And what has room is allowed: in every run a check of a type is allowed exactly when its last hour,
      and its last day up to the second clock reading, hold fewer allowed actions than their limits. */
  lemma AllowedExactly(limits: string -> Limits, events: seq<Event>, t: string, lag: int)
    requires Clocked(events, lag) && 0 <= lag <= DAY - HOUR
    requires events != [] && events[|events| - 1].Check? && events[|events| - 1].actionType == t
    ensures
      var e, all := events[|events| - 1], AllowedTimes(limits, events[..|events| - 1], t);
      AllowedLast(limits, events, t) <==>
        && (limits(t).perHour.Some? ==> Within(all, e.now - HOUR, e.now) < limits(t).perHour.value)
        && (limits(t).perDay.Some? ==> Within(all, e.pruneNow - DAY, e.now) < limits(t).perDay.value)
  {
    hide *;
    var front, e := events[..|events| - 1], events[|events| - 1];
    ClockedFront(events, lag);
    LagFits(lag);
    var all := AllowedTimes(limits, front, t);
    var m, f := ListRemembers(limits, front, t, e.now, lag);
    RemembersIs(all, ViewAfter(limits, front, t), m, f);
    AllowedInOrder(limits, front, t, e.now, lag);
    var from := e.pruneNow - DAY;
    AboveTwice(all, m, from);
    AboveTwice(all, from, e.now - HOUR);
    WithinAll(all, e.now - HOUR, e.now);
    WithinAll(all, from, e.now);
    DecidesExactly(Above(all, from), e.now, limits(t));
    AllowedLastIs(limits, events, t);
  }

  lemma AllowedLastIs(limits: string -> Limits, events: seq<Event>, t: string)
    requires events != [] && events[|events| - 1].Check? && events[|events| - 1].actionType == t
    ensures
      var front, e := events[..|events| - 1], events[|events| - 1];
      AllowedLast(limits, events, t) <==>
        Decide(Above(ViewAfter(limits, front, t).times, e.pruneNow - DAY), e.now, limits(t)) == Allowed
  {
    hide Decide, Above, ViewAfter;
  }

  /** The lag matters: with a daily limit of one, a second reading one tick later than the first lets
      two actions into one day. */
  lemma SecondReadingLeaks(limits: string -> Limits, t: string)
    requires limits(t) == Limits(None, Some(1))
    ensures
      var events := [Check(t, 0, 0), Check(t, DAY - 1, DAY)];
      Clocked(events, 1) && Within(AllowedTimes(limits, events, t), DAY - 1 - DAY, DAY - 1) == 2
  {
    var events := [Check(t, 0, 0), Check(t, DAY - 1, DAY)];
    var first := [Check(t, 0, 0)];
    assert events[..1] == first && first[..0] == [];
    assert Sort([0]) == [0] by { SnocSorted([], 0); SortSorts([0]); }
    assert [] + [0] == [0] && [0] + [DAY - 1] == [0, DAY - 1];
    AllowedNext(limits, first, t);
    AllowedNext(limits, events, t);
    ViewNext(limits, first, t);
    assert ViewAfter(limits, [], t) == View([], []);
    assert AllowedLast(limits, first, t);
    assert ViewAfter(limits, first, t).times == [0];
    assert Above([0], 0) == [] by { assert [0][..0] == []; }
    assert AllowedLast(limits, events, t);
    WithinNext([], 0, -1, DAY - 1);
    WithinNext([0], DAY - 1, -1, DAY - 1);
  }
}
