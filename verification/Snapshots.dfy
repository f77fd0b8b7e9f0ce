/**
 When a page-traffic snapshot is true (internal/httpapi/page_traffic.go): compared with every
 view that was counted since the first start, across restarts and with a clock that may go
 back.
 */
module Snapshots {
  import opened Options
  import opened Traffic
  import opened PageTraffics
  import opened PageHistories

  /** A point says how many views its period had, or nothing if the period began before the
      tracker did. */
  predicate PointIsTrue(p: Point, kind: Kind, period: int, startedAt: int, past: Past) {
    && p.start == period * UnitMs(kind)
    && p.views == if period < kind.Period(startedAt) then None else Some(past.Count(kind, period))
  }

  predicate PointsAreTrue(points: seq<Point>, kind: Kind, first: int, startedAt: int, past: Past) {
    forall i | 0 <= i < |points| :: PointIsTrue(points[i], kind, first + i, startedAt, past)
  }

  /** Every point of the snapshot is true, and the total is the number of views in its range. */
  predicate SnapshotIsTrue(s: Snapshot, range: string, captured: int, startedAt: int, past: Past) {
    var first := PointPeriod(range, captured, 0);
    && |s.points| == RangeLength(range) && s.kind == RangeKind(range)
    && PointsAreTrue(s.points, s.kind, first, startedAt, past)
    && s.total == past.Views(s.kind, first, |s.points|)
  }

  predicate InRange(range: string, captured: int, p: int) {
    PointPeriod(range, captured, 0) <= p < PointPeriod(range, captured, 0) + RangeLength(range)
  }

  lemma {:induction false} TotalIsTrue(points: seq<Point>, kind: Kind, first: int, startedAt: int, past: Past)
    requires Since(past, startedAt)
    requires PointsAreTrue(points, kind, first, startedAt, past)
    ensures Total(points) == past.Views(kind, first, |points|)
  {
    if points != [] {
      var n := |points| - 1;
      TotalIsTrue(points[..n], kind, first, startedAt, past);
      assert PointIsTrue(points[n], kind, first + n, startedAt, past);
      if first + n < kind.Period(startedAt) {
        NoneBefore(kind, past.history, startedAt, first + n);
      }
    }
  }

  /** A period before the start shows no views, and had none. */
  lemma NothingBefore(t: Tracker, past: Past, kind: Kind, p: int)
    requires TrackerWellFormed(t) && Since(past, t.startedAt) && p < kind.Period(t.startedAt)
    ensures Shown(kind, t.Ring(kind), p) == 0 == past.Count(kind, p)
  {
    NoneBefore(kind, past.history, t.startedAt, p);
    var i := p % kind.Size();
    assert t.Ring(kind)[i] == EMPTY
      || SlotFits(kind, t.Ring(kind)[i], i, kind.Period(t.startedAt), kind.Period(t.lastRecorded));
  }

  lemma PointDecides(t: Tracker, past: Past, kind: Kind, p: int)
    requires TrackerWellFormed(t) && Since(past, t.startedAt)
    ensures PointIsTrue(PointOf(t, kind, p), kind, p, t.startedAt, past)
      <==> Shown(kind, t.Ring(kind), p) == past.Count(kind, p)
  {
    if p < kind.Period(t.startedAt) {
      NothingBefore(t, past, kind, p);
    }
  }

  /** The ring shows the true count of every period in range. */
  predicate RangeIsShown(t: Tracker, past: Past, kind: Kind, first: int, n: int)
    requires Sized(t)
  {
    forall p | first <= p < first + n :: Shown(kind, t.Ring(kind), p) == past.Count(kind, p)
  }

  lemma PointsDecide(t: Tracker, past: Past, kind: Kind, first: int, n: nat)
    requires TrackerWellFormed(t) && Since(past, t.startedAt)
    ensures PointsAreTrue(PointsOf(t, kind, first, n), kind, first, t.startedAt, past)
      <==> RangeIsShown(t, past, kind, first, n)
  {
    var points := PointsOf(t, kind, first, n);
    forall i | 0 <= i < n
      ensures PointIsTrue(points[i], kind, first + i, t.startedAt, past)
        <==> Shown(kind, t.Ring(kind), first + i) == past.Count(kind, first + i)
    {
      PointDecides(t, past, kind, first + i);
    }
    if !RangeIsShown(t, past, kind, first, n) {
      var p :| first <= p < first + n && Shown(kind, t.Ring(kind), p) != past.Count(kind, p);
      assert !PointIsTrue(points[p - first], kind, first + (p - first), t.startedAt, past);
    }
  }

  /** A snapshot is true exactly if the ring shows the true count of every period in range. */
  lemma SnapshotDecides(t: Tracker, past: Past, now: int, range: string)
    requires TrackerWellFormed(t) && Since(past, t.startedAt)
    ensures var captured := Latest(now, t.lastRecorded);
      SnapshotIsTrue(SnapshotOf(t, now, range), range, captured, t.startedAt, past)
      <==> RangeIsShown(t, past, RangeKind(range), PointPeriod(range, captured, 0), RangeLength(range))
  {
    var kind, first := RangeKind(range), PointPeriod(range, Latest(now, t.lastRecorded), 0);
    PointsDecide(t, past, kind, first, RangeLength(range));
    if RangeIsShown(t, past, kind, first, RangeLength(range)) {
      TotalIsTrue(PointsOf(t, kind, first, RangeLength(range)), kind, first, t.startedAt, past);
    }
  }

  /** All the views that were counted since the first start. */
  function Everything(trace: seq<Mark>): Past {
    Past(map[], map[], Accepted(trace))
  }

  /** No restart has pruned, for good, a view that the snapshot should show. */
  predicate NothingIsHidden(range: string, captured: int, trace: seq<Mark>) {
    var kind := RangeKind(range);
    forall m, i | 0 <= m < i < |trace| && trace[m].Viewed? && trace[i].Loads? && Lasts(trace, |trace|, i)
        && InRange(range, captured, kind.Period(trace[m].now)) ::
      kind.Period(trace[m].now) > kind.Period(trace[i].now) - kind.Size()
  }

  /** No view of n periods is hidden, the first of them given. */
  predicate RangeIsWhole(kind: Kind, trace: seq<Mark>, first: int, n: int) {
    forall p | first <= p < first + n :: Whole(kind, trace, |trace|, p)
  }

  lemma HiddenOrWhole(range: string, captured: int, trace: seq<Mark>)
    ensures NothingIsHidden(range, captured, trace)
      <==> RangeIsWhole(RangeKind(range), trace, PointPeriod(range, captured, 0), RangeLength(range))
  {
    var kind := RangeKind(range);
    if !NothingIsHidden(range, captured, trace) {
      var m, i :| 0 <= m < i < |trace| && trace[m].Viewed? && trace[i].Loads? && Lasts(trace, |trace|, i)
        && InRange(range, captured, kind.Period(trace[m].now))
        && kind.Period(trace[m].now) <= kind.Period(trace[i].now) - kind.Size();
      assert Hides(kind, trace, |trace|, m, i);
      assert !Whole(kind, trace, |trace|, kind.Period(trace[m].now));
    }
  }

  lemma ShownOrWhole(kind: Kind, s: System, trace: seq<Mark>, first: int, n: int)
    requires Sized(s.tracker) && first > kind.Period(s.tracker.lastRecorded) - kind.Size()
    requires s.past.hours == s.past.days == map[]
    requires forall p :: ShowsAllBut(kind, s, trace, |trace|, p)
    ensures RangeIsShown(s.tracker, s.past, kind, first, n) <==> RangeIsWhole(kind, trace, first, n)
  {
    forall p | first <= p < first + n
      ensures Shown(kind, s.tracker.Ring(kind), p) == s.past.Count(kind, p) <==> Whole(kind, trace, |trace|, p)
    {
      assert ShowsAllBut(kind, s, trace, |trace|, p);
    }
  }

  lemma RunTellsTheTruth(startedAt: int, events: seq<Event>, trace: seq<Mark>, now: int, range: string)
    requires startedAt >= 0 && Follows(startedAt, events, trace) && KeepsAll(trace)
    ensures var t := Run(startedAt, events).tracker;
      var captured := Latest(now, t.lastRecorded);
      SnapshotIsTrue(SnapshotOf(t, now, range), range, captured, t.startedAt, Everything(trace))
      <==> NothingIsHidden(range, captured, trace)
  {
    var s := Run(startedAt, events);
    var captured, kind := Latest(now, s.tracker.lastRecorded), RangeKind(range);
    RunIsWellFormed(startedAt, events);
    LossesInTheEnd(startedAt, events, trace);
    SnapshotDecides(s.tracker, s.past, now, range);
    HiddenOrWhole(range, captured, trace);
    ShowsInTheEnd(kind, startedAt, events, trace);
    Monotone(kind, s.tracker.lastRecorded, captured);
    ShownOrWhole(kind, s, trace, PointPeriod(range, captured, 0), RangeLength(range));
  }

  /** The promise of the whole component. In a run that loses nothing, a snapshot of any range
      at any time counts exactly the views that came since the first start, however they were
      ordered and however often the process was restarted, if and only if every view in its
      range is in the ring's window at every restart after it whose pruning lasts. */
  lemma SnapshotsAreTrue(startedAt: int, events: seq<Event>, now: int, range: string)
    requires startedAt >= 0 && KeepsAll(Trace(startedAt, events))
    ensures var t, trace := Run(startedAt, events).tracker, Trace(startedAt, events);
      var captured := Latest(now, t.lastRecorded);
      SnapshotIsTrue(SnapshotOf(t, now, range), range, captured, t.startedAt, Everything(trace))
      <==> NothingIsHidden(range, captured, trace)
  {
    TraceFollows(startedAt, events);
    RunTellsTheTruth(startedAt, events, Trace(startedAt, events), now, range);
  }

  // ---------------------------------------------------------------- how far the clock may go back

  /** Every snapshot that captures the given time is true, whatever the run was, as long as it
      lost nothing and no restart was later than the given one. */
  ghost predicate AlwaysTrue(range: string, captured: int, restart: int) {
    forall startedAt, events, now ::
      startedAt >= 0 && KeepsAll(Trace(startedAt, events)) && LatestRestart(events) <= restart
      && Latest(now, Run(startedAt, events).tracker.lastRecorded) == captured ==>
        SnapshotIsTrue(SnapshotOf(Run(startedAt, events).tracker, now, range), range, captured,
                       Run(startedAt, events).tracker.startedAt, Everything(Trace(startedAt, events)))
  }

  lemma {:induction false} NoLater(events: seq<Event>, i: nat)
    requires i < |events| && events[i].Restart?
    ensures events[i].now <= LatestRestart(events)
    decreases |events|
  {
    if i < |events| - 1 {
      NoLater(events[..|events| - 1], i);
    }
  }

  /** A counted view is not before the epoch. */
  lemma CountedLate(startedAt: int, events: seq<Event>, trace: seq<Mark>, m: nat)
    requires startedAt >= 0 && Follows(startedAt, events, trace) && m < |events| && trace[m].Viewed?
    ensures trace[m].now >= 0
  {
    assert FollowsAt(startedAt, events, trace, m);
    RunIsWellFormed(startedAt, events[..m]);
  }

  lemma EarlyRestart(kind: Kind, restart: int, startedAt: int, events: seq<Event>, trace: seq<Mark>, i: nat)
    requires Follows(startedAt, events, trace) && i < |events| && trace[i].Loads? && LatestRestart(events) <= restart
    ensures kind.Period(trace[i].now) <= kind.Period(restart)
  {
    assert FollowsAt(startedAt, events, trace, i);
    NoLater(events, i);
    Monotone(kind, trace[i].now, restart);
  }

  lemma EarlyRestartsHideNothing(range: string, captured: int, restart: int, startedAt: int, events: seq<Event>,
        trace: seq<Mark>)
    requires startedAt >= 0 && Follows(startedAt, events, trace) && LatestRestart(events) <= restart
    requires RangeKind(range).Period(restart) - RangeKind(range).Size() < Latest(PointPeriod(range, captured, 0), 0)
    ensures NothingIsHidden(range, captured, trace)
  {
    var kind := RangeKind(range);
    forall m, i | 0 <= m < i < |trace| && trace[m].Viewed? && trace[i].Loads? && Lasts(trace, |trace|, i)
        && InRange(range, captured, kind.Period(trace[m].now))
      ensures kind.Period(trace[m].now) > kind.Period(trace[i].now) - kind.Size()
    {
      CountedLate(startedAt, events, trace, m);
      EarlyRestart(kind, restart, startedAt, events, trace, i);
      Monotone(kind, 0, trace[m].now);
    }
  }

  lemma LatestOfTwo(view: int, restart: int, events: seq<Event>)
    requires restart >= 0 && events == [View(view, true), Restart(restart)]
    ensures LatestRestart(events) == restart
  {
    var before := events[..1];
    assert before == [View(view, true)];
    assert LatestRestart(before) == LatestRestart(before[..0]) == 0;
    assert events[..|events| - 1] == before;
  }

  lemma TraceOfTwo(view: int, restart: int, events: seq<Event>)
    requires view >= MS && events == [View(view, true), Restart(restart)]
    ensures Trace(view, events) == [Viewed(view, true), Loads(restart)]
    ensures Run(view, events).tracker.lastRecorded == view / MS * MS
  {
    assert events[..0] == [] && events[..1] == [View(view, true)];
    OneMore(view, events, 0);
    OneMore(view, events, 1);
    assert events[..2] == events;
    FreshIsFaithful(view);
    TraceIsKnown(view, events, 1);
    var t := Recorded(Fresh(view), view);
    assert Run(view, events[..1]).file == SaveOf(t);
  }

  /** A view, written, and a restart. */
  lemma ViewThenRestart(view: int, restart: int) returns (events: seq<Event>)
    requires view >= MS && restart >= 0
    ensures |events| == 2 && events[0] == View(view, true) && events[1] == Restart(restart)
    ensures LatestRestart(events) == restart && Trace(view, events) == [Viewed(view, true), Loads(restart)]
    ensures Run(view, events).tracker.lastRecorded <= view
  {
    events := [View(view, true), Restart(restart)];
    LatestOfTwo(view, restart, events);
    TraceOfTwo(view, restart, events);
  }

  /** A trace of one view that was written and a restart that loads the file loses nothing. */
  lemma OneViewIsKept(view: int, restart: int)
    ensures KeepsAll([Viewed(view, true), Loads(restart)])
    ensures Lasts([Viewed(view, true), Loads(restart)], 2, 1)
  {
    var trace := [Viewed(view, true), Loads(restart)];
    assert IsWritten(trace[0]);
  }

  /** A view in the first period that the snapshot shows. */
  function EarliestView(range: string, captured: int): int {
    Latest(PointPeriod(range, captured, 0) * RangeKind(range).Unit(), MS)
  }

  lemma EarliestIsInRange(range: string, captured: int)
    requires captured >= MS
    ensures var view, p := EarliestView(range, captured), Latest(PointPeriod(range, captured, 0), 0);
      && MS <= view <= captured && RangeKind(range).Period(view) == p && InRange(range, captured, p)
  {
    var kind, first := RangeKind(range), PointPeriod(range, captured, 0);
    if kind.Hours? {
      assert first * HOUR <= captured;
    } else {
      assert first * DAY <= captured;
    }
  }

  lemma OneViewIsHidden(range: string, captured: int, view: int, restart: int)
    requires InRange(range, captured, RangeKind(range).Period(view))
    requires RangeKind(range).Period(view) <= RangeKind(range).Period(restart) - RangeKind(range).Size()
    ensures !NothingIsHidden(range, captured, [Viewed(view, true), Loads(restart)])
  {
    var trace := [Viewed(view, true), Loads(restart)];
    OneViewIsKept(view, restart);
    assert trace[0].Viewed? && trace[1].Loads? && Lasts(trace, |trace|, 1);
  }

  lemma OneViewIsCounted(view: int, restart: int)
    ensures Everything([Viewed(view, true), Loads(restart)]) == Past(map[], map[], [view])
  {
    var trace := [Viewed(view, true), Loads(restart)];
    assert trace[..1] == [Viewed(view, true)] && trace[..1][..0] == [];
    assert Accepted(trace[..1]) == Accepted(trace[..1][..0]) + [view];
    assert Accepted(trace) == Accepted(trace[..1]) + [];
  }

  /** A view, a restart that prunes its period, and a snapshot that is taken once the clock is
      back and should show that period: it does not. */
  lemma ClockGoesBack(range: string, captured: int, startedAt: int, view: int, restart: int, events: seq<Event>)
    requires startedAt >= 0 && Trace(startedAt, events) == [Viewed(view, true), Loads(restart)]
    requires Run(startedAt, events).tracker.lastRecorded <= captured
    requires InRange(range, captured, RangeKind(range).Period(view))
    requires RangeKind(range).Period(view) <= RangeKind(range).Period(restart) - RangeKind(range).Size()
    ensures var t, trace := Run(startedAt, events).tracker, Trace(startedAt, events);
      && KeepsAll(trace) && Everything(trace) == Past(map[], map[], [view])
      && !SnapshotIsTrue(SnapshotOf(t, captured, range), range, captured, t.startedAt, Everything(trace))
  {
    OneViewIsKept(view, restart);
    OneViewIsHidden(range, captured, view, restart);
    OneViewIsCounted(view, restart);
    SnapshotsAreTrue(startedAt, events, captured, range);
  }

  lemma AlwaysTrueIfEarly(range: string, captured: int, restart: int)
    requires RangeKind(range).Period(restart) - RangeKind(range).Size() < Latest(PointPeriod(range, captured, 0), 0)
    ensures AlwaysTrue(range, captured, restart)
  {
    forall startedAt, events, now |
      startedAt >= 0 && KeepsAll(Trace(startedAt, events)) && LatestRestart(events) <= restart
      && Latest(now, Run(startedAt, events).tracker.lastRecorded) == captured
      ensures SnapshotIsTrue(SnapshotOf(Run(startedAt, events).tracker, now, range), range, captured,
                Run(startedAt, events).tracker.startedAt, Everything(Trace(startedAt, events)))
    {
      TraceFollows(startedAt, events);
      EarlyRestartsHideNothing(range, captured, restart, startedAt, events, Trace(startedAt, events));
      SnapshotsAreTrue(startedAt, events, now, range);
    }
  }

  lemma SometimesFalse(range: string, captured: int, restart: int, view: int)
    requires MS <= view <= captured && restart >= 0 && InRange(range, captured, RangeKind(range).Period(view))
    requires RangeKind(range).Period(view) <= RangeKind(range).Period(restart) - RangeKind(range).Size()
    ensures !AlwaysTrue(range, captured, restart)
  {
    var events := ViewThenRestart(view, restart);
    ClockGoesBack(range, captured, view, view, restart, events);
    assert Latest(captured, Run(view, events).tracker.lastRecorded) == captured;
  }

  /** How far the clock may go back after a restart: all such snapshots are true if and only
      if the ring's window at the restart reaches back to the snapshot's first period. */
  lemma HowFarTheClockMayGoBack(range: string, captured: int, restart: int)
    requires captured >= MS
    ensures AlwaysTrue(range, captured, restart)
      <==> RangeKind(range).Period(restart) - RangeKind(range).Size() < Latest(PointPeriod(range, captured, 0), 0)
  {
    if RangeKind(range).Period(restart) - RangeKind(range).Size() < Latest(PointPeriod(range, captured, 0), 0) {
      AlwaysTrueIfEarly(range, captured, restart);
    } else {
      var view := EarliestView(range, captured);
      EarliestIsInRange(range, captured);
      SometimesFalse(range, captured, restart, view);
    }
  }

  /** A second restart before the next write undoes the pruning of the first: it loads the
      same file. */
  lemma PruningIsUndone(range: string, captured: int, view: int, restart: int, again: int)
    requires RangeKind(range).Period(view) > RangeKind(range).Period(again) - RangeKind(range).Size()
    ensures NothingIsHidden(range, captured, [Viewed(view, true), Loads(restart), Loads(again)])
  {
    var trace := [Viewed(view, true), Loads(restart), Loads(again)];
    assert !WrittenBetween(trace, 1, 2);
    assert trace[2].Loads?;
  }
}
