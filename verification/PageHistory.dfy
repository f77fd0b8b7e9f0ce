/**
 What the page-view tracker still knows after any run of views, failed writes and restarts
 (internal/httpapi/page_traffic.go, internal/httpapi/page_traffic_store.go): exactly which
 runs lose a view, and exactly when a snapshot shows every view that was counted.
 */
module PageHistories {
  import opened Options
  import opened Traffic
  import opened PageTraffics

  // ---------------------------------------------------------------- the trace of a run

  /** What an event comes to: a view is counted unless it came before the tracker's start,
      and a restart loads the file if it accepts it. */
  datatype Mark = Viewed(now: int, written: bool) | Loads(now: int) | Ignored

  function MarkOf(s: System, e: Event): Mark {
    match e
    case View(now, written) => if now < s.tracker.startedAt then Ignored else Viewed(now, written)
    case Restart(now) => if RestoreOf(s.file).None? then Ignored else Loads(now)
  }

  function Trace(startedAt: int, events: seq<Event>): (trace: seq<Mark>)
    ensures |trace| == |events|
  {
    if events == [] then []
    else
      var before := events[..|events| - 1];
      Trace(startedAt, before) + [MarkOf(Run(startedAt, before), events[|events| - 1])]
  }

  /** Every view that was counted, across restarts. */
  function Accepted(trace: seq<Mark>): seq<int> {
    if trace == [] then []
    else
      var last := trace[|trace| - 1];
      Accepted(trace[..|trace| - 1]) + if last.Viewed? then [last.now] else []
  }

  lemma {:induction false} TraceUpTo(startedAt: int, events: seq<Event>, n: nat)
    requires n <= |events|
    ensures Trace(startedAt, events)[..n] == Trace(startedAt, events[..n])
    decreases |events|
  {
    if n == |events| {
      assert events[..n] == events;
    } else {
      var before := events[..|events| - 1];
      TraceUpTo(startedAt, before, n);
      assert before[..n] == events[..n];
    }
  }

  lemma OneMore(startedAt: int, events: seq<Event>, n: nat)
    requires n < |events|
    ensures Run(startedAt, events[..n + 1]) == Step(Run(startedAt, events[..n]), events[n])
    ensures Trace(startedAt, events)[n] == MarkOf(Run(startedAt, events[..n]), events[n])
  {
    assert events[..n + 1][..n] == events[..n];
    TraceUpTo(startedAt, events, n + 1);
    assert Trace(startedAt, events)[n] == Trace(startedAt, events)[..n + 1][n];
  }

  predicate Follows(startedAt: int, events: seq<Event>, trace: seq<Mark>) {
    && |trace| == |events|
    && forall n | 0 <= n < |events| :: FollowsAt(startedAt, events, trace, n)
  }

  predicate FollowsAt(startedAt: int, events: seq<Event>, trace: seq<Mark>, n: nat)
    requires n < |events| == |trace|
  {
    trace[n] == MarkOf(Run(startedAt, events[..n]), events[n])
  }

  lemma TraceFollows(startedAt: int, events: seq<Event>)
    ensures Follows(startedAt, events, Trace(startedAt, events))
  {
    var trace := Trace(startedAt, events);
    forall n | 0 <= n < |events| ensures FollowsAt(startedAt, events, trace, n) {
      OneMore(startedAt, events, n);
    }
  }

  lemma RunMore(startedAt: int, events: seq<Event>, trace: seq<Mark>, n: nat, n': nat)
    requires Follows(startedAt, events, trace) && n < |events| && n' == n + 1
    ensures Run(startedAt, events[..n']) == Step(Run(startedAt, events[..n]), events[n])
    ensures trace[n] == MarkOf(Run(startedAt, events[..n]), events[n])
  {
    assert events[..n'][..n] == events[..n];
    assert FollowsAt(startedAt, events, trace, n);
  }

  lemma AcceptedMore(trace: seq<Mark>, n: nat)
    requires n < |trace|
    ensures Accepted(trace[..n + 1]) ==
      Accepted(trace[..n]) + if trace[n].Viewed? then [trace[n].now] else []
  {
    assert trace[..n + 1][..n] == trace[..n];
  }

  lemma RunIsWellFormed(startedAt: int, events: seq<Event>)
    requires startedAt >= 0
    ensures var s := Run(startedAt, events);
      && TrackerWellFormed(s.tracker) && Since(s.past, s.tracker.startedAt)
      && (RestoreOf(s.file).Some? ==> TrackerWellFormed(RestoreOf(s.file).value))
  {
    RunIsFaithful(startedAt, events);
  }

  predicate HasLoaded(trace: seq<Mark>) {
    exists i :: 0 <= i < |trace| && trace[i].Loads?
  }

  /** Every slot of both rings has at most n views. */
  predicate AtMost(t: Tracker, n: nat) {
    && (forall i | 0 <= i < |t.hours| :: t.hours[i].views <= n)
    && (forall i | 0 <= i < |t.days| :: t.days[i].views <= n)
  }

  /** What the guards of a step depend on. */
  predicate Guarded(s: System, startedAt: int, loaded: bool) {
    && s.tracker.startedAt == (if loaded then startedAt / MS * MS else startedAt)
    && s.file.startedAt == startedAt / MS
  }

  predicate Fits(s: System, startedAt: int, n: nat) {
    && AtMost(s.tracker, n)
    && (RestoreOf(s.file).Some? <==> startedAt >= MS)
    && (RestoreOf(s.file).Some? ==> AtMost(RestoreOf(s.file).value, n))
  }

  lemma CountedAtMost(kind: Kind, ring: Ring, current: int, period: int, n: nat)
    requires |ring| == kind.Size() && forall i | 0 <= i < |ring| :: ring[i].views <= n
    ensures forall i | 0 <= i < |ring| :: Counted(kind, ring, current, period)[i].views <= n + 1
  {
  }

  lemma GuardedFirst(startedAt: int)
    requires startedAt >= 0
    ensures Guarded(Run(startedAt, []), startedAt, false) && Fits(Run(startedAt, []), startedAt, 0)
  {
    FreshIsFaithful(startedAt);
    SaveThenRestore(Fresh(startedAt));
  }

  lemma GuardedStep(s: System, e: Event, startedAt: int, loaded: bool)
    requires Sized(s.tracker) && Guarded(s, startedAt, loaded) && startedAt >= 0
    ensures Guarded(Step(s, e), startedAt, loaded || (e.Restart? && RestoreOf(s.file).Some?))
  {
  }

  lemma FitsStep(s: System, e: Event, startedAt: int, loaded: bool, n: nat)
    requires Sized(s.tracker) && Guarded(s, startedAt, loaded) && Fits(s, startedAt, n)
    requires startedAt >= 0 && n < MAX_VIEWS && TrackerWellFormed(Step(s, e).tracker)
    ensures Fits(Step(s, e), startedAt, n + 1)
  {
    if e.View? && e.now >= s.tracker.startedAt {
      var last := Latest(e.now, s.tracker.lastRecorded);
      CountedAtMost(Hours, s.tracker.hours, Hours.Period(last), Hours.Period(e.now), n);
      CountedAtMost(Days, s.tracker.days, Days.Period(last), Days.Period(e.now), n);
      SaveThenRestore(Recorded(s.tracker, e.now));
    }
  }

  lemma {:induction false} FitsRun(startedAt: int, events: seq<Event>)
    requires startedAt >= 0 && |events| <= MAX_VIEWS
    ensures Fits(Run(startedAt, events), startedAt, |events|)
  {
    if events == [] {
      GuardedFirst(startedAt);
    } else {
      var n := |events| - 1;
      FitsRun(startedAt, events[..n]);
      GuardedRun(startedAt, events[..n]);
      RunIsWellFormed(startedAt, events);
      FitsStep(Run(startedAt, events[..n]), events[n], startedAt, HasLoaded(Trace(startedAt, events[..n])), n);
    }
  }

  lemma LoadedMore(trace: seq<Mark>, mark: Mark)
    ensures HasLoaded(trace + [mark]) <==> HasLoaded(trace) || mark.Loads?
  {
    var more := trace + [mark];
    assert more[|trace|] == mark;
    forall i | 0 <= i < |trace| ensures more[i] == trace[i] {
    }
  }

  lemma {:induction false} GuardedRun(startedAt: int, events: seq<Event>)
    requires startedAt >= 0
    ensures Guarded(Run(startedAt, events), startedAt, HasLoaded(Trace(startedAt, events)))
  {
    if events == [] {
      GuardedFirst(startedAt);
    } else {
      var n := |events| - 1;
      var trace := Trace(startedAt, events[..n]);
      var mark := MarkOf(Run(startedAt, events[..n]), events[n]);
      GuardedRun(startedAt, events[..n]);
      GuardedStep(Run(startedAt, events[..n]), events[n], startedAt, HasLoaded(trace));
      LoadedMore(trace, mark);
    }
  }

  /** The trace is known from the events alone. A view is counted if it did not come before
      the given start, in whole milliseconds once a file has been loaded; and up to 2^53
      events every restart loads its file, unless the tracker was started in the first
      millisecond of the epoch. */
  lemma TraceIsKnown(startedAt: int, events: seq<Event>, i: nat)
    requires startedAt >= 0 && i < |events|
    ensures var trace := Trace(startedAt, events);
      && (events[i].View? ==>
            var start := if HasLoaded(trace[..i]) then startedAt / MS * MS else startedAt;
            trace[i] == if events[i].now < start then Ignored else Viewed(events[i].now, events[i].written))
      && (events[i].Restart? && i <= MAX_VIEWS ==>
            trace[i] == if startedAt < MS then Ignored else Loads(events[i].now))
  {
    OneMore(startedAt, events, i);
    TraceUpTo(startedAt, events, i);
    GuardedRun(startedAt, events[..i]);
    if i <= MAX_VIEWS {
      FitsRun(startedAt, events[..i]);
    }
  }

  // ---------------------------------------------------------------- what is lost

  predicate IsWritten(mark: Mark) {
    mark.Viewed? && mark.written
  }

  predicate WrittenBetween(trace: seq<Mark>, m: nat, n: nat) {
    exists k :: m <= k < n && k < |trace| && IsWritten(trace[k])
  }

  /** Every view among the first n events was written, then or later. */
  predicate AllSaved(trace: seq<Mark>, n: nat)
    requires n <= |trace|
  {
    forall m | 0 <= m < n && trace[m].Viewed? :: WrittenBetween(trace, m, n)
  }

  /** Every restart that loads a file comes after a successful write no earlier than the last
      view that was counted. */
  predicate LosesNothing(trace: seq<Mark>, n: nat)
    requires n <= |trace|
  {
    forall i | 0 <= i < n && trace[i].Loads? :: AllSaved(trace, i)
  }

  /** No restart of the run loses a view. */
  predicate KeepsAll(trace: seq<Mark>) {
    LosesNothing(trace, |trace|)
  }

  lemma BetweenMore(trace: seq<Mark>, m: nat, n: nat, n': nat)
    requires m <= n < |trace| && n' == n + 1
    ensures WrittenBetween(trace, m, n') <==> WrittenBetween(trace, m, n) || IsWritten(trace[n])
  {
  }

  lemma SavedMore(trace: seq<Mark>, n: nat, n': nat)
    requires n < |trace| && n' == n + 1
    ensures AllSaved(trace, n') <==> if trace[n].Viewed? then trace[n].written else AllSaved(trace, n)
  {
    forall m | 0 <= m < n
      ensures WrittenBetween(trace, m, n') <==> WrittenBetween(trace, m, n) || IsWritten(trace[n])
    {
      BetweenMore(trace, m, n, n');
    }
    BetweenMore(trace, n, n, n');
  }

  lemma LosesMore(trace: seq<Mark>, n: nat, n': nat)
    requires n < |trace| && n' == n + 1
    ensures LosesNothing(trace, n') <==> LosesNothing(trace, n) && (trace[n].Loads? ==> AllSaved(trace, n))
  {
  }

  /** How the tracker and the file compare with everything that was counted. */
  predicate Compared(s: System, accepted: seq<int>, keepsAll: bool, saved: bool) {
    && s.past.hours == s.past.days == s.filePast.hours == s.filePast.days == map[]
    && (if keepsAll then s.past.history == accepted else |s.past.history| < |accepted|)
    && (if keepsAll && saved then s.filePast.history == accepted else |s.filePast.history| < |accepted|)
  }

  predicate ComparedAt(s: System, trace: seq<Mark>, n: nat)
    requires n <= |trace|
  {
    Compared(s, Accepted(trace[..n]), LosesNothing(trace, n), AllSaved(trace, n))
  }

  lemma ComparedStep(s: System, e: Event, accepted: seq<int>, keepsAll: bool, saved: bool)
    requires Sized(s.tracker) && Compared(s, accepted, keepsAll, saved)
    ensures var mark := MarkOf(s, e);
      Compared(Step(s, e), accepted + (if mark.Viewed? then [mark.now] else []),
               keepsAll && (mark.Loads? ==> saved), if mark.Viewed? then mark.written else saved)
  {
  }

  lemma ComparedMore(s: System, e: Event, trace: seq<Mark>, n: nat, n': nat)
    requires Sized(s.tracker) && n < |trace| && n' == n + 1 && trace[n] == MarkOf(s, e)
    requires ComparedAt(s, trace, n)
    ensures ComparedAt(Step(s, e), trace, n')
  {
    AcceptedMore(trace, n);
    SavedMore(trace, n, n');
    LosesMore(trace, n, n');
    ComparedStep(s, e, Accepted(trace[..n]), LosesNothing(trace, n), AllSaved(trace, n));
  }

  lemma NoLossYet(startedAt: int, trace: seq<Mark>)
    ensures ComparedAt(Run(startedAt, []), trace, 0)
  {
    assert trace[..0] == [];
  }

  lemma {:induction false} Losses(startedAt: int, events: seq<Event>, trace: seq<Mark>, n: nat)
    requires Follows(startedAt, events, trace) && n <= |events|
    ensures ComparedAt(Run(startedAt, events[..n]), trace, n)
  {
    if n == 0 {
      NoLossYet(startedAt, trace);
      assert events[..0] == [];
    } else {
      var m := n - 1;
      Losses(startedAt, events, trace, m);
      RunMore(startedAt, events, trace, m, n);
      ComparedMore(Run(startedAt, events[..m]), events[m], trace, m, n);
    }
  }

  lemma LossesInTheEnd(startedAt: int, events: seq<Event>, trace: seq<Mark>)
    requires Follows(startedAt, events, trace)
    ensures Compared(Run(startedAt, events), Accepted(trace), KeepsAll(trace), AllSaved(trace, |trace|))
  {
    assert events[..|events|] == events && trace[..|trace|] == trace;
    Losses(startedAt, events, trace, |events|);
  }

  /** The tracker stands for every view that was counted if and only if every restart that
      loads a file comes after a successful write no earlier than the last view; a run that
      loses a view never gets it back. */
  lemma NothingIsLost(startedAt: int, events: seq<Event>)
    ensures var trace, history := Trace(startedAt, events), Run(startedAt, events).past.history;
      && (history == Accepted(trace) <==> KeepsAll(trace))
      && (|history| == |Accepted(trace)| <==> KeepsAll(trace))
  {
    TraceFollows(startedAt, events);
    LossesInTheEnd(startedAt, events, Trace(startedAt, events));
  }

  // ---------------------------------------------------------------- what is hidden

  /** What restart i prunes is not found again: no later restart loads the file before it has
      been written. */
  predicate Lasts(trace: seq<Mark>, n: nat, i: nat)
    requires n <= |trace|
  {
    forall j | i < j < n && trace[j].Loads? :: WrittenBetween(trace, i, j)
  }

  /** Restart i prunes the period of view m, and that lasts. */
  predicate Hides(kind: Kind, trace: seq<Mark>, n: nat, m: nat, i: nat)
    requires m < i < n <= |trace|
  {
    && trace[m].Viewed? && trace[i].Loads? && Lasts(trace, n, i)
    && kind.Period(trace[m].now) <= kind.Period(trace[i].now) - kind.Size()
  }

  /** No view of the period is hidden by a restart. */
  predicate Whole(kind: Kind, trace: seq<Mark>, n: nat, p: int)
    requires n <= |trace|
  {
    forall m, i | 0 <= m < i < n && Hides(kind, trace, n, m, i) :: kind.Period(trace[m].now) != p
  }

  /** No view of the period is hidden in the file, by a restart before its last write. */
  predicate FileWhole(kind: Kind, trace: seq<Mark>, n: nat, p: int)
    requires n <= |trace|
  {
    forall m, i | 0 <= m < i < n && Hides(kind, trace, n, m, i) && WrittenBetween(trace, i, n) ::
      kind.Period(trace[m].now) != p
  }

  /** Some view of the period was counted. */
  predicate HasViews(kind: Kind, trace: seq<Mark>, n: nat, p: int)
    requires n <= |trace|
  {
    exists m :: 0 <= m < n && trace[m].Viewed? && kind.Period(trace[m].now) == p
  }

  lemma LastsMore(trace: seq<Mark>, n: nat, n': nat, i: nat)
    requires i < n < |trace| && n' == n + 1
    ensures Lasts(trace, n', i) <==> Lasts(trace, n, i) && (trace[n].Loads? ==> WrittenBetween(trace, i, n))
  {
  }

  lemma HidesMore(kind: Kind, trace: seq<Mark>, n: nat, n': nat, m: nat, i: nat)
    requires m < i < n < |trace| && n' == n + 1
    ensures Hides(kind, trace, n', m, i) <==>
      Hides(kind, trace, n, m, i) && (trace[n].Loads? ==> WrittenBetween(trace, i, n))
  {
    LastsMore(trace, n, n', i);
  }

  /** A restart that loads a file: what was hidden in the file is hidden, and what it prunes. */
  lemma WholeAfterLoad(kind: Kind, trace: seq<Mark>, n: nat, n': nat, p: int)
    requires n < |trace| && n' == n + 1 && trace[n].Loads?
    ensures Whole(kind, trace, n', p) <==>
      if p > kind.Period(trace[n].now) - kind.Size() then FileWhole(kind, trace, n, p)
      else !HasViews(kind, trace, n, p)
    ensures FileWhole(kind, trace, n', p) <==> FileWhole(kind, trace, n, p)
  {
    forall m, i | 0 <= m < i < n
      ensures Hides(kind, trace, n', m, i) <==> Hides(kind, trace, n, m, i) && WrittenBetween(trace, i, n)
    {
      HidesMore(kind, trace, n, n', m, i);
    }
    forall i | 0 <= i <= n ensures WrittenBetween(trace, i, n') <==> WrittenBetween(trace, i, n) {
      BetweenMore(trace, i, n, n');
    }
    forall m | 0 <= m < n
      ensures Hides(kind, trace, n', m, n) <==>
        trace[m].Viewed? && kind.Period(trace[m].now) <= kind.Period(trace[n].now) - kind.Size()
    {
    }
    if HasViews(kind, trace, n, p) && p <= kind.Period(trace[n].now) - kind.Size() {
      var m :| 0 <= m < n && trace[m].Viewed? && kind.Period(trace[m].now) == p;
      assert Hides(kind, trace, n', m, n);
    }
  }

  lemma WholeOtherwise(kind: Kind, trace: seq<Mark>, n: nat, n': nat, p: int)
    requires n < |trace| && n' == n + 1 && !trace[n].Loads?
    ensures Whole(kind, trace, n', p) <==> Whole(kind, trace, n, p)
    ensures FileWhole(kind, trace, n', p) <==>
      if IsWritten(trace[n]) then Whole(kind, trace, n, p) else FileWhole(kind, trace, n, p)
  {
    forall m, i | 0 <= m < i < n
      ensures Hides(kind, trace, n', m, i) <==> Hides(kind, trace, n, m, i)
    {
      HidesMore(kind, trace, n, n', m, i);
    }
    forall i | 0 <= i <= n
      ensures WrittenBetween(trace, i, n') <==> WrittenBetween(trace, i, n) || IsWritten(trace[n])
    {
      BetweenMore(trace, i, n, n');
    }
  }

  // ---------------------------------------------------------------- what the rings show

  /** What a ring shows after pruning. */
  lemma PruningHides(kind: Kind, ring: Ring, current: int, p: int)
    requires |ring| == kind.Size()
    ensures Shown(kind, Pruned(kind, ring, current), p) ==
      if p > current - kind.Size() then Shown(kind, ring, p) else 0
  {
  }

  /** In the window that ends with its last view a ring shows at most the true count, and the
      true count exactly if nothing is hidden. */
  predicate ShowsUnless(kind: Kind, t: Tracker, history: seq<int>, p: int, whole: bool)
    requires Sized(t)
  {
    p > kind.Period(t.lastRecorded) - kind.Size() ==>
      var shown := Shown(kind, t.Ring(kind), p);
      shown <= Occurrences(kind, history, p) && (shown == Occurrences(kind, history, p) <==> whole)
  }

  /** The same of the tracker and of the file. */
  predicate BothShow(kind: Kind, s: System, p: int, whole: bool, fileWhole: bool)
    requires Sized(s.tracker)
  {
    && ShowsUnless(kind, s.tracker, s.past.history, p, whole)
    && (RestoreOf(s.file).Some? ==>
          ShowsUnless(kind, RestoreOf(s.file).value, s.filePast.history, p, fileWhole))
  }

  lemma RecordShows(kind: Kind, t: Tracker, history: seq<int>, now: int, p: int, whole: bool)
    requires TrackerWellFormed(t) && t.startedAt <= now && ShowsUnless(kind, t, history, p, whole)
    ensures ShowsUnless(kind, Recorded(t, now), history + [now], p, whole)
  {
    var last := Latest(now, t.lastRecorded);
    Monotone(kind, t.startedAt, now);
    Monotone(kind, now, last);
    Monotone(kind, t.startedAt, t.lastRecorded);
    Monotone(kind, t.lastRecorded, last);
    assert (history + [now])[..|history|] == history;
    if p > kind.Period(last) - kind.Size() {
      CountShows(kind, t.Ring(kind), kind.Period(t.startedAt), kind.Period(t.lastRecorded), kind.Period(last),
                 kind.Period(last), kind.Period(now), p);
    }
  }

  lemma SaveShows(kind: Kind, t: Tracker, history: seq<int>, p: int, whole: bool)
    requires TrackerWellFormed(t) && ShowsUnless(kind, t, history, p, whole)
    ensures RestoreOf(SaveOf(t)).Some? ==> ShowsUnless(kind, RestoreOf(SaveOf(t)).value, history, p, whole)
  {
    SaveThenRestore(t);
    PeriodInMs(kind, t.lastRecorded);
  }

  lemma LoadShows(kind: Kind, saved: Saved, history: seq<int>, now: int, p: int, whole: bool)
    requires RestoreOf(saved).Some? && ShowsUnless(kind, RestoreOf(saved).value, history, p, whole)
    ensures ShowsUnless(kind, Loaded(saved, now).value, history, p,
      if p > kind.Period(now) - kind.Size() then whole else Occurrences(kind, history, p) == 0)
  {
    PruningHides(kind, RestoreOf(saved).value.Ring(kind), kind.Period(now), p);
  }

  lemma OccurMore(kind: Kind, history: seq<int>, now: int, p: int)
    ensures Occurrences(kind, history + [now], p) ==
      Occurrences(kind, history, p) + if kind.Period(now) == p then 1 else 0
  {
    assert (history + [now])[..|history|] == history;
  }

  lemma HasViewsMore(kind: Kind, trace: seq<Mark>, n: nat, n': nat, p: int)
    requires n < |trace| && n' == n + 1
    ensures HasViews(kind, trace, n', p) <==>
      HasViews(kind, trace, n, p) || (trace[n].Viewed? && kind.Period(trace[n].now) == p)
  {
  }

  lemma {:induction false} Occur(kind: Kind, trace: seq<Mark>, n: nat, p: int)
    requires n <= |trace|
    ensures Occurrences(kind, Accepted(trace[..n]), p) > 0 <==> HasViews(kind, trace, n, p)
  {
    if n == 0 {
      assert trace[..0] == [];
    } else {
      var last := trace[n - 1];
      Occur(kind, trace, n - 1, p);
      HasViewsMore(kind, trace, n - 1, n, p);
      AcceptedMore(trace, n - 1);
      if last.Viewed? {
        OccurMore(kind, Accepted(trace[..n - 1]), last.now, p);
      } else {
        assert Accepted(trace[..n]) == Accepted(trace[..n - 1]);
      }
    }
  }

  lemma ViewShows(kind: Kind, s: System, e: Event, p: int, whole: bool, fileWhole: bool)
    requires TrackerWellFormed(s.tracker) && e.View? && MarkOf(s, e).Viewed?
    requires TrackerWellFormed(Step(s, e).tracker) && BothShow(kind, s, p, whole, fileWhole)
    ensures BothShow(kind, Step(s, e), p, whole, if e.written then whole else fileWhole)
  {
    RecordShows(kind, s.tracker, s.past.history, e.now, p, whole);
    if e.written {
      SaveShows(kind, Recorded(s.tracker, e.now), s.past.history + [e.now], p, whole);
    }
  }

  lemma RestartShows(kind: Kind, s: System, e: Event, p: int, whole: bool, fileWhole: bool)
    requires Sized(s.tracker) && MarkOf(s, e).Loads? && BothShow(kind, s, p, whole, fileWhole)
    ensures BothShow(kind, Step(s, e), p,
      if p > kind.Period(e.now) - kind.Size() then fileWhole else Occurrences(kind, s.filePast.history, p) == 0,
      fileWhole)
  {
    LoadShows(kind, s.file, s.filePast.history, e.now, p, fileWhole);
  }

  /** Tracker and file show the true counts except for what is hidden. */
  predicate ShowsAllBut(kind: Kind, s: System, trace: seq<Mark>, n: nat, p: int)
    requires Sized(s.tracker) && n <= |trace|
  {
    BothShow(kind, s, p, Whole(kind, trace, n, p), FileWhole(kind, trace, n, p))
  }

  lemma ShowsMore(kind: Kind, s: System, e: Event, trace: seq<Mark>, n: nat, n': nat, p: int)
    requires TrackerWellFormed(s.tracker) && TrackerWellFormed(Step(s, e).tracker)
    requires n < |trace| && n' == n + 1 && trace[n] == MarkOf(s, e)
    requires trace[n].Loads? ==> (Occurrences(kind, s.filePast.history, p) > 0 <==> HasViews(kind, trace, n, p))
    requires ShowsAllBut(kind, s, trace, n, p)
    ensures ShowsAllBut(kind, Step(s, e), trace, n', p)
  {
    var whole, fileWhole := Whole(kind, trace, n, p), FileWhole(kind, trace, n, p);
    if trace[n].Loads? {
      RestartShows(kind, s, e, p, whole, fileWhole);
      WholeAfterLoad(kind, trace, n, n', p);
    } else {
      WholeOtherwise(kind, trace, n, n', p);
      if trace[n].Viewed? {
        ViewShows(kind, s, e, p, whole, fileWhole);
      }
    }
  }

  /** What a restart loads has views wherever there were some. */
  lemma LoadedViews(kind: Kind, startedAt: int, events: seq<Event>, trace: seq<Mark>, n: nat, n': nat,
        p: int)
    requires Follows(startedAt, events, trace) && n < |events| && n' == n + 1
    requires LosesNothing(trace, n') && trace[n].Loads?
    ensures Occurrences(kind, Run(startedAt, events[..n]).filePast.history, p) > 0 <==> HasViews(kind, trace, n, p)
  {
    Losses(startedAt, events, trace, n);
    Occur(kind, trace, n, p);
  }

  lemma WellFormedStep(startedAt: int, events: seq<Event>, trace: seq<Mark>, n: nat, n': nat)
    requires startedAt >= 0 && Follows(startedAt, events, trace) && n < |events| && n' == n + 1
    ensures var s := Run(startedAt, events[..n]);
      && Run(startedAt, events[..n']) == Step(s, events[n]) && trace[n] == MarkOf(s, events[n])
      && TrackerWellFormed(s.tracker) && TrackerWellFormed(Step(s, events[n]).tracker)
  {
    RunMore(startedAt, events, trace, n, n');
    RunIsWellFormed(startedAt, events[..n]);
    RunIsWellFormed(startedAt, events[..n']);
  }

  lemma FirstShows(kind: Kind, startedAt: int, events: seq<Event>, trace: seq<Mark>, p: int)
    requires startedAt >= 0
    ensures ShowsAllBut(kind, Run(startedAt, events[..0]), trace, 0, p)
  {
    assert events[..0] == [];
    FreshIsFaithful(startedAt);
    SaveShows(kind, Fresh(startedAt), [], p, true);
  }

  lemma RunShowsMore(kind: Kind, startedAt: int, events: seq<Event>, trace: seq<Mark>, n: nat, n': nat, p: int)
    requires startedAt >= 0 && Follows(startedAt, events, trace) && n < |events| && n' == n + 1
    requires LosesNothing(trace, n') && ShowsAllBut(kind, Run(startedAt, events[..n]), trace, n, p)
    ensures ShowsAllBut(kind, Run(startedAt, events[..n']), trace, n', p)
  {
    WellFormedStep(startedAt, events, trace, n, n');
    if trace[n].Loads? {
      LoadedViews(kind, startedAt, events, trace, n, n', p);
    }
    ShowsMore(kind, Run(startedAt, events[..n]), events[n], trace, n, n', p);
  }

  lemma {:induction false} RunShows(kind: Kind, startedAt: int, events: seq<Event>, trace: seq<Mark>, n: nat, p: int)
    requires startedAt >= 0 && Follows(startedAt, events, trace) && n <= |events| && LosesNothing(trace, n)
    ensures ShowsAllBut(kind, Run(startedAt, events[..n]), trace, n, p)
  {
    if n == 0 {
      FirstShows(kind, startedAt, events, trace, p);
    } else {
      var m := n - 1;
      RunShows(kind, startedAt, events, trace, m, p);
      RunShowsMore(kind, startedAt, events, trace, m, n, p);
    }
  }

  lemma ShowsInTheEnd(kind: Kind, startedAt: int, events: seq<Event>, trace: seq<Mark>)
    requires startedAt >= 0 && Follows(startedAt, events, trace) && KeepsAll(trace)
    ensures forall p :: ShowsAllBut(kind, Run(startedAt, events), trace, |trace|, p)
  {
    assert events[..|events|] == events;
    forall p ensures ShowsAllBut(kind, Run(startedAt, events), trace, |trace|, p) {
      RunShows(kind, startedAt, events, trace, |trace|, p);
    }
  }
}
