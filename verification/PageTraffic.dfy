/**
 The page-view tracker as an object with its two rings in place
 (internal/httpapi/page_traffic.go, internal/httpapi/page_traffic_store.go), and the runs of
 views, failed writes and restarts it goes through. A state of a run also holds what really
 happened, so that the rings can be compared with true counts.
 */
module PageTraffics {
  import opened Options
  import opened Traffic

  datatype Past = Past(hours: map<int, int>, days: map<int, int>, history: seq<int>) {
    function Base(kind: Kind): map<int, int> {
      if kind.Hours? then hours else days
    }

    /** How many views fell into a period. */
    function Count(kind: Kind, period: int): int {
      Traffic.Count(kind, Base(kind), history, period)
    }

    /** How many views fell into n periods, the first of them given. */
    function Views(kind: Kind, first: int, n: nat): int {
      if n == 0 then 0 else Views(kind, first, n - 1) + Count(kind, first + n - 1)
    }
  }

  /** Nothing happened before the tracker started. */
  predicate Since(past: Past, startedAt: int) {
    && (forall p | p in past.hours :: p >= Hours.Period(startedAt))
    && (forall p | p in past.days :: p >= Days.Period(startedAt))
    && (forall i | 0 <= i < |past.history| :: past.history[i] >= startedAt)
  }

  lemma {:induction false} NoneBefore(kind: Kind, history: seq<int>, startedAt: int, p: int)
    requires forall i | 0 <= i < |history| :: history[i] >= startedAt
    requires p < kind.Period(startedAt)
    ensures Occurrences(kind, history, p) == 0
  {
    if history != [] {
      NoneBefore(kind, history[..|history| - 1], startedAt, p);
      Monotone(kind, startedAt, history[|history| - 1]);
    }
  }

  lemma Monotone(kind: Kind, a: int, b: int)
    requires a <= b
    ensures kind.Period(a) <= kind.Period(b)
  {
  }

  /** The rings agree with the past in the window that ends at horizon and after it. */
  ghost predicate Faithful(t: Tracker, past: Past, horizon: int)
    requires Sized(t)
  {
    forall kind: Kind :: Exact(kind, t.Ring(kind), past.Base(kind), past.history, kind.Period(horizon))
  }

  function Recorded(t: Tracker, now: int): Tracker
    requires Sized(t)
  {
    if now < t.startedAt then t
    else
      var last := Latest(now, t.lastRecorded);
      Tracker(t.startedAt, last,
              Counted(Hours, t.hours, Hours.Period(last), Hours.Period(now)),
              Counted(Days, t.days, Days.Period(last), Days.Period(now)))
  }

  function WithView(past: Past, t: Tracker, now: int): Past {
    if now < t.startedAt then past else past.(history := past.history + [now])
  }

  lemma RecordKeepsRing(kind: Kind, t: Tracker, past: Past, horizon: int, now: int)
    requires TrackerWellFormed(t) && t.startedAt <= now && t.lastRecorded <= horizon
    requires Exact(kind, t.Ring(kind), past.Base(kind), past.history, kind.Period(horizon))
    ensures var u := Recorded(t, now);
      && WellFormed(kind, u.Ring(kind), kind.Period(t.startedAt), kind.Period(u.lastRecorded))
      && Exact(kind, u.Ring(kind), past.Base(kind), past.history + [now], kind.Period(Latest(now, horizon)))
  {
    var last := Latest(now, t.lastRecorded);
    var horizon' := Latest(now, horizon);
    Monotone(kind, t.startedAt, now);
    Monotone(kind, now, last);
    Monotone(kind, t.startedAt, t.lastRecorded);
    Monotone(kind, t.lastRecorded, last);
    Monotone(kind, last, horizon');
    Monotone(kind, t.lastRecorded, horizon);
    Monotone(kind, horizon, horizon');
    CountKeeps(kind, t.Ring(kind), past.Base(kind), past.history, kind.Period(t.startedAt),
               kind.Period(t.lastRecorded), kind.Period(last), kind.Period(horizon), kind.Period(horizon'), now);
  }

  /** Whatever the order of the views, and however late one is, the rings stay faithful. */
  lemma RecordKeeps(t: Tracker, past: Past, horizon: int, now: int)
    requires TrackerWellFormed(t) && t.lastRecorded <= horizon
    requires Faithful(t, past, horizon) && Since(past, t.startedAt)
    ensures var u := Recorded(t, now);
      var past' := WithView(past, t, now);
      && TrackerWellFormed(u) && u.startedAt == t.startedAt && u.lastRecorded >= t.lastRecorded
      && Faithful(u, past', if now < t.startedAt then horizon else Latest(now, horizon))
      && Since(past', t.startedAt)
  {
    if now >= t.startedAt {
      var u := Recorded(t, now);
      var past' := WithView(past, t, now);
      RecordKeepsRing(Hours, t, past, horizon, now);
      RecordKeepsRing(Days, t, past, horizon, now);
      forall kind: Kind
        ensures Exact(kind, u.Ring(kind), past'.Base(kind), past'.history, kind.Period(Latest(now, horizon)))
      {
        assert past'.Base(kind) == past.Base(kind);
      }
    }
  }

  /** What a file counts for each period. */
  function FileCounts(kind: Kind, buckets: seq<StoredBucket>): map<int, int> {
    if buckets == [] then map[]
    else
      var b := buckets[|buckets| - 1];
      FileCounts(kind, buckets[..|buckets| - 1])[b.start / UnitMs(kind) := b.views]
  }

  /** A file that is accepted is shown as it is: for every period, not only in the window. */
  lemma {:induction false} PlacedShowsTheFile(kind: Kind, buckets: seq<StoredBucket>, startedAt: int, savedAt: int)
    requires startedAt >= 0 && Placed(kind, buckets, startedAt, savedAt).Some?
    ensures var ring := Placed(kind, buckets, startedAt, savedAt).value;
      forall p :: Shown(kind, ring, p) == Count(kind, FileCounts(kind, buckets), [], p)
    decreases |buckets|
  {
    if buckets != [] {
      var before := buckets[..|buckets| - 1];
      PlacedShowsTheFile(kind, before, startedAt, savedAt);
      PlacedIsWellFormed(kind, before, startedAt, savedAt);
      var ring := Placed(kind, before, startedAt, savedAt).value;
      var b := buckets[|buckets| - 1];
      var i := b.start / UnitMs(kind) % kind.Size();
      assert ring[i] == EMPTY || SlotFits(kind, ring[i], i, startedAt / UnitMs(kind), savedAt / UnitMs(kind));
      forall p
        ensures Shown(kind, Placed(kind, buckets, startedAt, savedAt).value, p)
             == Count(kind, FileCounts(kind, buckets), [], p)
      {
        assert Shown(kind, ring, p) == Count(kind, FileCounts(kind, before), [], p);
      }
    }
  }

  /** The tracker a process starts with when it finds a file. */
  function Loaded(saved: Saved, now: int): (t: Option<Tracker>)
    ensures t.Some? ==> Sized(t.value)
  {
    var t := RestoreOf(saved);
    if t.None? then None
    else Some(t.value.(hours := Pruned(Hours, t.value.hours, Hours.Period(now)),
                       days := Pruned(Days, t.value.days, Days.Period(now))))
  }

  /** Pruning with any time, earlier or later than the last view. */
  lemma PruneKeepsRing(kind: Kind, t: Tracker, past: Past, horizon: int, now: int)
    requires TrackerWellFormed(t) && t.lastRecorded <= horizon
    requires Exact(kind, t.Ring(kind), past.Base(kind), past.history, kind.Period(horizon))
    ensures var ring := Pruned(kind, t.Ring(kind), kind.Period(now));
      && WellFormed(kind, ring, kind.Period(t.startedAt), kind.Period(t.lastRecorded))
      && Exact(kind, ring, past.Base(kind), past.history, kind.Period(Latest(now, horizon)))
  {
    var ring := t.Ring(kind);
    var first, last := kind.Period(t.startedAt), kind.Period(t.lastRecorded);
    Monotone(kind, t.startedAt, t.lastRecorded);
    Monotone(kind, horizon, Latest(now, horizon));
    Monotone(kind, now, Latest(now, horizon));
    if now >= t.lastRecorded {
      Monotone(kind, t.lastRecorded, now);
      PruneKeeps(kind, ring, first, last, kind.Period(now));
    } else {
      Monotone(kind, now, t.lastRecorded);
      forall i | 0 <= i < |ring| ensures Pruned(kind, ring, kind.Period(now))[i] == ring[i] {
        assert ring[i] == EMPTY || SlotFits(kind, ring[i], i, first, last);
      }
      assert Pruned(kind, ring, kind.Period(now)) == ring;
    }
  }

  // ---------------------------------------------------------------- runs

  /** A view, and whether the file could be written after it; or a restart. */
  datatype Event = View(now: int, written: bool) | Restart(now: int)

  /** The tracker and the file on disk, what really happened up to each of them, and the
      latest time either was pruned with. */
  datatype System = System(tracker: Tracker, past: Past, horizon: int,
                           file: Saved, filePast: Past, fileHorizon: int)

  function Fresh(now: int): Tracker {
    Tracker(now, now, NoViews(Hours), NoViews(Days))
  }

  const NO_PAST := Past(map[], map[], [])

  /** A view before the start is ignored; a file that is refused stops the process from
      starting; a restart forgets what the file does not know. */
  function Step(s: System, e: Event): (r: System)
    requires Sized(s.tracker)
    ensures Sized(r.tracker)
  {
    match e
    case View(now, written) =>
      if now < s.tracker.startedAt then s
      else
        var tracker := Recorded(s.tracker, now);
        var past := s.past.(history := s.past.history + [now]);
        var horizon := Latest(now, s.horizon);
        if written then System(tracker, past, horizon, SaveOf(tracker), past, horizon / MS * MS)
        else s.(tracker := tracker, past := past, horizon := horizon)
    case Restart(now) =>
      var loaded := Loaded(s.file, now);
      if loaded.None? then s
      else s.(tracker := loaded.value, past := s.filePast, horizon := Latest(now, s.fileHorizon))
  }

  function Run(startedAt: int, events: seq<Event>): (s: System)
    ensures Sized(s.tracker)
  {
    if events == [] then
      var t := Fresh(startedAt);
      System(t, NO_PAST, startedAt, SaveOf(t), NO_PAST, startedAt / MS * MS)
    else Step(Run(startedAt, events[..|events| - 1]), events[|events| - 1])
  }

  ghost predicate Sound(t: Tracker, past: Past, horizon: int) {
    TrackerWellFormed(t) && t.lastRecorded <= horizon && Faithful(t, past, horizon) && Since(past, t.startedAt)
  }

  ghost predicate Invariant(s: System) {
    && Sound(s.tracker, s.past, s.horizon)
    && (RestoreOf(s.file).Some? ==> Sound(RestoreOf(s.file).value, s.filePast, s.fileHorizon))
  }

  /** Rounding to milliseconds changes no period. */
  lemma SameRingsKeep(t: Tracker, u: Tracker, past: Past, horizon: int)
    requires Sized(t) && Sized(u) && u.hours == t.hours && u.days == t.days && horizon >= 0
    requires Faithful(t, past, horizon)
    ensures Faithful(u, past, horizon / MS * MS)
  {
    forall kind: Kind
      ensures Exact(kind, u.Ring(kind), past.Base(kind), past.history, kind.Period(horizon / MS * MS))
    {
      PeriodInMs(kind, horizon);
      assert Exact(kind, t.Ring(kind), past.Base(kind), past.history, kind.Period(horizon));
    }
  }

  lemma SinceInMs(past: Past, startedAt: int)
    requires Since(past, startedAt) && startedAt >= 0
    ensures Since(past, startedAt / MS * MS)
  {
    PeriodInMs(Hours, startedAt);
    PeriodInMs(Days, startedAt);
  }

  lemma SaveKeeps(t: Tracker, past: Past, horizon: int)
    requires Sound(t, past, horizon)
    ensures RestoreOf(SaveOf(t)).Some? ==> Sound(RestoreOf(SaveOf(t)).value, past, horizon / MS * MS)
  {
    if RestoreOf(SaveOf(t)).Some? {
      var u := RestoreOf(SaveOf(t)).value;
      SaveThenRestore(t);
      RestoredIsWellFormed(SaveOf(t));
      SameRingsKeep(t, u, past, horizon);
      SinceInMs(past, t.startedAt);
      Rounded(t.lastRecorded, horizon);
    }
  }

  lemma LoadKeeps(saved: Saved, past: Past, horizon: int, now: int)
    requires RestoreOf(saved).Some? && Sound(RestoreOf(saved).value, past, horizon)
    ensures Sound(Loaded(saved, now).value, past, Latest(now, horizon))
  {
    var t := RestoreOf(saved).value;
    var u := Loaded(saved, now).value;
    PruneKeepsRing(Hours, t, past, horizon, now);
    PruneKeepsRing(Days, t, past, horizon, now);
    forall kind: Kind
      ensures Exact(kind, u.Ring(kind), past.Base(kind), past.history, kind.Period(Latest(now, horizon)))
    {
      assert u.Ring(kind) == Pruned(kind, t.Ring(kind), kind.Period(now));
    }
  }

  lemma {:induction false} FileStartsLate(kind: Kind, buckets: seq<StoredBucket>, startedAt: int, savedAt: int)
    requires Placed(kind, buckets, startedAt, savedAt).Some?
    ensures forall p | p in FileCounts(kind, buckets) :: p >= startedAt / UnitMs(kind)
  {
    if buckets != [] {
      FileStartsLate(kind, buckets[..|buckets| - 1], startedAt, savedAt);
    }
  }

  /** What an accepted file counts. */
  function FilePast(saved: Saved): Past
    requires RestoreOf(saved).Some?
  {
    Past(FileCounts(Hours, saved.hours.value), FileCounts(Days, saved.days.value), [])
  }

  lemma FileIsShown(kind: Kind, saved: Saved)
    requires RestoreOf(saved).Some?
    ensures var t, past := RestoreOf(saved).value, FilePast(saved);
      Exact(kind, t.Ring(kind), past.Base(kind), past.history, kind.Period(t.lastRecorded))
  {
    if kind.Hours? {
      PlacedShowsTheFile(Hours, saved.hours.value, saved.startedAt, saved.savedAt);
    } else {
      PlacedShowsTheFile(Days, saved.days.value, saved.startedAt, saved.savedAt);
    }
  }

  lemma FileIsSince(saved: Saved)
    requires RestoreOf(saved).Some?
    ensures Since(FilePast(saved), RestoreOf(saved).value.startedAt)
  {
    var t := RestoreOf(saved).value;
    FileStartsLate(Hours, saved.hours.value, saved.startedAt, saved.savedAt);
    FileStartsLate(Days, saved.days.value, saved.startedAt, saved.savedAt);
    PeriodInMs(Hours, t.startedAt);
    PeriodInMs(Days, t.startedAt);
  }

  lemma FileIsSound(saved: Saved)
    requires RestoreOf(saved).Some?
    ensures Sound(RestoreOf(saved).value, FilePast(saved), saved.savedAt * MS)
  {
    RestoredIsWellFormed(saved);
    FileIsSince(saved);
    forall kind: Kind
      ensures Exact(kind, RestoreOf(saved).value.Ring(kind), FilePast(saved).Base(kind), [],
                    kind.Period(saved.savedAt * MS))
    {
      FileIsShown(kind, saved);
    }
  }

  /** Whatever file is accepted, the tracker that is loaded from it is faithful to the
      counts in the file. */
  lemma AnyFileIsSound(saved: Saved, now: int)
    requires Loaded(saved, now).Some?
    ensures Sound(Loaded(saved, now).value, FilePast(saved), Latest(now, saved.savedAt * MS))
  {
    FileIsSound(saved);
    LoadKeeps(saved, FilePast(saved), saved.savedAt * MS, now);
  }

  lemma StepKeeps(s: System, e: Event)
    requires Invariant(s)
    ensures Invariant(Step(s, e))
  {
    match e
    case View(now, written) =>
      RecordKeeps(s.tracker, s.past, s.horizon, now);
      if now >= s.tracker.startedAt {
        var s' := Step(s, e);
        assert Sound(s'.tracker, s'.past, s'.horizon);
        SaveKeeps(s'.tracker, s'.past, s'.horizon);
      }
    case Restart(now) =>
      if RestoreOf(s.file).Some? {
        LoadKeeps(s.file, s.filePast, s.fileHorizon, now);
      }
  }

  /** In every reachable state, whatever the order of the views, the failed writes and the
      restarts, every ring shows the true count of every period in its window. */
  lemma {:induction false} RunIsFaithful(startedAt: int, events: seq<Event>)
    requires startedAt >= 0
    ensures Invariant(Run(startedAt, events))
  {
    if events == [] {
      FreshIsFaithful(startedAt);
      SaveKeeps(Fresh(startedAt), NO_PAST, startedAt);
    } else {
      RunIsFaithful(startedAt, events[..|events| - 1]);
      StepKeeps(Run(startedAt, events[..|events| - 1]), events[|events| - 1]);
    }
  }

  lemma FreshIsFaithful(startedAt: int)
    requires startedAt >= 0
    ensures Sound(Fresh(startedAt), NO_PAST, startedAt)
  {
    var t := Fresh(startedAt);
    forall kind: Kind ensures Exact(kind, t.Ring(kind), map[], [], kind.Period(startedAt)) {
      forall p | p > kind.Period(startedAt) - kind.Size()
        ensures Shown(kind, t.Ring(kind), p) == Count(kind, map[], [], p)
      {
      }
    }
  }

  /** The latest restart. */
  function LatestRestart(events: seq<Event>): int {
    if events == [] then 0
    else
      var last := events[|events| - 1];
      var before := LatestRestart(events[..|events| - 1]);
      if last.Restart? then Latest(before, last.now) else before
  }

  lemma InMs(horizon: int, restart: int, last: int)
    requires horizon <= Latest(restart, last)
    ensures horizon / MS * MS <= Latest(restart, last / MS * MS)
  {
    assert last / MS * MS <= last < last / MS * MS + MS;
    if horizon > restart {
      Rounded(horizon, last);
    }
  }

  lemma Rounded(a: int, b: int)
    requires a <= b
    ensures a / MS * MS <= b / MS * MS
  {
  }

  predicate Bounded(s: System, restart: int) {
    && s.horizon <= Latest(restart, s.tracker.lastRecorded)
    && (RestoreOf(s.file).Some? ==> s.fileHorizon <= Latest(restart, RestoreOf(s.file).value.lastRecorded))
  }

  lemma HorizonOfView(s: System, e: Event, restart: int)
    requires e.View? && Sized(s.tracker) && Bounded(s, restart)
    ensures Bounded(Step(s, e), restart)
  {
    if e.now >= s.tracker.startedAt {
      var t := Recorded(s.tracker, e.now);
      InMs(Latest(e.now, s.horizon), restart, t.lastRecorded);
    }
  }

  /** Only a restart prunes with a time beyond the latest view. */
  lemma {:induction false} HorizonOfRun(startedAt: int, events: seq<Event>)
    requires startedAt >= 0
    ensures Bounded(Run(startedAt, events), LatestRestart(events))
  {
    if events == [] {
      assert SaveOf(Fresh(startedAt)).savedAt == startedAt / MS;
    } else {
      var before := events[..|events| - 1];
      var s := Run(startedAt, before);
      HorizonOfRun(startedAt, before);
      if events[|events| - 1].View? {
        HorizonOfView(s, events[|events| - 1], LatestRestart(before));
      }
    }
  }

  // ---------------------------------------------------------------- the object

  /** Every bucket older than the window becomes empty, in place. */
  method Prune(kind: Kind, ring: array<Bucket>, current: int)
    requires ring.Length == kind.Size()
    modifies ring
    ensures ring[..] == Pruned(kind, old(ring[..]), current)
  {
    var i := 0;
    while i < ring.Length
      invariant 0 <= i <= ring.Length
      invariant forall j | 0 <= j < i :: ring[j] == Pruned(kind, old(ring[..]), current)[j]
      invariant forall j | i <= j < ring.Length :: ring[j] == old(ring[j])
    {
      if ring[i].period < current - kind.Size() + 1 {
        ring[i] := EMPTY;
      }
      i := i + 1;
    }
  }

  /** Counts one view into a ring that has just been pruned. */
  method Bump(kind: Kind, ring: array<Bucket>, current: int, period: int, ghost before: Ring)
    requires ring.Length == kind.Size() && |before| == kind.Size()
    requires ring[..] == Pruned(kind, before, current)
    modifies ring
    ensures ring[..] == Counted(kind, before, current, period)
  {
    var i := RingIndex(period, kind.Size());
    ghost var pruned := ring[..];
    assert pruned[i] == ring[i];
    if period >= current - kind.Size() + 1 && ring[i].period <= period {
      if ring[i].period != period {
        ring[i] := Bucket(period, 0);
      }
      ring[i] := Bucket(ring[i].period, ring[i].views + 1);
      assert ring[..] == pruned[i := ring[i]];
    }
  }

  /** The buckets with views, in slot order. */
  method Store(kind: Kind, ring: array<Bucket>) returns (buckets: seq<StoredBucket>)
    ensures buckets == StoredRing(kind, ring[..])
  {
    buckets := [];
    var i := 0;
    while i < ring.Length
      invariant 0 <= i <= ring.Length
      invariant buckets == StoredRing(kind, ring[..i])
    {
      assert ring[..i + 1][..i] == ring[..i];
      if ring[i].views > 0 {
        buckets := buckets + [StoredBucket(ring[i].period * UnitMs(kind), ring[i].views)];
      }
      i := i + 1;
    }
    assert ring[..i] == ring[..];
  }

  /** Fills an empty ring from stored buckets; stops at the first bucket that is refused. */
  method Place(kind: Kind, buckets: seq<StoredBucket>, startedAt: int, savedAt: int, ring: array<Bucket>)
    returns (ok: bool)
    requires ring.Length == kind.Size() && ring[..] == NoViews(kind)
    modifies ring
    ensures ok <==> Placed(kind, buckets, startedAt, savedAt).Some?
    ensures ok ==> ring[..] == Placed(kind, buckets, startedAt, savedAt).value
  {
    var n := 0;
    while n < |buckets|
      invariant 0 <= n <= |buckets|
      invariant Placed(kind, buckets[..n], startedAt, savedAt) == Some(ring[..])
    {
      var b := buckets[n];
      var period := b.start / UnitMs(kind);
      var i := RingIndex(period, kind.Size());
      ghost var before := ring[..];
      assert before[i] == ring[i];
      assert buckets[..n + 1][..n] == buckets[..n];
      if !BucketAccepted(kind, b, startedAt, savedAt) || ring[i].views != 0 {
        RefusalIsFinal(kind, buckets, n + 1, startedAt, savedAt);
        return false;
      }
      ring[i] := Bucket(period, b.views);
      assert ring[..] == before[i := ring[i]];
      n := n + 1;
    }
    assert buckets[..n] == buckets;
    return true;
  }

  lemma {:induction false} RefusalIsFinal(kind: Kind, buckets: seq<StoredBucket>, n: nat, startedAt: int, savedAt: int)
    requires n <= |buckets| && Placed(kind, buckets[..n], startedAt, savedAt).None?
    ensures Placed(kind, buckets, startedAt, savedAt).None?
    decreases |buckets|
  {
    if n == |buckets| {
      assert buckets[..n] == buckets;
    } else {
      assert buckets[..|buckets| - 1][..n] == buckets[..n];
      RefusalIsFinal(kind, buckets[..|buckets| - 1], n, startedAt, savedAt);
    }
  }

  class PageTraffic {
    var startedAt: int
    var lastRecorded: int
    const hours: array<Bucket>
    const days: array<Bucket>

    predicate Valid()
      reads this
    {
      hours.Length == 24 && days.Length == 30 && hours != days
    }

    function Data(): (t: Tracker)
      requires Valid()
      reads this, hours, days
      ensures Sized(t)
    {
      Tracker(startedAt, lastRecorded, hours[..], days[..])
    }

    constructor (now: int)
      ensures Valid() && fresh(hours) && fresh(days)
      ensures Data() == Fresh(now)
    {
      startedAt, lastRecorded := now, now;
      hours := new Bucket[24](_ => EMPTY);
      days := new Bucket[30](_ => EMPTY);
      new;
      assert hours[..] == NoViews(Hours) && days[..] == NoViews(Days);
    }

    /** Counts a view, and returns what is to be written; nothing if the view is ignored. */
    method Record(now: int) returns (saved: Option<Saved>)
      requires Valid()
      modifies this, hours, days
      ensures Valid() && Data() == Recorded(old(Data()), now)
      ensures saved == if now < old(startedAt) then None else Some(SaveOf(Data()))
    {
      if now < startedAt {
        return None;
      }
      if now > lastRecorded {
        lastRecorded := now;
      }
      ghost var before := old(Data());
      PruneBoth(lastRecorded);
      Bump(Hours, hours, Hours.Period(lastRecorded), Hours.Period(now), before.hours);
      Bump(Days, days, Days.Period(lastRecorded), Days.Period(now), before.days);
      saved := Save();
    }

    method PruneBoth(now: int)
      requires Valid()
      modifies hours, days
      ensures hours[..] == Pruned(Hours, old(hours[..]), Hours.Period(now))
      ensures days[..] == Pruned(Days, old(days[..]), Days.Period(now))
    {
      Prune(Hours, hours, Hours.Period(now));
      Prune(Days, days, Days.Period(now));
    }

    method Save() returns (saved: Option<Saved>)
      requires Valid()
      ensures saved == Some(SaveOf(Data()))
    {
      var h := Store(Hours, hours);
      var d := Store(Days, days);
      saved := Some(Saved(1, startedAt / MS, lastRecorded / MS, Some(h), Some(d)));
    }

    /** Reads a file into a fresh tracker. */
    method Restore(saved: Saved) returns (ok: bool)
      requires Valid() && hours[..] == NoViews(Hours) && days[..] == NoViews(Days)
      modifies this, hours, days
      ensures Valid() && (ok <==> RestoreOf(saved).Some?)
      ensures ok ==> Data() == RestoreOf(saved).value
    {
      if !MetadataAccepted(saved) {
        return false;
      }
      startedAt, lastRecorded := saved.startedAt * MS, saved.savedAt * MS;
      ok := Place(Hours, saved.hours.value, saved.startedAt, saved.savedAt, hours);
      if ok {
        ok := Place(Days, saved.days.value, saved.startedAt, saved.savedAt, days);
      }
    }

    static method Load(saved: Saved, now: int) returns (t: PageTraffic, ok: bool)
      ensures fresh(t) && fresh(t.hours) && fresh(t.days) && t.Valid()
      ensures ok <==> Loaded(saved, now).Some?
      ensures ok ==> t.Data() == Loaded(saved, now).value
    {
      t := new PageTraffic(now);
      ok := t.Restore(saved);
      if ok {
        t.PruneBoth(now);
      }
    }

    method SnapshotRange(now: int, range: string) returns (s: Snapshot)
      requires Valid()
      ensures s == SnapshotOf(Data(), now, range)
    {
      var captured := if now < lastRecorded then lastRecorded else now;
      var kind, count := Hours, 24;
      if range == "7d" {
        kind, count := Days, 7;
      }
      if range == "30d" {
        kind, count := Days, 30;
      }
      var points, total := [], 0;
      var i := 0;
      while i < count
        invariant 0 <= i <= count && points == PointsOf(Data(), kind, kind.Period(captured) - count + 1, i)
        invariant total == Total(points)
      {
        var point := PointAt(kind, kind.Period(captured) - count + 1 + i);
        if point.views.Some? {
          total := total + point.views.value;
        }
        assert (points + [point])[..i] == points;
        points := points + [point];
        i := i + 1;
      }
      s := Snapshot(startedAt / MS, captured / MS, total, kind, points);
    }

    method PointAt(kind: Kind, period: int) returns (point: Point)
      requires Valid()
      ensures point == PointOf(Data(), kind, period)
    {
      point := Point(period * (kind.Unit() / MS), None);
      if period >= kind.Period(startedAt) {
        var ring := if kind.Hours? then hours else days;
        var b := ring[RingIndex(period, kind.Size())];
        point := point.(views := Some(if b.period == period then b.views else 0));
      }
    }
  }
}
