/**
 Page-view counts in two rings of fixed size, 24 hours and 30 days, as values
 (internal/httpapi/page_traffic.go, internal/httpapi/page_traffic_store.go). Times are
 nanoseconds since the epoch, and never before it.
 */
module Traffic {
  import opened Options

  const MS := 1_000_000
  const HOUR := 3600 * 1000 * MS
  const DAY := 24 * HOUR
  const MAX_VIEWS := 0x20_0000_0000_0000

  datatype Bucket = Bucket(period: int, views: int)

  const EMPTY := Bucket(0, 0)

  /** The remainder of Go, which takes the sign of the dividend. */
  function Remainder(a: int, b: int): int
    requires b > 0
  {
    if a >= 0 then a % b else -((-a) % b)
  }

  function RingIndex(value: int, size: int): (i: int)
    requires size == 24 || size == 30
    ensures i == value % size
  {
    WrapsAround(value, size);
    Remainder(Remainder(value, size) + size, size)
  }

  lemma WrapsAround(value: int, size: int)
    requires size == 24 || size == 30
    ensures Remainder(Remainder(value, size) + size, size) == value % size
  {
    var r := Remainder(value, size);
    if value >= 0 {
      Turn(r, 1, size);
    } else {
      var q := (-value) / size;
      if r == 0 {
        Turn(0, 1, size);
        Turn(0, -q, size);
      } else {
        assert value == size * (-1 - q) + (r + size);
        Turn(r + size, 0, size);
        Turn(r + size, -1 - q, size);
      }
    }
  }

  lemma Turn(r: int, turns: int, size: int)
    requires (size == 24 || size == 30) && 0 <= r < size
    ensures (size * turns + r) % size == r
  {
    if size == 24 {
      assert (24 * turns + r) % 24 == r;
    } else {
      assert (30 * turns + r) % 30 == r;
    }
  }

  /** Two periods less than a whole turn apart share a slot only if they are the same. */
  lemma OnePerTurn(kind: Kind, p: int, q: int)
    requires p % kind.Size() == q % kind.Size() && p - kind.Size() < q < p + kind.Size()
    ensures p == q
  {
    if kind.Hours? {
      assert p % 24 == q % 24;
    } else {
      assert p % 30 == q % 30;
    }
  }

  /** A ring's dimensions: 24 hours or 30 days. */
  datatype Kind = Hours | Days {
    function Size(): int {
      if Hours? then 24 else 30
    }

    function Unit(): int {
      if Hours? then HOUR else DAY
    }

    function Period(time: int): int {
      time / Unit()
    }
  }

  type Ring = seq<Bucket>

  function NoViews(kind: Kind): Ring {
    seq(kind.Size(), _ => EMPTY)
  }

  function Pruned(kind: Kind, ring: Ring, current: int): Ring {
    seq(|ring|, i requires 0 <= i < |ring| =>
      if ring[i].period < current - kind.Size() + 1 then EMPTY else ring[i])
  }

  /** One more view in the given period, unless it is out of the window or its slot is taken
      by a later one. */
  function Counted(kind: Kind, ring: Ring, current: int, period: int): Ring
    requires |ring| == kind.Size()
  {
    var r := Pruned(kind, ring, current);
    var b := r[period % kind.Size()];
    if period >= current - kind.Size() + 1 && b.period <= period then
      r[period % kind.Size() := Bucket(period, 1 + if b.period == period then b.views else 0)]
    else r
  }

  /** What the ring shows for a period. */
  function Shown(kind: Kind, ring: Ring, period: int): int
    requires |ring| == kind.Size()
  {
    var b := ring[period % kind.Size()];
    if b.period == period then b.views else 0
  }

  /** How many of the recorded views fall into a period. */
  function Occurrences(kind: Kind, history: seq<int>, period: int): nat {
    if history == [] then 0
    else
      Occurrences(kind, history[..|history| - 1], period)
      + if kind.Period(history[|history| - 1]) == period then 1 else 0
  }

  /** The true count: what the tracker was started with, and what it has recorded since. */
  function Count(kind: Kind, base: map<int, int>, history: seq<int>, period: int): int {
    (if period in base then base[period] else 0) + Occurrences(kind, history, period)
  }

  /** Every slot is empty or holds a period of its own within the window that ends at last. */
  predicate WellFormed(kind: Kind, ring: Ring, first: int, last: int) {
    && |ring| == kind.Size()
    && forall i | 0 <= i < |ring| :: ring[i] == EMPTY || SlotFits(kind, ring[i], i, first, last)
  }

  predicate SlotFits(kind: Kind, b: Bucket, i: int, first: int, last: int) {
    b.period % kind.Size() == i && first <= b.period <= last && b.period > last - kind.Size() && b.views > 0
  }

  /** The ring shows the true count of every period in the window that ends at horizon, and
      of every later one. */
  ghost predicate Exact(kind: Kind, ring: Ring, base: map<int, int>, history: seq<int>, horizon: int)
    requires |ring| == kind.Size()
  {
    forall p | p > horizon - kind.Size() :: Shown(kind, ring, p) == Count(kind, base, history, p)
  }

  lemma PruneKeeps(kind: Kind, ring: Ring, first: int, last: int, current: int)
    requires WellFormed(kind, ring, first, last) && 0 <= first <= last <= current
    ensures WellFormed(kind, Pruned(kind, ring, current), first, last)
    ensures forall i | 0 <= i < kind.Size() ::
      Pruned(kind, ring, current)[i] == EMPTY || Pruned(kind, ring, current)[i].period > current - kind.Size()
    ensures forall p | p > current - kind.Size() ::
      Shown(kind, Pruned(kind, ring, current), p) == Shown(kind, ring, p)
  {
  }

  /** What recording a view in period h does to the slot of period p. */
  lemma CountShows(kind: Kind, ring: Ring, first: int, last: int, last': int, horizon: int, h: int, p: int)
    requires WellFormed(kind, ring, first, last)
    requires 0 <= first <= h <= last' && first <= last <= last' <= horizon < p + kind.Size()
    ensures Shown(kind, Counted(kind, ring, last', h), p) == Shown(kind, ring, p) + if h == p then 1 else 0
  {
    var i := p % kind.Size();
    var pruned := Pruned(kind, ring, last');
    PruneKeeps(kind, ring, first, last, last');
    assert Shown(kind, pruned, p) == Shown(kind, ring, p);
    var b := pruned[i];
    if b != EMPTY && b.period > p {
      OnePerTurn(kind, p, b.period);
    }
    if h % kind.Size() == i && h > p {
      OnePerTurn(kind, p, h);
    }
  }

  lemma CountFits(kind: Kind, ring: Ring, first: int, last: int, last': int, h: int)
    requires WellFormed(kind, ring, first, last) && 0 <= first <= h <= last' && first <= last <= last'
    ensures WellFormed(kind, Counted(kind, ring, last', h), first, last')
  {
    var pruned := Pruned(kind, ring, last');
    PruneKeeps(kind, ring, first, last, last');
    forall i | 0 <= i < kind.Size() ensures pruned[i] == EMPTY || SlotFits(kind, pruned[i], i, first, last') {
      assert ring[i] == EMPTY || SlotFits(kind, ring[i], i, first, last);
    }
  }

  /** Recording an event, in order or not, keeps the ring exact. */
  lemma CountKeeps(kind: Kind, ring: Ring, base: map<int, int>, history: seq<int>,
                   first: int, last: int, last': int, horizon: int, horizon': int, time: int)
    requires WellFormed(kind, ring, first, last) && Exact(kind, ring, base, history, horizon)
    requires 0 <= first <= kind.Period(time) <= last' && first <= last <= last' <= horizon'
      && last <= horizon <= horizon'
    ensures var r := Counted(kind, ring, last', kind.Period(time));
      WellFormed(kind, r, first, last') && Exact(kind, r, base, history + [time], horizon')
  {
    var h := kind.Period(time);
    var r := Counted(kind, ring, last', h);
    CountFits(kind, ring, first, last, last', h);
    assert (history + [time])[..|history|] == history;
    forall p | p > horizon' - kind.Size() ensures Shown(kind, r, p) == Count(kind, base, history + [time], p) {
      CountShows(kind, ring, first, last, last', horizon', h, p);
    }
  }

  // ---------------------------------------------------------------- snapshots

  /** The data of a tracker (its persistent part). */
  datatype Tracker = Tracker(startedAt: int, lastRecorded: int, hours: Ring, days: Ring) {
    function Ring(kind: Kind): Ring {
      if kind.Hours? then hours else days
    }
  }

  datatype Point = Point(start: int, views: Option<int>)

  datatype Snapshot = Snapshot(startedAt: int, capturedAt: int, total: int, kind: Kind, points: seq<Point>)

  function RangeKind(range: string): Kind {
    if range == "7d" || range == "30d" then Days else Hours
  }

  function RangeLength(range: string): int {
    if range == "7d" then 7 else if range == "30d" then 30 else 24
  }

  function Latest(a: int, b: int): int {
    if a < b then b else a
  }

  /** The period of point i of a range that ends now. */
  function PointPeriod(range: string, now: int, i: int): int {
    RangeKind(range).Period(now) - RangeLength(range) + 1 + i
  }

  /** A period that began before the tracker did has no count. */
  function PointOf(t: Tracker, kind: Kind, period: int): Point
    requires |t.Ring(kind)| == kind.Size()
  {
    Point(period * (kind.Unit() / MS),
          if period < kind.Period(t.startedAt) then None else Some(Shown(kind, t.Ring(kind), period)))
  }

  function PointsOf(t: Tracker, kind: Kind, first: int, n: nat): seq<Point>
    requires |t.Ring(kind)| == kind.Size()
  {
    seq(n, i requires 0 <= i < n => PointOf(t, kind, first + i))
  }

  function Total(points: seq<Point>): int {
    if points == [] then 0
    else
      var last := points[|points| - 1].views;
      Total(points[..|points| - 1]) + if last.Some? then last.value else 0
  }

  predicate Sized(t: Tracker) {
    |t.hours| == 24 && |t.days| == 30
  }

  function SnapshotOf(t: Tracker, now: int, range: string): Snapshot
    requires Sized(t)
  {
    var captured := Latest(now, t.lastRecorded);
    var kind := RangeKind(range);
    var points := PointsOf(t, kind, PointPeriod(range, captured, 0), RangeLength(range));
    Snapshot(t.startedAt / MS, captured / MS, Total(points), kind, points)
  }

  // ---------------------------------------------------------------- the saved form

  datatype StoredBucket = StoredBucket(start: int, views: int)

  datatype Saved = Saved(version: int, startedAt: int, savedAt: int,
                         hours: Option<seq<StoredBucket>>, days: Option<seq<StoredBucket>>)

  function UnitMs(kind: Kind): int {
    if kind.Hours? then 3600 * 1000 else 86400 * 1000
  }

  /** The buckets with views, in slot order. */
  function StoredRing(kind: Kind, ring: Ring): seq<StoredBucket> {
    if ring == [] then []
    else
      var b := ring[|ring| - 1];
      StoredRing(kind, ring[..|ring| - 1])
      + if b.views > 0 then [StoredBucket(b.period * UnitMs(kind), b.views)] else []
  }

  function SaveOf(t: Tracker): Saved {
    Saved(1, t.startedAt / MS, t.lastRecorded / MS, Some(StoredRing(Hours, t.hours)), Some(StoredRing(Days, t.days)))
  }

  predicate BucketAccepted(kind: Kind, b: StoredBucket, startedAt: int, savedAt: int) {
    var period := b.start / UnitMs(kind);
    && b.start % UnitMs(kind) == 0
    && startedAt / UnitMs(kind) <= period <= savedAt / UnitMs(kind)
    && period > savedAt / UnitMs(kind) - kind.Size()
    && 0 < b.views <= MAX_VIEWS
  }

  /** The ring after the given buckets have been read, unless one of them is refused. */
  function Placed(kind: Kind, buckets: seq<StoredBucket>, startedAt: int, savedAt: int): (r: Option<Ring>)
    ensures r.Some? ==> |r.value| == kind.Size()
  {
    if buckets == [] then Some(NoViews(kind))
    else
      var before := Placed(kind, buckets[..|buckets| - 1], startedAt, savedAt);
      var b := buckets[|buckets| - 1];
      if before.None? || !BucketAccepted(kind, b, startedAt, savedAt) then None
      else
        var period := b.start / UnitMs(kind);
        var i := period % kind.Size();
        if before.value[i].views != 0 then None else Some(before.value[i := Bucket(period, b.views)])
  }

  predicate MetadataAccepted(saved: Saved) {
    && saved.version == 1 && saved.startedAt > 0 && saved.savedAt >= saved.startedAt
    && saved.hours.Some? && saved.days.Some? && |saved.hours.value| <= 24 && |saved.days.value| <= 30
  }

  function RestoreOf(saved: Saved): (t: Option<Tracker>)
    ensures t.Some? ==> Sized(t.value)
  {
    if !MetadataAccepted(saved) then None
    else
      var hours := Placed(Hours, saved.hours.value, saved.startedAt, saved.savedAt);
      var days := Placed(Days, saved.days.value, saved.startedAt, saved.savedAt);
      if hours.None? || days.None? then None
      else Some(Tracker(saved.startedAt * MS, saved.savedAt * MS, hours.value, days.value))
  }

  predicate TrackerWellFormed(t: Tracker) {
    && 0 <= t.startedAt <= t.lastRecorded
    && WellFormed(Hours, t.hours, Hours.Period(t.startedAt), Hours.Period(t.lastRecorded))
    && WellFormed(Days, t.days, Days.Period(t.startedAt), Days.Period(t.lastRecorded))
  }

  predicate Storable(ring: Ring) {
    forall i | 0 <= i < |ring| :: ring[i].views <= MAX_VIEWS
  }

  lemma PeriodInMs(kind: Kind, time: int)
    requires time >= 0
    ensures (time / MS) / UnitMs(kind) == kind.Period(time)
    ensures kind.Period(time / MS * MS) == kind.Period(time)
  {
  }

  lemma StoredPeriod(kind: Kind, period: int)
    ensures period * UnitMs(kind) / UnitMs(kind) == period && period * UnitMs(kind) % UnitMs(kind) == 0
  {
  }

  /** Reading one more bucket, the stored form of one that fits slot i. */
  lemma PlaceMore(kind: Kind, buckets: seq<StoredBucket>, b: Bucket, i: nat, startedAt: int, savedAt: int)
    requires startedAt >= 0 && savedAt >= 0 && i < kind.Size()
    requires SlotFits(kind, b, i, startedAt / UnitMs(kind), savedAt / UnitMs(kind))
    ensures var before := Placed(kind, buckets, startedAt, savedAt);
      Placed(kind, buckets + [StoredBucket(b.period * UnitMs(kind), b.views)], startedAt, savedAt) ==
      if before.None? || b.views > MAX_VIEWS || before.value[i].views != 0 then None else Some(before.value[i := b])
  {
    var stored := StoredBucket(b.period * UnitMs(kind), b.views);
    assert (buckets + [stored])[..|buckets|] == buckets;
    StoredPeriod(kind, b.period);
  }

  /** The first k slots of ring, and nothing else. */
  predicate Front(kind: Kind, r: Ring, ring: Ring, k: nat) {
    && |r| == |ring| == kind.Size()
    && forall i | 0 <= i < |r| :: r[i] == if i < k then ring[i] else EMPTY
  }

  predicate StorableUpTo(ring: Ring, k: nat) {
    forall i | 0 <= i < |ring| && i < k :: ring[i].views <= MAX_VIEWS
  }

  lemma FrontGrows(kind: Kind, before: Option<Ring>, after: Option<Ring>, ring: Ring, k: nat)
    requires k < |ring| == kind.Size() && (ring[k] == EMPTY || ring[k].views > 0)
    requires before.Some? <==> StorableUpTo(ring, k)
    requires before.Some? ==> Front(kind, before.value, ring, k)
    requires after == if ring[k] == EMPTY then before
                      else if before.None? || ring[k].views > MAX_VIEWS || before.value[k].views != 0 then None
                      else Some(before.value[k := ring[k]])
    ensures after.Some? <==> StorableUpTo(ring, k + 1)
    ensures after.Some? ==> Front(kind, after.value, ring, k + 1)
  {
    if StorableUpTo(ring, k + 1) {
      assert StorableUpTo(ring, k) && ring[k].views <= MAX_VIEWS;
    } else if StorableUpTo(ring, k) {
      assert ring[k].views > MAX_VIEWS;
    }
  }

  lemma StoreMore(kind: Kind, ring: Ring, k: nat)
    requires k < |ring|
    ensures StoredRing(kind, ring[..k + 1]) ==
      if ring[k].views > 0 then
        StoredRing(kind, ring[..k]) + [StoredBucket(ring[k].period * UnitMs(kind), ring[k].views)]
      else StoredRing(kind, ring[..k])
  {
    assert ring[..k + 1][..k] == ring[..k];
  }

  /** Reading the stored form of one more slot of the ring. */
  lemma PlaceSlot(kind: Kind, ring: Ring, startedAt: int, savedAt: int, k: nat)
    requires startedAt >= 0 && savedAt >= 0 && k < |ring| == kind.Size()
    requires WellFormed(kind, ring, startedAt / UnitMs(kind), savedAt / UnitMs(kind))
    ensures var before := Placed(kind, StoredRing(kind, ring[..k]), startedAt, savedAt);
      Placed(kind, StoredRing(kind, ring[..k + 1]), startedAt, savedAt) ==
      if ring[k] == EMPTY then before
      else if before.None? || ring[k].views > MAX_VIEWS || before.value[k].views != 0 then None
      else Some(before.value[k := ring[k]])
    ensures |StoredRing(kind, ring[..k + 1])| <= |StoredRing(kind, ring[..k])| + 1
    ensures ring[k] == EMPTY || ring[k].views > 0
  {
    StoreMore(kind, ring, k);
    if ring[k] != EMPTY {
      assert SlotFits(kind, ring[k], k, startedAt / UnitMs(kind), savedAt / UnitMs(kind));
      PlaceMore(kind, StoredRing(kind, ring[..k]), ring[k], k, startedAt, savedAt);
    }
  }

  /** Reading the stored form of a ring's first slots gives these slots back. */
  lemma {:induction false} StoreThenPlace(kind: Kind, ring: Ring, startedAt: int, savedAt: int, k: nat)
    requires startedAt >= 0 && savedAt >= 0 && k <= |ring| == kind.Size()
    requires WellFormed(kind, ring, startedAt / UnitMs(kind), savedAt / UnitMs(kind))
    ensures var r := Placed(kind, StoredRing(kind, ring[..k]), startedAt, savedAt);
      && (r.Some? <==> StorableUpTo(ring, k))
      && (r.Some? ==> Front(kind, r.value, ring, k))
    ensures |StoredRing(kind, ring[..k])| <= k
  {
    if k == 0 {
      assert ring[..0] == [];
    } else {
      StoreThenPlace(kind, ring, startedAt, savedAt, k - 1);
      PlaceSlot(kind, ring, startedAt, savedAt, k - 1);
      FrontGrows(kind, Placed(kind, StoredRing(kind, ring[..k - 1]), startedAt, savedAt),
                 Placed(kind, StoredRing(kind, ring[..k]), startedAt, savedAt), ring, k - 1);
    }
  }

  lemma SameShape(t: Tracker, u: Tracker, now: int, range: string)
    requires Sized(t) && Sized(u) && t.hours == u.hours && t.days == u.days && now >= 0
    requires 0 <= t.startedAt && 0 <= t.lastRecorded
    requires u.startedAt == t.startedAt / MS * MS && u.lastRecorded == t.lastRecorded / MS * MS
    ensures SnapshotOf(u, now, range) == SnapshotOf(t, now, range)
  {
    var kind := RangeKind(range);
    PeriodInMs(kind, t.startedAt);
    PeriodInMs(kind, Latest(now, t.lastRecorded));
    PeriodInMs(kind, Latest(now, u.lastRecorded));
    assert Latest(now, t.lastRecorded) / MS == Latest(now, u.lastRecorded) / MS;
    SamePoints(t, u, kind, PointPeriod(range, Latest(now, t.lastRecorded), 0), RangeLength(range));
  }

  lemma SamePoints(t: Tracker, u: Tracker, kind: Kind, first: int, n: nat)
    requires t.Ring(kind) == u.Ring(kind) && |t.Ring(kind)| == kind.Size()
    requires kind.Period(t.startedAt) == kind.Period(u.startedAt)
    ensures PointsOf(u, kind, first, n) == PointsOf(t, kind, first, n)
  {
    forall i | 0 <= i < n ensures PointsOf(u, kind, first, n)[i] == PointsOf(t, kind, first, n)[i] {
      assert PointOf(u, kind, first + i) == PointOf(t, kind, first + i);
    }
  }

  lemma RingSurvives(kind: Kind, t: Tracker)
    requires TrackerWellFormed(t)
    ensures var r := Placed(kind, StoredRing(kind, t.Ring(kind)), t.startedAt / MS, t.lastRecorded / MS);
      && (r.Some? <==> Storable(t.Ring(kind)))
      && (r.Some? ==> r.value == t.Ring(kind))
    ensures |StoredRing(kind, t.Ring(kind))| <= kind.Size()
  {
    var ring := t.Ring(kind);
    PeriodInMs(kind, t.startedAt);
    PeriodInMs(kind, t.lastRecorded);
    StoreThenPlace(kind, ring, t.startedAt / MS, t.lastRecorded / MS, |ring|);
    assert ring[..|ring|] == ring;
  }

  /** A restart: what is saved is accepted exactly when the tracker did not start in the
      first millisecond of the epoch and no count has outgrown the format; and the restored
      tracker then gives the same snapshot at any time and for any range. */
  lemma SaveThenRestore(t: Tracker)
    requires TrackerWellFormed(t)
    ensures RestoreOf(SaveOf(t)).Some? <==> t.startedAt >= MS && Storable(t.hours) && Storable(t.days)
    ensures RestoreOf(SaveOf(t)).Some? ==>
      var u := RestoreOf(SaveOf(t)).value;
      && u.hours == t.hours && u.days == t.days
      && forall now, range | now >= 0 :: SnapshotOf(u, now, range) == SnapshotOf(t, now, range)
  {
    RingSurvives(Hours, t);
    RingSurvives(Days, t);
    if RestoreOf(SaveOf(t)).Some? {
      var u := RestoreOf(SaveOf(t)).value;
      forall now, range | now >= 0 ensures SnapshotOf(u, now, range) == SnapshotOf(t, now, range) {
        SameShape(t, u, now, range);
      }
    }
  }

  /** Whatever file is accepted, the rings it gives are well formed. */
  lemma {:induction false} PlacedIsWellFormed(kind: Kind, buckets: seq<StoredBucket>, startedAt: int, savedAt: int)
    requires startedAt >= 0 && Placed(kind, buckets, startedAt, savedAt).Some?
    ensures WellFormed(kind, Placed(kind, buckets, startedAt, savedAt).value,
                       startedAt / UnitMs(kind), savedAt / UnitMs(kind))
    ensures Storable(Placed(kind, buckets, startedAt, savedAt).value)
    decreases |buckets|
  {
    if buckets != [] {
      PlacedIsWellFormed(kind, buckets[..|buckets| - 1], startedAt, savedAt);
    }
  }

  lemma RestoredIsWellFormed(saved: Saved)
    requires RestoreOf(saved).Some?
    ensures TrackerWellFormed(RestoreOf(saved).value)
    ensures RestoreOf(SaveOf(RestoreOf(saved).value)) == RestoreOf(saved)
  {
    var t := RestoreOf(saved).value;
    PlacedIsWellFormed(Hours, saved.hours.value, saved.startedAt, saved.savedAt);
    PlacedIsWellFormed(Days, saved.days.value, saved.startedAt, saved.savedAt);
    assert t.startedAt / MS == saved.startedAt && t.lastRecorded / MS == saved.savedAt;
    PeriodInMs(Hours, t.startedAt);
    PeriodInMs(Hours, t.lastRecorded);
    PeriodInMs(Days, t.startedAt);
    PeriodInMs(Days, t.lastRecorded);
    SaveThenRestore(t);
  }
}
