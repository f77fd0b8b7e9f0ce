/**
 What a snapshot of the page views shows and which saved files are accepted
 (internal/httpapi/page_traffic.go:99-166, internal/httpapi/page_traffic_store.go:80-124), with
 the ranges, units and limits as they are written there.
 */
module TrafficShapes {
  import opened Options
  import opened Traffic

  // ---------------------------------------------------------------- snapshots

  /** How many points a range has. */
  function Points(range: string): int {
    if range == "30d" then 30 else if range == "7d" then 7 else 24
  }

  /** The length of its points, in milliseconds: a day, or an hour. */
  function Step(range: string): int {
    if range == "30d" || range == "7d" then 86_400_000 else 3_600_000
  }

  /** What the ring of the range's unit holds for a period. */
  function Held(t: Tracker, range: string, period: int): int
    requires |t.hours| == 24 && |t.days| == 30
  {
    var b := if range == "30d" || range == "7d" then t.days[period % 30] else t.hours[period % 24];
    if b.period == period then b.views else 0
  }

  /** The point that begins at a time, in milliseconds: no count if the tracker has started only
      after it. */
  function At(t: Tracker, range: string, start: int): Point
    requires |t.hours| == 24 && |t.days| == 30
  {
    var period, first := start / Step(range), t.startedAt / 1_000_000 / Step(range);
    Point(start, if period < first then None else Some(Held(t, range, period)))
  }

  lemma SamePoint(t: Tracker, range: string, period: int)
    requires Sized(t) && 0 <= t.startedAt
    ensures PointOf(t, RangeKind(range), period) == At(t, range, period * Step(range))
  {
    var kind := RangeKind(range);
    PeriodInMs(kind, t.startedAt);
    StoredPeriod(kind, period);
    assert kind.Unit() / MS == UnitMs(kind) == Step(range);
  }

  /** A snapshot ends with the unit of the present, or of the latest view if that is later, and
      its points follow each other without a gap. */
  lemma SnapshotIs(t: Tracker, now: int, range: string)
    requires |t.hours| == 24 && |t.days| == 30 && 0 <= t.startedAt <= t.lastRecorded && 0 <= now
    ensures var s := SnapshotOf(t, now, range);
      var captured := if now < t.lastRecorded then t.lastRecorded else now;
      && s.startedAt == t.startedAt / 1_000_000 && s.capturedAt == captured / 1_000_000
      && |s.points| == Points(range)
      && (forall i | 0 <= i < |s.points| ::
            s.points[i] == At(t, range, (s.capturedAt / Step(range) - Points(range) + 1 + i) * Step(range)))
      && s.total == Sum(s.points)
  {
    var kind := RangeKind(range);
    var captured := if now < t.lastRecorded then t.lastRecorded else now;
    PeriodInMs(kind, captured);
    var s := SnapshotOf(t, now, range);
    forall i | 0 <= i < |s.points|
      ensures s.points[i] == At(t, range, (s.capturedAt / Step(range) - Points(range) + 1 + i) * Step(range))
    {
      SamePoint(t, range, PointPeriod(range, captured, 0) + i);
    }
    TotalIsSum(s.points);
  }

  function Count(p: Point): int {
    if p.views.Some? then p.views.value else 0
  }

  function Sum(points: seq<Point>): int {
    if points == [] then 0 else Count(points[0]) + Sum(points[1..])
  }

  lemma {:induction false} SumMore(points: seq<Point>, p: Point)
    ensures Sum(points + [p]) == Sum(points) + Count(p)
  {
    if points != [] {
      SumMore(points[1..], p);
      assert (points + [p])[1..] == points[1..] + [p];
    }
  }

  lemma {:induction false} TotalIsSum(points: seq<Point>)
    ensures Total(points) == Sum(points)
  {
    if points != [] {
      var n := |points| - 1;
      TotalIsSum(points[..n]);
      SumMore(points[..n], points[n]);
      assert points[..n] + [points[n]] == points;
    }
  }

  // ---------------------------------------------------------------- files

  /** A bucket of a file with units of so many milliseconds and a ring of so many: it begins with
      a unit, between the first and the last, not before the ring's window, and holds views. */
  predicate Legible(b: StoredBucket, unit: int, size: int, startedAt: int, savedAt: int)
    requires unit > 0
  {
    && b.start % unit == 0
    && startedAt / unit <= b.start / unit <= savedAt / unit && savedAt / unit - size < b.start / unit
    && 1 <= b.views <= 9_007_199_254_740_992
  }

  /** All buckets can be read, and no two of them share a slot of the ring. */
  predicate AllLegible(buckets: seq<StoredBucket>, unit: int, size: int, startedAt: int, savedAt: int)
    requires unit > 0 && size > 0
  {
    && (forall i | 0 <= i < |buckets| :: Legible(buckets[i], unit, size, startedAt, savedAt))
    && (forall i, j | 0 <= i < j < |buckets| :: buckets[i].start / unit % size != buckets[j].start / unit % size)
  }

  /** Slot k holds the bucket of the file that belongs there, or nothing. */
  predicate SlotHolds(ring: Ring, buckets: seq<StoredBucket>, unit: int, size: int, k: int)
    requires unit > 0 && size > 0 && 0 <= k < |ring|
  {
    if ring[k].views == 0 then ring[k] == EMPTY && forall i | 0 <= i < |buckets| :: buckets[i].start / unit % size != k
    else exists i | 0 <= i < |buckets| ::
      buckets[i].start / unit % size == k && ring[k] == Bucket(buckets[i].start / unit, buckets[i].views)
  }

  lemma {:induction false} PlacedHolds(kind: Kind, buckets: seq<StoredBucket>, startedAt: int, savedAt: int, k: int)
    requires Placed(kind, buckets, startedAt, savedAt).Some? && 0 <= k < kind.Size()
    ensures SlotHolds(Placed(kind, buckets, startedAt, savedAt).value, buckets, UnitMs(kind), kind.Size(), k)
    decreases |buckets|
  {
    if buckets != [] {
      var n := |buckets| - 1;
      PlacedHolds(kind, buckets[..n], startedAt, savedAt, k);
      var ring := Placed(kind, buckets, startedAt, savedAt).value;
      if buckets[n].start / UnitMs(kind) % kind.Size() == k {
        assert ring[k] == Bucket(buckets[n].start / UnitMs(kind), buckets[n].views);
      }
    }
  }

  predicate NoneAt(buckets: seq<StoredBucket>, unit: int, size: int, k: int)
    requires unit > 0 && size > 0
  {
    forall i | 0 <= i < |buckets| :: buckets[i].start / unit % size != k
  }

  lemma OneMoreLegible(buckets: seq<StoredBucket>, b: StoredBucket, unit: int, size: int, startedAt: int, savedAt: int)
    requires unit > 0 && size > 0
    ensures AllLegible(buckets + [b], unit, size, startedAt, savedAt) <==>
      && AllLegible(buckets, unit, size, startedAt, savedAt) && Legible(b, unit, size, startedAt, savedAt)
      && NoneAt(buckets, unit, size, b.start / unit % size)
  {
    var all, n := buckets + [b], |buckets|;
    assert all[n] == b && forall i | 0 <= i < n :: all[i] == buckets[i];
  }

  lemma {:induction false} PlacedIf(kind: Kind, buckets: seq<StoredBucket>, startedAt: int, savedAt: int)
    ensures Placed(kind, buckets, startedAt, savedAt).Some? <==>
      AllLegible(buckets, UnitMs(kind), kind.Size(), startedAt, savedAt)
    decreases |buckets|
  {
    if buckets != [] {
      var init, b := buckets[..|buckets| - 1], buckets[|buckets| - 1];
      PlacedIf(kind, init, startedAt, savedAt);
      OneMoreLegible(init, b, UnitMs(kind), kind.Size(), startedAt, savedAt);
      assert buckets == init + [b];
      if Placed(kind, init, startedAt, savedAt).Some? {
        PlacedHolds(kind, init, startedAt, savedAt, b.start / UnitMs(kind) % kind.Size());
      }
    }
  }

  /** The files that are accepted. */
  lemma RestoredIf(saved: Saved)
    ensures RestoreOf(saved).Some? <==>
      && saved.version == 1 && 0 < saved.startedAt <= saved.savedAt
      && saved.hours.Some? && |saved.hours.value| <= 24 && saved.days.Some? && |saved.days.value| <= 30
      && AllLegible(saved.hours.value, 3_600_000, 24, saved.startedAt, saved.savedAt)
      && AllLegible(saved.days.value, 86_400_000, 30, saved.startedAt, saved.savedAt)
  {
    if MetadataAccepted(saved) {
      PlacedIf(Hours, saved.hours.value, saved.startedAt, saved.savedAt);
      PlacedIf(Days, saved.days.value, saved.startedAt, saved.savedAt);
    }
  }

  /** What is then on hand: the times and the buckets of the file. */
  lemma RestoredIs(saved: Saved, k: int)
    requires RestoreOf(saved).Some?
    ensures var t := RestoreOf(saved).value;
      && t.startedAt == saved.startedAt * 1_000_000 && t.lastRecorded == saved.savedAt * 1_000_000
      && (0 <= k < 24 ==> SlotHolds(t.hours, saved.hours.value, 3_600_000, 24, k))
      && (0 <= k < 30 ==> SlotHolds(t.days, saved.days.value, 86_400_000, 30, k))
  {
    if 0 <= k < 24 {
      PlacedHolds(Hours, saved.hours.value, saved.startedAt, saved.savedAt, k);
    }
    if 0 <= k < 30 {
      PlacedHolds(Days, saved.days.value, saved.startedAt, saved.savedAt, k);
    }
  }

  /** A file holds exactly the slots with views, each with its start in milliseconds. */
  lemma {:induction false} StoredIs(kind: Kind, ring: Ring, b: StoredBucket)
    ensures b in StoredRing(kind, ring) <==>
      exists k | 0 <= k < |ring| :: ring[k].views > 0 && b == StoredBucket(ring[k].period * UnitMs(kind), ring[k].views)
  {
    if ring != [] {
      StoredIs(kind, ring[..|ring| - 1], b);
    }
  }

  lemma SavedIs(t: Tracker, b: StoredBucket)
    ensures var s := SaveOf(t);
      && s.version == 1 && s.startedAt == t.startedAt / 1_000_000 && s.savedAt == t.lastRecorded / 1_000_000
      && s.hours.Some? && s.days.Some?
      && (b in s.hours.value <==> exists k | 0 <= k < |t.hours| ::
            t.hours[k].views > 0 && b == StoredBucket(t.hours[k].period * 3_600_000, t.hours[k].views))
      && (b in s.days.value <==> exists k | 0 <= k < |t.days| ::
            t.days[k].views > 0 && b == StoredBucket(t.days[k].period * 86_400_000, t.days[k].views))
  {
    StoredIs(Hours, t.hours, b);
    StoredIs(Days, t.days, b);
  }
}
