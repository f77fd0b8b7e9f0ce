/**
 The fixed-window rate limiter with eviction and a cap on its size
 (internal/auth/limiter.go). The clock is part of each call, and never goes back.
 */
module Limiters {
  datatype Bucket = Bucket(count: int, until: int)

  type Entries = map<string, Bucket>

  datatype Call = Call(key: string, limit: int, window: int, now: int)

  const SWEEP := 10000
  const CAP := 20000

  // ---------------------------------------------------------------- one call

  function Swept(entries: Entries, now: int): Entries {
    map k | k in entries && now < entries[k].until :: entries[k]
  }

  /** The bucket a call is counted in: the live one, or a new one. */
  function Current(entries: Entries, c: Call): Bucket {
    if c.key in entries && c.now < entries[c.key].until then entries[c.key]
    else Bucket(0, c.now + c.window)
  }

  /** A limiter that forgets nothing and has no cap. */
  function Ideal(entries: Entries, c: Call): (Entries, bool) {
    var b := Current(entries, c);
    if b.count >= c.limit then (entries, false)
    else (entries[c.key := b.(count := b.count + 1)], true)
  }

  function Cleaned(entries: Entries, now: int): Entries {
    if |entries| > SWEEP then Swept(entries, now) else entries
  }

  /** So many buckets are live that the call is denied without being looked at. */
  predicate Full(entries: Entries, now: int) {
    |entries| > SWEEP && |Swept(entries, now)| > CAP
  }

  function Next(entries: Entries, c: Call): (Entries, bool) {
    if Full(entries, c.now) then (Swept(entries, c.now), false) else Ideal(Cleaned(entries, c.now), c)
  }

  // ---------------------------------------------------------------- eviction

  /** The same buckets are live, now and from now on. */
  ghost predicate Alike(a: Entries, b: Entries, now: int) {
    forall k: string ::
      ((k in a && now < a[k].until) || (k in b && now < b[k].until)) ==> k in a && k in b && a[k] == b[k]
  }

  lemma SweptIsAlike(entries: Entries, now: int)
    ensures Alike(Swept(entries, now), entries, now)
  {
  }

  lemma LaterIsAlike(a: Entries, b: Entries, now: int, later: int)
    requires Alike(a, b, now) && now <= later
    ensures Alike(a, b, later)
  {
  }

  /** A call sees the live buckets only. */
  lemma AlikeAgree(a: Entries, b: Entries, c: Call)
    requires Alike(a, b, c.now)
    ensures Ideal(a, c).1 == Ideal(b, c).1
    ensures Alike(Ideal(a, c).0, Ideal(b, c).0, c.now)
  {
  }

  /** Eviction changes no answer, except that a full limiter denies every call. */
  lemma EvictionIsUnobservable(entries: Entries, ideal: Entries, c: Call)
    requires Alike(entries, ideal, c.now)
    ensures if Full(entries, c.now) then
        !Next(entries, c).1 && Alike(Next(entries, c).0, ideal, c.now)
      else
        Next(entries, c).1 == Ideal(ideal, c).1 && Alike(Next(entries, c).0, Ideal(ideal, c).0, c.now)
  {
    SweptIsAlike(entries, c.now);
    AlikeTransitive(Swept(entries, c.now), entries, ideal, c.now);
    if !Full(entries, c.now) {
      AlikeAgree(Cleaned(entries, c.now), ideal, c);
    }
  }

  lemma AlikeTransitive(a: Entries, b: Entries, c: Entries, now: int)
    requires Alike(a, b, now) && Alike(b, c, now)
    ensures Alike(a, c, now)
  {
  }

  // ---------------------------------------------------------------- runs

  predicate Ordered(calls: seq<Call>) {
    forall i, j | 0 <= i < j < |calls| :: calls[i].now <= calls[j].now
  }

  function Run(calls: seq<Call>): Entries {
    if calls == [] then map[] else Next(Run(calls[..|calls| - 1]), calls[|calls| - 1]).0
  }

  function Allowed(calls: seq<Call>): (r: seq<bool>)
    ensures |r| == |calls|
  {
    if calls == [] then []
    else Allowed(calls[..|calls| - 1]) + [Next(Run(calls[..|calls| - 1]), calls[|calls| - 1]).1]
  }

  /** What a limiter that forgets nothing is left with by the calls that were not denied for
      lack of space, and what it answers. */
  function IdealRun(calls: seq<Call>): Entries {
    if calls == [] then map[]
    else
      var init, c := calls[..|calls| - 1], calls[|calls| - 1];
      if Full(Run(init), c.now) then IdealRun(init) else Ideal(IdealRun(init), c).0
  }

  lemma {:induction false} RunsAlike(calls: seq<Call>, now: int)
    requires Ordered(calls) && forall i | 0 <= i < |calls| :: calls[i].now <= now
    ensures Alike(Run(calls), IdealRun(calls), now)
  {
    if calls != [] {
      var init, c := calls[..|calls| - 1], calls[|calls| - 1];
      RunsAlike(init, c.now);
      EvictionIsUnobservable(Run(init), IdealRun(init), c);
      LaterIsAlike(Run(calls), IdealRun(calls), c.now, now);
    }
  }

  /** Over any run, every call is answered as if nothing had ever been evicted, unless the
      limiter is full, and then it is denied. */
  lemma AnswersAreIdeal(calls: seq<Call>, i: nat)
    requires Ordered(calls) && i < |calls|
    ensures Allowed(calls)[i] <==> !Full(Run(calls[..i]), calls[i].now) && Ideal(IdealRun(calls[..i]), calls[i]).1
  {
    AllowedAt(calls, i);
    RunsAlike(calls[..i], calls[i].now);
    EvictionIsUnobservable(Run(calls[..i]), IdealRun(calls[..i]), calls[i]);
  }

  lemma {:induction false} AllowedAt(calls: seq<Call>, i: nat)
    requires i < |calls|
    ensures Allowed(calls)[i] == Next(Run(calls[..i]), calls[i]).1
  {
    var n := |calls| - 1;
    var init := calls[..n];
    assert Allowed(calls) == Allowed(init) + [Next(Run(init), calls[n]).1];
    if i < n {
      AllowedAt(init, i);
      assert init[..i] == calls[..i];
    }
  }

  lemma SweptIsSmaller(entries: Entries, now: int)
    ensures |Swept(entries, now)| <= |entries|
  {
    assert Swept(entries, now).Keys <= entries.Keys;
    Smaller(Swept(entries, now).Keys, entries.Keys);
  }

  lemma {:induction false} Smaller<T>(a: set<T>, b: set<T>)
    requires a <= b
    ensures |a| <= |b|
  {
    if a != {} {
      var x :| x in a;
      Smaller(a - {x}, b - {x});
    }
  }

  /** The table never grows beyond its cap and one entry. */
  lemma {:induction false} SizeIsBounded(calls: seq<Call>)
    ensures |Run(calls)| <= 20001
  {
    if calls != [] {
      var init, c := calls[..|calls| - 1], calls[|calls| - 1];
      SizeIsBounded(init);
      SweptIsSmaller(Run(init), c.now);
    }
  }

  /** Nothing is deleted while there are no more than 10000 buckets, and nothing that is live
      ever. */
  lemma OnlyExpiredLeave(before: seq<Call>, c: Call, key: string)
    requires key in Run(before) && key !in Run(before + [c])
    ensures |Run(before)| > 10000 && Run(before)[key].until <= c.now
  {
    assert (before + [c])[..|before|] == before;
  }

  // ---------------------------------------------------------------- the rate

  /** An allowed call, and when the window it was counted in began. */
  datatype Hit = Hit(now: int, start: int)

  function HitOf(entries: Entries, c: Call): Hit {
    Hit(c.now, Current(entries, c).until - c.window)
  }

  function Hits(calls: seq<Call>, key: string): seq<Hit> {
    if calls == [] then []
    else
      var init, c := calls[..|calls| - 1], calls[|calls| - 1];
      if Next(Run(init), c).1 && c.key == key then Hits(init, key) + [HitOf(Cleaned(Run(init), c.now), c)]
      else Hits(init, key)
  }

  predicate Uniform(calls: seq<Call>, key: string, limit: int, window: int) {
    forall i | 0 <= i < |calls| && calls[i].key == key :: calls[i].limit == limit && calls[i].window == window
  }

  function InWindow(hits: seq<Hit>, start: int): set<nat> {
    set i: nat | i < |hits| && hits[i].start == start
  }

  /** How many calls were counted in the window that began at start. */
  function Load(hits: seq<Hit>, start: int): nat {
    if hits == [] then 0
    else Load(hits[..|hits| - 1], start) + if hits[|hits| - 1].start == start then 1 else 0
  }

  lemma {:induction false} LoadIsSize(hits: seq<Hit>, start: int)
    ensures |InWindow(hits, start)| == Load(hits, start)
  {
    if hits == [] {
      assert InWindow(hits, start) == {};
    } else {
      var n := |hits| - 1;
      LoadIsSize(hits[..n], start);
      assert InWindow(hits, start) == InWindow(hits[..n], start) + if hits[n].start == start then {n} else {};
    }
  }

  lemma LoadMore(hits: seq<Hit>, h: Hit, start: int)
    ensures Load(hits + [h], start) == Load(hits, start) + if h.start == start then 1 else 0
  {
    assert (hits + [h])[..|hits|] == hits;
  }

  lemma {:induction false} NewIsEmpty(hits: seq<Hit>, start: int)
    requires forall i | 0 <= i < |hits| :: hits[i].start < start
    ensures Load(hits, start) == 0
  {
    if hits != [] {
      NewIsEmpty(hits[..|hits| - 1], start);
    }
  }

  /** Every call is in its window, and windows do not overlap. */
  predicate Spaced(hits: seq<Hit>, window: int) {
    && (forall i | 0 <= i < |hits| :: hits[i].start <= hits[i].now < hits[i].start + window)
    && (forall i, j | 0 <= i < j < |hits| :: hits[i].start == hits[j].start || hits[i].start + window <= hits[j].start)
  }

  ghost predicate Limited(hits: seq<Hit>, limit: int) {
    forall s: int :: Load(hits, s) <= if limit < 0 then 0 else limit
  }

  /** Windows do not overlap, and none holds more calls than the limit. */
  ghost predicate Windowed(hits: seq<Hit>, limit: int, window: int) {
    Spaced(hits, window) && Limited(hits, limit)
  }

  /** What the table says about a key: its bucket is the latest window and holds its calls;
      and a window whose bucket is gone is over. */
  ghost predicate Recorded(entries: Entries, hits: seq<Hit>, key: string, window: int, now: int) {
    if key in entries then
      && hits != [] && entries[key].until == hits[|hits| - 1].start + window
      && entries[key].count == Load(hits, hits[|hits| - 1].start)
    else forall i | 0 <= i < |hits| :: hits[i].start + window <= now
  }

  ghost predicate Metered(entries: Entries, hits: seq<Hit>, key: string, limit: int, window: int, now: int) {
    Windowed(hits, limit, window) && Recorded(entries, hits, key, window, now)
  }

  lemma SweptIsMetered(entries: Entries, hits: seq<Hit>, key: string, limit: int, window: int, before: int, now: int)
    requires Metered(entries, hits, key, limit, window, before) && before <= now
    ensures Metered(Swept(entries, now), hits, key, limit, window, now)
    ensures Metered(entries, hits, key, limit, window, now)
  {
  }

  lemma LimitedMore(hits: seq<Hit>, limit: int, h: Hit)
    requires Limited(hits, limit) && Load(hits, h.start) < limit
    ensures Limited(hits + [h], limit) && Load(hits + [h], h.start) == Load(hits, h.start) + 1
  {
    forall s: int ensures Load(hits + [h], s) <= limit {
      LoadMore(hits, h, s);
    }
    LoadMore(hits, h, h.start);
  }

  lemma SpacedMore(hits: seq<Hit>, window: int, now: int)
    requires Spaced(hits, window) && window > 0
    requires forall i | 0 <= i < |hits| :: hits[i].start + window <= now
    ensures Spaced(hits + [Hit(now, now)], window)
  {
  }

  lemma NewWindow(hits: seq<Hit>, limit: int, window: int, now: int)
    requires Windowed(hits, limit, window) && window > 0 && limit > 0
    requires forall i | 0 <= i < |hits| :: hits[i].start + window <= now
    ensures Windowed(hits + [Hit(now, now)], limit, window)
    ensures Load(hits + [Hit(now, now)], now) == 1
  {
    NewIsEmpty(hits, now);
    LimitedMore(hits, limit, Hit(now, now));
    SpacedMore(hits, window, now);
  }

  lemma SameWindow(hits: seq<Hit>, limit: int, window: int, now: int)
    requires Windowed(hits, limit, window) && hits != []
    requires var s := hits[|hits| - 1].start;
      hits[|hits| - 1].now <= now < s + window && Load(hits, s) < limit
    ensures var s := hits[|hits| - 1].start;
      Windowed(hits + [Hit(now, s)], limit, window)
      && Load(hits + [Hit(now, s)], s) == Load(hits, s) + 1
  {
    LimitedMore(hits, limit, Hit(now, hits[|hits| - 1].start));
  }

  /** The last window is the latest. */
  lemma LastIsLatest(hits: seq<Hit>, limit: int, window: int, until: int)
    requires Windowed(hits, limit, window) && window > 0 && hits != [] && hits[|hits| - 1].start + window <= until
    ensures forall i | 0 <= i < |hits| :: hits[i].start + window <= until
  {
  }

  /** A call that is counted in a live bucket. */
  lemma LiveHit(entries: Entries, hits: seq<Hit>, key: string, limit: int, c: Call)
    requires Metered(entries, hits, key, limit, c.window, c.now) && c.key == key && c.limit == limit
    requires key in entries && c.now < entries[key].until && entries[key].count < limit
    requires hits != [] ==> hits[|hits| - 1].now <= c.now
    ensures Metered(Ideal(entries, c).0, hits + [HitOf(entries, c)], key, limit, c.window, c.now)
  {
    SameWindow(hits, limit, c.window, c.now);
  }

  /** A call that opens a bucket. */
  lemma FreshHit(entries: Entries, hits: seq<Hit>, key: string, limit: int, c: Call)
    requires Metered(entries, hits, key, limit, c.window, c.now) && c.window > 0 && c.key == key && c.limit == limit
    requires !(key in entries && c.now < entries[key].until) && 0 < limit
    ensures Metered(Ideal(entries, c).0, hits + [HitOf(entries, c)], key, limit, c.window, c.now)
  {
    if key in entries {
      LastIsLatest(hits, limit, c.window, c.now);
    }
    NewWindow(hits, limit, c.window, c.now);
  }

  lemma IdealIsMetered(entries: Entries, hits: seq<Hit>, key: string, limit: int, c: Call)
    requires Metered(entries, hits, key, limit, c.window, c.now) && c.window > 0 && c.key == key && c.limit == limit
    requires hits != [] ==> hits[|hits| - 1].now <= c.now
    requires Ideal(entries, c).1
    ensures Metered(Ideal(entries, c).0, hits + [HitOf(entries, c)], key, limit, c.window, c.now)
  {
    if key in entries && c.now < entries[key].until {
      LiveHit(entries, hits, key, limit, c);
    } else {
      FreshHit(entries, hits, key, limit, c);
    }
  }

  lemma {:induction false} HitsAreOrdered(calls: seq<Call>, key: string, now: int)
    requires Ordered(calls) && forall i | 0 <= i < |calls| :: calls[i].now <= now
    ensures forall i | 0 <= i < |Hits(calls, key)| :: Hits(calls, key)[i].now <= now
  {
    if calls != [] {
      HitsAreOrdered(calls[..|calls| - 1], key, calls[|calls| - 1].now);
    }
  }

  lemma {:induction false} RunIsMetered(calls: seq<Call>, key: string, limit: int, window: int, now: int)
    requires Ordered(calls) && Uniform(calls, key, limit, window) && window > 0
    requires forall i | 0 <= i < |calls| :: calls[i].now <= now
    ensures Metered(Run(calls), Hits(calls, key), key, limit, window, now)
  {
    if calls == [] {
      assert forall s: int :: Load([], s) == 0;
    } else {
      var init, c := calls[..|calls| - 1], calls[|calls| - 1];
      RunIsMetered(init, key, limit, window, c.now);
      HitsAreOrdered(init, key, c.now);
      StepIsMetered(Run(init), Hits(init, key), key, limit, window, c);
      SweptIsMetered(Run(calls), Hits(calls, key), key, limit, window, c.now, now);
    }
  }

  lemma StepIsMetered(entries: Entries, hits: seq<Hit>, key: string, limit: int, window: int, c: Call)
    requires Metered(entries, hits, key, limit, window, c.now) && window > 0
    requires c.key == key ==> c.limit == limit && c.window == window
    requires hits != [] ==> hits[|hits| - 1].now <= c.now
    ensures var r := Next(entries, c);
      Metered(r.0, if r.1 && c.key == key then hits + [HitOf(Cleaned(entries, c.now), c)] else hits,
              key, limit, window, c.now)
  {
    SweptIsMetered(entries, hits, key, limit, window, c.now, c.now);
    var cleaned := Cleaned(entries, c.now);
    if !Full(entries, c.now) && Ideal(cleaned, c).1 {
      if c.key == key {
        IdealIsMetered(cleaned, hits, key, limit, c);
      } else {
        OtherKey(cleaned, hits, key, window, c);
      }
    }
  }

  lemma OtherKey(entries: Entries, hits: seq<Hit>, key: string, window: int, c: Call)
    requires Recorded(entries, hits, key, window, c.now) && c.key != key
    ensures Recorded(Ideal(entries, c).0, hits, key, window, c.now)
  {
  }

  function Within(hits: seq<Hit>, from: int, to: int): set<nat> {
    set i: nat | i < |hits| && from <= hits[i].now <= to
  }

  lemma Union(a: set<nat>, b: set<nat>, c: set<nat>)
    requires c <= a + b
    ensures |c| <= |a| + |b|
  {
    assert |a + b| <= |a| + |b|;
    Smaller(c, a + b);
  }

  /** At most two windows meet an interval that is no longer than one. */
  lemma TwoWindows(hits: seq<Hit>, limit: int, window: int, from: int)
    requires Windowed(hits, limit, window)
    ensures |Within(hits, from, from + window)| <= 2 * if limit < 0 then 0 else limit
  {
    var inside := Within(hits, from, from + window);
    if inside != {} {
      var i :| i in inside;
      var s := hits[i].start;
      var t := if exists j :: j in inside && hits[j].start != s then
          var j :| j in inside && hits[j].start != s; hits[j].start else s;
      forall k | k in inside ensures hits[k].start == s || hits[k].start == t {
        if hits[k].start != s && hits[k].start != t {
          var j :| j in inside && hits[j].start == t;
          Apart(hits, limit, window, i, j);
          Apart(hits, limit, window, i, k);
          Apart(hits, limit, window, j, k);
        }
      }
      LoadIsSize(hits, s);
      LoadIsSize(hits, t);
      Union(InWindow(hits, s), InWindow(hits, t), inside);
    }
  }

  lemma Apart(hits: seq<Hit>, limit: int, window: int, i: nat, j: nat)
    requires Windowed(hits, limit, window) && i < |hits| && j < |hits| && hits[i].start != hits[j].start
    ensures hits[i].start + window <= hits[j].start || hits[j].start + window <= hits[i].start
  {
    if i < j {
      assert hits[i].start == hits[j].start || hits[i].start + window <= hits[j].start;
    } else {
      assert hits[j].start == hits[i].start || hits[j].start + window <= hits[i].start;
    }
  }

  /** Over any run, evictions and all: a key whose calls always name the same limit and
      window is allowed at most twice the limit in any interval of one window. */
  lemma RateIsBounded(calls: seq<Call>, key: string, limit: int, window: int, from: int)
    requires Ordered(calls) && Uniform(calls, key, limit, window) && window > 0
    ensures |Within(Hits(calls, key), from, from + window)| <= 2 * if limit < 0 then 0 else limit
  {
    if calls == [] {
      assert Within([], from, from + window) == {};
    } else {
      RunIsMetered(calls, key, limit, window, calls[|calls| - 1].now);
      TwoWindows(Hits(calls, key), limit, window, from);
    }
  }

  /** A window must be positive: without one every call is allowed. */
  lemma {:induction false} NoWindowNoLimit(calls: seq<Call>, key: string, i: nat)
    requires forall j | 0 <= j < |calls| :: calls[j].key == key && calls[j].window <= 0 && calls[j].limit > 0
    requires Ordered(calls) && i < |calls|
    ensures Allowed(calls)[i]
  {
    AllowedAt(calls, i);
    OneKey(calls[..i], key);
  }

  lemma {:induction false} OneKey(calls: seq<Call>, key: string)
    requires forall j | 0 <= j < |calls| :: calls[j].key == key && calls[j].window <= 0 && calls[j].limit > 0
    requires Ordered(calls)
    ensures Run(calls).Keys <= {key} && |Run(calls)| <= 1
    ensures key in Run(calls) ==> calls != [] && Run(calls)[key].until <= calls[|calls| - 1].now
  {
    if calls != [] {
      OneKey(calls[..|calls| - 1], key);
      Smaller(Run(calls).Keys, {key});
    }
  }

  /** Without a positive limit nothing is allowed. */
  lemma {:induction false} NothingAllowed(calls: seq<Call>, key: string, limit: int, window: int)
    requires Uniform(calls, key, limit, window) && limit <= 0
    ensures key !in Run(calls) && Hits(calls, key) == []
  {
    if calls != [] {
      NothingAllowed(calls[..|calls| - 1], key, limit, window);
    }
  }

  /** So many calls of one key at one time. */
  function Burst(n: nat, key: string, limit: int, window: int): seq<Call> {
    seq(n, _ => Call(key, limit, window, 0))
  }

  lemma {:induction false} BurstIsAllowed(n: nat, key: string, limit: int, window: int)
    requires window <= 0 && limit > 0
    ensures var hits := Hits(Burst(n, key, limit, window), key);
      |hits| == n && forall i | 0 <= i < n :: hits[i].now == 0
  {
    if n > 0 {
      var m := n - 1;
      BurstIsAllowed(m, key, limit, window);
      OneMoreHit(Burst(n, key, limit, window), Burst(m, key, limit, window), key);
    }
  }

  lemma OneMoreHit(calls: seq<Call>, init: seq<Call>, key: string)
    requires forall j | 0 <= j < |calls| :: calls[j].key == key && calls[j].window <= 0 && calls[j].limit > 0
    requires Ordered(calls) && calls != [] && init == calls[..|calls| - 1]
    ensures |Hits(calls, key)| == |Hits(init, key)| + 1 && Hits(init, key) <= Hits(calls, key)
    ensures Hits(calls, key)[|Hits(init, key)|].now == calls[|calls| - 1].now
  {
    NoWindowNoLimit(calls, key, |calls| - 1);
    AllowedAt(calls, |calls| - 1);
  }

  lemma {:induction false} AllWithin(hits: seq<Hit>, from: int, to: int)
    requires forall i | 0 <= i < |hits| :: from <= hits[i].now <= to
    ensures |Within(hits, from, to)| == |hits|
  {
    if hits == [] {
      assert Within(hits, from, to) == {};
    } else {
      var n := |hits| - 1;
      AllWithin(hits[..n], from, to);
      assert Within(hits, from, to) == Within(hits[..n], from, to) + {n};
    }
  }

  /** The calls of a key that were allowed from one time to another. */
  function Granted(calls: seq<Call>, key: string, from: int, to: int): set<nat>
  {
    set i: nat | i < |calls| && calls[i].key == key && Allowed(calls)[i] && from <= calls[i].now <= to
  }

  lemma {:induction false} GrantedAreHits(calls: seq<Call>, key: string, from: int, to: int)
    ensures |Granted(calls, key, from, to)| == |Within(Hits(calls, key), from, to)|
  {
    if calls == [] {
      assert Granted(calls, key, from, to) == {} && Within(Hits(calls, key), from, to) == {};
    } else {
      var n := |calls| - 1;
      GrantedAreHits(calls[..n], key, from, to);
      GrantedMore(calls, key, from, to);
      HitsMore(calls, key, from, to);
    }
  }

  /** The last call counts if it was allowed, names the key and falls between the times. */
  predicate Counts(calls: seq<Call>, key: string, from: int, to: int)
    requires calls != []
  {
    var c := calls[|calls| - 1];
    Next(Run(calls[..|calls| - 1]), c).1 && c.key == key && from <= c.now <= to
  }

  lemma GrantedMore(calls: seq<Call>, key: string, from: int, to: int)
    requires calls != []
    ensures |Granted(calls, key, from, to)| ==
      |Granted(calls[..|calls| - 1], key, from, to)| + if Counts(calls, key, from, to) then 1 else 0
  {
    var n := |calls| - 1;
    assert Granted(calls, key, from, to) ==
      Granted(calls[..n], key, from, to) + if Counts(calls, key, from, to) then {n} else {};
  }

  lemma HitsMore(calls: seq<Call>, key: string, from: int, to: int)
    requires calls != []
    ensures |Within(Hits(calls, key), from, to)| ==
      |Within(Hits(calls[..|calls| - 1], key), from, to)| + if Counts(calls, key, from, to) then 1 else 0
  {
    var hits, before := Hits(calls, key), Hits(calls[..|calls| - 1], key);
    assert Within(hits, from, to) ==
      Within(before, from, to) + if Counts(calls, key, from, to) then {|before|} else {};
  }

  /** How many calls are allowed to a key in an interval as long as its window. */
  function AllowedFrom(calls: seq<Call>, key: string, from: int, window: int): nat
  {
    |Granted(calls, key, from, from + if window < 0 then 0 else window)|
  }

  lemma FullBucket(entries: Entries, hits: seq<Hit>, key: string, limit: int, c: Call)
    requires Metered(entries, hits, key, limit, c.window, c.now) && c.window > 0 && c.key == key && c.limit == limit
    requires limit > 0 && !Ideal(entries, c).1 && forall i | 0 <= i < |hits| :: hits[i].now <= c.now
    ensures |Within(hits, c.now - c.window + 1, c.now)| >= limit
  {
    var s := hits[|hits| - 1].start;
    LoadIsSize(hits, s);
    Smaller(InWindow(hits, s), Within(hits, c.now - c.window + 1, c.now));
  }

  /** So many buckets are live at a time. */
  function Alive(entries: Entries, now: int): set<string> {
    set k | k in entries && now < entries[k].until
  }

  lemma FullOrMetered(entries: Entries, hits: seq<Hit>, c: Call)
    requires Metered(entries, hits, c.key, c.limit, c.window, c.now) && c.window > 0 && !Next(entries, c).1
    requires forall i | 0 <= i < |hits| :: hits[i].now <= c.now
    ensures |Alive(entries, c.now)| > 20000 || |Within(hits, c.now - c.window + 1, c.now)| >= c.limit
  {
    if Full(entries, c.now) {
      assert Swept(entries, c.now).Keys == Alive(entries, c.now);
    } else if c.limit > 0 {
      SweptIsMetered(entries, hits, c.key, c.limit, c.window, c.now, c.now);
      FullBucket(Cleaned(entries, c.now), hits, c.key, c.limit, c);
    }
  }

  /** After these calls there is a reason to deny another: more than 20000 buckets are live, or
      as many calls of the key as its limit have been allowed within the last window. */
  predicate Earned(before: seq<Call>, c: Call) {
    || |Alive(Run(before), c.now)| > 20000
    || |Granted(before, c.key, c.now - c.window + 1, c.now)| >= c.limit
  }

  /** The calls before c are no later, and those of its key have its limit and window. */
  predicate Precedes(before: seq<Call>, c: Call) {
    && Ordered(before) && Uniform(before, c.key, c.limit, c.window)
    && forall i | 0 <= i < |before| :: before[i].now <= c.now
  }

  lemma DenialIsMetered(before: seq<Call>, c: Call)
    requires Precedes(before, c) && c.window > 0 && !Next(Run(before), c).1
    ensures || |Alive(Run(before), c.now)| > 20000
            || |Within(Hits(before, c.key), c.now - c.window + 1, c.now)| >= c.limit
  {
    var entries, hits := Run(before), Hits(before, c.key);
    RunIsMetered(before, c.key, c.limit, c.window, c.now);
    HitsAreOrdered(before, c.key, c.now);
    FullOrMetered(entries, hits, c);
  }

  lemma DenialIsEarned(before: seq<Call>, c: Call)
    requires Precedes(before, c) && c.window > 0 && !Next(Run(before), c).1
    ensures Earned(before, c)
  {
    DenialIsMetered(before, c);
    GrantedAreHits(before, c.key, c.now - c.window + 1, c.now);
  }

  lemma PrefixPrecedes(calls: seq<Call>, key: string, limit: int, window: int, i: nat)
    requires Ordered(calls) && Uniform(calls, key, limit, window) && i < |calls| && calls[i].key == key
    ensures Precedes(calls[..i], calls[i])
  {
  }

  /** No call is denied for nothing. */
  lemma DenialsAreEarned(calls: seq<Call>, key: string, limit: int, window: int, i: nat)
    requires Ordered(calls) && Uniform(calls, key, limit, window) && window > 0
    requires i < |calls| && calls[i].key == key
    ensures Allowed(calls)[i] || Earned(calls[..i], calls[i])
  {
    AllowedAt(calls, i);
    if !Allowed(calls)[i] {
      PrefixPrecedes(calls, key, limit, window, i);
      assert calls[i].window == window;
      DenialIsEarned(calls[..i], calls[i]);
    }
  }

  /** Whatever else is called, a key is allowed at most twice its limit in any interval as long
      as its window. */
  ghost predicate AlwaysBounded(limit: int, window: int) {
    forall calls, key, from | Ordered(calls) && Uniform(calls, key, limit, window) ::
      AllowedFrom(calls, key, from, window) <= 2 * if limit < 0 then 0 else limit
  }

  /** The bound holds of all runs if and only if the window is positive or the limit is not. */
  lemma RateBoundIsExact(limit: int, window: int)
    ensures AlwaysBounded(limit, window) <==> window > 0 || limit <= 0
  {
    if window > 0 || limit <= 0 {
      forall calls, key, from | Ordered(calls) && Uniform(calls, key, limit, window)
        ensures AllowedFrom(calls, key, from, window) <= 2 * if limit < 0 then 0 else limit
      {
        GrantedAreHits(calls, key, from, from + if window < 0 then 0 else window);
        if window > 0 {
          RateIsBounded(calls, key, limit, window, from);
        } else {
          NothingAllowed(calls, key, limit, window);
          assert Within([], from, from + if window < 0 then 0 else window) == {};
        }
      }
    } else {
      var calls := Burst(2 * limit + 1, "key", limit, window);
      BurstIsAllowed(2 * limit + 1, "key", limit, window);
      AllWithin(Hits(calls, "key"), 0, 0);
      GrantedAreHits(calls, "key", 0, 0);
      assert Ordered(calls) && Uniform(calls, "key", limit, window);
      assert AllowedFrom(calls, "key", 0, window) == 2 * limit + 1;
    }
  }

  // ---------------------------------------------------------------- the object

  class Limiter {
    var entries: Entries
    /** Every call so far. */
    ghost var calls: seq<Call>

    ghost predicate Valid()
      reads this
    {
      entries == Run(calls)
    }

    constructor ()
      ensures Valid() && calls == []
    {
      entries, calls := map[], [];
    }

    method Sweep(now: int)
      modifies this`entries
      ensures entries == Swept(old(entries), now)
    {
      var keys := entries.Keys;
      while keys != {}
        invariant keys <= old(entries).Keys
        invariant entries == map k | k in old(entries) && (k in keys || now < old(entries)[k].until) :: old(entries)[k]
        decreases |keys|
      {
        var k :| k in keys;
        if now >= entries[k].until {
          entries := entries - {k};
        }
        keys := keys - {k};
      }
    }

    method Allow(key: string, limit: int, window: int, now: int) returns (ok: bool)
      requires Valid()
      modifies this
      ensures Valid() && calls == old(calls) + [Call(key, limit, window, now)]
      ensures Allowed(calls) == Allowed(old(calls)) + [ok]
    {
      var c := Call(key, limit, window, now);
      assert (calls + [c])[..|calls|] == calls;
      calls := calls + [c];
      if |entries| > SWEEP {
        Sweep(now);
        if |entries| > CAP {
          return false;
        }
      }
      var b := if key in entries then entries[key] else Bucket(0, now);
      if now >= b.until {
        b := Bucket(0, now + window);
      }
      if b.count >= limit {
        return false;
      }
      entries := entries[key := b.(count := b.count + 1)];
      ok := true;
    }
  }
}
