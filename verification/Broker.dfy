/**
 The request scheduler (internal/platform/broker.go) as a transition system: one loop that
 takes requests in, starts them and collects their results. A pass is one turn of its inner
 loop, a scan of the whole queue that starts at most one request.
 */
module Brokers {
  import opened Cooldowns

  const CAP := 64
  const PER_USER := 3

  datatype Request = Request(id: nat, user: int, submission: bool)

  /** A request that was started, and when. */
  datatype Start = Start(request: Request, time: int)

  /** answered: ids in the order in which their callers got a result. clock: the latest time
      that the loop has read. */
  datatype State = State(queue: seq<Request>, flight: map<nat, Request>, answered: seq<nat>, streak: nat,
                         access: Deadlines, rate: Deadlines, minimum: nat, clock: int, started: seq<Start>)

  /** What a result says about cooldowns: hint is the time until which the reply asks to wait. */
  datatype Reply = Reply(failed: bool, status: int, limited: bool, hint: int)

  datatype Event =
    | Arrive(request: Request)
    | Pass(now: int, gone: set<nat>)
    | Finish(id: nat, reply: Reply, now: int)
    | Extend(user: int, attempt: nat, now: int)

  function Init(minimum: nat): State {
    State([], map[], [], 0, map[], map[], minimum, 0, [])
  }

  function Queued(q: seq<Request>, id: nat): nat {
    if q == [] then 0 else Queued(q[..|q| - 1], id) + if q[|q| - 1].id == id then 1 else 0
  }

  function Times(s: seq<nat>, id: nat): nat {
    if s == [] then 0 else Times(s[..|s| - 1], id) + if s[|s| - 1] == id then 1 else 0
  }

  function Users(q: seq<Request>): set<int> {
    set r | r in q :: r.user
  }

  /** The submissions of a user that are in flight. */
  function Submitting(flight: map<nat, Request>, user: int): set<nat> {
    set id | id in flight && flight[id].submission && flight[id].user == user
  }

  /** Requests whose context has ended are answered and dropped by the scan. */
  function Kept(q: seq<Request>, gone: set<nat>): seq<Request> {
    if q == [] then []
    else
      var last := q[|q| - 1];
      Kept(q[..|q| - 1], gone) + if last.id in gone then [] else [last]
  }

  function Dropped(q: seq<Request>, gone: set<nat>): seq<nat> {
    if q == [] then []
    else
      var last := q[|q| - 1];
      Dropped(q[..|q| - 1], gone) + if last.id in gone then [last.id] else []
  }

  predicate Eligible(s: State, r: Request, now: int) {
    && !Blocked(s.access, s.rate, r.user, r.submission, now)
    && (r.submission ==> |Submitting(s.flight, r.user)| < PER_USER)
  }

  /** The first eligible request of a class, or -1. */
  function First(s: State, q: seq<Request>, submission: bool, now: int): int {
    if q == [] then -1
    else
      var n := |q| - 1;
      var before := First(s, q[..n], submission, now);
      if before >= 0 then before
      else if q[n].submission == submission && Eligible(s, q[n], now) then n
      else -1
  }

  /** Writes go first, but after two of them in a row a normal request does. */
  function Choice(normal: int, write: int, streak: nat): int {
    if normal >= 0 && (write < 0 || streak >= 2) then normal else write
  }

  function Chosen(s: State, q: seq<Request>, now: int): int {
    Choice(First(s, q, false, now), First(s, q, true, now), s.streak)
  }

  function Scanned(s: State, now: int, gone: set<nat>): State {
    var live := Kept(s.queue, gone);
    s.(queue := live, answered := s.answered + Dropped(s.queue, gone), clock := now,
       access := Purged(s.access, Users(live), now), rate := Purged(s.rate, Users(live), now))
  }

  function Started(s: State, i: nat): State
    requires i < |s.queue|
  {
    var r := s.queue[i];
    s.(queue := s.queue[..i] + s.queue[i + 1..], flight := s.flight[r.id := r],
       streak := if r.submission then s.streak + 1 else 0, started := s.started + [Start(r, s.clock)])
  }

  /** In how many places a request is: queued, in flight or answered. */
  function Places(s: State, id: nat): nat {
    Queued(s.queue, id) + (if id in s.flight then 1 else 0) + Times(s.answered, id)
  }

  /** An event that does not fit, or that would turn the clock back, changes nothing. */
  function Step(s: State, e: Event): State {
    match e
    case Arrive(r) => if Places(s, r.id) > 0 then s else s.(queue := s.queue + [r])
    case Pass(now, gone) =>
      if now < s.clock || |s.flight| >= CAP || s.queue == [] then s
      else
        var t := Scanned(s, now, gone);
        var i := Chosen(s, t.queue, now);
        ChosenInRange(s, t.queue, now);
        if i < 0 then t else Started(t, i)
    case Finish(id, reply, now) =>
      if now < s.clock || id !in s.flight then s
      else
        Recorded(s, s.flight[id], reply, now)
        .(flight := s.flight - {id}, answered := s.answered + [id], clock := now)
    case Extend(user, attempt, now) =>
      if now < s.clock then s
      else s.(access := Extended(s.access, user, now + Backoff(s.minimum, attempt)), clock := now)
  }

  function Recorded(s: State, r: Request, reply: Reply, now: int): State {
    if reply.failed then s
    else if reply.status == 403 then
      s.(access := Extended(s.access, r.user, Cooldowns.Later(reply.hint, now + s.minimum)))
    else if r.submission && reply.limited then s.(rate := Extended(s.rate, r.user, reply.hint))
    else s
  }

  function Run(s: State, es: seq<Event>): State
    decreases |es|
  {
    if es == [] then s else Run(Step(s, es[0]), es[1..])
  }

  lemma FirstIs(s: State, q: seq<Request>, submission: bool, now: int)
    ensures var i := First(s, q, submission, now);
      && -1 <= i < |q|
      && (i >= 0 ==> q[i].submission == submission && Eligible(s, q[i], now))
      && forall j | 0 <= j < if i < 0 then |q| else i :: !(q[j].submission == submission && Eligible(s, q[j], now))
  {
  }

  lemma ChosenInRange(s: State, q: seq<Request>, now: int)
    ensures -1 <= Chosen(s, q, now) < |q|
  {
    FirstIs(s, q, false, now);
    FirstIs(s, q, true, now);
  }

  // ---------------------------------------------------------------- conservation and limits

  /** No request is in two places or twice in one, at most CAP are in flight, and of one
      user's submissions at most PER_USER. */
  ghost predicate Sound(s: State) {
    && (forall id :: Places(s, id) <= 1)
    && (forall id | id in s.flight :: s.flight[id].id == id)
    && |s.flight| <= CAP
    && forall u :: |Submitting(s.flight, u)| <= PER_USER
  }

  lemma {:induction false} QueuedConcat(p: seq<Request>, q: seq<Request>, id: nat)
    ensures Queued(p + q, id) == Queued(p, id) + Queued(q, id)
    decreases |q|
  {
    if q == [] {
      assert p + q == p;
    } else {
      QueuedConcat(p, q[..|q| - 1], id);
      assert (p + q)[..|p + q| - 1] == p + q[..|q| - 1];
    }
  }

  lemma {:induction false} TimesConcat(p: seq<nat>, q: seq<nat>, id: nat)
    ensures Times(p + q, id) == Times(p, id) + Times(q, id)
    decreases |q|
  {
    if q == [] {
      assert p + q == p;
    } else {
      TimesConcat(p, q[..|q| - 1], id);
      assert (p + q)[..|p + q| - 1] == p + q[..|q| - 1];
    }
  }

  lemma QueuedWithout(q: seq<Request>, i: nat, id: nat)
    requires i < |q|
    ensures Queued(q, id) == Queued(q[..i] + q[i + 1..], id) + if q[i].id == id then 1 else 0
  {
    var p, x, r := q[..i], [q[i]], q[i + 1..];
    assert q == p + (x + r);
    QueuedConcat(p, x + r, id);
    QueuedConcat(x, r, id);
    QueuedConcat(p, r, id);
    assert x[..0] == [];
  }

  lemma {:induction false} ScanConserves(q: seq<Request>, gone: set<nat>, id: nat)
    ensures Queued(Kept(q, gone), id) + Times(Dropped(q, gone), id) == Queued(q, id)
  {
    if q != [] {
      var n := |q| - 1;
      ScanConserves(q[..n], gone, id);
      var k, d := Kept(q[..n], gone), Dropped(q[..n], gone);
      assert (k + [q[n]])[..|k|] == k && k + [] == k;
      assert (d + [q[n].id])[..|d|] == d && d + [] == d;
    }
  }

  lemma FlightAdded(flight: map<nat, Request>, r: Request)
    requires r.id !in flight
    ensures |flight[r.id := r]| == |flight| + 1
  {
    assert flight[r.id := r].Keys == flight.Keys + {r.id};
  }

  lemma FlightRemoved(flight: map<nat, Request>, id: nat)
    requires id in flight
    ensures |flight - {id}| == |flight| - 1
  {
    assert (flight - {id}).Keys == flight.Keys - {id};
  }

  lemma SubmittingAdded(flight: map<nat, Request>, r: Request, user: int)
    requires r.id !in flight
    ensures Submitting(flight[r.id := r], user) ==
            Submitting(flight, user) + if r.submission && r.user == user then {r.id} else {}
  {
  }

  lemma SubmittingRemoved(flight: map<nat, Request>, id: nat, user: int)
    requires id in flight
    ensures Submitting(flight - {id}, user) ==
            Submitting(flight, user) - if flight[id].submission && flight[id].user == user then {id} else {}
  {
  }

  lemma QueuedIsNotElsewhere(s: State, i: nat)
    requires Sound(s) && i < |s.queue|
    ensures s.queue[i].id !in s.flight && Times(s.answered, s.queue[i].id) == 0
    ensures Queued(s.queue, s.queue[i].id) == 1
  {
    var id := s.queue[i].id;
    QueuedWithout(s.queue, i, id);
    assert Places(s, id) <= 1;
  }

  lemma StartKeepsSound(s: State, i: nat, now: int)
    requires Sound(s) && i < |s.queue| && |s.flight| < CAP && Eligible(s, s.queue[i], now)
    ensures Sound(Started(s, i)) && forall id :: Places(Started(s, i), id) == Places(s, id)
  {
    var r := s.queue[i];
    QueuedIsNotElsewhere(s, i);
    forall id ensures Places(Started(s, i), id) == Places(s, id) {
      QueuedWithout(s.queue, i, id);
    }
    FlightAdded(s.flight, r);
    var flight := s.flight[r.id := r];
    forall u ensures |Submitting(flight, u)| <= PER_USER {
      SubmittingAdded(s.flight, r, u);
      assert |Submitting(s.flight, u)| <= PER_USER;
    }
  }

  lemma FinishKeepsSound(s: State, id: nat, reply: Reply, now: int)
    requires Sound(s)
    ensures var t := Step(s, Finish(id, reply, now)); Sound(t) && forall x :: Places(t, x) == Places(s, x)
  {
    if id in s.flight {
      FlightRemoved(s.flight, id);
      forall x ensures Times(s.answered + [id], x) == Times(s.answered, x) + if x == id then 1 else 0 {
        assert (s.answered + [id])[..|s.answered|] == s.answered;
      }
      var flight := s.flight - {id};
      forall u ensures |Submitting(flight, u)| <= PER_USER {
        SubmittingRemoved(s.flight, id, u);
        assert |Submitting(s.flight, u)| <= PER_USER;
      }
      var t := Step(s, Finish(id, reply, now));
      forall x ensures Places(t, x) == Places(s, x) {
      }
      assert forall x :: Places(s, x) <= 1;
    }
  }

  lemma ScanKeepsSound(s: State, now: int, gone: set<nat>)
    requires Sound(s)
    ensures var t := Scanned(s, now, gone); Sound(t) && forall id :: Places(t, id) == Places(s, id)
  {
    var t := Scanned(s, now, gone);
    forall id ensures Places(t, id) == Places(s, id) {
      ScanConserves(s.queue, gone, id);
      TimesConcat(s.answered, Dropped(s.queue, gone), id);
    }
  }

  /** A scan's own deletions of expired deadlines do not change what it sees. */
  lemma PurgeKeepsEligible(s: State, now: int, gone: set<nat>, r: Request)
    ensures Eligible(Scanned(s, now, gone), r, now) == Eligible(s, r, now)
  {
  }

  lemma ChosenIsEligible(s: State, q: seq<Request>, now: int)
    ensures var i := Chosen(s, q, now); i < |q| && (i >= 0 ==> Eligible(s, q[i], now))
  {
    FirstIs(s, q, false, now);
    FirstIs(s, q, true, now);
  }

  /** What a pass with a free slot does. */
  lemma PassIs(s: State, now: int, gone: set<nat>)
    requires Sound(s) && now >= s.clock && |s.flight| < CAP && s.queue != []
    ensures var t := Scanned(s, now, gone);
      var i := Chosen(s, t.queue, now);
      && Sound(t) && i < |t.queue|
      && Step(s, Pass(now, gone)) == (if i < 0 then t else Started(t, i))
      && (if i < 0 then forall r | r in t.queue :: !Eligible(t, r, now) else Eligible(t, t.queue[i], now))
  {
    var t := Scanned(s, now, gone);
    ScanKeepsSound(s, now, gone);
    ChosenIsEligible(s, t.queue, now);
    FirstIs(s, t.queue, false, now);
    FirstIs(s, t.queue, true, now);
    forall r | r in t.queue ensures Eligible(t, r, now) == Eligible(s, r, now) {
      PurgeKeepsEligible(s, now, gone, r);
    }
  }

  lemma PassKeepsSound(s: State, now: int, gone: set<nat>)
    requires Sound(s)
    ensures var t := Step(s, Pass(now, gone)); Sound(t) && forall id :: Places(t, id) == Places(s, id)
  {
    if now >= s.clock && |s.flight| < CAP && s.queue != [] {
      var t := Scanned(s, now, gone);
      ScanKeepsSound(s, now, gone);
      var i := Chosen(s, t.queue, now);
      if i >= 0 {
        ChosenIsEligible(s, t.queue, now);
        PurgeKeepsEligible(s, now, gone, t.queue[i]);
        StartKeepsSound(t, i, now);
      }
      assert Step(s, Pass(now, gone)) == if i < 0 then t else Started(t, i);
    }
  }

  predicate ArrivesAs(e: Event, id: nat) {
    e.Arrive? && e.request.id == id
  }

  lemma ArriveKeepsSound(s: State, r: Request)
    requires Sound(s)
    ensures var t := Step(s, Arrive(r));
      Sound(t) && forall id :: Places(t, id) > 0 <==> Places(s, id) > 0 || r.id == id
  {
    var t := Step(s, Arrive(r));
    forall id ensures Places(t, id) <= 1 && (Places(t, id) > 0 <==> Places(s, id) > 0 || r.id == id) {
      assert (s.queue + [r])[..|s.queue|] == s.queue;
      assert Places(s, id) <= 1;
    }
  }

  lemma StepKeepsSound(s: State, e: Event)
    requires Sound(s)
    ensures Sound(Step(s, e))
    ensures forall id :: Places(Step(s, e), id) > 0 <==> Places(s, id) > 0 || ArrivesAs(e, id)
  {
    match e {
      case Arrive(r) =>
        ArriveKeepsSound(s, r);
      case Pass(now, gone) => PassKeepsSound(s, now, gone);
      case Finish(id, reply, now) => FinishKeepsSound(s, id, reply, now);
      case Extend(_, _, _) =>
        forall id ensures Places(Step(s, e), id) == Places(s, id) {
        }
        assert forall id :: Places(s, id) <= 1;
    }
  }

  predicate Arrived(es: seq<Event>, id: nat) {
    exists i :: 0 <= i < |es| && ArrivesAs(es[i], id)
  }

  lemma {:induction false} SoundRun(s: State, es: seq<Event>, id: nat)
    requires Sound(s)
    ensures Sound(Run(s, es))
    ensures Places(Run(s, es), id) > 0 <==> Places(s, id) > 0 || Arrived(es, id)
    decreases |es|
  {
    if es != [] {
      StepKeepsSound(s, es[0]);
      SoundRun(Step(s, es[0]), es[1..], id);
      if Arrived(es, id) {
        var i :| 0 <= i < |es| && ArrivesAs(es[i], id);
        assert i > 0 ==> ArrivesAs(es[1..][i - 1], id);
      }
      if Arrived(es[1..], id) {
        var i :| 0 <= i < |es| - 1 && ArrivesAs(es[1..][i], id);
        assert ArrivesAs(es[i + 1], id);
      }
    }
  }

  /** In every run a request that has arrived is in exactly one of three places, queued, in
      flight or answered once, and no other request is; the limits hold throughout. */
  lemma Conservation(minimum: nat, es: seq<Event>, id: nat)
    ensures var s := Run(Init(minimum), es);
      && Places(s, id) == (if Arrived(es, id) then 1 else 0)
      && |s.flight| <= CAP
      && forall u :: |Submitting(s.flight, u)| <= PER_USER
  {
    var s := Init(minimum);
    forall u ensures |Submitting(s.flight, u)| == 0 {
      assert Submitting(s.flight, u) == {};
    }
    forall x ensures Places(s, x) == 0 {
    }
    SoundRun(s, es, id);
    assert Places(Run(s, es), id) <= 1;
  }

  // ---------------------------------------------------------------- no request is passed by for long

  /** How many requests of a class are queued: submissions, or normal requests. */
  function OfClass(q: seq<Request>, submission: bool): nat {
    if q == [] then 0
    else OfClass(q[..|q| - 1], submission) + if q[|q| - 1].submission == submission then 1 else 0
  }

  /** The requests of a class ahead of a request in the queue. */
  function Ahead(q: seq<Request>, id: nat, submission: bool): nat {
    if q == [] then 0
    else
      var n := |q| - 1;
      if q[n].id == id then OfClass(q[..n], submission) else Ahead(q[..n], id, submission)
  }

  /** How many others may still be started before a request that stays eligible: a normal
      request waits for at most two submissions each time, a submission for one normal request
      after two submissions. */
  function Measure(s: State, r: Request): nat {
    var k, streak := Ahead(s.queue, r.id, r.submission), if s.streak < 2 then s.streak else 2;
    if r.submission then k + (k + streak) / 2 else 3 * k + 2 - streak
  }

  lemma {:induction false} OfClassConcat(p: seq<Request>, q: seq<Request>, submission: bool)
    ensures OfClass(p + q, submission) == OfClass(p, submission) + OfClass(q, submission)
    decreases |q|
  {
    if q == [] {
      assert p + q == p;
    } else {
      OfClassConcat(p, q[..|q| - 1], submission);
      assert (p + q)[..|p + q| - 1] == p + q[..|q| - 1];
    }
  }

  lemma {:induction false} AheadIs(q: seq<Request>, i: nat, submission: bool)
    requires i < |q| && Queued(q, q[i].id) == 1
    ensures Ahead(q, q[i].id, submission) == OfClass(q[..i], submission)
    decreases |q|
  {
    var n := |q| - 1;
    if i < n {
      QueuedWithout(q, i, q[i].id);
      QueuedWithout(q[..i] + q[i + 1..], n - 1, q[i].id);
      AheadIs(q[..n], i, submission);
      assert q[..n][..i] == q[..i];
    }
  }

  lemma {:induction false} ScanAhead(q: seq<Request>, gone: set<nat>, id: nat, submission: bool)
    requires id !in gone
    ensures Ahead(Kept(q, gone), id, submission) <= Ahead(q, id, submission)
    ensures OfClass(Kept(q, gone), submission) <= OfClass(q, submission)
    ensures Queued(Kept(q, gone), id) == Queued(q, id)
  {
    if q != [] {
      var n := |q| - 1;
      ScanAhead(q[..n], gone, id, submission);
      var k := Kept(q[..n], gone);
      assert (k + [q[n]])[..|k|] == k && k + [] == k;
    }
  }

  lemma OfClassWithout(q: seq<Request>, i: nat, submission: bool)
    requires i < |q|
    ensures OfClass(q, submission)
         == OfClass(q[..i] + q[i + 1..], submission) + if q[i].submission == submission then 1 else 0
  {
    var before, x, after := q[..i], [q[i]], q[i + 1..];
    assert q == before + (x + after);
    OfClassConcat(before, after, submission);
    OfClassConcat(before, x + after, submission);
    OfClassConcat(x, after, submission);
    assert x[..0] == [];
  }

  /** Removing request i from a queue in which request p is queued, and stays. */
  lemma RemoveAhead(q: seq<Request>, i: nat, p: nat, submission: bool)
    requires i < |q| && p < |q| && q[i].id != q[p].id && Queued(q, q[p].id) == 1
    requires q[i].submission == submission ==> i < p
    ensures Ahead(q[..i] + q[i + 1..], q[p].id, submission)
         == Ahead(q, q[p].id, submission) - if q[i].submission == submission then 1 else 0
  {
    QueuedWithout(q, i, q[p].id);
    AheadIs(q, p, submission);
    if p < i {
      RemoveAfter(q, i, p, submission);
    } else {
      RemoveBefore(q, i, p, submission);
      OfClassWithout(q[..p], i, submission);
    }
  }

  lemma RemoveAfter(q: seq<Request>, i: nat, p: nat, submission: bool)
    requires p < i < |q| && Queued(q[..i] + q[i + 1..], q[p].id) == 1
    ensures Ahead(q[..i] + q[i + 1..], q[p].id, submission) == OfClass(q[..p], submission)
  {
    var rest := q[..i] + q[i + 1..];
    AheadIs(rest, p, submission);
    assert rest[..p] == q[..p];
  }

  lemma RemoveBefore(q: seq<Request>, i: nat, p: nat, submission: bool)
    requires i < p < |q| && Queued(q[..i] + q[i + 1..], q[p].id) == 1
    ensures Ahead(q[..i] + q[i + 1..], q[p].id, submission) == OfClass(q[..p][..i] + q[..p][i + 1..], submission)
  {
    var rest := q[..i] + q[i + 1..];
    AheadIs(rest, p - 1, submission);
    assert rest[..p - 1] == q[..p][..i] + q[..p][i + 1..];
  }

  /** Request i may be started although r at k is eligible: it is of the class of r and not
      behind it, or the other class has its turn. */
  predicate MayPass(s: State, q: seq<Request>, i: nat, k: nat)
    requires i < |q| && k < |q|
  {
    if q[i].submission == q[k].submission then i <= k else q[k].submission <==> s.streak >= 2
  }

  /** What is chosen while request k is eligible. */
  lemma ChosenMayPass(s: State, q: seq<Request>, k: nat, now: int)
    requires k < |q| && Eligible(s, q[k], now)
    ensures var i := Chosen(s, q, now); 0 <= i < |q| && MayPass(s, q, i, k)
  {
    FirstIs(s, q, false, now);
    FirstIs(s, q, true, now);
  }

  /** Starting such a request i. */
  lemma StartBringsCloser(s: State, r: Request, k: nat, i: nat)
    requires i < |s.queue| && k < |s.queue| && s.queue[k] == r && Queued(s.queue, r.id) == 1
    requires MayPass(s, s.queue, i, k)
    ensures var t := Started(s, i);
      if i == k then t.started[|s.started|].request == r
      else r in t.queue && Measure(t, r) < Measure(s, r)
  {
    if i != k {
      if s.queue[i].id == r.id {
        Unique(s.queue, i, k);
      }
      RemoveAhead(s.queue, i, k, r.submission);
      var rest := s.queue[..i] + s.queue[i + 1..];
      assert rest[if k < i then k else k - 1] == r;
      if s.queue[i].submission == r.submission {
        AheadIs(s.queue, k, r.submission);
      }
    }
  }

  lemma ScanBringsNoFurther(s: State, r: Request, now: int, gone: set<nat>)
    requires r.id !in gone
    ensures Measure(Scanned(s, now, gone), r) <= Measure(s, r)
    ensures Queued(Scanned(s, now, gone).queue, r.id) == Queued(s.queue, r.id)
  {
    ScanAhead(s.queue, gone, r.id, r.submission);
  }

  /** A pass with a free slot, while r is queued and eligible, starts r or brings it closer. */
  lemma PassBringsCloser(s: State, r: Request, p: nat, now: int, gone: set<nat>)
    requires Sound(s) && p < |s.queue| && s.queue[p] == r
    requires now >= s.clock && |s.flight| < CAP && r.id !in gone && Eligible(s, r, now)
    ensures var t := Step(s, Pass(now, gone));
      && |t.started| == |s.started| + 1
      && (|| t.started[|s.started|].request == r
          || (r in t.queue && Measure(t, r) < Measure(s, r)))
  {
    QueuedIsNotElsewhere(s, p);
    ScanBringsNoFurther(s, r, now, gone);
    var t := Scanned(s, now, gone);
    var k := KeptAt(s.queue, gone, p);
    ChosenMayPass(s, t.queue, k, now);
    var i := Chosen(s, t.queue, now);
    StartBringsCloser(t, r, k, i);
    assert Step(s, Pass(now, gone)) == Started(t, i);
  }

  lemma Unique(q: seq<Request>, i: nat, k: nat)
    requires i < |q| && k < |q| && q[i].id == q[k].id && Queued(q, q[i].id) == 1
    ensures i == k
  {
    QueuedWithout(q, i, q[i].id);
    if i < k {
      QueuedWithout(q[..i] + q[i + 1..], k - 1, q[i].id);
    } else if k < i {
      QueuedWithout(q[..i] + q[i + 1..], k, q[i].id);
    }
  }

  lemma {:induction false} KeptAt(q: seq<Request>, gone: set<nat>, p: nat) returns (k: nat)
    requires p < |q| && q[p].id !in gone
    ensures k < |Kept(q, gone)| && Kept(q, gone)[k] == q[p]
    decreases |q|
  {
    var n := |q| - 1;
    if p == n {
      k := |Kept(q[..n], gone)|;
    } else {
      k := KeptAt(q[..n], gone, p);
    }
  }

  /** While r is queued, no event of es takes its caller away or finds it held back. */
  predicate StaysEligible(s: State, es: seq<Event>, r: Request)
    decreases |es|
  {
    es == [] || Queued(s.queue, r.id) == 0
    || ((es[0].Pass? ==> r.id !in es[0].gone && Eligible(s, r, es[0].now))
        && StaysEligible(Step(s, es[0]), es[1..], r))
  }

  predicate Frees(s: State, e: Event) {
    e.Pass? && e.now >= s.clock && |s.flight| < CAP && s.queue != []
  }

  /** The passes of es that find a free slot. */
  function FreePasses(s: State, es: seq<Event>): nat
    decreases |es|
  {
    if es == [] then 0 else (if Frees(s, es[0]) then 1 else 0) + FreePasses(Step(s, es[0]), es[1..])
  }

  lemma OthersKeepPlace(s: State, e: Event, r: Request)
    requires Sound(s) && r in s.queue && !Frees(s, e)
    ensures var t := Step(s, e);
      r in t.queue && Measure(t, r) == Measure(s, r) && t.started == s.started
  {
    var p :| 0 <= p < |s.queue| && s.queue[p] == r;
    QueuedIsNotElsewhere(s, p);
    var t := Step(s, e);
    if t.queue != s.queue {
      assert t.queue[..|s.queue|] == s.queue && t.queue[p] == r;
      assert Places(s, e.request.id) == 0;
    }
  }

  lemma StepGrows(s: State, e: Event)
    ensures s.started <= Step(s, e).started
  {
  }

  lemma {:induction false} StartedGrows(s: State, es: seq<Event>)
    ensures s.started <= Run(s, es).started
    decreases |es|
  {
    if es != [] {
      StepGrows(s, es[0]);
      StartedGrows(Step(s, es[0]), es[1..]);
    }
  }

  /** At most `bound` other requests were started since the first `from`, and then r was. */
  predicate StartedWithin(t: State, r: Request, from: nat, bound: nat) {
    exists m | from <= m < |t.started| :: m <= from + bound && t.started[m].request == r
  }

  /** Bounded bypass: while a request with k requests of its class ahead of it is queued and
      stays eligible, at most 3k + 2 others are started before it if it is a normal request,
      and at most k + k / 2 + 1 if it is a submission; and each pass that finds a free slot
      does start one. */
  lemma {:induction false} BoundedBypass(s: State, es: seq<Event>, r: Request)
    requires Sound(s) && r in s.queue && StaysEligible(s, es, r)
    ensures var t := Run(s, es);
      var k, bound := Ahead(s.queue, r.id, r.submission), Measure(s, r);
      && bound <= (if r.submission then k + k / 2 + 1 else 3 * k + 2)
      && (|| (r in t.queue && |t.started| == |s.started| + FreePasses(s, es) <= |s.started| + bound)
          || StartedWithin(t, r, |s.started|, bound))
    decreases |es|
  {
    if es != [] {
      var p :| 0 <= p < |s.queue| && s.queue[p] == r;
      QueuedIsNotElsewhere(s, p);
      var u := Step(s, es[0]);
      StepKeepsSound(s, es[0]);
      if Frees(s, es[0]) {
        PassBringsCloser(s, r, p, es[0].now, es[0].gone);
        if u.started[|s.started|].request == r {
          StartedGrows(u, es[1..]);
          assert Run(s, es).started[|s.started|].request == r;
        } else {
          BoundedBypass(u, es[1..], r);
          if StartedWithin(Run(s, es), r, |u.started|, Measure(u, r)) {
            assert StartedWithin(Run(s, es), r, |s.started|, Measure(s, r));
          }
        }
      } else {
        OthersKeepPlace(s, es[0], r);
        BoundedBypass(u, es[1..], r);
      }
    }
  }

  // ---------------------------------------------------------------- cooldowns are respected

  /** The user is held back until the given time, or that time has passed. */
  predicate Held(m: Deadlines, clock: int, user: int, until: int) {
    clock >= until || (user in m && m[user] >= until)
  }

  predicate NoneBefore(started: seq<Start>, from: nat, user: int, submissionsOnly: bool, until: int) {
    forall m | from <= m < |started| ::
      started[m].request.user == user && (submissionsOnly ==> started[m].request.submission) ==>
        started[m].time >= until
  }

  lemma HeldStep(s: State, e: Event, user: int, until: int)
    ensures var t := Step(s, e);
      && s.started <= t.started
      && (Held(s.access, s.clock, user, until) ==>
          Held(t.access, t.clock, user, until) && NoneBefore(t.started, |s.started|, user, false, until))
      && (Held(s.rate, s.clock, user, until) ==>
          Held(t.rate, t.clock, user, until) && NoneBefore(t.started, |s.started|, user, true, until))
  {
    if Frees(s, e) {
      ChosenIsEligible(s, Kept(s.queue, e.gone), e.now);
    }
  }

  lemma NoneBeforeJoins(mid: seq<Start>, all: seq<Start>, from: nat, user: int, submissionsOnly: bool, until: int)
    requires mid <= all && NoneBefore(mid, from, user, submissionsOnly, until)
    requires NoneBefore(all, |mid|, user, submissionsOnly, until)
    ensures NoneBefore(all, from, user, submissionsOnly, until)
  {
  }

  /** While a deadline is on record, it keeps its requests from starting before it. */
  lemma {:induction false} HeldRun(s: State, es: seq<Event>, user: int, until: int)
    ensures Held(s.access, s.clock, user, until) ==>
      NoneBefore(Run(s, es).started, |s.started|, user, false, until)
    ensures Held(s.rate, s.clock, user, until) ==>
      NoneBefore(Run(s, es).started, |s.started|, user, true, until)
    decreases |es|
  {
    if es != [] {
      HeldStep(s, es[0], user, until);
      HeldTail(s, es, user, until);
    }
  }

  lemma HeldTail(s: State, es: seq<Event>, user: int, until: int)
    requires es != []
    requires var t := Step(s, es[0]);
      && (Held(s.access, s.clock, user, until) ==>
          Held(t.access, t.clock, user, until) && NoneBefore(t.started, |s.started|, user, false, until))
      && (Held(s.rate, s.clock, user, until) ==>
          Held(t.rate, t.clock, user, until) && NoneBefore(t.started, |s.started|, user, true, until))
    ensures Held(s.access, s.clock, user, until) ==>
      NoneBefore(Run(s, es).started, |s.started|, user, false, until)
    ensures Held(s.rate, s.clock, user, until) ==>
      NoneBefore(Run(s, es).started, |s.started|, user, true, until)
    decreases |es|, 0
  {
    var t := Step(s, es[0]);
    HeldRun(t, es[1..], user, until);
    StartedGrows(t, es[1..]);
    if Held(s.access, s.clock, user, until) {
      NoneBeforeJoins(t.started, Run(s, es).started, |s.started|, user, false, until);
    }
    if Held(s.rate, s.clock, user, until) {
      NoneBeforeJoins(t.started, Run(s, es).started, |s.started|, user, true, until);
    }
  }

  /** Once a denial of a request has been processed, nothing of the same user starts before
      the minimum wait is over, nor before the time that the platform asked for. */
  lemma DenialIsRespected(s: State, id: nat, reply: Reply, now: int, es: seq<Event>)
    requires id in s.flight && now >= s.clock && !reply.failed && reply.status == 403
    ensures var t := Run(s, [Finish(id, reply, now)] + es);
      && NoneBefore(t.started, |s.started|, s.flight[id].user, false, now + s.minimum)
      && NoneBefore(t.started, |s.started|, s.flight[id].user, false, reply.hint)
  {
    var e := Finish(id, reply, now);
    assert ([e] + es)[1..] == es;
    HeldRun(Step(s, e), es, s.flight[id].user, Cooldowns.Later(reply.hint, now + s.minimum));
  }

  /** Once a throttled submission has been processed, no submission of the user starts before
      the time that the platform asked for. */
  lemma ThrottleIsRespected(s: State, id: nat, reply: Reply, now: int, es: seq<Event>)
    requires id in s.flight && now >= s.clock && s.flight[id].submission
    requires !reply.failed && reply.status != 403 && reply.limited
    ensures var t := Run(s, [Finish(id, reply, now)] + es);
      NoneBefore(t.started, |s.started|, s.flight[id].user, true, reply.hint)
  {
    var e := Finish(id, reply, now);
    assert ([e] + es)[1..] == es;
    HeldRun(Step(s, e), es, s.flight[id].user, reply.hint);
  }

  /** A repeated denial extends the wait of the whole account. */
  lemma ExtensionIsRespected(s: State, user: int, attempt: nat, now: int, es: seq<Event>)
    requires now >= s.clock
    ensures NoneBefore(Run(s, [Extend(user, attempt, now)] + es).started, |s.started|, user, false,
                       now + Backoff(s.minimum, attempt))
  {
    var e := Extend(user, attempt, now);
    assert ([e] + es)[1..] == es;
    HeldRun(Step(s, e), es, user, now + Backoff(s.minimum, attempt));
  }
}
