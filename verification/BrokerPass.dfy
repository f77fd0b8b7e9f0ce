/**
 What one step of the request scheduler does (internal/platform/broker.go,
 internal/platform/cooldowns.go), told by the queue as it is before the step: who is answered,
 who is started, and what a result does to the deadlines.
 */
module BrokerPasses {
  import opened Cooldowns
  import opened Brokers

  /** A deadline of the user is not over, or three submissions of the user are in flight. */
  predicate HeldBack(s: State, r: Request, now: int) {
    || (r.user in s.access && s.access[r.user] > now)
    || (r.submission && r.user in s.rate && s.rate[r.user] > now)
    || (r.submission && |set id | id in s.flight && s.flight[id].submission && s.flight[id].user == r.user| >= 3)
  }

  lemma HeldBackIs(s: State, r: Request, now: int)
    ensures HeldBack(s, r, now) <==> !Eligible(s, r, now)
  {
    assert Submitting(s.flight, r.user) ==
      set id | id in s.flight && s.flight[id].submission && s.flight[id].user == r.user;
  }

  /** Request i of the queue may be started. */
  predicate Ready(s: State, now: int, gone: set<nat>, i: nat) {
    i < |s.queue| && s.queue[i].id !in gone && !HeldBack(s, s.queue[i], now)
  }

  predicate SomeReady(s: State, now: int, gone: set<nat>, submission: bool) {
    exists i: nat | i < |s.queue| :: Ready(s, now, gone, i) && s.queue[i].submission == submission
  }

  /** It is the first of its class that may be started; and it is a submission, unless two of
      these have been started in a row or none may be. */
  predicate Due(s: State, now: int, gone: set<nat>, i: nat) {
    && Ready(s, now, gone, i)
    && (forall j: nat | j < i && Ready(s, now, gone, j) :: s.queue[j].submission != s.queue[i].submission)
    && (if s.queue[i].submission then s.streak < 2 || !SomeReady(s, now, gone, false)
        else s.streak >= 2 || !SomeReady(s, now, gone, true))
  }

  // ---------------------------------------------------------------- the scan

  /** Where request i of the queue stands among those that stay. */
  function Rank(q: seq<Request>, gone: set<nat>, i: nat): nat
    requires i <= |q|
  {
    |Kept(q[..i], gone)|
  }

  /** The scan keeps the order of those that stay. */
  lemma {:induction false} KeptAt(q: seq<Request>, gone: set<nat>, i: nat)
    requires i < |q|
    ensures q[i].id !in gone ==> Rank(q, gone, i) < |Kept(q, gone)| && Kept(q, gone)[Rank(q, gone, i)] == q[i]
    ensures Rank(q, gone, i + 1) == Rank(q, gone, i) + if q[i].id in gone then 0 else 1
  {
    var n := |q| - 1;
    assert q[..i + 1][..i] == q[..i];
    if i < n {
      KeptAt(q[..n], gone, i);
      assert q[..n][..i] == q[..i] && q[..n][..i + 1] == q[..i + 1];
    }
  }

  /** Every request that stays stands somewhere in the queue. */
  lemma {:induction false} KeptFrom(q: seq<Request>, gone: set<nat>, k: nat) returns (i: nat)
    requires k < |Kept(q, gone)|
    ensures i < |q| && q[i].id !in gone && Rank(q, gone, i) == k && Kept(q, gone)[k] == q[i]
  {
    var n := |q| - 1;
    if k < |Kept(q[..n], gone)| {
      i := KeptFrom(q[..n], gone, k);
      assert q[..n][..i] == q[..i];
    } else {
      i := n;
    }
  }

  lemma {:induction false} RankGrows(q: seq<Request>, gone: set<nat>, i: nat, j: nat)
    requires i < j <= |q| && q[i].id !in gone
    ensures Rank(q, gone, i) < Rank(q, gone, j)
    decreases j
  {
    KeptAt(q, gone, j - 1);
    if i < j - 1 {
      RankGrows(q, gone, i, j - 1);
    }
  }

  /** Those who have gone are answered, and nobody else. */
  lemma {:induction false} DroppedAre(q: seq<Request>, gone: set<nat>, id: nat)
    ensures id in Dropped(q, gone) <==> id in gone && exists i | 0 <= i < |q| :: q[i].id == id
  {
    if q != [] {
      DroppedAre(q[..|q| - 1], gone, id);
    }
  }

  /** The first of a class in the scanned queue is the first of that class that is ready. */
  lemma FirstReady(s: State, now: int, gone: set<nat>, submission: bool) returns (i: nat)
    ensures var k := First(s, Kept(s.queue, gone), submission, now);
      if k < 0 then !SomeReady(s, now, gone, submission)
      else
        && Ready(s, now, gone, i) && s.queue[i].submission == submission && Rank(s.queue, gone, i) == k
        && forall j: nat | j < i && Ready(s, now, gone, j) :: s.queue[j].submission != submission
  {
    var q := Kept(s.queue, gone);
    var k := First(s, q, submission, now);
    FirstIs(s, q, submission, now);
    i := 0;
    if k >= 0 {
      i := KeptFrom(s.queue, gone, k);
      HeldBackIs(s, q[k], now);
    }
    forall j: nat | j < |s.queue| && Ready(s, now, gone, j) && (k < 0 || j < i)
      ensures s.queue[j].submission != submission
    {
      KeptAt(s.queue, gone, j);
      HeldBackIs(s, s.queue[j], now);
      if k >= 0 {
        RankGrows(s.queue, gone, j, i);
      }
    }
  }

  // ---------------------------------------------------------------- one pass

  /** The scan chooses the request that is due. */
  lemma ChosenIsDue(s: State, now: int, gone: set<nat>) returns (i: nat)
    ensures var k := Chosen(s, Kept(s.queue, gone), now);
      if k < 0 then !SomeReady(s, now, gone, false) && !SomeReady(s, now, gone, true)
      else
        && Due(s, now, gone, i) && Rank(s.queue, gone, i) == k
        && (SomeReady(s, now, gone, false) || SomeReady(s, now, gone, true))
  {
    var normal := FirstReady(s, now, gone, false);
    var write := FirstReady(s, now, gone, true);
    var n, w := First(s, Kept(s.queue, gone), false, now), First(s, Kept(s.queue, gone), true, now);
    assert n >= 0 ==> SomeReady(s, now, gone, false);
    assert w >= 0 ==> SomeReady(s, now, gone, true);
    i := if n >= 0 && (w < 0 || s.streak >= 2) then normal else write;
  }

  lemma PassSteps(s: State, now: int, gone: set<nat>)
    requires s.clock <= now && |s.flight| < 64 && s.queue != []
    ensures var t := Scanned(s, now, gone);
      var k := Chosen(s, t.queue, now);
      && -1 <= k < |t.queue| && Step(s, Pass(now, gone)) == if k < 0 then t else Started(t, k)
  {
    ChosenInRange(s, Scanned(s, now, gone).queue, now);
  }

  /** With a free place a pass starts the request that is due, whenever one is ready; it
      answers those who have gone, and leaves the others in their order. */
  lemma PassStarts(s: State, now: int, gone: set<nat>) returns (i: nat)
    requires s.clock <= now && |s.flight| < 64 && s.queue != []
    ensures var t := Step(s, Pass(now, gone));
      var live := Kept(s.queue, gone);
      && t.answered == s.answered + Dropped(s.queue, gone)
      && if SomeReady(s, now, gone, false) || SomeReady(s, now, gone, true) then
           && Due(s, now, gone, i)
           && t.started == s.started + [Start(s.queue[i], now)]
           && t.flight == s.flight[s.queue[i].id := s.queue[i]]
           && t.streak == (if s.queue[i].submission then s.streak + 1 else 0)
           && Rank(s.queue, gone, i) < |live|
           && t.queue == live[..Rank(s.queue, gone, i)] + live[Rank(s.queue, gone, i) + 1..]
         else t.started == s.started && t.flight == s.flight && t.streak == s.streak && t.queue == live
  {
    PassSteps(s, now, gone);
    i := ChosenIsDue(s, now, gone);
    if Chosen(s, Kept(s.queue, gone), now) >= 0 {
      KeptAt(s.queue, gone, i);
    }
  }

  /** Without a free place, or with nothing queued, a pass does nothing. */
  lemma PassRests(s: State, now: int, gone: set<nat>)
    requires |s.flight| >= 64 || s.queue == []
    ensures Step(s, Pass(now, gone)) == s
  {
  }

  // ---------------------------------------------------------------- the other events

  function Latest(a: int, b: int): int {
    if a >= b then a else b
  }

  /** The deadline of a user after one more until; nobody else's changes. */
  predicate Raised(before: Deadlines, after: Deadlines, user: int, until: int) {
    after == before[user := if user in before then Latest(before[user], until) else until]
  }

  /** A result frees the place and answers the caller. A denial holds the user back for the
      minimum at least, and as long as the reply asks; a throttled submission holds the user's
      submissions back as long as the reply asks; and no other result holds anybody back. */
  lemma FinishFrees(s: State, id: nat, reply: Reply, now: int)
    requires s.clock <= now && id in s.flight
    ensures var t := Step(s, Finish(id, reply, now));
      var r := s.flight[id];
      && t.flight == s.flight - {id} && t.answered == s.answered + [id]
      && t.queue == s.queue && t.started == s.started && t.streak == s.streak
      && (if !reply.failed && reply.status == 403
          then Raised(s.access, t.access, r.user, Latest(reply.hint, now + s.minimum))
          else t.access == s.access)
      && (if !reply.failed && reply.status != 403 && r.submission && reply.limited
          then Raised(s.rate, t.rate, r.user, reply.hint)
          else t.rate == s.rate)
  {
  }

  /** A repeated denial holds the user back for the minimum doubled as often, but for half an
      hour at most. */
  lemma ExtensionHolds(s: State, user: int, attempt: nat, now: int)
    requires s.clock <= now
    ensures var t := Step(s, Extend(user, attempt, now));
      && Raised(s.access, t.access, user, now + Backoff(s.minimum, attempt))
      && t == s.(access := t.access, clock := now)
  {
  }

  /** An arrival waits at the end of the queue. */
  lemma ArrivalWaits(s: State, r: Request)
    requires Places(s, r.id) == 0
    ensures Step(s, Arrive(r)) == s.(queue := s.queue + [r])
  {
  }
}
