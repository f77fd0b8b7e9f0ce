/**
 The scheduler's loop as the source writes it (internal/platform/broker.go): a queue edited in
 place while it is scanned, and counters instead of sets of requests. Every turn is shown to
 be a step of the transition system in module Brokers.
 */
module BrokerLoops {
  import opened Cooldowns
  import opened Brokers

  /** What one scan sees: the time, and the requests whose context has ended. */
  datatype View = View(now: int, gone: set<nat>)

  function Get(active: map<int, int>, user: int): int {
    if user in active then active[user] else 0
  }

  /** active holds, for every user, the number of submissions in flight. */
  ghost predicate Counts(active: map<int, int>, flight: map<nat, Request>) {
    forall u :: Get(active, u) == |Submitting(flight, u)|
  }

  lemma CountsAdded(active: map<int, int>, flight: map<nat, Request>, r: Request)
    requires Counts(active, flight) && r.id !in flight
    ensures Counts(if r.submission then active[r.user := Get(active, r.user) + 1] else active, flight[r.id := r])
  {
    var flight', active' := flight[r.id := r], if r.submission then active[r.user := Get(active, r.user) + 1]
      else active;
    forall u ensures Get(active', u) == |Submitting(flight', u)| {
      SubmittingAdded(flight, r, u);
      assert Get(active, u) == |Submitting(flight, u)|;
    }
  }

  lemma CountsRemoved(active: map<int, int>, flight: map<nat, Request>, r: Request)
    requires Counts(active, flight) && r.id in flight && flight[r.id] == r
    ensures Counts(if r.submission then active[r.user := Get(active, r.user) - 1] else active, flight - {r.id})
  {
    var flight', active' := flight - {r.id}, if r.submission then active[r.user := Get(active, r.user) - 1] else active;
    forall u ensures Get(active', u) == |Submitting(flight', u)| {
      SubmittingRemoved(flight, r.id, u);
      assert Get(active, u) == |Submitting(flight, u)|;
    }
  }

  lemma UsersGrow(q: seq<Request>, r: Request, m: Deadlines, now: int)
    ensures Users(q + [r]) == Users(q) + {r.user}
    ensures Purged(Purged(m, Users(q), now), {r.user}, now) == Purged(m, Users(q + [r]), now)
  {
  }

  /** The scan takes one more request of the original queue into account. */
  lemma ScanGrows(q: seq<Request>, gone: set<nat>, j: nat)
    requires j < |q|
    ensures q[j].id in gone ==>
      && Kept(q[..j + 1], gone) == Kept(q[..j], gone)
      && Dropped(q[..j + 1], gone) == Dropped(q[..j], gone) + [q[j].id]
    ensures q[j].id !in gone ==>
      && Kept(q[..j + 1], gone) == Kept(q[..j], gone) + [q[j]]
      && Dropped(q[..j + 1], gone) == Dropped(q[..j], gone)
  {
    assert q[..j + 1][..j] == q[..j];
  }

  lemma Cut(p: seq<Request>, q: seq<Request>)
    requires q != []
    ensures (p + q)[..|p|] + (p + q)[|p| + 1..] == p + q[1..]
  {
  }

  lemma FirstGrows(s: State, q: seq<Request>, r: Request, submission: bool, now: int)
    ensures First(s, q + [r], submission, now) ==
      var before := First(s, q, submission, now);
      if before < 0 && r.submission == submission && Eligible(s, r, now) then |q| else before
  {
    assert (q + [r])[..|q|] == q;
    FirstIs(s, q, submission, now);
  }

  lemma {:induction false} KeptFits(q: seq<Request>, gone: set<nat>)
    ensures |Kept(q, gone)| <= |q|
  {
    if q != [] {
      KeptFits(q[..|q| - 1], gone);
    }
  }

  lemma {:induction false} RunExtends(s: State, es: seq<Event>, e: Event)
    ensures Run(s, es + [e]) == Step(Run(s, es), e)
    decreases |es|
  {
    if es == [] {
      assert [] + [e] == [e] && [e][1..] == [];
    } else {
      assert (es + [e])[1..] == es[1..] + [e];
      RunExtends(Step(s, es[0]), es[1..], e);
    }
  }

  /** What the end of a request changes. */
  lemma FinishIs(s: State, id: nat, reply: Reply, now: int)
    requires id in s.flight && now >= s.clock
    ensures var user, denied := s.flight[id].user, !reply.failed && reply.status == 403;
      var limited := !reply.failed && reply.status != 403 && s.flight[id].submission && reply.limited;
      Step(s, Finish(id, reply, now)) == s.(
        flight := s.flight - {id}, answered := s.answered + [id], clock := now,
        access := if denied then Extended(s.access, user, Cooldowns.Later(reply.hint, now + s.minimum)) else s.access,
        rate := if limited then Extended(s.rate, user, reply.hint) else s.rate)
  {
  }

  class Loop {
    var queue: seq<Request>
    var active: map<int, int>
    var total: int
    var streak: nat
    const table: Table
    ghost var flight: map<nat, Request>
    ghost var answered: seq<nat>
    ghost var started: seq<Start>
    ghost var clock: int

    ghost function Abs(): State
      reads this, table
    {
      State(queue, flight, answered, streak, table.access, table.rate, table.minimum, clock, started)
    }

    /** The counters agree with the requests that are in flight. */
    ghost predicate Valid()
      reads this, table
    {
      && Sound(Abs())
      && total == |flight|
      && Counts(active, flight)
    }

    constructor (minimum: nat)
      ensures Valid() && Abs() == Init(minimum) && fresh(table)
    {
      queue, active, total, streak := [], map[], 0, 0;
      table := new Table(minimum);
      flight, answered, started, clock := map[], [], [], 0;
      new;
      forall u ensures |Submitting(flight, u)| == 0 {
        assert Submitting(flight, u) == {};
      }
    }

    /** Looks at one request of the scan: its cooldowns, then whether it is the first to go. */
    method Inspect(ghost s: State, ghost kept: seq<Request>, r: Request, i: nat, normal: int, write: int, now: int)
      returns (normal': int, write': int)
      requires i == |kept| && Counts(active, s.flight)
      requires normal == First(s, kept, false, now) && write == First(s, kept, true, now)
      requires table.access == Purged(s.access, Users(kept), now)
      requires table.rate == Purged(s.rate, Users(kept), now)
      modifies table
      ensures normal' == First(s, kept + [r], false, now) && write' == First(s, kept + [r], true, now)
      ensures table.access == Purged(s.access, Users(kept + [r]), now)
      ensures table.rate == Purged(s.rate, Users(kept + [r]), now)
    {
      normal', write' := normal, write;
      UsersGrow(kept, r, s.access, now);
      UsersGrow(kept, r, s.rate, now);
      FirstGrows(s, kept, r, false, now);
      FirstGrows(s, kept, r, true, now);
      assert Get(active, r.user) == |Submitting(s.flight, r.user)|;
      var blocked, _ := table.State(r.user, r.submission, now);
      if blocked {
        return;
      }
      if r.submission {
        if write < 0 && Get(active, r.user) < 3 {
          write' := i;
        }
      } else if normal < 0 {
        normal' := i;
      }
    }

    /** The scan that began in state s has dealt with its first j requests, of which it has
        kept i. */
    ghost predicate Scanning(s: State, view: View, j: nat, i: nat, normal: int, write: int)
      reads this, table
    {
      j <= |s.queue| &&
      var kept := Kept(s.queue[..j], view.gone);
      && i == |kept| && queue == kept + s.queue[j..]
      && answered == s.answered + Dropped(s.queue[..j], view.gone)
      && normal == First(s, kept, false, view.now) && write == First(s, kept, true, view.now)
      && table.access == Purged(s.access, Users(kept), view.now)
      && table.rate == Purged(s.rate, Users(kept), view.now)
      && flight == s.flight && streak == s.streak && started == s.started && clock == view.now
      && table.minimum == s.minimum
    }

    method Drop(ghost s: State, view: View, ghost j: nat, i: nat, normal: int, write: int)
      requires Scanning(s, view, j, i, normal, write) && i < |queue| && queue[i].id in view.gone
      modifies this`queue, this`answered
      ensures Scanning(s, view, j + 1, i, normal, write)
    {
      ghost var kept, rest := Kept(s.queue[..j], view.gone), s.queue[j..];
      ScanGrows(s.queue, view.gone, j);
      Cut(kept, rest);
      answered := answered + [queue[i].id];
      queue := queue[..i] + queue[i + 1..];
    }

    method Keep(ghost s: State, view: View, ghost j: nat, i: nat, normal: int, write: int)
      returns (normal': int, write': int)
      requires Scanning(s, view, j, i, normal, write) && i < |queue| && queue[i].id !in view.gone
      requires Counts(active, flight)
      modifies table
      ensures Scanning(s, view, j + 1, i + 1, normal', write')
    {
      ghost var kept, r := Kept(s.queue[..j], view.gone), s.queue[j];
      ScanGrows(s.queue, view.gone, j);
      assert kept + s.queue[j..] == (kept + [r]) + s.queue[j + 1..];
      normal', write' := Inspect(s, kept, queue[i], i, normal, write, view.now);
    }

    /** One scan of the queue; the positions found are positions in the queue it leaves. */
    method Scan(view: View) returns (normal: int, write: int)
      requires Counts(active, flight)
      modifies this`queue, this`answered, this`clock, table
      ensures Abs() == Scanned(old(Abs()), view.now, view.gone)
      ensures normal == First(old(Abs()), queue, false, view.now)
      ensures write == First(old(Abs()), queue, true, view.now)
    {
      normal, write := -1, -1;
      var i := 0;
      ghost var s, j := Abs(), 0;
      clock := view.now;
      while i < |queue|
        invariant Scanning(s, view, j, i, normal, write)
        decreases |s.queue| - j
      {
        if queue[i].id in view.gone {
          Drop(s, view, j, i, normal, write);
        } else {
          normal, write := Keep(s, view, j, i, normal, write);
          i := i + 1;
        }
        j := j + 1;
      }
      assert s.queue[..j] == s.queue;
    }

    /** Scans the queue and chooses the request that goes next, if any. */
    method Choose(view: View) returns (index: int)
      requires Valid() && view.now >= clock && total < 64 && |queue| > 0
      modifies this`queue, this`answered, this`clock, table
      ensures Valid() && clock == view.now
      ensures Abs() == Scanned(old(Abs()), view.now, view.gone)
      ensures index == Chosen(old(Abs()), queue, view.now)
    {
      ghost var s := Abs();
      ScanKeepsSound(s, view.now, view.gone);
      var normal, write := Scan(view);
      index := write;
      if normal >= 0 && (write < 0 || streak >= 2) {
        index := normal;
      }
    }

    /** One turn of the loop; false if nothing was started. */
    method Turn(view: View) returns (more: bool)
      requires Valid() && view.now >= clock && total < 64 && |queue| > 0
      modifies this, table
      ensures Valid() && Abs() == Step(old(Abs()), Pass(view.now, view.gone)) && clock == view.now
      ensures |queue| <= |old(queue)| - if more then 1 else 0
      ensures !more ==> forall r | r in queue :: !Eligible(Abs(), r, clock)
    {
      PassIs(Abs(), view.now, view.gone);
      KeptFits(queue, view.gone);
      var index := Choose(view);
      if index < 0 {
        return false;
      }
      Launch(index);
      more := true;
    }

    /** Takes request `index` out of the queue and starts it. */
    method Launch(index: nat)
      requires Valid() && index < |queue| && |flight| < CAP && Eligible(Abs(), queue[index], clock)
      modifies this
      ensures Valid() && Abs() == Started(old(Abs()), index)
    {
      ghost var s := Abs();
      var r := queue[index];
      StartKeepsSound(s, index, clock);
      QueuedIsNotElsewhere(s, index);
      FlightAdded(flight, r);
      CountsAdded(active, flight, r);
      queue := queue[..index] + queue[index + 1..];
      total := total + 1;
      if r.submission {
        active := active[r.user := Get(active, r.user) + 1];
        streak := streak + 1;
      } else {
        streak := 0;
      }
      flight, started := flight[r.id := r], started + [Start(r, clock)];
      assert Abs() == Started(s, index);
    }

    /** Starts requests while a slot is free and something may go; the k-th turn of the loop
        sees views[k]. */
    method Dispatch(views: seq<View>) returns (ghost passes: seq<Event>)
      requires Valid()
      requires |views| > |queue|
      requires forall k | 0 <= k < |views| :: views[k].now >= clock
      requires forall k, l | 0 <= k < l < |views| :: views[k].now <= views[l].now
      modifies this, table
      ensures Valid() && Abs() == Run(old(Abs()), passes)
      ensures |passes| <= |views| && forall k | 0 <= k < |passes| :: passes[k] == Pass(views[k].now, views[k].gone)
      // The loop stops only at the cap or when nothing that is queued may go.
      ensures total == CAP || forall r | r in queue :: !Eligible(Abs(), r, clock)
    {
      passes := [];
      var k := 0;
      ghost var s := Abs();
      while total < 64 && |queue| > 0
        invariant Valid() && k == |passes| && |views| - k > |queue|
        invariant Abs() == Run(s, passes)
        invariant forall l | 0 <= l < k :: passes[l] == Pass(views[l].now, views[l].gone)
        invariant forall l | k <= l < |views| :: views[l].now >= clock
        decreases |queue|
      {
        var more := Turn(views[k]);
        ghost var pass := Pass(views[k].now, views[k].gone);
        RunExtends(s, passes, pass);
        passes := passes + [pass];
        k := k + 1;
        if !more {
          break;
        }
      }
    }

    /** A request comes in. Its id is new: ids stand for the identity of request objects. */
    method Receive(r: Request)
      requires Valid() && Places(Abs(), r.id) == 0
      modifies this`queue
      ensures Valid() && Abs() == Step(old(Abs()), Arrive(r))
    {
      ArriveKeepsSound(Abs(), r);
      queue := queue + [r];
    }

    /** A denial or a throttled submission sets a deadline. */
    method RecordCooldown(r: Request, reply: Reply, now: int)
      modifies table
      ensures table.access == if !reply.failed && reply.status == 403
              then Extended(old(table.access), r.user, Cooldowns.Later(reply.hint, now + table.minimum))
              else old(table.access)
      ensures table.rate == if !reply.failed && reply.status != 403 && r.submission && reply.limited
              then Extended(old(table.rate), r.user, reply.hint)
              else old(table.rate)
    {
      if !reply.failed && (reply.status == 403 || (r.submission && reply.limited)) {
        table.Record(r.user, reply.status == 403, reply.hint, now);
      }
    }

    /** A request that was started has ended. */
    method Collect(r: Request, reply: Reply, now: int)
      requires Valid() && r.id in flight && flight[r.id] == r && now >= clock
      modifies this, table
      ensures Valid() && Abs() == Step(old(Abs()), Finish(r.id, reply, now))
    {
      ghost var s := Abs();
      FinishKeepsSound(s, r.id, reply, now);
      FinishIs(s, r.id, reply, now);
      FlightRemoved(flight, r.id);
      CountsRemoved(active, flight, r);
      total := total - 1;
      if r.submission {
        active := active[r.user := Get(active, r.user) - 1];
      }
      clock := now;
      RecordCooldown(r, reply, now);
      ghost var t := Step(s, Finish(r.id, reply, now));
      assert table.access == t.access && table.rate == t.rate && table.minimum == t.minimum;
      flight, answered := flight - {r.id}, answered + [r.id];
      assert Abs() == t;
    }

    /** The broker is closed: every queued caller gets an answer. */
    method Close()
      requires Valid()
      modifies this`queue, this`answered
      ensures queue == [] && answered == old(answered) + IdsOf(old(queue)) && flight == old(flight)
      ensures forall id :: Places(Abs(), id) == old(Places(Abs(), id))
    {
      ghost var q, a := queue, answered;
      for i := 0 to |queue|
        invariant queue == q && flight == old(flight)
        invariant answered == a + IdsOf(q[..i])
        invariant forall id :: Times(answered, id) == Times(a, id) + Queued(q[..i], id)
      {
        assert q[..i + 1][..i] == q[..i];
        ghost var before := answered;
        answered := answered + [queue[i].id];
        assert answered[..|before|] == before;
      }
      assert q[..|q|] == q;
      queue := [];
    }
  }

  function IdsOf(q: seq<Request>): seq<nat> {
    if q == [] then [] else IdsOf(q[..|q| - 1]) + [q[|q| - 1].id]
  }
}
