/**
 The bounded pool that runs a function on the indices below a count
 (internal/learning/runner.go:87-133), as a transition system: one sender, an unbuffered
 channel, workers that stop at the first error, and a context that may end at any time.
 Where a select has several choices any of them may be taken.
 */
module IndexPools {
  import opened Options

  datatype Worker = Waiting | Running(index: nat) | Stopped

  /** next: the index the sender offers; closed: it has left its loop and closed the channel;
      ended: the caller's context has; cancelled: the pool's own, which ends with it. */
  datatype Pool = Pool(count: nat, next: nat, closed: bool, ended: bool, cancelled: bool,
                       workers: seq<Worker>, first: Option<int>, succeeded: set<nat>)

  datatype Event =
    | Hand(worker: nat)
    | Finish(worker: nat, error: Option<int>)
    | Leave(worker: nat)
    | Close
    | End

  function Start(count: nat, n: nat): Pool {
    Pool(count, 0, false, false, false, seq(if n < count then n else count, _ => Waiting), None, {})
  }

  predicate Enabled(p: Pool, e: Event) {
    match e
    case Hand(w) => !p.closed && p.next < p.count && w < |p.workers| && p.workers[w].Waiting?
    case Finish(w, _) => w < |p.workers| && p.workers[w].Running?
    case Leave(w) => w < |p.workers| && p.workers[w].Waiting? && (p.cancelled || p.closed)
    case Close => !p.closed && (p.cancelled || p.next == p.count)
    case End => !p.ended
  }

  function Step(p: Pool, e: Event): Pool
    requires Enabled(p, e)
  {
    match e
    case Hand(w) => p.(next := p.next + 1, workers := p.workers[w := Running(p.next)])
    case Finish(w, error) =>
      if error.None? then
        p.(workers := p.workers[w := Waiting], succeeded := p.succeeded + {p.workers[w].index})
      else
        p.(workers := p.workers[w := Stopped], cancelled := true,
           first := if p.first.None? then error else p.first)
    case Leave(w) => p.(workers := p.workers[w := Stopped])
    case Close => p.(closed := true)
    case End => p.(ended := true, cancelled := true)
  }

  predicate Finished(p: Pool) {
    p.closed && forall w | 0 <= w < |p.workers| :: p.workers[w].Stopped?
  }

  /** Nil: no worker has failed and the caller's context has not ended. */
  predicate ReturnsNil(p: Pool) {
    Finished(p) && p.first.None? && !p.ended
  }

  ghost predicate Reaches(p: Pool, events: seq<Event>, q: Pool)
    decreases |events|
  {
    if events == [] then p == q
    else Enabled(p, events[0]) && Reaches(Step(p, events[0]), events[1..], q)
  }

  predicate HeldBy(workers: seq<Worker>, i: nat) {
    exists w :: 0 <= w < |workers| && workers[w] == Running(i)
  }

  /** No index is with two workers. */
  predicate Apart(workers: seq<Worker>) {
    forall v, w | 0 <= v < w < |workers| && workers[v].Running? && workers[w].Running? ::
      workers[v].index != workers[w].index
  }

  /** What was handed out runs or has succeeded, unless the pool is cancelled; nothing runs
      that has succeeded before; a pool is cancelled only for a reason. */
  predicate Sound(p: Pool) {
    && p.next <= p.count
    && Apart(p.workers)
    && (forall w | 0 <= w < |p.workers| && p.workers[w].Running? ::
          p.workers[w].index < p.next && p.workers[w].index !in p.succeeded)
    && (forall i | i in p.succeeded :: i < p.next)
    && (p.cancelled <==> p.ended || p.first.Some?)
    && (!p.cancelled ==> forall i | 0 <= i < p.next :: i in p.succeeded || HeldBy(p.workers, i))
    && (!p.cancelled && p.closed ==> p.next == p.count)
    && (!p.cancelled && !p.closed ==> forall w | 0 <= w < |p.workers| :: !p.workers[w].Stopped?)
  }

  lemma StillHeld(workers: seq<Worker>, w: nat, worker: Worker, i: nat)
    requires w < |workers| && HeldBy(workers, i) && workers[w] != Running(i)
    ensures HeldBy(workers[w := worker], i)
  {
    var v :| 0 <= v < |workers| && workers[v] == Running(i);
    assert workers[w := worker][v] == Running(i);
  }

  lemma HandKeeps(p: Pool, w: nat)
    requires Sound(p) && Enabled(p, Hand(w))
    ensures Sound(Step(p, Hand(w)))
  {
    var q := Step(p, Hand(w));
    assert q.workers[w] == Running(p.next);
    if !p.cancelled {
      forall i | 0 <= i < q.next ensures i in q.succeeded || HeldBy(q.workers, i) {
        if i < p.next && i !in p.succeeded {
          StillHeld(p.workers, w, Running(p.next), i);
        }
      }
    }
  }

  lemma FinishKeeps(p: Pool, w: nat, error: Option<int>)
    requires Sound(p) && Enabled(p, Finish(w, error))
    ensures Sound(Step(p, Finish(w, error)))
  {
    var q := Step(p, Finish(w, error));
    forall v | 0 <= v < |p.workers| && v != w && p.workers[v].Running?
      ensures p.workers[v].index != p.workers[w].index
    {
      if v < w {
        assert p.workers[v].index != p.workers[w].index;
      } else {
        assert p.workers[w].index != p.workers[v].index;
      }
    }
    if !q.cancelled {
      forall i | 0 <= i < q.next ensures i in q.succeeded || HeldBy(q.workers, i) {
        if i !in q.succeeded {
          StillHeld(p.workers, w, Waiting, i);
        }
      }
    }
  }

  lemma LeaveKeeps(p: Pool, w: nat)
    requires Sound(p) && Enabled(p, Leave(w))
    ensures Sound(Step(p, Leave(w)))
  {
    var q := Step(p, Leave(w));
    if !p.cancelled {
      forall i | 0 <= i < q.next ensures i in q.succeeded || HeldBy(q.workers, i) {
        if i !in p.succeeded {
          StillHeld(p.workers, w, Stopped, i);
        }
      }
    }
  }

  lemma StepKeeps(p: Pool, e: Event)
    requires Sound(p) && Enabled(p, e)
    ensures Sound(Step(p, e))
  {
    match e
    case Hand(w) => HandKeeps(p, w);
    case Finish(w, error) => FinishKeeps(p, w, error);
    case Leave(w) => LeaveKeeps(p, w);
    case _ =>
  }

  lemma {:induction false} RunKeeps(p: Pool, events: seq<Event>, q: Pool)
    requires Sound(p) && Reaches(p, events, q)
    ensures Sound(q) && q.count == p.count && |q.workers| == |p.workers|
    decreases |events|
  {
    if events != [] {
      StepKeeps(p, events[0]);
      RunKeeps(Step(p, events[0]), events[1..], q);
    }
  }

  /** When the pool returns nil the function has succeeded on every index, and on no other. */
  lemma NilMeansAll(count: nat, n: nat, events: seq<Event>, q: Pool)
    requires Reaches(Start(count, n), events, q) && ReturnsNil(q)
    ensures forall i: nat :: i in q.succeeded <==> i < count
  {
    RunKeeps(Start(count, n), events, q);
    forall i: nat | i < count ensures i in q.succeeded {
      assert !HeldBy(q.workers, i);
    }
  }

  /** How often the function is started on an index. */
  function Starts(p: Pool, events: seq<Event>, i: nat): nat
    decreases |events|
  {
    if events == [] || !Enabled(p, events[0]) then 0
    else (if events[0].Hand? && p.next == i then 1 else 0) + Starts(Step(p, events[0]), events[1..], i)
  }

  /** The function is started at most once on an index, and exactly on those handed out. */
  lemma {:induction false} StartedOnce(p: Pool, events: seq<Event>, q: Pool, i: nat)
    requires Reaches(p, events, q)
    ensures Starts(p, events, i) == if p.next <= i < q.next then 1 else 0
    ensures p.next <= q.next
    decreases |events|
  {
    if events != [] {
      StartedOnce(Step(p, events[0]), events[1..], q, i);
    }
  }

  /** The pool never hangs: with a worker, or once the context has ended, it is finished, or
      the function runs, or something can happen without waiting for anything outside. */
  lemma NeverStuck(count: nat, n: nat, events: seq<Event>, q: Pool)
    requires Reaches(Start(count, n), events, q) && (n > 0 || q.ended || count == 0)
    ensures Finished(q)
      || (exists w :: 0 <= w < |q.workers| && q.workers[w].Running?)
      || (exists e: Event :: (e.Hand? || e.Leave? || e.Close?) && Enabled(q, e))
  {
    RunKeeps(Start(count, n), events, q);
    if !Finished(q) && !exists w :: 0 <= w < |q.workers| && q.workers[w].Running? {
      if !q.closed {
        if q.cancelled || q.next == q.count {
          assert Enabled(q, Close);
        } else {
          assert Enabled(q, Hand(0));
        }
      } else {
        var w :| 0 <= w < |q.workers| && !q.workers[w].Stopped?;
        assert Enabled(q, Leave(w));
      }
    }
  }

  /** A worker is needed: without one the sender waits until the context ends. */
  lemma NoWorkerHangs(count: nat)
    requires count > 0
    ensures var p := Start(count, 0);
      !Finished(p) && forall e: Event :: Enabled(p, e) ==> e.End?
  {
  }
}
