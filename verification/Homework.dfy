/**
 The homework worker pool (server/workflow/workers/homework.js): workers that take questions
 as their answers become known, sleep when there is nothing to take, and are woken by each
 other and by messages. A step is what runs between two awaits.
 */
module Homework {
  import opened Options

  datatype Verdict = Right | Wrong | Unknown

  /** answered: the platform counts an attempt; verdict: what it says about it. */
  datatype Problem = Problem(id: int, version: string, answered: bool, verdict: Verdict)

  datatype Exercise = Exercise(leaf: int, error: bool, problems: seq<Problem>)

  datatype Task = Task(leaf: int, problem: Problem) {
    function Key(): (int, int) {
      (leaf, problem.id)
    }
  }

  datatype Answer = Answer(version: string, body: string)

  datatype Status = Completed | Failed | Skipped | WrongExisting | MissingAnswer | Blocked

  datatype Item = Item(leaf: int, problem: Option<int>, status: Status)

  datatype Tally = Tally(total: int, processed: int, completed: int, skipped: int, failed: int, wrongExisting: int)

  /** A submission: of which question, and with which answer. */
  datatype Sent = Sent(task: nat, answer: Answer)

  /** Failing: the worker has thrown, and nobody has been told yet. */
  datatype Worker = Ready | Sleeping | Busy(task: nat) | Returned | Failing | Thrown

  datatype Outcome = SaidRight | SaidWrong | Error(fatal: bool)

  datatype Pool = Pool(tasks: seq<Task>, answers: map<(int, int), Answer>, done: set<(int, int)>,
                       workers: seq<Worker>, producerFinished: bool, fatal: bool, aborted: bool,
                       tally: Tally, items: seq<Item>,
                       log: seq<Sent>, settled: set<nat>)

  datatype Event =
    | Turn(worker: nat)
    | Settle(worker: nat, outcome: Outcome)
    | Fail(worker: nat)
    | AnswerReady(key: (int, int), answer: Answer)
    | AnswersComplete
    | OtherMessage
    | Abort

  // ---------------------------------------------------------------- the pool

  function TasksOf(exercises: seq<Exercise>): seq<Task> {
    if exercises == [] then []
    else
      var e := exercises[|exercises| - 1];
      TasksOf(exercises[..|exercises| - 1])
      + seq(|e.problems|, i requires 0 <= i < |e.problems| => Task(e.leaf, e.problems[i]))
  }

  /** The questions that were answered before: each of them is done and skipped. */
  function Opened(tasks: seq<Task>): (Tally, set<(int, int)>, seq<Item>) {
    if tasks == [] then (Tally(0, 0, 0, 0, 0, 0), {}, [])
    else
      var (t, done, items) := Opened(tasks[..|tasks| - 1]);
      var task := tasks[|tasks| - 1];
      var wrong := task.problem.verdict == Wrong;
      if !task.problem.answered then (t.(total := t.total + 1), done, items)
      else
        (t.(total := t.total + 1, processed := t.processed + 1, skipped := t.skipped + 1,
            wrongExisting := t.wrongExisting + if wrong then 1 else 0),
         done + {task.Key()},
         items + [Item(task.leaf, Some(task.problem.id), if wrong then WrongExisting else Skipped)])
  }

  function AllReady(n: nat): (workers: seq<Worker>)
    ensures |workers| == n && forall w | 0 <= w < n :: workers[w].Ready?
  {
    seq(n, _ => Ready)
  }

  function Start(tasks: seq<Task>, answers: map<(int, int), Answer>, finished: bool, aborted: bool,
        workers: nat): Pool {
    var books := Opened(tasks);
    Pool(tasks, answers, books.1, AllReady(workers), finished, false, aborted, books.0, books.2, [], {})
  }

  predicate InFlight(tasks: seq<Task>, workers: seq<Worker>, key: (int, int)) {
    exists w :: 0 <= w < |workers| && Holds(tasks, workers[w], key)
  }

  predicate Holds(tasks: seq<Task>, worker: Worker, key: (int, int)) {
    worker.Busy? && worker.task < |tasks| && tasks[worker.task].Key() == key
  }

  /** The question is open, and there is an answer to this very version of it. */
  predicate Dispatchable(p: Pool, i: nat)
    requires i < |p.tasks|
  {
    var key := p.tasks[i].Key();
    key !in p.done && !InFlight(p.tasks, p.workers, key) && key in p.answers
      && p.answers[key].version == p.tasks[i].problem.version
  }

  function FindFrom(p: Pool, i: nat): (r: Option<nat>)
    requires i <= |p.tasks|
    ensures r.Some? ==> i <= r.value < |p.tasks| && Dispatchable(p, r.value)
    ensures r.None? ==> forall j | i <= j < |p.tasks| :: !Dispatchable(p, j)
    decreases |p.tasks| - i
  {
    if i == |p.tasks| then None
    else if Dispatchable(p, i) then Some(i)
    else FindFrom(p, i + 1)
  }

  predicate Idle(workers: seq<Worker>) {
    forall w | 0 <= w < |workers| :: !workers[w].Busy?
  }

  /** There is nothing left to wait for. */
  predicate Finished(p: Pool) {
    |p.done| == |p.tasks| || (p.producerFinished && Idle(p.workers))
  }

  function Woken(workers: seq<Worker>): (r: seq<Worker>)
    ensures |r| == |workers|
  {
    seq(|workers|, w requires 0 <= w < |workers| => if workers[w].Sleeping? then Ready else workers[w])
  }

  function Wake(p: Pool): Pool {
    p.(workers := Woken(p.workers))
  }

  /** A worker's promise is rejected: the others are told and woken. */
  function FailOf(p: Pool, w: nat): Pool
    requires w < |p.workers|
  {
    Wake(p.(workers := p.workers[w := Thrown], fatal := true))
  }

  function TurnOf(p: Pool, w: nat): Pool
    requires w < |p.workers|
  {
    var found := FindFrom(p, 0);
    if p.aborted || p.fatal then p.(workers := p.workers[w := Failing])
    else if found.Some? then
      var i := found.value;
      p.(workers := p.workers[w := Busy(i)], log := p.log + [Sent(i, p.answers[p.tasks[i].Key()])])
    else if Finished(p) then p.(workers := p.workers[w := Returned])
    else p.(workers := p.workers[w := Sleeping])
  }

  /** The counters after one more result. */
  function WithResult(t: Tally, status: Status): Tally {
    match status
    case Completed => t.(completed := t.completed + 1)
    case Skipped => t.(skipped := t.skipped + 1)
    case WrongExisting => t.(skipped := t.skipped + 1, wrongExisting := t.wrongExisting + 1)
    case _ => t.(failed := t.failed + 1)
  }

  function ResultOf(p: Pool, i: nat, right: bool): Item
    requires i < |p.tasks|
  {
    Item(p.tasks[i].leaf, Some(p.tasks[i].problem.id), if right then Completed else Failed)
  }

  function Counted(p: Pool, i: nat, right: bool): Pool
    requires i < |p.tasks|
  {
    var item := ResultOf(p, i, right);
    p.(tally := WithResult(p.tally, item.status), items := p.items + [item])
  }

  /** Whatever the outcome: the question is done, and everyone looks again. An error that ends
      the worker is only reported later. */
  function Closed(p: Pool, w: nat, i: nat, next: Worker): Pool
    requires w < |p.workers| && i < |p.tasks|
  {
    Wake(p.(workers := p.workers[w := next], done := p.done + {p.tasks[i].Key()}, settled := p.settled + {i},
            tally := p.tally.(processed := p.tally.processed + 1)))
  }

  function SettleOf(p: Pool, w: nat, outcome: Outcome): Pool
    requires w < |p.workers| && p.workers[w].Busy? && p.workers[w].task < |p.tasks|
  {
    var i := p.workers[w].task;
    if outcome.Error? && (p.aborted || outcome.fatal) then Closed(p, w, i, Failing)
    else Closed(Counted(p, i, outcome.SaidRight?), w, i, Ready)
  }

  predicate Enabled(p: Pool, e: Event) {
    match e
    case Turn(w) => w < |p.workers| && p.workers[w].Ready?
    case Settle(w, _) => w < |p.workers| && p.workers[w].Busy? && p.workers[w].task < |p.tasks|
    case Fail(w) => w < |p.workers| && p.workers[w].Failing?
    case _ => true
  }

  function Step(p: Pool, e: Event): Pool
    requires Enabled(p, e)
  {
    match e
    case Turn(w) => TurnOf(p, w)
    case Settle(w, outcome) => SettleOf(p, w, outcome)
    case Fail(w) => FailOf(p, w)
    case AnswerReady(key, answer) => Wake(p.(answers := p.answers[key := answer]))
    case AnswersComplete => Wake(p.(producerFinished := true))
    case OtherMessage => Wake(p)
    case Abort => Wake(p.(aborted := true))
  }

  /** Any interleaving of enabled steps. */
  ghost predicate Reaches(p: Pool, events: seq<Event>, q: Pool)
    decreases |events|
  {
    if events == [] then p == q
    else Enabled(p, events[0]) && Reaches(Step(p, events[0]), events[1..], q)
  }

  // ---------------------------------------------------------------- nobody oversleeps

  /** There is no reason to be awake. */
  predicate Quiet(p: Pool) {
    FindFrom(p, 0).None? && !Finished(p) && !p.aborted && !p.fatal
  }

  predicate NoLostWakeup(p: Pool) {
    forall w | 0 <= w < |p.workers| && p.workers[w].Sleeping? :: Quiet(p)
  }

  predicate SameBusy(workers: seq<Worker>, workers': seq<Worker>) {
    && |workers| == |workers'|
    && forall w | 0 <= w < |workers| :: workers[w] == workers'[w] || (!workers[w].Busy? && !workers'[w].Busy?)
  }

  lemma SameInFlight(tasks: seq<Task>, workers: seq<Worker>, workers': seq<Worker>, key: (int, int))
    requires SameBusy(workers, workers')
    ensures InFlight(tasks, workers, key) <==> InFlight(tasks, workers', key)
  {
    if InFlight(tasks, workers, key) {
      var w :| 0 <= w < |workers| && Holds(tasks, workers[w], key);
      assert Holds(tasks, workers'[w], key);
    }
    if InFlight(tasks, workers', key) {
      var w :| 0 <= w < |workers| && Holds(tasks, workers'[w], key);
      assert Holds(tasks, workers[w], key);
    }
  }

  lemma SameOutlook(p: Pool, workers: seq<Worker>)
    requires SameBusy(p.workers, workers)
    ensures var q := p.(workers := workers);
      (FindFrom(q, 0).None? <==> FindFrom(p, 0).None?) && (Finished(q) <==> Finished(p))
  {
    var q := p.(workers := workers);
    forall i | 0 <= i < |p.tasks| ensures Dispatchable(p, i) <==> Dispatchable(q, i) {
      SameInFlight(p.tasks, p.workers, workers, p.tasks[i].Key());
    }
  }

  lemma TurnWakesNobodyTooLate(p: Pool, w: nat)
    requires NoLostWakeup(p) && w < |p.workers| && p.workers[w].Ready?
    ensures NoLostWakeup(TurnOf(p, w))
  {
    var q := TurnOf(p, w);
    if !p.aborted && !p.fatal && FindFrom(p, 0).None? {
      SameOutlook(p, q.workers);
    }
    forall v | 0 <= v < |q.workers| && q.workers[v].Sleeping? ensures Quiet(q) {
      assert v != w ==> p.workers[v].Sleeping?;
    }
  }

  lemma StepWakesNobodyTooLate(p: Pool, e: Event)
    requires NoLostWakeup(p) && Enabled(p, e)
    ensures NoLostWakeup(Step(p, e))
  {
    if e.Turn? {
      TurnWakesNobodyTooLate(p, e.worker);
    }
  }

  // ---------------------------------------------------------------- each question once

  predicate Logged(tasks: seq<Task>, log: seq<Sent>) {
    forall n | 0 <= n < |log| :: log[n].task < |tasks|
  }

  function LogKey(tasks: seq<Task>, log: seq<Sent>, n: nat): (int, int)
    requires Logged(tasks, log) && n < |log|
  {
    tasks[log[n].task].Key()
  }

  /** Whatever was submitted is done or still under way. */
  predicate Pending(tasks: seq<Task>, workers: seq<Worker>, done: set<(int, int)>, log: seq<Sent>)
    requires Logged(tasks, log)
  {
    forall n | 0 <= n < |log| :: LogKey(tasks, log, n) in done || InFlight(tasks, workers, LogKey(tasks, log, n))
  }

  predicate SentOnce(tasks: seq<Task>, log: seq<Sent>)
    requires Logged(tasks, log)
  {
    forall m, n | 0 <= m < n < |log| :: LogKey(tasks, log, m) != LogKey(tasks, log, n)
  }

  /** Nothing is submitted that was answered before, and only an answer to its own version. */
  predicate SentRightly(tasks: seq<Task>, log: seq<Sent>)
    requires Logged(tasks, log)
  {
    forall n | 0 <= n < |log| ::
      LogKey(tasks, log, n) !in Opened(tasks).1 && log[n].answer.version == tasks[log[n].task].problem.version
  }

  predicate HeldApart(tasks: seq<Task>, workers: seq<Worker>, done: set<(int, int)>) {
    && (forall w | 0 <= w < |workers| && workers[w].Busy? ::
          workers[w].task < |tasks| && tasks[workers[w].task].Key() !in done)
    && (forall v, w | 0 <= v < w < |workers| && workers[v].Busy? && workers[w].Busy? ::
          tasks[workers[v].task].Key() != tasks[workers[w].task].Key())
  }

  predicate Orderly(p: Pool) {
    && Logged(p.tasks, p.log) && Pending(p.tasks, p.workers, p.done, p.log)
    && SentOnce(p.tasks, p.log) && SentRightly(p.tasks, p.log) && HeldApart(p.tasks, p.workers, p.done)
    && Opened(p.tasks).1 <= p.done
  }

  lemma SameIsOrderly(p: Pool, workers: seq<Worker>)
    requires Orderly(p) && SameBusy(p.workers, workers)
    ensures Orderly(p.(workers := workers))
  {
    forall n | 0 <= n < |p.log|
      ensures LogKey(p.tasks, p.log, n) in p.done || InFlight(p.tasks, workers, LogKey(p.tasks, p.log, n))
    {
      SameInFlight(p.tasks, p.workers, workers, LogKey(p.tasks, p.log, n));
    }
  }

  lemma DispatchIsOrderly(p: Pool, w: nat, i: nat)
    requires Orderly(p) && w < |p.workers| && p.workers[w].Ready? && i < |p.tasks| && Dispatchable(p, i)
    ensures Orderly(p.(workers := p.workers[w := Busy(i)], log := p.log + [Sent(i, p.answers[p.tasks[i].Key()])]))
  {
    var workers := p.workers[w := Busy(i)];
    var key := p.tasks[i].Key();
    assert Holds(p.tasks, workers[w], key);
    forall n | 0 <= n < |p.log|
      ensures LogKey(p.tasks, p.log, n) != key
      ensures LogKey(p.tasks, p.log, n) in p.done || InFlight(p.tasks, workers, LogKey(p.tasks, p.log, n))
    {
      if LogKey(p.tasks, p.log, n) !in p.done {
        StillHeld(p.tasks, p.workers, w, Busy(i), LogKey(p.tasks, p.log, n));
      }
    }
    forall v | 0 <= v < |p.workers| && p.workers[v].Busy? ensures p.tasks[p.workers[v].task].Key() != key {
      assert Holds(p.tasks, p.workers[v], p.tasks[p.workers[v].task].Key());
    }
  }

  /** What other workers hold, they still hold. */
  lemma StillHeld(tasks: seq<Task>, workers: seq<Worker>, w: nat, worker: Worker, key: (int, int))
    requires w < |workers| && InFlight(tasks, workers, key) && !Holds(tasks, workers[w], key)
    ensures InFlight(tasks, workers[w := worker], key)
  {
    var v :| 0 <= v < |workers| && Holds(tasks, workers[v], key);
    assert Holds(tasks, workers[w := worker][v], key);
  }

  lemma CloseIsOrderly(p: Pool, w: nat)
    requires Orderly(p) && Enabled(p, Settle(w, SaidRight))
    ensures Orderly(p.(workers := p.workers[w := Ready], done := p.done + {p.tasks[p.workers[w].task].Key()}))
  {
    var mine := p.tasks[p.workers[w].task].Key();
    forall n | 0 <= n < |p.log| && LogKey(p.tasks, p.log, n) !in p.done && LogKey(p.tasks, p.log, n) != mine
      ensures InFlight(p.tasks, p.workers[w := Ready], LogKey(p.tasks, p.log, n))
    {
      StillHeld(p.tasks, p.workers, w, Ready, LogKey(p.tasks, p.log, n));
    }
  }

  lemma SettleIsOrderly(p: Pool, w: nat, outcome: Outcome)
    requires Orderly(p) && Enabled(p, Settle(w, outcome))
    ensures Orderly(SettleOf(p, w, outcome))
  {
    var q := p.(workers := p.workers[w := Ready], done := p.done + {p.tasks[p.workers[w].task].Key()});
    CloseIsOrderly(p, w);
    SameIsOrderly(q, SettleOf(p, w, outcome).workers);
  }

  lemma TurnIsOrderly(p: Pool, w: nat)
    requires Orderly(p) && w < |p.workers| && p.workers[w].Ready?
    ensures Orderly(TurnOf(p, w))
  {
    var found := FindFrom(p, 0);
    if !p.aborted && !p.fatal && found.Some? {
      DispatchIsOrderly(p, w, found.value);
    } else {
      SameIsOrderly(p, TurnOf(p, w).workers);
    }
  }

  lemma WakingIsOrderly(p: Pool, q: Pool)
    requires Orderly(p) && q.workers == Woken(p.workers)
    requires q.tasks == p.tasks && q.done == p.done && q.log == p.log
    ensures Orderly(q)
  {
    SameIsOrderly(p, q.workers);
  }

  lemma FailIsOrderly(p: Pool, w: nat)
    requires Orderly(p) && Enabled(p, Fail(w))
    ensures Orderly(FailOf(p, w))
  {
    SameIsOrderly(p, FailOf(p, w).workers);
  }

  lemma StepKeepsShape(p: Pool, e: Event)
    requires Enabled(p, e)
    ensures Step(p, e).tasks == p.tasks && |Step(p, e).workers| == |p.workers|
  {
  }

  lemma StepIsOrderly(p: Pool, e: Event)
    requires Orderly(p) && Enabled(p, e)
    ensures Orderly(Step(p, e)) && Step(p, e).tasks == p.tasks
  {
    StepKeepsShape(p, e);
    match e
    case Turn(w) => TurnIsOrderly(p, w);
    case Settle(w, outcome) => SettleIsOrderly(p, w, outcome);
    case Fail(w) => FailIsOrderly(p, w);
    case _ => WakingIsOrderly(p, Step(p, e));
  }

  // ---------------------------------------------------------------- the books

  function Tallied(items: seq<Item>, status: Status): nat {
    if items == [] then 0
    else Tallied(items[..|items| - 1], status) + if items[|items| - 1].status == status then 1 else 0
  }

  /** The counters agree with the listed results. */
  predicate Agrees(t: Tally, items: seq<Item>) {
    && t.completed == Tallied(items, Completed)
    && t.failed == Tallied(items, Failed) + Tallied(items, MissingAnswer) + Tallied(items, Blocked)
    && t.skipped == Tallied(items, Skipped) + Tallied(items, WrongExisting)
    && t.wrongExisting == Tallied(items, WrongExisting)
  }

  lemma TalliedMore(items: seq<Item>, item: Item)
    ensures forall status ::
      Tallied(items + [item], status) == Tallied(items, status) + if item.status == status then 1 else 0
  {
    assert (items + [item])[..|items|] == items;
  }

  /** The indices of the questions that were answered before. */
  function AnsweredBefore(tasks: seq<Task>): set<nat> {
    set i: nat | i < |tasks| && tasks[i].problem.answered
  }

  /** Some worker has thrown. */
  predicate HasThrown(p: Pool) {
    exists w :: 0 <= w < |p.workers| && (p.workers[w].Failing? || p.workers[w].Thrown?)
  }

  /** Every question is processed once and has one result, unless a worker has thrown. */
  predicate Booked(p: Pool) {
    && Agrees(p.tally, p.items)
    && p.tally.total == |p.tasks|
    && p.tally.processed == |AnsweredBefore(p.tasks)| + |p.settled|
    && (!HasThrown(p) ==> p.tally.processed == p.tally.completed + p.tally.failed + p.tally.skipped)
  }

  function KeysOf(tasks: seq<Task>, indices: set<nat>): set<(int, int)> {
    set i | i in indices && i < |tasks| :: tasks[i].Key()
  }

  /** What is done was answered before or has been submitted. */
  predicate Noted(p: Pool) {
    && (forall w | 0 <= w < |p.workers| && p.workers[w].Busy? :: p.workers[w].task !in p.settled)
    && (forall i | i in p.settled :: i < |p.tasks| && !p.tasks[i].problem.answered)
    && p.done == Opened(p.tasks).1 + KeysOf(p.tasks, p.settled)
  }

  predicate Accounted(p: Pool) {
    Booked(p) && Noted(p)
  }

  /** A worker throws exactly if there is an error to report. */
  predicate Blamed(p: Pool) {
    p.fatal <==> exists w :: 0 <= w < |p.workers| && p.workers[w].Thrown?
  }

  lemma AgreesMore(t: Tally, items: seq<Item>, item: Item)
    requires Agrees(t, items)
    ensures Agrees(WithResult(t, item.status), items + [item])
  {
    TalliedMore(items, item);
  }

  lemma AgreesSame(t: Tally, u: Tally, items: seq<Item>)
    requires Agrees(t, items)
    requires u.completed == t.completed && u.failed == t.failed && u.skipped == t.skipped
      && u.wrongExisting == t.wrongExisting
    ensures Agrees(u, items)
  {
  }

  lemma {:induction false} OpenedAgrees(tasks: seq<Task>)
    ensures var (t, done, items) := Opened(tasks);
      Agrees(t, items) && t.total == |tasks| && t.processed == t.completed + t.failed + t.skipped
  {
    if tasks != [] {
      var n := |tasks| - 1;
      var (t, done, items) := Opened(tasks[..n]);
      OpenedAgrees(tasks[..n]);
      if tasks[n].problem.answered {
        var item := Item(tasks[n].leaf, Some(tasks[n].problem.id), if tasks[n].problem.verdict == Wrong
          then WrongExisting else Skipped);
        AgreesMore(t, items, item);
        AgreesSame(WithResult(t, item.status), Opened(tasks).0, items + [item]);
      } else {
        AgreesSame(t, Opened(tasks).0, items);
      }
    }
  }

  lemma {:induction false} OpenedCounts(tasks: seq<Task>)
    ensures Opened(tasks).0.processed == |AnsweredBefore(tasks)|
  {
    if tasks == [] {
      assert AnsweredBefore(tasks) == {};
    } else {
      var n := |tasks| - 1;
      OpenedCounts(tasks[..n]);
      if tasks[n].problem.answered {
        assert AnsweredBefore(tasks) == AnsweredBefore(tasks[..n]) + {n};
      } else {
        assert AnsweredBefore(tasks) == AnsweredBefore(tasks[..n]);
      }
    }
  }

  lemma {:induction false} OpenedKeys(tasks: seq<Task>)
    ensures Opened(tasks).1 == KeysOf(tasks, AnsweredBefore(tasks))
  {
    if tasks != [] {
      var n := |tasks| - 1;
      OpenedKeys(tasks[..n]);
      if tasks[n].problem.answered {
        assert AnsweredBefore(tasks) == AnsweredBefore(tasks[..n]) + {n};
        assert KeysOf(tasks, AnsweredBefore(tasks)) == KeysOf(tasks[..n], AnsweredBefore(tasks[..n]))
          + {tasks[n].Key()};
      } else {
        assert AnsweredBefore(tasks) == AnsweredBefore(tasks[..n]);
        assert KeysOf(tasks, AnsweredBefore(tasks)) == KeysOf(tasks[..n], AnsweredBefore(tasks[..n]));
      }
    }
  }

  /** A turn concerns one worker. */
  lemma TurnWorkers(p: Pool, w: nat)
    requires w < |p.workers| && p.workers[w].Ready?
    ensures var q := TurnOf(p, w);
      q.fatal == p.fatal && q.workers == p.workers[w := q.workers[w]] && !q.workers[w].Thrown?
  {
  }

  /** The end of a submission concerns one worker, and wakes the others. */
  lemma SettleWorkers(p: Pool, w: nat, outcome: Outcome)
    requires Enabled(p, Settle(w, outcome))
    ensures var q := SettleOf(p, w, outcome);
      var next := if outcome.Error? && (p.aborted || outcome.fatal) then Failing else Ready;
      q.fatal == p.fatal && q.workers == Woken(p.workers[w := next]) && q.workers[w] == next
  {
  }

  /** A worker that has thrown does nothing else. */
  lemma ThrownStays(p: Pool, e: Event)
    requires Enabled(p, e)
    ensures HasThrown(p) ==> HasThrown(Step(p, e))
  {
    if HasThrown(p) {
      var v :| 0 <= v < |p.workers| && (p.workers[v].Failing? || p.workers[v].Thrown?);
      ThrownWorkerStays(p, e, v);
    }
  }

  lemma ThrownWorkerStays(p: Pool, e: Event, v: nat)
    requires Enabled(p, e) && v < |p.workers| && (p.workers[v].Failing? || p.workers[v].Thrown?)
    ensures v < |Step(p, e).workers| && (Step(p, e).workers[v].Failing? || Step(p, e).workers[v].Thrown?)
  {
    match e
    case Turn(w) => TurnWorkers(p, w);
    case Settle(w, outcome) => SettleWorkers(p, w, outcome);
    case _ =>
  }

  lemma SettleThrows(p: Pool, w: nat, outcome: Outcome)
    requires Enabled(p, Settle(w, outcome))
    ensures outcome.Error? && (p.aborted || outcome.fatal) ==> HasThrown(SettleOf(p, w, outcome))
  {
    SettleWorkers(p, w, outcome);
  }

  lemma FailAccounts(p: Pool, w: nat)
    requires Accounted(p) && Enabled(p, Fail(w))
    ensures Accounted(FailOf(p, w))
  {
    assert FailOf(p, w).workers[w].Thrown?;
  }

  lemma TurnAccounts(p: Pool, w: nat)
    requires Orderly(p) && Accounted(p) && w < |p.workers| && p.workers[w].Ready?
    ensures Accounted(TurnOf(p, w))
  {
    TurnBooks(p, w);
    TurnNotes(p, w);
  }

  lemma TurnBooks(p: Pool, w: nat)
    requires Booked(p) && w < |p.workers| && p.workers[w].Ready?
    ensures Booked(TurnOf(p, w))
  {
    ThrownStays(p, Turn(w));
  }

  lemma TurnNotes(p: Pool, w: nat)
    requires Noted(p) && w < |p.workers| && p.workers[w].Ready?
    ensures Noted(TurnOf(p, w))
  {
    var found := FindFrom(p, 0);
    var worker := TurnOf(p, w).workers[w];
    if worker.Busy? {
      NotSettled(p, worker.task);
    }
    NotedTurn(p, w, worker);
  }

  /** A question that can be taken has not been submitted. */
  lemma NotSettled(p: Pool, i: nat)
    requires Noted(p) && i < |p.tasks| && Dispatchable(p, i)
    ensures i !in p.settled
  {
    assert i in p.settled ==> p.tasks[i].Key() in KeysOf(p.tasks, p.settled);
  }

  lemma NotedTurn(p: Pool, w: nat, worker: Worker)
    requires Noted(p) && w < |p.workers| && (worker.Busy? ==> worker.task !in p.settled)
    ensures Noted(p.(workers := p.workers[w := worker]))
  {
  }

  lemma SettleAgrees(p: Pool, w: nat, outcome: Outcome)
    requires Agrees(p.tally, p.items) && Enabled(p, Settle(w, outcome))
    ensures var q := SettleOf(p, w, outcome); Agrees(q.tally, q.items)
  {
    var q := SettleOf(p, w, outcome);
    if outcome.Error? && (p.aborted || outcome.fatal) {
      AgreesSame(p.tally, q.tally, p.items);
    } else {
      var item := ResultOf(p, p.workers[w].task, outcome.SaidRight?);
      AgreesMore(p.tally, p.items, item);
      AgreesSame(WithResult(p.tally, item.status), q.tally, p.items + [item]);
    }
  }

  /** A submission that ends is processed, and has a result unless its worker throws. */
  lemma SettleTally(p: Pool, w: nat, outcome: Outcome)
    requires Enabled(p, Settle(w, outcome))
    ensures var q := SettleOf(p, w, outcome);
      && q.tasks == p.tasks && q.settled == p.settled + {p.workers[w].task}
      && q.tally.total == p.tally.total && q.tally.processed == p.tally.processed + 1
      && ((outcome.Error? && (p.aborted || outcome.fatal))
          || q.tally.completed + q.tally.failed + q.tally.skipped
             == p.tally.completed + p.tally.failed + p.tally.skipped + 1)
  {
  }

  lemma OneMoreSettled(settled: set<nat>, i: nat)
    requires i !in settled
    ensures |settled + {i}| == |settled| + 1
  {
  }

  lemma SettleBooks(p: Pool, w: nat, outcome: Outcome)
    requires Booked(p) && Noted(p) && Enabled(p, Settle(w, outcome))
    ensures Booked(SettleOf(p, w, outcome))
  {
    SettleAgrees(p, w, outcome);
    SettleTally(p, w, outcome);
    ThrownStays(p, Settle(w, outcome));
    SettleThrows(p, w, outcome);
    OneMoreSettled(p.settled, p.workers[w].task);
  }

  lemma SettleNotes(p: Pool, w: nat, outcome: Outcome)
    requires Orderly(p) && Noted(p) && Enabled(p, Settle(w, outcome))
    ensures Noted(SettleOf(p, w, outcome))
  {
    var q := SettleOf(p, w, outcome);
    SettledWorkers(p, w, outcome);
    NoteMore(p, w, q.workers);
  }

  lemma SettledWorkers(p: Pool, w: nat, outcome: Outcome)
    requires Enabled(p, Settle(w, outcome))
    ensures var q := SettleOf(p, w, outcome);
      && |q.workers| == |p.workers| && !q.workers[w].Busy?
      && forall v | 0 <= v < |p.workers| && v != w && q.workers[v].Busy? :: q.workers[v] == p.workers[v]
  {
  }

  lemma NoteMore(p: Pool, w: nat, workers: seq<Worker>)
    requires Orderly(p) && Noted(p) && Enabled(p, Settle(w, SaidRight))
    requires |workers| == |p.workers| && !workers[w].Busy?
    requires forall v | 0 <= v < |workers| && v != w && workers[v].Busy? :: workers[v] == p.workers[v]
    ensures var i := p.workers[w].task;
      Noted(p.(workers := workers, done := p.done + {p.tasks[i].Key()}, settled := p.settled + {i}))
  {
    var i := p.workers[w].task;
    NotAnswered(p.tasks, i);
    KeysOfMore(p.tasks, p.settled, i);
    OthersBusy(p, w, workers);
  }

  lemma KeysOfMore(tasks: seq<Task>, settled: set<nat>, i: nat)
    requires i < |tasks|
    ensures KeysOf(tasks, settled + {i}) == KeysOf(tasks, settled) + {tasks[i].Key()}
  {
  }

  lemma OthersBusy(p: Pool, w: nat, workers: seq<Worker>)
    requires HeldApart(p.tasks, p.workers, p.done) && w < |p.workers| == |workers| && p.workers[w].Busy?
      && !workers[w].Busy?
    requires forall v | 0 <= v < |p.workers| && p.workers[v].Busy? :: p.workers[v].task !in p.settled
    requires forall v | 0 <= v < |workers| && v != w && workers[v].Busy? :: workers[v] == p.workers[v]
    ensures forall v | 0 <= v < |workers| && workers[v].Busy? :: workers[v].task !in p.settled + {p.workers[w].task}
  {
    forall v | 0 <= v < |workers| && workers[v].Busy? ensures workers[v].task !in p.settled + {p.workers[w].task} {
      Apart(p, v, w);
    }
  }

  lemma Apart(p: Pool, v: nat, w: nat)
    requires HeldApart(p.tasks, p.workers, p.done) && v < |p.workers| && w < |p.workers| && v != w
    requires p.workers[v].Busy? && p.workers[w].Busy?
    ensures p.workers[v].task != p.workers[w].task
  {
    if v < w {
      assert p.tasks[p.workers[v].task].Key() != p.tasks[p.workers[w].task].Key();
    } else {
      assert p.tasks[p.workers[w].task].Key() != p.tasks[p.workers[v].task].Key();
    }
  }

  lemma NotAnswered(tasks: seq<Task>, i: nat)
    requires i < |tasks| && tasks[i].Key() !in Opened(tasks).1
    ensures !tasks[i].problem.answered
  {
    OpenedKeys(tasks);
    assert tasks[i].problem.answered ==> i in AnsweredBefore(tasks);
  }

  lemma StepAccounts(p: Pool, e: Event)
    requires Orderly(p) && Accounted(p) && Enabled(p, e)
    ensures Accounted(Step(p, e))
  {
    match e
    case Turn(w) => TurnAccounts(p, w);
    case Settle(w, outcome) =>
      SettleBooks(p, w, outcome);
      SettleNotes(p, w, outcome);
    case Fail(w) => FailAccounts(p, w);
    case _ => WakingAccounts(p);
  }

  lemma WakingAccounts(p: Pool)
    requires Accounted(p)
    ensures Accounted(Wake(p))
  {
    ThrownStays(p, OtherMessage);
  }

  lemma StepBlames(p: Pool, e: Event)
    requires Blamed(p) && Enabled(p, e)
    ensures Blamed(Step(p, e))
  {
    var q := Step(p, e);
    if e.Fail? {
      assert q.workers[e.worker].Thrown?;
    } else {
      OthersThrowNothing(p, e);
      forall w | 0 <= w < |p.workers| ensures p.workers[w].Thrown? <==> q.workers[w].Thrown? {
      }
    }
  }

  /** Only an error that is told makes a worker end as one that has thrown. */
  lemma OthersThrowNothing(p: Pool, e: Event)
    requires Enabled(p, e) && !e.Fail?
    ensures var q := Step(p, e);
      && q.fatal == p.fatal && |q.workers| == |p.workers|
      && forall w | 0 <= w < |p.workers| :: p.workers[w].Thrown? <==> q.workers[w].Thrown?
  {
    match e
    case Turn(w) => TurnWorkers(p, w);
    case Settle(w, outcome) => SettleWorkers(p, w, outcome);
    case _ =>
  }

  // ---------------------------------------------------------------- runs

  predicate Sound(p: Pool) {
    Orderly(p) && Accounted(p) && Blamed(p) && NoLostWakeup(p)
  }

  lemma StartIsOrderly(tasks: seq<Task>, answers: map<(int, int), Answer>, finished: bool, aborted: bool, workers: nat)
    ensures Orderly(Start(tasks, answers, finished, aborted, workers))
  {
    var p := Start(tasks, answers, finished, aborted, workers);
    assert Opened(tasks).1 <= p.done;
    assert p.log == [];
    assert forall w | 0 <= w < |p.workers| :: p.workers[w].Ready?;
  }

  lemma StartAccounts(tasks: seq<Task>, answers: map<(int, int), Answer>, finished: bool, aborted: bool, workers: nat)
    ensures Accounted(Start(tasks, answers, finished, aborted, workers))
  {
    OpenedAgrees(tasks);
    OpenedCounts(tasks);
    assert KeysOf(tasks, {}) == {};
  }

  lemma StartIsAwake(tasks: seq<Task>, answers: map<(int, int), Answer>, finished: bool, aborted: bool, workers: nat)
    ensures Blamed(Start(tasks, answers, finished, aborted, workers))
    ensures NoLostWakeup(Start(tasks, answers, finished, aborted, workers))
  {
  }

  lemma StartIsSound(tasks: seq<Task>, answers: map<(int, int), Answer>, finished: bool, aborted: bool, workers: nat)
    ensures Sound(Start(tasks, answers, finished, aborted, workers))
  {
    StartIsOrderly(tasks, answers, finished, aborted, workers);
    StartAccounts(tasks, answers, finished, aborted, workers);
    StartIsAwake(tasks, answers, finished, aborted, workers);
  }

  lemma StepIsSound(p: Pool, e: Event)
    requires Sound(p) && Enabled(p, e)
    ensures Sound(Step(p, e)) && Step(p, e).tasks == p.tasks && |Step(p, e).workers| == |p.workers|
  {
    StepKeepsShape(p, e);
    StepIsOrderly(p, e);
    StepAccounts(p, e);
    StepBlames(p, e);
    StepWakesNobodyTooLate(p, e);
  }

  /** After any interleaving: no worker sleeps while there is something to take or a reason
      to leave, no question has been submitted twice, none that was answered before, each
      with an answer to its own version, and the books are right. */
  lemma {:induction false} RunIsSound(p: Pool, events: seq<Event>, q: Pool)
    requires Sound(p) && Reaches(p, events, q)
    ensures Sound(q) && q.tasks == p.tasks && |q.workers| == |p.workers|
    decreases |events|
  {
    if events != [] {
      StepIsSound(p, events[0]);
      RunIsSound(Step(p, events[0]), events[1..], q);
    }
  }

  /** The pool only stands still when it is waiting for answers that it does not have: the
      producer is not done, and no open question has an answer to its version. */
  lemma StandsStillOnlyForAnswers(p: Pool)
    requires Sound(p) && Idle(p.workers)
    requires exists w :: 0 <= w < |p.workers| && p.workers[w].Sleeping?
    ensures !p.producerFinished && !p.aborted && !p.fatal
    ensures forall i | 0 <= i < |p.tasks| && p.tasks[i].Key() !in p.done ::
      p.tasks[i].Key() !in p.answers || p.answers[p.tasks[i].Key()].version != p.tasks[i].problem.version
  {
    var w :| 0 <= w < |p.workers| && p.workers[w].Sleeping?;
    assert Quiet(p);
    forall i | 0 <= i < |p.tasks| && p.tasks[i].Key() !in p.done
      ensures p.tasks[i].Key() !in p.answers || p.answers[p.tasks[i].Key()].version != p.tasks[i].problem.version
    {
      assert !Dispatchable(p, i);
      assert !InFlight(p.tasks, p.workers, p.tasks[i].Key());
    }
  }
}
