/** The homework worker pool as an object (server/workflow/workers/homework.js:3-66). */
module HomeworkPools {
  import opened Options
  import opened Homework
  import opened HomeworkReviews

  type Key = (int, int)

  /** The keys that the workers hold. */
  function Held(tasks: seq<Task>, workers: seq<Worker>): set<Key> {
    set w | 0 <= w < |workers| && workers[w].Busy? && workers[w].task < |tasks| :: tasks[workers[w].task].Key()
  }

  function Asleep(workers: seq<Worker>): set<nat> {
    set w: nat | w < |workers| && workers[w].Sleeping?
  }

  lemma HeldIsInFlight(tasks: seq<Task>, workers: seq<Worker>, key: Key)
    ensures key in Held(tasks, workers) <==> InFlight(tasks, workers, key)
  {
    if InFlight(tasks, workers, key) {
      var w :| 0 <= w < |workers| && Homework.Holds(tasks, workers[w], key);
    }
  }

  predicate InRange(tasks: seq<Task>, workers: seq<Worker>) {
    forall w | 0 <= w < |workers| && workers[w].Busy? :: workers[w].task < |tasks|
  }

  lemma HeldSame(tasks: seq<Task>, workers: seq<Worker>, workers': seq<Worker>)
    requires SameBusy(workers, workers')
    ensures Held(tasks, workers') == Held(tasks, workers)
  {
    forall key ensures key in Held(tasks, workers') <==> key in Held(tasks, workers) {
      HeldIsInFlight(tasks, workers, key);
      HeldIsInFlight(tasks, workers', key);
      SameInFlight(tasks, workers, workers', key);
    }
  }

  lemma HeldMore(tasks: seq<Task>, workers: seq<Worker>, w: nat, i: nat)
    requires w < |workers| && !workers[w].Busy? && i < |tasks|
    ensures Held(tasks, workers[w := Busy(i)]) == Held(tasks, workers) + {tasks[i].Key()}
  {
    var workers' := workers[w := Busy(i)];
    assert workers'[w] == Busy(i);
    forall v | 0 <= v < |workers| && v != w ensures workers'[v] == workers[v] {
    }
  }

  lemma HeldLess(tasks: seq<Task>, workers: seq<Worker>, done: set<Key>, w: nat, next: Worker)
    requires HeldApart(tasks, workers, done) && w < |workers| && workers[w].Busy? && !next.Busy?
    ensures Held(tasks, workers[w := next]) == Held(tasks, workers) - {tasks[workers[w].task].Key()}
  {
    var workers' := workers[w := next];
    var mine := tasks[workers[w].task].Key();
    forall v | 0 <= v < |workers| && v != w && workers[v].Busy? ensures tasks[workers[v].task].Key() != mine {
      if v < w {
      } else {
        assert tasks[workers[w].task].Key() != tasks[workers[v].task].Key();
      }
    }
    forall key | key in Held(tasks, workers) && key != mine ensures key in Held(tasks, workers') {
      var v :| 0 <= v < |workers| && workers[v].Busy? && workers[v].task < |tasks|
        && tasks[workers[v].task].Key() == key;
      assert workers'[v] == workers[v];
    }
  }

  lemma IdleIsEmpty(tasks: seq<Task>, workers: seq<Worker>)
    requires InRange(tasks, workers)
    ensures Idle(workers) <==> Held(tasks, workers) == {}
  {
    if !Idle(workers) {
      var w :| 0 <= w < |workers| && workers[w].Busy?;
      assert tasks[workers[w].task].Key() in Held(tasks, workers);
    }
  }

  lemma NobodyIsBusy(tasks: seq<Task>, workers: seq<Worker>)
    requires forall w | 0 <= w < |workers| :: workers[w].Ready?
    ensures Held(tasks, workers) == {} && Asleep(workers) == {}
  {
  }

  lemma SoundFromTheStart(p: Pool, tasks: seq<Task>, answers: map<Key, Answer>, finished: bool, aborted: bool,
        workers: nat)
    requires p == Start(tasks, answers, finished, aborted, workers)
    ensures Sound(p)
  {
    StartIsSound(tasks, answers, finished, aborted, workers);
  }

  class Runner {
    const tasks: seq<Task>
    var answers: map<Key, Answer>
    var done: set<Key>
    var inFlight: set<Key>
    var sleepers: set<nat>
    var workers: seq<Worker>
    var producerFinished: bool
    var fatal: bool
    var aborted: bool
    var tally: Tally
    var items: seq<Item>
    ghost var log: seq<Sent>
    ghost var settled: set<nat>

    ghost function View(): Pool
      reads this
    {
      Pool(tasks, answers, done, workers, producerFinished, fatal, aborted, tally, items, log, settled)
    }

    /** The sets of keys in flight and of sleepers say what the workers are doing. */
    ghost predicate Tracked()
      reads this
    {
      inFlight == Held(tasks, workers) && sleepers == Asleep(workers)
    }

    ghost predicate Valid()
      reads this
    {
      Sound(View()) && Tracked()
    }

    constructor (tasks: seq<Task>, answers: map<Key, Answer>, producerFinished: bool, aborted: bool, concurrency: nat)
      ensures Valid()
      ensures View() == Start(tasks, answers, producerFinished, aborted, concurrency)
    {
      var tally, done, items := OpenBooks(tasks);
      var ready := AllReady(concurrency);
      this.tasks, this.answers, this.done, this.items, this.tally := tasks, answers, done, items, tally;
      inFlight, sleepers, workers := {}, {}, ready;
      this.producerFinished, fatal, this.aborted := producerFinished, false, aborted;
      log, settled := [], {};
      new;
      NobodyIsBusy(this.tasks, workers);
      assert Tracked();
      SoundFromTheStart(View(), tasks, answers, producerFinished, aborted, concurrency);
    }

    /** The first question that can be taken. */
    method FindTask() returns (found: Option<nat>)
      requires Tracked()
      ensures found == FindFrom(View(), 0)
    {
      var i := 0;
      while i < |tasks|
        invariant i <= |tasks| && FindFrom(View(), 0) == FindFrom(View(), i)
      {
        var key := tasks[i].Key();
        HeldIsInFlight(tasks, workers, key);
        if key !in done && key !in inFlight && key in answers && answers[key].version == tasks[i].problem.version {
          return Some(i);
        }
        i := i + 1;
      }
      found := None;
    }

    method WakeAll()
      requires Tracked()
      modifies this`sleepers, this`workers
      ensures workers == Woken(old(workers)) && Tracked()
    {
      var woken := workers;
      var rest := sleepers;
      while rest != {}
        invariant |woken| == |workers| && rest <= sleepers
        invariant forall w | 0 <= w < |workers| ::
          woken[w] == if workers[w].Sleeping? && w !in rest then Ready else workers[w]
        decreases |rest|
      {
        var w :| w in rest;
        woken := woken[w := Ready];
        rest := rest - {w};
      }
      HeldSame(tasks, workers, woken);
      workers := woken;
      sleepers := {};
    }

    /** The worker's promise is rejected: the others are told and woken. */
    method Tell(w: nat)
      requires Tracked() && Enabled(View(), Event.Fail(w))
      modifies this`fatal, this`sleepers, this`workers
      ensures View() == Step(old(View()), Event.Fail(w)) && Tracked()
    {
      fatal := true;
      HeldSame(tasks, workers, workers[w := Thrown]);
      workers := workers[w := Thrown];
      WakeAll();
    }

    /** The worker leaves, or falls asleep. */
    method Rest(w: nat)
      requires Tracked() && InRange(tasks, workers) && w < |workers| && workers[w].Ready?
      modifies this`sleepers, this`workers
      ensures Tracked()
      ensures workers == old(workers)[w := if Finished(old(View())) then Returned else Sleeping]
    {
      IdleIsEmpty(tasks, workers);
      var rest := if |done| == |tasks| || (producerFinished && inFlight == {}) then Returned else Sleeping;
      HeldSame(tasks, workers, workers[w := rest]);
      if rest == Sleeping {
        sleepers := sleepers + {w};
      }
      workers := workers[w := rest];
    }

    method Take(w: nat, i: nat) returns (taken: Sent)
      requires Tracked() && w < |workers| && workers[w].Ready? && i < |tasks| && tasks[i].Key() in answers
      modifies this`inFlight, this`workers, this`log
      ensures Tracked() && taken == Sent(i, answers[tasks[i].Key()])
      ensures workers == old(workers)[w := Busy(i)] && log == old(log) + [taken]
    {
      HeldMore(tasks, workers, w, i);
      inFlight := inFlight + {tasks[i].Key()};
      workers := workers[w := Busy(i)];
      taken := Sent(i, answers[tasks[i].Key()]);
      log := log + [taken];
    }

    method Proceed(w: nat) returns (taken: Option<Sent>)
      requires Tracked() && InRange(tasks, workers) && Enabled(View(), Turn(w))
      modifies this
      ensures Tracked() && View() == Step(old(View()), Turn(w))
      ensures taken.Some? <==> workers[w].Busy?
      ensures taken.Some? ==> log == old(log) + [taken.value]
    {
      taken := None;
      if aborted || fatal {
        HeldSame(tasks, workers, workers[w := Failing]);
        workers := workers[w := Failing];
        return;
      }
      var found := FindTask();
      if found.None? {
        Rest(w);
      } else {
        var sent := Take(w, found.value);
        taken := Some(sent);
      }
    }

    /** What a worker does until it waits: it takes a question, leaves, falls asleep, or throws. */
    method TakeTurn(w: nat) returns (taken: Option<Sent>)
      requires Valid() && Enabled(View(), Turn(w))
      modifies this
      ensures Valid() && View() == Step(old(View()), Turn(w))
      ensures taken.Some? <==> workers[w].Busy?
      ensures taken.Some? ==> log == old(log) + [taken.value]
    {
      StepIsSound(View(), Turn(w));
      taken := Proceed(w);
    }

    /** The result of a submission. */
    method Count(i: nat, right: bool)
      requires i < |tasks|
      modifies this`tally, this`items
      ensures View() == Counted(old(View()), i, right)
    {
      if right {
        tally := tally.(completed := tally.completed + 1);
      } else {
        tally := tally.(failed := tally.failed + 1);
      }
      items := items + [Item(tasks[i].leaf, Some(tasks[i].problem.id), if right then Completed else Failed)];
    }

    /** Whatever the result: the question is done, and everyone is woken. */
    method Close(w: nat, next: Worker)
      requires Tracked() && HeldApart(tasks, workers, done) && w < |workers| && workers[w].Busy?
      requires next.Ready? || next.Failing?
      modifies this`done, this`inFlight, this`tally, this`settled, this`workers, this`sleepers
      ensures Tracked() && View() == Closed(old(View()), w, old(workers[w].task), next)
    {
      var i := workers[w].task;
      HeldLess(tasks, workers, done, w, next);
      done := done + {tasks[i].Key()};
      inFlight := inFlight - {tasks[i].Key()};
      tally := tally.(processed := tally.processed + 1);
      settled := settled + {i};
      workers := workers[w := next];
      WakeAll();
    }

    method Finish(w: nat, outcome: Outcome)
      requires Tracked() && HeldApart(tasks, workers, done) && Enabled(View(), Event.Settle(w, outcome))
      modifies this
      ensures Tracked() && View() == Step(old(View()), Event.Settle(w, outcome))
    {
      if outcome.Error? && (aborted || outcome.fatal) {
        Close(w, Failing);
      } else {
        Count(workers[w].task, outcome.SaidRight?);
        Close(w, Ready);
      }
    }

    /** The answer to a submission: it is counted, and whatever it is the question is done. */
    method Settle(w: nat, outcome: Outcome)
      requires Valid() && Enabled(View(), Event.Settle(w, outcome))
      modifies this
      ensures Valid() && View() == Step(old(View()), Event.Settle(w, outcome))
    {
      StepIsSound(View(), Event.Settle(w, outcome));
      Finish(w, outcome);
    }

    /** A worker that has thrown: the error is kept, and everyone is woken to see it. */
    method Fail(w: nat)
      requires Valid() && Enabled(View(), Event.Fail(w))
      modifies this
      ensures Valid() && View() == Step(old(View()), Event.Fail(w))
    {
      StepIsSound(View(), Event.Fail(w));
      Tell(w);
    }

    method Accept(e: Event)
      requires Tracked() && !e.Turn? && !e.Settle? && !e.Fail?
      modifies this
      ensures Tracked() && View() == Step(old(View()), e)
    {
      match e {
        case AnswerReady(key, answer) => answers := answers[key := answer];
        case AnswersComplete => producerFinished := true;
        case Abort => aborted := true;
        case _ =>
      }
      WakeAll();
    }

    /** A message from the producer, or an abort: everyone looks again. */
    method Receive(e: Event)
      requires Valid() && !e.Turn? && !e.Settle? && !e.Fail?
      modifies this
      ensures Valid() && View() == Step(old(View()), e)
    {
      StepIsSound(View(), e);
      Accept(e);
    }

    /** Once all workers have returned: the questions that never got an answer. */
    method ReportMissing()
      requires Tracked()
      modifies this`tally, this`items
      ensures (tally, items) == Missed(tasks, done, old(tally), old(items))
    {
      for n := 0 to |tasks|
        invariant (tally, items) == Missed(tasks[..n], done, old(tally), old(items))
      {
        assert tasks[..n + 1][..n] == tasks[..n];
        if tasks[n].Key() !in done {
          tally := tally.(failed := tally.failed + 1, processed := tally.processed + 1);
          items := items + [Item(tasks[n].leaf, Some(tasks[n].problem.id), MissingAnswer)];
        }
      }
      assert tasks[..|tasks|] == tasks;
    }

    /** Looks at one exercise again and corrects the results. */
    method ReviewOne(e: Exercise, listed: seq<Problem>)
      requires Agrees(tally, items)
      modifies this`tally, this`items
      ensures items == ReviewedAll(e, listed, old(items)) && Agrees(tally, items)
      ensures forall i | 0 <= i < |items| :: Regards(e, listed, old(items)[i], items[i])
      ensures tally.total == old(tally.total) && tally.processed == old(tally.processed)
    {
      ghost var before := items;
      var n := 0;
      while n < |items|
        invariant n <= |items| == |before| && Agrees(tally, items)
        invariant forall i | 0 <= i < |items| :: items[i] == if i < n then Reviewed(e, listed, before[i]) else before[i]
        invariant tally.total == old(tally.total) && tally.processed == old(tally.processed)
      {
        var item := items[n];
        if Reviewable(e, item) {
          var confirmed := Confirmed(e, listed, item.problem.value);
          if confirmed && item.status == Failed {
            Regraded(tally, items, n, Completed);
            items := items[n := item.(status := Completed)];
            tally := tally.(failed := tally.failed - 1, completed := tally.completed + 1);
          } else if !confirmed && item.status == Completed {
            Regraded(tally, items, n, Failed);
            items := items[n := item.(status := Failed)];
            tally := tally.(completed := tally.completed - 1, failed := tally.failed + 1);
          }
        }
        n := n + 1;
      }
      assert items == ReviewedAll(e, listed, before);
      forall i | 0 <= i < |items| ensures Regards(e, listed, before[i], items[i]) {
        ReviewedRegards(e, listed, before[i]);
      }
    }

    /** Looks at all exercises again; fails if one of the requests does. */
    method ReviewAll(exercises: seq<Exercise>, listed: seq<Option<seq<Problem>>>) returns (ok: bool)
      requires Agrees(tally, items) && |listed| == |exercises|
      modifies this`tally, this`items
      ensures ok <==> Review(exercises, listed, old(items)).Some?
      ensures ok ==> items == Review(exercises, listed, old(items)).value && Agrees(tally, items)
      ensures ok ==> tally.processed == old(tally.processed)
    {
      for n := 0 to |exercises|
        invariant Review(exercises[..n], listed[..n], old(items)) == Some(items)
        invariant Agrees(tally, items) && tally.processed == old(tally.processed)
      {
        ReviewNext(exercises, listed, old(items), n);
        if exercises[n].error {
          Block(exercises[n]);
        } else if listed[n].None? {
          ReviewFails(exercises, listed, old(items), n + 1);
          return false;
        } else {
          ReviewOne(exercises[n], listed[n].value);
        }
      }
      assert exercises[..|exercises|] == exercises && listed[..|exercises|] == listed;
      ok := true;
    }

    method Block(e: Exercise)
      requires Agrees(tally, items)
      modifies this`tally, this`items
      ensures items == old(items) + [Item(e.leaf, None, Blocked)] && Agrees(tally, items)
      ensures tally.processed == old(tally.processed)
    {
      AgreesMore(tally, items, Item(e.leaf, None, Blocked));
      tally := tally.(failed := tally.failed + 1);
      items := items + [Item(e.leaf, None, Blocked)];
    }

    /** The report of a run in which all workers have returned. */
    method Report(exercises: seq<Exercise>, listed: seq<Option<seq<Problem>>>) returns (ok: bool)
      requires Valid() && tasks == TasksOf(exercises) && |listed| == |exercises|
      requires AllReturned(View())
      modifies this
      ensures ok <==> forall n | 0 <= n < |exercises| :: exercises[n].error || listed[n].Some?
      ensures ok ==> Agrees(tally, items)
      ensures ok ==> tally.completed + tally.failed + tally.skipped == tally.processed + Errors(exercises)
      ensures ok ==> tally.processed + |Overlooked(old(View()))| == |tasks|
      ensures ok && RepeatsAreAnswered(tasks) ==> tally.processed == |tasks|
      ensures ok ==> Some(items) == Review(exercises, listed, Missed(tasks, done, old(tally), old(items)).1)
      ensures ok ==> Reported(exercises, listed, Missed(tasks, done, old(tally), old(items)).1, items)
    {
      ghost var p := View();
      OverlookedAreMissing(p);
      ReportMissing();
      ok := ReviewAll(exercises, listed);
      ReviewSucceeds(exercises, listed, Missed(p.tasks, p.done, p.tally, p.items).1);
      if ok {
        ReportAddsUp(p, exercises, listed, tally);
        ReviewReports(exercises, listed, Missed(p.tasks, p.done, p.tally, p.items).1);
      }
    }
  }

  method OpenBooks(tasks: seq<Task>) returns (tally: Tally, done: set<Key>, items: seq<Item>)
    ensures (tally, done, items) == Opened(tasks)
  {
    tally, done, items := Tally(0, 0, 0, 0, 0, 0), {}, [];
    for n := 0 to |tasks|
      invariant (tally, done, items) == Opened(tasks[..n])
    {
      assert tasks[..n + 1][..n] == tasks[..n];
      tally := tally.(total := tally.total + 1);
      if tasks[n].problem.answered {
        var wrong := tasks[n].problem.verdict == Wrong;
        done := done + {tasks[n].Key()};
        tally := tally.(processed := tally.processed + 1, skipped := tally.skipped + 1);
        if wrong {
          tally := tally.(wrongExisting := tally.wrongExisting + 1);
        }
        items := items + [Item(tasks[n].leaf, Some(tasks[n].problem.id), if wrong then WrongExisting else Skipped)];
      }
    }
    assert tasks[..|tasks|] == tasks;
  }

  lemma {:induction false} TalliedUpdate(items: seq<Item>, n: nat, status: Status, s: Status)
    requires n < |items|
    ensures Tallied(items[n := items[n].(status := status)], s)
         == Tallied(items, s) - (if items[n].status == s then 1 else 0) + if status == s then 1 else 0
  {
    var items' := items[n := items[n].(status := status)];
    if n < |items| - 1 {
      TalliedUpdate(items[..|items| - 1], n, status, s);
      assert items'[..|items| - 1] == items[..|items| - 1][n := items[n].(status := status)];
    } else {
      assert items'[..n] == items[..n];
    }
  }

  /** A result that moves between completed and failed. */
  lemma Regraded(t: Tally, items: seq<Item>, n: nat, status: Status)
    requires Agrees(t, items) && n < |items|
    requires (items[n].status == Failed && status == Completed) || (items[n].status == Completed && status == Failed)
    ensures var d := if status == Completed then 1 else -1;
      Agrees(t.(completed := t.completed + d, failed := t.failed - d), items[n := items[n].(status := status)])
  {
    TalliedUpdate(items, n, status, Completed);
    TalliedUpdate(items, n, status, Failed);
    TalliedUpdate(items, n, status, MissingAnswer);
    TalliedUpdate(items, n, status, Blocked);
    TalliedUpdate(items, n, status, Skipped);
    TalliedUpdate(items, n, status, WrongExisting);
  }

  lemma ReviewNext(exercises: seq<Exercise>, listed: seq<Option<seq<Problem>>>, items: seq<Item>, n: nat)
    requires |listed| == |exercises| && n < |exercises| && Review(exercises[..n], listed[..n], items).Some?
    ensures var r := Review(exercises[..n], listed[..n], items).value;
      Review(exercises[..n + 1], listed[..n + 1], items) ==
      if exercises[n].error then Some(r + [Item(exercises[n].leaf, None, Blocked)])
      else if listed[n].None? then None
      else Some(ReviewedAll(exercises[n], listed[n].value, r))
  {
    assert exercises[..n + 1][..n] == exercises[..n] && listed[..n + 1][..n] == listed[..n];
  }

  lemma {:induction false} ReviewFails(exercises: seq<Exercise>, listed: seq<Option<seq<Problem>>>, items: seq<Item>,
        n: nat)
    requires |listed| == |exercises| && n <= |exercises| && Review(exercises[..n], listed[..n], items).None?
    ensures Review(exercises, listed, items).None?
    decreases |exercises|
  {
    var m := |exercises|;
    if n == m {
      assert exercises[..n] == exercises && listed[..n] == listed;
    } else {
      assert exercises[..m - 1][..n] == exercises[..n] && listed[..m - 1][..n] == listed[..n];
      ReviewFails(exercises[..m - 1], listed[..m - 1], items, n);
    }
  }
}
