/**
 What one stretch of a homework worker does (server/workflow/workers/homework.js:10-49), told by
 the questions, the answers and the results rather than by the steps of the pool.
 */
module HomeworkResults {
  import opened Options
  import opened Homework
  import opened HomeworkReviews

  // ---------------------------------------------------------------- opening the books

  /** The result of a question that was answered before. */
  function Found(task: Task): Item {
    Item(task.leaf, Some(task.problem.id), if task.problem.verdict == Wrong then WrongExisting else Skipped)
  }

  function AnsweredIn(tasks: seq<Task>): set<nat> {
    set i: nat | i < |tasks| && tasks[i].problem.answered
  }

  function WrongIn(tasks: seq<Task>): set<nat> {
    set i: nat | i < |tasks| && tasks[i].problem.answered && tasks[i].problem.verdict == Wrong
  }

  lemma AnsweredMore(init: seq<Task>, task: Task)
    ensures |AnsweredIn(init + [task])| == |AnsweredIn(init)| + if task.problem.answered then 1 else 0
  {
    assert AnsweredIn(init + [task]) == AnsweredIn(init) + if task.problem.answered then {|init|} else {};
  }

  lemma WrongMore(init: seq<Task>, task: Task)
    ensures |WrongIn(init + [task])| ==
      |WrongIn(init)| + if task.problem.answered && task.problem.verdict == Wrong then 1 else 0
  {
    var wrong := task.problem.answered && task.problem.verdict == Wrong;
    assert WrongIn(init + [task]) == WrongIn(init) + if wrong then {|init|} else {};
  }

  /** What was answered before is processed as skipped, and counted as wrong if it was. */
  lemma {:induction false} OpenedIs(tasks: seq<Task>)
    ensures var (t, done, items) := Opened(tasks);
      && t == Tally(|tasks|, |AnsweredIn(tasks)|, 0, |AnsweredIn(tasks)|, 0, |WrongIn(tasks)|)
      && |items| == |AnsweredIn(tasks)|
  {
    if tasks == [] {
      assert AnsweredIn(tasks) == {} && WrongIn(tasks) == {};
    } else {
      var init, task := tasks[..|tasks| - 1], tasks[|tasks| - 1];
      OpenedIs(init);
      AnsweredMore(init, task);
      WrongMore(init, task);
      assert tasks == init + [task];
    }
  }

  /** It is done, and nothing else is. */
  lemma {:induction false} OpenedDone(tasks: seq<Task>, key: (int, int))
    ensures key in Opened(tasks).1 <==>
      exists i | 0 <= i < |tasks| :: tasks[i].problem.answered && tasks[i].Key() == key
  {
    if tasks != [] {
      OpenedDone(tasks[..|tasks| - 1], key);
    }
  }

  /** Its result says that it was skipped, or that it had been answered wrongly. */
  lemma {:induction false} OpenedItemsAre(tasks: seq<Task>, item: Item)
    ensures item in Opened(tasks).2 <==>
      exists i | 0 <= i < |tasks| :: tasks[i].problem.answered && item == Found(tasks[i])
  {
    if tasks != [] {
      OpenedItemsAre(tasks[..|tasks| - 1], item);
    }
  }

  // ---------------------------------------------------------------- a worker's turn

  /** Nobody has done the question or works on it, and the answer on hand is to its version. */
  predicate Takeable(p: Pool, i: nat) {
    && i < |p.tasks| && p.tasks[i].Key() !in p.done
    && (forall v | 0 <= v < |p.workers| && p.workers[v].Busy? && p.workers[v].task < |p.tasks| ::
          p.tasks[p.workers[v].task].Key() != p.tasks[i].Key())
    && p.tasks[i].Key() in p.answers && p.answers[p.tasks[i].Key()].version == p.tasks[i].problem.version
  }

  lemma TakeableIs(p: Pool, i: nat)
    requires i < |p.tasks|
    ensures Takeable(p, i) <==> Dispatchable(p, i)
  {
    var key := p.tasks[i].Key();
    forall v | 0 <= v < |p.workers| ensures Holds(p.tasks, p.workers[v], key) <==>
      p.workers[v].Busy? && p.workers[v].task < |p.tasks| && p.tasks[p.workers[v].task].Key() == key
    {
    }
  }

  predicate NothingToTake(p: Pool) {
    forall i | 0 <= i < |p.tasks| :: !Takeable(p, i)
  }

  predicate FirstToTake(p: Pool, i: nat) {
    Takeable(p, i) && forall j | 0 <= j < i :: !Takeable(p, j)
  }

  lemma {:induction false} FindsFirst(p: Pool, i: nat)
    requires i <= |p.tasks| && forall j | 0 <= j < i :: !Takeable(p, j)
    ensures var r := FindFrom(p, i);
      if r.Some? then FirstToTake(p, r.value) else NothingToTake(p)
    decreases |p.tasks| - i
  {
    if i < |p.tasks| {
      TakeableIs(p, i);
      if !Takeable(p, i) {
        FindsFirst(p, i + 1);
      }
    }
  }

  /** A worker gives up if the work has been aborted or has failed; it submits the first question
      that can be taken, with the answer on hand; with none it returns if all questions are done,
      or if no answer will come any more and nobody is submitting; and else it sleeps. */
  lemma TurnIs(p: Pool, w: nat)
    requires w < |p.workers| && p.workers[w].Ready?
    ensures var q := Step(p, Turn(w));
      && q == p.(workers := q.workers, log := q.log)
      && q.workers == p.workers[w := q.workers[w]]
      && (q.workers[w] == Failing <==> p.aborted || p.fatal)
      && (q.workers[w].Busy? <==> !p.aborted && !p.fatal && !NothingToTake(p))
      && (q.workers[w].Busy? ==>
            && FirstToTake(p, q.workers[w].task)
            && q.log == p.log + [Sent(q.workers[w].task, p.answers[p.tasks[q.workers[w].task].Key()])])
      && (!q.workers[w].Busy? ==> q.log == p.log)
      && (q.workers[w] == Returned <==>
            && !p.aborted && !p.fatal && NothingToTake(p)
            && (|p.done| == |p.tasks| ||
                (p.producerFinished && forall v | 0 <= v < |p.workers| :: !p.workers[v].Busy?)))
      && (q.workers[w] == Failing || q.workers[w].Busy? || q.workers[w] == Returned || q.workers[w] == Sleeping)
  {
    FindsFirst(p, 0);
    var r := FindFrom(p, 0);
    assert r.Some? ==> FirstToTake(p, r.value) && Takeable(p, r.value);
  }

  // ---------------------------------------------------------------- the end of a submission

  /** A submission that came back is one more result, completed exactly if the platform says that
      the answer is right. One that failed is a failed result, unless its error ends the worker:
      then there is none. In any case the question is done and processed, and all who slept look
      again. */
  lemma SettleIs(p: Pool, w: nat, outcome: Outcome)
    requires w < |p.workers| && p.workers[w].Busy? && p.workers[w].task < |p.tasks|
    ensures var q := Step(p, Settle(w, outcome));
      var task := p.tasks[p.workers[w].task];
      var ends := outcome.Error? && (p.aborted || outcome.fatal);
      && q.done == p.done + {task.Key()} && q.settled == p.settled + {p.workers[w].task}
      && q.items == (if ends then p.items
                     else p.items + [Item(task.leaf, Some(task.problem.id),
                                          if outcome == SaidRight then Completed else Failed)])
      && q.tally == p.tally.(processed := p.tally.processed + 1,
                             completed := p.tally.completed + (if outcome == SaidRight then 1 else 0),
                             failed := p.tally.failed + (if ends || outcome == SaidRight then 0 else 1))
      && |q.workers| == |p.workers| && q.workers[w] == (if ends then Failing else Ready)
      && (forall v | 0 <= v < |p.workers| && v != w ::
            q.workers[v] == if p.workers[v] == Sleeping then Ready else p.workers[v])
  {
  }

  // ---------------------------------------------------------------- what is left

  lemma OpenMore(init: seq<Task>, task: Task, done: set<(int, int)>)
    ensures |Open(init + [task], done)| == |Open(init, done)| + if task.Key() in done then 0 else 1
  {
    assert Open(init + [task], done) == Open(init, done) + if task.Key() in done then {} else {|init|};
  }

  /** Every question that is not done counts as processed and failed. */
  lemma {:induction false} MissedCount(tasks: seq<Task>, done: set<(int, int)>, t: Tally, items: seq<Item>)
    ensures var (t', items') := Missed(tasks, done, t, items);
      && items <= items' && |items'| == |items| + |Open(tasks, done)|
      && t' == t.(failed := t.failed + |Open(tasks, done)|, processed := t.processed + |Open(tasks, done)|)
  {
    if tasks == [] {
      assert Open(tasks, done) == {};
    } else {
      var init, task := tasks[..|tasks| - 1], tasks[|tasks| - 1];
      assert tasks == init + [task];
      MissedCount(init, done, t, items);
      OpenMore(init, task, done);
    }
  }

  /** It is reported as lacking an answer. */
  lemma {:induction false} MissedAre(tasks: seq<Task>, done: set<(int, int)>, t: Tally, items: seq<Item>, i: nat)
    requires i < |tasks| && tasks[i].Key() !in done
    ensures exists k | |items| <= k < |Missed(tasks, done, t, items).1| ::
      Missed(tasks, done, t, items).1[k] == Item(tasks[i].leaf, Some(tasks[i].problem.id), MissingAnswer)
  {
    var n := |tasks| - 1;
    var before, after := Missed(tasks[..n], done, t, items).1, Missed(tasks, done, t, items).1;
    MissedCount(tasks[..n], done, t, items);
    if i < n {
      MissedAre(tasks[..n], done, t, items, i);
      var k :| |items| <= k < |before| && before[k] == Item(tasks[i].leaf, Some(tasks[i].problem.id), MissingAnswer);
      assert after[k] == before[k];
    } else {
      assert after[|before|] == Item(tasks[i].leaf, Some(tasks[i].problem.id), MissingAnswer);
    }
  }

  /** And nothing else is. */
  lemma {:induction false} OnlyMissed(tasks: seq<Task>, done: set<(int, int)>, t: Tally, items: seq<Item>, k: nat)
    requires |items| <= k < |Missed(tasks, done, t, items).1|
    ensures var item := Missed(tasks, done, t, items).1[k];
      exists i | 0 <= i < |tasks| ::
        tasks[i].Key() !in done && item == Item(tasks[i].leaf, Some(tasks[i].problem.id), MissingAnswer)
  {
    var n := |tasks| - 1;
    var before := Missed(tasks[..n], done, t, items).1;
    if k < |before| {
      OnlyMissed(tasks[..n], done, t, items, k);
      var i :| 0 <= i < n && tasks[..n][i].Key() !in done
        && before[k] == Item(tasks[..n][i].leaf, Some(tasks[..n][i].problem.id), MissingAnswer);
      assert tasks[i] == tasks[..n][i];
    }
  }
}
