/**
 What the homework worker reports in the end (server/workflow/workers/homework.js:49-64):
 questions that never got an answer, and a last look at every exercise.
 */
module HomeworkReviews {
  import opened Options
  import opened Homework

  // ---------------------------------------------------------------- missing answers

  /** One more result for every question that is not done. */
  function Missed(tasks: seq<Task>, done: set<(int, int)>, t: Tally, items: seq<Item>): (Tally, seq<Item>) {
    if tasks == [] then (t, items)
    else
      var (t', items') := Missed(tasks[..|tasks| - 1], done, t, items);
      var task := tasks[|tasks| - 1];
      if task.Key() in done then (t', items')
      else
        (WithResult(t', MissingAnswer).(processed := t'.processed + 1),
         items' + [Item(task.leaf, Some(task.problem.id), MissingAnswer)])
  }

  function Open(tasks: seq<Task>, done: set<(int, int)>): set<nat> {
    set i: nat | i < |tasks| && tasks[i].Key() !in done
  }

  /** Questions that are done under the key of another one, and counted nowhere. */
  function Overlooked(p: Pool): set<nat> {
    set i: nat | i < |p.tasks| && !p.tasks[i].problem.answered && i !in p.settled && p.tasks[i].Key() in p.done
  }

  /** Of a question that is listed more than once every copy was answered before. */
  predicate RepeatsAreAnswered(tasks: seq<Task>) {
    forall i, j | 0 <= i < j < |tasks| && tasks[i].Key() == tasks[j].Key() ::
      tasks[i].problem.answered && tasks[j].problem.answered
  }

  predicate AllReturned(p: Pool) {
    forall w | 0 <= w < |p.workers| :: p.workers[w].Returned?
  }

  lemma {:induction false} MissedCounts(tasks: seq<Task>, done: set<(int, int)>, t: Tally, items: seq<Item>)
    requires Agrees(t, items)
    ensures var (t', items') := Missed(tasks, done, t, items);
      && Agrees(t', items') && t'.total == t.total
      && t'.processed == t.processed + |Open(tasks, done)|
      && t'.completed + t'.failed + t'.skipped == t.completed + t.failed + t.skipped + |Open(tasks, done)|
  {
    if tasks == [] {
      assert Open(tasks, done) == {};
    } else {
      var n := |tasks| - 1;
      MissedCounts(tasks[..n], done, t, items);
      var (t', items') := Missed(tasks[..n], done, t, items);
      if tasks[n].Key() in done {
        assert Open(tasks, done) == Open(tasks[..n], done);
      } else {
        assert Open(tasks, done) == Open(tasks[..n], done) + {n};
        var item := Item(tasks[n].leaf, Some(tasks[n].problem.id), MissingAnswer);
        AgreesMore(t', items', item);
        AgreesSame(WithResult(t', MissingAnswer), Missed(tasks, done, t, items).0, items' + [item]);
      }
    }
  }

  lemma {:induction false} CountBelow(s: set<nat>, n: nat)
    requires forall i: nat :: i in s <==> i < n
    ensures |s| == n
  {
    if n == 0 {
      assert s == {};
    } else {
      CountBelow(s - {n - 1}, n - 1);
    }
  }

  lemma Disjoint(a: set<nat>, b: set<nat>)
    requires a !! b
    ensures |a + b| == |a| + |b|
  {
  }

  /** Every question was answered before, has been submitted, is open, or was overlooked. */
  lemma Partition(p: Pool)
    requires Sound(p)
    ensures |p.tasks| == |AnsweredBefore(p.tasks)| + |p.settled| + |Open(p.tasks, p.done)| + |Overlooked(p)|
  {
    var a, s, o, v := AnsweredBefore(p.tasks), p.settled, Open(p.tasks, p.done), Overlooked(p);
    CountedAreDone(p);
    CountBelow(a + s + o + v, |p.tasks|);
    Disjoint(a, s);
    Disjoint(a + s, o);
    Disjoint(a + s + o, v);
  }

  lemma CountedAreDone(p: Pool)
    requires Sound(p)
    ensures forall i | i in AnsweredBefore(p.tasks) + p.settled :: i < |p.tasks| && p.tasks[i].Key() in p.done
  {
    OpenedKeys(p.tasks);
    forall i | i in AnsweredBefore(p.tasks) ensures p.tasks[i].Key() in p.done {
      assert p.tasks[i].Key() in KeysOf(p.tasks, AnsweredBefore(p.tasks));
    }
    forall i | i in p.settled ensures p.tasks[i].Key() in p.done {
      assert p.tasks[i].Key() in KeysOf(p.tasks, p.settled);
    }
  }

  lemma NothingIsOverlooked(p: Pool)
    requires Sound(p) && RepeatsAreAnswered(p.tasks)
    ensures Overlooked(p) == {}
  {
    OpenedKeys(p.tasks);
    forall i: nat | i < |p.tasks| && p.tasks[i].Key() in p.done
      ensures p.tasks[i].problem.answered || i in p.settled
    {
      var j: nat :| j < |p.tasks| && (j in p.settled || j in AnsweredBefore(p.tasks))
        && p.tasks[j].Key() == p.tasks[i].Key();
      assert i < j || j < i || j == i;
    }
  }

  /** When all workers have returned the questions that were overlooked, and no others, are
      missing among those processed. */
  lemma OverlookedAreMissing(p: Pool)
    requires Sound(p) && AllReturned(p)
    ensures var (t, items) := Missed(p.tasks, p.done, p.tally, p.items);
      && Agrees(t, items) && t.total == |p.tasks|
      && t.completed + t.failed + t.skipped == t.processed
      && t.processed + |Overlooked(p)| == t.total
  {
    MissedCounts(p.tasks, p.done, p.tally, p.items);
    Partition(p);
  }

  // ---------------------------------------------------------------- questions listed twice

  /** Every run with at least one worker, whatever the answers, that ends with all workers
      returned has processed every question. */
  ghost predicate AlwaysProcessesAll(tasks: seq<Task>) {
    forall answers, finished, aborted, workers: nat, events, q ::
      workers > 0 && Reaches(Start(tasks, answers, finished, aborted, workers), events, q) && AllReturned(q) ==>
        Missed(q.tasks, q.done, q.tally, q.items).0.processed == |tasks|
  }

  lemma Processes(tasks: seq<Task>, answers: map<(int, int), Answer>, finished: bool, aborted: bool, workers: nat,
        events: seq<Event>, q: Pool)
    requires Reaches(Start(tasks, answers, finished, aborted, workers), events, q) && AllReturned(q)
    ensures q.tasks == tasks && Sound(q)
    ensures Missed(q.tasks, q.done, q.tally, q.items).0.processed + |Overlooked(q)| == |tasks|
  {
    StartIsSound(tasks, answers, finished, aborted, workers);
    RunIsSound(Start(tasks, answers, finished, aborted, workers), events, q);
    OverlookedAreMissing(q);
  }

  /** A copy that was not answered, of a question that was: a worker that finds no answers
      leaves at once. */
  lemma LeftAtOnce(tasks: seq<Task>, i: nat) returns (q: Pool)
    requires i < |tasks| && !tasks[i].problem.answered && tasks[i].Key() in Opened(tasks).1
    ensures Reaches(Start(tasks, map[], true, false, 1), [Turn(0)], q) && AllReturned(q) && i in Overlooked(q)
  {
    var p := Start(tasks, map[], true, false, 1);
    assert p.workers == [Ready];
    q := Step(p, Turn(0));
    assert q.workers == [Returned];
    assert [Turn(0)][1..] == [] && Reaches(q, [], q);
  }

  /** An answer to one copy: the worker takes the first copy that it fits. */
  lemma TakesOne(tasks: seq<Task>, i: nat, answer: Answer) returns (q: Pool, m: nat)
    requires i < |tasks| && tasks[i].Key() !in Opened(tasks).1 && answer.version == tasks[i].problem.version
    ensures m < |tasks| && tasks[m].Key() == tasks[i].Key()
    ensures Reaches(Start(tasks, map[tasks[i].Key() := answer], true, false, 1), [Turn(0), Settle(0, SaidRight)], q)
    ensures q.tasks == tasks && q.workers == [Ready] && q.settled == {m} && tasks[m].Key() in q.done
    ensures q.answers == map[tasks[i].Key() := answer] && q.producerFinished && !q.aborted && !q.fatal
  {
    var p := Start(tasks, map[tasks[i].Key() := answer], true, false, 1);
    assert p.workers == [Ready];
    assert Dispatchable(p, i);
    m := FindFrom(p, 0).value;
    var a := Step(p, Turn(0));
    assert a.workers == [Busy(m)];
    q := Step(a, Settle(0, SaidRight));
    assert q.workers == [Ready];
    var events := [Turn(0), Settle(0, SaidRight)];
    assert events[1..] == [Settle(0, SaidRight)] && events[1..][1..] == [] && Reaches(q, [], q);
    assert Reaches(a, events[1..], q);
  }

  lemma {:induction false} ReachesMore(p: Pool, events: seq<Event>, q: Pool, e: Event)
    requires Reaches(p, events, q) && Enabled(q, e)
    ensures Reaches(p, events + [e], Step(q, e))
    decreases |events|
  {
    if events == [] {
      assert ([] + [e])[1..] == [] && Reaches(Step(q, e), [], Step(q, e));
    } else {
      ReachesMore(Step(p, events[0]), events[1..], q, e);
      assert (events + [e])[1..] == events[1..] + [e];
    }
  }

  /** Two copies that were not answered: one of them is taken, and nobody takes the other. */
  lemma LeftAfterOne(tasks: seq<Task>, i: nat, j: nat) returns (answers: map<(int, int), Answer>, q: Pool)
    requires i < j < |tasks| && tasks[i].Key() == tasks[j].Key() && tasks[i].Key() !in Opened(tasks).1
    requires !tasks[i].problem.answered && !tasks[j].problem.answered
    ensures Reaches(Start(tasks, answers, true, false, 1), [Turn(0), Settle(0, SaidRight)] + [Turn(0)], q)
    ensures AllReturned(q) && Overlooked(q) != {}
  {
    var answer := Answer(tasks[i].problem.version, "");
    answers := map[tasks[i].Key() := answer];
    var p, m := TakesOne(tasks, i, answer);
    q := Step(p, Turn(0));
    assert FindFrom(p, 0).None?;
    assert q.workers == [Returned];
    ReachesMore(Start(tasks, answers, true, false, 1), [Turn(0), Settle(0, SaidRight)], p, Turn(0));
    assert (if m == i then j else i) in Overlooked(q);
  }

  /** Copies of one question that were not all answered before: there is a run that ends with
      all workers returned and has not processed all questions. */
  lemma ListedTwice(tasks: seq<Task>, i: nat, j: nat)
    returns (answers: map<(int, int), Answer>, events: seq<Event>, q: Pool)
    requires i < j < |tasks| && tasks[i].Key() == tasks[j].Key()
    requires !(tasks[i].problem.answered && tasks[j].problem.answered)
    ensures Reaches(Start(tasks, answers, true, false, 1), events, q) && AllReturned(q)
    ensures Missed(q.tasks, q.done, q.tally, q.items).0.processed < |tasks|
  {
    if tasks[i].Key() in Opened(tasks).1 {
      answers, events := map[], [Turn(0)];
      q := LeftAtOnce(tasks, if tasks[i].problem.answered then j else i);
    } else {
      NotAnswered(tasks, i);
      NotAnswered(tasks, j);
      events := [Turn(0), Settle(0, SaidRight)] + [Turn(0)];
      answers, q := LeftAfterOne(tasks, i, j);
    }
    Processes(tasks, answers, true, false, 1, events, q);
  }

  /** The worker pool processes every question, in all its runs, if and only if no question is
      listed twice but for copies that were all answered before. */
  lemma EveryQuestionIsProcessed(tasks: seq<Task>)
    ensures AlwaysProcessesAll(tasks) <==> RepeatsAreAnswered(tasks)
  {
    if RepeatsAreAnswered(tasks) {
      forall answers, finished, aborted, workers: nat, events, q |
        workers > 0 && Reaches(Start(tasks, answers, finished, aborted, workers), events, q) && AllReturned(q)
        ensures Missed(q.tasks, q.done, q.tally, q.items).0.processed == |tasks|
      {
        Processes(tasks, answers, finished, aborted, workers, events, q);
        NothingIsOverlooked(q);
      }
    } else {
      var i, j :| 0 <= i < j < |tasks| && tasks[i].Key() == tasks[j].Key()
        && !(tasks[i].problem.answered && tasks[j].problem.answered);
      var answers, events, q := ListedTwice(tasks, i, j);
    }
  }

  // ---------------------------------------------------------------- the last look

  function FirstWith(problems: seq<Problem>, id: int): Option<Problem> {
    if problems == [] then None
    else if problems[0].id == id then Some(problems[0])
    else FirstWith(problems[1..], id)
  }

  function LastWith(problems: seq<Problem>, id: int): Option<Problem> {
    if problems == [] then None
    else if problems[|problems| - 1].id == id then Some(problems[|problems| - 1])
    else LastWith(problems[..|problems| - 1], id)
  }

  /** The platform says that this very version of the question has been answered correctly. */
  predicate Confirmed(e: Exercise, listed: seq<Problem>, id: int) {
    var now, before := LastWith(listed, id), FirstWith(e.problems, id);
    && now.Some? && before.Some? && now.value.version == before.value.version
    && now.value.answered && now.value.verdict == Right
  }

  predicate Reviewable(e: Exercise, item: Item) {
    item.leaf == e.leaf && (item.status == Completed || item.status == Failed) && item.problem.Some?
  }

  function Reviewed(e: Exercise, listed: seq<Problem>, item: Item): Item {
    if Reviewable(e, item) then item.(status := if Confirmed(e, listed, item.problem.value) then Completed else Failed)
    else item
  }

  function ReviewedAll(e: Exercise, listed: seq<Problem>, items: seq<Item>): (r: seq<Item>)
    ensures |r| == |items|
  {
    seq(|items|, i requires 0 <= i < |items| => Reviewed(e, listed, items[i]))
  }

  /** The results after all exercises have been looked at, unless a request fails. */
  function Review(exercises: seq<Exercise>, listed: seq<Option<seq<Problem>>>, items: seq<Item>): (r: Option<seq<Item>>)
    requires |listed| == |exercises|
    ensures r.Some? ==> |r.value| >= |items|
  {
    if exercises == [] then Some(items)
    else
      var n := |exercises| - 1;
      var r := Review(exercises[..n], listed[..n], items);
      if r.None? then None
      else if exercises[n].error then Some(r.value + [Item(exercises[n].leaf, None, Blocked)])
      else if listed[n].None? then None
      else Some(ReviewedAll(exercises[n], listed[n].value, r.value))
  }

  function Errors(exercises: seq<Exercise>): nat {
    if exercises == [] then 0
    else Errors(exercises[..|exercises| - 1]) + if exercises[|exercises| - 1].error then 1 else 0
  }

  /** Entry j of the fresh list is the one that counts for the question, entry k of the
      exercise is the question as it was, and they are of one version, now answered correctly. */
  predicate RightAt(originals: seq<Problem>, shown: seq<Problem>, id: int, j: int, k: int) {
    && 0 <= j < |shown| && shown[j].id == id && (forall n | j < n < |shown| :: shown[n].id != id)
    && 0 <= k < |originals| && originals[k].id == id && (forall n | 0 <= n < k :: originals[n].id != id)
    && shown[j].version == originals[k].version && shown[j].answered && shown[j].verdict == Right
  }

  /** The fresh list shows that the question of the exercise has been answered correctly. */
  predicate ShownRight(originals: seq<Problem>, shown: seq<Problem>, id: int) {
    exists j, k | 0 <= j < |shown| && 0 <= k < |originals| :: RightAt(originals, shown, id, j, k)
  }

  lemma {:induction false} LastWithIs(problems: seq<Problem>, id: int, j: int)
    requires 0 <= j < |problems| && problems[j].id == id && forall n | j < n < |problems| :: problems[n].id != id
    ensures LastWith(problems, id) == Some(problems[j])
    decreases |problems|
  {
    if j < |problems| - 1 {
      LastWithIs(problems[..|problems| - 1], id, j);
    }
  }

  lemma {:induction false} LastWithAt(problems: seq<Problem>, id: int) returns (j: int)
    requires LastWith(problems, id).Some?
    ensures 0 <= j < |problems| && problems[j].id == id && forall n | j < n < |problems| :: problems[n].id != id
    decreases |problems|
  {
    j := |problems| - 1;
    if problems[j].id != id {
      j := LastWithAt(problems[..|problems| - 1], id);
    }
  }

  lemma {:induction false} FirstWithIs(problems: seq<Problem>, id: int, k: int)
    requires 0 <= k < |problems| && problems[k].id == id && forall n | 0 <= n < k :: problems[n].id != id
    ensures FirstWith(problems, id) == Some(problems[k])
    decreases |problems|
  {
    if k > 0 {
      assert problems[0].id != id;
      FirstWithIs(problems[1..], id, k - 1);
    }
  }

  lemma {:induction false} FirstWithAt(problems: seq<Problem>, id: int) returns (k: int)
    requires FirstWith(problems, id).Some?
    ensures 0 <= k < |problems| && problems[k].id == id && forall n | 0 <= n < k :: problems[n].id != id
    decreases |problems|
  {
    k := 0;
    if problems[0].id != id {
      var m := FirstWithAt(problems[1..], id);
      forall n | 0 <= n < m + 1 ensures problems[n].id != id {
        assert n > 0 ==> problems[n] == problems[1..][n - 1];
      }
      k := m + 1;
    }
  }

  lemma ConfirmedIsShown(e: Exercise, listed: seq<Problem>, id: int)
    ensures Confirmed(e, listed, id) <==> ShownRight(e.problems, listed, id)
  {
    if Confirmed(e, listed, id) {
      var j := LastWithAt(listed, id);
      LastWithIs(listed, id, j);
      var k := FirstWithAt(e.problems, id);
      FirstWithIs(e.problems, id, k);
      assert RightAt(e.problems, listed, id, j, k);
    }
    if ShownRight(e.problems, listed, id) {
      var j, k :| 0 <= j < |listed| && 0 <= k < |e.problems| && RightAt(e.problems, listed, id, j, k);
      LastWithIs(listed, id, j);
      FirstWithIs(e.problems, id, k);
    }
  }

  /** The result of a submission. */
  predicate Submitted(item: Item) {
    item.status == Completed || item.status == Failed
  }

  /** What a look at one exercise makes of a result: those of its questions that were
      submitted are completed if the list shows them as right, and failed if not. */
  predicate Regards(e: Exercise, shown: seq<Problem>, before: Item, after: Item) {
    if before.leaf == e.leaf && Submitted(before) && before.problem.Some? then
      after == before.(status := if ShownRight(e.problems, shown, before.problem.value) then Completed else Failed)
    else after == before
  }

  lemma ReviewedRegards(e: Exercise, shown: seq<Problem>, item: Item)
    ensures Regards(e, shown, item, Reviewed(e, shown, item))
  {
    if item.problem.Some? {
      ConfirmedIsShown(e, shown, item.problem.value);
    }
  }

  /** Exercise n is the last one of the leaf that could be read. */
  predicate LooksLast(exercises: seq<Exercise>, leaf: int, n: int) {
    && 0 <= n < |exercises| && exercises[n].leaf == leaf && !exercises[n].error
    && forall m | n < m < |exercises| :: exercises[m].leaf != leaf || exercises[m].error
  }

  /** No exercise of the leaf could be read. */
  predicate Unlooked(exercises: seq<Exercise>, leaf: int) {
    forall n | 0 <= n < |exercises| :: exercises[n].leaf != leaf || exercises[n].error
  }

  /** The result stands for an exercise that could not be read. */
  predicate AddedFor(exercises: seq<Exercise>, item: Item) {
    exists n | 0 <= n < |exercises| :: exercises[n].error && item == Item(exercises[n].leaf, None, Blocked)
  }

  /** What a look at the last exercise does to a result. */
  lemma OneMoreLook(exercises: seq<Exercise>, listed: seq<Option<seq<Problem>>>, items: seq<Item>, i: nat)
    returns (before: Item, after: Item)
    requires |listed| == |exercises| > 0 && Review(exercises, listed, items).Some? && i < |items|
    ensures var m := |exercises| - 1;
      && Review(exercises[..m], listed[..m], items).Some?
      && before == Review(exercises[..m], listed[..m], items).value[i]
      && after == Review(exercises, listed, items).value[i]
      && (if exercises[m].error then after == before
          else listed[m].Some? && Regards(exercises[m], listed[m].value, before, after))
  {
    var m := |exercises| - 1;
    before := Review(exercises[..m], listed[..m], items).value[i];
    after := Review(exercises, listed, items).value[i];
    if !exercises[m].error {
      ReviewedRegards(exercises[m], listed[m].value, before);
    }
  }

  /** Looking at exercises changes no more of a result than whether it is completed. */
  predicate Kept(before: Item, after: Item) {
    after == before ||
    (Submitted(before) && Submitted(after) && before.problem.Some? &&
     after.leaf == before.leaf && after.problem == before.problem)
  }

  lemma {:induction false} LookedAt(exercises: seq<Exercise>, listed: seq<Option<seq<Problem>>>, items: seq<Item>,
        i: nat)
    requires |listed| == |exercises| && Review(exercises, listed, items).Some? && i < |items|
    ensures Kept(items[i], Review(exercises, listed, items).value[i])
  {
    if exercises != [] {
      var m := |exercises| - 1;
      var before, after := OneMoreLook(exercises, listed, items, i);
      LookedAt(exercises[..m], listed[..m], items, i);
    }
  }

  /** The result of a submission is completed exactly if the last look at its exercise shows
      the question as right. */
  lemma {:induction false} CompletedMeansConfirmed(exercises: seq<Exercise>, listed: seq<Option<seq<Problem>>>,
        items: seq<Item>, i: nat, n: nat)
    requires |listed| == |exercises| && Review(exercises, listed, items).Some? && i < |items|
    requires LooksLast(exercises, items[i].leaf, n)
    ensures listed[n].Some?
    ensures Regards(exercises[n], listed[n].value, items[i], Review(exercises, listed, items).value[i])
    decreases |exercises|
  {
    var m := |exercises| - 1;
    var before, after := OneMoreLook(exercises, listed, items, i);
    LookedAt(exercises[..m], listed[..m], items, i);
    if n < m {
      assert exercises[m].leaf != items[i].leaf || exercises[m].error;
      CompletedMeansConfirmed(exercises[..m], listed[..m], items, i, n);
    }
  }

  /** Without a look at its exercise a result stays as it is. */
  lemma {:induction false} UnlookedStays(exercises: seq<Exercise>, listed: seq<Option<seq<Problem>>>, items: seq<Item>,
        i: nat)
    requires |listed| == |exercises| && Review(exercises, listed, items).Some? && i < |items|
    requires Unlooked(exercises, items[i].leaf)
    ensures Review(exercises, listed, items).value[i] == items[i]
  {
    if exercises != [] {
      var m := |exercises| - 1;
      var before, after := OneMoreLook(exercises, listed, items, i);
      UnlookedStays(exercises[..m], listed[..m], items, i);
    }
  }

  /** Results that are added for exercises that could not be read. */
  lemma {:induction false} AddedAreBlocked(exercises: seq<Exercise>, listed: seq<Option<seq<Problem>>>,
        items: seq<Item>, i: nat)
    requires |listed| == |exercises| && Review(exercises, listed, items).Some?
    requires |items| <= i < |Review(exercises, listed, items).value|
    ensures AddedFor(exercises, Review(exercises, listed, items).value[i])
  {
    var m := |exercises| - 1;
    var before := Review(exercises[..m], listed[..m], items).value;
    if i < |before| {
      AddedAreBlocked(exercises[..m], listed[..m], items, i);
      var n :| 0 <= n < m && exercises[n].error && before[i] == Item(exercises[n].leaf, None, Blocked);
      assert Review(exercises, listed, items).value[i] == before[i];
    } else {
      assert exercises[m].error;
    }
  }

  /** after is what the last looks at the exercises make of the results before. */
  ghost predicate Reported(exercises: seq<Exercise>, listed: seq<Option<seq<Problem>>>, before: seq<Item>,
        after: seq<Item>)
    requires |listed| == |exercises|
  {
    && |after| == |before| + Errors(exercises)
    && (forall i, n | 0 <= i < |before| && LooksLast(exercises, before[i].leaf, n) ::
          listed[n].Some? && Regards(exercises[n], listed[n].value, before[i], after[i]))
    && (forall i | 0 <= i < |before| && Unlooked(exercises, before[i].leaf) :: after[i] == before[i])
    && (forall i | |before| <= i < |after| :: AddedFor(exercises, after[i]))
  }

  lemma ReviewReports(exercises: seq<Exercise>, listed: seq<Option<seq<Problem>>>, items: seq<Item>)
    requires |listed| == |exercises| && Review(exercises, listed, items).Some?
    ensures Reported(exercises, listed, items, Review(exercises, listed, items).value)
  {
    var after := Review(exercises, listed, items).value;
    ReviewLength(exercises, listed, items);
    forall i, n | 0 <= i < |items| && LooksLast(exercises, items[i].leaf, n)
      ensures listed[n].Some? && Regards(exercises[n], listed[n].value, items[i], after[i])
    {
      CompletedMeansConfirmed(exercises, listed, items, i, n);
    }
    forall i | 0 <= i < |items| && Unlooked(exercises, items[i].leaf) ensures after[i] == items[i] {
      UnlookedStays(exercises, listed, items, i);
    }
    forall i | |items| <= i < |after| ensures AddedFor(exercises, after[i]) {
      AddedAreBlocked(exercises, listed, items, i);
    }
  }

  /** The review goes through exactly if every exercise that is to be read can be. */
  lemma {:induction false} ReviewSucceeds(exercises: seq<Exercise>, listed: seq<Option<seq<Problem>>>, items: seq<Item>)
    requires |listed| == |exercises|
    ensures Review(exercises, listed, items).Some? <==>
      forall n | 0 <= n < |exercises| :: exercises[n].error || listed[n].Some?
    decreases |exercises|
  {
    if exercises != [] {
      var m := |exercises| - 1;
      ReviewSucceeds(exercises[..m], listed[..m], items);
    }
  }

  /** Looking again moves results between completed and failed, and adds one for every
      exercise that could not be read. */
  lemma {:induction false} ReviewLength(exercises: seq<Exercise>, listed: seq<Option<seq<Problem>>>, items: seq<Item>)
    requires |listed| == |exercises| && Review(exercises, listed, items).Some?
    ensures |Review(exercises, listed, items).value| == |items| + Errors(exercises)
  {
    if exercises != [] {
      ReviewLength(exercises[..|exercises| - 1], listed[..|exercises| - 1], items);
    }
  }

  /** Counters that agree with a list count it. */
  lemma {:induction false} AgreesCounts(t: Tally, items: seq<Item>)
    requires Agrees(t, items)
    ensures t.completed + t.failed + t.skipped == |items|
  {
    TalliesAddUp(items);
  }

  lemma {:induction false} TalliesAddUp(items: seq<Item>)
    ensures Tallied(items, Completed) + Tallied(items, Failed) + Tallied(items, MissingAnswer) + Tallied(items, Blocked)
          + Tallied(items, Skipped) + Tallied(items, WrongExisting) == |items|
  {
    if items != [] {
      TalliesAddUp(items[..|items| - 1]);
    }
  }

  /** The whole report: with the counters that agree with the final results, everything that
      was processed, and every exercise that could not be read, is completed, failed or
      skipped. */
  lemma ReportAddsUp(p: Pool, exercises: seq<Exercise>, listed: seq<Option<seq<Problem>>>, report: Tally)
    requires Sound(p) && p.tasks == TasksOf(exercises) && AllReturned(p)
    requires |listed| == |exercises|
    requires Review(exercises, listed, Missed(p.tasks, p.done, p.tally, p.items).1).Some?
    requires Agrees(report, Review(exercises, listed, Missed(p.tasks, p.done, p.tally, p.items).1).value)
    requires report.processed == Missed(p.tasks, p.done, p.tally, p.items).0.processed
    ensures report.completed + report.failed + report.skipped == report.processed + Errors(exercises)
    ensures report.processed + |Overlooked(p)| == |p.tasks|
    ensures RepeatsAreAnswered(p.tasks) ==> report.processed == |p.tasks|
  {
    var (t, items) := Missed(p.tasks, p.done, p.tally, p.items);
    OverlookedAreMissing(p);
    if RepeatsAreAnswered(p.tasks) {
      NothingIsOverlooked(p);
    }
    AgreesCounts(t, items);
    ReviewLength(exercises, listed, items);
    AgreesCounts(report, Review(exercises, listed, items).value);
  }
}
