/**
 What happens to the modules of a job and to the job, told by what it comes to rather than by
 the event (internal/jobs/repository.go, internal/jobs/recovery.go).
 */
module JobChanges {
  import opened Options
  import opened Jobs

  predicate UnderWay(job: Job) {
    job.status in {JobQueued, JobRunning, JobWaiting}
  }

  /** The event is a write by the holder of the module's current generation. */
  predicate Holds(job: Job, e: Event, k: Kind) {
    && k in job.modules && (e.Progress? || e.Finish?) && e.kind == k
    && job.status == JobRunning && job.modules[k].status == Running && e.generation == job.modules[k].generation
  }

  predicate Marks(job: Job, e: Event, k: Kind, status: Status) {
    && e == Mark(k, status) && job.status == JobRunning
    && (k in job.modules ==> job.modules[k].status !in {Done, Paused, Stopped})
  }

  /** The shared accounts let the collector start over. */
  predicate Released(job: Job, cancelled: bool) {
    && UnderWay(job) && job.submitUnanswered && Collector in job.modules
    && (job.modules[Collector].status in {WaitingAccount, WaitingEnrollment} ||
        (cancelled && job.modules[Collector].status == Running))
  }

  /** A change of accounts puts the module back into the queue. */
  predicate Requeues(job: Job, e: Event, k: Kind)
    requires k in job.modules
  {
    match e
    case TestChanged(connected) =>
      connected &&
      ((k == Collector && UnderWay(job) && job.submitUnanswered && job.modules[k].status !in {Done, Stopped, Paused}) ||
       (k == Homework && job.status == JobWaiting && job.modules[k].status == WaitingAnswers))
    case SharedChanged(cancelled) =>
      (k == Collector && Released(job, cancelled)) ||
      (k == Homework && job.status == JobWaiting && job.modules[k].status == WaitingAnswers &&
       Collector in job.modules && (job.modules[Collector].status == Queued || Released(job, cancelled)))
    case _ => false
  }

  /** The account that the module depends on is gone. */
  predicate Stranded(job: Job, e: Event, k: Kind)
    requires k in job.modules
  {
    var shared := k == Collector && job.submitUnanswered;
    var status := job.modules[k].status;
    UnderWay(job) &&
    ((e == PrimaryChanged && !shared && status in {Running, Queued, WaitingAnswers, WaitingAccount}) ||
     (e == TestChanged(false) && shared && status !in {Done, Stopped, Paused}))
  }

  function StatusAfter(job: Job, e: Event, k: Kind): Status
    requires k in job.modules
  {
    var m := job.modules[k];
    if Holds(job, e, k) && e.Finish? then e.result
    else if e.Mark? && Marks(job, e, k, e.status) then e.status
    else if e == Begin(k) && job.status == JobRunning && m.status == Queued then Running
    else if e == Crash(k, m.generation) && m.restarts < 1 then Queued
    else if e.Control? && e.scope in {None, Some(k)} && (m.status != Done || e.action != Resume) then
      (if e.action == Pause then Paused else if e.action == Stop then Stopped else Queued)
    else if e == Recover && UnderWay(job) && m.status in {Running, WaitingAnswers, WaitingRateLimit} then Queued
    else if Requeues(job, e, k) then Queued
    else if Stranded(job, e, k) then WaitingAccount
    else m.status
  }

  // ---------------------------------------------------------------- one kind of event each

  /** The module is queued anew, with a new generation. */
  function Again(m: Module, status: Status): Module {
    Module(status, m.generation + 1, m.restarts, m.total)
  }

  lemma CollectorOfShared(job: Job, cancelled: bool)
    requires Collector in job.modules
    ensures var t := Step(job, SharedChanged(cancelled)).modules;
      && Collector in t
      && t[Collector] == if Released(job, cancelled) then Again(job.modules[Collector], Queued)
                         else job.modules[Collector]
  {
  }

  lemma OthersOfShared(job: Job, cancelled: bool, k: Kind)
    requires k in job.modules && k != Collector
    ensures var t := Step(job, SharedChanged(cancelled)).modules;
      && k in t
      && t[k] == if Requeues(job, SharedChanged(cancelled), k) then job.modules[k].(status := Queued)
                 else job.modules[k]
  {
    if Collector in job.modules {
      CollectorOfShared(job, cancelled);
    }
  }

  lemma ModuleOfTest(job: Job, connected: bool, k: Kind)
    requires k in job.modules
    ensures var t, m := Step(job, TestChanged(connected)).modules, job.modules[k];
      && k in t
      && t[k] ==
           if k == Collector && UnderWay(job) && job.submitUnanswered && m.status !in {Done, Stopped, Paused} then
             Again(m, if connected then Queued else WaitingAccount)
           else if Requeues(job, TestChanged(connected), k) then m.(status := Queued)
           else m
  {
  }

  lemma ModuleOfPrimary(job: Job, k: Kind)
    requires k in job.modules
    ensures var t := Step(job, PrimaryChanged).modules;
      k in t && t[k] == if Stranded(job, PrimaryChanged, k) then Again(job.modules[k], WaitingAccount)
                        else job.modules[k]
  {
  }

  lemma ModuleOfRecovery(job: Job, k: Kind)
    requires k in job.modules
    ensures var t, m := Step(job, Recover).modules, job.modules[k];
      && k in t
      && t[k] == if UnderWay(job) && m.status in {Running, Queued, WaitingAnswers, WaitingRateLimit}
                 then Again(m, Queued) else m
  {
  }

  lemma ModuleOfControl(job: Job, action: Action, scope: Option<Kind>, k: Kind)
    requires k in job.modules
    ensures var t, m := Step(job, Control(action, scope)).modules, job.modules[k];
      && k in t
      && t[k] == if scope in {None, Some(k)} && (m.status != Done || action != Resume)
                 then Again(m, if action == Pause then Paused else if action == Stop then Stopped else Queued)
                 else m
  {
  }

  lemma ModuleOfHolder(job: Job, e: Event, k: Kind)
    requires k in job.modules && (e.Progress? || e.Finish?)
    ensures var t, m := Step(job, e).modules, job.modules[k];
      && k in t
      && t[k] == if !Holds(job, e, k) then m
                 else m.(status := if e.Finish? then e.result else m.status,
                         total := if e.total > m.total then e.total else m.total)
  {
  }

  lemma ModuleOfWrite(job: Job, e: Event, k: Kind)
    requires k in job.modules && (e.Mark? || e.Begin? || e.Crash?)
    ensures var t, m := Step(job, e).modules, job.modules[k];
      && k in t
      && t[k] == if e.Mark? && Marks(job, e, k, e.status) then m.(status := e.status)
                 else if e == Begin(k) && job.status == JobRunning && m.status == Queued then Again(m, Running)
                 else if e == Crash(k, m.generation) && m.restarts < 1
                 then m.(status := Queued, restarts := m.restarts + 1)
                 else m
  {
  }

  /** What a step does to the numbers of a module: it adds one generation or none, a crash
      restart adds one restart, and the total rises to what the current holder reports. */
  predicate Counted(job: Job, e: Event, before: Module, after: Module, k: Kind) {
    && after.generation in {before.generation, before.generation + 1}
    && after.restarts == before.restarts + (if e == Crash(k, before.generation) && before.restarts < 1 then 1 else 0)
    && after.total == (if Holds(job, e, k) && e.total > before.total then e.total else before.total)
  }

  predicate Fits(job: Job, e: Event, k: Kind)
    requires k in job.modules
  {
    var t := Step(job, e).modules;
    k in t && t[k].status == StatusAfter(job, e, k) && Counted(job, e, job.modules[k], t[k], k)
  }

  lemma SharedFits(job: Job, e: Event, k: Kind)
    requires k in job.modules && e.SharedChanged?
    ensures Fits(job, e, k)
  {
    if k == Collector {
      CollectorOfShared(job, e.cancelled);
    } else {
      OthersOfShared(job, e.cancelled, k);
    }
  }

  lemma AccountFits(job: Job, e: Event, k: Kind)
    requires k in job.modules && (e.PrimaryChanged? || e.TestChanged? || e.Recover?)
    ensures Fits(job, e, k)
  {
    match e
    case TestChanged(connected) => ModuleOfTest(job, connected, k);
    case PrimaryChanged => ModuleOfPrimary(job, k);
    case Recover => ModuleOfRecovery(job, k);
  }

  lemma HolderFits(job: Job, e: Event, k: Kind)
    requires k in job.modules && (e.Progress? || e.Finish?)
    ensures Fits(job, e, k)
  {
    ModuleOfHolder(job, e, k);
  }

  lemma ControlFits(job: Job, e: Event, k: Kind)
    requires k in job.modules && e.Control?
    ensures Fits(job, e, k)
  {
    ModuleOfControl(job, e.action, e.scope, k);
  }

  lemma WriteFits(job: Job, e: Event, k: Kind)
    requires k in job.modules && (e.Mark? || e.Begin? || e.Crash?)
    ensures Fits(job, e, k)
  {
    ModuleOfWrite(job, e, k);
  }

  lemma ModuleAfter(job: Job, e: Event, k: Kind)
    requires k in job.modules
    ensures k in Step(job, e).modules
    ensures Step(job, e).modules[k].status == StatusAfter(job, e, k)
    ensures Counted(job, e, job.modules[k], Step(job, e).modules[k], k)
  {
    match e
    case Add(kinds) => AddedKeeps(job.modules, kinds, k);
    case Dispatch =>
    case Aggregate =>
    case SharedChanged(_) => SharedFits(job, e, k);
    case TestChanged(_) => AccountFits(job, e, k);
    case PrimaryChanged => AccountFits(job, e, k);
    case Recover => AccountFits(job, e, k);
    case Control(_, _) => ControlFits(job, e, k);
    case Progress(_, _, _) => HolderFits(job, e, k);
    case Finish(_, _, _, _) => HolderFits(job, e, k);
    case _ => WriteFits(job, e, k);
  }

  // ---------------------------------------------------------------- what a module comes to

  /** A module starts running exactly when it is begun while queued in a running job. */
  lemma StartsRunning(job: Job, e: Event, k: Kind)
    requires k in job.modules && job.modules[k].status != Running && Proper(e)
    ensures k in Step(job, e).modules
    ensures Step(job, e).modules[k].status == Running <==>
      e == Begin(k) && job.status == JobRunning && job.modules[k].status == Queued
  {
    ModuleAfter(job, e, k);
  }

  /** It becomes done exactly when its run ends so, or when the engine marks it so. */
  lemma BecomesDone(job: Job, e: Event, k: Kind)
    requires k in job.modules && job.modules[k].status != Done
    ensures k in Step(job, e).modules
    ensures Step(job, e).modules[k].status == Done <==>
      (Holds(job, e, k) && e.Finish? && e.result == Done) || Marks(job, e, k, Done)
  {
    ModuleAfter(job, e, k);
  }

  /** It goes back into the queue exactly by a crash restart, by a resume that covers it, by a
      restart of the service, by a change of accounts, or because it is put there. */
  lemma GoesBack(job: Job, e: Event, k: Kind)
    requires k in job.modules && job.modules[k].status != Queued
    ensures k in Step(job, e).modules
    ensures Step(job, e).modules[k].status == Queued <==>
      || (e == Crash(k, job.modules[k].generation) && job.modules[k].restarts < 1)
      || (e.Control? && e.action == Resume && e.scope in {None, Some(k)} && job.modules[k].status != Done)
      || (e == Recover && UnderWay(job) && job.modules[k].status in {Running, WaitingAnswers, WaitingRateLimit})
      || Requeues(job, e, k)
      || (Holds(job, e, k) && e.Finish? && e.result == Queued) || Marks(job, e, k, Queued)
  {
    ModuleAfter(job, e, k);
  }

  /** A module waits for an account exactly if the account it depends on is gone, or because it
      is marked so or ends so. */
  lemma WaitsForAccount(job: Job, e: Event, k: Kind)
    requires k in job.modules && job.modules[k].status != WaitingAccount
    ensures k in Step(job, e).modules
    ensures Step(job, e).modules[k].status == WaitingAccount <==>
      || Stranded(job, e, k)
      || (Holds(job, e, k) && e.Finish? && e.result == WaitingAccount) || Marks(job, e, k, WaitingAccount)
  {
    ModuleAfter(job, e, k);
  }

  /** The user's pause and stop are the only ways to these states but for marks and ends. */
  lemma HeldByUser(job: Job, e: Event, k: Kind, status: Status)
    requires k in job.modules && job.modules[k].status != status && status in {Paused, Stopped}
    ensures k in Step(job, e).modules
    ensures Step(job, e).modules[k].status == status <==>
      || (e.Control? && e.action == (if status == Paused then Pause else Stop) && e.scope in {None, Some(k)})
      || (Holds(job, e, k) && e.Finish? && e.result == status) || Marks(job, e, k, status)
  {
    ModuleAfter(job, e, k);
  }

  /** Generations and restarts go up by one, and a total only as far as the current holder says. */
  lemma NumbersAfter(job: Job, e: Event, k: Kind)
    requires k in job.modules
    ensures k in Step(job, e).modules
    ensures Counted(job, e, job.modules[k], Step(job, e).modules[k], k)
  {
    ModuleAfter(job, e, k);
  }

  /** The module that ends gets the result as its status, and nobody else changes. */
  lemma FinishWrites(job: Job, k: Kind, result: Status, total: int, other: Kind)
    requires k in job.modules && job.status == JobRunning && job.modules[k].status == Running
    ensures var t := Step(job, Finish(k, job.modules[k].generation, result, total));
      && t.modules.Keys == job.modules.Keys && t.modules[k].status == result && t.status == job.status
      && (other in job.modules && other != k ==> t.modules[other] == job.modules[other])
  {
  }

  /** Adding kinds gives each that is new a fresh module in the queue. */
  lemma {:induction false} AddedAre(modules: map<Kind, Module>, kinds: seq<Kind>, k: Kind)
    ensures k in Added(modules, kinds) <==> k in modules || k in kinds
    ensures k in Added(modules, kinds) ==>
      Added(modules, kinds)[k] == if k in modules then modules[k] else Module(Queued, 0, 0, 0)
  {
    if kinds != [] {
      var n := |kinds| - 1;
      AddedAre(modules, kinds[..n], k);
      assert kinds == kinds[..n] + [kinds[n]];
    }
  }

  // ---------------------------------------------------------------- the job

  predicate AnyOf(job: Job, statuses: set<Status>) {
    exists k | k in job.modules :: job.modules[k].status in statuses
  }

  /** What an aggregation makes of a job that is not held and not done: the first that applies. */
  lemma AggregatedIs(job: Job)
    requires job.status !in {JobPaused, JobStopped, JobDone}
    ensures var t := Step(job, Aggregate);
      && t.modules == job.modules
      && (t.status == JobQueued <==> AnyOf(job, {Queued, Running, WaitingRateLimit}))
      && (t.status == JobWaiting <==>
            !AnyOf(job, {Queued, Running, WaitingRateLimit}) &&
            AnyOf(job, {WaitingAnswers, WaitingAccount, WaitingEnrollment}))
      && (t.status == JobDone <==> forall k | k in job.modules :: job.modules[k].status == Done)
      && t.status in {JobQueued, JobWaiting, JobPartial, JobDone}
  {
    DoneMeansAllDone(job);
    assert AnyOf(job, {Queued, Running, WaitingRateLimit}) <==> AnyIs(job.modules, {Queued, Running, WaitingRateLimit});
    assert AnyOf(job, {WaitingAnswers, WaitingAccount, WaitingEnrollment}) <==>
      AnyIs(job.modules, {WaitingAnswers, WaitingAccount, WaitingEnrollment});
  }

  /** The status of the job after any other event. */
  lemma JobStatusAfter(job: Job, e: Event)
    requires !e.Aggregate?
    ensures var t := Step(job, e);
      if e.Dispatch? then t.status == if job.status == JobQueued then JobRunning else job.status
      else if e.Control? && e.action == Resume then t.status == JobQueued
      else if e.Control? && e.scope == None then t.status == if e.action == Pause then JobPaused else JobStopped
      else if e == TestChanged(true) && job.status == JobWaiting then t.status == JobQueued
      else if (e.SharedChanged? && job.status == JobWaiting) || (e.Recover? && UnderWay(job)) then
        t.status == if AnyOf(t, {Queued}) then JobQueued else job.status
      else t.status == job.status
  {
    assert AnyOf(Step(job, e), {Queued}) <==> AnyIs(Step(job, e).modules, {Queued});
  }

  /** A change is shown by the revision: by one, and only up. */
  lemma RevisionAfter(job: Job, e: Event)
    ensures var t := Step(job, e);
      && job.revision <= t.revision <= job.revision + 1
      && (t.revision == job.revision + 1 <==>
            || e.Add? || e.Mark? || e.Control? || e.Aggregate?
            || (e.Begin? && e.kind in job.modules && job.modules[e.kind].status == Queued && job.status == JobRunning)
            || ((e.Progress? || e.Finish?) && Holds(job, e, e.kind))
            || (e.SharedChanged? && job.status == JobWaiting && AnyOf(t, {Queued}))
            || (e.Recover? && UnderWay(job) && AnyOf(t, {Queued})))
  {
    assert AnyOf(Step(job, e), {Queued}) <==> AnyIs(Step(job, e).modules, {Queued});
  }
}
