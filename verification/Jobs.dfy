/**
 The life of a job and its modules (internal/jobs/repository.go, internal/jobs/recovery.go,
 internal/workflow/actors.go). Each module carries a generation; whoever runs it was given
 one when it began, and its writes count only while that generation is current.
 */
module Jobs {
  import opened Options

  datatype Kind = Video | Article | Discussion | Homework | Collector

  datatype Status =
    | Queued | Running | WaitingRateLimit | WaitingAnswers | WaitingAccount | WaitingEnrollment
    | Partial | Blocked | Error | Stopped | Paused | Done

  datatype JobStatus = JobQueued | JobRunning | JobWaiting | JobPartial | JobDone | JobPaused | JobStopped

  datatype Module = Module(status: Status, generation: int, restarts: int, total: int)

  datatype Job = Job(status: JobStatus, submitUnanswered: bool, modules: map<Kind, Module>, revision: int)

  datatype Action = Pause | Stop | Resume

  datatype Event =
    | Add(kinds: seq<Kind>)
    | Dispatch
    | Mark(kind: Kind, status: Status)
    | Begin(kind: Kind)
    | Progress(kind: Kind, generation: int, total: int)
    | Finish(kind: Kind, generation: int, result: Status, total: int)
    | Crash(kind: Kind, generation: int)
    | Control(action: Action, scope: Option<Kind>)
    | Aggregate
    | PrimaryChanged
    | TestChanged(connected: bool)
    | SharedChanged(cancelled: bool)
    | Recover

  const FRESH := Module(Queued, 0, 0, 0)

  predicate Active(job: Job) {
    job.status == JobQueued || job.status == JobRunning || job.status == JobWaiting
  }

  function Max(a: int, b: int): int {
    if a < b then b else a
  }

  // ---------------------------------------------------------------- one write each

  function Added(modules: map<Kind, Module>, kinds: seq<Kind>): map<Kind, Module> {
    if kinds == [] then modules
    else
      var r := Added(modules, kinds[..|kinds| - 1]);
      var kind := kinds[|kinds| - 1];
      if kind in r then r else r[kind := FRESH]
  }

  /** The module may be marked: the job runs, and the module is neither done nor held back. */
  predicate Markable(job: Job, kind: Kind) {
    job.status == JobRunning && (kind !in job.modules || job.modules[kind].status !in {Done, Paused, Stopped})
  }

  predicate Beginnable(job: Job, kind: Kind) {
    job.status == JobRunning && kind in job.modules && job.modules[kind].status == Queued
  }

  /** A write by the holder of a generation counts. */
  predicate Current(job: Job, kind: Kind, generation: int) {
    && job.status == JobRunning && kind in job.modules
    && job.modules[kind].generation == generation && job.modules[kind].status == Running
  }

  /** A crashed module is restarted, once. */
  predicate Restartable(job: Job, kind: Kind, generation: int) {
    kind in job.modules && job.modules[kind].generation == generation && job.modules[kind].restarts < 1
  }

  function ActionStatus(action: Action): Status {
    match action
    case Pause => Paused
    case Stop => Stopped
    case Resume => Queued
  }

  predicate Covers(kinds: Option<Kind>, kind: Kind) {
    kinds.None? || kinds.value == kind
  }

  function Bumped(m: Module, status: Status): Module {
    m.(status := status, generation := m.generation + 1)
  }

  function Controlled(modules: map<Kind, Module>, action: Action, kinds: Option<Kind>): map<Kind, Module> {
    map k | k in modules ::
      if Covers(kinds, k) && (modules[k].status != Done || action != Resume)
        then Bumped(modules[k], ActionStatus(action))
      else modules[k]
  }

  function ControlledStatus(status: JobStatus, action: Action, kinds: Option<Kind>): JobStatus {
    if kinds.None? || action == Resume then
      (match action case Pause => JobPaused case Stop => JobStopped case Resume => JobQueued)
    else status
  }

  predicate AnyIs(modules: map<Kind, Module>, statuses: set<Status>) {
    exists k | k in modules :: modules[k].status in statuses
  }

  /** What the modules make of the job. */
  function Aggregated(job: Job): JobStatus {
    if job.status in {JobPaused, JobStopped, JobDone} then job.status
    else if AnyIs(job.modules, {Queued, Running, WaitingRateLimit}) then JobQueued
    else if AnyIs(job.modules, {WaitingAnswers, WaitingAccount, WaitingEnrollment}) then JobWaiting
    else if AnyIs(job.modules, {Partial, Blocked, Error, Stopped, Paused}) then JobPartial
    else JobDone
  }

  function PrimaryLost(job: Job): map<Kind, Module> {
    map k | k in job.modules ::
      if (k != Collector || !job.submitUnanswered)
         && job.modules[k].status in {Running, Queued, WaitingAnswers, WaitingAccount}
      then Bumped(job.modules[k], WaitingAccount) else job.modules[k]
  }

  function Requeued(modules: map<Kind, Module>): map<Kind, Module> {
    map k | k in modules ::
      if k == Homework && modules[k].status == WaitingAnswers then modules[k].(status := Queued) else modules[k]
  }

  /** The owner's test account has changed: the collector starts over, or waits for it. */
  function TestMoved(job: Job, connected: bool): Job {
    var status := if connected then Queued else WaitingAccount;
    var modules := map k | k in job.modules ::
      if Active(job) && job.submitUnanswered && k == Collector && job.modules[k].status !in {Done, Stopped, Paused}
      then Bumped(job.modules[k], status) else job.modules[k];
    if connected && job.status == JobWaiting then job.(modules := Requeued(modules), status := JobQueued)
    else job.(modules := modules)
  }

  /** The shared collecting accounts have changed: a collector that waited for one, or lost
      the one it used, starts over. */
  function SharedMoved(job: Job, cancelled: bool): Job {
    var modules := map k | k in job.modules ::
      if Active(job) && job.submitUnanswered && k == Collector
         && (job.modules[k].status in {WaitingAccount, WaitingEnrollment} || (cancelled
           && job.modules[k].status == Running))
      then Bumped(job.modules[k], Queued) else job.modules[k];
    var requeued :=
      if job.status == JobWaiting && Collector in modules && modules[Collector].status == Queued then Requeued(modules)
      else modules;
    if job.status == JobWaiting && AnyIs(requeued, {Queued}) then
      job.(modules := requeued, status := JobQueued, revision := job.revision + 1)
    else job.(modules := requeued)
  }

  function Recovered(job: Job): Job {
    if !Active(job) then job
    else
      var modules := map k | k in job.modules ::
        if job.modules[k].status in {Running, Queued, WaitingAnswers, WaitingRateLimit}
        then Bumped(job.modules[k], Queued) else job.modules[k];
      if AnyIs(modules, {Queued}) then
        job.(modules := modules, status := JobQueued, revision := job.revision + 1)
      else job.(modules := modules)
  }

  function Touched(job: Job): Job {
    job.(revision := job.revision + 1)
  }

  /** Whether an event writes anything. */
  predicate Effective(job: Job, e: Event) {
    match e
    case Begin(kind) => Beginnable(job, kind)
    case Progress(kind, generation, _) => Current(job, kind, generation)
    case Finish(kind, generation, _, _) => Current(job, kind, generation)
    case Crash(kind, generation) => Restartable(job, kind, generation)
    case _ => true
  }

  function Step(job: Job, e: Event): Job {
    if !Effective(job, e) then job
    else
      match e
      case Add(kinds) => Touched(job.(modules := Added(job.modules, kinds)))
      case Dispatch => if job.status == JobQueued then job.(status := JobRunning) else job
      case Mark(kind, status) =>
        if !Markable(job, kind) then Touched(job)
        else
          var m := if kind in job.modules then job.modules[kind] else FRESH;
          Touched(job.(modules := job.modules[kind := m.(status := status)]))
      case Begin(kind) => Touched(job.(modules := job.modules[kind := Bumped(job.modules[kind], Running)]))
      case Progress(kind, _, total) =>
        var m := job.modules[kind];
        Touched(job.(modules := job.modules[kind := m.(total := Max(m.total, total))]))
      case Finish(kind, _, result, total) =>
        var m := job.modules[kind];
        Touched(job.(modules := job.modules[kind := m.(status := result, total := Max(m.total, total))]))
      case Crash(kind, _) =>
        var m := job.modules[kind];
        job.(modules := job.modules[kind := m.(status := Queued, restarts := m.restarts + 1)])
      case Control(action, kinds) =>
        Touched(job.(modules := Controlled(job.modules, action, kinds),
                     status := ControlledStatus(job.status, action, kinds)))
      case Aggregate => Touched(job.(status := Aggregated(job)))
      case PrimaryChanged => if Active(job) then job.(modules := PrimaryLost(job)) else job
      case TestChanged(connected) => TestMoved(job, connected)
      case SharedChanged(cancelled) => SharedMoved(job, cancelled)
      case Recover => Recovered(job)
  }

  /** The engine never marks a module as running, and no run of a module ends as running. */
  predicate Proper(e: Event) {
    (e.Mark? ==> e.status != Running) && (e.Finish? ==> e.result != Running)
  }

  // ---------------------------------------------------------------- runs

  function Run(job: Job, events: seq<Event>): Job {
    if events == [] then job else Step(Run(job, events[..|events| - 1]), events[|events| - 1])
  }

  /** The job just before event i. */
  function Before(job: Job, events: seq<Event>, i: nat): Job
    requires i <= |events|
  {
    Run(job, events[..i])
  }

  function GenerationAt(job: Job, events: seq<Event>, i: nat, kind: Kind): int
    requires i <= |events|
  {
    var j := Before(job, events, i);
    if kind in j.modules then j.modules[kind].generation else 0
  }

  predicate TakesEffect(job: Job, events: seq<Event>, i: nat)
    requires i < |events|
  {
    Effective(Before(job, events, i), events[i])
  }

  predicate Legal(job: Job) {
    forall k | k in job.modules :: job.modules[k].generation >= 0 && job.modules[k].restarts >= 0
  }

  lemma {:induction false} AddedKeeps(modules: map<Kind, Module>, kinds: seq<Kind>, k: Kind)
    ensures k in modules ==> k in Added(modules, kinds) && Added(modules, kinds)[k] == modules[k]
    ensures k !in modules && k in Added(modules, kinds) ==> Added(modules, kinds)[k] == FRESH
  {
    if kinds != [] {
      AddedKeeps(modules, kinds[..|kinds| - 1], k);
    }
  }

  /** The module has not lost a generation or a restart, and if it runs it did before, or
      has a new generation. */
  predicate Grown(before: map<Kind, Module>, after: map<Kind, Module>, k: Kind) {
    k in before ==>
      && k in after && after[k].generation >= before[k].generation && after[k].restarts >= before[k].restarts
      && (after[k].status == Running ==> before[k].status == Running || after[k].generation > before[k].generation)
  }

  lemma TestGrows(job: Job, connected: bool, k: Kind)
    ensures Grown(job.modules, TestMoved(job, connected).modules, k)
  {
  }

  lemma SharedGrows(job: Job, cancelled: bool, k: Kind)
    ensures Grown(job.modules, SharedMoved(job, cancelled).modules, k)
  {
  }

  lemma PrimaryGrows(job: Job, k: Kind)
    ensures Grown(job.modules, PrimaryLost(job), k)
  {
  }

  lemma RecoveryGrows(job: Job, k: Kind)
    ensures Grown(job.modules, Recovered(job).modules, k)
  {
  }

  lemma ControlGrows(job: Job, e: Event, k: Kind)
    requires e.Control? || e.Add? || e.Aggregate? || e.Dispatch?
    ensures Grown(job.modules, Step(job, e).modules, k)
  {
    if e.Add? {
      AddedKeeps(job.modules, e.kinds, k);
    }
  }

  lemma WriteGrows(job: Job, e: Event, k: Kind)
    requires Proper(e) && (e.Mark? || e.Begin? || e.Progress? || e.Finish? || e.Crash?)
    ensures Grown(job.modules, Step(job, e).modules, k)
  {
  }

  /** No step lowers a generation or a count of restarts, or forgets a module; and a module
      that does not run starts to run only with a new generation. */
  lemma StepGrows(job: Job, e: Event, k: Kind)
    requires Proper(e)
    ensures Grown(job.modules, Step(job, e).modules, k)
  {
    match e
    case Control(_, _) => ControlGrows(job, e, k);
    case Add(_) => ControlGrows(job, e, k);
    case Aggregate => ControlGrows(job, e, k);
    case Dispatch => ControlGrows(job, e, k);
    case PrimaryChanged => PrimaryGrows(job, k);
    case TestChanged(connected) => TestGrows(job, connected, k);
    case SharedChanged(cancelled) => SharedGrows(job, cancelled, k);
    case Recover => RecoveryGrows(job, k);
    case _ => WriteGrows(job, e, k);
  }

  lemma StepKeepsModules(job: Job, e: Event, k: Kind)
    requires k in job.modules
    ensures k in Step(job, e).modules
    ensures Step(job, e).modules[k].generation >= job.modules[k].generation
    ensures Step(job, e).modules[k].restarts >= job.modules[k].restarts
  {
    if Proper(e) {
      StepGrows(job, e, k);
    }
  }

  lemma StepIsLegal(job: Job, e: Event)
    requires Legal(job)
    ensures Legal(Step(job, e))
  {
    forall k | k in Step(job, e).modules
      ensures Step(job, e).modules[k].generation >= 0 && Step(job, e).modules[k].restarts >= 0
    {
      if k in job.modules {
        StepKeepsModules(job, e, k);
      } else if e.Add? {
        AddedKeeps(job.modules, e.kinds, k);
      }
    }
  }

  lemma OneMore(job: Job, events: seq<Event>, i: nat)
    requires i < |events|
    ensures Before(job, events, i + 1) == Step(Before(job, events, i), events[i])
  {
    assert events[..i + 1][..i] == events[..i];
  }

  lemma {:induction false} RunIsLegal(job: Job, events: seq<Event>, i: nat)
    requires Legal(job) && i <= |events|
    ensures Legal(Before(job, events, i))
  {
    if i > 0 {
      RunIsLegal(job, events, i - 1);
      OneMore(job, events, i - 1);
      StepIsLegal(Before(job, events, i - 1), events[i - 1]);
    }
  }

  /** Over any run, generations never decrease. */
  lemma {:induction false} GenerationsNeverDecrease(job: Job, events: seq<Event>, i: nat, j: nat, kind: Kind)
    requires Legal(job) && i <= j <= |events|
    ensures GenerationAt(job, events, i, kind) <= GenerationAt(job, events, j, kind)
    ensures kind in Before(job, events, i).modules ==> kind in Before(job, events, j).modules
    decreases j
  {
    if i < j {
      GenerationsNeverDecrease(job, events, i, j - 1, kind);
      OneMore(job, events, j - 1);
      RunIsLegal(job, events, j);
      if kind in Before(job, events, j - 1).modules {
        StepKeepsModules(Before(job, events, j - 1), events[j - 1], kind);
      }
    }
  }

  /** Every beginning is given a generation that no one held before. */
  lemma BeginIsFresh(job: Job, events: seq<Event>, i: nat, j: nat)
    requires Legal(job) && i < j < |events| && events[j].Begin? && TakesEffect(job, events, j)
    ensures GenerationAt(job, events, i + 1, events[j].kind) < GenerationAt(job, events, j + 1, events[j].kind)
  {
    GenerationsNeverDecrease(job, events, i + 1, j, events[j].kind);
    OneMore(job, events, j);
  }

  /** The generation that a write names, of a module. */
  predicate WritesAs(e: Event, kind: Kind, generation: int) {
    match e
    case Progress(k, g, _) => k == kind && g == generation
    case Finish(k, g, _, _) => k == kind && g == generation
    case Crash(k, g) => k == kind && g == generation
    case _ => false
  }

  /** The event gives the module a new generation. */
  predicate Bumps(job: Job, e: Event, kind: Kind) {
    var after := Step(job, e).modules;
    kind in job.modules && kind in after && after[kind].generation > job.modules[kind].generation
  }

  /** When a change of accounts, or a restart of the service, bumps a module. */
  predicate AccountBumps(job: Job, e: Event, kind: Kind)
    requires kind in job.modules
  {
    var status := job.modules[kind].status;
    var shared := kind == Collector && job.submitUnanswered;
    Active(job) &&
      match e
      case PrimaryChanged => !shared && status in {Running, Queued, WaitingAnswers, WaitingAccount}
      case TestChanged(_) => shared && status !in {Done, Stopped, Paused}
      case SharedChanged(cancelled) =>
        shared && (status in {WaitingAccount, WaitingEnrollment} || (cancelled && status == Running))
      case Recover => status in {Running, Queued, WaitingAnswers, WaitingRateLimit}
      case _ => false
  }

  lemma WhatOwnAccountsBump(job: Job, e: Event, kind: Kind)
    requires kind in job.modules && (e.PrimaryChanged? || e.Recover?)
    ensures Bumps(job, e, kind) <==> AccountBumps(job, e, kind)
  {
  }

  lemma WhatTestBumps(job: Job, e: Event, kind: Kind)
    requires kind in job.modules && e.TestChanged?
    ensures Bumps(job, e, kind) <==> AccountBumps(job, e, kind)
  {
  }

  lemma WhatSharedBumps(job: Job, e: Event, kind: Kind)
    requires kind in job.modules && e.SharedChanged?
    ensures Bumps(job, e, kind) <==> AccountBumps(job, e, kind)
  {
    if kind != Collector {
      SharedKeeps(job, e, kind);
    }
  }

  lemma SharedKeeps(job: Job, e: Event, kind: Kind)
    requires kind in job.modules && e.SharedChanged? && kind != Collector
    ensures kind in Step(job, e).modules && Step(job, e).modules[kind].generation == job.modules[kind].generation
  {
  }

  /** What bumps a module: that it begins, that the user controls it, that an account it
      depends on changes, or that the service restarts. */
  lemma WhatBumps(job: Job, e: Event, kind: Kind)
    requires kind in job.modules
    ensures Bumps(job, e, kind) <==>
      match e
      case Begin(k) => k == kind && Beginnable(job, kind)
      case Control(action, scope) => Covers(scope, kind) && (action == Resume ==> job.modules[kind].status != Done)
      case _ => AccountBumps(job, e, kind)
  {
    match e
    case PrimaryChanged => WhatOwnAccountsBump(job, e, kind);
    case Recover => WhatOwnAccountsBump(job, e, kind);
    case TestChanged(_) => WhatTestBumps(job, e, kind);
    case SharedChanged(_) => WhatSharedBumps(job, e, kind);
    case Add(kinds) => AddedKeeps(job.modules, kinds, kind);
    case _ =>
  }

  /** A write with the generation of a beginning counts only if nothing has bumped the module
      since. */
  lemma WritesAreFenced(job: Job, events: seq<Event>, i: nat, n: nat, j: nat, kind: Kind)
    requires Legal(job) && i < n < j < |events|
    requires events[i] == Begin(kind) && TakesEffect(job, events, i)
    requires WritesAs(events[j], kind, GenerationAt(job, events, i + 1, kind)) && TakesEffect(job, events, j)
    ensures kind in Before(job, events, n).modules && !Bumps(Before(job, events, n), events[n], kind)
  {
    OneMore(job, events, i);
    OneMore(job, events, n);
    GenerationsNeverDecrease(job, events, i + 1, n, kind);
    GenerationsNeverDecrease(job, events, n, n + 1, kind);
    GenerationsNeverDecrease(job, events, n + 1, j, kind);
  }

  /** A module that has ended keeps from running as long as its generation lasts. */
  lemma {:induction false} EndedStaysEnded(job: Job, events: seq<Event>, i: nat, j: nat, kind: Kind)
    requires Legal(job) && i <= j <= |events| && forall n | 0 <= n < |events| :: Proper(events[n])
    requires kind in Before(job, events, i).modules && Before(job, events, i).modules[kind].status != Running
    requires GenerationAt(job, events, j, kind) == GenerationAt(job, events, i, kind)
    ensures kind in Before(job, events, j).modules && Before(job, events, j).modules[kind].status != Running
    decreases j
  {
    if i < j {
      GenerationsNeverDecrease(job, events, i, j - 1, kind);
      GenerationsNeverDecrease(job, events, j - 1, j, kind);
      EndedStaysEnded(job, events, i, j - 1, kind);
      OneMore(job, events, j - 1);
      StepGrows(Before(job, events, j - 1), events[j - 1], kind);
    }
  }

  /** At most one finish per generation takes effect. */
  lemma OneFinishPerGeneration(job: Job, events: seq<Event>, i: nat, j: nat)
    requires Legal(job) && i < j < |events| && forall n | 0 <= n < |events| :: Proper(events[n])
    requires events[i].Finish? && events[j].Finish?
    requires events[i].kind == events[j].kind && events[i].generation == events[j].generation
    ensures !(TakesEffect(job, events, i) && TakesEffect(job, events, j))
  {
    if TakesEffect(job, events, i) && TakesEffect(job, events, j) {
      OneMore(job, events, i);
      EndedStaysEnded(job, events, i + 1, j, events[i].kind);
    }
  }

  /** The result must not be "running": such a finish ends nothing, and a second one counts. */
  lemma FinishedAsRunning(job: Job, kind: Kind, generation: int, total: int)
    requires Current(job, kind, generation)
    ensures forall result ::
      Effective(Step(job, Finish(kind, generation, result, total)), Finish(kind, generation, result, total))
      <==> result == Running
  {
  }

  lemma {:induction false} RestartsNeverDecrease(job: Job, events: seq<Event>, i: nat, j: nat, kind: Kind)
    requires i <= j <= |events| && kind in Before(job, events, i).modules
    ensures kind in Before(job, events, j).modules
    ensures Before(job, events, i).modules[kind].restarts <= Before(job, events, j).modules[kind].restarts
    decreases j
  {
    if i < j {
      RestartsNeverDecrease(job, events, i, j - 1, kind);
      OneMore(job, events, j - 1);
      StepKeepsModules(Before(job, events, j - 1), events[j - 1], kind);
    }
  }

  /** At most one crash restart takes effect in the life of a module. */
  lemma OneRestartPerModule(job: Job, events: seq<Event>, i: nat, j: nat)
    requires Legal(job) && i < j < |events| && events[i].Crash? && events[j].Crash? && events[i].kind == events[j].kind
    ensures !(TakesEffect(job, events, i) && TakesEffect(job, events, j))
  {
    if TakesEffect(job, events, i) && TakesEffect(job, events, j) {
      RunIsLegal(job, events, i);
      OneMore(job, events, i);
      RestartsNeverDecrease(job, events, i + 1, j, events[i].kind);
    }
  }

  // ---------------------------------------------------------------- done, and recovery

  /** Done is not for good: a module stops being done exactly by a pause or a stop that
      covers it, or by a crash restart that still has its generation. */
  lemma DoneEnds(job: Job, e: Event, kind: Kind)
    requires kind in job.modules && job.modules[kind].status == Done
    ensures kind in Step(job, e).modules
    ensures Step(job, e).modules[kind].status != Done <==>
      || (e.Control? && e.action != Resume && Covers(e.scope, kind))
      || (e.Crash? && e.kind == kind && Restartable(job, kind, e.generation))
  {
    StepKeepsModules(job, e, kind);
    if e.Add? {
      AddedKeeps(job.modules, e.kinds, kind);
    }
  }

  /** A job is done exactly when all of its modules are. */
  lemma DoneMeansAllDone(job: Job)
    requires job.status !in {JobPaused, JobStopped, JobDone}
    ensures Aggregated(job) == JobDone <==> forall k | k in job.modules :: job.modules[k].status == Done
  {
    if Aggregated(job) == JobDone {
      forall k | k in job.modules ensures job.modules[k].status == Done {
        assert job.modules[k].status !in {Queued, Running, WaitingRateLimit};
      }
    }
  }

  /** A restart re-queues the modules that were under way in an active job, each with a new
      generation, and leaves what the user has paused or stopped. */
  lemma RecoveryRequeues(job: Job, kind: Kind)
    requires kind in job.modules
    ensures var r := Step(job, Recover);
      && kind in r.modules
      && (r.modules[kind] != job.modules[kind] <==>
            Active(job) && job.modules[kind].status in {Running, Queued, WaitingAnswers, WaitingRateLimit})
      && (r.modules[kind] != job.modules[kind] ==>
            r.modules[kind] == Bumped(job.modules[kind], Queued) && r.status == JobQueued)
      && (Active(job) ==> r.modules[kind].status != Running)
      && (job.status in {JobPaused, JobStopped} ==> r == job)
  {
  }

  /** What was under way before the service restarted can report and finish nothing after it. */
  lemma RecoveryFences(job: Job, events: seq<Event>, n: nat, j: nat, kind: Kind, generation: int)
    requires Legal(job) && n < j < |events| && forall m | 0 <= m < |events| :: Proper(events[m])
    requires events[n].Recover? && Active(Before(job, events, n)) && kind in Before(job, events, n).modules
    requires generation <= GenerationAt(job, events, n, kind)
    requires (events[j].Progress? || events[j].Finish?) && WritesAs(events[j], kind, generation)
    ensures !TakesEffect(job, events, j)
  {
    OneMore(job, events, n);
    RecoveryRequeues(Before(job, events, n), kind);
    GenerationsNeverDecrease(job, events, n + 1, j, kind);
    if TakesEffect(job, events, j) {
      EndedStaysEnded(job, events, n + 1, j, kind);
    }
  }

  /** Over any run: a job becomes done exactly by an aggregation at which all of its modules
      are done. */
  lemma JobsBecomeDone(job: Job, events: seq<Event>, i: nat)
    requires i < |events|
    ensures var before := Before(job, events, i);
      before.status != JobDone && Before(job, events, i + 1).status == JobDone
      <==> events[i].Aggregate? && before.status !in {JobPaused, JobStopped, JobDone}
           && forall k | k in before.modules :: before.modules[k].status == Done
  {
    var before := Before(job, events, i);
    OneMore(job, events, i);
    if before.status !in {JobPaused, JobStopped, JobDone} {
      DoneMeansAllDone(before);
    }
  }

  // ---------------------------------------------------------------- the repository

  /** One job on record (internal/jobs/repository.go:77-192). */
  class Record {
    var job: Job
    /** Every call so far. */
    ghost var events: seq<Event>
    ghost const first: Job

    ghost predicate Valid()
      reads this
    {
      job == Run(first, events) && Legal(first)
    }

    constructor (kinds: seq<Kind>, submitUnanswered: bool)
      ensures Valid() && events == [] && job == Job(JobQueued, submitUnanswered, Added(map[], kinds), 2)
    {
      job := Job(JobQueued, submitUnanswered, Added(map[], kinds), 2);
      first := Job(JobQueued, submitUnanswered, Added(map[], kinds), 2);
      events := [];
      new;
      forall k | k in job.modules ensures job.modules[k] == FRESH {
        AddedKeeps(map[], kinds, k);
      }
    }

    ghost method Log(e: Event)
      requires job == Step(Run(first, events), e) && Legal(first)
      modifies this`events
      ensures Valid() && events == old(events) + [e]
    {
      assert (events + [e])[..|events|] == events;
      events := events + [e];
    }

    method AddModules(kinds: seq<Kind>)
      requires Valid()
      modifies this
      ensures Valid() && events == old(events) + [Add(kinds)]
    {
      var modules := job.modules;
      for i := 0 to |kinds|
        invariant modules == Added(job.modules, kinds[..i])
      {
        assert kinds[..i + 1][..i] == kinds[..i];
        if kinds[i] !in modules {
          modules := modules[kinds[i] := FRESH];
        }
      }
      assert kinds[..|kinds|] == kinds;
      job := job.(modules := modules, revision := job.revision + 1);
      Log(Add(kinds));
    }

    /** Begins a module: the new generation is greater than any that was ever current. */
    method BeginModule(kind: Kind) returns (generation: Option<int>)
      requires Valid()
      modifies this
      ensures Valid() && events == old(events) + [Begin(kind)]
      ensures generation.Some? <==> Beginnable(old(job), kind)
      ensures generation.Some? ==> job.modules[kind].generation == generation.value
      ensures generation.Some? ==>
        forall i | 0 <= i <= |old(events)| :: GenerationAt(first, events, i, kind) < generation.value
    {
      ghost var n := |events|;
      generation := None;
      if job.status == JobRunning && kind in job.modules && job.modules[kind].status == Queued {
        var m := job.modules[kind].(generation := job.modules[kind].generation + 1, status := Running);
        job := job.(modules := job.modules[kind := m], revision := job.revision + 1);
        generation := Some(m.generation);
      }
      Log(Begin(kind));
      if generation.Some? {
        assert events[..n] == old(events);
        forall i | 0 <= i <= n ensures GenerationAt(first, events, i, kind) < generation.value {
          GenerationsNeverDecrease(first, events, i, n, kind);
        }
      }
    }

    /** A report from a run; refused (the run is cancelled) unless its generation is current. */
    method Report(kind: Kind, generation: int, total: int) returns (ok: bool)
      requires Valid()
      modifies this
      ensures Valid() && events == old(events) + [Progress(kind, generation, total)]
      ensures ok <==> Current(old(job), kind, generation)
    {
      ok := Current(job, kind, generation);
      if ok {
        var m := job.modules[kind];
        job := job.(modules := job.modules[kind := m.(total := Max(m.total, total))], revision := job.revision + 1);
      }
      Log(Progress(kind, generation, total));
    }

    method FinishModule(kind: Kind, generation: int, result: Status, total: int) returns (ok: bool)
      requires Valid()
      modifies this
      ensures Valid() && events == old(events) + [Finish(kind, generation, result, total)]
      ensures ok <==> Current(old(job), kind, generation)
      ensures !ok ==> job == old(job)
    {
      ok := Current(job, kind, generation);
      if ok {
        var m := job.modules[kind].(status := result);
        m := m.(total := if m.total < total then total else m.total);
        job := job.(modules := job.modules[kind := m], revision := job.revision + 1);
      }
      Log(Finish(kind, generation, result, total));
    }

    method RestartCrashed(kind: Kind, generation: int) returns (ok: bool)
      requires Valid()
      modifies this
      ensures Valid() && events == old(events) + [Crash(kind, generation)]
      ensures ok <==> Restartable(old(job), kind, generation)
    {
      ok := Restartable(job, kind, generation);
      if ok {
        var m := job.modules[kind];
        job := job.(modules := job.modules[kind := m.(status := Queued, restarts := m.restarts + 1)]);
      }
      Log(Crash(kind, generation));
    }

    method ControlModules(action: Action, kinds: Option<Kind>)
      requires Valid()
      modifies this
      ensures Valid() && events == old(events) + [Control(action, kinds)]
      ensures forall k, g | action != Resume && Covers(kinds, k) :: !Current(job, k, g)
    {
      var status := ActionStatus(action);
      var modules := Controlled(job.modules, action, kinds);
      var jobStatus := job.status;
      if kinds.None? || status == Queued {
        jobStatus := if action == Pause then JobPaused else if action == Stop then JobStopped else JobQueued;
      }
      job := job.(modules := modules, status := jobStatus, revision := job.revision + 1);
      Log(Control(action, kinds));
    }
  }
}
