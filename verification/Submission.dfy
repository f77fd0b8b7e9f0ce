/**
 The resumable submission of one answer (internal/operations/submissions.go) as a
 transition system. Any number of runners work on the row of one question key, each step
 is one interaction with the journal or the platform, steps interleave freely, and a
 runner may stop, by cancellation or by a crash of the process, between any two of them.
 */
module Submissions {
  import opened Options
  import opened Platform
  import opened Journals

  /** single: submit runs under a single-flight group, so no second runner starts while one
      is active. delays: the number of re-reads that one reconciliation makes. */
  datatype Config = Config(runners: nat, single: bool, delays: nat)

  /** What submit does when a reconciliation ends without finding an answer. */
  datatype Then = Resume | AfterError(retryable: bool) | AfterReply

  datatype Pc =
    | Idle
    | Loaded
    | Checking(left: nat, after: Then)
    | Confirming
    | Retrying
    | Claiming
    | InFlight(took: bool)
    | Settling(outcome: Outcome, took: bool, cancelled: bool)

  datatype Runner = Runner(pc: Pc, rec: Record)

  /** A pending save that went through, and so one request sent. */
  datatype Claim = Claim(runner: nat, attempt: nat)

  /** op: the row. accepted: how many of the sent requests the platform took. */
  datatype System = System(op: Option<Operation>, accepted: nat, runners: seq<Runner>, claims: seq<Claim>)

  datatype ReadOutcome = ReadFailed | Changed | BadCount | Counted(others: nat)

  datatype Event =
    | Start(id: nat, bound: bool, blocked: bool)
    | Preserve(id: nat, legacy: seq<Legacy>)
    | Read(id: nat, found: ReadOutcome)
    | Save(id: nat)
    | Take(id: nat)
    | Reply(id: nat, outcome: Outcome, cancelled: bool)
    | Stop(id: nat)

  function Init(cfg: Config): System {
    System(None, 0, seq(cfg.runners, _ => Runner(Idle, Snapshot(Fresh()))), [])
  }

  /** After a reconciliation in which every read counted no answer. */
  function Continue(rec: Record, after: Then): Pc {
    match after
    case Resume =>
      if rec.state.Posted? || rec.state.Confirmed? || !rec.retryable then Idle
      else if !rec.state.RetryReady? then Retrying
      else Claiming
    case AfterError(retryable) => if retryable then Retrying else Idle
    case AfterReply => Idle
  }

  function Check(cfg: Config, rec: Record, after: Then): Pc {
    if cfg.delays == 0 then Continue(rec, after) else Checking(cfg.delays, after)
  }

  /** How submit begins, given the record it loaded. */
  function Begin(cfg: Config, rec: Record): Pc {
    if !rec.state.New? && !rec.state.Rejected? && !rec.state.NotSent? then Check(cfg, rec, Resume)
    else if rec.state.NotSent? then Retrying
    else Claiming
  }

  /** The error that submit sees: an answer of 500 or more counts as a lost connection. */
  function SeenError(o: Outcome): Option<Failure> {
    match o
    case Failed(e) => Some(e)
    case Replied(r) => if r.status >= 500 then Some(Transport(true, true)) else None
  }

  predicate ExplicitlyRejected(r: Response) {
    SaysFailure(r) || r.status == 400 || r.status == 401 || r.status == 403 || r.status == 404 || r.status == 422
  }

  /** A journal save that submit is about to make, and where it goes on after it. */
  datatype Saving = Saving(state: State, retries: nat, retryable: bool, next: Pc)

  /** What submit writes when a call has ended. */
  function Settle(cfg: Config, rec: Record, o: Outcome, cancelled: bool): Saving {
    match SeenError(o)
    case Some(e) =>
      var notSent := e.Transport? && !e.connected;
      var retryable := e.Transport? && e.transient;
      var state :=
        if e.Coded? && (e.code.AccountRequired? || e.code.AccessDenied?) then Rejected
        else if notSent then NotSent
        else Unknown;
      var after := Saved(rec, state, rec.retries, retryable || cancelled);
      Saving(state, rec.retries, retryable || cancelled,
             if cancelled || state.Rejected? then Idle
             else if !notSent then Check(cfg, after, AfterError(retryable))
             else if retryable then Retrying
             else Idle)
    case None =>
      var r := o.response;
      if RateLimited(r) then Saving(Rejected, rec.retries, true, Claiming)
      else if DataFault(r).Some? then
        if ExplicitlyRejected(r) then Saving(Rejected, rec.retries, false, Idle)
        else Saving(Unknown, rec.retries, false, Check(cfg, Saved(rec, Unknown, rec.retries, false), AfterReply))
      else if !HasData(r) then Saving(Unknown, rec.retries, false, Idle)
      else Saving(Posted, rec.retries, false, Idle)
  }

  /** The save that is due at a program point. */
  function Due(cfg: Config, pc: Pc, rec: Record): Option<Saving> {
    match pc
    case Confirming => Some(Saving(Confirmed, rec.retries, rec.retryable, Idle))
    case Retrying =>
      if rec.retries >= 2 then Some(Saving(RetryExhausted, rec.retries, true, Idle))
      else Some(Saving(RetryReady, rec.retries + 1, true, Claiming))
    case Claiming => Some(Saving(Pending, rec.retries, true, InFlight(false)))
    case Settling(o, _, cancelled) => Some(Settle(cfg, rec, o, cancelled))
    case _ => None
  }

  function Put(s: System, id: nat, pc: Pc, rec: Record): System
    requires id < |s.runners|
  {
    s.(runners := s.runners[id := Runner(pc, rec)])
  }

  /** The compare-and-set of Journal.Save, then the next program point. */
  function Write(s: System, id: nat, w: Saving): System
    requires id < |s.runners|
  {
    var rec := s.runners[id].rec;
    if s.op.None? || !Matches(s.op.value, rec) then Put(s, id, Idle, rec)
    else
      var claims := if w.state.Pending? then s.claims + [Claim(id, NextAttempt(rec, w.state))] else s.claims;
      Put(s.(op := Some(Written(s.op.value, rec, w.state, w.retries, w.retryable)), claims := claims),
          id, w.next, Saved(rec, w.state, w.retries, w.retryable))
  }

  predicate AllIdle(s: System) {
    forall i | 0 <= i < |s.runners| :: s.runners[i].pc.Idle?
  }

  /** One step; an event that does not fit the state changes nothing. */
  function Step(cfg: Config, s: System, e: Event): System {
    if e.id >= |s.runners| then s
    else
      var pc, rec := s.runners[e.id].pc, s.runners[e.id].rec;
      match e
      case Start(id, bound, blocked) =>
        if !pc.Idle? || !bound || blocked || (cfg.single && !AllIdle(s)) then s
        else
          var op := if s.op.Some? then s.op.value else Fresh();
          Put(s.(op := Some(op)), id, Loaded, Snapshot(op))
      case Preserve(id, legacy) =>
        if !pc.Loaded? then s
        else if !rec.state.New? || legacy == [] then Put(s, id, Begin(cfg, rec), rec)
        else
          var r := Saved(rec, LegacyState(legacy), AtMostTwo(LegacyRetries(legacy)), LegacyRetryable(legacy));
          Write(s, id, Saving(r.state, r.retries, r.retryable, Begin(cfg, r)))
      case Read(id, found) =>
        if !pc.Checking? || pc.left == 0 then s
        else if !found.Counted? then Put(s, id, Idle, rec)
        // The platform's count includes every request it has taken by now.
        else if found.others + s.accepted > 0 then Put(s, id, Confirming, rec)
        else Put(s, id, if pc.left == 1 then Continue(rec, pc.after) else Checking(pc.left - 1, pc.after), rec)
      case Save(id) =>
        var due := Due(cfg, pc, rec);
        if due.Some? then Write(s, id, due.value) else s
      case Take(id) =>
        if pc.InFlight? && !pc.took then Put(s.(accepted := s.accepted + 1), id, InFlight(true), rec) else s
      case Reply(id, o, cancelled) =>
        if pc.InFlight? && Honest(o, pc.took) then Put(s, id, Settling(o, pc.took, cancelled), rec) else s
      case Stop(id) => Put(s, id, Idle, rec)
  }

  function Run(cfg: Config, s: System, es: seq<Event>): System
    decreases |es|
  {
    if es == [] then s else Step(cfg, Run(cfg, s, es[..|es| - 1]), es[|es| - 1])
  }

  lemma RunOne(cfg: Config, s: System, es: seq<Event>, e: Event)
    ensures Run(cfg, s, es + [e]) == Step(cfg, Run(cfg, s, es), e)
  {
    assert (es + [e])[..|es + [e]| - 1] == es;
  }

  lemma {:induction false} RunAppends(cfg: Config, s: System, es: seq<Event>, fs: seq<Event>)
    ensures Run(cfg, s, es + fs) == Run(cfg, Run(cfg, s, es), fs)
    decreases |fs|
  {
    if fs == [] {
      assert es + fs == es;
    } else {
      var front, e := fs[..|fs| - 1], fs[|fs| - 1];
      var most := es + front;
      assert fs == front + [e] && es + fs == most + [e];
      RunAppends(cfg, s, es, front);
      RunOne(cfg, s, most, e);
      RunOne(cfg, Run(cfg, s, es), front, e);
    }
  }

  // ---------------------------------------------------------------- what a step comes to

  /** The reply says that the platform has taken the answer. */
  predicate SaysTaken(o: Outcome) {
    && o.Replied? && o.response.status == 200 && o.response.json.Some?
    && !o.response.json.value.successFalse && !o.response.json.value.badCode && o.response.json.value.hasData
  }

  /** It asks to wait and to send the answer again. */
  predicate SaysLater(o: Outcome) {
    && o.Replied? && o.response.status < 500 && o.response.status != 403
    && (o.response.status == 429 ||
        (o.response.json.Some? && o.response.json.value.successFalse && o.response.json.value.limitedWords))
  }

  /** It says that the answer has not been taken. */
  predicate SaysRefused(o: Outcome) {
    match o
    case Failed(e) => e == Coded(AccountRequired) || e == Coded(AccessDenied)
    case Replied(r) =>
      r.status < 500 && ((r.json.Some? && r.json.value.successFalse) || r.status in {400, 401, 403, 404, 422, 429})
  }

  /** The connection was lost, before the request was sent or after it. */
  predicate LostBefore(o: Outcome) {
    o.Failed? && o.error.Transport? && !o.error.connected
  }

  predicate LostAfter(o: Outcome) {
    (o.Failed? && o.error.Transport? && o.error.connected) || (o.Replied? && o.response.status >= 500)
  }

  /** What the end of a call is saved as. */
  lemma RepliesAreSaved(cfg: Config, rec: Record, o: Outcome, cancelled: bool)
    ensures var w := Settle(cfg, rec, o, cancelled);
      && w.retries == rec.retries
      && (w.state == Posted <==> SaysTaken(o))
      && (w.state == NotSent <==> LostBefore(o))
      && (w.state == Rejected <==> SaysRefused(o))
      && (w.state == Unknown <==> !SaysTaken(o) && !LostBefore(o) && !SaysRefused(o))
  {
  }

  /** Whether what is saved may be tried again: after a throttled reply or a passing failure of
      the connection, and after any failure that a cancellation may have caused. */
  lemma RepliesAreRetryable(cfg: Config, rec: Record, o: Outcome, cancelled: bool)
    ensures Settle(cfg, rec, o, cancelled).retryable <==>
      || SaysLater(o) || (o.Replied? && o.response.status >= 500)
      || (o.Failed? && (cancelled || (o.error.Transport? && o.error.transient)))
  {
  }

  /** Where submit goes on: it sends again only if asked to, it looks at the platform if the
      answer may have been taken, and otherwise it retries what was never sent, or ends. */
  lemma RepliesLeadOn(cfg: Config, rec: Record, o: Outcome, cancelled: bool)
    requires cfg.delays > 0
    ensures var next := Settle(cfg, rec, o, cancelled).next;
      && (next == Claiming <==> SaysLater(o))
      && (next.Checking? <==>
            || (LostAfter(o) && !cancelled)
            || (o.Failed? && !o.error.Transport? && !SaysRefused(o) && !cancelled)
            || (o.Replied? && o.response.status < 500 && !SaysRefused(o)
                && (o.response.status != 200 || o.response.json.None? || o.response.json.value.badCode)))
      && (next == Retrying <==> LostBefore(o) && o.error.transient && !cancelled)
      && (next.Checking? ==> next.left == cfg.delays)
      && (next == Claiming || next.Checking? || next == Retrying || next == Idle)
  {
  }

  /** How submit begins with a row: it sends what the platform has not taken, retries what was
      never sent, and looks at the platform in all other states. */
  lemma BeginIs(cfg: Config, rec: Record)
    requires cfg.delays > 0
    ensures Begin(cfg, rec) ==
      if rec.state in {New, Rejected} then Claiming
      else if rec.state == NotSent then Retrying
      else Checking(cfg.delays, Resume)
  {
  }

  /** When the platform shows no answer: a row that was to be sent again is, one that may be
      retried is retried, and any other is left for a person to look at. */
  lemma ContinueIs(rec: Record, retryable: bool)
    ensures Continue(rec, Resume) == Claiming <==> rec.state == RetryReady && rec.retryable
    ensures Continue(rec, Resume) == Retrying <==>
      rec.retryable && rec.state in {New, Pending, Rejected, NotSent, Unknown, RetryExhausted}
    ensures Continue(rec, AfterError(retryable)) == Retrying <==> retryable
    ensures Continue(rec, AfterReply) == Idle
    ensures forall after :: Continue(rec, after) in {Claiming, Retrying, Idle}
  {
  }

  /** The saves that do not depend on a reply. */
  lemma DueIs(cfg: Config, rec: Record)
    ensures Due(cfg, Confirming, rec) == Some(Saving(Confirmed, rec.retries, rec.retryable, Idle))
    ensures Due(cfg, Claiming, rec) == Some(Saving(Pending, rec.retries, true, InFlight(false)))
    ensures rec.retries < 2 ==> Due(cfg, Retrying, rec) == Some(Saving(RetryReady, rec.retries + 1, true, Claiming))
    ensures rec.retries >= 2 ==> Due(cfg, Retrying, rec) == Some(Saving(RetryExhausted, rec.retries, true, Idle))
  {
  }

  /** What the numbers of a state count: requests taken, and requests sent. */
  lemma CountersAre(cfg: Config, s: System, e: Event)
    ensures var t := Step(cfg, s, e);
      && t.accepted == s.accepted +
           (if e.Take? && e.id < |s.runners| && s.runners[e.id].pc == InFlight(false) then 1 else 0)
      && |t.claims| == |s.claims| +
           (if e.Save? && e.id < |s.runners| && s.runners[e.id].pc == Claiming && s.op.Some?
               && Matches(s.op.value, s.runners[e.id].rec) then 1 else 0)
  {
    if e.Preserve? {
      LegacyStateIs(e.legacy);
    }
  }

  // ---------------------------------------------------------------- at most one acceptance

  /** One runner at a time, and re-reads that see what the platform took. */
  predicate Guarded(cfg: Config) {
    cfg.delays > 0 && (cfg.single || cfg.runners <= 1)
  }

  predicate Unclear(state: State) {
    state.Pending? || state.Unknown? || state.Posted? || state.Confirmed?
  }

  /** The runner's copy is the row, and nothing was accepted where submit may send again. */
  predicate RunnerSafe(cfg: Config, s: System, r: Runner) {
    !r.pc.Idle? ==>
      && s.op.Some?
      && r.rec == Snapshot(s.op.value)
      && match r.pc {
        case Checking(left, _) => 0 < left <= cfg.delays && (left < cfg.delays ==> s.accepted == 0)
        case Retrying => s.accepted == 0
        case Claiming => s.accepted == 0
        case InFlight(took) => r.rec.state.Pending? && s.accepted == if took then 1 else 0
        case Settling(o, took, _) => r.rec.state.Pending? && Honest(o, took) && s.accepted == if took then 1 else 0
        case _ => true
      }
  }

  predicate Safe(cfg: Config, s: System) {
    && |s.runners| == cfg.runners
    && s.accepted <= 1
    && (s.accepted == 1 ==> s.op.Some? && Unclear(s.op.value.state))
    && (forall i | 0 <= i < |s.runners| :: RunnerSafe(cfg, s, s.runners[i]))
    && (forall i, j | 0 <= i < |s.runners| && 0 <= j < |s.runners| ::
          s.runners[i].pc.Idle? || s.runners[j].pc.Idle? || i == j)
  }

  lemma SafeSave(cfg: Config, s: System, id: nat)
    requires Guarded(cfg) && Safe(cfg, s) && id < |s.runners| && Due(cfg, s.runners[id].pc, s.runners[id].rec).Some?
    ensures Safe(cfg, Write(s, id, Due(cfg, s.runners[id].pc, s.runners[id].rec).value))
  {
    assert RunnerSafe(cfg, s, s.runners[id]);
    var w := Due(cfg, s.runners[id].pc, s.runners[id].rec).value;
    var t := Write(s, id, w);
    assert RunnerSafe(cfg, t, t.runners[id]);
  }

  lemma SafeStart(cfg: Config, s: System, e: Event)
    requires Guarded(cfg) && Safe(cfg, s) && e.Start?
    ensures Safe(cfg, Step(cfg, s, e))
  {
  }

  lemma SafePreserve(cfg: Config, s: System, e: Event)
    requires Guarded(cfg) && Safe(cfg, s) && e.Preserve?
    ensures Safe(cfg, Step(cfg, s, e))
  {
    if e.id < |s.runners| {
      assert RunnerSafe(cfg, s, s.runners[e.id]);
    }
  }

  lemma SafeRead(cfg: Config, s: System, e: Event)
    requires Guarded(cfg) && Safe(cfg, s) && e.Read?
    ensures Safe(cfg, Step(cfg, s, e))
  {
    if e.id < |s.runners| {
      assert RunnerSafe(cfg, s, s.runners[e.id]);
    }
  }

  lemma SafeRequest(cfg: Config, s: System, e: Event)
    requires Guarded(cfg) && Safe(cfg, s) && (e.Take? || e.Reply? || e.Stop?)
    ensures Safe(cfg, Step(cfg, s, e))
  {
    if e.id < |s.runners| {
      assert RunnerSafe(cfg, s, s.runners[e.id]);
    }
  }

  lemma SafeStep(cfg: Config, s: System, e: Event)
    requires Guarded(cfg) && Safe(cfg, s)
    ensures Safe(cfg, Step(cfg, s, e))
  {
    match e {
      case Start(_, _, _) => SafeStart(cfg, s, e);
      case Preserve(_, _) => SafePreserve(cfg, s, e);
      case Read(_, _) => SafeRead(cfg, s, e);
      case Save(id) =>
        if id < |s.runners| && Due(cfg, s.runners[id].pc, s.runners[id].rec).Some? {
          SafeSave(cfg, s, id);
        }
      case _ => SafeRequest(cfg, s, e);
    }
  }

  lemma {:induction false} SafeRun(cfg: Config, es: seq<Event>)
    requires Guarded(cfg)
    ensures Safe(cfg, Run(cfg, Init(cfg), es))
    decreases |es|
  {
    if es != [] {
      SafeRun(cfg, es[..|es| - 1]);
      SafeStep(cfg, Run(cfg, Init(cfg), es[..|es| - 1]), es[|es| - 1]);
    }
  }

  /** The platform takes at most one request for the question, and the row never reads as
      unsent, refused or still to be retried once it has. */
  lemma AtMostOneAcceptance(cfg: Config, es: seq<Event>)
    requires Guarded(cfg)
    ensures var s := Run(cfg, Init(cfg), es);
      s.accepted <= 1 && (s.accepted == 1 ==> s.op.Some? && Unclear(s.op.value.state))
  {
    SafeRun(cfg, es);
  }

  ghost predicate Reachable(cfg: Config, s: System) {
    exists es :: Run(cfg, Init(cfg), es) == s
  }

  lemma ReachInit(cfg: Config)
    ensures Reachable(cfg, Init(cfg))
  {
    assert Run(cfg, Init(cfg), []) == Init(cfg);
  }

  lemma ReachStep(cfg: Config, s: System, e: Event)
    requires Reachable(cfg, s)
    ensures Reachable(cfg, Step(cfg, s, e))
  {
    var es :| Run(cfg, Init(cfg), es) == s;
    RunAppends(cfg, Init(cfg), es, [e]);
    assert Run(cfg, s, [e]) == Step(cfg, Run(cfg, s, []), e);
  }

  /** Runs the first runner up to its first request. */
  lemma FirstStart(cfg: Config) returns (s: System)
    requires cfg.runners > 0
    ensures Reachable(cfg, s) && |s.runners| == cfg.runners && s.accepted == 0
    ensures s.runners[0] == Runner(Claiming, Record(New, 0, 0, true)) && s.op == Some(Operation(New, 0, 0, true, []))
    ensures forall i | 0 < i < |s.runners| :: s.runners[i].pc.Idle?
  {
    s := Init(cfg);
    ReachInit(cfg);
    ReachStep(cfg, s, Start(0, true, false));
    s := Step(cfg, s, Start(0, true, false));
    assert s.runners[0] == Runner(Loaded, Record(New, 0, 0, true));
    ReachStep(cfg, s, Preserve(0, []));
    s := Step(cfg, s, Preserve(0, []));
  }

  lemma FirstRequest(cfg: Config) returns (s: System)
    requires cfg.runners > 0
    ensures Reachable(cfg, s) && |s.runners| == cfg.runners && s.accepted == 0
    ensures s.runners[0] == Runner(InFlight(false), Record(Pending, 1, 0, true))
    ensures s.op == Some(Operation(Pending, 1, 0, true, [Pending]))
    ensures forall i | 0 < i < |s.runners| :: s.runners[i].pc.Idle?
  {
    s := FirstStart(cfg);
    ReachStep(cfg, s, Save(0));
    s := Step(cfg, s, Save(0));
    assert Fresh().log + [Pending] == [Pending];
  }

  /** From Retrying, the retry is reserved and its request sent. */
  lemma SecondRequest(cfg: Config, s: System, id: nat) returns (t: System)
    requires Reachable(cfg, s) && id < |s.runners| && s.op.Some?
    requires s.runners[id] == Runner(Retrying, Snapshot(s.op.value)) && s.op.value.retries < 2
    ensures Reachable(cfg, t) && t.accepted == s.accepted && |t.runners| == |s.runners|
    ensures t.runners[id].pc == InFlight(false)
    ensures forall i | 0 <= i < |s.runners| && i != id :: t.runners[i] == s.runners[i]
  {
    ReachStep(cfg, s, Save(id));
    t := Step(cfg, s, Save(id));
    ReachStep(cfg, t, Save(id));
    t := Step(cfg, t, Save(id));
  }

  /** The platform takes the first request. */
  lemma TakenRequest(cfg: Config) returns (s: System)
    requires cfg.runners > 0
    ensures Reachable(cfg, s) && |s.runners| == cfg.runners && s.accepted == 1
    ensures s.runners[0] == Runner(InFlight(true), Record(Pending, 1, 0, true))
    ensures s.op == Some(Operation(Pending, 1, 0, true, [Pending]))
  {
    s := FirstRequest(cfg);
    ReachStep(cfg, s, Take(0));
    s := Step(cfg, s, Take(0));
  }

  /** The platform takes the first request, whose answer is then lost. */
  lemma LostAnswer(cfg: Config) returns (s: System)
    requires cfg.runners > 0 && cfg.delays == 0
    ensures Reachable(cfg, s) && |s.runners| == cfg.runners && s.accepted == 1 && s.op.Some?
    ensures s.op.value.retries == 0 && s.runners[0] == Runner(Retrying, Snapshot(s.op.value))
  {
    s := TakenRequest(cfg);
    var lost := Failed(Transport(true, true));
    ReachStep(cfg, s, Reply(0, lost, false));
    s := Step(cfg, s, Reply(0, lost, false));
    assert s.runners[0] == Runner(Settling(lost, true, false), Record(Pending, 1, 0, true));
    ReachStep(cfg, s, Save(0));
    s := Step(cfg, s, Save(0));
  }

  /** With no re-reads, a lost answer is followed by a second request. */
  lemma NoReadsCounterexample(cfg: Config) returns (s: System)
    requires cfg.runners > 0 && cfg.delays == 0
    ensures Reachable(cfg, s) && s.accepted == 2
  {
    s := LostAnswer(cfg);
    s := SecondRequest(cfg, s, 0);
    ReachStep(cfg, s, Take(0));
    s := Step(cfg, s, Take(0));
  }

  lemma {:induction false} ZeroReads(cfg: Config, s: System, id: nat) returns (t: System)
    requires Reachable(cfg, s) && id < |s.runners| && s.accepted == 0
    requires s.runners[id].pc.Checking? && s.runners[id].pc.left > 0
    ensures Reachable(cfg, t)
    ensures t == Put(s, id, Continue(s.runners[id].rec, s.runners[id].pc.after), s.runners[id].rec)
    decreases s.runners[id].pc.left
  {
    ReachStep(cfg, s, Read(id, Counted(0)));
    t := Step(cfg, s, Read(id, Counted(0)));
    if s.runners[id].pc.left > 1 {
      t := ZeroReads(cfg, t, id);
    }
  }

  /** A second runner that re-reads while the first request is still under way. */
  lemma TwoRunnersCounterexample(cfg: Config) returns (s: System)
    requires cfg.runners > 1 && cfg.delays > 0 && !cfg.single
    ensures Reachable(cfg, s) && s.accepted == 2
  {
    s := FirstRequest(cfg);
    ReachStep(cfg, s, Start(1, true, false));
    s := Step(cfg, s, Start(1, true, false));
    ReachStep(cfg, s, Preserve(1, []));
    s := Step(cfg, s, Preserve(1, []));
    s := ZeroReads(cfg, s, 1);
    s := SecondRequest(cfg, s, 1);
    ReachStep(cfg, s, Take(0));
    s := Step(cfg, s, Take(0));
    ReachStep(cfg, s, Take(1));
    s := Step(cfg, s, Take(1));
  }

  /** One acceptance at most holds of every run exactly when runners are single-flighted
      (or there is only one) and a reconciliation reads at least once. */
  lemma AcceptanceBoundIsExact(cfg: Config)
    requires cfg.runners > 0
    ensures (forall s | Reachable(cfg, s) :: s.accepted <= 1) <==> Guarded(cfg)
  {
    if Guarded(cfg) {
      forall s | Reachable(cfg, s) ensures s.accepted <= 1 {
        var es :| Run(cfg, Init(cfg), es) == s;
        SafeRun(cfg, es);
      }
    } else if cfg.delays == 0 {
      var s := NoReadsCounterexample(cfg);
    } else {
      var s := TwoRunnersCounterexample(cfg);
    }
  }

  // ---------------------------------------------------------------- the journal, any runners

  function Rejections(log: seq<State>): nat {
    if log == [] then 0
    else Rejections(log[..|log| - 1]) + if log[|log| - 1].Rejected? then 1 else 0
  }

  /** States from which submit sends without asking again. */
  predicate Sendable(state: State) {
    state.New? || state.Rejected? || state.RetryReady?
  }

  predicate RowSound(op: Operation) {
    && |op.log| == op.attempt
    && (op.attempt > 0 ==> op.log[op.attempt - 1] == op.state)
    && (op.state.New? ==> op.attempt == 0 && op.retries == 0)
    && op.retries <= 2
    && (op.state.RetryExhausted? ==> op.retries == 2)
    && op.attempt <= Rejections(op.log) + op.retries + if Sendable(op.state) then 0 else 1
  }

  /** What a runner's copy can be at each program point, however stale it is. */
  predicate CopyFits(r: Runner) {
    && r.rec.retries <= 2
    && (r.rec.state.RetryExhausted? ==> r.rec.retries == 2)
    && (r.rec.state.New? ==> r.rec.retries == 0)
    && match r.pc {
      case Checking(_, Resume) => !r.rec.state.New? && !r.rec.state.Rejected? && !r.rec.state.NotSent?
      case Checking(_, _) => r.rec.state.Unknown?
      case Confirming => !r.rec.state.New? && !r.rec.state.Rejected? && !r.rec.state.NotSent?
      case Retrying =>
        r.rec.state.Pending? || r.rec.state.Unknown? || r.rec.state.NotSent? || r.rec.state.RetryExhausted?
      case Claiming => Sendable(r.rec.state)
      case InFlight(_) => r.rec.state.Pending?
      case Settling(_, _, _) => r.rec.state.Pending?
      case _ => true
    }
  }

  predicate JournalSound(s: System) {
    && (forall i | 0 <= i < |s.runners| :: CopyFits(s.runners[i]))
    && (s.op.None? ==> s.claims == [])
    && (s.op.Some? ==>
        && RowSound(s.op.value)
        && |s.claims| == s.op.value.attempt
        && forall k | 0 <= k < |s.claims| :: s.claims[k].attempt == k + 1)
  }

  function Rank(state: State): nat {
    match state
    case New => 0
    case RetryReady => 1
    case Pending => 2
    case Unknown => 3
    case NotSent => 3
    case Rejected => 3
    case RetryExhausted => 4
    case Posted => 4
    case Confirmed => 5
  }

  /** Attempts, then retries, then the rank of the state. */
  predicate Later(v: Version, w: Version) {
    || v.attempt < w.attempt
    || (v.attempt == w.attempt && v.retries < w.retries)
    || (v.attempt == w.attempt && v.retries == w.retries && Rank(v.state) < Rank(w.state))
  }

  /** From s to t the version of the row stays as it is or moves up. */
  predicate Advances(s: System, t: System) {
    s.op.Some? ==>
      && t.op.Some?
      && (VersionOf(s.op.value) == VersionOf(t.op.value) || Later(VersionOf(s.op.value), VersionOf(t.op.value)))
  }

  lemma RejectionsOfUpdate(log: seq<State>, state: State)
    requires log != []
    ensures Rejections(log[|log| - 1 := state]) ==
            Rejections(log[..|log| - 1]) + if state.Rejected? then 1 else 0
    ensures Rejections(log + [state]) == Rejections(log) + if state.Rejected? then 1 else 0
  {
    assert log[|log| - 1 := state][..|log| - 1] == log[..|log| - 1];
    assert (log + [state])[..|log|] == log;
  }

  lemma WriteKeepsRow(op: Operation, rec: Record, state: State, retries: nat, retryable: bool)
    requires RowSound(op) && Matches(op, rec)
    requires !state.New? && retries <= 2 && (state.RetryExhausted? ==> retries == 2)
    requires state.Pending? ==> Sendable(op.state) && retries == op.retries
    requires !state.Pending? ==> !op.state.Rejected? && op.retries <= retries
    requires state.Rejected? ==> op.state.Pending?
    requires state.RetryReady? ==> !Sendable(op.state) && retries == op.retries + 1
    ensures RowSound(Written(op, rec, state, retries, retryable))
  {
    if op.log == [] {
      assert op.log + [state] == [state];
      assert [state][..0] == [];
    } else {
      RejectionsOfUpdate(op.log, state);
    }
  }

  lemma PutKeepsJournal(s: System, id: nat, pc: Pc, rec: Record)
    requires JournalSound(s) && id < |s.runners| && CopyFits(Runner(pc, rec))
    ensures JournalSound(Put(s, id, pc, rec))
  {
  }

  /** What submit may ask Save to write, given its copy of the row. */
  predicate Allowed(rec: Record, w: Saving) {
    && !w.state.New? && w.retries <= 2 && (w.state.RetryExhausted? ==> w.retries == 2)
    && (w.state.Pending? ==> Sendable(rec.state) && w.retries == rec.retries)
    && (!w.state.Pending? ==> !rec.state.Rejected? && rec.retries <= w.retries)
    && (w.state.Rejected? ==> rec.state.Pending?)
    && (w.state.RetryReady? ==> !Sendable(rec.state) && w.retries == rec.retries + 1)
    && (w.state.Pending? || rec.retries < w.retries || rec.state == w.state || Rank(rec.state) < Rank(w.state))
    && CopyFits(Runner(w.next, Saved(rec, w.state, w.retries, w.retryable)))
  }

  lemma WriteKeepsJournal(s: System, id: nat, w: Saving)
    requires JournalSound(s) && id < |s.runners| && Allowed(s.runners[id].rec, w)
    requires CopyFits(Runner(Idle, s.runners[id].rec))
    ensures JournalSound(Write(s, id, w)) && Advances(s, Write(s, id, w))
  {
    var rec := s.runners[id].rec;
    if s.op.Some? && Matches(s.op.value, rec) {
      WriteKeepsRow(s.op.value, rec, w.state, w.retries, w.retryable);
    }
  }

  lemma DueIsAllowed(cfg: Config, r: Runner)
    requires CopyFits(r) && Due(cfg, r.pc, r.rec).Some?
    ensures Allowed(r.rec, Due(cfg, r.pc, r.rec).value)
  {
  }

  lemma LegacyStateIs(values: seq<Legacy>)
    ensures LegacyState(values).Unknown? || LegacyState(values).Posted? || LegacyState(values).Confirmed?
  {
  }

  lemma PreserveKeepsJournal(cfg: Config, s: System, id: nat, legacy: seq<Legacy>)
    requires JournalSound(s)
    ensures JournalSound(Step(cfg, s, Preserve(id, legacy))) && Advances(s, Step(cfg, s, Preserve(id, legacy)))
  {
    if id < |s.runners| && s.runners[id].pc.Loaded? {
      var rec := s.runners[id].rec;
      assert CopyFits(s.runners[id]);
      if !rec.state.New? || legacy == [] {
        PutKeepsJournal(s, id, Begin(cfg, rec), rec);
      } else {
        LegacyStateIs(legacy);
        var r := Saved(rec, LegacyState(legacy), AtMostTwo(LegacyRetries(legacy)), LegacyRetryable(legacy));
        WriteKeepsJournal(s, id, Saving(r.state, r.retries, r.retryable, Begin(cfg, r)));
      }
    }
  }

  lemma StartKeepsJournal(cfg: Config, s: System, e: Event)
    requires JournalSound(s) && e.Start?
    ensures JournalSound(Step(cfg, s, e)) && Advances(s, Step(cfg, s, e))
  {
  }

  lemma ReadKeepsJournal(cfg: Config, s: System, e: Event)
    requires JournalSound(s) && e.Read?
    ensures JournalSound(Step(cfg, s, e)) && Advances(s, Step(cfg, s, e))
  {
    if e.id < |s.runners| {
      assert CopyFits(s.runners[e.id]);
    }
  }

  lemma RequestKeepsJournal(cfg: Config, s: System, e: Event)
    requires JournalSound(s) && (e.Take? || e.Reply? || e.Stop?)
    ensures JournalSound(Step(cfg, s, e)) && Advances(s, Step(cfg, s, e))
  {
    if e.id < |s.runners| {
      assert CopyFits(s.runners[e.id]);
    }
  }

  lemma JournalStep(cfg: Config, s: System, e: Event)
    requires JournalSound(s)
    ensures JournalSound(Step(cfg, s, e)) && Advances(s, Step(cfg, s, e))
  {
    match e {
      case Start(_, _, _) => StartKeepsJournal(cfg, s, e);
      case Preserve(id, legacy) => PreserveKeepsJournal(cfg, s, id, legacy);
      case Read(_, _) => ReadKeepsJournal(cfg, s, e);
      case Save(id) =>
        if id < |s.runners| && Due(cfg, s.runners[id].pc, s.runners[id].rec).Some? {
          DueIsAllowed(cfg, s.runners[id]);
          WriteKeepsJournal(s, id, Due(cfg, s.runners[id].pc, s.runners[id].rec).value);
        }
      case _ => RequestKeepsJournal(cfg, s, e);
    }
  }

  lemma {:induction false} JournalRun(cfg: Config, s: System, es: seq<Event>)
    requires JournalSound(s)
    ensures JournalSound(Run(cfg, s, es)) && Advances(s, Run(cfg, s, es))
    decreases |es|
  {
    if es != [] {
      JournalRun(cfg, s, es[..|es| - 1]);
      JournalStep(cfg, Run(cfg, s, es[..|es| - 1]), es[|es| - 1]);
    }
  }

  /** Whatever runs and crashes interleave, a version that the row has left is never seen
      again: if it is the same at two moments, it was the same all the time between. */
  lemma VersionNeverReturns(cfg: Config, es: seq<Event>, fs: seq<Event>, gs: seq<Event>)
    ensures var s := Run(cfg, Init(cfg), es);
      var t := Run(cfg, Init(cfg), es + fs);
      var u := Run(cfg, Init(cfg), es + fs + gs);
      s.op.Some? ==>
        && t.op.Some? && u.op.Some?
        && (VersionOf(s.op.value) == VersionOf(u.op.value) ==> VersionOf(t.op.value) == VersionOf(s.op.value))
  {
    var s, t := Run(cfg, Init(cfg), es), Run(cfg, Init(cfg), es + fs);
    RunAppends(cfg, Init(cfg), es, fs);
    RunAppends(cfg, Init(cfg), es + fs, gs);
    JournalRun(cfg, Init(cfg), es);
    JournalRun(cfg, s, fs);
    JournalRun(cfg, t, gs);
  }

  /** The k-th request sent is attempt k, so no two runners ever claim the same attempt. */
  lemma ClaimsAreUnique(cfg: Config, es: seq<Event>, j: nat, k: nat)
    requires j < k < |Run(cfg, Init(cfg), es).claims|
    ensures var claims := Run(cfg, Init(cfg), es).claims;
      claims[j].attempt != claims[k].attempt && claims[k].attempt == k + 1
  {
    JournalRun(cfg, Init(cfg), es);
  }

  /** Requests that were not answered by an explicit rejection stay within the durable
      retry budget, over all runners and restarts. */
  lemma RetryBudget(cfg: Config, es: seq<Event>)
    ensures var s := Run(cfg, Init(cfg), es);
      s.op.Some? ==>
        && |s.claims| == s.op.value.attempt
        && |s.claims| - Rejections(s.op.value.log) <= s.op.value.retries + 1 <= 3
  {
    JournalRun(cfg, Init(cfg), es);
  }
}
