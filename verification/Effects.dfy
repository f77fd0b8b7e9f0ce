/**
 Writes other than answers (internal/operations/effects.go) as a transition system, in the
 style of module Submissions. Discussion posts and enrollments are sent at most once; video
 and article progress may be replayed, after the platform's progress has been checked.
 */
module Effects {
  import opened Options
  import opened Platform
  import opened Journals
  import Submissions

  /** replayable: the kind is video or article. */
  datatype Config = Config(replayable: bool, runners: nat, single: bool)

  /** What progressComplete reports; Unconfirmed when the platform left the field out. */
  datatype Progress = CheckFailed | Complete | Incomplete | Unconfirmed

  datatype Pc =
    | Idle
    | Checking
    | Confirming
    | Claiming
    | InFlight(took: bool)
    | Settling(outcome: Outcome, took: bool)

  datatype Runner = Runner(pc: Pc, rec: Record)

  /** accepted: requests the platform took; complete: it counts the unit as finished;
      redundant: requests it took after that; unconfirmed: reads without the field;
      elsewhere: 1 if the user has finished the unit without the service. */
  datatype System = System(op: Option<Operation>, accepted: nat, complete: bool, redundant: nat,
                           unconfirmed: nat, elsewhere: nat, runners: seq<Runner>, sends: nat)

  datatype Event =
    | Start(id: nat, bound: bool, blocked: bool)
    | Read(id: nat, found: Progress)
    | Save(id: nat)
    | Take(id: nat, completes: bool)
    | Reply(id: nat, outcome: Outcome)
    | Stop(id: nat)
    /** The user finishes the unit, whatever the given runner is doing. */
    | Elsewhere(id: nat)

  function Init(cfg: Config): System {
    System(None, 0, false, 0, 0, 0, seq(cfg.runners, _ => Runner(Idle, Snapshot(Fresh()))), 0)
  }

  predicate Clean(state: State) {
    state.New? || state.Rejected? || state.NotSent?
  }

  /** The top of the loop. */
  function Top(cfg: Config, rec: Record): Pc {
    if cfg.replayable && !Clean(rec.state) then Checking else Claiming
  }

  function Begin(cfg: Config, rec: Record): Pc {
    if (rec.state.Posted? || rec.state.Confirmed?) && !cfg.replayable then Idle
    else if !Clean(rec.state)
         && !(cfg.replayable && (rec.state.Unknown? || rec.state.Pending? || rec.state.Posted? || rec.state.Confirmed?))
    then Idle
    else Top(cfg, rec)
  }

  datatype Settlement = Settlement(state: State, again: bool)

  /** A journal save that is due, and where Effect goes on after it. */
  datatype Saving = Saving(state: State, next: Pc)

  function Settle(cfg: Config, o: Outcome): Settlement {
    match o
    case Failed(e) => Settlement(Unknown, cfg.replayable && e.Transport? && e.transient)
    case Replied(r) =>
      if RateLimited(r) then Settlement(Rejected, true)
      else if DataFault(r).Some? then
        Settlement(if r.status == 401 || r.status == 403 || SaysFailure(r) then Rejected else Unknown,
                   cfg.replayable && r.status >= 500)
      else Settlement(Posted, false)
  }

  function Due(cfg: Config, pc: Pc, rec: Record): Option<Saving> {
    match pc
    case Confirming => Some(Saving(Confirmed, Idle))
    case Claiming => Some(Saving(Pending, InFlight(false)))
    case Settling(o, _) =>
      var w := Settle(cfg, o);
      Some(Saving(w.state, if w.again then Top(cfg, Saved(rec, w.state, rec.retries, false)) else Idle))
    case _ => None
  }

  function Put(s: System, id: nat, pc: Pc, rec: Record): System
    requires id < |s.runners|
  {
    s.(runners := s.runners[id := Runner(pc, rec)])
  }

  function Write(s: System, id: nat, w: Saving): System
    requires id < |s.runners|
  {
    var rec := s.runners[id].rec;
    if s.op.None? || !Matches(s.op.value, rec) then Put(s, id, Idle, rec)
    else
      Put(s.(op := Some(Written(s.op.value, rec, w.state, rec.retries, false)),
             sends := if w.state.Pending? then s.sends + 1 else s.sends),
          id, w.next, Saved(rec, w.state, rec.retries, false))
  }

  function Started(cfg: Config, s: System, id: nat): System
    requires id < |s.runners|
  {
    var op := if s.op.Some? then s.op.value else Fresh();
    Put(s.(op := Some(op)), id, Begin(cfg, Snapshot(op)), Snapshot(op))
  }

  predicate AllIdle(s: System) {
    forall i | 0 <= i < |s.runners| :: s.runners[i].pc.Idle?
  }

  /** The answers by which the platform states that it has not taken a write; here a body that
      says so is believed with any status. */
  predicate Declines(o: Outcome) {
    o.Replied? && (SaysFailure(o.response) || o.response.status in {401, 403, 429})
  }

  /** The platform does not take a write that it declines. */
  predicate HonestWrite(o: Outcome, took: bool) {
    Declines(o) ==> !took
  }

  /** A check never reports the opposite of what the platform counts. */
  predicate Truthful(found: Progress, complete: bool) {
    && (found.Complete? ==> complete)
    && (found.Incomplete? ==> !complete)
  }

  function Step(cfg: Config, s: System, e: Event): System {
    if e.id >= |s.runners| then s
    else
      var pc, rec := s.runners[e.id].pc, s.runners[e.id].rec;
      match e
      case Start(id, bound, blocked) =>
        if !pc.Idle? || !bound || blocked || (cfg.single && !AllIdle(s)) then s
        else Started(cfg, s, id)
      case Read(id, found) =>
        if !pc.Checking? || !Truthful(found, s.complete) then s
        else
          (match found
           case CheckFailed => Put(s, id, Idle, rec)
           case Complete => Put(s, id, Confirming, rec)
           case Incomplete => Put(s, id, Claiming, rec)
           case Unconfirmed => Put(s.(unconfirmed := s.unconfirmed + 1), id, Claiming, rec))
      case Save(id) =>
        var due := Due(cfg, pc, rec);
        if due.Some? then Write(s, id, due.value) else s
      case Take(id, completes) =>
        if !pc.InFlight? || pc.took then s
        else
          Put(s.(accepted := s.accepted + 1, complete := s.complete || completes,
                 redundant := if s.complete then s.redundant + 1 else s.redundant), id, InFlight(true), rec)
      case Reply(id, o) =>
        if pc.InFlight? && HonestWrite(o, pc.took) then Put(s, id, Settling(o, pc.took), rec) else s
      case Stop(id) => Put(s, id, Idle, rec)
      case Elsewhere(_) => if s.complete then s else s.(complete := true, elsewhere := 1)
  }

  function Run(cfg: Config, s: System, es: seq<Event>): System
    decreases |es|
  {
    if es == [] then s else Step(cfg, Run(cfg, s, es[..|es| - 1]), es[|es| - 1])
  }

  lemma RunOne(cfg: Config, s: System, es: seq<Event>, e: Event)
    ensures Run(cfg, s, es + [e]) == Step(cfg, Run(cfg, s, es), e)
  {
    assert (es + [e])[..|es + [e]| - 1] == es;
  }

  // ---------------------------------------------------------------- what a step comes to

  /** The reply reports success: status 200, a body without failure or error code. */
  predicate SaysDone(o: Outcome) {
    && o.Replied? && o.response.status == 200 && o.response.json.Some?
    && !o.response.json.value.successFalse && !o.response.json.value.badCode
  }

  predicate SaysLater(o: Outcome) {
    && o.Replied? && o.response.status != 403
    && (o.response.status == 429 ||
        (o.response.json.Some? && o.response.json.value.successFalse && o.response.json.value.limitedWords))
  }

  /** What the end of a call is saved as, and whether the write is made again: after a throttled
      reply always, after a passing failure only if it may be repeated. */
  lemma OutcomesAreSaved(cfg: Config, o: Outcome)
    ensures var w := Settle(cfg, o);
      && (w.state == Posted <==> SaysDone(o))
      && (w.state == Rejected <==>
            o.Replied? && ((o.response.json.Some? && o.response.json.value.successFalse) ||
                           o.response.status in {401, 403, 429}))
      && w.state in {Posted, Rejected, Unknown}
      && (w.again <==>
            || SaysLater(o)
            || (cfg.replayable && o.Replied? && o.response.status >= 500)
            || (cfg.replayable && o.Failed? && o.error.Transport? && o.error.transient))
  {
  }

  /** How Effect begins with a row: a write that may be repeated is checked first unless it has
      never been made, and any other is made only if it has not been. */
  lemma BeginIs(cfg: Config, rec: Record)
    ensures Begin(cfg, rec) ==
      if rec.state in {New, Rejected, NotSent} then Claiming
      else if cfg.replayable && rec.state in {Unknown, Pending, Posted, Confirmed} then Checking
      else Idle
    ensures Top(cfg, rec) == if rec.state in {New, Rejected, NotSent} || !cfg.replayable then Claiming else Checking
  {
  }

  /** The saves that do not depend on a reply. */
  lemma DueIs(cfg: Config, rec: Record)
    ensures Due(cfg, Confirming, rec) == Some(Saving(Confirmed, Idle))
    ensures Due(cfg, Claiming, rec) == Some(Saving(Pending, InFlight(false)))
  {
  }

  /** The runner's request is open and has not been taken. */
  predicate Taking(s: System, e: Event) {
    e.Take? && e.id < |s.runners| && s.runners[e.id].pc == InFlight(false)
  }

  /** What the numbers of a state count: requests taken, those of them taken when the unit was
      complete already, reads without the field, and whether the user has finished the unit. */
  lemma CountersAre(cfg: Config, s: System, e: Event)
    ensures var t := Step(cfg, s, e);
      var elsewhere := e.Elsewhere? && e.id < |s.runners| && !s.complete;
      && t.accepted == s.accepted + (if Taking(s, e) then 1 else 0)
      && t.redundant == s.redundant + (if Taking(s, e) && s.complete then 1 else 0)
      && t.unconfirmed == s.unconfirmed +
           (if e.Read? && e.found == Unconfirmed && e.id < |s.runners| && s.runners[e.id].pc == Checking then 1 else 0)
      && (t.complete <==> s.complete || elsewhere || (Taking(s, e) && e.completes))
      && t.elsewhere == (if elsewhere then 1 else s.elsewhere)
  {
  }

  // ---------------------------------------------------------------- sent at most once

  predicate Sending(pc: Pc) {
    pc.InFlight? || pc.Settling?
  }

  predicate OnceSafe(s: System) {
    && s.accepted <= 1
    && (s.op.None? ==> s.accepted == 0 && s.sends == 0)
    && (s.op.Some? ==> OnceRow(s.op.value, s.accepted, s.sends))
    && (forall i | 0 <= i < |s.runners| :: OnceRunner(s, s.runners[i]))
    && (forall i, j | 0 <= i < |s.runners| && 0 <= j < |s.runners| ::
          Sending(s.runners[i].pc) && Sending(s.runners[j].pc) ==> i == j)
  }

  predicate OnceRow(op: Operation, accepted: nat, sends: nat) {
    && Submissions.RowSound(op) && op.retries == 0 && sends == op.attempt
    && !op.state.NotSent? && !op.state.RetryReady?
    && (Clean(op.state) ==> accepted == 0)
  }

  /** A request under way belongs to the runner whose claim the row still shows. */
  predicate OnceRunner(s: System, r: Runner) {
    match r.pc
    case Idle => true
    case Claiming => r.rec.state.New? || r.rec.state.Rejected?
    case InFlight(took) => OnceSender(s, r, took)
    case Settling(o, took) => OnceSender(s, r, took) && HonestWrite(o, took)
    case _ => false
  }

  predicate OnceSender(s: System, r: Runner, took: bool) {
    && s.op.Some? && r.rec == Snapshot(s.op.value) && r.rec.state.Pending?
    && s.accepted == if took then 1 else 0
  }

  lemma OnceRowWritten(op: Operation, rec: Record, state: State, accepted: nat)
    requires OnceRow(op, accepted, op.attempt) && Matches(op, rec)
    requires state.Pending? ==> op.state.New? || op.state.Rejected?
    requires !state.Pending? ==> op.state.Pending? && (state.Unknown? || state.Rejected? || state.Posted?)
    requires state.Rejected? ==> accepted == 0
    ensures var w := Written(op, rec, state, rec.retries, false); OnceRow(w, accepted, w.attempt)
  {
    Submissions.WriteKeepsRow(op, rec, state, rec.retries, false);
  }

  lemma OnceWrite(s: System, id: nat, w: Saving)
    requires OnceSafe(s) && id < |s.runners| && s.op.Some? && Matches(s.op.value, s.runners[id].rec)
    requires OnceRow(Written(s.op.value, s.runners[id].rec, w.state, 0, false), s.accepted,
                     if w.state.Pending? then s.sends + 1 else s.sends)
    requires forall i | 0 <= i < |s.runners| && i != id :: !Sending(s.runners[i].pc)
    requires var t := Write(s, id, w); OnceRunner(t, t.runners[id])
    ensures OnceSafe(Write(s, id, w))
  {
    var t := Write(s, id, w);
    forall i | 0 <= i < |t.runners| ensures OnceRunner(t, t.runners[i]) {
      assert OnceRunner(s, s.runners[i]);
    }
  }

  lemma OnceStop(s: System, id: nat)
    requires OnceSafe(s) && id < |s.runners|
    ensures OnceSafe(Put(s, id, Idle, s.runners[id].rec))
  {
    var t := Put(s, id, Idle, s.runners[id].rec);
    forall i | 0 <= i < |t.runners| ensures OnceRunner(t, t.runners[i]) {
      assert OnceRunner(s, s.runners[i]);
    }
  }

  lemma NoneSending(s: System)
    requires OnceSafe(s) && s.op.Some? && !s.op.value.state.Pending?
    ensures forall i | 0 <= i < |s.runners| :: !Sending(s.runners[i].pc)
  {
    forall i | 0 <= i < |s.runners| ensures !Sending(s.runners[i].pc) {
      assert OnceRunner(s, s.runners[i]);
    }
  }

  lemma OnceClaim(cfg: Config, s: System, id: nat)
    requires !cfg.replayable && OnceSafe(s) && id < |s.runners| && s.runners[id].pc.Claiming?
    ensures OnceSafe(Write(s, id, Saving(Pending, InFlight(false))))
  {
    var rec := s.runners[id].rec;
    if s.op.None? || !Matches(s.op.value, rec) {
      OnceStop(s, id);
    } else {
      assert OnceRunner(s, s.runners[id]);
      OnceRowWritten(s.op.value, rec, Pending, s.accepted);
      NoneSending(s);
      OnceWrite(s, id, Saving(Pending, InFlight(false)));
    }
  }

  lemma OnceSettle(cfg: Config, s: System, id: nat)
    requires !cfg.replayable && OnceSafe(s) && id < |s.runners| && s.runners[id].pc.Settling?
    ensures OnceSafe(Step(cfg, s, Save(id)))
  {
    var r := s.runners[id];
    assert OnceRunner(s, r);
    var w := Due(cfg, r.pc, r.rec).value;
    assert w.state.Rejected? ==> !r.pc.took;
    OnceRowWritten(s.op.value, r.rec, w.state, s.accepted);
    OnceWrite(s, id, w);
  }

  lemma OnceStart(cfg: Config, s: System, e: Event)
    requires !cfg.replayable && OnceSafe(s) && e.Start?
    ensures OnceSafe(Step(cfg, s, e))
  {
    var t := Step(cfg, s, e);
    forall i | 0 <= i < |t.runners| ensures OnceRunner(t, t.runners[i]) {
      assert OnceRunner(s, s.runners[i]);
    }
  }

  lemma OnceSend(cfg: Config, s: System, e: Event)
    requires !cfg.replayable && OnceSafe(s) && (e.Take? || e.Reply? || e.Stop? || e.Elsewhere?)
    ensures OnceSafe(Step(cfg, s, e))
  {
    var t := Step(cfg, s, e);
    if e.id < |s.runners| {
      assert OnceRunner(s, s.runners[e.id]);
    }
    forall i | 0 <= i < |t.runners| ensures OnceRunner(t, t.runners[i]) {
      assert OnceRunner(s, s.runners[i]);
    }
  }

  lemma OnceStep(cfg: Config, s: System, e: Event)
    requires !cfg.replayable && OnceSafe(s)
    ensures OnceSafe(Step(cfg, s, e))
  {
    match e {
      case Start(_, _, _) => OnceStart(cfg, s, e);
      case Read(_, _) =>
      case Save(id) =>
        if id < |s.runners| {
          if s.runners[id].pc.Claiming? {
            OnceClaim(cfg, s, id);
          } else if s.runners[id].pc.Settling? {
            OnceSettle(cfg, s, id);
          }
        }
      case _ => OnceSend(cfg, s, e);
    }
  }

  lemma {:induction false} OnceRun(cfg: Config, es: seq<Event>)
    requires !cfg.replayable
    ensures OnceSafe(Run(cfg, Init(cfg), es))
    decreases |es|
  {
    if es != [] {
      OnceRun(cfg, es[..|es| - 1]);
      OnceStep(cfg, Run(cfg, Init(cfg), es[..|es| - 1]), es[|es| - 1]);
    }
  }

  /** A discussion post or an enrollment: over all runners, restarts and crashes, at most one
      request is not ended by an explicit rejection, and the platform takes at most one. */
  lemma SentAtMostOnce(cfg: Config, es: seq<Event>)
    requires !cfg.replayable
    ensures var s := Run(cfg, Init(cfg), es);
      && s.accepted <= 1
      && (s.op.None? ==> s.sends == 0)
      && (s.op.Some? ==> s.sends - Submissions.Rejections(s.op.value.log) <= 1)
  {
    OnceRun(cfg, es);
  }

  // ---------------------------------------------------------------- checked before a replay

  predicate Single(cfg: Config) {
    cfg.single || cfg.runners <= 1
  }

  /** Whether the next request needs no further check. */
  predicate Licensed(s: System, r: Runner) {
    r.pc.Claiming? || (Sending(r.pc) && !r.pc.took)
  }

  predicate ReplaySafe(cfg: Config, s: System) {
    && |s.runners| == cfg.runners
    && (!s.complete ==> s.redundant == 0) && s.elsewhere <= 1
    && s.redundant <= s.unconfirmed + s.elsewhere
    && (s.complete && (s.op.Some? ==> Clean(s.op.value.state)) ==> s.redundant < s.unconfirmed + s.elsewhere)
    && (forall i | 0 <= i < |s.runners| :: RunnerReplaySafe(s, s.runners[i]))
    && (forall i, j | 0 <= i < |s.runners| && 0 <= j < |s.runners| ::
          s.runners[i].pc.Idle? || s.runners[j].pc.Idle? || i == j)
  }

  predicate RunnerReplaySafe(s: System, r: Runner) {
    !r.pc.Idle? ==>
      && s.op.Some? && r.rec == Snapshot(s.op.value)
      && (Sending(r.pc) ==> r.rec.state.Pending?)
      && (r.pc.Settling? ==> HonestWrite(r.pc.outcome, r.pc.took))
      && (s.complete && Licensed(s, r) ==> s.redundant < s.unconfirmed + s.elsewhere)
  }

  lemma ReplaySave(cfg: Config, s: System, id: nat)
    requires cfg.replayable && Single(cfg) && ReplaySafe(cfg, s) && id < |s.runners|
    requires Due(cfg, s.runners[id].pc, s.runners[id].rec).Some?
    ensures ReplaySafe(cfg, Write(s, id, Due(cfg, s.runners[id].pc, s.runners[id].rec).value))
  {
    assert RunnerReplaySafe(s, s.runners[id]);
    var t := Write(s, id, Due(cfg, s.runners[id].pc, s.runners[id].rec).value);
    assert RunnerReplaySafe(t, t.runners[id]);
  }

  lemma ReplayStart(cfg: Config, s: System, e: Event)
    requires cfg.replayable && Single(cfg) && ReplaySafe(cfg, s) && (e.Start? || e.Read?)
    ensures ReplaySafe(cfg, Step(cfg, s, e))
  {
    if e.id < |s.runners| {
      assert RunnerReplaySafe(s, s.runners[e.id]);
    }
  }

  lemma ReplaySend(cfg: Config, s: System, e: Event)
    requires cfg.replayable && Single(cfg) && ReplaySafe(cfg, s) && (e.Take? || e.Reply? || e.Stop? || e.Elsewhere?)
    ensures ReplaySafe(cfg, Step(cfg, s, e))
  {
    if e.id < |s.runners| {
      assert RunnerReplaySafe(s, s.runners[e.id]);
    }
  }

  lemma ReplayStep(cfg: Config, s: System, e: Event)
    requires cfg.replayable && Single(cfg) && ReplaySafe(cfg, s)
    ensures ReplaySafe(cfg, Step(cfg, s, e))
  {
    match e {
      case Save(id) =>
        if id < |s.runners| && Due(cfg, s.runners[id].pc, s.runners[id].rec).Some? {
          ReplaySave(cfg, s, id);
        }
      case Start(_, _, _) => ReplayStart(cfg, s, e);
      case Read(_, _) => ReplayStart(cfg, s, e);
      case _ => ReplaySend(cfg, s, e);
    }
  }

  lemma {:induction false} ReplayRun(cfg: Config, es: seq<Event>)
    requires cfg.replayable && Single(cfg)
    ensures ReplaySafe(cfg, Run(cfg, Init(cfg), es))
    decreases |es|
  {
    if es != [] {
      ReplayRun(cfg, es[..|es| - 1]);
      ReplayStep(cfg, Run(cfg, Init(cfg), es[..|es| - 1]), es[|es| - 1]);
    }
  }

  /** Video and article progress: a request that the platform takes although it already
      counts the unit as finished is paid for by a check in which the platform left its
      completion field out, one for each such request; and one more if the user has finished
      the unit without the service. */
  lemma RedundantWritesArePaidFor(cfg: Config, es: seq<Event>)
    requires cfg.replayable && Single(cfg)
    ensures var s := Run(cfg, Init(cfg), es); s.redundant <= s.unconfirmed + s.elsewhere && s.elsewhere <= 1
  {
    ReplayRun(cfg, es);
  }

  ghost predicate Reachable(cfg: Config, s: System) {
    exists es :: Run(cfg, Init(cfg), es) == s
  }

  lemma ReachStep(cfg: Config, s: System, e: Event)
    requires Reachable(cfg, s)
    ensures Reachable(cfg, Step(cfg, s, e))
  {
    var es :| Run(cfg, Init(cfg), es) == s;
    assert (es + [e])[..|es + [e]| - 1] == es;
    assert Run(cfg, Init(cfg), es + [e]) == Step(cfg, s, e);
  }

  lemma FirstRequest(cfg: Config) returns (s: System)
    requires cfg.replayable && cfg.runners > 1
    ensures Reachable(cfg, s) && |s.runners| == cfg.runners
    ensures s.runners[0] == Runner(InFlight(false), Record(Pending, 1, 0, false)) && s.runners[1].pc.Idle?
    ensures s.op.Some? && Snapshot(s.op.value) == s.runners[0].rec
    ensures !s.complete && s.redundant == s.unconfirmed == s.elsewhere == 0
  {
    s := Init(cfg);
    assert Run(cfg, Init(cfg), []) == s;
    ReachStep(cfg, s, Start(0, true, false));
    s := Step(cfg, s, Start(0, true, false));
    ReachStep(cfg, s, Save(0));
    s := Step(cfg, s, Save(0));
  }

  /** A second runner checks before the platform has taken the first request. */
  lemma SecondRequest(cfg: Config) returns (s: System)
    requires cfg.replayable && cfg.runners > 1 && !cfg.single
    ensures Reachable(cfg, s) && |s.runners| == cfg.runners
    ensures s.runners[0].pc == InFlight(false) && s.runners[1].pc == InFlight(false)
    ensures !s.complete && s.redundant == s.unconfirmed == s.elsewhere == 0
  {
    s := FirstRequest(cfg);
    ReachStep(cfg, s, Start(1, true, false));
    s := Step(cfg, s, Start(1, true, false));
    assert s.runners[1] == Runner(Checking, Record(Pending, 1, 0, false));
    ReachStep(cfg, s, Read(1, Incomplete));
    s := Step(cfg, s, Read(1, Incomplete));
    ReachStep(cfg, s, Save(1));
    s := Step(cfg, s, Save(1));
  }

  /** Two runners, each with a request under way when the platform finishes the unit. */
  lemma TwoReplaysCounterexample(cfg: Config) returns (s: System)
    requires cfg.replayable && cfg.runners > 1 && !cfg.single
    ensures Reachable(cfg, s) && s.redundant == 1 && s.unconfirmed == s.elsewhere == 0
  {
    s := SecondRequest(cfg);
    ReachStep(cfg, s, Take(0, true));
    s := Step(cfg, s, Take(0, true));
    ReachStep(cfg, s, Take(1, false));
    s := Step(cfg, s, Take(1, false));
  }

  /** The bound holds of every run exactly when one runner works on a key at a time. */
  lemma RedundantBoundIsExact(cfg: Config)
    requires cfg.replayable
    ensures (forall s | Reachable(cfg, s) :: s.redundant <= s.unconfirmed + s.elsewhere) <==> Single(cfg)
  {
    if Single(cfg) {
      forall s | Reachable(cfg, s) ensures s.redundant <= s.unconfirmed + s.elsewhere {
        var es :| Run(cfg, Init(cfg), es) == s;
        ReplayRun(cfg, es);
      }
    } else {
      var s := TwoReplaysCounterexample(cfg);
    }
  }
}
