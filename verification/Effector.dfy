/**
 Effect as the source writes it (internal/operations/effects.go), shown to step exactly as
 the transition system in module Effects does in the same outside world.
 */
module Effectors {
  import opened Options
  import opened Platform
  import opened Journals
  import opened Effects

  /** The platform's side of one write: what it has taken, and whether it counts the unit
      as finished. */
  class Unit {
    var accepted: nat
    var complete: bool

    constructor ()
      ensures accepted == 0 && !complete
    {
      accepted, complete := 0, false;
    }
  }

  datatype Result = Accepted | Recorded | Finished | Failure

  predicate Fits(s: System, pc: Pc, e: Event) {
    match pc
    case Idle => e.Start?
    case Checking => e.Read? && Truthful(e.found, s.complete)
    case InFlight(took) => (e.Take? && !took) || (e.Reply? && HonestWrite(e.outcome, took))
    case _ => e.Save?
  }

  /** One call of Effect in a given outside world. */
  function Drive(cfg: Config, s: System, id: nat, script: seq<Event>): (t: System)
    requires id < |s.runners|
    ensures |t.runners| == |s.runners| && t.runners[id].pc.Idle?
    decreases |script|
  {
    if script == [] || !Fits(s, s.runners[id].pc, script[0]) then Step(cfg, s, Stop(id))
    else
      var t := Step(cfg, s, script[0].(id := id));
      if t.runners[id].pc.Idle? then t else Drive(cfg, t, id, script[1..])
  }

  /** The row is still as the runner has read it. */
  predicate AsRead(s: System, id: nat)
    requires id < |s.runners|
  {
    s.op.Some? && Matches(s.op.value, s.runners[id].rec)
  }

  /** What the call returns if the save at this point is its last. */
  function Told(pc: Pc): Result {
    if pc.Confirming? then Finished
    else if pc.Settling? && SaysDone(pc.outcome) then Accepted
    else Failure
  }

  /** What is on record says that a write that must not be repeated has been made. */
  predicate OnRecord(cfg: Config, s: System, e: Event) {
    && !cfg.replayable && e.Start? && e.bound && !e.blocked && (cfg.single ==> AllIdle(s))
    && s.op.Some? && (s.op.value.state == Posted || s.op.value.state == Confirmed)
  }

  /** What a call returns that ends with the state on record. */
  function Standing(cfg: Config, state: State): Result {
    if !cfg.replayable && (state == Posted || state == Confirmed) then Recorded else Failure
  }

  /** What a call returns that ends with e. */
  function Last(cfg: Config, s: System, id: nat, e: Event): Result
    requires id < |s.runners|
  {
    if s.runners[id].pc.Idle? then if OnRecord(cfg, s, e) then Recorded else Failure
    else if e.Save? && AsRead(s, id) then Told(s.runners[id].pc)
    else Failure
  }

  /** What one call of Effect returns in a given outside world. */
  function Returns(cfg: Config, s: System, id: nat, script: seq<Event>): Result
    requires id < |s.runners|
    decreases |script|
  {
    if script == [] || !Fits(s, s.runners[id].pc, script[0]) then Failure
    else
      var t := Step(cfg, s, script[0].(id := id));
      if t.runners[id].pc.Idle? then Last(cfg, s, id, script[0]) else Returns(cfg, t, id, script[1..])
  }

  // ---------------------------------------------------------------- what a call returns

  /** The state after the first k entries of the script. */
  function After(cfg: Config, s: System, id: nat, script: seq<Event>, k: nat): (t: System)
    requires id < |s.runners| && k <= |script|
    ensures |t.runners| == |s.runners|
    decreases k
  {
    if k == 0 then s else After(cfg, Step(cfg, s, script[0].(id := id)), id, script[1..], k - 1)
  }

  /** The call is not over after k entries, all of which it has used. */
  predicate Going(cfg: Config, s: System, id: nat, script: seq<Event>, k: nat)
    requires id < |s.runners| && k <= |script|
    decreases k
  {
    k == 0 ||
    (var t := Step(cfg, s, script[0].(id := id));
     Fits(s, s.runners[id].pc, script[0]) && !t.runners[id].pc.Idle? && Going(cfg, t, id, script[1..], k - 1))
  }

  /** Entry k of the script saves what entry k - 1 has shown: that the write was accepted, or
      that the unit is finished. */
  predicate SavedAt(cfg: Config, s: System, id: nat, script: seq<Event>, k: nat, result: Result)
    requires id < |s.runners| && 0 < k < |script|
  {
    && Going(cfg, s, id, script, k) && script[k].Save? && AsRead(After(cfg, s, id, script, k), id)
    && match script[k - 1] {
         case Reply(_, outcome) => result == Accepted && SaysDone(outcome)
         case Read(_, found) => result == Finished && found == Complete
         case _ => false
       }
  }

  predicate SavedSomewhere(cfg: Config, s: System, id: nat, script: seq<Event>, result: Result)
    requires id < |s.runners|
  {
    exists k | 0 < k < |script| :: SavedAt(cfg, s, id, script, k, result)
  }

  /** The save of entry k is the last, and the call returns this for it. */
  predicate EndsAt(cfg: Config, s: System, id: nat, script: seq<Event>, k: nat, result: Result)
    requires id < |s.runners| && k < |script|
  {
    var t := After(cfg, s, id, script, k);
    Going(cfg, s, id, script, k) && script[k].Save? && AsRead(t, id) && Told(t.runners[id].pc) == result
  }

  predicate EndsSomewhere(cfg: Config, s: System, id: nat, script: seq<Event>, result: Result)
    requires id < |s.runners|
  {
    exists k | 0 <= k < |script| :: EndsAt(cfg, s, id, script, k, result)
  }

  /** The first entry of a call that is under way. */
  lemma FirstEntry(cfg: Config, s: System, id: nat, script: seq<Event>, result: Result) returns (t: System)
    requires id < |s.runners| && script != [] && (result.Accepted? || result.Finished?)
    ensures |t.runners| == |s.runners|
    ensures Returns(cfg, s, id, script) == result <==>
      Fits(s, s.runners[id].pc, script[0]) &&
      if t.runners[id].pc.Idle? then EndsAt(cfg, s, id, script, 0, result)
      else Returns(cfg, t, id, script[1..]) == result
    ensures EndsAt(cfg, s, id, script, 0, result) ==> Fits(s, s.runners[id].pc, script[0]) && t.runners[id].pc.Idle?
    ensures forall k | 0 < k < |script| :: EndsAt(cfg, s, id, script, k, result) <==>
      Fits(s, s.runners[id].pc, script[0]) && !t.runners[id].pc.Idle? && EndsAt(cfg, t, id, script[1..], k - 1, result)
  {
    t := Step(cfg, s, script[0].(id := id));
  }

  lemma {:induction false} ReturnsAt(cfg: Config, s: System, id: nat, script: seq<Event>, result: Result)
    requires id < |s.runners| && (result.Accepted? || result.Finished?)
    ensures Returns(cfg, s, id, script) == result <==> EndsSomewhere(cfg, s, id, script, result)
    decreases |script|
  {
    if script != [] {
      var rest := script[1..];
      var t := FirstEntry(cfg, s, id, script, result);
      ReturnsAt(cfg, t, id, rest, result);
      if Returns(cfg, s, id, script) == result && !t.runners[id].pc.Idle? {
        var k :| 0 <= k < |rest| && EndsAt(cfg, t, id, rest, k, result);
        assert EndsAt(cfg, s, id, script, k + 1, result);
      }
    }
  }

  /** What an entry tells the runner. */
  function Shown(e: Event): Result {
    match e
    case Reply(_, outcome) => if SaysDone(outcome) then Accepted else Failure
    case Read(_, found) => if found == Complete then Finished else Failure
    case _ => Failure
  }

  lemma ToldOnce(cfg: Config, s: System, id: nat, e: Event)
    requires id < |s.runners| && Fits(s, s.runners[id].pc, e)
    ensures Told(Step(cfg, s, e.(id := id)).runners[id].pc) == Shown(e)
  {
  }

  lemma {:induction false} ToldAt(cfg: Config, s: System, id: nat, script: seq<Event>, k: nat)
    requires id < |s.runners| && 0 < k <= |script| && Going(cfg, s, id, script, k)
    ensures Told(After(cfg, s, id, script, k).runners[id].pc) == Shown(script[k - 1])
    decreases k
  {
    if k == 1 {
      ToldOnce(cfg, s, id, script[0]);
    } else {
      ToldAt(cfg, Step(cfg, s, script[0].(id := id)), id, script[1..], k - 1);
    }
  }

  /** A call returns that the write was accepted, or that the unit is finished, exactly if a
      reply or a check of the progress has said so and the next save goes through. */
  lemma ReturnsExactly(cfg: Config, s: System, id: nat, script: seq<Event>, result: Result)
    requires id < |s.runners| && s.runners[id].pc.Idle? && (result.Accepted? || result.Finished?)
    ensures Returns(cfg, s, id, script) == result <==> SavedSomewhere(cfg, s, id, script, result)
  {
    ReturnsAt(cfg, s, id, script, result);
    forall k | 0 <= k < |script|
      ensures EndsAt(cfg, s, id, script, k, result) <==> k > 0 && SavedAt(cfg, s, id, script, k, result)
    {
      if k > 0 && Going(cfg, s, id, script, k) {
        ToldAt(cfg, s, id, script, k);
      }
    }
  }

  /** It returns what is on record exactly if the row says so and the write is not one that
      may be repeated. */
  lemma RecordedExactly(cfg: Config, s: System, id: nat, script: seq<Event>)
    requires id < |s.runners| && s.runners[id].pc.Idle?
    ensures Returns(cfg, s, id, script) == Recorded <==> script != [] && OnRecord(cfg, s, script[0])
  {
    if script != [] && Fits(s, s.runners[id].pc, script[0]) {
      var t := After(cfg, s, id, script, 1);
      if !t.runners[id].pc.Idle? {
        NotRecorded(cfg, t, id, script[1..]);
      }
    }
  }

  lemma {:induction false} NotRecorded(cfg: Config, s: System, id: nat, script: seq<Event>)
    requires id < |s.runners| && !s.runners[id].pc.Idle?
    ensures Returns(cfg, s, id, script) != Recorded
    decreases |script|
  {
    if script != [] && Fits(s, s.runners[id].pc, script[0]) {
      var t := After(cfg, s, id, script, 1);
      if !t.runners[id].pc.Idle? {
        NotRecorded(cfg, t, id, script[1..]);
      }
    }
  }

  // ---------------------------------------------------------------- one call

  /** What a call leaves behind, and what it returns. */
  datatype Goal = Goal(sys: System, result: Result)

  function GoalOf(cfg: Config, s: System, id: nat, script: seq<Event>): Goal
    requires id < |s.runners|
  {
    Goal(Drive(cfg, s, id, script), Returns(cfg, s, id, script))
  }

  /** A call that goes on with the first entry of its script. */
  lemma DriveOne(cfg: Config, s: System, id: nat, given: Event, script: seq<Event>)
    requires id < |s.runners| && Fits(s, s.runners[id].pc, given)
    ensures var t := Step(cfg, s, given.(id := id));
      && |t.runners| == |s.runners|
      && GoalOf(cfg, s, id, [given] + script) ==
           if t.runners[id].pc.Idle? then Goal(t, Last(cfg, s, id, given)) else GoalOf(cfg, t, id, script)
  {
    assert ([given] + script)[1..] == script;
  }

  class Effector {
    const cfg: Config
    const key: string
    const id: nat
    const journal: Journal
    const unit: Unit
    var r: Record
    var script: seq<Event>
    ghost const start: System
    ghost var sys: System
    ghost var trace: seq<Event>
    ghost var goal: Goal

    ghost function Pc(): Pc
      reads this
      requires id < |sys.runners|
    {
      sys.runners[id].pc
    }

    /** sys is what the trace leads to, and mirrors the table and the platform. */
    ghost predicate Mirrors()
      reads this, journal, unit
    {
      && id < |sys.runners|
      && sys == Run(cfg, start, trace)
      && sys.op == (if key in journal.rows then Some(journal.rows[key]) else None)
      && sys.accepted == unit.accepted && sys.complete == unit.complete
    }

    ghost predicate Valid()
      reads this, journal, unit
    {
      && Mirrors()
      && (!Pc().Idle? ==> sys.op.Some? && sys.runners[id].rec == r)
      && (if Pc().Idle? then goal.sys == sys else goal == GoalOf(cfg, sys, id, script))
    }

    constructor (cfg: Config, key: string, id: nat, journal: Journal, unit: Unit)
      requires id < cfg.runners && key !in journal.rows && unit.accepted == 0 && !unit.complete
      ensures Valid() && Pc().Idle? && AllIdle(sys) && trace == [] && start == Init(cfg)
      ensures this.cfg == cfg && this.key == key && this.id == id
      ensures this.journal == journal && this.unit == unit
    {
      this.cfg, this.key, this.id, this.journal, this.unit := cfg, key, id, journal, unit;
      r := Snapshot(Fresh());
      script := [];
      start, sys, goal := Init(cfg), Init(cfg), Goal(Init(cfg), Failure);
      trace := [];
    }

    ghost method Do(given: Event, e: Event)
      requires id < |sys.runners| && sys == Run(cfg, start, trace)
      requires Fits(sys, Pc(), given) && e == given.(id := id) && goal == GoalOf(cfg, sys, id, [given] + script)
      modifies this`sys, this`trace
      ensures sys == Step(cfg, old(sys), e) && sys == Run(cfg, start, trace) && old(trace) <= trace
      ensures |sys.runners| == |old(sys).runners|
      ensures goal == if Pc().Idle? then Goal(sys, Last(cfg, old(sys), id, given)) else GoalOf(cfg, sys, id, script)
    {
      DriveOne(cfg, sys, id, given, script);
      RunOne(cfg, start, trace, e);
      sys, trace := Step(cfg, sys, e), trace + [e];
    }

    ghost method DoSave(given: Event, w: Saving)
      requires id < |sys.runners| && sys == Run(cfg, start, trace) && given.Save?
      requires Due(cfg, Pc(), sys.runners[id].rec) == Some(w) && goal == GoalOf(cfg, sys, id, [given] + script)
      modifies this`sys, this`trace
      ensures sys == Write(old(sys), id, w) && sys == Run(cfg, start, trace) && old(trace) <= trace
      ensures |sys.runners| == |old(sys).runners|
      ensures if Pc().Idle? then goal.sys == sys else goal == GoalOf(cfg, sys, id, script)
      ensures AsRead(old(sys), id) ==> Pc() == w.next && (Pc().Idle? ==> goal.result == Told(old(Pc())))
      ensures !AsRead(old(sys), id) ==> Pc().Idle? && goal.result == Failure
    {
      Do(given, Save(id));
    }

    ghost method DoStart(given: Event)
      requires id < |sys.runners| && sys == Run(cfg, start, trace) && given.Start? && Pc().Idle?
      requires cfg.single ==> AllIdle(sys)
      requires goal == GoalOf(cfg, sys, id, [given] + script)
      modifies this`sys, this`trace
      ensures sys == Run(cfg, start, trace) && old(trace) <= trace && |sys.runners| == |old(sys).runners|
      ensures sys.accepted == old(sys).accepted && sys.complete == old(sys).complete
      ensures if Pc().Idle? then goal.sys == sys else goal == GoalOf(cfg, sys, id, script)
      ensures !(given.bound && !given.blocked) ==> sys == old(sys) && goal.result == Failure
      ensures given.bound && !given.blocked ==>
        var rec := Snapshot(if old(sys).op.Some? then old(sys).op.value else Fresh());
        && sys.op == Some(if old(sys).op.Some? then old(sys).op.value else Fresh())
        && sys.runners[id] == Runner(Begin(cfg, rec), rec)
        && (Pc().Idle? ==> goal.result == Standing(cfg, rec.state))
    {
      Do(given, Start(id, given.bound, given.blocked));
    }

    ghost method Quit(rest: seq<Event>)
      requires id < |sys.runners| && sys == Run(cfg, start, trace)
      requires (rest == [] || !Fits(sys, Pc(), rest[0])) && goal == GoalOf(cfg, sys, id, rest)
      modifies this`sys, this`trace
      ensures sys == Put(old(sys), id, Idle, old(sys).runners[id].rec) && goal == Goal(sys, Failure)
      ensures sys == Run(cfg, start, trace) && old(trace) <= trace
    {
      RunOne(cfg, start, trace, Stop(id));
      sys, trace := Step(cfg, sys, Stop(id)), trace + [Stop(id)];
    }

    method Next() returns (e: Option<Event>)
      modifies this`script
      ensures old(script) == [] ==> e.None? && script == []
      ensures old(script) != [] ==> e == Some(old(script)[0]) && old(script) == [e.value] + script
    {
      if |script| == 0 {
        return None;
      }
      e := Some(script[0]);
      script := script[1..];
    }

    /** One journal save, if the process gets as far as that. */
    method Commit(state: State, ghost next: Pc) returns (ok: bool)
      requires Valid() && Due(cfg, Pc(), r) == Some(Saving(state, next))
      modifies this, journal
      ensures Valid() && goal == old(goal) && old(trace) <= trace && |script| <= |old(script)|
      ensures !ok ==> Pc().Idle? && goal.result == Failure
      ensures ok && next.Idle? ==> goal.result == Told(old(Pc()))
      ensures ok ==>
        && r == Saved(old(r), state, old(r).retries, false) && Pc() == next && |script| < |old(script)|
        && sys.op.Some? && sys.runners[id].rec == r && sys.op.value.state == state
    {
      var e := Next();
      if e.None? || !e.value.Save? {
        Quit(old(script));
        return false;
      }
      var saved;
      ok, saved := journal.Save(key, r, state, r.retries, false);
      assert ok <==> AsRead(sys, id);
      DoSave(e.value, Saving(state, next));
      r := saved;
    }

    /** Reads the platform's progress before a replay; None to go on and send. */
    method Check() returns (ended: Option<Result>)
      requires Valid() && Pc() == Checking
      modifies this, journal
      ensures Valid() && goal == old(goal) && old(trace) <= trace && |script| <= |old(script)|
      ensures ended.None? ==> Pc() == Claiming
      ensures ended.Some? ==> Pc().Idle? && ended.value == goal.result
      ensures ended == Some(Finished) ==> sys.op.Some? && sys.op.value.state.Confirmed? && unit.complete
      ensures ended.None? || ended == Some(Finished) || ended == Some(Failure)
    {
      var e := Next();
      if e.None? || !e.value.Read? || !Truthful(e.value.found, unit.complete) {
        Quit(old(script));
        return Some(Failure);
      }
      Do(e.value, Read(id, e.value.found));
      match e.value.found {
        case CheckFailed => return Some(Failure);
        case Complete =>
          var ok := Commit(Confirmed, Idle);
          return Some(if ok then Finished else Failure);
        case Incomplete => return None;
        case Unconfirmed => return None;
      }
    }

    /** One request: the platform may take it, then the call ends; None if the process
        stops first. */
    method Call() returns (reply: Option<Outcome>)
      requires Valid() && Pc() == InFlight(false)
      modifies this, unit
      ensures Valid() && goal == old(goal) && old(trace) <= trace && |script| <= |old(script)| && r == old(r)
      ensures reply.None? ==> Pc().Idle? && goal.result == Failure
      ensures reply.Some? ==> Pc().Settling? && Pc().outcome == reply.value
    {
      var took := Taken();
      reply := Answer(took);
    }

    method Taken() returns (took: bool)
      requires Valid() && Pc() == InFlight(false)
      modifies this, unit
      ensures Valid() && goal == old(goal) && old(trace) <= trace && |script| <= |old(script)| && r == old(r)
      ensures Pc() == InFlight(took) && (!took ==> script == [] || !script[0].Take?)
    {
      if |script| == 0 || !script[0].Take? {
        return false;
      }
      var e := Next();
      unit.accepted := unit.accepted + 1;
      unit.complete := unit.complete || e.value.completes;
      Do(e.value, Take(id, e.value.completes));
      took := true;
    }

    method Answer(took: bool) returns (reply: Option<Outcome>)
      requires Valid() && Pc() == InFlight(took)
      requires !took ==> script == [] || !script[0].Take?
      modifies this
      ensures Valid() && goal == old(goal) && old(trace) <= trace && |script| <= |old(script)| && r == old(r)
      ensures reply.None? ==> Pc().Idle? && goal.result == Failure
      ensures reply.Some? ==> Pc().Settling? && Pc().outcome == reply.value
    {
      var e := Next();
      if e.None? || !e.value.Reply? || !HonestWrite(e.value.outcome, took) {
        Quit(old(script));
        return None;
      }
      Do(e.value, Reply(id, e.value.outcome));
      reply := Some(e.value.outcome);
    }

    /** Loads the row; what Begin says about it is where Effect goes on. */
    method Open() returns (ready: bool)
      requires Mirrors() && Pc().Idle? && goal == GoalOf(cfg, sys, id, script)
      requires cfg.single ==> AllIdle(sys)
      modifies this, journal
      ensures Valid() && goal == old(goal) && old(trace) <= trace && |script| <= |old(script)|
      ensures !ready ==> Pc().Idle? && goal.result == Failure
      ensures ready ==> Pc() == Begin(cfg, r) && sys.op.Some? && sys.runners[id].rec == r == Snapshot(sys.op.value)
      ensures ready && Pc().Idle? ==> goal.result == Standing(cfg, r.state)
    {
      var e := Next();
      if e.None? || !e.value.Start? {
        Quit(old(script));
        return false;
      }
      ready := Load(e.value);
    }

    method Load(given: Event) returns (ready: bool)
      requires Mirrors() && Pc().Idle? && given.Start? && goal == GoalOf(cfg, sys, id, [given] + script)
      requires cfg.single ==> AllIdle(sys)
      modifies this`r, this`sys, this`trace, journal
      ensures Valid() && old(trace) <= trace
      ensures !ready ==> Pc().Idle? && goal.result == Failure
      ensures ready ==> Pc() == Begin(cfg, r) && sys.op.Some? && sys.runners[id].rec == r == Snapshot(sys.op.value)
      ensures ready && Pc().Idle? ==> goal.result == Standing(cfg, r.state)
    {
      var loaded := journal.Load(key, given.bound, given.blocked);
      DoStart(given);
      if loaded.None? {
        return false;
      }
      r := loaded.value;
      ready := true;
    }

    /** Decides whether anything may be sent; None if so. */
    method Admit() returns (ended: Option<Result>)
      requires Mirrors() && Pc().Idle? && goal == GoalOf(cfg, sys, id, script)
      requires cfg.single ==> AllIdle(sys)
      modifies this, journal
      ensures Valid() && goal == old(goal) && old(trace) <= trace && |script| <= |old(script)|
      ensures ended.None? ==> Pc() == Top(cfg, r) && sys.op.Some? && sys.runners[id].rec == r
      ensures ended.Some? ==>
        Pc().Idle? && ended.value == goal.result && (ended.value.Recorded? || ended.value.Failure?)
      ensures ended == Some(Recorded) ==>
        !cfg.replayable && sys.op.Some? && (sys.op.value.state.Posted? || sys.op.value.state.Confirmed?)
    {
      var ready := Open();
      if !ready {
        return Some(Failure);
      }
      if (r.state.Posted? || r.state.Confirmed?) && !cfg.replayable {
        return Some(Recorded);
      }
      if !r.state.New? && !r.state.Rejected? && !r.state.NotSent?
        && !(cfg.replayable && (r.state.Unknown? || r.state.Pending? || r.state.Posted? || r.state.Confirmed?)) {
        return Some(Failure);
      }
      return None;
    }

    /** Writes what the call came to; None to go round again. */
    method Settled(outcome: Outcome) returns (ended: Option<Result>)
      requires Valid() && Pc().Settling? && Pc().outcome == outcome
      modifies this, journal
      ensures Valid() && goal == old(goal) && old(trace) <= trace && |script| <= |old(script)|
      ensures ended.None? ==> Pc() == Top(cfg, r) && sys.op.Some? && sys.runners[id].rec == r
      ensures ended.Some? ==>
        Pc().Idle? && ended.value == goal.result && (ended.value.Accepted? || ended.value.Failure?)
      ensures ended == Some(Accepted) ==> sys.op.Some? && sys.op.value.state.Posted?
    {
      ghost var settled := Settle(cfg, outcome);
      ghost var next :=
        if settled.again then Top(cfg, Saved(r, settled.state, r.retries, false)) else Idle;
      if outcome.Failed? {
        var ok := Commit(Unknown, next);
        return if ok && cfg.replayable && outcome.error.Transport? && outcome.error.transient
               then None else Some(Failure);
      }
      var response := outcome.response;
      if RateLimited(response) {
        var ok := Commit(Rejected, next);
        return if ok then None else Some(Failure);
      }
      if DataFault(response).Some? {
        var state := Unknown;
        if response.status == 401 || response.status == 403 || SaysFailure(response) {
          state := Rejected;
        }
        var ok := Commit(state, next);
        return if ok && cfg.replayable && response.status >= 500 then None else Some(Failure);
      }
      var ok := Commit(Posted, next);
      return Some(if ok then Accepted else Failure);
    }

    method Effect(script: seq<Event>) returns (result: Result)
      requires Valid() && Pc().Idle? && (cfg.single ==> AllIdle(sys))
      modifies this, journal, unit
      ensures Valid() && Pc().Idle? && old(trace) <= trace
      ensures sys == Drive(cfg, old(sys), id, script)
      ensures result.Accepted? <==> SavedSomewhere(cfg, old(sys), id, script, Accepted)
      ensures result.Finished? <==> SavedSomewhere(cfg, old(sys), id, script, Finished)
      ensures result.Recorded? <==> script != [] && OnRecord(cfg, old(sys), script[0])
      ensures result.Accepted? ==> key in journal.rows && journal.rows[key].state.Posted?
      ensures result.Recorded? ==>
        !cfg.replayable && key in journal.rows
        && (journal.rows[key].state.Posted? || journal.rows[key].state.Confirmed?)
      ensures result.Finished? ==> key in journal.rows && journal.rows[key].state.Confirmed? && unit.complete
      ensures start == Init(cfg) && !cfg.replayable ==> unit.accepted <= 1
    {
      this.script := script;
      goal := GoalOf(cfg, sys, id, script);
      ReturnsExactly(cfg, sys, id, script, Accepted);
      ReturnsExactly(cfg, sys, id, script, Finished);
      RecordedExactly(cfg, sys, id, script);
      var ended := Admit();
      while ended.None?
        invariant Valid() && goal == GoalOf(cfg, old(sys), id, script) && old(trace) <= trace
        invariant if ended.None? then Pc() == Top(cfg, r) && sys.op.Some? && sys.runners[id].rec == r else Pc().Idle?
        invariant ended.Some? ==> ended.value == goal.result
        invariant ended == Some(Accepted) ==> sys.op.Some? && sys.op.value.state.Posted?
        invariant ended == Some(Recorded) ==>
          !cfg.replayable && sys.op.Some? && (sys.op.value.state.Posted? || sys.op.value.state.Confirmed?)
        invariant ended == Some(Finished) ==> sys.op.Some? && sys.op.value.state.Confirmed? && unit.complete
        decreases |this.script|, ended.None?
      {
        ended := Round();
      }
      if start == Init(cfg) && !cfg.replayable {
        OnceRun(cfg, trace);
      }
      result := ended.value;
    }

    /** One pass of the loop. */
    method Round() returns (ended: Option<Result>)
      requires Valid() && sys.op.Some? && sys.runners[id].rec == r && Pc() == Top(cfg, r)
      modifies this, journal, unit
      ensures Valid() && goal == old(goal) && old(trace) <= trace && |script| <= |old(script)|
      ensures ended.None? ==>
        Pc() == Top(cfg, r) && sys.op.Some? && sys.runners[id].rec == r && |script| < |old(script)|
      ensures ended.Some? ==> Pc().Idle? && ended.value == goal.result
      ensures ended == Some(Accepted) ==> sys.op.Some? && sys.op.value.state.Posted?
      ensures ended != Some(Recorded)
      ensures ended == Some(Finished) ==> sys.op.Some? && sys.op.value.state.Confirmed? && unit.complete
    {
      if cfg.replayable && !r.state.New? && !r.state.Rejected? && !r.state.NotSent? {
        ended := Check();
        if ended.Some? {
          return;
        }
      }
      var claimed := Commit(Pending, InFlight(false));
      if !claimed {
        return Some(Failure);
      }
      var reply := Call();
      if reply.None? {
        return Some(Failure);
      }
      ended := Settled(reply.value);
    }
  }
}
