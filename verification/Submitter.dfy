/**
 submit as the source writes it (internal/operations/submissions.go): a loop over the
 journal and the platform, with the record updated in place. Every execution is shown to
 be a run of the transition system in module Submissions.
 */
module Submitters {
  import opened Options
  import opened Platform
  import opened Journals
  import opened Submissions

  /** The platform's side of one question: how many of our requests it has taken. */
  class Site {
    var accepted: nat

    constructor ()
      ensures accepted == 0
    {
      accepted := 0;
    }
  }

  datatype Reconciled = Found | Unanswered | Aborted

  datatype Result = Answered | Failure | Interrupted

  datatype Round = Again | Ended(result: Result)

  /** Whether e is the interaction that the runner has reached. */
  predicate Fits(pc: Pc, e: Event) {
    match pc
    case Idle => e.Start?
    case Loaded => e.Preserve?
    case Checking(left, _) => e.Read? && left > 0
    case InFlight(took) => (e.Take? && !took) || (e.Reply? && Honest(e.outcome, took))
    case _ => e.Save?
  }

  /** One call of submit in a given outside world: the runner steps until it is done, or
      stops at the first entry that does not fit. */
  function Drive(cfg: Config, s: System, id: nat, script: seq<Event>): (t: System)
    requires id < |s.runners|
    ensures |t.runners| == |s.runners| && t.runners[id].pc.Idle?
    decreases |script|
  {
    if script == [] || !Fits(s.runners[id].pc, script[0]) then Step(cfg, s, Stop(id))
    else
      var t := Step(cfg, s, script[0].(id := id));
      if t.runners[id].pc.Idle? then t else Drive(cfg, t, id, script[1..])
  }

  /** What the call returns, once the bank has saved an answer, if the save at this point is its
      last: the answer, if a good reply or a re-read has shown it, or that it was cancelled. */
  function Told(pc: Pc): Result {
    if pc.Confirming? || (pc.Settling? && SaysTaken(pc.outcome)) then Answered
    else if pc.Settling? && pc.cancelled && SeenError(pc.outcome).Some? then Interrupted
    else Failure
  }

  /** The row is still as the runner has read it. */
  predicate AsRead(s: System, id: nat)
    requires id < |s.runners|
  {
    s.op.Some? && Matches(s.op.value, s.runners[id].rec)
  }

  /** What a call comes to that ends with e. */
  function Last(s: System, id: nat, e: Event): Result
    requires id < |s.runners|
  {
    if e.Save? && AsRead(s, id) then Told(s.runners[id].pc) else Failure
  }

  /** What one call of submit comes to in a given outside world. */
  function Comes(cfg: Config, s: System, id: nat, script: seq<Event>): Result
    requires id < |s.runners|
    decreases |script|
  {
    if script == [] || !Fits(s.runners[id].pc, script[0]) then Failure
    else
      var t := Step(cfg, s, script[0].(id := id));
      if t.runners[id].pc.Idle? then Last(s, id, script[0]) else Comes(cfg, t, id, script[1..])
  }

  /** An answer that the bank has not saved is not returned. */
  function Returned(result: Result, banked: bool): Result {
    if result.Answered? && !banked then Failure else result
  }

  // ---------------------------------------------------------------- what a call comes to

  /** The state after the first k entries of the script. */
  function After(cfg: Config, s: System, id: nat, script: seq<Event>, k: nat): (t: System)
    requires id < |s.runners| && k <= |script|
    ensures |t.runners| == |s.runners|
    decreases k
  {
    if k == 0 then s else After(cfg, Step(cfg, s, script[0].(id := id)), id, script[1..], k - 1)
  }

  /** The call is not over after k entries, all of which it has used. */
  predicate Going(cfg: Config, s: System, id: nat, script: seq<Event>, k: nat)
    requires id < |s.runners| && k <= |script|
    decreases k
  {
    k == 0 ||
    (var t := Step(cfg, s, script[0].(id := id));
     Fits(s.runners[id].pc, script[0]) && !t.runners[id].pc.Idle? && Going(cfg, t, id, script[1..], k - 1))
  }

  /** What an interaction shows: an answer, by a reply with the result of the submission or by a
      re-read that counts answers, among them those that the platform has taken from us; or that
      a request failed while the call was being cancelled. */
  function Shown(s: System, e: Event): Result {
    match e
    case Reply(_, outcome, cancelled) =>
      if SaysTaken(outcome) then Answered
      else if cancelled && (outcome.Failed? || outcome.response.status >= 500) then Interrupted
      else Failure
    case Read(_, Counted(others)) => if others + s.accepted > 0 then Answered else Failure
    case _ => Failure
  }

  /** In the course of the call, entry k - 1 shows this and entry k saves it on the row that the
      runner has read. */
  predicate ShownAndSaved(cfg: Config, s: System, id: nat, script: seq<Event>, k: nat, result: Result)
    requires id < |s.runners| && 0 < k < |script|
  {
    var before, now := After(cfg, s, id, script, k - 1), After(cfg, s, id, script, k);
    && Going(cfg, s, id, script, k) && Shown(before, script[k - 1]) == result
    && script[k].Save? && AsRead(now, id)
  }

  predicate ShownSomewhere(cfg: Config, s: System, id: nat, script: seq<Event>, result: Result)
    requires id < |s.runners|
  {
    exists k | 0 < k < |script| :: ShownAndSaved(cfg, s, id, script, k, result)
  }

  /** The save of entry k is the last, and the call comes to this. */
  predicate EndsAt(cfg: Config, s: System, id: nat, script: seq<Event>, k: nat, result: Result)
    requires id < |s.runners| && k < |script|
  {
    var t := After(cfg, s, id, script, k);
    Going(cfg, s, id, script, k) && script[k].Save? && AsRead(t, id) && Told(t.runners[id].pc) == result
  }

  predicate EndsSomewhere(cfg: Config, s: System, id: nat, script: seq<Event>, result: Result)
    requires id < |s.runners|
  {
    exists k | 0 <= k < |script| :: EndsAt(cfg, s, id, script, k, result)
  }

  /** The first entry of a call. */
  lemma FirstEntry(cfg: Config, s: System, id: nat, script: seq<Event>, result: Result) returns (t: System)
    requires id < |s.runners| && script != [] && !result.Failure?
    ensures |t.runners| == |s.runners|
    ensures Comes(cfg, s, id, script) == result <==>
      Fits(s.runners[id].pc, script[0]) &&
      if t.runners[id].pc.Idle? then EndsAt(cfg, s, id, script, 0, result)
      else Comes(cfg, t, id, script[1..]) == result
    ensures EndsAt(cfg, s, id, script, 0, result) ==> Fits(s.runners[id].pc, script[0]) && t.runners[id].pc.Idle?
    ensures forall k | 0 < k < |script| :: EndsAt(cfg, s, id, script, k, result) <==>
      Fits(s.runners[id].pc, script[0]) && !t.runners[id].pc.Idle? && EndsAt(cfg, t, id, script[1..], k - 1, result)
  {
    t := Step(cfg, s, script[0].(id := id));
  }

  lemma {:induction false} ComesAt(cfg: Config, s: System, id: nat, script: seq<Event>, result: Result)
    requires id < |s.runners| && !result.Failure?
    ensures Comes(cfg, s, id, script) == result <==> EndsSomewhere(cfg, s, id, script, result)
    decreases |script|
  {
    if script != [] {
      var rest := script[1..];
      var t := FirstEntry(cfg, s, id, script, result);
      ComesAt(cfg, t, id, rest, result);
      if Comes(cfg, s, id, script) == result && !t.runners[id].pc.Idle? {
        var k :| 0 <= k < |rest| && EndsAt(cfg, t, id, rest, k, result);
        assert EndsAt(cfg, s, id, script, k + 1, result);
      }
    }
  }

  lemma ToldOnce(cfg: Config, s: System, id: nat, e: Event)
    requires id < |s.runners| && Fits(s.runners[id].pc, e)
    ensures Told(Step(cfg, s, e.(id := id)).runners[id].pc) == Shown(s, e)
  {
  }

  lemma {:induction false} ToldAt(cfg: Config, s: System, id: nat, script: seq<Event>, k: nat)
    requires id < |s.runners| && 0 < k <= |script| && Going(cfg, s, id, script, k)
    ensures Told(After(cfg, s, id, script, k).runners[id].pc) ==
      Shown(After(cfg, s, id, script, k - 1), script[k - 1])
    decreases k
  {
    if k == 1 {
      ToldOnce(cfg, s, id, script[0]);
    } else {
      ToldAt(cfg, Step(cfg, s, script[0].(id := id)), id, script[1..], k - 1);
    }
  }

  /** A call comes to an answer, or to a cancellation, exactly if somewhere in it an interaction
      shows that, and the save that comes next goes through. */
  lemma ComesExactly(cfg: Config, s: System, id: nat, script: seq<Event>, result: Result)
    requires id < |s.runners| && s.runners[id].pc.Idle? && !result.Failure?
    ensures Comes(cfg, s, id, script) == result <==> ShownSomewhere(cfg, s, id, script, result)
  {
    ComesAt(cfg, s, id, script, result);
    forall k | 0 <= k < |script|
      ensures EndsAt(cfg, s, id, script, k, result) <==> k > 0 && ShownAndSaved(cfg, s, id, script, k, result)
    {
      if k > 0 && Going(cfg, s, id, script, k) {
        ToldAt(cfg, s, id, script, k);
      }
    }
  }

  // ---------------------------------------------------------------- one call

  /** What a response below 500 tells. */
  lemma ToldBy(pc: Pc, response: Response)
    requires pc.Settling? && pc.outcome == Replied(response) && response.status < 500
    ensures Told(pc) == if DataFault(response).None? && HasData(response) then Answered else Failure
    ensures RateLimited(response) ==> DataFault(response).Some?
  {
  }

  /** What a call leaves behind, and what it comes to. */
  datatype Goal = Goal(sys: System, result: Result)

  function GoalOf(cfg: Config, s: System, id: nat, script: seq<Event>): Goal
    requires id < |s.runners|
  {
    Goal(Drive(cfg, s, id, script), Comes(cfg, s, id, script))
  }

  /** A call that goes on with the first entry of its script. */
  lemma DriveOne(cfg: Config, s: System, id: nat, given: Event, script: seq<Event>)
    requires id < |s.runners| && Fits(s.runners[id].pc, given)
    ensures var t := Step(cfg, s, given.(id := id));
      && |t.runners| == |s.runners|
      && GoalOf(cfg, s, id, [given] + script) ==
           if t.runners[id].pc.Idle? then Goal(t, Last(s, id, given)) else GoalOf(cfg, t, id, script)
  {
    assert ([given] + script)[1..] == script;
  }

  /** One service process working on one question key. script holds what the outside world
      does at each interaction, in order; where the next entry is not the interaction that
      the code has reached, or there is none, the process stops there. */
  class Submitter {
    const cfg: Config
    const key: string
    const id: nat
    const journal: Journal
    const site: Site
    var r: Record
    var script: seq<Event>
    ghost const start: System
    ghost var sys: System
    ghost var trace: seq<Event>
    ghost var goal: Goal

    ghost function Pc(): Pc
      reads this
      requires id < |sys.runners|
    {
      sys.runners[id].pc
    }

    /** sys is what the trace leads to, and mirrors the table, the platform and the record;
        goal is where the rest of the script drives it, and what the call comes to. */
    ghost predicate Valid()
      reads this, journal, site
    {
      && id < |sys.runners|
      && sys == Run(cfg, start, trace)
      && sys.op == (if key in journal.rows then Some(journal.rows[key]) else None)
      && sys.accepted == site.accepted
      && (!Pc().Idle? ==> sys.op.Some? && sys.runners[id].rec == r)
      && (if Pc().Idle? then goal.sys == sys else goal == GoalOf(cfg, sys, id, script))
    }

    /** The call ends with what it has come to. */
    ghost predicate Reports(round: Round, banked: bool)
      reads this
    {
      round == Ended(Returned(goal.result, banked))
    }

    /** A reconciliation has found an answer exactly if the call has come to one that the bank
        has saved. */
    ghost predicate Tells(found: Reconciled, banked: bool)
      reads this
    {
      !goal.result.Interrupted? && (found.Found? <==> goal.result.Answered? && banked)
    }

    /** The call has come to nothing, if it is over. */
    ghost predicate Missed()
      reads this
      requires id < |sys.runners|
    {
      Pc().Idle? ==> goal.result == Failure
    }

    /** Before the first interaction of a call. */
    ghost predicate Ready()
      reads this, journal, site
    {
      && id < |sys.runners|
      && sys == Run(cfg, start, trace)
      && sys.op == (if key in journal.rows then Some(journal.rows[key]) else None)
      && sys.accepted == site.accepted
      && Pc().Idle?
      && goal == GoalOf(cfg, sys, id, script)
    }

    constructor (cfg: Config, key: string, id: nat, journal: Journal, site: Site)
      requires id < cfg.runners && key !in journal.rows && site.accepted == 0
      ensures Valid() && Pc().Idle? && AllIdle(sys) && trace == [] && start == Init(cfg)
      ensures this.cfg == cfg && this.key == key && this.id == id
      ensures this.journal == journal && this.site == site
    {
      this.cfg, this.key, this.id, this.journal, this.site := cfg, key, id, journal, site;
      r := Snapshot(Fresh());
      script := [];
      start := Init(cfg);
      sys := Init(cfg);
      goal := Goal(Init(cfg), Failure);
      trace := [];
    }

    /** The interaction that the script gave: e, with this runner's own number. */
    ghost method Do(given: Event, e: Event)
      requires id < |sys.runners| && sys == Run(cfg, start, trace)
      requires Fits(Pc(), given) && e == given.(id := id) && goal == GoalOf(cfg, sys, id, [given] + script)
      modifies this`sys, this`trace
      ensures sys == Step(cfg, old(sys), e) && sys == Run(cfg, start, trace) && old(trace) <= trace
      ensures |sys.runners| == |old(sys).runners|
      ensures goal == if Pc().Idle? then Goal(sys, Last(old(sys), id, given)) else GoalOf(cfg, sys, id, script)
    {
      DriveOne(cfg, sys, id, given, script);
      RunOne(cfg, start, trace, e);
      sys, trace := Step(cfg, sys, e), trace + [e];
    }

    ghost method DoSave(given: Event, w: Saving)
      requires id < |sys.runners| && sys == Run(cfg, start, trace) && given.Save?
      requires Due(cfg, Pc(), sys.runners[id].rec) == Some(w) && goal == GoalOf(cfg, sys, id, [given] + script)
      modifies this`sys, this`trace
      ensures sys == Write(old(sys), id, w) && sys == Run(cfg, start, trace) && old(trace) <= trace
      ensures |sys.runners| == |old(sys).runners|
      ensures if Pc().Idle? then goal.sys == sys else goal == GoalOf(cfg, sys, id, script)
      ensures AsRead(old(sys), id) ==> Pc() == w.next && (Pc().Idle? ==> goal.result == Told(old(Pc())))
      ensures !AsRead(old(sys), id) ==> Pc().Idle? && goal.result == Failure
    {
      Do(given, Save(id));
    }

    /** The process stops at the head of rest, which is what the script had left. */
    ghost method Quit(rest: seq<Event>)
      requires id < |sys.runners| && sys == Run(cfg, start, trace)
      requires (rest == [] || !Fits(Pc(), rest[0])) && goal == GoalOf(cfg, sys, id, rest)
      modifies this`sys, this`trace
      ensures sys == Put(old(sys), id, Idle, old(sys).runners[id].rec) && goal == Goal(sys, Failure)
      ensures sys == Run(cfg, start, trace) && old(trace) <= trace
    {
      RunOne(cfg, start, trace, Stop(id));
      sys, trace := Step(cfg, sys, Stop(id)), trace + [Stop(id)];
    }

    method Next() returns (e: Option<Event>)
      modifies this`script
      ensures old(script) == [] ==> e.None? && script == []
      ensures old(script) != [] ==> e == Some(old(script)[0]) && old(script) == [e.value] + script
    {
      if |script| == 0 {
        return None;
      }
      e := Some(script[0]);
      script := script[1..];
    }

    /** One journal save, if the process gets as far as that; next is where submit goes on
        once the save has gone through. */
    method Commit(state: State, retries: nat, retryable: bool, ghost next: Pc) returns (ok: bool)
      requires Valid() && Due(cfg, Pc(), r) == Some(Saving(state, retries, retryable, next))
      modifies this, journal
      ensures Valid() && old(trace) <= trace && |script| <= |old(script)| && goal == old(goal)
      ensures !ok ==> Pc().Idle? && goal.result == Failure
      ensures ok && next.Idle? ==> goal.result == Told(old(Pc()))
      ensures ok ==>
        && r == Saved(old(r), state, retries, retryable) && Pc() == next && |script| < |old(script)|
        && sys.op.Some? && sys.runners[id].rec == r && sys.op.value.state == state
    {
      var e := Next();
      if e.None? || !e.value.Save? {
        Quit(old(script));
        return false;
      }
      var saved;
      ok, saved := journal.Save(key, r, state, retries, retryable);
      assert ok <==> AsRead(sys, id);
      DoSave(e.value, Saving(state, retries, retryable, next));
      r := saved;
    }

    /** Re-reads the question until an answer shows or the delays are used up; banked says
        whether the bank then saves the answer. */
    method Reconcile(banked: bool, ghost after: Then) returns (found: Reconciled)
      requires Valid() && sys.op.Some? && sys.runners[id].rec == r && Pc() == Check(cfg, r, after) && Missed()
      modifies this, journal
      ensures Valid() && old(trace) <= trace && |script| <= |old(script)| && goal == old(goal)
      ensures !found.Unanswered? ==> Pc().Idle? && Tells(found, banked)
      ensures found.Found? ==> sys.op.Some? && sys.op.value.state.Confirmed? && banked
      ensures found.Unanswered? ==>
        sys.op.Some? && sys.runners[id].rec == r == old(r) && Pc() == Continue(r, after) && Missed()
    {
      for i := 0 to cfg.delays
        invariant Valid() && goal == old(goal) && old(trace) <= trace && |script| <= |old(script)|
        invariant sys.op.Some? && sys.runners[id].rec == r == old(r) && Missed()
        invariant Pc() == if i == cfg.delays then Continue(r, after) else Checking(cfg.delays - i, after)
      {
        found := Recheck(banked, cfg.delays - i, after);
        if !found.Unanswered? {
          return;
        }
      }
      found := Unanswered;
    }

    /** One re-read. */
    method Recheck(banked: bool, left: nat, ghost after: Then) returns (found: Reconciled)
      requires left > 0 && Valid() && Pc() == Checking(left, after)
      modifies this, journal
      ensures Valid() && old(trace) <= trace && |script| <= |old(script)| && goal == old(goal)
      ensures !found.Unanswered? ==> Pc().Idle? && Tells(found, banked)
      ensures found.Found? ==> sys.op.Some? && sys.op.value.state.Confirmed? && banked
      ensures found.Unanswered? ==> sys.op.Some? && sys.runners[id].rec == r == old(r) && Missed()
      ensures found.Unanswered? ==> Pc() == if left == 1 then Continue(r, after) else Checking(left - 1, after)
    {
      var e := Next();
      if e.None? || !e.value.Read? {
        Quit(old(script));
        return Aborted;
      }
      Do(e.value, Read(id, e.value.found));
      if !e.value.found.Counted? {
        return Aborted;
      }
      if e.value.found.others + site.accepted == 0 {
        return Unanswered;
      }
      var ok := Commit(Confirmed, r.retries, r.retryable, Idle);
      found := if ok && banked then Found else Aborted;
    }

    /** Reserves one of the two retries, or gives up. */
    method Retry() returns (again: bool)
      requires Valid() && Pc() == Retrying
      modifies this, journal
      ensures Valid() && old(trace) <= trace && |script| <= |old(script)| && goal == old(goal)
      ensures if again then Pc() == Claiming else Pc().Idle? && goal.result == Failure
    {
      if r.retries >= 2 {
        var ok := Commit(RetryExhausted, r.retries, true, Idle);
        return false;
      }
      again := Commit(RetryReady, r.retries + 1, true, Claiming);
    }

    /** One request: the platform may take it, then the call ends; None if the process
        stops first. */
    method Call() returns (reply: Option<(Outcome, bool)>)
      requires Valid() && Pc() == InFlight(false)
      modifies this, site
      ensures Valid() && goal == old(goal) && old(trace) <= trace && |script| <= |old(script)| && r == old(r)
      ensures reply.None? ==> Pc().Idle? && goal.result == Failure
      ensures reply.Some? ==>
        Pc().Settling? && Pc().outcome == reply.value.0 && Pc().cancelled == reply.value.1
    {
      var took := Taken();
      reply := Answer(took);
    }

    method Taken() returns (took: bool)
      requires Valid() && Pc() == InFlight(false)
      modifies this, site
      ensures Valid() && goal == old(goal) && old(trace) <= trace && |script| <= |old(script)| && r == old(r)
      ensures Pc() == InFlight(took) && (!took ==> script == [] || !script[0].Take?)
    {
      if |script| == 0 || !script[0].Take? {
        return false;
      }
      var e := Next();
      site.accepted := site.accepted + 1;
      Do(e.value, Take(id));
      took := true;
    }

    method Answer(took: bool) returns (reply: Option<(Outcome, bool)>)
      requires Valid() && Pc() == InFlight(took)
      requires !took ==> script == [] || !script[0].Take?
      modifies this
      ensures Valid() && goal == old(goal) && old(trace) <= trace && |script| <= |old(script)| && r == old(r)
      ensures reply.None? ==> Pc().Idle? && goal.result == Failure
      ensures reply.Some? ==>
        Pc().Settling? && Pc().outcome == reply.value.0 && Pc().cancelled == reply.value.1
    {
      var e := Next();
      if e.None? || !e.value.Reply? || !Honest(e.value.outcome, took) {
        Quit(old(script));
        return None;
      }
      Do(e.value, Reply(id, e.value.outcome, e.value.cancelled));
      reply := Some((e.value.outcome, e.value.cancelled));
    }

    /** What one call of submit leaves behind is exactly what the transition system leaves
        in the same outside world. An answer is returned only if the bank has saved it, which
        comes last: what the journal and the platform hold does not depend on it. */
    method Submit(script: seq<Event>, banked: bool) returns (result: Result)
      requires Valid() && Pc().Idle? && (cfg.single ==> AllIdle(sys))
      modifies this, journal, site
      ensures Valid() && Pc().Idle? && old(trace) <= trace
      ensures sys == Drive(cfg, old(sys), id, script)
      ensures result.Answered? <==> banked && ShownSomewhere(cfg, old(sys), id, script, Answered)
      ensures result.Interrupted? <==> ShownSomewhere(cfg, old(sys), id, script, Interrupted)
      ensures result.Answered? ==>
        key in journal.rows && (journal.rows[key].state.Posted? || journal.rows[key].state.Confirmed?) && banked
      ensures start == Init(cfg) && Guarded(cfg) ==> site.accepted <= 1
    {
      this.script := script;
      goal := GoalOf(cfg, sys, id, script);
      ComesExactly(cfg, sys, id, script, Answered);
      ComesExactly(cfg, sys, id, script, Interrupted);
      result := Work(banked);
      if start == Init(cfg) && Guarded(cfg) {
        SafeRun(cfg, trace);
      }
    }

    method Work(banked: bool) returns (result: Result)
      requires Ready() && (cfg.single ==> AllIdle(sys))
      modifies this, journal, site
      ensures Valid() && Pc().Idle? && old(trace) <= trace && goal == old(goal)
      ensures result == Returned(goal.result, banked)
      ensures result.Answered? ==>
        sys.op.Some? && (sys.op.value.state.Posted? || sys.op.value.state.Confirmed?) && banked
    {
      var round := Prepare(banked);
      while round.Again?
        invariant Valid() && goal == old(goal) && old(trace) <= trace
        invariant if round.Again? then Pc() == Claiming else Pc().Idle? && Reports(round, banked)
        invariant round == Ended(Answered) ==>
          sys.op.Some? && (sys.op.value.state.Posted? || sys.op.value.state.Confirmed?) && banked
        decreases |script|, round.Again?
      {
        round := Attempt(banked);
      }
      result := round.result;
    }

    /** Loads the row, and reconciles or retries where its state asks for it. */
    method Prepare(banked: bool) returns (round: Round)
      requires Ready() && (cfg.single ==> AllIdle(sys))
      modifies this, journal
      ensures Valid() && old(trace) <= trace && |script| <= |old(script)| && goal == old(goal)
      ensures if round.Again? then Pc() == Claiming else Pc().Idle? && Reports(round, banked)
      ensures round == Ended(Answered) ==> sys.op.Some? && sys.op.value.state.Confirmed? && banked
    {
      var ready := Open();
      if !ready {
        return Ended(Failure);
      }
      if !r.state.New? && !r.state.Rejected? && !r.state.NotSent? {
        var found := Reconcile(banked, Resume);
        if !found.Unanswered? {
          return Ended(if found.Found? then Answered else Failure);
        }
        if r.state.Posted? || r.state.Confirmed? || !r.retryable {
          return Ended(Failure);
        }
        if r.state.RetryReady? {
          return Again;
        }
        var again := Retry();
        return if again then Again else Ended(Failure);
      } else if r.state.NotSent? {
        var again := Retry();
        return if again then Again else Ended(Failure);
      }
      round := Again;
    }

    method Open() returns (ready: bool)
      requires Ready() && (cfg.single ==> AllIdle(sys))
      modifies this, journal
      ensures Valid() && old(trace) <= trace && |script| <= |old(script)| && goal == old(goal)
      ensures if ready then sys.op.Some? && sys.runners[id].rec == r && Pc() == Begin(cfg, r) && Missed()
              else Pc().Idle? && goal.result == Failure
    {
      var e := Next();
      if e.None? || !e.value.Start? {
        Quit(old(script));
        return false;
      }
      var loaded := journal.Load(key, e.value.bound, e.value.blocked);
      Do(e.value, Start(id, e.value.bound, e.value.blocked));
      if loaded.None? {
        return false;
      }
      r := loaded.value;
      ready := Inherit();
    }

    /** Takes over the outcome of older rows of the question. */
    method Inherit() returns (ready: bool)
      requires Valid() && Pc() == Loaded
      modifies this, journal
      ensures Valid() && goal == old(goal) && old(trace) <= trace && |script| <= |old(script)|
      ensures if ready then sys.op.Some? && sys.runners[id].rec == r && Pc() == Begin(cfg, r) && Missed()
              else Pc().Idle? && goal.result == Failure
    {
      var e := Next();
      if e.None? || !e.value.Preserve? {
        Quit(old(script));
        return false;
      }
      var preserved;
      ready, preserved := journal.PreserveLegacy(key, r, e.value.legacy);
      Do(e.value, Preserve(id, e.value.legacy));
      r := preserved;
    }

    /** One pass of submit's loop. */
    method Attempt(banked: bool) returns (round: Round)
      requires Valid() && Pc() == Claiming
      modifies this, journal, site
      ensures Valid() && old(trace) <= trace && |script| <= |old(script)| && goal == old(goal)
      ensures if round.Again? then Pc() == Claiming && |script| < |old(script)|
              else Pc().Idle? && Reports(round, banked)
      ensures round == Ended(Answered) ==>
        sys.op.Some? && (sys.op.value.state.Posted? || sys.op.value.state.Confirmed?) && banked
    {
      var claimed := Commit(Pending, r.retries, true, InFlight(false));
      if !claimed {
        return Ended(Failure);
      }
      var reply := Call();
      if reply.None? {
        return Ended(Failure);
      }
      var (outcome, cancelled) := reply.value;
      if outcome.Failed? {
        round := AfterFailure(outcome.error, cancelled, banked);
      } else if outcome.response.status >= 500 {
        round := AfterFailure(Transport(true, true), cancelled, banked);
      } else {
        round := AfterResponse(outcome.response, banked);
      }
    }

    method AfterFailure(error: Failure, cancelled: bool, banked: bool) returns (round: Round)
      requires Valid() && Pc().Settling? && SeenError(Pc().outcome) == Some(error) && Pc().cancelled == cancelled
      modifies this, journal
      ensures Valid() && old(trace) <= trace && |script| <= |old(script)| && goal == old(goal)
      ensures if round.Again? then Pc() == Claiming else Pc().Idle? && Reports(round, banked)
      ensures round == Ended(Answered) ==> sys.op.Some? && sys.op.value.state.Confirmed? && banked
    {
      var known := error.Transport?;
      var notSent := known && !error.connected;
      var retryable := known && error.transient;
      var state := Unknown;
      if notSent {
        state := NotSent;
      }
      if error.Coded? && (error.code.AccountRequired? || error.code.AccessDenied?) {
        state := Rejected;
      }
      var written := Commit(state, r.retries, retryable || cancelled, Settle(cfg, r, Pc().outcome, cancelled).next);
      if !written || cancelled || state.Rejected? {
        return Ended(if written && cancelled then Interrupted else Failure);
      }
      if !notSent {
        var found := Reconcile(banked, AfterError(retryable));
        if !found.Unanswered? {
          return Ended(if found.Found? then Answered else Failure);
        }
      }
      if !retryable {
        return Ended(Failure);
      }
      var again := Retry();
      round := if again then Again else Ended(Failure);
    }

    method AfterResponse(response: Response, banked: bool) returns (round: Round)
      requires Valid() && Pc().Settling? && Pc().outcome == Replied(response) && response.status < 500
      modifies this, journal
      ensures Valid() && old(trace) <= trace && |script| <= |old(script)| && goal == old(goal)
      ensures if round.Again? then Pc() == Claiming else Pc().Idle? && Reports(round, banked)
      ensures round == Ended(Answered) ==>
        sys.op.Some? && (sys.op.value.state.Posted? || sys.op.value.state.Confirmed?) && banked
    {
      ghost var next := Settle(cfg, r, Pc().outcome, Pc().cancelled).next;
      ToldBy(Pc(), response);
      if RateLimited(response) {
        var written := Commit(Rejected, r.retries, true, next);
        return if written then Again else Ended(Failure);
      }
      if DataFault(response).Some? {
        var rejected := ExplicitlyRejected(response);
        var written := Commit(if rejected then Rejected else Unknown, r.retries, false, next);
        if !written || rejected {
          return Ended(Failure);
        }
        var found := Reconcile(banked, AfterReply);
        return Ended(if found.Found? then Answered else Failure);
      }
      if !HasData(response) {
        var written := Commit(Unknown, r.retries, false, next);
        return Ended(Failure);
      }
      var written := Commit(Posted, r.retries, false, next);
      round := Ended(if written && banked then Answered else Failure);
    }
  }
}
