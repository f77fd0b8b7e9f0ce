/**
 The durable record of every outgoing write (internal/operations/journal.go).
 Each transaction is one atomic step.
 */
module Journals {
  import opened Options

  datatype State =
    New | Pending | Posted | Confirmed | Rejected | NotSent | Unknown | RetryReady | RetryExhausted

  /** A row of the operations table together with its rows of operation_attempts:
      log[i] is the state last saved for the attempt with sequence i + 1. */
  datatype Operation = Operation(state: State, attempt: nat, retries: nat, retryable: bool, log: seq<State>)

  /** The copy of the row that one runner works with. */
  datatype Record = Record(state: State, attempt: nat, retries: nat, retryable: bool)

  /** What Save compares before it writes. */
  datatype Version = Version(attempt: nat, retries: nat, state: State)

  function VersionOf(op: Operation): Version {
    Version(op.attempt, op.retries, op.state)
  }

  function Fresh(): Operation {
    Operation(New, 0, 0, true, [])
  }

  function Snapshot(op: Operation): Record {
    Record(op.state, op.attempt, op.retries, op.retryable)
  }

  function NextAttempt(r: Record, state: State): nat {
    if state.Pending? then r.attempt + 1 else r.attempt
  }

  predicate Matches(op: Operation, r: Record) {
    op.state == r.state && op.attempt == r.attempt && op.retries == r.retries
  }

  /** The upsert into operation_attempts. */
  function Logged(log: seq<State>, sequence: nat, state: State): seq<State> {
    if sequence == 0 then log
    else if sequence <= |log| then log[sequence - 1 := state]
    else log + [state]
  }

  function Written(op: Operation, r: Record, state: State, retries: nat, retryable: bool): Operation {
    var next := NextAttempt(r, state);
    Operation(state, next, retries, retryable, Logged(op.log, next, state))
  }

  function Saved(r: Record, state: State, retries: nat, retryable: bool): Record {
    Record(state, NextAttempt(r, state), retries, retryable)
  }

  /** A save writes the new state, retries and retryability; a save as pending counts one more
      attempt; the attempt log gets the state in the place of the attempt, and nowhere else. A
      save goes through exactly if state, attempt and retries are as they were read. */
  lemma WrittenIs(op: Operation, r: Record, state: State, retries: nat, retryable: bool, i: nat)
    ensures var w := Written(op, r, state, retries, retryable);
      && w.state == state && w.retries == retries && w.retryable == retryable
      && w.attempt == r.attempt + (if state == Pending then 1 else 0)
      && (1 <= w.attempt <= |op.log| ==> |w.log| == |op.log|)
      && (w.attempt > |op.log| ==> |w.log| == |op.log| + 1 && w.log[|op.log|] == state)
      && (w.attempt == 0 ==> w.log == op.log)
      && (i < |op.log| ==> w.log[i] == if i + 1 == w.attempt then state else op.log[i])
      && Snapshot(w) == Saved(r, state, retries, retryable)
    ensures Matches(op, r) <==> VersionOf(op) == Version(r.attempt, r.retries, r.state)
  {
  }

  /** A row of another operation on the same question, as PreserveLegacy reads it. */
  datatype Legacy = Legacy(state: State, retries: nat, retryable: bool)

  function LegacyState(values: seq<Legacy>): State {
    if values == [] then Unknown
    else
      var last := values[|values| - 1].state;
      if last.Confirmed? || last.Posted? then last else LegacyState(values[..|values| - 1])
  }

  function LegacyRetries(values: seq<Legacy>): nat {
    if values == [] then 0
    else
      var before := LegacyRetries(values[..|values| - 1]);
      if values[|values| - 1].retries > before then values[|values| - 1].retries else before
  }

  predicate LegacyRetryable(values: seq<Legacy>) {
    forall i | 0 <= i < |values| :: values[i].retryable
  }

  function AtMostTwo(n: nat): nat {
    if n < 2 then n else 2
  }

  predicate LastTaken(values: seq<Legacy>, i: nat) {
    && i < |values| && values[i].state in {Posted, Confirmed}
    && forall j | i < j < |values| :: values[j].state !in {Posted, Confirmed}
  }

  /** The last of the older rows that says that the platform has the answer decides; without
      one nothing is known. */
  lemma {:induction false} LastLegacyDecides(values: seq<Legacy>, i: nat)
    ensures LastTaken(values, i) ==> LegacyState(values) == values[i].state
    ensures (forall j | 0 <= j < |values| :: values[j].state !in {Posted, Confirmed}) ==> LegacyState(values) == Unknown
  {
    if values != [] && i < |values| - 1 {
      LastLegacyDecides(values[..|values| - 1], i);
    } else if values != [] && values[|values| - 1].state !in {Posted, Confirmed} {
      LastLegacyDecides(values[..|values| - 1], i);
    }
  }

  /** As many retries count as the most that one of the older rows has used, up to two. */
  lemma {:induction false} LegacyRetriesAre(values: seq<Legacy>)
    ensures forall i | 0 <= i < |values| :: values[i].retries <= LegacyRetries(values)
    ensures LegacyRetries(values) == 0 || exists i | 0 <= i < |values| :: values[i].retries == LegacyRetries(values)
    ensures AtMostTwo(LegacyRetries(values)) == if LegacyRetries(values) >= 2 then 2 else LegacyRetries(values)
  {
    if values != [] {
      LegacyRetriesAre(values[..|values| - 1]);
    }
  }

  /** The operations table, by operation key. */
  class Journal {
    var rows: map<string, Operation>

    constructor ()
      ensures rows == map[]
    {
      rows := map[];
    }

    /** Inserts the row on first use. The two flags are the results of the account and
        migration queries of the same transaction; when they refuse, nothing is written. */
    method Load(key: string, bound: bool, blocked: bool) returns (r: Option<Record>)
      modifies this
      ensures r.Some? <==> bound && !blocked
      ensures r.None? ==> rows == old(rows)
      ensures r.Some? ==>
        && rows == old(rows)[key := if key in old(rows) then old(rows)[key] else Fresh()]
        && r.value == Snapshot(rows[key])
    {
      if !bound {
        return None;
      }
      if blocked {
        return None;
      }
      if key !in rows {
        rows := rows[key := Fresh()];
      }
      assert rows == old(rows)[key := if key in old(rows) then old(rows)[key] else Fresh()];
      r := Some(Snapshot(rows[key]));
    }

    /** Compare-and-set on state, attempt and retries. */
    method Save(key: string, r: Record, state: State, retries: nat, retryable: bool)
      returns (ok: bool, r': Record)
      modifies this
      ensures ok <==> key in old(rows) && Matches(old(rows)[key], r)
      ensures !ok ==> rows == old(rows) && r' == r
      ensures ok ==>
        && rows == old(rows)[key := Written(old(rows)[key], r, state, retries, retryable)]
        && r' == Saved(r, state, retries, retryable)
    {
      var next := r.attempt;
      if state.Pending? {
        next := next + 1;
      }
      if key !in rows || !Matches(rows[key], r) {
        return false, r;
      }
      var log := rows[key].log;
      if next > 0 {
        log := Logged(log, next, state);
      }
      rows := rows[key := Operation(state, next, retries, retryable, log)];
      return true, Record(state, next, retries, retryable);
    }

    /** Carries the outcome of older rows for the same question over to a new row. */
    method PreserveLegacy(key: string, r: Record, values: seq<Legacy>) returns (ok: bool, r': Record)
      modifies this
      ensures !r.state.New? || values == [] ==> ok && rows == old(rows) && r' == r
      ensures r.state.New? && values != [] ==>
        && (ok <==> key in old(rows) && Matches(old(rows)[key], r))
        && (!ok ==> rows == old(rows) && r' == r)
        && (ok ==>
            && r' == Saved(r, LegacyState(values), AtMostTwo(LegacyRetries(values)), LegacyRetryable(values))
            && (r'.retryable <==> forall i | 0 <= i < |values| :: values[i].retryable)
            && rows == old(rows)[key := Written(old(rows)[key], r, r'.state, r'.retries, r'.retryable)])
    {
      if !r.state.New? || |values| == 0 {
        return true, r;
      }
      var state, retries, retryable := Unknown, 0, true;
      for i := 0 to |values|
        invariant state == LegacyState(values[..i])
        invariant retries == LegacyRetries(values[..i])
        invariant retryable == LegacyRetryable(values[..i])
      {
        assert values[..i + 1][..i] == values[..i];
        if values[i].retries > retries {
          retries := values[i].retries;
        }
        retryable := retryable && values[i].retryable;
        if values[i].state.Confirmed? || values[i].state.Posted? {
          state := values[i].state;
        }
      }
      assert values[..|values|] == values;
      ok, r' := Save(key, r, state, if retries < 2 then retries else 2, retryable);
    }
  }
}
