/**
 One call through the broker (internal/platform/retry.go): which outcomes are followed by
 sending the same request again.
 */
module Retry {
  import opened Options
  import opened Platform

  /** A read-only request, a write, or a submission of an answer. */
  datatype Kind = ReadOnly | Write | Submission

  predicate Denied(o: Outcome) {
    o.Replied? && o.response.status == 403
  }

  /** What is followed by sending the same request again: a denial always, a throttled reply,
      a failure of the server or of the connection only if that cannot do anything twice. */
  predicate Resent(kind: Kind, o: Outcome) {
    match o
    case Replied(r) =>
      || r.status == 403
      || (kind.ReadOnly? && (r.status == 429 || r.status >= 500))
      || (kind.ReadOnly? && r.json.Some? && r.json.value.successFalse && r.json.value.limitedWords)
    case Failed(Transport(connected, transient)) => transient && (kind.ReadOnly? || (kind.Write? && !connected))
    case Failed(Coded(_)) => false
  }

  function Saturated(n: nat, cap: nat): nat {
    if n < cap then n else cap
  }

  function Denials(sent: seq<Outcome>): nat {
    if sent == [] then 0 else Denials(sent[..|sent| - 1]) + if Denied(sent[|sent| - 1]) then 1 else 0
  }

  /** The least wait before a resend, in seconds (internal/platform/backoff.go): doubling
      from one second up to a minute. */
  function Backoff(attempt: nat): nat {
    [1, 2, 4, 8, 16, 32, 60][Saturated(attempt, 6)]
  }

  lemma BackoffDoubles(attempt: nat)
    ensures Backoff(0) == 1
    ensures Backoff(attempt + 1) == if 2 * Backoff(attempt) < 60 then 2 * Backoff(attempt) else 60
  {
  }

  /** replies are what the platform answers to the first, second, ... send. The wait before
      send number `patience` is cancelled. sent are the outcomes of the sends made, waits the
      least waits after the others than denials, and backoffs the attempt numbers with which
      the account's access cooldown was extended.
      The result is None when the call was cancelled. */
  method Call(kind: Kind, replies: seq<Outcome>, patience: nat)
    returns (result: Option<Outcome>, sent: seq<Outcome>, waits: seq<nat>, backoffs: seq<nat>)
    ensures sent <= replies && |sent| <= patience
    // The call goes on exactly after what is sent again, and ends with the first other outcome.
    ensures forall i | 0 <= i < |sent| - 1 :: Resent(kind, sent[i])
    ensures result.Some? <==> sent != [] && !Resent(kind, sent[|sent| - 1])
    ensures result.Some? ==> result.value == sent[|sent| - 1]
    ensures result.None? ==> |sent| == patience || |sent| == |replies|
    // The broker sees one extension for each denial, the k-th with attempt min(k, 5).
    ensures forall k | 0 <= k < |backoffs| :: backoffs[k] == Saturated(k, 5)
    ensures |backoffs| == Denials(sent)
    // However long the call goes on, the k-th other wait is at least Backoff(k).
    ensures forall k | 0 <= k < |waits| :: waits[k] == Backoff(k)
    ensures |sent| == |waits| + |backoffs| + if result.Some? then 1 else 0
  {
    var networkRetries, accessRetries := 0, 0;
    sent, waits, backoffs := [], [], [];
    while |sent| < patience && |sent| < |replies|
      invariant sent <= replies && |sent| <= patience
      invariant forall i | 0 <= i < |sent| :: Resent(kind, sent[i])
      invariant forall k | 0 <= k < |backoffs| :: backoffs[k] == Saturated(k, 5)
      invariant accessRetries == Saturated(|backoffs|, 5) && |backoffs| == Denials(sent)
      invariant forall k | 0 <= k < |waits| :: waits[k] == Backoff(k)
      invariant networkRetries == Saturated(|waits|, 7) && |sent| == |waits| + |backoffs|
      decreases |replies| - |sent|
    {
      var o := replies[|sent|];
      ghost var before := sent;
      sent := sent + [o];
      assert sent[..|sent| - 1] == before;
      if o.Replied? {
        var r := o.response;
        if kind.ReadOnly? && (RateLimited(r) || r.status >= 500) {
          waits := waits + [Backoff(networkRetries)];
          networkRetries := Saturated(networkRetries + 1, 7);
          continue;
        }
        if r.status == 403 {
          backoffs := backoffs + [accessRetries];
          accessRetries := Saturated(accessRetries + 1, 5);
          continue;
        }
        return Some(o), sent, waits, backoffs;
      }
      var e := o.error;
      if kind.Submission? || !e.Transport? || !e.transient || (e.connected && !kind.ReadOnly?) {
        return Some(o), sent, waits, backoffs;
      }
      ghost var n := |waits|;
      networkRetries := Saturated(networkRetries + 1, 7);
      waits := waits + [Backoff(networkRetries - 1)];
      assert Saturated(networkRetries - 1, 6) == Saturated(n, 6);
    }
    result := None;
  }

  function Taken(took: seq<bool>): nat {
    if took == [] then 0 else Taken(took[..|took| - 1]) + if took[|took| - 1] then 1 else 0
  }

  lemma {:induction false} NoneTaken(sent: seq<Outcome>, took: seq<bool>)
    requires |took| == |sent|
    requires forall i | 0 <= i < |sent| :: Honest(sent[i], took[i]) && Refuses(sent[i])
    ensures Taken(took) == 0
  {
    if took != [] {
      NoneTaken(sent[..|sent| - 1], took[..|took| - 1]);
    }
  }

  /** Of all the sends of one call of a write, the platform takes at most the last. */
  lemma OneCallTakesAtMostOnce(kind: Kind, sent: seq<Outcome>, took: seq<bool>)
    requires |took| == |sent| && !kind.ReadOnly?
    requires forall i | 0 <= i < |sent| :: Honest(sent[i], took[i])
    requires forall i | 0 <= i < |sent| - 1 :: Resent(kind, sent[i])
    ensures Taken(took) <= 1
    ensures Taken(took) == 1 <==> took != [] && took[|took| - 1]
  {
    if took != [] {
      var n := |took| - 1;
      forall i | 0 <= i < n ensures Refuses(sent[i]) {
        assert Resent(kind, sent[i]);
      }
      NoneTaken(sent[..n], took[..n]);
    }
  }
}
