/**
 The two maps of deadlines that hold back an account's requests
 (internal/platform/cooldowns.go). Times are integers; a user without an entry was never
 held back.
 */
module Cooldowns {
  type Deadlines = map<int, int>

  predicate Live(m: Deadlines, user: int, now: int) {
    user in m && m[user] > now
  }

  predicate Blocked(access: Deadlines, rate: Deadlines, user: int, submission: bool, now: int) {
    Live(access, user, now) || (submission && Live(rate, user, now))
  }

  /** What looking a set of users up at a given time leaves of a map. */
  function Purged(m: Deadlines, users: set<int>, now: int): Deadlines {
    map u | u in m && (u !in users || m[u] > now) :: m[u]
  }

  /** Only a later deadline replaces the one on record. */
  function Extended(m: Deadlines, user: int, until: int): Deadlines {
    if user in m && m[user] >= until then m else m[user := until]
  }

  function Later(a: int, b: int): int {
    if a < b then b else a
  }

  const HALF_HOUR := 30 * 60 * 1000

  /** The wait before retry number `attempt` of a denied request. */
  function Backoff(minimum: nat, attempt: nat): nat {
    var delay := minimum * [1, 2, 4, 8, 16, 32][if attempt < 5 then attempt else 5];
    if delay < HALF_HOUR then delay else HALF_HOUR
  }

  /** The wait doubles with every retry, up to 32 times the minimum and to half an hour. */
  lemma BackoffDoubles(minimum: nat, attempt: nat)
    ensures Backoff(minimum, 0) == if minimum < 1800000 then minimum else 1800000
    ensures attempt < 5 ==>
      Backoff(minimum, attempt + 1) ==
        if 2 * Backoff(minimum, attempt) < 1800000 then 2 * Backoff(minimum, attempt) else 1800000
    ensures attempt >= 5 ==> Backoff(minimum, attempt) == Backoff(minimum, 5)
  {
    if attempt < 5 {
      var factors := [1, 2, 4, 8, 16, 32];
      assert factors[attempt + 1] == 2 * factors[attempt];
      assert minimum * factors[attempt + 1] == 2 * (minimum * factors[attempt]);
    }
  }

  // ---------------------------------------------------------------- over any run

  /** What happens to a map: a deadline is recorded for a user, or the expired ones among some
      users are deleted. */
  datatype Change = Recorded(user: int, until: int) | Looked(users: set<int>, at: int)

  function Changed(changes: seq<Change>): Deadlines {
    if changes == [] then map[]
    else
      match changes[|changes| - 1]
      case Recorded(user, until) => Extended(Changed(changes[..|changes| - 1]), user, until)
      case Looked(users, at) => Purged(Changed(changes[..|changes| - 1]), users, at)
  }

  /** A user is held back at a time exactly if one of the deadlines recorded for that user is
      later: never shorter, and never longer, whatever has been looked up before. */
  lemma {:induction false} HeldExactly(changes: seq<Change>, user: int, now: int)
    requires forall i | 0 <= i < |changes| && changes[i].Looked? :: changes[i].at <= now
    ensures user in Changed(changes) && Changed(changes)[user] > now <==>
      exists i | 0 <= i < |changes| :: changes[i].Recorded? && changes[i].user == user && changes[i].until > now
  {
    if changes != [] {
      var n := |changes| - 1;
      HeldExactly(changes[..n], user, now);
      assert changes[..n] + [changes[n]] == changes;
    }
  }

  /** From now on the two maps hold the same users back until the same times. */
  ghost predicate Alike(m: Deadlines, n: Deadlines, now: int) {
    forall u, t | t >= now :: Live(m, u, t) <==> Live(n, u, t)
  }

  lemma AlikeLive(m: Deadlines, n: Deadlines, now: int)
    ensures Alike(m, n, now) <==>
      forall u :: (Live(m, u, now) <==> Live(n, u, now)) && (Live(m, u, now) ==> m[u] == n[u])
  {
    if Alike(m, n, now) {
      forall u | Live(m, u, now) ensures Live(n, u, now) && m[u] == n[u] {
        assert Live(n, u, now);
        assert !Live(m, u, m[u]) && !Live(n, u, m[u]);
        assert !Live(n, u, n[u]) && !Live(m, u, n[u]);
      }
      forall u | Live(n, u, now) ensures Live(m, u, now) {
      }
    }
  }

  /** Deleting expired entries is unobservable, whatever is recorded afterwards. */
  lemma PurgeIsUnobservable(m: Deadlines, n: Deadlines, users: set<int>, now: int, later: int, user: int, until: int)
    requires Alike(m, n, now) && now <= later
    ensures Alike(Purged(m, users, now), n, now)
    ensures Alike(m, n, later)
    ensures Alike(Extended(m, user, until), Extended(n, user, until), now)
  {
    AlikeLive(m, n, now);
    AlikeLive(Purged(m, users, now), n, now);
    AlikeLive(Extended(m, user, until), Extended(n, user, until), now);
  }

  class Table {
    var access: Deadlines
    var rate: Deadlines
    const minimum: nat

    constructor (minimum: nat)
      ensures access == map[] && rate == map[] && this.minimum == minimum
    {
      access, rate := map[], map[];
      this.minimum := minimum;
    }

    /** Whether a request of the user has to wait, and if so until when. */
    method State(user: int, submission: bool, now: int) returns (blocked: bool, readyAt: int)
      modifies this
      ensures access == Purged(old(access), {user}, now)
      ensures rate == Purged(old(rate), {user}, now)
      ensures blocked <==>
        (user in old(access) && old(access)[user] > now) || (submission && user in old(rate) && old(rate)[user] > now)
      // It becomes free exactly at readyAt if nothing more is recorded.
      ensures blocked ==> readyAt > now && forall t | t >= now ::
        Blocked(old(access), old(rate), user, submission, t) <==> t < readyAt
    {
      readyAt := now;
      if user in access {
        if access[user] > now {
          readyAt := access[user];
        } else {
          access := access - {user};
        }
      }
      if user in rate {
        if rate[user] <= now {
          rate := rate - {user};
        } else if submission && rate[user] > readyAt {
          readyAt := rate[user];
        }
      }
      blocked := readyAt > now;
      assert access == Purged(old(access), {user}, now);
      assert rate == Purged(old(rate), {user}, now);
    }

    /** Records a denial (denied) or a throttled submission; hint is the time that the reply
        asks to wait for. */
    method Record(user: int, denied: bool, hint: int, now: int)
      modifies this
      ensures denied ==>
        rate == old(rate) && access == Extended(old(access), user, Later(hint, now + minimum))
      ensures !denied ==>
        access == old(access) && rate == Extended(old(rate), user, hint)
    {
      var until := hint;
      if denied {
        if until < now + minimum {
          until := now + minimum;
        }
        if user !in access || until > access[user] {
          access := access[user := until];
        }
      } else if user !in rate || until > rate[user] {
        rate := rate[user := until];
      }
    }

    method ExtendAccess(user: int, attempt: nat, now: int)
      modifies this
      ensures rate == old(rate) && access == Extended(old(access), user, now + Backoff(minimum, attempt))
    {
      var until := now + Backoff(minimum, attempt);
      if user !in access || until > access[user] {
        access := access[user := until];
      }
    }
  }
}
