/**
 Which jobs the engine admits, and in what order (internal/workflow/engine.go:125-206,
 internal/workflow/actors.go:12-35). A job belongs to one owner for good.
 */
module Scheduling {
  type Id = string
  type Owner = string

  datatype Candidate = Candidate(id: Id, owner: Owner)

  /** owners: the admitted jobs; preparing: those being prepared; actors: running modules. */
  datatype State = State(owners: map<Id, Owner>, preparing: set<Id>, actors: set<(Id, string)>)

  datatype Limits = Limits(global: int, user: int)

  datatype Event =
    | Consider(candidate: Candidate)
    | Launch(id: Id, kind: string)
    | EndPreparing(id: Id)
    | EndActor(id: Id, kind: string)
    | Settle(id: Id)

  // ---------------------------------------------------------------- admission

  function OwnedBy(owners: map<Id, Owner>, owner: Owner): set<Id> {
    set id | id in owners && owners[id] == owner
  }

  /** A candidate is passed over while it is being prepared, and if it is new and a limit is
      reached. */
  predicate Admissible(s: State, limits: Limits, c: Candidate) {
    && c.id !in s.preparing
    && (c.id in s.owners || (|s.owners| < limits.global && |OwnedBy(s.owners, c.owner)| < limits.user))
  }

  function Considered(s: State, limits: Limits, c: Candidate): State {
    if Admissible(s, limits, c) then s.(preparing := s.preparing + {c.id}, owners := s.owners[c.id := c.owner]) else s
  }

  predicate IsBusy(s: State, id: Id) {
    id in s.preparing || exists a | a in s.actors :: a.0 == id
  }

  /** A job is given up when it is neither being prepared nor has a module running. */
  function Settled(s: State, id: Id): State {
    if IsBusy(s, id) then s else s.(owners := s.owners - {id})
  }

  /** Modules are launched while their job is being prepared; two steps separate the end of
      a preparation, or of a module, from the settling of its job. */
  predicate Enabled(s: State, e: Event) {
    match e
    case Launch(id, _) => id in s.preparing
    case EndPreparing(id) => id in s.preparing
    case EndActor(id, kind) => (id, kind) in s.actors
    case _ => true
  }

  function Step(s: State, limits: Limits, e: Event): State {
    match e
    case Consider(c) => Considered(s, limits, c)
    case Launch(id, kind) => s.(actors := s.actors + {(id, kind)})
    case EndPreparing(id) => s.(preparing := s.preparing - {id})
    case EndActor(id, kind) => s.(actors := s.actors - {(id, kind)})
    case Settle(id) => Settled(s, id)
  }

  function Limit(n: int): int {
    if n < 0 then 0 else n
  }

  ghost predicate Within(s: State, limits: Limits) {
    && |s.owners| <= Limit(limits.global)
    && (forall owner :: |OwnedBy(s.owners, owner)| <= Limit(limits.user))
  }

  /** Whatever is being prepared or runs belongs to an admitted job. */
  predicate Admitted(s: State) {
    && (forall id | id in s.preparing :: id in s.owners)
    && (forall a | a in s.actors :: a.0 in s.owners)
  }

  /** Jobs do not change hands. */
  predicate Agrees(s: State, e: Event) {
    e.Consider? && e.candidate.id in s.owners ==> s.owners[e.candidate.id] == e.candidate.owner
  }

  ghost predicate Sound(s: State, limits: Limits) {
    Within(s, limits) && Admitted(s)
  }

  lemma AdmittedSet(owners: map<Id, Owner>, c: Candidate, owner: Owner)
    requires c.id !in owners
    ensures OwnedBy(owners[c.id := c.owner], owner) == OwnedBy(owners, owner) + if owner == c.owner then {c.id} else {}
  {
  }

  lemma AdmittingCounts(owners: map<Id, Owner>, c: Candidate, owner: Owner)
    requires c.id !in owners
    ensures |owners[c.id := c.owner]| == |owners| + 1
    ensures |OwnedBy(owners[c.id := c.owner], owner)| == |OwnedBy(owners, owner)| + if owner == c.owner then 1 else 0
  {
    var after := owners[c.id := c.owner];
    assert after.Keys == owners.Keys + {c.id};
    AdmittedSet(owners, c, owner);
  }

  lemma SettlingCounts(owners: map<Id, Owner>, id: Id, owner: Owner)
    ensures |owners - {id}| <= |owners|
    ensures |OwnedBy(owners - {id}, owner)| <= |OwnedBy(owners, owner)|
  {
    assert (owners - {id}).Keys == owners.Keys - {id};
    assert OwnedBy(owners - {id}, owner) == OwnedBy(owners, owner) - {id};
  }

  lemma ConsiderKeeps(s: State, limits: Limits, c: Candidate)
    requires Sound(s, limits) && Agrees(s, Consider(c))
    ensures Sound(Considered(s, limits, c), limits)
  {
    if Admissible(s, limits, c) {
      if c.id in s.owners {
        assert s.owners[c.id := c.owner] == s.owners;
      } else {
        var after := s.owners[c.id := c.owner];
        forall owner ensures |OwnedBy(after, owner)| <= Limit(limits.user) {
          AdmittingCounts(s.owners, c, owner);
        }
        AdmittingCounts(s.owners, c, c.owner);
      }
    }
  }

  lemma StepKeeps(s: State, limits: Limits, e: Event)
    requires Sound(s, limits) && Enabled(s, e) && Agrees(s, e)
    ensures Sound(Step(s, limits, e), limits)
  {
    match e
    case Consider(c) => ConsiderKeeps(s, limits, c);
    case Settle(id) =>
      forall owner ensures |OwnedBy(Settled(s, id).owners, owner)| <= |OwnedBy(s.owners, owner)| {
        SettlingCounts(s.owners, id, owner);
      }
      SettlingCounts(s.owners, id, "");
    case _ =>
  }

  // ---------------------------------------------------------------- giving a job up

  /** Neither being prepared, nor with a module running. */
  ghost predicate Quiet(s: State, id: Id) {
    id !in s.preparing && forall kind :: (id, kind) !in s.actors
  }

  /** Settling a job that rests takes it, and nothing else, off the books: one job less in
      all, and one less of its owner. Settling a busy one does nothing. */
  lemma SettlingFrees(s: State, limits: Limits, id: Id, owner: Owner)
    ensures var t := Step(s, limits, Settle(id));
      if !Quiet(s, id) then t == s
      else
        && t == State(s.owners - {id}, s.preparing, s.actors)
        && |t.owners| == |s.owners| - (if id in s.owners then 1 else 0)
        && |OwnedBy(t.owners, owner)| == |OwnedBy(s.owners, owner)| -
             (if id in s.owners && s.owners[id] == owner then 1 else 0)
  {
    assert Quiet(s, id) <==> !IsBusy(s, id) by {
      if exists a | a in s.actors :: a.0 == id {
        var a :| a in s.actors && a.0 == id;
        assert a == (id, a.1);
      }
      if kind :| (id, kind) in s.actors {
        assert (id, kind).0 == id;
      }
    }
    assert (s.owners - {id}).Keys == s.owners.Keys - {id};
    assert OwnedBy(s.owners - {id}, owner) == OwnedBy(s.owners, owner) - {id};
  }

  /** What admits a candidate: it is not being prepared, and it is admitted already or there
      is room for one more job, in all and of its owner. It is then being prepared. */
  lemma RoomAdmits(s: State, limits: Limits, c: Candidate)
    ensures Step(s, limits, Consider(c)) ==
      if c.id in s.preparing then s
      else if c.id in s.owners || (|s.owners| < limits.global && |OwnedBy(s.owners, c.owner)| < limits.user) then
        State(s.owners[c.id := c.owner], s.preparing + {c.id}, s.actors)
      else s
  {
  }

  /** A candidate that only the slot of a job at rest holds back is admitted once that job is
      settled, and not before. */
  lemma SettlingAdmits(s: State, limits: Limits, id: Id, c: Candidate)
    requires id in s.owners && Quiet(s, id) && c.id !in s.owners && c.id !in s.preparing
    requires |s.owners| >= limits.global || |OwnedBy(s.owners, c.owner)| >= limits.user
    requires |s.owners| - 1 < limits.global
    requires |OwnedBy(s.owners, c.owner)| - (if s.owners[id] == c.owner then 1 else 0) < limits.user
    ensures Step(s, limits, Consider(c)) == s
    ensures var t := Step(s, limits, Settle(id));
      Step(t, limits, Consider(c)) == State((s.owners - {id})[c.id := c.owner], s.preparing + {c.id}, s.actors)
  {
    SettlingFrees(s, limits, id, c.owner);
    RoomAdmits(s, limits, c);
    RoomAdmits(Step(s, limits, Settle(id)), limits, c);
  }

  const IDLE := State(map[], {}, {})

  ghost predicate Reaches(s: State, limits: Limits, events: seq<Event>, t: State)
    decreases |events|
  {
    if events == [] then s == t
    else Enabled(s, events[0]) && Agrees(s, events[0]) && Reaches(Step(s, limits, events[0]), limits, events[1..], t)
  }

  /** In every reachable state, whatever the interleaving, the limits hold, and whatever is
      being prepared or runs belongs to an admitted job. */
  lemma {:induction false} RunKeeps(s: State, limits: Limits, events: seq<Event>, t: State)
    requires Sound(s, limits) && Reaches(s, limits, events, t)
    ensures Sound(t, limits)
    decreases |events|
  {
    if events != [] {
      StepKeeps(s, limits, events[0]);
      RunKeeps(Step(s, limits, events[0]), limits, events[1..], t);
    }
  }

  lemma StepLosesOne(s: State, limits: Limits, e: Event, id: Id)
    requires id in s.owners && id !in Step(s, limits, e).owners
    ensures e == Settle(id) && Quiet(s, id)
  {
    if e.Settle? {
      SettlingFrees(s, limits, e.id, "");
    }
  }

  /** In the course of a run, event k settles the job while it rests. */
  ghost predicate SettledAt(s: State, limits: Limits, events: seq<Event>, id: Id, k: nat, u: State) {
    k < |events| && events[k] == Settle(id) && Reaches(s, limits, events[..k], u) && id in u.owners && Quiet(u, id)
  }

  /** Over a run, an admitted job leaves the books only by being settled while it is neither
      prepared nor running. */
  lemma {:induction false} LeavesBySettling(s: State, limits: Limits, events: seq<Event>, t: State, id: Id)
    returns (k: nat, u: State)
    requires Reaches(s, limits, events, t) && id in s.owners && id !in t.owners
    ensures SettledAt(s, limits, events, id, k, u)
    decreases |events|
  {
    var next := Step(s, limits, events[0]);
    if id !in next.owners {
      StepLosesOne(s, limits, events[0], id);
      k, u := 0, s;
      assert events[..0] == [];
    } else {
      k, u := LeavesBySettling(next, limits, events[1..], t, id);
      k := k + 1;
      assert events[..k][1..] == events[1..][..k - 1];
    }
  }

  /** The engine starts sound. */
  lemma IdleIsSound(limits: Limits)
    ensures Sound(IDLE, limits)
  {
    forall owner ensures |OwnedBy(IDLE.owners, owner)| <= Limit(limits.user) {
      assert OwnedBy(IDLE.owners, owner) == {};
    }
  }

  // ---------------------------------------------------------------- the order

  /** The first candidate of another owner than the last one admitted, or else the first. */
  function Pick(pending: seq<Candidate>, last: Owner): (i: nat)
    requires pending != []
    ensures i < |pending|
    ensures pending[i].owner != last || i == 0
    ensures forall j | 0 <= j < i :: pending[j].owner == last
    ensures pending[i].owner == last ==> forall j | 0 <= j < |pending| :: pending[j].owner == last
  {
    var i := FirstOther(pending, last);
    if i < |pending| then i else 0
  }

  function FirstOther(pending: seq<Candidate>, last: Owner): (i: nat)
    ensures i <= |pending| && (i < |pending| ==> pending[i].owner != last)
    ensures forall j | 0 <= j < i :: pending[j].owner == last
  {
    if pending == [] || pending[0].owner != last then 0 else 1 + FirstOther(pending[1..], last)
  }

  function Without(pending: seq<Candidate>, i: nat): (r: seq<Candidate>)
    requires i < |pending|
    ensures |r| == |pending| - 1
  {
    pending[..i] + pending[i + 1..]
  }

  /** One candidate of a dispatch, what was still pending with it, who had been admitted last,
      and whether it was admitted. */
  datatype Turn = Turn(candidate: Candidate, pending: seq<Candidate>, last: Owner, admitted: bool)

  /** A whole dispatch: the turns it takes, and the state and the owner it ends with. */
  function Dispatched(s: State, limits: Limits, pending: seq<Candidate>, last: Owner): (r: (seq<Turn>, State, Owner))
    ensures |r.0| == |pending|
    decreases |pending|
  {
    if pending == [] then ([], s, last)
    else
      var i := Pick(pending, last);
      var c := pending[i];
      var admitted := Admissible(s, limits, c);
      var (turns, s', last') :=
        Dispatched(Considered(s, limits, c), limits, Without(pending, i), if admitted then c.owner else last);
      ([Turn(c, pending, last, admitted)] + turns, s', last')
  }

  lemma DispatchedNext(s: State, limits: Limits, pending: seq<Candidate>, last: Owner)
    requires pending != []
    ensures var i := Pick(pending, last);
      var c := pending[i];
      var admitted := Admissible(s, limits, c);
      var rest := Dispatched(Considered(s, limits, c), limits, Without(pending, i), if admitted then c.owner else last);
      Dispatched(s, limits, pending, last) == ([Turn(c, pending, last, admitted)] + rest.0, rest.1, rest.2)
  {
  }

  /** The candidates of one owner, in order. */
  function Of(list: seq<Candidate>, owner: Owner): seq<Candidate> {
    if list == [] then []
    else Of(list[..|list| - 1], owner) + if list[|list| - 1].owner == owner then [list[|list| - 1]] else []
  }

  function Candidates(turns: seq<Turn>): seq<Candidate> {
    seq(|turns|, i requires 0 <= i < |turns| => turns[i].candidate)
  }

  lemma {:induction false} OfAppends(a: seq<Candidate>, b: seq<Candidate>, owner: Owner)
    ensures Of(a + b, owner) == Of(a, owner) + Of(b, owner)
  {
    if b == [] {
      assert a + b == a;
    } else {
      assert (a + b)[..|a + b| - 1] == a + b[..|b| - 1];
      OfAppends(a, b[..|b| - 1], owner);
    }
  }

  lemma {:induction false} OfOthers(list: seq<Candidate>, owner: Owner)
    requires forall i | 0 <= i < |list| :: list[i].owner != owner
    ensures Of(list, owner) == []
  {
    if list != [] {
      OfOthers(list[..|list| - 1], owner);
    }
  }

  /** The candidate that is picked is the first of its owner. */
  lemma PickedIsFirst(pending: seq<Candidate>, last: Owner, owner: Owner)
    requires pending != []
    ensures var i := Pick(pending, last);
      Of(pending, owner) == Of([pending[i]], owner) + Of(Without(pending, i), owner)
  {
    var i := Pick(pending, last);
    var before, after := pending[..i], pending[i + 1..];
    FirstOfOwner(before, pending[i], after, owner);
    Around(pending, i, before, after);
  }

  lemma Around(list: seq<Candidate>, i: nat, before: seq<Candidate>, after: seq<Candidate>)
    requires i < |list| && before == list[..i] && after == list[i + 1..]
    ensures list == before + ([list[i]] + after) && Without(list, i) == before + after
  {
  }

  lemma OfMiddle(before: seq<Candidate>, c: Candidate, after: seq<Candidate>, owner: Owner)
    ensures Of(before + ([c] + after), owner) == Of(before, owner) + (Of([c], owner) + Of(after, owner))
  {
    OfAppends(before, [c] + after, owner);
    OfAppends([c], after, owner);
  }

  lemma OneIsEmpty(before: seq<Candidate>, c: Candidate, owner: Owner)
    requires forall j | 0 <= j < |before| :: before[j].owner != c.owner
    ensures Of(before, owner) == [] || Of([c], owner) == []
  {
    if owner == c.owner {
      OfOthers(before, owner);
    } else {
      OfOthers([c], owner);
    }
  }

  lemma FirstOfOwner(before: seq<Candidate>, c: Candidate, after: seq<Candidate>, owner: Owner)
    requires forall j | 0 <= j < |before| :: before[j].owner != c.owner
    ensures Of(before + ([c] + after), owner) == Of([c], owner) + Of(before + after, owner)
  {
    OfMiddle(before, c, after, owner);
    OfAppends(before, after, owner);
    OneIsEmpty(before, c, owner);
    Swapped(Of(before + ([c] + after), owner),
            Of(before, owner), Of([c], owner), Of(after, owner), Of(before + after, owner));
  }

  lemma Swapped(whole: seq<Candidate>, a: seq<Candidate>, b: seq<Candidate>, c: seq<Candidate>, rest: seq<Candidate>)
    requires whole == a + (b + c) && rest == a + c && (a == [] || b == [])
    ensures whole == b + rest
  {
  }

  /** A dispatch considers the candidates of every owner in the order in which they were
      created, each of them once. */
  lemma {:induction false} FirstInFirstOut(s: State, limits: Limits, pending: seq<Candidate>, last: Owner, owner: Owner)
    ensures Of(Candidates(Dispatched(s, limits, pending, last).0), owner) == Of(pending, owner)
    decreases |pending|
  {
    if pending == [] {
      assert Candidates(Dispatched(s, limits, pending, last).0) == [];
    } else {
      var i := Pick(pending, last);
      var c := pending[i];
      var last' := if Admissible(s, limits, c) then c.owner else last;
      FirstInFirstOut(Considered(s, limits, c), limits, Without(pending, i), last', owner);
      PickedIsFirst(pending, last, owner);
      var rest := Dispatched(Considered(s, limits, c), limits, Without(pending, i), last').0;
      CandidatesCons(Turn(c, pending, last, Admissible(s, limits, c)), rest);
      OfAppends([c], Candidates(rest), owner);
    }
  }

  lemma CandidatesCons(turn: Turn, turns: seq<Turn>)
    ensures Candidates([turn] + turns) == [turn.candidate] + Candidates(turns)
  {
  }

  /** The owner that was admitted last is considered again only if all that are left are that
      owner's; and whoever is admitted becomes the last. */
  lemma {:induction false} OwnersTakeTurns(s: State, limits: Limits, pending: seq<Candidate>, last: Owner, k: nat)
    requires k < |pending|
    ensures var turn := Dispatched(s, limits, pending, last).0[k];
      turn.candidate.owner == turn.last ==> forall j | 0 <= j < |turn.pending| :: turn.pending[j].owner == turn.last
    ensures var turns := Dispatched(s, limits, pending, last).0;
      turns[k].last ==
        if k == 0 then last
        else if turns[k - 1].admitted then turns[k - 1].candidate.owner
        else turns[k - 1].last
    decreases |pending|
  {
    var i := Pick(pending, last);
    var c := pending[i];
    DispatchedNext(s, limits, pending, last);
    if k > 0 {
      var m := k - 1;
      OwnersTakeTurns(Considered(s, limits, c), limits, Without(pending, i),
                      if Admissible(s, limits, c) then c.owner else last, m);
    }
  }

  /** The candidates are different jobs, and do not change hands. */
  predicate Listed(s: State, pending: seq<Candidate>) {
    && (forall i | 0 <= i < |pending| && pending[i].id in s.owners :: s.owners[pending[i].id] == pending[i].owner)
    && (forall i, j | 0 <= i < j < |pending| :: pending[i].id != pending[j].id)
  }

  lemma RestIsListed(s: State, limits: Limits, pending: seq<Candidate>, i: nat)
    requires Listed(s, pending) && i < |pending|
    ensures Listed(Considered(s, limits, pending[i]), Without(pending, i))
    ensures forall j | 0 <= j < |Without(pending, i)| :: Without(pending, i)[j].id != pending[i].id
  {
    var rest := Without(pending, i);
    forall j | 0 <= j < |rest| ensures rest[j] == pending[if j < i then j else j + 1] {
    }
  }

  /** Dispatching only adds jobs, so a limit that is reached stays reached. */
  lemma {:induction false} DispatchGrows(s: State, limits: Limits, pending: seq<Candidate>, last: Owner, owner: Owner)
    requires Listed(s, pending)
    ensures var t := Dispatched(s, limits, pending, last).1;
      s.preparing <= t.preparing && |s.owners| <= |t.owners| && |OwnedBy(s.owners, owner)| <= |OwnedBy(t.owners, owner)|
    decreases |pending|
  {
    if pending != [] {
      var i := Pick(pending, last);
      var d := pending[i];
      RestIsListed(s, limits, pending, i);
      if Admissible(s, limits, d) && d.id !in s.owners {
        AdmittingCounts(s.owners, d, owner);
      } else if Admissible(s, limits, d) {
        assert s.owners[d.id := d.owner] == s.owners;
      }
      var last' := if Admissible(s, limits, d) then d.owner else last;
      DispatchGrows(Considered(s, limits, d), limits, Without(pending, i), last', owner);
    }
  }

  lemma {:induction false} DispatchIsSound(s: State, limits: Limits, pending: seq<Candidate>, last: Owner)
    requires Sound(s, limits) && Listed(s, pending)
    ensures Sound(Dispatched(s, limits, pending, last).1, limits)
    decreases |pending|
  {
    if pending != [] {
      var i := Pick(pending, last);
      var d := pending[i];
      ConsiderKeeps(s, limits, d);
      RestIsListed(s, limits, pending, i);
      var last' := if Admissible(s, limits, d) then d.owner else last;
      DispatchIsSound(Considered(s, limits, d), limits, Without(pending, i), last');
    }
  }

  /** It is being prepared, or it is new and a limit is reached. */
  predicate Served(t: State, limits: Limits, c: Candidate) {
    || c.id in t.preparing
    || (c.id !in t.owners && (|t.owners| >= limits.global || |OwnedBy(t.owners, c.owner)| >= limits.user))
  }

  lemma StaysServed(s: State, limits: Limits, pending: seq<Candidate>, last: Owner, c: Candidate)
    requires Listed(s, pending) && forall i | 0 <= i < |pending| :: pending[i].id != c.id
    requires Served(s, limits, c)
    ensures Served(Dispatched(s, limits, pending, last).1, limits, c)
  {
    DispatchGrows(s, limits, pending, last, c.owner);
    OtherIds(s, limits, pending, last, c.id);
  }

  /** A dispatch leaves nobody behind: afterwards a candidate is being prepared, or it is new
      and held back by a limit. */
  lemma {:induction false} NobodyIsLeftBehind(s: State, limits: Limits, pending: seq<Candidate>, last: Owner, k: nat)
    requires k < |pending| && Listed(s, pending)
    ensures Served(Dispatched(s, limits, pending, last).1, limits, pending[k])
    decreases |pending|
  {
    var i := Pick(pending, last);
    var c := pending[i];
    var s' := Considered(s, limits, c);
    var rest := Without(pending, i);
    var last' := if Admissible(s, limits, c) then c.owner else last;
    RestIsListed(s, limits, pending, i);
    if k == i {
      StaysServed(s', limits, rest, last', c);
    } else {
      var k' := if k < i then k else k - 1;
      assert rest[k'] == pending[k];
      NobodyIsLeftBehind(s', limits, rest, last', k');
    }
  }

  lemma {:induction false} OtherIds(s: State, limits: Limits, pending: seq<Candidate>, last: Owner, id: Id)
    requires forall i | 0 <= i < |pending| :: pending[i].id != id
    ensures var t := Dispatched(s, limits, pending, last).1;
      (id in t.owners <==> id in s.owners) && (id in t.preparing <==> id in s.preparing)
    decreases |pending|
  {
    if pending != [] {
      var i := Pick(pending, last);
      var d := pending[i];
      var last' := if Admissible(s, limits, d) then d.owner else last;
      OtherIds(Considered(s, limits, d), limits, Without(pending, i), last', id);
    }
  }

  /** A turn admits a candidate of the list whose preparation is not under way, and begins it. */
  ghost predicate Begins(s: State, pending: seq<Candidate>, t: State, turn: Turn) {
    && turn.candidate in pending
    && (turn.admitted <==> turn.candidate.id !in s.preparing && turn.candidate.id in t.preparing)
  }

  lemma BeginsNow(s: State, limits: Limits, pending: seq<Candidate>, last: Owner)
    requires pending != [] && Listed(s, pending)
    ensures var (turns, t, _) := Dispatched(s, limits, pending, last);
      Begins(s, pending, t, turns[0])
  {
    var i := Pick(pending, last);
    var c := pending[i];
    var last' := if Admissible(s, limits, c) then c.owner else last;
    RestIsListed(s, limits, pending, i);
    OtherIds(Considered(s, limits, c), limits, Without(pending, i), last', c.id);
  }

  lemma BeginsLater(s: State, limits: Limits, pending: seq<Candidate>, i: nat, t: State, turn: Turn)
    requires i < |pending| && Listed(s, pending)
    requires Begins(Considered(s, limits, pending[i]), Without(pending, i), t, turn)
    ensures Begins(s, pending, t, turn)
  {
    RestIsListed(s, limits, pending, i);
    var j :| 0 <= j < |Without(pending, i)| && Without(pending, i)[j] == turn.candidate;
    assert turn.candidate == pending[if j < i then j else j + 1];
  }

  /** After its first turn a dispatch goes on as one of the others. */
  lemma LaterTurn(s: State, limits: Limits, pending: seq<Candidate>, last: Owner, k: nat)
    returns (i: nat, s': State, last': Owner)
    requires k + 1 < |pending|
    ensures i < |pending| && s' == Considered(s, limits, pending[i])
    ensures var (turns, t, _) := Dispatched(s, limits, pending, last);
      var (turns', t', _) := Dispatched(s', limits, Without(pending, i), last');
      turns[k + 1] == turns'[k] && t == t'
  {
    i := Pick(pending, last);
    s' := Considered(s, limits, pending[i]);
    last' := if Admissible(s, limits, pending[i]) then pending[i].owner else last;
    DispatchedNext(s, limits, pending, last);
    LaterOf(Turn(pending[i], pending, last, Admissible(s, limits, pending[i])),
            Dispatched(s', limits, Without(pending, i), last').0, k);
  }

  lemma LaterOf(turn: Turn, turns: seq<Turn>, k: nat)
    requires k < |turns|
    ensures ([turn] + turns)[k + 1] == turns[k]
  {
  }

  /** The candidates that a dispatch admits are those whose preparation it begins. */
  lemma {:induction false} AdmittedAreBegun(s: State, limits: Limits, pending: seq<Candidate>, last: Owner, k: nat)
    requires k < |pending| && Listed(s, pending)
    ensures Begins(s, pending, Dispatched(s, limits, pending, last).1, Dispatched(s, limits, pending, last).0[k])
    decreases |pending|
  {
    if k == 0 {
      BeginsNow(s, limits, pending, last);
    } else {
      var i, s', last' := LaterTurn(s, limits, pending, last, k - 1);
      RestIsListed(s, limits, pending, i);
      AdmittedAreBegun(s', limits, Without(pending, i), last', k - 1);
      BeginsLater(s, limits, pending, i, Dispatched(s', limits, Without(pending, i), last').1,
                  Dispatched(s', limits, Without(pending, i), last').0[k - 1]);
    }
  }

  // ---------------------------------------------------------------- the engine

  class Engine {
    const limits: Limits
    var owners: map<Id, Owner>
    var preparing: set<Id>
    var actors: set<(Id, string)>
    var lastOwner: Owner

    ghost function View(): State
      reads this
    {
      State(owners, preparing, actors)
    }

    ghost predicate Valid()
      reads this
    {
      Sound(View(), limits)
    }

    constructor (limits: Limits)
      ensures Valid() && View() == IDLE && lastOwner == "" && this.limits == limits
    {
      this.limits, owners, preparing, actors, lastOwner := limits, map[], {}, {}, "";
      new;
      IdleIsSound(limits);
    }

    method CountOwned(owner: Owner) returns (n: nat)
      ensures n == |OwnedBy(owners, owner)|
    {
      n := 0;
      var ids := owners.Keys;
      while ids != {}
        invariant ids <= owners.Keys
        invariant n == |OwnedAmong(owners, owners.Keys - ids, owner)|
        decreases |ids|
      {
        var id :| id in ids;
        OwnedMore(owners, owners.Keys - ids, id, owner);
        if owners[id] == owner {
          n := n + 1;
        }
        assert owners.Keys - (ids - {id}) == owners.Keys - ids + {id};
        ids := ids - {id};
      }
      assert OwnedBy(owners, owner) == OwnedAmong(owners, owners.Keys - ids, owner);
    }

    method PickNext(pending: seq<Candidate>) returns (index: nat)
      requires pending != []
      ensures index == Pick(pending, lastOwner)
    {
      index := 0;
      for i := 0 to |pending|
        invariant index == 0
        invariant FirstOther(pending, lastOwner) == i + FirstOther(pending[i..], lastOwner)
      {
        if pending[i].owner != lastOwner {
          return i;
        }
        assert pending[i..][1..] == pending[i + 1..];
      }
    }

    method ConsiderOne(c: Candidate) returns (admitted: bool)
      modifies this
      ensures admitted <==> Admissible(old(View()), limits, c)
      ensures View() == Considered(old(View()), limits, c)
      ensures lastOwner == if admitted then c.owner else old(lastOwner)
    {
      var isPreparing := c.id in preparing;
      var active := c.id in owners;
      var ownCount := CountOwned(c.owner);
      if isPreparing || (!active && (|owners| >= limits.global || ownCount >= limits.user)) {
        return false;
      }
      preparing := preparing + {c.id};
      owners := owners[c.id := c.owner];
      lastOwner := c.owner;
      admitted := true;
    }

    method ConsiderAll(pending: seq<Candidate>) returns (admitted: seq<Candidate>)
      modifies this
      ensures var (turns, state, last) := Dispatched(old(View()), limits, pending, old(lastOwner));
        View() == state && lastOwner == last && admitted == AdmittedOf(turns)
    {
      ghost var whole := Dispatched(View(), limits, pending, lastOwner);
      ghost var turns: seq<Turn> := [];
      ghost var left := whole;
      var rest := pending;
      admitted := [];
      while rest != []
        invariant admitted == AdmittedOf(turns)
        invariant left == Dispatched(View(), limits, rest, lastOwner) && Continues(whole, turns, left)
        decreases |rest|
      {
        var index := PickNext(rest);
        var c := rest[index];
        ghost var turn := Turn(c, rest, lastOwner, Admissible(View(), limits, c));
        left := AfterTurn(whole, turns, View(), limits, rest, lastOwner);
        rest := rest[..index] + rest[index + 1..];
        var ok := ConsiderOne(c);
        if ok {
          admitted := admitted + [c];
        }
        AdmittedMore(turns, turn);
        turns := turns + [turn];
      }
      assert turns + [] == turns;
    }

    /** Considers every pending job once: owners in rotation, each owner's jobs in order. */
    method Dispatch(pending: seq<Candidate>) returns (admitted: seq<Candidate>)
      requires Valid() && Listed(View(), pending)
      modifies this
      ensures Valid()
      ensures var (turns, state, last) := Dispatched(old(View()), limits, pending, old(lastOwner));
        View() == state && lastOwner == last && admitted == AdmittedOf(turns)
    {
      DispatchIsSound(View(), limits, pending, lastOwner);
      admitted := ConsiderAll(pending);
    }

    /** A module starts while its job is being prepared, unless it is already running. */
    method StartActor(id: Id, kind: string) returns (started: bool)
      requires Valid() && id in preparing
      modifies this`actors
      ensures Valid() && View() == Step(old(View()), limits, Launch(id, kind))
      ensures started <==> (id, kind) !in old(actors)
    {
      StepKeeps(View(), limits, Launch(id, kind));
      started := (id, kind) !in actors;
      actors := actors + {(id, kind)};
    }

    method FinishPreparing(id: Id)
      requires Valid() && id in preparing
      modifies this`preparing
      ensures Valid() && View() == Step(old(View()), limits, EndPreparing(id))
    {
      StepKeeps(View(), limits, EndPreparing(id));
      preparing := preparing - {id};
    }

    method FinishActor(id: Id, kind: string)
      requires Valid() && (id, kind) in actors
      modifies this`actors
      ensures Valid() && View() == Step(old(View()), limits, EndActor(id, kind))
    {
      StepKeeps(View(), limits, EndActor(id, kind));
      actors := actors - {(id, kind)};
    }

    /** Gives a job up, unless it is still being prepared or has a module running. */
    method SettleJob(id: Id) returns (given: bool)
      requires Valid()
      modifies this`owners
      ensures Valid() && View() == Step(old(View()), limits, Settle(id))
      ensures given <==> Quiet(old(View()), id)
      ensures owners == if given then old(owners) - {id} else old(owners)
    {
      SettlingFrees(View(), limits, id, "");
      StepKeeps(View(), limits, Settle(id));
      var busy := id in preparing;
      var rest := actors;
      while rest != {}
        invariant rest <= actors
        invariant busy <==> id in preparing || exists a | a in actors - rest :: a.0 == id
        decreases |rest|
      {
        var a :| a in rest;
        if a.0 == id {
          busy := true;
        }
        rest := rest - {a};
      }
      if !busy {
        owners := owners - {id};
      }
      given := !busy;
    }
  }

  function OwnedAmong(owners: map<Id, Owner>, ids: set<Id>, owner: Owner): set<Id> {
    set id | id in ids && id in owners && owners[id] == owner
  }

  lemma OwnedMore(owners: map<Id, Owner>, ids: set<Id>, id: Id, owner: Owner)
    requires id !in ids && id in owners
    ensures |OwnedAmong(owners, ids + {id}, owner)|
      == |OwnedAmong(owners, ids, owner)| + if owners[id] == owner then 1 else 0
  {
    if owners[id] == owner {
      assert OwnedAmong(owners, ids + {id}, owner) == OwnedAmong(owners, ids, owner) + {id};
    } else {
      assert OwnedAmong(owners, ids + {id}, owner) == OwnedAmong(owners, ids, owner);
    }
  }

  /** What is left to do, after some turns, completes the whole. */
  ghost predicate Continues(whole: (seq<Turn>, State, Owner), turns: seq<Turn>, rest: (seq<Turn>, State, Owner)) {
    whole.0 == turns + rest.0 && whole.1 == rest.1 && whole.2 == rest.2
  }

  /** One more turn of a dispatch. */
  lemma AfterTurn(whole: (seq<Turn>, State, Owner), turns: seq<Turn>, s: State, limits: Limits, pending: seq<Candidate>,
                  last: Owner)
    returns (after: (seq<Turn>, State, Owner))
    requires pending != [] && Continues(whole, turns, Dispatched(s, limits, pending, last))
    ensures var i := Pick(pending, last);
      var c := pending[i];
      var admitted := Admissible(s, limits, c);
      && after == Dispatched(Considered(s, limits, c), limits, Without(pending, i), if admitted then c.owner else last)
      && Continues(whole, turns + [Turn(c, pending, last, admitted)], after)
  {
    var i := Pick(pending, last);
    var c := pending[i];
    var admitted := Admissible(s, limits, c);
    DispatchedNext(s, limits, pending, last);
    after := Dispatched(Considered(s, limits, c), limits, Without(pending, i), if admitted then c.owner else last);
    ContinuesMore(whole, turns, Turn(c, pending, last, admitted), Dispatched(s, limits, pending, last), after);
  }

  lemma ContinuesMore(whole: (seq<Turn>, State, Owner), turns: seq<Turn>, turn: Turn,
                      before: (seq<Turn>, State, Owner), after: (seq<Turn>, State, Owner))
    requires Continues(whole, turns, before) && before == ([turn] + after.0, after.1, after.2)
    ensures Continues(whole, turns + [turn], after)
  {
  }

  function AdmittedOf(turns: seq<Turn>): seq<Candidate> {
    if turns == [] then []
    else AdmittedOf(turns[..|turns| - 1]) + if turns[|turns| - 1].admitted then [turns[|turns| - 1].candidate] else []
  }

  lemma {:induction false} AdmittedOfIs(turns: seq<Turn>, c: Candidate)
    ensures c in AdmittedOf(turns) <==> exists k | 0 <= k < |turns| :: turns[k].admitted && turns[k].candidate == c
  {
    if turns != [] {
      AdmittedOfIs(turns[..|turns| - 1], c);
    }
  }

  lemma AdmittedMore(turns: seq<Turn>, turn: Turn)
    ensures AdmittedOf(turns + [turn]) == AdmittedOf(turns) + if turn.admitted then [turn.candidate] else []
  {
    assert (turns + [turn])[..|turns|] == turns;
  }
}
