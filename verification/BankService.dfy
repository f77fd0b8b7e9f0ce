/** The bank as an object (internal/bank/store.go, internal/bank/batch.go). */
module BankServices {
  import opened Options
  import opened Ordering
  import opened Json
  import opened Answers
  import opened AnswerItems
  import opened Extraction
  import opened Banks
  import Fingerprints

  class Service {
    const cfg: Config
    var tables: Tables
    /** Every call so far. */
    ghost var events: seq<Event>

    ghost predicate Valid()
      reads this
    {
      tables == Run(cfg, events)
    }

    constructor (cfg: Config)
      ensures Valid() && events == [] && this.cfg == cfg
    {
      this.cfg, tables, events := cfg, EMPTY, [];
    }

    ghost method Log(e: Event)
      requires tables == Step(cfg, Run(cfg, events), e)
      modifies this`events
      ensures Valid() && events == old(events) + [e]
    {
      assert (events + [e])[..|events|] == events;
      events := events + [e];
    }

    /** Puts a question and its options on record, inside a transaction on t. */
    method Ensure(t: Tables, place: Place, p: Problem) returns (r: Option<Tables>)
      ensures r == Ensured(cfg, t, place, p)
    {
      var key := KeyOf(cfg, place, p);
      if (place.classroom, place.leaf) !in cfg.units {
        return None;
      }
      if key.fingerprint == "" {
        return None;
      }
      var row := if key in t.rows then t.rows[key] else NewRow(p);
      var options := AddOptions(row.options, OptionsOf(p));
      if options.None? {
        return None;
      }
      r := Some(t.(rows := t.rows[key := row.(options := options.value)]));
    }

    method AddOptions(known: map<string, OptionRow>, options: seq<Json>) returns (r: Option<map<string, OptionRow>>)
      ensures r == WithOptions(known, options)
    {
      var rows := known;
      for i := 0 to |options|
        invariant WithOptions(known, options[..i]) == Some(rows)
      {
        OneMoreOption(known, options, i);
        var key := OptionKey(options[i]);
        if key == "" {
          RefusedForGood(known, options, i + 1);
          return None;
        }
        if key !in rows {
          rows := rows[key := OptionRow(i, OptionLabel(options[i]))];
        }
      }
      assert options[..|options|] == options;
      r := Some(rows);
    }

    /** Files an answer that was extracted, inside a transaction on t. */
    method FileAnswer(t: Tables, key: Key, a: Answer, name: string) returns (r: Tables)
      requires key in t.rows
      ensures var row := Answered(t.rows[key], a, name);
        r == t.(rows := t.rows[key := row], outbox := if row.status == Conflict then t.outbox else t.outbox + [key])
    {
      var row := t.rows[key];
      var status := row.status;
      if status == Captured {
        var stored := ReadAnswer(a.kind, row.items);
        if stored != a {
          status := Conflict;
        }
      } else if status != Conflict {
        status := Captured;
      }
      row := row.(sources := row.sources + {(a, name)}, status := status);
      if status == Conflict {
        return t.(rows := t.rows[key := row]);
      }
      var ok, items := WriteAnswer(a);
      row := row.(items := items);
      r := t.(rows := t.rows[key := row], outbox := t.outbox + [key]);
    }

    /** Files what a source shows, answer or reference, inside a transaction on t. */
    method File(t: Tables, key: Key, content: Members, source: Members, name: string) returns (r: Tables)
      requires key in t.rows
      ensures r == Filed(t, key, content, source, name)
    {
      var answer := Extract(content, source);
      if answer.None? {
        r := t;
        if KindOf(content) == Reference && Find(source, "is_show_answer") == Some(Boolean(true)) {
          var v := ShownValue(source);
          if !v.Null? && t.rows[key].status == Missing {
            r := t.(rows := t.rows[key := t.rows[key].(status := ReferenceOnly, reference := v)]);
          }
        }
        assert r.rows == Filed(t, key, content, source, name).rows;
      } else {
        r := FileAnswer(t, key, answer.value, name);
      }
    }

    method SaveIn(t: Tables, place: Place, p: Problem, source: Members, name: string) returns (r: Option<Tables>)
      ensures r == Saved(cfg, t, place, p, source, name)
    {
      r := Ensure(t, place, p);
      if r.Some? {
        var filed := File(r.value, KeyOf(cfg, place, p), Fingerprints.ContentOf(p.content), source, name);
        r := Some(filed);
      }
    }

    method Save(place: Place, p: Problem, source: Members, name: string, commit: bool) returns (ok: bool)
      requires Valid()
      modifies this
      ensures Valid() && events == old(events) + [Event.Save(place, p, source, name, commit)]
      ensures ok <==> commit && Accepted(cfg, place, p)
    {
      var r := SaveIn(tables, place, p, source, name);
      SavedIfAccepted(cfg, tables, place, p, source, name);
      ok := commit && r.Some?;
      if ok {
        tables := r.value;
      }
      Log(Event.Save(place, p, source, name, commit));
    }

    method NoteCount(t: Tables, account: int, key: Key, user: Members) returns (r: Option<Tables>)
      ensures r == Counted(cfg, t, account, key, user)
    {
      var n := CountOf(cfg, user);
      if n.None? {
        return Some(t);
      }
      if n.value > MAX_COUNT {
        return None;
      }
      r := Some(t.(states := t.states[(account, key) := StateOf(n.value, user)]));
    }

    method Observe(account: int, place: Place, p: Problem, commit: bool, commitCount: bool) returns (ok: bool)
      requires Valid()
      modifies this
      ensures Valid() && events == old(events) + [Event.Observe(account, place, p, commit, commitCount)]
      ensures ok <==>
        commit && Accepted(cfg, place, p) && (CountOf(cfg, p.user).Some? ==> commitCount && Countable(cfg, p))
    {
      ghost var e := Event.Observe(account, place, p, commit, commitCount);
      var r := SaveIn(tables, place, p, p.user, LISTED);
      SavedIfAccepted(cfg, tables, place, p, p.user, LISTED);
      ok := commit && r.Some?;
      if ok {
        tables := r.value;
        if CountOf(cfg, p.user).Some? {
          EnsuredIfAccepted(cfg, tables, place, p);
          var t := Ensure(tables, place, p);
          if t.Some? {
            t := NoteCount(t.value, account, KeyOf(cfg, place, p), p.user);
          }
          ok := commitCount && t.Some?;
          if ok {
            tables := t.value;
          }
        }
      }
      Log(e);
    }

    /** The problems of a list inside one transaction; none if one of them fails. */
    method ObserveList(t: Tables, account: int, list: seq<(Place, Problem)>) returns (r: Option<Tables>)
      ensures r == Batched(cfg, t, account, list)
    {
      r := Some(t);
      for i := 0 to |list|
        invariant r.Some? && Batched(cfg, t, account, list[..i]) == r
      {
        assert list[..i + 1][..i] == list[..i];
        var (place, p) := list[i];
        r := SaveIn(r.value, place, p, p.user, LISTED);
        if r.Some? {
          r := NoteCount(r.value, account, KeyOf(cfg, place, p), p.user);
        }
        assert r == Batched(cfg, t, account, list[..i + 1]);
        if r.None? {
          FailedForGood(cfg, t, account, list, i + 1);
          return;
        }
      }
      assert list[..|list|] == list;
    }

    /** The problems of all exercises, inside one transaction on t. */
    method ObserveListed(t: Tables, account: int, exercises: seq<Exercise>) returns (r: Option<Tables>)
      ensures r == Batched(cfg, t, account, Listed(exercises))
    {
      r := Some(t);
      for i := 0 to |exercises|
        invariant r.Some? && r == Batched(cfg, t, account, Listed(exercises[..i]))
      {
        assert exercises[..i + 1][..i] == exercises[..i];
        BatchAppends(cfg, t, account, Listed(exercises[..i]), ListedOne(exercises[i]));
        r := ObserveList(r.value, account, ListedOne(exercises[i]));
        if r.None? {
          ListedPrefix(cfg, t, account, exercises, i + 1);
          return;
        }
      }
      assert exercises[..|exercises|] == exercises;
    }

    /** One transaction for the problems of all exercises: nothing changes if it fails, and
        otherwise the tables are as if the problems had been observed one by one. */
    method ObserveBatch(account: int, exercises: seq<Exercise>, commit: bool) returns (ok: bool)
      requires Valid()
      modifies this
      ensures Valid() && events == old(events) + [Event.Batch(account, exercises, commit)]
      ensures !ok ==> tables == old(tables)
      ensures ok ==> ObservedAll(cfg, old(tables), account, Listed(exercises)) == (tables, true)
      ensures commit ==> (ok <==> ObservedAll(cfg, old(tables), account, Listed(exercises)).1)
    {
      var r := ObserveListed(tables, account, exercises);
      BatchIsFold(cfg, tables, account, Listed(exercises));
      ok := commit && r.Some?;
      if ok {
        tables := r.value;
      }
      Log(Event.Batch(account, exercises, commit));
    }

    /** The answer on record, if every valid answer seen so far is that one and it fits. */
    method Lookup(place: Place, p: Problem) returns (r: Option<Answer>)
      requires Valid() && KindsAgree(cfg)
      ensures forall x :: r == Some(x) <==>
        var seen := Seen(cfg, KeyOf(cfg, place, p), events);
        seen != [] && (forall i | 0 <= i < |seen| :: seen[i] == x) && Fits(Fingerprints.ContentOf(p.content), x)
    {
      var key := KeyOf(cfg, place, p);
      ghost var found := LookedUp(cfg, tables, place, p);
      forall x ensures found == Some(x) <==>
        var seen := Seen(cfg, KeyOf(cfg, place, p), events);
        seen != [] && (forall i | 0 <= i < |seen| :: seen[i] == x) && Fits(Fingerprints.ContentOf(p.content), x)
      {
        LookupDecides(cfg, events, place, p, x);
      }
      RunKeeps(cfg, events, key);
      if key !in tables.rows || tables.rows[key].status != Captured {
        return None;
      }
      var row := tables.rows[key];
      var a := ReadAnswer(row.kind, row.items);
      var source := AnswerSource(a);
      SourceDecides(Fingerprints.ContentOf(p.content), source, a);
      r := Extract(Fingerprints.ContentOf(p.content), source);
    }
  }

  lemma SavedIfAccepted(cfg: Config, t: Tables, place: Place, p: Problem, source: Members, name: string)
    ensures Saved(cfg, t, place, p, source, name).Some? <==> Accepted(cfg, place, p)
  {
    EnsuredIfAccepted(cfg, t, place, p);
  }

  lemma OneMoreOption(known: map<string, OptionRow>, options: seq<Json>, i: nat)
    requires i < |options| && WithOptions(known, options[..i]).Some?
    ensures var rows, key := WithOptions(known, options[..i]).value, OptionKey(options[i]);
      WithOptions(known, options[..i + 1]) ==
      if key == "" then None
      else if key in rows then Some(rows)
      else Some(rows[key := OptionRow(i, OptionLabel(options[i]))])
  {
    assert options[..i + 1][..i] == options[..i];
  }

  lemma {:induction false} RefusedForGood(known: map<string, OptionRow>, options: seq<Json>, n: nat)
    requires n <= |options| && WithOptions(known, options[..n]).None?
    ensures WithOptions(known, options).None?
    decreases |options|
  {
    if n == |options| {
      assert options[..n] == options;
    } else {
      assert options[..|options| - 1][..n] == options[..n];
      RefusedForGood(known, options[..|options| - 1], n);
    }
  }

  lemma {:induction false} FailedForGood(cfg: Config, t: Tables, account: int, list: seq<(Place, Problem)>, n: nat)
    requires n <= |list| && Batched(cfg, t, account, list[..n]).None?
    ensures Batched(cfg, t, account, list).None?
    decreases |list|
  {
    if n == |list| {
      assert list[..n] == list;
    } else {
      assert list[..|list| - 1][..n] == list[..n];
      FailedForGood(cfg, t, account, list[..|list| - 1], n);
    }
  }

  lemma LastOfBoth<T>(a: seq<T>, b: seq<T>)
    requires b != []
    ensures (a + b)[..|a + b| - 1] == a + b[..|b| - 1] && (a + b)[|a + b| - 1] == b[|b| - 1]
  {
  }

  lemma {:induction false} BatchAppends(cfg: Config, t: Tables, account: int, a: seq<(Place, Problem)>,
        b: seq<(Place, Problem)>)
    requires Batched(cfg, t, account, a).Some?
    ensures Batched(cfg, t, account, a + b) == Batched(cfg, Batched(cfg, t, account, a).value, account, b)
  {
    if b == [] {
      assert a + b == a;
    } else {
      LastOfBoth(a, b);
      BatchAppends(cfg, t, account, a, b[..|b| - 1]);
    }
  }

  /** A batch that fails on some of the exercises fails on all of them. */
  lemma {:induction false} ListedPrefix(cfg: Config, t: Tables, account: int, exercises: seq<Exercise>, n: nat)
    requires n <= |exercises|
    ensures Batched(cfg, t, account, Listed(exercises[..n])).None? ==>
      Batched(cfg, t, account, Listed(exercises)).None?
    decreases |exercises|
  {
    if n == |exercises| {
      assert exercises[..n] == exercises;
    } else {
      var init := exercises[..|exercises| - 1];
      assert init[..n] == exercises[..n];
      ListedPrefix(cfg, t, account, init, n);
      if Batched(cfg, t, account, Listed(init)).None? {
        var list := Listed(exercises);
        assert list[..|Listed(init)|] == Listed(init);
        FailedForGood(cfg, t, account, list, |Listed(init)|);
      }
    }
  }
}
