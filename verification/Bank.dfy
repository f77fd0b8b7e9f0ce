/**
 The answer bank (internal/bank/store.go, internal/bank/batch.go): the rows of a question
 version, the transactions that file what the platform shows, and what a lookup then
 finds. A transaction is one step, and its commit may fail.
 */
module Banks {
  import opened Options
  import opened Ordering
  import opened Json
  import opened Answers
  import opened AnswerItems
  import Fingerprints

  /** What the bank depends on: how a content is fingerprinted ("" if it cannot be), the
      course units on record (classroom and leaf), and how a loose value is read as an
      integer. */
  datatype Config = Config(fingerprint: string -> string, units: set<(int, int)>, integer: Json -> Option<int>)

  /** A fingerprint determines the kind of a question. */
  ghost predicate KindsAgree(cfg: Config) {
    forall c, d | cfg.fingerprint(c) == cfg.fingerprint(d) != "" ::
      KindOf(Fingerprints.ContentOf(c)) == KindOf(Fingerprints.ContentOf(d))
  }

  datatype Place = Place(classroom: int, leaf: int, exercise: int)

  datatype Problem = Problem(id: int, content: string, user: Members)

  datatype Exercise = Exercise(place: Place, problems: seq<Problem>)

  datatype Key = Key(place: Place, problem: int, fingerprint: string)

  datatype Status = Missing | ReferenceOnly | Captured | Conflict

  datatype OptionRow = OptionRow(position: int, text: string)

  /** A question version with its options, its standard answer and the evidence for it. */
  datatype Row = Row(kind: Kind, options: map<string, OptionRow>, status: Status, reference: Json,
                     items: seq<Item>, sources: set<(Answer, string)>)

  datatype State = State(count: int, right: Option<bool>)

  datatype Tables = Tables(rows: map<Key, Row>, states: map<(int, Key), State>, outbox: seq<Key>)

  const EMPTY := Tables(map[], map[], [])

  function KeyOf(cfg: Config, place: Place, p: Problem): Key {
    Key(place, p.id, cfg.fingerprint(p.content))
  }

  // ---------------------------------------------------------------- ensure

  function OptionKey(o: Json): string {
    ScalarOf(Find(Fields(Some(o)), "key"))
  }

  function OptionLabel(o: Json): string {
    var text := ScalarOf(Find(Fields(Some(o)), "content"));
    if text == "" then ScalarOf(Find(Fields(Some(o)), "value")) else text
  }

  /** Options that are already known are left alone; one without a key is an error. */
  function WithOptions(known: map<string, OptionRow>, options: seq<Json>): Option<map<string, OptionRow>> {
    if options == [] then Some(known)
    else
      var r := WithOptions(known, options[..|options| - 1]);
      var o := options[|options| - 1];
      if r.None? || OptionKey(o) == "" then None
      else if OptionKey(o) in r.value then r
      else Some(r.value[OptionKey(o) := OptionRow(|options| - 1, OptionLabel(o))])
  }

  function OptionsOf(p: Problem): seq<Json> {
    Elements(Find(Fingerprints.ContentOf(p.content), "Options"))
  }

  function NewRow(p: Problem): Row {
    Row(KindOf(Fingerprints.ContentOf(p.content)), map[], Missing, Null, [], {})
  }

  /** The question version is on record. */
  function Ensured(cfg: Config, t: Tables, place: Place, p: Problem): (r: Option<Tables>)
    ensures r.Some? ==> KeyOf(cfg, place, p) in r.value.rows
  {
    var key := KeyOf(cfg, place, p);
    if (place.classroom, place.leaf) !in cfg.units || key.fingerprint == "" then None
    else
      var row := if key in t.rows then t.rows[key] else NewRow(p);
      var options := WithOptions(row.options, OptionsOf(p));
      if options.None? then None
      else Some(t.(rows := t.rows[key := row.(options := options.value)]))
  }

  // ---------------------------------------------------------------- what is filed

  /** A valid answer: the first one is captured, a different one is a conflict for good. */
  function Answered(row: Row, a: Answer, name: string): Row {
    var sources := row.sources + {(a, name)};
    if row.status == Conflict || (row.status == Captured && ReadOf(a.kind, row.items) != a) then
      row.(status := Conflict, sources := sources)
    else row.(status := Captured, sources := sources, items := RowsOf(a))
  }

  /** What stands in for an answer where there is no standard one. */
  function ShownValue(source: Members): Json {
    var v := Find(source, "answer");
    var w := Find(source, "answers");
    if v.Some? && !v.value.Null? then v.value else if w.Some? then w.value else Null
  }

  function Referenced(row: Row, source: Members): Row {
    if Find(source, "is_show_answer") == Some(Boolean(true)) && !ShownValue(source).Null? && row.status == Missing then
      row.(status := ReferenceOnly, reference := ShownValue(source))
    else row
  }

  function Filed(t: Tables, key: Key, content: Members, source: Members, name: string): (r: Tables)
    requires key in t.rows
    ensures r.rows.Keys == t.rows.Keys && r.rows[key].options == t.rows[key].options
      && r.rows[key].kind == t.rows[key].kind
  {
    match Extracted(content, source)
    case None =>
      if KindOf(content) == Reference then t.(rows := t.rows[key := Referenced(t.rows[key], source)]) else t
    case Some(a) =>
      var row := Answered(t.rows[key], a, name);
      t.(rows := t.rows[key := row], outbox := if row.status == Conflict then t.outbox else t.outbox + [key])
  }

  /** One call of Save: a single transaction. */
  function Saved(cfg: Config, t: Tables, place: Place, p: Problem, source: Members, name: string): Option<Tables> {
    var e := Ensured(cfg, t, place, p);
    if e.None? then None
    else Some(Filed(e.value, KeyOf(cfg, place, p), Fingerprints.ContentOf(p.content), source, name))
  }

  const LISTED := "exercise_list"
  const MAX_COUNT := 0x7FFF_FFFF

  function CountOf(cfg: Config, user: Members): Option<int> {
    var v := Find(user, "my_count");
    var n := if v.None? then None else cfg.integer(v.value);
    if n.Some? && n.value >= 0 then n else None
  }

  function StateOf(count: int, user: Members): State {
    var v := Find(user, "is_right");
    State(count, if v.Some? && v.value.Boolean? then Some(v.value.value) else None)
  }

  /** The number of attempts, if the platform says it; one that does not fit the column is an
      error. */
  function Counted(cfg: Config, t: Tables, account: int, key: Key, user: Members): Option<Tables> {
    var n := CountOf(cfg, user);
    if n.None? then Some(t)
    else if n.value > MAX_COUNT then None
    else Some(t.(states := t.states[(account, key) := StateOf(n.value, user)]))
  }

  /** The second transaction of Observe. */
  function Noted(cfg: Config, t: Tables, account: int, place: Place, p: Problem): Option<Tables> {
    var e := Ensured(cfg, t, place, p);
    if e.None? then None else Counted(cfg, e.value, account, KeyOf(cfg, place, p), p.user)
  }

  /** Observe: one transaction for the answer and, if there is a count, one more for it. */
  function Observed(cfg: Config, t: Tables, account: int, place: Place, p: Problem): (Tables, bool) {
    var saved := Saved(cfg, t, place, p, p.user, LISTED);
    if saved.None? then (t, false)
    else if CountOf(cfg, p.user).None? then (saved.value, true)
    else
      var noted := Noted(cfg, saved.value, account, place, p);
      if noted.None? then (saved.value, false) else (noted.value, true)
  }

  // ---------------------------------------------------------------- the batch

  function Listed(exercises: seq<Exercise>): seq<(Place, Problem)> {
    if exercises == [] then []
    else Listed(exercises[..|exercises| - 1]) + ListedOne(exercises[|exercises| - 1])
  }

  function ListedOne(e: Exercise): seq<(Place, Problem)> {
    seq(|e.problems|, i requires 0 <= i < |e.problems| => (e.place, e.problems[i]))
  }

  /** One problem of a batch: the question is ensured once, and nothing is committed yet. */
  function BatchedOne(cfg: Config, t: Tables, account: int, place: Place, p: Problem): Option<Tables> {
    var saved := Saved(cfg, t, place, p, p.user, LISTED);
    if saved.None? then None else Counted(cfg, saved.value, account, KeyOf(cfg, place, p), p.user)
  }

  function Batched(cfg: Config, t: Tables, account: int, list: seq<(Place, Problem)>): Option<Tables> {
    if list == [] then Some(t)
    else
      var r := Batched(cfg, t, account, list[..|list| - 1]);
      var (place, p) := list[|list| - 1];
      if r.None? then None else BatchedOne(cfg, r.value, account, place, p)
  }

  /** Observing the problems one after the other, up to the first error. */
  function ObservedAll(cfg: Config, t: Tables, account: int, list: seq<(Place, Problem)>): (Tables, bool) {
    if list == [] then (t, true)
    else
      var (t', ok) := ObservedAll(cfg, t, account, list[..|list| - 1]);
      var (place, p) := list[|list| - 1];
      if ok then Observed(cfg, t', account, place, p) else (t', false)
  }

  predicate KeysIn(options: seq<Json>, known: map<string, OptionRow>) {
    options == [] || (KeysIn(options[..|options| - 1], known) && KeyIn(options[|options| - 1], known))
  }

  predicate KeyIn(o: Json, known: map<string, OptionRow>) {
    OptionKey(o) != "" && OptionKey(o) in known
  }

  lemma {:induction false} KeysInMore(options: seq<Json>, known: map<string, OptionRow>, more: map<string, OptionRow>)
    requires KeysIn(options, known) && known.Keys <= more.Keys
    ensures KeysIn(options, more)
  {
    if options != [] {
      KeysInMore(options[..|options| - 1], known, more);
      assert KeyIn(options[|options| - 1], known);
    }
  }

  lemma {:induction false} OptionsKnown(known: map<string, OptionRow>, options: seq<Json>)
    requires WithOptions(known, options).Some?
    ensures KeysIn(options, WithOptions(known, options).value)
  {
    if options != [] {
      var init := options[..|options| - 1];
      OptionsKnown(known, init);
      KeysInMore(init, WithOptions(known, init).value, WithOptions(known, options).value);
    }
  }

  lemma {:induction false} NothingNew(known: map<string, OptionRow>, options: seq<Json>)
    requires KeysIn(options, known)
    ensures WithOptions(known, options) == Some(known)
  {
    if options != [] {
      NothingNew(known, options[..|options| - 1]);
      assert KeyIn(options[|options| - 1], known);
    }
  }

  /** Once a question is on record with its options, ensuring it changes nothing. */
  lemma EnsuredAgain(cfg: Config, t: Tables, place: Place, p: Problem, u: Tables)
    requires Ensured(cfg, t, place, p).Some?
    requires var key := KeyOf(cfg, place, p);
      key in u.rows && u.rows[key].options == Ensured(cfg, t, place, p).value.rows[key].options
    ensures Ensured(cfg, u, place, p) == Some(u)
  {
    var key := KeyOf(cfg, place, p);
    var row := if key in t.rows then t.rows[key] else NewRow(p);
    OptionsKnown(row.options, OptionsOf(p));
    NothingNew(u.rows[key].options, OptionsOf(p));
    assert u.rows[key := u.rows[key]] == u.rows;
  }

  lemma ObservedIsBatched(cfg: Config, t: Tables, account: int, place: Place, p: Problem)
    ensures Observed(cfg, t, account, place, p).1 <==> BatchedOne(cfg, t, account, place, p).Some?
    ensures Observed(cfg, t, account, place, p).1 ==>
      Observed(cfg, t, account, place, p).0 == BatchedOne(cfg, t, account, place, p).value
  {
    var saved := Saved(cfg, t, place, p, p.user, LISTED);
    if saved.Some? {
      EnsuredAgain(cfg, t, place, p, saved.value);
    }
  }

  /** A batch leaves the bank as observing its problems one by one does, and fails exactly
      when one of them does. */
  lemma {:induction false} BatchIsFold(cfg: Config, t: Tables, account: int, list: seq<(Place, Problem)>)
    ensures ObservedAll(cfg, t, account, list).1 <==> Batched(cfg, t, account, list).Some?
    ensures ObservedAll(cfg, t, account, list).1 ==>
      ObservedAll(cfg, t, account, list).0 == Batched(cfg, t, account, list).value
  {
    if list != [] {
      var init := list[..|list| - 1];
      var (place, p) := list[|list| - 1];
      BatchIsFold(cfg, t, account, init);
      if Batched(cfg, t, account, init).Some? {
        ObservedIsBatched(cfg, Batched(cfg, t, account, init).value, account, place, p);
      }
    }
  }

  // ---------------------------------------------------------------- lookup

  /** The answer to a question, if the bank has one that fits it. */
  ghost function LookedUp(cfg: Config, t: Tables, place: Place, p: Problem): Option<Answer> {
    var key := KeyOf(cfg, place, p);
    if key !in t.rows || t.rows[key].status != Captured then None
    else
      var a := ReadOf(t.rows[key].kind, t.rows[key].items);
      if Fits(Fingerprints.ContentOf(p.content), a) then Some(a) else None
  }

  // ---------------------------------------------------------------- runs

  /** A call, and which of its transactions are committed. */
  datatype Event =
    | Save(place: Place, problem: Problem, source: Members, name: string, commit: bool)
    | Observe(account: int, place: Place, problem: Problem, commit: bool, commitCount: bool)
    | Batch(account: int, exercises: seq<Exercise>, commit: bool)

  function Step(cfg: Config, t: Tables, e: Event): Tables {
    match e
    case Save(place, p, source, name, commit) =>
      var r := Saved(cfg, t, place, p, source, name);
      if commit && r.Some? then r.value else t
    case Observe(account, place, p, commit, commitCount) =>
      var r := Saved(cfg, t, place, p, p.user, LISTED);
      if !commit || r.None? then t
      else if commitCount then Observed(cfg, t, account, place, p).0
      else r.value
    case Batch(account, exercises, commit) =>
      var r := Batched(cfg, t, account, Listed(exercises));
      if commit && r.Some? then r.value else t
  }

  function Run(cfg: Config, events: seq<Event>): Tables {
    if events == [] then EMPTY
    else Step(cfg, Run(cfg, events[..|events| - 1]), events[|events| - 1])
  }

  /** The valid answer, if any, that a problem shows for a question version. */
  function Shown(cfg: Config, key: Key, place: Place, p: Problem, source: Members): seq<Answer> {
    var a := Extracted(Fingerprints.ContentOf(p.content), source);
    if KeyOf(cfg, place, p) == key && a.Some? then [a.value] else []
  }

  function ShownAll(cfg: Config, key: Key, list: seq<(Place, Problem)>): seq<Answer> {
    if list == [] then []
    else
      var (place, p) := list[|list| - 1];
      ShownAll(cfg, key, list[..|list| - 1]) + Shown(cfg, key, place, p, p.user)
  }

  /** Whether the calls for a problem are accepted does not depend on the tables. */
  function Accepted(cfg: Config, place: Place, p: Problem): bool {
    && (place.classroom, place.leaf) in cfg.units && cfg.fingerprint(p.content) != ""
    && AllKeyed(OptionsOf(p))
  }

  predicate Keyed(o: Json) {
    OptionKey(o) != ""
  }

  predicate AllKeyed(options: seq<Json>) {
    forall i | 0 <= i < |options| :: Keyed(options[i])
  }

  function Countable(cfg: Config, p: Problem): bool {
    CountOf(cfg, p.user).None? || CountOf(cfg, p.user).value <= MAX_COUNT
  }

  predicate AllAccepted(cfg: Config, list: seq<(Place, Problem)>) {
    list == [] ||
    (var (place, p) := list[|list| - 1];
     AllAccepted(cfg, list[..|list| - 1]) && Accepted(cfg, place, p) && Countable(cfg, p))
  }

  /** The valid answers that an event has put on record for a question version. */
  function SeenIn(cfg: Config, key: Key, e: Event): seq<Answer> {
    match e
    case Save(place, p, source, _, commit) =>
      if commit && Accepted(cfg, place, p) then Shown(cfg, key, place, p, source) else []
    case Observe(_, place, p, commit, _) =>
      if commit && Accepted(cfg, place, p) then Shown(cfg, key, place, p, p.user) else []
    case Batch(_, exercises, commit) =>
      var list := Listed(exercises);
      if commit && AllAccepted(cfg, list) then ShownAll(cfg, key, list) else []
  }

  function Seen(cfg: Config, key: Key, events: seq<Event>): seq<Answer> {
    if events == [] then []
    else Seen(cfg, key, events[..|events| - 1]) + SeenIn(cfg, key, events[|events| - 1])
  }

  /** What the row of a question version says about the valid answers seen so far. */
  ghost predicate Describes(row: Row, seen: seq<Answer>) {
    && (forall i | 0 <= i < |seen| :: seen[i].kind == row.kind)
    && match row.status
       case Captured =>
         && seen != [] && (forall i | 0 <= i < |seen| :: seen[i] == seen[0])
         && ReadOf(row.kind, row.items) == seen[0] && Possible(seen[0])
       case Conflict => exists i, j :: 0 <= i < j < |seen| && seen[i] != seen[j]
       case _ => seen == []
  }

  ghost predicate Invariant(cfg: Config, t: Tables, key: Key, seen: seq<Answer>) {
    if key !in t.rows then seen == []
    else
      && Describes(t.rows[key], seen)
      && forall c: string | cfg.fingerprint(c) == key.fingerprint ::
        KindOf(Fingerprints.ContentOf(c)) == t.rows[key].kind
  }

  lemma {:induction false} OptionsAccepted(known: map<string, OptionRow>, options: seq<Json>)
    ensures WithOptions(known, options).Some? <==> AllKeyed(options)
  {
    if options != [] {
      var init, last := options[..|options| - 1], options[|options| - 1];
      OptionsAccepted(known, init);
      AllKeyedMore(options);
      assert Keyed(last) <==> OptionKey(last) != "";
    }
  }

  lemma AllKeyedMore(options: seq<Json>)
    requires options != []
    ensures AllKeyed(options) <==> AllKeyed(options[..|options| - 1]) && Keyed(options[|options| - 1])
  {
    forall i | 0 <= i < |options| ensures Keyed(options[i]) <==>
      if i < |options| - 1 then Keyed(options[..|options| - 1][i]) else Keyed(options[|options| - 1])
    {
    }
  }

  lemma EnsuredIfAccepted(cfg: Config, t: Tables, place: Place, p: Problem)
    ensures Ensured(cfg, t, place, p).Some? <==> Accepted(cfg, place, p)
  {
    var key := KeyOf(cfg, place, p);
    OptionsAccepted(if key in t.rows then t.rows[key].options else NewRow(p).options, OptionsOf(p));
  }

  lemma EnsuredKeeps(cfg: Config, t: Tables, place: Place, p: Problem, key: Key, seen: seq<Answer>)
    requires KindsAgree(cfg) && Invariant(cfg, t, key, seen) && Ensured(cfg, t, place, p).Some?
    ensures Invariant(cfg, Ensured(cfg, t, place, p).value, key, seen)
  {
  }

  lemma WrittenIsRead(content: Members, a: Answer)
    requires Fits(content, a)
    ensures ReadOf(a.kind, RowsOf(a)) == a && Possible(a)
  {
    WriteThenRead(content, a);
  }

  lemma CapturedKeeps(row: Row, r: Row, a: Answer, seen: seq<Answer>)
    requires Describes(row, seen) && a.kind == row.kind == r.kind && r.status == Captured
    requires row.status != Conflict && (row.status == Captured ==> ReadOf(a.kind, row.items) == a)
    requires ReadOf(a.kind, r.items) == a && Possible(a)
    ensures Describes(r, seen + [a])
  {
    forall i | 0 <= i < |seen + [a]| ensures (seen + [a])[i] == a {
      assert i < |seen| ==> seen[i] == seen[0];
    }
  }

  lemma ConflictKeeps(row: Row, a: Answer, name: string, seen: seq<Answer>, i: nat, j: nat)
    requires (forall k | 0 <= k < |seen| :: seen[k].kind == row.kind) && a.kind == row.kind
    requires row.status == Conflict || (row.status == Captured && ReadOf(a.kind, row.items) != a)
    requires i < j <= |seen| && (seen + [a])[i] != (seen + [a])[j]
    ensures Describes(Answered(row, a, name), seen + [a])
  {
  }

  lemma AnsweredKeeps(row: Row, a: Answer, name: string, seen: seq<Answer>, content: Members)
    requires Describes(row, seen) && a.kind == row.kind && Fits(content, a)
    ensures Describes(Answered(row, a, name), seen + [a])
  {
    if row.status == Conflict {
      var i, j :| 0 <= i < j < |seen| && seen[i] != seen[j];
      ConflictKeeps(row, a, name, seen, i, j);
    } else if row.status == Captured && ReadOf(a.kind, row.items) != a {
      ConflictKeeps(row, a, name, seen, 0, |seen|);
    } else {
      WrittenIsRead(content, a);
      CapturedKeeps(row, Answered(row, a, name), a, seen);
    }
  }

  lemma FiledKeeps(cfg: Config, t: Tables, place: Place, p: Problem, source: Members, name: string, key: Key,
        seen: seq<Answer>)
    requires Invariant(cfg, t, key, seen) && KeyOf(cfg, place, p) in t.rows
    ensures Invariant(cfg, Filed(t, KeyOf(cfg, place, p), Fingerprints.ContentOf(p.content), source, name), key,
                      seen + Shown(cfg, key, place, p, source))
  {
    var content := Fingerprints.ContentOf(p.content);
    if KeyOf(cfg, place, p) == key && Extracted(content, source).Some? {
      ExtractedFits(content, source);
      AnsweredKeeps(t.rows[key], Extracted(content, source).value, name, seen, content);
    } else {
      assert seen + Shown(cfg, key, place, p, source) == seen;
    }
  }

  lemma SavedKeeps(cfg: Config, t: Tables, place: Place, p: Problem, source: Members, name: string, key: Key,
        seen: seq<Answer>)
    requires KindsAgree(cfg) && Invariant(cfg, t, key, seen) && Accepted(cfg, place, p)
    ensures Saved(cfg, t, place, p, source, name).Some?
    ensures Invariant(cfg, Saved(cfg, t, place, p, source, name).value, key, seen + Shown(cfg, key, place, p, source))
  {
    EnsuredIfAccepted(cfg, t, place, p);
    EnsuredKeeps(cfg, t, place, p, key, seen);
    FiledKeeps(cfg, Ensured(cfg, t, place, p).value, place, p, source, name, key, seen);
  }

  lemma NotSaved(cfg: Config, t: Tables, place: Place, p: Problem, source: Members, name: string)
    requires !Accepted(cfg, place, p)
    ensures Saved(cfg, t, place, p, source, name).None?
  {
    EnsuredIfAccepted(cfg, t, place, p);
  }

  lemma {:induction false} BatchedKeeps(cfg: Config, t: Tables, account: int, list: seq<(Place, Problem)>, key: Key,
        seen: seq<Answer>)
    requires KindsAgree(cfg) && Invariant(cfg, t, key, seen)
    ensures Batched(cfg, t, account, list).Some? <==> AllAccepted(cfg, list)
    ensures Batched(cfg, t, account, list).Some? ==>
      Invariant(cfg, Batched(cfg, t, account, list).value, key, seen + ShownAll(cfg, key, list))
  {
    if list == [] {
      assert seen + ShownAll(cfg, key, list) == seen;
    } else {
      var init := list[..|list| - 1];
      var (place, p) := list[|list| - 1];
      BatchedKeeps(cfg, t, account, init, key, seen);
      if Batched(cfg, t, account, init).Some? {
        BatchedOneKeeps(cfg, Batched(cfg, t, account, init).value, account, place, p, key,
                        seen + ShownAll(cfg, key, init));
        Append(seen, ShownAll(cfg, key, init), Shown(cfg, key, place, p, p.user));
      }
    }
  }

  lemma Append(a: seq<Answer>, b: seq<Answer>, c: seq<Answer>)
    ensures a + b + c == a + (b + c)
  {
  }

  lemma BatchedOneKeeps(cfg: Config, t: Tables, account: int, place: Place, p: Problem, key: Key, seen: seq<Answer>)
    requires KindsAgree(cfg) && Invariant(cfg, t, key, seen)
    ensures BatchedOne(cfg, t, account, place, p).Some? <==> Accepted(cfg, place, p) && Countable(cfg, p)
    ensures BatchedOne(cfg, t, account, place, p).Some? ==>
      Invariant(cfg, BatchedOne(cfg, t, account, place, p).value, key, seen + Shown(cfg, key, place, p, p.user))
  {
    if Accepted(cfg, place, p) {
      SavedKeeps(cfg, t, place, p, p.user, LISTED, key, seen);
    } else {
      NotSaved(cfg, t, place, p, p.user, LISTED);
    }
  }

  lemma SameRows(cfg: Config, t: Tables, u: Tables, key: Key, seen: seq<Answer>)
    requires Invariant(cfg, t, key, seen) && u.rows == t.rows
    ensures Invariant(cfg, u, key, seen)
  {
  }

  lemma NotedKeeps(cfg: Config, t: Tables, account: int, place: Place, p: Problem, key: Key, seen: seq<Answer>)
    requires KindsAgree(cfg) && Invariant(cfg, t, key, seen) && Noted(cfg, t, account, place, p).Some?
    ensures Invariant(cfg, Noted(cfg, t, account, place, p).value, key, seen)
  {
    EnsuredKeeps(cfg, t, place, p, key, seen);
    SameRows(cfg, Ensured(cfg, t, place, p).value, Noted(cfg, t, account, place, p).value, key, seen);
  }

  lemma ObservedKeeps(cfg: Config, t: Tables, account: int, place: Place, p: Problem, key: Key, seen: seq<Answer>)
    requires KindsAgree(cfg) && Invariant(cfg, t, key, seen) && Accepted(cfg, place, p)
    ensures Invariant(cfg, Observed(cfg, t, account, place, p).0, key, seen + Shown(cfg, key, place, p, p.user))
  {
    SavedKeeps(cfg, t, place, p, p.user, LISTED, key, seen);
    var saved := Saved(cfg, t, place, p, p.user, LISTED).value;
    if Noted(cfg, saved, account, place, p).Some? {
      NotedKeeps(cfg, saved, account, place, p, key, seen + Shown(cfg, key, place, p, p.user));
    }
  }

  lemma StepKeeps(cfg: Config, t: Tables, e: Event, key: Key, seen: seq<Answer>)
    requires KindsAgree(cfg) && Invariant(cfg, t, key, seen)
    ensures Invariant(cfg, Step(cfg, t, e), key, seen + SeenIn(cfg, key, e))
  {
    assert seen + [] == seen;
    match e
    case Save(place, p, source, name, commit) =>
      if Accepted(cfg, place, p) {
        SavedKeeps(cfg, t, place, p, source, name, key, seen);
      } else {
        NotSaved(cfg, t, place, p, source, name);
      }
    case Observe(account, place, p, commit, commitCount) =>
      if Accepted(cfg, place, p) {
        SavedKeeps(cfg, t, place, p, p.user, LISTED, key, seen);
        ObservedKeeps(cfg, t, account, place, p, key, seen);
      } else {
        NotSaved(cfg, t, place, p, p.user, LISTED);
      }
    case Batch(account, exercises, commit) =>
      BatchedKeeps(cfg, t, account, Listed(exercises), key, seen);
  }

  lemma {:induction false} RunKeeps(cfg: Config, events: seq<Event>, key: Key)
    requires KindsAgree(cfg)
    ensures Invariant(cfg, Run(cfg, events), key, Seen(cfg, key, events))
  {
    if events != [] {
      RunKeeps(cfg, events[..|events| - 1], key);
      StepKeeps(cfg, Run(cfg, events[..|events| - 1]), events[|events| - 1], key,
                Seen(cfg, key, events[..|events| - 1]));
    }
  }

  /** After any run, a lookup finds an answer exactly when at least one valid answer was put
      on record for the question version, all of them are that answer, and it fits the
      question that is asked about. */
  lemma LookupDecides(cfg: Config, events: seq<Event>, place: Place, p: Problem, x: Answer)
    requires KindsAgree(cfg)
    ensures var seen := Seen(cfg, KeyOf(cfg, place, p), events);
      LookedUp(cfg, Run(cfg, events), place, p) == Some(x) <==>
      seen != [] && (forall i | 0 <= i < |seen| :: seen[i] == x) && Fits(Fingerprints.ContentOf(p.content), x)
  {
    var key := KeyOf(cfg, place, p);
    var t := Run(cfg, events);
    var seen := Seen(cfg, key, events);
    RunKeeps(cfg, events, key);
    if key in t.rows && t.rows[key].status == Conflict {
      var i, j :| 0 <= i < j < |seen| && seen[i] != seen[j];
    }
  }

  lemma {:induction false} SeenGrows(cfg: Config, key: Key, events: seq<Event>, more: seq<Event>)
    ensures |Seen(cfg, key, events)| <= |Seen(cfg, key, events + more)|
    ensures Seen(cfg, key, events + more)[..|Seen(cfg, key, events)|] == Seen(cfg, key, events)
  {
    if more == [] {
      assert events + more == events;
    } else {
      SeenGrows(cfg, key, events, more[..|more| - 1]);
      assert (events + more)[..|events + more| - 1] == events + more[..|more| - 1];
    }
  }

  /** A conflict is for good: whatever happens afterwards, nothing is ever found again. */
  lemma ConflictIsPermanent(cfg: Config, events: seq<Event>, more: seq<Event>, place: Place, p: Problem)
    requires KindsAgree(cfg)
    requires KeyOf(cfg, place, p) in Run(cfg, events).rows
    requires Run(cfg, events).rows[KeyOf(cfg, place, p)].status == Conflict
    ensures LookedUp(cfg, Run(cfg, events + more), place, p) == None
  {
    var key := KeyOf(cfg, place, p);
    var before, after := Seen(cfg, key, events), Seen(cfg, key, events + more);
    RunKeeps(cfg, events, key);
    SeenGrows(cfg, key, events, more);
    var i, j :| 0 <= i < j < |before| && before[i] != before[j];
    assert after[i] == before[i] && after[j] == before[j];
    var found := LookedUp(cfg, Run(cfg, events + more), place, p);
    if found.Some? {
      LookupDecides(cfg, events + more, place, p, found.value);
    }
  }
}
