/**
 What one transaction of the bank leaves in a row (internal/bank/store.go:19-130), in terms of
 the members of the question's content and of what the platform shows, with the keys as they
 are written there.
 */
module BankRows {
  import opened Options
  import opened Ordering
  import opened Json
  import opened Answers
  import opened AnswerItems
  import opened AnswerMeanings
  import opened Banks
  import Fingerprints

  // ---------------------------------------------------------------- options

  /** The text under a key of an option; none if it is not an object or has no text there. */
  function TextUnder(o: Json, key: string): string {
    if o.Object? && Find(o.members, key).Some? then Scalar(Find(o.members, key).value) else ""
  }

  /** An option's text: its content, or else its value. */
  function Wording(o: Json): string {
    if TextUnder(o, "content") != "" then TextUnder(o, "content") else TextUnder(o, "value")
  }

  /** Option i is the first in the list with its key. */
  predicate FirstOf(options: seq<Json>, k: string, i: nat) {
    i < |options| && TextUnder(options[i], "key") == k && forall j | 0 <= j < i :: TextUnder(options[j], "key") != k
  }

  lemma OptionIs(o: Json)
    ensures OptionKey(o) == TextUnder(o, "key") && OptionLabel(o) == Wording(o)
  {
  }

  predicate NoneWith(options: seq<Json>, k: string) {
    forall i | 0 <= i < |options| :: TextUnder(options[i], "key") != k
  }

  /** What is on record under a key: what was, or else the place and the wording of the first
      option with it. */
  predicate OnRecord(known: map<string, OptionRow>, options: seq<Json>, rows: map<string, OptionRow>, k: string) {
    if k in known then k in rows && rows[k] == known[k]
    else if k in rows then
      exists i: nat | i < |options| :: FirstOf(options, k, i) && rows[k] == OptionRow(i, Wording(options[i]))
    else NoneWith(options, k)
  }

  lemma OneMoreOption(known: map<string, OptionRow>, options: seq<Json>, rows: map<string, OptionRow>, o: Json,
        k: string)
    requires OnRecord(known, options, rows, k)
    ensures OnRecord(known, options + [o],
                     if TextUnder(o, "key") in rows then rows
                     else rows[TextUnder(o, "key") := OptionRow(|options|, Wording(o))], k)
  {
    var n := |options|;
    if k !in known {
      if k in rows {
        var i: nat :| i < n && FirstOf(options, k, i) && rows[k] == OptionRow(i, Wording(options[i]));
        assert FirstOf(options + [o], k, i);
      } else if TextUnder(o, "key") == k {
        assert FirstOf(options + [o], k, n);
      }
    }
  }

  lemma LastOption(known: map<string, OptionRow>, init: seq<Json>, o: Json) returns (rows: map<string, OptionRow>)
    requires WithOptions(known, init + [o]).Some?
    ensures WithOptions(known, init) == Some(rows)
    ensures WithOptions(known, init + [o]).value ==
      if TextUnder(o, "key") in rows then rows else rows[TextUnder(o, "key") := OptionRow(|init|, Wording(o))]
  {
    assert (init + [o])[..|init + [o]| - 1] == init;
    OptionIs(o);
    rows := WithOptions(known, init).value;
  }

  /** What is known of a question's options stays as it is, and of the others the first with a
      key is put on record. */
  lemma {:induction false} OptionsAreKept(known: map<string, OptionRow>, options: seq<Json>, k: string)
    requires WithOptions(known, options).Some?
    ensures OnRecord(known, options, WithOptions(known, options).value, k)
  {
    if options != [] {
      var init, o := options[..|options| - 1], options[|options| - 1];
      assert options == init + [o];
      var rows := LastOption(known, init, o);
      OptionsAreKept(known, init, k);
      OneMoreOption(known, init, rows, o, k);
    }
  }

  /** A transaction is refused exactly if its course unit is not on record, the question has no
      fingerprint, or an option under "Options" has no key. */
  lemma AcceptedIs(cfg: Config, t: Tables, place: Place, p: Problem)
    ensures var found := Find(Fingerprints.ContentOf(p.content), "Options");
      Ensured(cfg, t, place, p).Some? <==>
        && (place.classroom, place.leaf) in cfg.units && cfg.fingerprint(p.content) != ""
        && (found.Some? && found.value.Array? ==> NoneWith(found.value.items, ""))
  {
    EnsuredIfAccepted(cfg, t, place, p);
    forall i | 0 <= i < |OptionsOf(p)| ensures Keyed(OptionsOf(p)[i]) <==> TextUnder(OptionsOf(p)[i], "key") != "" {
      OptionIs(OptionsOf(p)[i]);
    }
  }

  // ---------------------------------------------------------------- answers

  /** v is what a source shows in the place of an answer: what is under "answer", or if that is
      missing or null what is under "answers". */
  predicate StandsIn(source: Members, v: Json) {
    var x, y := Find(source, "answer"), Find(source, "answers");
    v != Null && (if x.Some? && x.value != Null then v == x.value else y == Some(v))
  }

  /** The question is of no known type, and it may get a reference text. */
  predicate MayRefer(content: Members, source: Members, row: Row) {
    && (forall name | name in ["SingleChoice", "MultipleChoice", "MultiChoice", "Judgement", "FillBlank"] ::
          !TypeIs(content, name))
    && Find(source, "is_show_answer") == Some(Boolean(true)) && row.status == Missing
  }

  /** Filing touches the row of its question only, and of that neither kind nor options. */
  lemma FiledElsewhere(t: Tables, key: Key, content: Members, source: Members, name: string, other: Key)
    requires key in t.rows
    ensures var u := Filed(t, key, content, source, name);
      && u.states == t.states && u.rows.Keys == t.rows.Keys
      && (other in t.rows && other != key ==> u.rows[other] == t.rows[other])
      && u.rows[key].kind == t.rows[key].kind && u.rows[key].options == t.rows[key].options
  {
  }

  lemma ReadBack(content: Members, source: Members, a: Answer)
    requires Extracted(content, source) == Some(a)
    ensures ReadOf(a.kind, RowsOf(a)) == a
  {
    ExtractedFits(content, source);
    WriteThenRead(content, a);
  }

  /** A valid answer is captured if there is none yet, or the same one; another one makes the
      row a conflict, which it then stays. The answer is evidence in any case, and is announced
      unless it conflicts. */
  lemma AnswerIsFiled(t: Tables, key: Key, content: Members, source: Members, name: string, a: Answer)
    requires key in t.rows && Extracted(content, source) == Some(a)
    ensures var u := Filed(t, key, content, source, name);
      var before, after := t.rows[key], u.rows[key];
      && after.status in {Captured, Conflict}
      && (after.status == Captured <==>
            || before.status in {Missing, ReferenceOnly}
            || (before.status == Captured && ReadOf(a.kind, before.items) == a))
      && after.sources == before.sources + {(a, name)} && after.reference == before.reference
      && (after.status == Captured ==> ReadOf(a.kind, after.items) == a)
      && (after.status == Conflict ==> after.items == before.items)
      && u.outbox == t.outbox + if after.status == Captured then [key] else []
  {
    ReadBack(content, source, a);
  }

  /** Without a valid answer only a question of no known type is touched: what the platform
      shows in the place of an answer is its reference text, unless there is one already. */
  lemma ReferenceIsFiled(t: Tables, key: Key, content: Members, source: Members, name: string)
    requires key in t.rows && Extracted(content, source) == None
    ensures var u := Filed(t, key, content, source, name);
      var before, after := t.rows[key], u.rows[key];
      && u.outbox == t.outbox
      && (after != before ==>
            && MayRefer(content, source, before) && StandsIn(source, after.reference)
            && after == before.(status := ReferenceOnly, reference := after.reference))
      && (after == before ==> !MayRefer(content, source, before) || forall v :: !StandsIn(source, v))
  {
    MayReferIs(content, source, t.rows[key]);
    forall v ensures StandsIn(source, v) <==> v == ShownValue(source) && v != Null {
    }
  }

  lemma MayReferIs(content: Members, source: Members, row: Row)
    ensures MayRefer(content, source, row) <==>
      KindOf(content).Reference? && Find(source, "is_show_answer") == Some(Boolean(true)) && row.status == Missing
  {
    KindIs(content);
    var names := ["SingleChoice", "MultipleChoice", "MultiChoice", "Judgement", "FillBlank"];
    assert names[0] in names && names[1] in names && names[2] in names && names[3] in names && names[4] in names;
  }

  /** An answer that is observed is evidence from the list of exercises. */
  lemma ObservedIsEvidence(cfg: Config, t: Tables, account: int, place: Place, p: Problem, a: Answer)
    requires Ensured(cfg, t, place, p).Some? && Extracted(Fingerprints.ContentOf(p.content), p.user) == Some(a)
    ensures var u := Saved(cfg, t, place, p, p.user, LISTED);
      u.Some? && (a, "exercise_list") in u.value.rows[KeyOf(cfg, place, p)].sources
  {
    AnswerIsFiled(Ensured(cfg, t, place, p).value, KeyOf(cfg, place, p), Fingerprints.ContentOf(p.content), p.user,
                  "exercise_list", a);
  }

  // ---------------------------------------------------------------- the account's state

  /** What is noted of an account's work on a question: how often it has tried, and whether the
      platform says that it is right. Without a count nothing is, and one that does not fit into
      32 bits is an error. */
  lemma CountIsNoted(cfg: Config, t: Tables, account: int, key: Key, user: Members, n: int, right: Option<bool>)
    requires right == None ==> forall b :: Find(user, "is_right") != Some(Boolean(b))
    requires right.Some? ==> Find(user, "is_right") == Some(Boolean(right.value))
    ensures var found := Find(user, "my_count");
      var counts := found.Some? && cfg.integer(found.value).Some? && cfg.integer(found.value).value >= 0;
      && (!counts ==> Counted(cfg, t, account, key, user) == Some(t))
      && (counts && cfg.integer(found.value) == Some(n) && n <= 2147483647 ==>
            Counted(cfg, t, account, key, user) ==
              Some(Tables(t.rows, t.states[(account, key) := State(n, right)], t.outbox)))
      && (counts && cfg.integer(found.value) == Some(n) && n > 2147483647 ==>
            Counted(cfg, t, account, key, user) == None)
  {
  }
}
