/**
 The loops of internal/questions/answers.go: taking an answer out of the platform's form,
 and writing it in that form, to be kept (AnswerSource) or to be submitted (Body).
 */
module Extraction {
  import opened Options
  import opened Ordering
  import opened Json
  import opened Answers
  import opened AnswerMeanings

  method CollectKeys(content: Members) returns (keys: set<string>)
    ensures forall k :: k in keys <==> k in OptionKeys(content)
  {
    var options := Elements(Find(content, "Options"));
    keys := {};
    ghost var all := OptionKeys(content);
    for i := 0 to |options|
      invariant forall j | 0 <= j < i :: all[j] in keys
      invariant forall k | k in keys :: k in all
    {
      var key := ScalarOf(Find(Fields(Some(options[i])), "key"));
      assert key == all[i] && all[i] in all;
      keys := keys + {key};
    }
  }

  lemma DistinctMore(texts: seq<string>, i: nat)
    requires i < |texts|
    ensures var r := Distinct(texts[..i]);
      Distinct(texts[..i + 1]) == if texts[i] in r then r else r + [texts[i]]
  {
    assert texts[..i + 1][..i] == texts[..i];
  }

  predicate AllIn(texts: seq<string>, keys: set<string>) {
    forall i | 0 <= i < |texts| :: texts[i] != "" && texts[i] in keys
  }

  lemma AllInMore(texts: seq<string>, keys: set<string>, i: nat)
    requires i < |texts| && AllIn(texts[..i], keys)
    ensures AllIn(texts[..i + 1], keys) <==> texts[i] != "" && texts[i] in keys
    ensures AllIn(texts, keys) ==> texts[i] != "" && texts[i] in keys
  {
    assert texts[..i + 1] == texts[..i] + [texts[i]];
    assert texts[..i + 1][i] == texts[i];
  }

  method AddChoice(answers: seq<string>, seen: set<string>, k: string)
    returns (answers': seq<string>, seen': set<string>)
    requires forall t :: t in seen <==> t in answers
    ensures answers' == if k in answers then answers else answers + [k]
    ensures forall t :: t in seen' <==> t in answers'
  {
    answers', seen' := answers, seen;
    if k !in seen {
      answers' := answers + [k];
      seen' := seen + {k};
    }
  }

  method ChooseFrom(keys: set<string>, values: seq<Json>) returns (r: Option<seq<string>>)
    ensures r == if AllIn(Texts(values), keys) then Some(Distinct(Texts(values))) else None
  {
    var seen: set<string>, answers := {}, [];
    ghost var texts := Texts(values);
    for i := 0 to |values|
      invariant AllIn(texts[..i], keys)
      invariant answers == Distinct(texts[..i])
      invariant forall t :: t in seen <==> t in answers
    {
      var k := Scalar(values[i]);
      assert k == texts[i];
      AllInMore(texts, keys, i);
      if k == "" || k !in keys {
        return None;
      }
      DistinctMore(texts, i);
      answers, seen := AddChoice(answers, seen, k);
    }
    assert texts[..|values|] == texts;
    r := Some(answers);
  }

  /** The keys that were chosen, each of them once, or nothing if one is not an option. */
  method Choose(content: Members, values: seq<Json>) returns (r: Option<seq<string>>)
    ensures r == if Known(content, Texts(values)) then Some(Distinct(Texts(values))) else None
  {
    var keys := CollectKeys(content);
    r := ChooseFrom(keys, values);
  }

  method NonemptyTexts(values: seq<Json>) returns (r: Option<seq<string>>)
    ensures r == if Filled(Texts(values)) then Some(Texts(values)) else None
  {
    if |values| == 0 {
      return None;
    }
    var list := [];
    for i := 0 to |values|
      invariant list == Texts(values)[..i]
      invariant forall j | 0 <= j < i :: list[j] != ""
    {
      var s := Scalar(values[i]);
      if s == "" {
        assert Texts(values)[i] == "";
        return None;
      }
      list := list + [s];
    }
    assert list == Texts(values);
    r := Some(list);
  }

  method FillIn(content: Members, m: Members) returns (r: Option<Answer>)
    ensures var n := |Merged(m)|;
      r == if n == 0 || (BlankCount(content) > 0 && n != BlankCount(content)) || !AllFilled(Lists(m, n)) then None
           else Some(FillAnswer(Lists(m, n)))
  {
    var n := |Merged(m)|;
    if n == 0 || (BlankCount(content) > 0 && n != BlankCount(content)) {
      return None;
    }
    var accepted: map<string, seq<string>>, answers := map[], [];
    for i := 0 to n
      invariant AllFilled(Lists(m, i)) && accepted == Slots(Lists(m, i)) && answers == Firsts(Lists(m, i))
    {
      var list := NonemptyTexts(Values(Find(m, Decimal(i + 1))));
      if list.None? {
        ListsGrow(m, i + 1, n);
        assert !Filled(Lists(m, n)[i]);
        return None;
      }
      FillMore(Lists(m, i), list.value);
      accepted := accepted[Decimal(i + 1) := list.value];
      answers := answers + [list.value[0]];
    }
    r := Some(Answer(Fill, "", answers, accepted));
  }

  lemma FillMore(lists: seq<seq<string>>, list: seq<string>)
    requires AllFilled(lists) && Filled(list)
    ensures AllFilled(lists + [list])
    ensures Slots(lists + [list]) == Slots(lists)[Decimal(|lists| + 1) := list]
    ensures Firsts(lists + [list]) == Firsts(lists) + [list[0]]
  {
    SlotsMore(lists, list);
    FirstsMore(lists, list);
  }

  lemma FirstsMore(lists: seq<seq<string>>, list: seq<string>)
    requires AllFilled(lists) && Filled(list)
    ensures AllFilled(lists + [list]) && Firsts(lists + [list]) == Firsts(lists) + [list[0]]
  {
  }

  lemma SlotsMore(lists: seq<seq<string>>, list: seq<string>)
    ensures Slots(lists + [list]) == Slots(lists)[Decimal(|lists| + 1) := list]
  {
    assert (lists + [list])[..|lists|] == lists;
  }

  method Extract(content: Members, source: Members) returns (r: Option<Answer>)
    ensures r == Extracted(content, source) && Given(content, source, r)
  {
    ExtractedIsGiven(content, source);
    var kind := KindOf(content);
    if Find(source, "is_show_answer") != Some(Boolean(true)) {
      return None;
    }
    var values := Values(Find(source, "answer"));
    match kind
    case Choice =>
      if |values| != 1 {
        return None;
      }
      var chosen := Choose(content, values);
      assert Texts(values)[..0] == [] && Distinct(Texts(values)) == [Texts(values)[0]];
      r := if chosen.Some? then Some(Answer(Choice, chosen.value[0], [], map[])) else None;
    case Multi =>
      if |values| == 0 {
        return None;
      }
      var chosen := Choose(content, values);
      r := if chosen.Some? then Some(Answer(Multi, "", SortedTexts(chosen.value), map[])) else None;
    case Judge =>
      if |values| == 0 {
        return None;
      }
      var judged := Judged(Scalar(values[0]));
      r := if judged.Some? then Some(Answer(Judge, judged.value, [], map[])) else None;
    case Fill =>
      r := FillIn(content, Fields(Find(source, "answers")));
    case Reference =>
      r := None;
  }

  // ---------------------------------------------------------------- the platform's form

  /** The members hold the lists of all keys but some. */
  ghost predicate HoldsBut(m: Members, lists: map<string, seq<string>>, keys: set<string>) {
    && Unique(m)
    && forall k :: Find(m, k) == if k in lists && k !in keys then Some(Array(TextValues(lists[k]))) else None
  }

  lemma HoldsMore(m: Members, lists: map<string, seq<string>>, keys: set<string>, key: string)
    requires HoldsBut(m, lists, keys) && key in keys && keys <= lists.Keys
    ensures HoldsBut(m + [Entry(key, Array(TextValues(lists[key])))], lists, keys - {key})
  {
    var e := Entry(key, Array(TextValues(lists[key])));
    assert Find(m, key) == None;
    forall k ensures Find(m + [e], k) == if k == key then Some(e.value) else Find(m, k) {
      FindLast(m, e, k);
    }
  }

  /** The members of a map of lists, in any order. */
  method MembersOf(lists: map<string, seq<string>>) returns (m: Members)
    ensures Unique(m) && Holds(m, lists)
  {
    m := [];
    var keys := lists.Keys;
    while keys != {}
      invariant keys <= lists.Keys && HoldsBut(m, lists, keys)
      decreases |keys|
    {
      var key :| key in keys;
      HoldsMore(m, lists, keys, key);
      m := m + [Entry(key, Array(TextValues(lists[key])))];
      keys := keys - {key};
    }
  }

  function SlotMembers(answers: seq<string>): Members {
    seq(|answers|, i requires 0 <= i < |answers| => Entry(Decimal(i + 1), Text(answers[i])))
  }

  method AnswerSource(a: Answer) returns (source: Members)
    ensures Presents(source, a)
  {
    var show := Entry("is_show_answer", Boolean(true));
    if a.kind == Fill {
      var m: Members;
      if |a.accepted| > 0 {
        m := MembersOf(a.accepted);
      } else {
        m := SingleMembers(a.answers);
      }
      source := [show, Entry("answers", Object(m))];
      TwoMembers(show, source[1]);
    } else if a.kind == Multi {
      var v := [];
      for i := 0 to |a.answers|
        invariant v == TextValues(a.answers)[..i]
      {
        v := v + [Text(a.answers[i])];
      }
      assert v == TextValues(a.answers);
      source := [show, Entry("answer", Array(v))];
      TwoMembers(show, source[1]);
    } else {
      source := [show, Entry("answer", Text(a.answer))];
      TwoMembers(show, source[1]);
    }
  }

  lemma TwoMembers(a: Entry<Json>, b: Entry<Json>)
    requires a.key != b.key
    ensures Find([a, b], a.key) == Some(a.value) && Find([a, b], b.key) == Some(b.value)
  {
    FindUnique([a, b], 0);
    FindUnique([a, b], 1);
  }

  method SingleMembers(answers: seq<string>) returns (m: Members)
    ensures Unique(m) && Holds(m, Slots(Singles(answers)))
  {
    m := [];
    for i := 0 to |answers|
      invariant |m| == i && Unique(m) && Holds(m, Slots(Singles(answers)[..i]))
      invariant forall j | 0 <= j < i :: m[j].key == Decimal(j + 1)
    {
      SingleMore(m, answers, i);
      m := m + [Entry(Decimal(i + 1), Array([Text(answers[i])]))];
    }
    assert Singles(answers)[..|answers|] == Singles(answers);
  }

  lemma SingleMore(m: Members, answers: seq<string>, i: nat)
    requires |m| == i < |answers| && Unique(m) && Holds(m, Slots(Singles(answers)[..i]))
    requires forall j | 0 <= j < i :: m[j].key == Decimal(j + 1)
    ensures var m' := m + [Entry(Decimal(i + 1), Array([Text(answers[i])]))];
      Unique(m') && Holds(m', Slots(Singles(answers)[..i + 1]))
  {
    var lists := Singles(answers);
    var e := Entry(Decimal(i + 1), Array([Text(answers[i])]));
    assert lists[..i + 1][..i] == lists[..i];
    assert TextValues(lists[i]) == [Text(answers[i])];
    forall j | 0 <= j < i ensures m[j].key != e.key {
      if Decimal(j + 1) == Decimal(i + 1) {
        DecimalIsInjective(j + 1, i + 1);
      }
    }
    forall k ensures Find(m + [e], k) ==
        if k in Slots(lists[..i + 1]) then Some(Array(TextValues(Slots(lists[..i + 1])[k]))) else None
    {
      FindLast(m, e, k);
    }
  }

  /** What is submitted: the key or keys, "true" or "false", or the first accepted text of
      each blank. */
  function BodyOf(a: Answer): Members {
    if a.kind == Fill then [Entry("answer", Text("")), Entry("answers", Object(SlotMembers(a.answers)))]
    else
      var values :=
        if a.kind == Choice then [a.answer]
        else if a.kind == Judge then [if a.answer == RIGHT then "true" else "false"]
        else a.answers;
      [Entry("answer", Array(TextValues(values))), Entry("answers", Object([]))]
  }

  method Body(a: Answer) returns (r: Members)
    ensures r == BodyOf(a)
  {
    if a.kind == Fill {
      var values: Members := [];
      for i := 0 to |a.answers|
        invariant values == SlotMembers(a.answers)[..i]
      {
        values := values + [Entry(Decimal(i + 1), Text(a.answers[i]))];
      }
      assert values == SlotMembers(a.answers);
      return [Entry("answer", Text("")), Entry("answers", Object(values))];
    }
    var values := a.answers;
    if a.kind == Choice {
      values := [a.answer];
    }
    if a.kind == Judge {
      values := [if a.answer == RIGHT then "true" else "false"];
    }
    r := [Entry("answer", Array(TextValues(values))), Entry("answers", Object([]))];
  }

  /** The two members that are submitted. */
  lemma BodyIs(a: Answer)
    ensures BodyOf(a) == [Entry("answer", BodyOf(a)[0].value), Entry("answers", BodyOf(a)[1].value)]
    ensures a.kind == Choice ==> BodyOf(a)[0].value == Array([Text(a.answer)])
    ensures a.kind == Judge ==>
      BodyOf(a)[0].value == Array([Text(if a.answer == "\U{6b63}\U{786e}" then "true" else "false")])
    ensures a.kind == Multi ==>
      var v := BodyOf(a)[0].value;
      v.Array? && |v.items| == |a.answers| && forall i | 0 <= i < |a.answers| :: v.items[i] == Text(a.answers[i])
    ensures a.kind != Fill ==> BodyOf(a)[1].value == Object([])
    ensures a.kind == Fill ==>
      var v := BodyOf(a)[1].value;
      && BodyOf(a)[0].value == Text("") && v.Object? && |v.members| == |a.answers|
      && forall i | 0 <= i < |a.answers| :: v.members[i] == Entry(Decimal(i + 1), Text(a.answers[i]))
  {
    if a.kind == Judge {
      assert TextValues(["true"]) == [Text("true")] && TextValues(["false"]) == [Text("false")];
    }
    assert a.kind == Choice ==> TextValues([a.answer]) == [Text(a.answer)];
  }

  /** A submitted answer is the stored one: if the platform shows back what was submitted,
      the same answer is extracted; of a fill-in answer, its first accepted texts. */
  lemma SubmittedIsStored(content: Members, a: Answer)
    requires Fits(content, a)
    ensures var shown := BodyOf(a) + [Entry("is_show_answer", Boolean(true))];
      Extracted(content, shown) ==
      Some(if a.kind == Fill then Answer(Fill, "", a.answers, Slots(Singles(a.answers))) else a)
  {
    ShownFinds(BodyOf(a)[0], BodyOf(a)[1]);
    var shown := BodyOf(a) + [Entry("is_show_answer", Boolean(true))];
    assert shown == [BodyOf(a)[0], BodyOf(a)[1], Entry("is_show_answer", Boolean(true))];
    match a.kind
    case Fill =>
      var lists :| FillsIn(content, a, lists);
      SubmittedLength(a.answers, lists);
      FillStored(content, shown, a.answers);
    case _ => OtherStored(content, shown, a);
  }

  lemma OtherStored(content: Members, shown: Members, a: Answer)
    requires Fits(content, a) && a.kind != Fill && Find(shown, "is_show_answer") == Some(Boolean(true))
    requires Find(shown, "answer") == Some(BodyOf(a)[0].value)
    ensures Extracted(content, shown) == Some(a)
  {
    match a.kind
    case Judge => TextsBack([if a.answer == RIGHT then "true" else "false"]);
    case Choice => TextsBack([a.answer]);
    case Multi => ChosenAgain(content, a);
  }

  lemma FillGiven(content: Members, shown: Members, m: Members, n: nat)
    requires KindOf(content) == Fill && Find(shown, "is_show_answer") == Some(Boolean(true))
    requires Find(shown, "answers") == Some(Object(m)) && n == |Merged(m)| > 0
    requires (BlankCount(content) == 0 || n == BlankCount(content)) && AllFilled(Lists(m, n))
    ensures Extracted(content, shown) == Some(FillAnswer(Lists(m, n)))
  {
  }

  lemma FillStored(content: Members, shown: Members, answers: seq<string>)
    requires KindOf(content) == Fill && Find(shown, "is_show_answer") == Some(Boolean(true))
    requires Find(shown, "answers") == Some(Object(SlotMembers(answers)))
    requires answers != [] && forall i | 0 <= i < |answers| :: answers[i] != ""
    requires BlankCount(content) == 0 || |answers| == BlankCount(content)
    ensures Extracted(content, shown) == Some(Answer(Fill, "", answers, Slots(Singles(answers))))
  {
    SubmittedFill(answers);
    FillGiven(content, shown, SlotMembers(answers), |answers|);
    SinglesAnswer(answers);
  }

  lemma SinglesAnswer(answers: seq<string>)
    requires AllFilled(Singles(answers))
    ensures FillAnswer(Singles(answers)) == Answer(Fill, "", answers, Slots(Singles(answers)))
  {
    assert Firsts(Singles(answers)) == answers;
  }

  lemma ShownFinds(answer: Entry<Json>, answers: Entry<Json>)
    requires answer.key == "answer" && answers.key == "answers"
    ensures var shown := [answer, answers, Entry("is_show_answer", Boolean(true))];
      && Find(shown, "answer") == Some(answer.value) && Find(shown, "answers") == Some(answers.value)
      && Find(shown, "is_show_answer") == Some(Boolean(true))
  {
    var shown := [answer, answers, Entry("is_show_answer", Boolean(true))];
    assert |answers.key| != |answer.key|;
    FindUnique(shown, 0);
    FindUnique(shown, 1);
    FindUnique(shown, 2);
  }

  lemma SubmittedLength(answers: seq<string>, lists: seq<seq<string>>)
    requires AllFilled(lists) && answers == Firsts(lists)
    ensures |answers| == |lists| && Firsts(Singles(answers)) == answers
  {
  }

  lemma ChosenAgain(content: Members, a: Answer)
    requires a.kind == Multi && Fits(content, a)
    ensures Texts(TextValues(a.answers)) == a.answers && SortedTexts(Distinct(a.answers)) == a.answers
  {
    TextsBack(a.answers);
    AscendingTags(a.answers);
    SortedTextsIsRight(Distinct(a.answers));
    AscendingIsUnique(SortedTexts(Distinct(a.answers)), a.answers);
  }

  lemma SubmittedFill(answers: seq<string>)
    requires forall i | 0 <= i < |answers| :: answers[i] != ""
    ensures var m := SlotMembers(answers);
      && Unique(m) && |Merged(m)| == |answers|
      && Lists(m, |answers|) == Singles(answers) && AllFilled(Singles(answers))
  {
    var m := SlotMembers(answers);
    forall i, j | 0 <= i < j < |m| ensures m[i].key != m[j].key {
      if Decimal(i + 1) == Decimal(j + 1) {
        DecimalIsInjective(i + 1, j + 1);
      }
    }
    MergingUnique(m);
    SubmittedLists(answers, |answers|);
    assert Singles(answers)[..|answers|] == Singles(answers);
  }

  lemma {:induction false} SubmittedLists(answers: seq<string>, n: nat)
    requires n <= |answers| && Unique(SlotMembers(answers))
    ensures Lists(SlotMembers(answers), n) == Singles(answers)[..n]
  {
    if n > 0 {
      SubmittedLists(answers, n - 1);
      SubmittedText(SlotMembers(answers), n, answers[n - 1]);
      SinglesMore(answers, n);
    }
  }

  lemma SinglesMore(answers: seq<string>, n: nat)
    requires 0 < n <= |answers|
    ensures Singles(answers)[..n] == Singles(answers)[..n - 1] + [[answers[n - 1]]]
  {
  }

  lemma SubmittedText(m: Members, n: nat, t: string)
    requires Unique(m) && 0 < n <= |m| && m[n - 1] == Entry(Decimal(n), Text(t))
    ensures ListAt(m, n) == [t]
  {
    FindUnique(m, n - 1);
  }
}
