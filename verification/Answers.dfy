/**
 Standard answers (internal/questions/answers.go): how an answer is taken out of what the
 platform shows, and how it is turned back into the platform's form. The platform's loose
 scalars are read as internal/platform/wire does.
 */
module Answers {
  import opened Options
  import opened Ordering
  import opened Json

  type Members = seq<Entry<Json>>

  datatype Kind = Choice | Multi | Judge | Fill | Reference

  datatype Answer = Answer(kind: Kind, answer: string, answers: seq<string>, accepted: map<string, seq<string>>)

  const RIGHT := "\U{6b63}\U{786e}"
  const WRONG := "\U{9519}\U{8bef}"

  // ---------------------------------------------------------------- loose values

  function Scalar(v: Json): string {
    match v
    case Text(t) => t
    case Numeral(t) => t
    case Boolean(b) => if b then "true" else "false"
    case _ => ""
  }

  function ScalarOf(v: Option<Json>): string {
    if v.Some? then Scalar(v.value) else ""
  }

  /** Nothing, a list, or one value. */
  function Values(v: Option<Json>): seq<Json> {
    if v.None? || v.value.Null? then []
    else if v.value.Array? then v.value.items
    else [v.value]
  }

  function Elements(v: Option<Json>): seq<Json> {
    if v.Some? && v.value.Array? then v.value.items else []
  }

  function Fields(v: Option<Json>): Members {
    if v.Some? && v.value.Object? then v.value.members else []
  }

  function Texts(values: seq<Json>): seq<string> {
    seq(|values|, i requires 0 <= i < |values| => Scalar(values[i]))
  }

  function TextValues(texts: seq<string>): seq<Json> {
    seq(|texts|, i requires 0 <= i < |texts| => Text(texts[i]))
  }

  lemma TextsBack(texts: seq<string>)
    ensures Texts(TextValues(texts)) == texts
  {
  }

  // ---------------------------------------------------------------- the question

  function KindOf(content: Members): Kind {
    var t := ScalarOf(Find(content, "Type"));
    if t == "SingleChoice" then Choice
    else if t == "MultipleChoice" || t == "MultiChoice" then Multi
    else if t == "Judgement" then Judge
    else if t == "FillBlank" then Fill
    else Reference
  }

  function BlankCount(content: Members): nat {
    var n := |Elements(Find(content, "Blanks"))|;
    if n == 0 then |Elements(Find(content, "blanks"))| else n
  }

  function OptionKeys(content: Members): seq<string> {
    var options := Elements(Find(content, "Options"));
    seq(|options|, i requires 0 <= i < |options| => ScalarOf(Find(Fields(Some(options[i])), "key")))
  }

  // ---------------------------------------------------------------- sets of texts

  predicate Ascending(s: seq<string>) {
    forall i, j | 0 <= i < j < |s| :: Below(s[i], s[j])
  }

  predicate Different(s: seq<string>) {
    forall i, j | 0 <= i < j < |s| :: s[i] != s[j]
  }

  /** The first occurrence of each text. */
  function Distinct(texts: seq<string>): (r: seq<string>)
    ensures Different(r)
    ensures forall t :: t in r <==> t in texts
  {
    if texts == [] then []
    else
      var r := Distinct(texts[..|texts| - 1]);
      var t := texts[|texts| - 1];
      assert texts == texts[..|texts| - 1] + [t];
      if t in r then r else r + [t]
  }

  function Tagged(s: seq<string>): seq<Entry<()>> {
    seq(|s|, i requires 0 <= i < |s| => Entry(s[i], ()))
  }

  function Keys<T>(s: seq<Entry<T>>): seq<string> {
    seq(|s|, i requires 0 <= i < |s| => s[i].key)
  }

  /** sort.Strings. */
  function SortedTexts(s: seq<string>): seq<string> {
    Keys(Sorted(Canonical, Tagged(s)))
  }

  lemma TagFound(s: seq<string>, t: string)
    ensures Find(Tagged(s), t) == if t in s then Some(()) else None
  {
    if t in s {
      var i :| 0 <= i < |s| && s[i] == t;
      assert Tagged(s)[i].key == t;
    }
  }

  lemma KeyFound<T>(s: seq<Entry<T>>, k: string)
    ensures k in Keys(s) <==> Find(s, k).Some?
  {
    if Find(s, k).Some? {
      assert Keys(s)[Last(s, k)] == k;
    }
  }

  lemma SortedTextsIsRight(s: seq<string>)
    requires Different(s)
    ensures Ascending(SortedTexts(s))
    ensures forall t :: t in SortedTexts(s) <==> t in s
  {
    var r := Sorted(Canonical, Tagged(s));
    SortedIsRight(Canonical, Tagged(s));
    forall i, j | 0 <= i < j < |r| ensures Below(r[i].key, r[j].key) {
      assert !Canonical.Before(r[j].key, r[i].key);
      BelowIsTotal(r[i].key, r[j].key);
    }
    forall t ensures t in Keys(r) <==> t in s {
      KeyFound(r, t);
      TagFound(s, t);
      assert Find(r, t) == Find(Tagged(s), t);
    }
  }

  /** A set of texts has one ascending listing. */
  lemma AscendingIsUnique(a: seq<string>, b: seq<string>)
    requires Ascending(a) && Ascending(b) && forall t :: t in a <==> t in b
    ensures a == b
  {
    AscendingTags(a);
    AscendingTags(b);
    forall t ensures Find(Tagged(a), t) == Find(Tagged(b), t) {
      TagFound(a, t);
      TagFound(b, t);
    }
    CanonicalIsUnique(Tagged(a), Tagged(b));
    forall i | 0 <= i < |a| ensures a[i] == b[i] {
      assert Tagged(a)[i] == Tagged(b)[i];
    }
    assert |a| == |Tagged(a)| == |Tagged(b)| == |b|;
  }

  lemma AscendingTags(a: seq<string>)
    requires Ascending(a)
    ensures InOrder(Canonical, Tagged(a)) && Unique(Tagged(a)) && Different(a)
  {
    forall i, j | 0 <= i < j < |a| ensures a[i] != a[j] && !Below(a[j], a[i]) {
      BelowIsTotal(a[i], a[j]);
    }
  }

  // ---------------------------------------------------------------- fill-in answers

  lemma {:induction false} DecimalBack(n: nat)
    ensures Number(Decimal(n)) == n
  {
    if n >= 10 {
      DecimalBack(n / 10);
      assert Decimal(n)[..|Decimal(n)| - 1] == Decimal(n / 10);
    } else {
      assert Decimal(n)[..0] == "";
    }
  }

  lemma DecimalIsInjective(m: nat, n: nat)
    requires Decimal(m) == Decimal(n)
    ensures m == n
  {
    DecimalBack(m);
    DecimalBack(n);
  }

  /** The lists of blanks 1 to n under their numbers. */
  function Slots(lists: seq<seq<string>>): map<string, seq<string>> {
    if lists == [] then map[]
    else Slots(lists[..|lists| - 1])[Decimal(|lists|) := lists[|lists| - 1]]
  }

  predicate AllFilled(lists: seq<seq<string>>) {
    forall i | 0 <= i < |lists| :: Filled(lists[i])
  }

  predicate Filled(list: seq<string>) {
    list != [] && forall j | 0 <= j < |list| :: list[j] != ""
  }

  function Firsts(lists: seq<seq<string>>): seq<string>
    requires AllFilled(lists)
  {
    seq(|lists|, i requires 0 <= i < |lists| => lists[i][0])
  }

  /** The answer that accepts the given lists, blank by blank. */
  function FillAnswer(lists: seq<seq<string>>): Answer
    requires AllFilled(lists)
  {
    Answer(Fill, "", Firsts(lists), Slots(lists))
  }

  lemma {:induction false} SlotsHave(lists: seq<seq<string>>, k: string)
    ensures k in Slots(lists) <==> exists i :: 1 <= i <= |lists| && Decimal(i) == k
  {
    if lists != [] {
      var n := |lists|;
      SlotsHave(lists[..n - 1], k);
      assert k == Decimal(n) ==> exists i :: 1 <= i <= n && Decimal(i) == k;
    }
  }

  lemma {:induction false} SlotsHold(lists: seq<seq<string>>, i: nat)
    requires 1 <= i <= |lists|
    ensures Decimal(i) in Slots(lists) && Slots(lists)[Decimal(i)] == lists[i - 1]
  {
    var n := |lists|;
    if i < n {
      SlotsHold(lists[..n - 1], i);
      NumberedOnce(n);
    }
  }

  lemma {:induction false} SlotsCount(lists: seq<seq<string>>)
    ensures |Slots(lists)| == |lists|
  {
    if lists != [] {
      var n := |lists|;
      SlotsCount(lists[..n - 1]);
      SlotsHave(lists[..n - 1], Decimal(n));
      NumberedOnce(n);
    }
  }

  lemma NumberedOnce(n: nat)
    ensures forall i: nat | Decimal(i) == Decimal(n) :: i == n
  {
    forall i: nat | Decimal(i) == Decimal(n) ensures i == n {
      DecimalIsInjective(i, n);
    }
  }

  // ---------------------------------------------------------------- extraction

  predicate Known(content: Members, texts: seq<string>) {
    forall i | 0 <= i < |texts| :: texts[i] != "" && texts[i] in OptionKeys(content)
  }

  /** The texts accepted for a blank. */
  function ListAt(m: Members, n: nat): seq<string> {
    Texts(Values(Find(m, Decimal(n))))
  }

  /** The texts accepted for blanks 1 to n. */
  function Lists(m: Members, n: nat): (r: seq<seq<string>>)
    ensures |r| == n
  {
    if n == 0 then [] else Lists(m, n - 1) + [ListAt(m, n)]
  }

  lemma {:induction false} ListsGrow(m: Members, k: nat, n: nat)
    requires 0 < k <= n
    ensures Lists(m, n)[k - 1] == ListAt(m, k)
  {
    if k < n {
      ListsGrow(m, k, n - 1);
    }
  }

  function Judged(t: string): Option<string> {
    if t == "true" || t == "1" || t == RIGHT then Some(RIGHT)
    else if t == "false" || t == "0" || t == WRONG then Some(WRONG)
    else None
  }

  /** The standard answer that the platform shows, if it shows one that fits the question. */
  function Extracted(content: Members, source: Members): Option<Answer> {
    var kind := KindOf(content);
    var texts := Texts(Values(Find(source, "answer")));
    if Find(source, "is_show_answer") != Some(Boolean(true)) then None
    else
      match kind
      case Choice =>
        if |texts| == 1 && Known(content, texts) then Some(Answer(Choice, texts[0], [], map[])) else None
      case Multi =>
        if texts != [] && Known(content, texts) then Some(Answer(Multi, "", SortedTexts(Distinct(texts)), map[]))
        else None
      case Judge =>
        if texts == [] || Judged(texts[0]).None? then None
        else Some(Answer(Judge, Judged(texts[0]).value, [], map[]))
      case Fill =>
        var m := Fields(Find(source, "answers"));
        var n := |Merged(m)|;
        if n == 0 || (BlankCount(content) > 0 && n != BlankCount(content)) || !AllFilled(Lists(m, n)) then None
        else Some(FillAnswer(Lists(m, n)))
      case Reference => None
  }

  /** The answers that can come out of an extraction for a question, described without one. */
  ghost predicate Fits(content: Members, a: Answer) {
    && a.kind == KindOf(content)
    && match a.kind
       case Choice => Known(content, [a.answer]) && a == Answer(Choice, a.answer, [], map[])
       case Multi => a.answers != [] && Ascending(a.answers) && Known(content, a.answers)
         && a == Answer(Multi, "", a.answers, map[])
       case Judge => (a.answer == RIGHT || a.answer == WRONG) && a == Answer(Judge, a.answer, [], map[])
       case Fill => exists lists: seq<seq<string>> :: FillsIn(content, a, lists)
       case Reference => false
  }

  predicate FillsIn(content: Members, a: Answer, lists: seq<seq<string>>) {
    lists != [] && AllFilled(lists) && a == FillAnswer(lists)
      && (BlankCount(content) == 0 || |lists| == BlankCount(content))
  }

  lemma ExtractedFits(content: Members, source: Members)
    requires Extracted(content, source).Some?
    ensures Fits(content, Extracted(content, source).value)
  {
    if KindOf(content) == Multi {
      ChosenFit(content, Texts(Values(Find(source, "answer"))));
    } else if KindOf(content) == Fill {
      FilledFits(content, source);
    }
  }

  lemma FilledFits(content: Members, source: Members)
    requires KindOf(content) == Fill && Extracted(content, source).Some?
    ensures Fits(content, Extracted(content, source).value)
  {
    var m := Fields(Find(source, "answers"));
    assert FillsIn(content, Extracted(content, source).value, Lists(m, |Merged(m)|));
  }

  lemma ChosenFit(content: Members, texts: seq<string>)
    requires texts != [] && Known(content, texts)
    ensures var r := SortedTexts(Distinct(texts));
      r != [] && Ascending(r) && Known(content, r)
  {
    var r := SortedTexts(Distinct(texts));
    SortedTextsIsRight(Distinct(texts));
    assert texts[0] in Distinct(texts) && texts[0] in r;
    forall i | 0 <= i < |r| ensures r[i] != "" && r[i] in OptionKeys(content) {
      assert r[i] in r && r[i] in Distinct(texts) && r[i] in texts;
    }
  }

  /** The answer to a multiple choice does not depend on the order or the repetition of its
      keys. */
  lemma MultiIsASet(content: Members, s: Members, t: Members)
    requires KindOf(content) == Multi && Extracted(content, s).Some? && Extracted(content, t).Some?
    ensures Extracted(content, s) == Extracted(content, t) <==>
      forall k :: k in Texts(Values(Find(s, "answer"))) <==> k in Texts(Values(Find(t, "answer")))
  {
    var x, y := Texts(Values(Find(s, "answer"))), Texts(Values(Find(t, "answer")));
    var a, b := SortedTexts(Distinct(x)), SortedTexts(Distinct(y));
    SortedTextsIsRight(Distinct(x));
    SortedTextsIsRight(Distinct(y));
    forall k ensures (k in a <==> k in x) && (k in b <==> k in y) {
    }
    if forall k :: k in x <==> k in y {
      AscendingIsUnique(a, b);
    }
    if a == b {
      forall k ensures k in x <==> k in y {
        assert k in a <==> k in b;
      }
    }
  }

  // ---------------------------------------------------------------- the platform's form

  /** A source that says what the answer is, as AnswerSource builds it; the order of its
      members has no meaning. */
  ghost predicate Presents(source: Members, a: Answer) {
    && Find(source, "is_show_answer") == Some(Boolean(true))
    && if a.kind == Fill then
         var m := Fields(Find(source, "answers"));
         Unique(m) && Holds(m, if |a.accepted| > 0 then a.accepted else Slots(Singles(a.answers)))
       else if a.kind == Multi then Find(source, "answer") == Some(Array(TextValues(a.answers)))
       else Find(source, "answer") == Some(Text(a.answer))
  }

  ghost predicate Holds(m: Members, lists: map<string, seq<string>>) {
    forall k :: Find(m, k) == if k in lists then Some(Array(TextValues(lists[k]))) else None
  }

  function Singles(answers: seq<string>): seq<seq<string>> {
    seq(|answers|, i requires 0 <= i < |answers| => [answers[i]])
  }

  lemma {:induction false} CountKeys<T>(m: seq<Entry<T>>, keys: set<string>)
    requires Unique(m) && forall k :: k in keys <==> Last(m, k) >= 0
    ensures |m| == |keys|
  {
    if m == [] {
      assert keys == {};
    } else {
      var init := m[..|m| - 1];
      var last := m[|m| - 1].key;
      assert m == init + [m[|m| - 1]];
      forall k ensures k in keys - {last} <==> Last(init, k) >= 0 {
        FindLast(init, m[|m| - 1], k);
      }
      assert Last(m, last) >= 0;
      CountKeys(init, keys - {last});
    }
  }

  lemma CountHeld(m: Members, lists: map<string, seq<string>>)
    requires Unique(m) && Holds(m, lists)
    ensures |Merged(m)| == |lists|
  {
    forall k ensures k in lists.Keys <==> Last(m, k) >= 0 {
      assert Find(m, k) == if k in lists then Some(Array(TextValues(lists[k]))) else None;
    }
    CountKeys(m, lists.Keys);
    MergingUnique(m);
  }

  lemma SlotIs(lists: seq<seq<string>>, i: nat)
    requires i < |lists|
    ensures Decimal(i + 1) in Slots(lists) && Slots(lists)[Decimal(i + 1)] == lists[i]
  {
    SlotsHold(lists, i + 1);
  }

  lemma ListIs(m: Members, n: nat, list: seq<string>)
    requires Find(m, Decimal(n)) == Some(Array(TextValues(list)))
    ensures ListAt(m, n) == list
  {
    TextsBack(list);
  }

  lemma ListHeld(m: Members, lists: seq<seq<string>>, i: nat)
    requires Holds(m, Slots(lists)) && i < |lists|
    ensures ListAt(m, i + 1) == lists[i]
  {
    SlotIs(lists, i);
    ListIs(m, i + 1, lists[i]);
  }

  lemma {:induction false} AllHeld(m: Members, lists: seq<seq<string>>, n: nat)
    requires Holds(m, Slots(lists)) && n <= |lists|
    ensures Lists(m, n) == lists[..n]
  {
    if n > 0 {
      AllHeld(m, lists, n - 1);
      ListHeld(m, lists, n - 1);
      assert lists[..n] == lists[..n - 1] + [lists[n - 1]];
    }
  }

  /** Turning an answer into the platform's form and extracting it again gives it back. */
  lemma SourceThenExtract(content: Members, source: Members, a: Answer)
    requires Fits(content, a) && Presents(source, a)
    ensures Extracted(content, source) == Some(a)
  {
    match a.kind
    case Choice =>
      assert Texts([Text(a.answer)]) == [a.answer];
    case Multi =>
      TextsBack(a.answers);
      AscendingTags(a.answers);
      SortedTextsIsRight(Distinct(a.answers));
      AscendingIsUnique(SortedTexts(Distinct(a.answers)), a.answers);
    case Judge =>
      assert Texts([Text(a.answer)]) == [a.answer];
    case Fill =>
      var lists :| FillsIn(content, a, lists);
      SlotsCount(lists);
      CountHeld(Fields(Find(source, "answers")), Slots(lists));
      var m := Fields(Find(source, "answers"));
      AllHeld(m, lists, |lists|);
      assert lists[..|lists|] == lists;
  }

  /** The answer could come out of an extraction, for some question. */
  ghost predicate Possible(a: Answer) {
    exists content: Members :: Fits(content, a)
  }

  /** Written in the platform's form, an answer is extracted for a question of its kind
      exactly if it fits the question. */
  lemma SourceDecides(content: Members, source: Members, a: Answer)
    requires Possible(a) && Presents(source, a) && a.kind == KindOf(content)
    ensures Extracted(content, source) == Some(a) <==> Fits(content, a)
    ensures Extracted(content, source) == None <==> !Fits(content, a)
  {
    if Fits(content, a) {
      SourceThenExtract(content, source, a);
    } else {
      var c: Members :| Fits(c, a);
      if a.kind == Fill {
        var lists :| FillsIn(c, a, lists);
        assert !FillsIn(content, a, lists);
        FillRefused(content, source, a, lists);
      } else {
        OtherRefused(content, source, a, c);
      }
    }
  }

  lemma FillRefused(content: Members, source: Members, a: Answer, lists: seq<seq<string>>)
    requires KindOf(content) == Fill && Presents(source, a) && lists != [] && AllFilled(lists) && a == FillAnswer(lists)
    requires !(BlankCount(content) == 0 || |lists| == BlankCount(content))
    ensures Extracted(content, source) == None
  {
    SlotsCount(lists);
    CountHeld(Fields(Find(source, "answers")), Slots(lists));
  }

  lemma OtherRefused(content: Members, source: Members, a: Answer, c: Members)
    requires a.kind != Fill && Fits(c, a) && !Fits(content, a) && Presents(source, a) && a.kind == KindOf(content)
    ensures Extracted(content, source) == None
  {
    match a.kind
    case Choice => TextsBack([a.answer]);
    case Multi => TextsBack(a.answers);
    case Judge =>
  }
}
