/**
 What the extraction of a standard answer means (internal/questions/answers.go:14-57,
 66-131), in terms of the members of the question's content and of the source that the
 platform shows, with the keys and words as they are written there.
 */
module AnswerMeanings {
  import opened Options
  import opened Ordering
  import opened Json
  import opened Answers

  /** v is read as the text t. */
  predicate Reads(v: Json, t: string) {
    match v
    case Text(u) => t == u
    case Numeral(u) => t == u
    case Boolean(b) => (b && t == "true") || (!b && t == "false")
    case _ => t == ""
  }

  /** v is read as the list texts: nothing, an array, or one value. */
  predicate ReadsAll(v: Option<Json>, texts: seq<string>) {
    if v == None || v == Some(Null) then texts == []
    else if v.value.Array? then
      |texts| == |v.value.items| && forall i | 0 <= i < |texts| :: Reads(v.value.items[i], texts[i])
    else |texts| == 1 && Reads(v.value, texts[0])
  }

  predicate TypeIs(content: Members, name: string) {
    var v := Find(content, "Type");
    v.Some? && Reads(v.value, name)
  }

  /** k is the key of one of the question's options. */
  predicate IsOption(content: Members, k: string) {
    var v := Find(content, "Options");
    k != "" && v.Some? && v.value.Array? && exists i | 0 <= i < |v.value.items| :: HasKey(v.value.items[i], k)
  }

  predicate HasKey(option: Json, k: string) {
    && option.Object? && Find(option.members, "key").Some?
    && Reads(Find(option.members, "key").value, k)
  }

  predicate AllOptions(content: Members, texts: seq<string>) {
    forall i | 0 <= i < |texts| :: IsOption(content, texts[i])
  }

  /** n blanks may be filled in: as many as there are in the first of the two lists that is
      not empty, or any number if both are. */
  predicate BlanksAllow(content: Members, n: nat) {
    var upper, lower := Find(content, "Blanks"), Find(content, "blanks");
    if upper.Some? && upper.value.Array? && upper.value.items != [] then n == |upper.value.items|
    else if lower.Some? && lower.value.Array? && lower.value.items != [] then n == |lower.value.items|
    else true
  }

  function KeySet(m: Members): set<string> {
    set i | 0 <= i < |m| :: m[i].key
  }

  /** "1" to n. */
  function Numbers(n: nat): set<string> {
    set i | 1 <= i <= n :: Decimal(i)
  }

  /** For blank i, a takes the texts that m lists under the number, and gives the first. */
  predicate NumberedAt(m: Members, a: Answer, i: nat) {
    && 1 <= i <= |a.answers| && Decimal(i) in a.accepted
    && var list := a.accepted[Decimal(i)];
       ReadsAll(Find(m, Decimal(i)), list) && list != [] && "" !in list && a.answers[i - 1] == list[0]
  }

  /** a takes what m lists for each of n blanks. */
  predicate Numbered(m: Members, a: Answer, n: nat) {
    |a.answers| == n && a.accepted.Keys == Numbers(n) && forall i | 1 <= i <= n :: NumberedAt(m, a, i)
  }

  /** a is the answer that a source showing texts under "answer" gives to the question. */
  ghost predicate Means(content: Members, source: Members, texts: seq<string>, a: Answer) {
    || (TypeIs(content, "SingleChoice") && |texts| == 1 && AllOptions(content, texts)
        && a == Answer(Choice, texts[0], [], map[]))
    || ((TypeIs(content, "MultipleChoice") || TypeIs(content, "MultiChoice"))
        && texts != [] && AllOptions(content, texts) && Ascending(a.answers)
        && (forall k :: k in a.answers <==> k in texts) && a == Answer(Multi, "", a.answers, map[]))
    || (TypeIs(content, "Judgement") && texts != [] && texts[0] in ["true", "1", "\U{6b63}\U{786e}"]
        && a == Answer(Judge, "\U{6b63}\U{786e}", [], map[]))
    || (TypeIs(content, "Judgement") && texts != [] && texts[0] in ["false", "0", "\U{9519}\U{8bef}"]
        && a == Answer(Judge, "\U{9519}\U{8bef}", [], map[]))
    || (TypeIs(content, "FillBlank") && Find(source, "answers").Some? && Find(source, "answers").value.Object?
        && var m := Find(source, "answers").value.members;
           KeySet(m) != {} && BlanksAllow(content, |KeySet(m)|) && Numbered(m, a, |KeySet(m)|)
           && a == Answer(Fill, "", a.answers, a.accepted))
  }

  // ---------------------------------------------------------------- readings

  lemma ReadsIs(v: Json, t: string)
    ensures Reads(v, t) <==> Scalar(v) == t
  {
  }

  lemma ReadsAllIs(v: Option<Json>, texts: seq<string>)
    ensures ReadsAll(v, texts) <==> Texts(Values(v)) == texts
  {
    var values := Values(v);
    forall i | 0 <= i < |values| && i < |texts| ensures Reads(values[i], texts[i]) <==> Texts(values)[i] == texts[i] {
      ReadsIs(values[i], texts[i]);
    }
    if Texts(values) == texts {
      forall i | 0 <= i < |values| ensures Reads(values[i], texts[i]) {
      }
    }
  }

  lemma KindIs(content: Members)
    ensures KindOf(content).Choice? <==> TypeIs(content, "SingleChoice")
    ensures KindOf(content).Multi? <==> TypeIs(content, "MultipleChoice") || TypeIs(content, "MultiChoice")
    ensures KindOf(content).Judge? <==> TypeIs(content, "Judgement")
    ensures KindOf(content).Fill? <==> TypeIs(content, "FillBlank")
  {
  }

  lemma OptionIs(content: Members, k: string)
    ensures IsOption(content, k) <==> k != "" && k in OptionKeys(content)
  {
    var options := Elements(Find(content, "Options"));
    var keys := OptionKeys(content);
    if k != "" {
      forall i | 0 <= i < |options| ensures HasKey(options[i], k) <==> keys[i] == k {
        var found := Find(Fields(Some(options[i])), "key");
        if found.Some? {
          ReadsIs(found.value, k);
        }
      }
    }
  }

  lemma OptionsAre(content: Members, texts: seq<string>)
    ensures AllOptions(content, texts) <==> Known(content, texts)
  {
    forall i | 0 <= i < |texts|
      ensures IsOption(content, texts[i]) <==> texts[i] != "" && texts[i] in OptionKeys(content)
    {
      OptionIs(content, texts[i]);
    }
  }

  // ---------------------------------------------------------------- numbered blanks

  lemma KeysCounted(m: Members)
    ensures |Merged(m)| == |KeySet(m)|
  {
    forall k ensures k in KeySet(m) <==> Last(Merged(m), k) >= 0 {
      MergingKeepsContent(m, k);
      assert Find(Merged(m), k).Some? <==> Find(m, k).Some?;
    }
    CountKeys(Merged(m), KeySet(m));
  }

  lemma BlanksAre(content: Members, n: nat)
    ensures BlanksAllow(content, n) <==> BlankCount(content) == 0 || n == BlankCount(content)
  {
  }

  lemma ListFits(m: Members, i: nat, list: seq<string>)
    ensures ReadsAll(Find(m, Decimal(i)), list) && list != [] && "" !in list <==>
      ListAt(m, i) == list && Filled(list)
  {
    ReadsAllIs(Find(m, Decimal(i)), list);
    if Filled(list) {
      assert "" !in list;
    }
  }

  lemma SlotKeys(lists: seq<seq<string>>)
    ensures Slots(lists).Keys == Numbers(|lists|)
  {
    forall k ensures k in Slots(lists).Keys <==> k in Numbers(|lists|) {
      SlotsHave(lists, k);
    }
  }

  /** Blank i of the answer that accepts the lists. */
  lemma NumberedOne(m: Members, a: Answer, n: nat, i: nat)
    requires 1 <= i <= n && |a.answers| == n && Decimal(i) in a.accepted
    ensures var list := Lists(m, n)[i - 1];
      NumberedAt(m, a, i) <==> a.accepted[Decimal(i)] == list && Filled(list) && a.answers[i - 1] == list[0]
  {
    ListFits(m, i, a.accepted[Decimal(i)]);
    ListsGrow(m, i, n);
  }

  lemma NumberedOf(m: Members, n: nat)
    requires AllFilled(Lists(m, n))
    ensures Numbered(m, FillAnswer(Lists(m, n)), n)
  {
    var lists := Lists(m, n);
    var a := FillAnswer(lists);
    SlotKeys(lists);
    forall i | 1 <= i <= n ensures NumberedAt(m, a, i) {
      SlotsHold(lists, i);
      assert Filled(lists[i - 1]);
      NumberedOne(m, a, n, i);
    }
  }

  lemma NumberedIs(m: Members, a: Answer, n: nat)
    requires Numbered(m, a, n)
    ensures AllFilled(Lists(m, n)) && a.answers == Firsts(Lists(m, n)) && a.accepted == Slots(Lists(m, n))
  {
    var lists := Lists(m, n);
    forall j | 0 <= j < n ensures Filled(lists[j]) && a.answers[j] == lists[j][0] {
      assert NumberedAt(m, a, j + 1);
      NumberedOne(m, a, n, j + 1);
    }
    SlotKeys(lists);
    forall k | k in Numbers(n) ensures a.accepted[k] == Slots(lists)[k] {
      var i :| 1 <= i <= n && Decimal(i) == k;
      assert NumberedAt(m, a, i);
      NumberedOne(m, a, n, i);
      SlotsHold(lists, i);
    }
  }

  // ---------------------------------------------------------------- the answer

  lemma ChosenMeans(content: Members, source: Members, texts: seq<string>, a: Answer)
    requires ReadsAll(Find(source, "answer"), texts) && Find(source, "is_show_answer") == Some(Boolean(true))
    requires KindOf(content).Choice? || KindOf(content).Multi?
    ensures Extracted(content, source) == Some(a) <==> Means(content, source, texts, a)
  {
    KindIs(content);
    ReadsAllIs(Find(source, "answer"), texts);
    OptionsAre(content, texts);
    if KindOf(content).Multi? {
      var r := SortedTexts(Distinct(texts));
      SortedTextsIsRight(Distinct(texts));
      assert forall k :: k in r <==> k in texts;
      if Ascending(a.answers) && forall k :: k in a.answers <==> k in texts {
        AscendingIsUnique(r, a.answers);
      }
    }
  }

  lemma JudgedMeans(content: Members, source: Members, texts: seq<string>, a: Answer)
    requires ReadsAll(Find(source, "answer"), texts) && Find(source, "is_show_answer") == Some(Boolean(true))
    requires KindOf(content).Judge? || KindOf(content).Reference?
    ensures Extracted(content, source) == Some(a) <==> Means(content, source, texts, a)
  {
    KindIs(content);
    ReadsAllIs(Find(source, "answer"), texts);
  }

  lemma FilledMeans(content: Members, source: Members, texts: seq<string>, a: Answer)
    requires Find(source, "is_show_answer") == Some(Boolean(true)) && KindOf(content).Fill?
    ensures Extracted(content, source) == Some(a) <==> Means(content, source, texts, a)
  {
    KindIs(content);
    var m := Fields(Find(source, "answers"));
    var n := |KeySet(m)|;
    KeysCounted(m);
    BlanksAre(content, n);
    if AllFilled(Lists(m, n)) {
      NumberedOf(m, n);
    }
    if Numbered(m, a, n) {
      NumberedIs(m, a, n);
    }
  }

  /** A source gives an answer exactly if it says that it shows one and that is what it means
      for the question. */
  lemma ExtractionMeans(content: Members, source: Members, texts: seq<string>, a: Answer)
    requires ReadsAll(Find(source, "answer"), texts)
    ensures Extracted(content, source) == Some(a) <==>
      Find(source, "is_show_answer") == Some(Boolean(true)) && Means(content, source, texts, a)
  {
    if Find(source, "is_show_answer") == Some(Boolean(true)) {
      match KindOf(content) {
        case Choice => ChosenMeans(content, source, texts, a);
        case Multi => ChosenMeans(content, source, texts, a);
        case Judge => JudgedMeans(content, source, texts, a);
        case Fill => FilledMeans(content, source, texts, a);
        case Reference => JudgedMeans(content, source, texts, a);
      }
    }
  }

  /** r is what the source gives for the question. */
  ghost predicate Given(content: Members, source: Members, r: Option<Answer>) {
    forall texts, a | ReadsAll(Find(source, "answer"), texts) :: r == Some(a) <==>
      Find(source, "is_show_answer") == Some(Boolean(true)) && Means(content, source, texts, a)
  }

  lemma ExtractedIsGiven(content: Members, source: Members)
    ensures Given(content, source, Extracted(content, source))
  {
    forall texts, a | ReadsAll(Find(source, "answer"), texts)
      ensures Extracted(content, source) == Some(a) <==>
        Find(source, "is_show_answer") == Some(Boolean(true)) && Means(content, source, texts, a)
    {
      ExtractionMeans(content, source, texts, a);
    }
  }

  /** Every source shows some list of texts under "answer", and only one. */
  lemma ReadsOneList(v: Option<Json>)
    ensures exists texts :: ReadsAll(v, texts)
    ensures forall texts, texts' | ReadsAll(v, texts) && ReadsAll(v, texts') :: texts == texts'
  {
    ReadsAllIs(v, Texts(Values(v)));
    forall texts, texts' | ReadsAll(v, texts) && ReadsAll(v, texts') ensures texts == texts' {
      ReadsAllIs(v, texts);
      ReadsAllIs(v, texts');
    }
  }
}
