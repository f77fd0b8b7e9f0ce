/**
 How a question is fingerprinted (internal/questions/fingerprint.go): the token by token
 printing of a JSON text, and the normalized question that is hashed. The hash is a
 parameter, and so is the platform client's notion of a truthy value.
 */
module Fingerprints {
  import opened Options
  import opened Ordering
  import opened Json
  import opened JsonLaws
  import opened Canonicals
  import opened RawTexts

  // ---------------------------------------------------------------- tokens

  datatype Token = NullToken | BooleanToken(value: bool) | StringToken(text: string) | NumeralToken(token: string)
    | Delimiter(c: char)

  /** What the decoder hands out for a value. */
  function Tokens(v: Json): (r: seq<Token>)
    ensures r != [] && r[0] != Delimiter(']') && r[0] != Delimiter('}')
    decreases v, 0
  {
    match v
    case Null => [NullToken]
    case Boolean(b) => [BooleanToken(b)]
    case Text(t) => [StringToken(t)]
    case Numeral(t) => [NumeralToken(t)]
    case Array(items) => [Delimiter('[')] + ItemTokens(items) + [Delimiter(']')]
    case Object(members) => [Delimiter('{')] + MemberTokens(members) + [Delimiter('}')]
  }

  function ItemTokens(items: seq<Json>): seq<Token>
    decreases items
  {
    if items == [] then [] else Tokens(items[0]) + ItemTokens(items[1..])
  }

  function MemberTokens(members: seq<Entry<Json>>): seq<Token>
    decreases members
  {
    if members == [] then []
    else [StringToken(members[0].key)] + Tokens(members[0].value) + MemberTokens(members[1..])
  }

  class Decoder {
    var tokens: seq<Token>

    constructor (v: Json)
      ensures tokens == Tokens(v)
    {
      tokens := Tokens(v);
    }

    method Token() returns (t: Token)
      requires tokens != []
      modifies this
      ensures t == old(tokens[0]) && tokens == old(tokens[1..])
    {
      t := tokens[0];
      tokens := tokens[1..];
    }

    predicate More()
      reads this
    {
      tokens != [] && tokens[0] != Delimiter(']') && tokens[0] != Delimiter('}')
    }
  }

  // ---------------------------------------------------------------- printing

  lemma EscapeMore(s: string, i: nat, before: string, after: string)
    requires i < |s| && before == "\"" + EscapedAll(s[..i]) && after == before + Escaped(s[i])
    ensures after == "\"" + EscapedAll(s[..i + 1])
  {
    assert s[..i + 1][..i] == s[..i];
    JsonLaws.Joined("\"", EscapedAll(s[..i]), Escaped(s[i]));
  }

  method Quote(s: string) returns (r: string)
    ensures r == Quoted(s)
  {
    r := "\"";
    var i := 0;
    while i < |s|
      invariant 0 <= i <= |s|
      invariant r == "\"" + EscapedAll(s[..i])
    {
      ghost var before := r;
      r := r + Escaped(s[i]);
      EscapeMore(s, i, before, r);
      i := i + 1;
    }
    assert s[..i] == s;
    r := r + "\"";
  }

  /** strings.Join with a comma. */
  function Separated(parts: seq<string>): string {
    if parts == [] then ""
    else if |parts| == 1 then parts[0]
    else parts[0] + "," + Separated(parts[1..])
  }

  function Printed(order: Order, form: Forms, v: Json): string
    requires Readable(form, v)
  {
    Print(Normal(order, form, v))
  }

  function PrintedItems(order: Order, form: Forms, items: seq<Json>): seq<string>
    requires ReadableItems(form, items)
  {
    seq(|items|, i requires 0 <= i < |items| => Printed(order, form, items[i]))
  }

  function PrintedMembers(order: Order, form: Forms, members: seq<Entry<Json>>): seq<Entry<string>>
    requires ReadableAll(form, members)
  {
    seq(|members|, i requires 0 <= i < |members| => Entry(members[i].key, Printed(order, form, members[i].value)))
  }

  lemma {:induction false} JoinItems(items: seq<Json>, parts: seq<string>)
    requires |parts| == |items| && forall i | 0 <= i < |items| :: parts[i] == Print(items[i])
    ensures Separated(parts) == PrintItems(items)
  {
    if |items| > 1 {
      JoinItems(items[1..], parts[1..]);
    }
  }

  lemma {:induction false} JoinMembers(members: seq<Entry<Json>>, parts: seq<string>)
    requires |parts| == |members|
    requires forall i | 0 <= i < |members| :: parts[i] == Quoted(members[i].key) + ":" + Print(members[i].value)
    ensures Separated(parts) == PrintMembers(members)
  {
    if |members| > 1 {
      JoinMembers(members[1..], parts[1..]);
    }
  }

  lemma ArrayPrinted(order: Order, form: Forms, items: seq<Json>)
    requires Readable(form, Array(items))
    ensures "[" + Separated(PrintedItems(order, form, items)) + "]" == Printed(order, form, Array(items))
  {
    JoinItems(Normal(order, form, Array(items)).items, PrintedItems(order, form, items));
  }

  /** Merging and sorting printed members prints the merged and sorted members. */
  lemma MembersPrinted(order: Order, form: Forms, members: seq<Entry<Json>>)
    requires ReadableAll(form, members)
    ensures Sorted(order, Merged(PrintedMembers(order, form, members)))
         == Mapped(Print, Normal(order, form, Object(members)).members)
  {
    var n := NormalMembers(order, form, members);
    assert PrintedMembers(order, form, members) == Mapped(Print, n);
    MergingMapped(Print, n);
    SortingMapped(Print, order, Merged(n));
  }

  lemma TokensInside(v: Json, tail: seq<Token>)
    requires v.Array? || v.Object?
    ensures v.Array? ==> Tokens(v)[1..] + tail == ItemTokens(v.items) + ([Delimiter(']')] + tail)
    ensures v.Object? ==> Tokens(v)[1..] + tail == MemberTokens(v.members) + ([Delimiter('}')] + tail)
  {
  }

  lemma NextItem(items: seq<Json>, i: nat, tail: seq<Token>)
    requires i <= |items|
    ensures ItemTokens([]) + tail == tail
    ensures i < |items| ==>
      ItemTokens(items[i..]) + tail == Tokens(items[i]) + (ItemTokens(items[i + 1..]) + tail)
  {
    if i < |items| {
      assert items[i..][1..] == items[i + 1..];
    }
  }

  predicate ReadableItems(form: Forms, items: seq<Json>) {
    Readable(form, Array(items))
  }

  lemma ItemsMore(order: Order, form: Forms, items: seq<Json>, i: nat)
    requires i < |items| && ReadableItems(form, items[..i]) && Readable(form, items[i])
    ensures ReadableItems(form, items[..i + 1])
    ensures PrintedItems(order, form, items[..i + 1])
         == PrintedItems(order, form, items[..i]) + [Printed(order, form, items[i])]
  {
  }

  lemma Unreadable(form: Forms, items: seq<Json>, i: nat)
    requires i < |items| && !Readable(form, items[i])
    ensures !ReadableItems(form, items)
  {
  }

  /** The values up to the closing bracket, in brackets and separated by commas. */
  method ReadArray(d: Decoder, order: Order, form: Forms, ghost items: seq<Json>, ghost tail: seq<Token>)
    returns (r: Option<string>)
    requires d.tokens == ItemTokens(items) + ([Delimiter(']')] + tail)
    modifies d
    ensures r.Some? <==> ReadableItems(form, items)
    ensures r.Some? ==> r.value == "[" + Separated(PrintedItems(order, form, items)) + "]" && d.tokens == tail
    decreases items, 0
  {
    var values := [];
    ghost var i := 0;
    ghost var close := [Delimiter(']')] + tail;
    assert items[0..] == items;
    while d.More()
      invariant i <= |items| && d.tokens == ItemTokens(items[i..]) + close
      invariant ReadableItems(form, items[..i]) && values == PrintedItems(order, form, items[..i])
      decreases |items| - i
    {
      NextItem(items, i, close);
      assert i < |items|;
      var value := ReadValue(d, order, form, items[i], ItemTokens(items[i + 1..]) + close);
      if value.None? {
        Unreadable(form, items, i);
        return None;
      }
      ItemsMore(order, form, items, i);
      values := values + [value.value];
      i := i + 1;
    }
    NextItem(items, i, close);
    assert i == |items| && items[..i] == items;
    var _ := d.Token();
    r := Some("[" + Separated(values) + "]");
  }

  lemma NextMember(members: seq<Entry<Json>>, i: nat, tail: seq<Token>)
    requires i <= |members|
    ensures MemberTokens([]) + tail == tail
    ensures i < |members| ==>
      MemberTokens(members[i..]) + tail
      == [StringToken(members[i].key)] + (Tokens(members[i].value) + (MemberTokens(members[i + 1..]) + tail))
  {
    if i < |members| {
      assert members[i..][1..] == members[i + 1..];
    }
  }

  /** Each key seen so far, and its place among the pairs. */
  ghost predicate Indexed(seen: map<string, nat>, pairs: seq<Entry<string>>) {
    forall k :: if k in seen then seen[k] == Position(pairs, k) < |pairs| else Position(pairs, k) == |pairs|
  }

  /** The members up to the closing brace, merged and sorted. */
  method ReadObject(d: Decoder, order: Order, form: Forms, ghost members: seq<Entry<Json>>, ghost tail: seq<Token>)
    returns (r: Option<string>)
    requires d.tokens == MemberTokens(members) + ([Delimiter('}')] + tail)
    modifies d
    ensures r.Some? <==> Readable(form, Object(members))
    ensures r.Some? ==> r.value == Printed(order, form, Object(members)) && d.tokens == tail
    decreases members, 1
  {
    var pairs: seq<Entry<string>> := [];
    var seen: map<string, nat> := map[];
    ghost var i := 0;
    ghost var close := [Delimiter('}')] + tail;
    assert members[0..] == members;
    while d.More()
      invariant i <= |members| && d.tokens == MemberTokens(members[i..]) + close
      invariant ReadableAll(form, members[..i]) && pairs == Merged(PrintedMembers(order, form, members[..i]))
      invariant Indexed(seen, pairs)
      decreases |members| - i
    {
      NextMember(members, i, close);
      assert i < |members|;
      var key := d.Token();
      var value := ReadValue(d, order, form, members[i].value, MemberTokens(members[i + 1..]) + close);
      if value.None? {
        return None;
      }
      pairs, seen := AddPair(pairs, seen, Entry(key.text, value.value));
      PrintedMore(order, form, members, i);
      i := i + 1;
    }
    NextMember(members, i, close);
    assert i == |members| && members[..i] == members;
    var _ := d.Token();
    var parts := PrintPairs(Sorted(order, pairs));
    MembersPrinted(order, form, members);
    PairsPrinted(Normal(order, form, Object(members)).members, parts);
    r := Some("{" + Separated(parts) + "}");
  }

  /** A repeated key overwrites the value in place. */
  method AddPair(pairs: seq<Entry<string>>, seen: map<string, nat>, e: Entry<string>)
    returns (pairs': seq<Entry<string>>, seen': map<string, nat>)
    requires Indexed(seen, pairs)
    ensures pairs' == MergedWith(pairs, e) && Indexed(seen', pairs')
  {
    if e.key in seen {
      pairs', seen' := pairs[seen[e.key] := e], seen;
      forall k ensures Position(pairs', k) == Position(pairs, k) {
        LastByKeys(pairs', pairs, k);
      }
    } else {
      pairs', seen' := pairs + [e], seen[e.key := |pairs|];
      forall k
        ensures Position(pairs', k) ==
          if Position(pairs, k) < |pairs| || e.key == k then Position(pairs, k) else |pairs| + 1
      {
        PositionGrows(pairs, e, k);
      }
    }
  }

  lemma PrintedMore(order: Order, form: Forms, members: seq<Entry<Json>>, i: nat)
    requires i < |members| && ReadableAll(form, members[..i]) && Readable(form, members[i].value)
    ensures ReadableAll(form, members[..i + 1])
    ensures Merged(PrintedMembers(order, form, members[..i + 1]))
         == MergedWith(Merged(PrintedMembers(order, form, members[..i])),
                       Entry(members[i].key, Printed(order, form, members[i].value)))
  {
    assert PrintedMembers(order, form, members[..i + 1])[..i] == PrintedMembers(order, form, members[..i]);
  }

  method PrintPairs(pairs: seq<Entry<string>>) returns (parts: seq<string>)
    ensures |parts| == |pairs|
    ensures forall i | 0 <= i < |pairs| :: parts[i] == Quoted(pairs[i].key) + ":" + pairs[i].value
  {
    parts := [];
    for i := 0 to |pairs|
      invariant |parts| == i
      invariant forall j | 0 <= j < i :: parts[j] == Quoted(pairs[j].key) + ":" + pairs[j].value
    {
      var q := Quote(pairs[i].key);
      parts := parts + [q + ":" + pairs[i].value];
    }
  }

  lemma PairsPrinted(members: seq<Entry<Json>>, parts: seq<string>)
    requires |parts| == |members|
    requires forall i | 0 <= i < |members| ::
      parts[i] == Quoted(Mapped(Print, members)[i].key) + ":" + Mapped(Print, members)[i].value
    ensures "{" + Separated(parts) + "}" == Print(Object(members))
  {
    JoinMembers(members, parts);
  }

  /** Prints the next value of the decoder; fails if a number in it is out of range. */
  method ReadValue(d: Decoder, order: Order, form: Forms, ghost v: Json, ghost tail: seq<Token>)
    returns (r: Option<string>)
    requires d.tokens == Tokens(v) + tail
    modifies d
    ensures r.Some? <==> Readable(form, v)
    ensures r.Some? ==> r.value == Printed(order, form, v) && d.tokens == tail
    decreases v, 1
  {
    ghost var inner := Tokens(v)[1..];
    assert d.tokens[1..] == inner + tail;
    var token := d.Token();
    match token
    case NullToken => r := Some("null");
    case BooleanToken(b) => r := Some(if b then "true" else "false");
    case StringToken(t) =>
      var q := Quote(t);
      r := Some(q);
    case NumeralToken(t) => r := form(t);
    case Delimiter(c) =>
      if c == '[' {
        TokensInside(v, tail);
        r := ReadArray(d, order, form, v.items, tail);
        if r.Some? {
          ArrayPrinted(order, form, v.items);
        }
      } else {
        TokensInside(v, tail);
        r := ReadObject(d, order, form, v.members, tail);
      }
  }

  method Stringify(text: string, order: Order, form: Forms) returns (r: Option<string>)
    ensures r == Stringified(order, form, text)
  {
    var v := Parse(text);
    if v.None? {
      return None;
    }
    var d := new Decoder(v.value);
    assert d.tokens == Tokens(v.value) + [];
    r := ReadValue(d, order, form, v.value, []);
  }

  // ---------------------------------------------------------------- the normalized question

  datatype Field = Field(key: string, source: string, byDefault: Json)

  const FIELDS: seq<Field> := [
    Field("type", "Type", Null),
    Field("body", "Body", Text("")),
    Field("options", "Options", Array([])),
    Field("blanks", "Blanks", Array([])),
    Field("version", "Version", Null)
  ]

  /** The members of a question's content; none if it is not a JSON object. */
  function ContentOf(content: string): seq<Entry<Json>> {
    var v := Parse(content);
    if v.Some? && v.value.Object? then v.value.members else []
  }

  /** A field's value: blanks may also be written in lower case, and the default stands in for
      a missing value and, in the legacy form, for a falsy one. */
  function FieldValue(truthy: Json -> bool, members: seq<Entry<Json>>, f: Field, legacy: bool): Json {
    var found := Find(members, f.source);
    var raw := if f.key == "blanks" && found.None? then Find(members, "blanks") else found;
    if raw.None? || (legacy && !truthy(raw.value)) then f.byDefault else raw.value
  }

  function NormalizedOf(truthy: Json -> bool, members: seq<Entry<Json>>, legacy: bool): Json {
    Object(seq(|FIELDS|, i requires 0 <= i < |FIELDS| =>
      Entry(FIELDS[i].key, FieldValue(truthy, members, FIELDS[i], legacy))))
  }

  lemma FindStands(raws: seq<Entry<string>>, members: seq<Entry<Json>>, key: string)
    requires StandFor(raws, members)
    ensures Find(raws, key).Some? <==> Find(members, key).Some?
    ensures Find(raws, key).Some? ==> Parse(Find(raws, key).value) == Find(members, key)
  {
    forall i | 0 <= i < |raws| ensures raws[i].key == members[i].key {
      assert StandsFor(raws[i], members[i]);
    }
    LastByKeys(raws, members, key);
    var i := Last(raws, key);
    assert i >= 0 ==> StandsFor(raws[i], members[i]);
  }

  lemma DefaultsRead(f: Field)
    requires f in FIELDS
    ensures Parse(Print(f.byDefault)) == Some(f.byDefault)
  {
    PrintThenParse(f.byDefault);
  }

  /** The text of a field: the raw text of the member, or of the default. */
  method FieldText(truthy: Json -> bool, raws: seq<Entry<string>>, ghost members: seq<Entry<Json>>, f: Field,
        legacy: bool)
    returns (text: string)
    requires StandFor(raws, members) && f in FIELDS
    ensures Parse(text) == Some(FieldValue(truthy, members, f, legacy))
  {
    FindStands(raws, members, f.source);
    FindStands(raws, members, "blanks");
    DefaultsRead(f);
    var raw := Find(raws, f.source);
    if f.key == "blanks" && raw.None? {
      raw := Find(raws, "blanks");
    }
    if raw.None? {
      return Print(f.byDefault);
    }
    var parsed := Parse(raw.value);
    text := if legacy && !truthy(parsed.value) then Print(f.byDefault) else raw.value;
  }

  /** Puts the texts of the five fields together. raws are the raw texts of the content's
      members, as the decoder of the standard library gives them. */
  method Normalized(truthy: Json -> bool, content: string, raws: seq<Entry<string>>, legacy: bool)
    returns (text: string)
    requires StandFor(raws, ContentOf(content))
    ensures Parse(text) == Some(NormalizedOf(truthy, ContentOf(content), legacy))
  {
    ghost var members := NormalizedOf(truthy, ContentOf(content), legacy).members;
    ghost var fields: seq<Entry<string>> := [];
    text := "{";
    for i := 0 to |FIELDS|
      invariant |fields| == i && text == "{" + MembersText(fields)
      invariant StandFor(fields, members[..i])
    {
      var raw := FieldText(truthy, raws, ContentOf(content), FIELDS[i], legacy);
      ghost var f := Entry(FIELDS[i].key, raw);
      StandForOneMore(fields, members, f);
      TextOneMore(text, fields, f);
      if i > 0 {
        text := text + ",";
      }
      text := text + (Quoted(FIELDS[i].key) + ":" + raw);
      fields := fields + [f];
    }
    assert members[..|FIELDS|] == members;
    ObjectTextRead(fields, members);
    text := text + "}";
  }

  /** What a question has under a key, if the question counts. */
  function Under(members: seq<Entry<Json>>, key: string, byDefault: Json): Json {
    var found := Find(members, key);
    if found.Some? then found.value else byDefault
  }

  /** The two questions agree in type, body, options, blanks and version. */
  predicate SameQuestion(form: Forms, x: seq<Entry<Json>>, y: seq<Entry<Json>>) {
    && Equal(form, Under(x, "Type", Null), Under(y, "Type", Null))
    && Equal(form, Under(x, "Body", Text("")), Under(y, "Body", Text("")))
    && Equal(form, Under(x, "Options", Array([])), Under(y, "Options", Array([])))
    && Equal(form, Under(x, "Blanks", Under(x, "blanks", Array([]))), Under(y, "Blanks", Under(y, "blanks", Array([]))))
    && Equal(form, Under(x, "Version", Null), Under(y, "Version", Null))
  }

  /** What is hashed: five members in this order, each with the value of the question. */
  lemma NormalizedIs(truthy: Json -> bool, members: seq<Entry<Json>>)
    ensures NormalizedOf(truthy, members, false) == Object([
      Entry("type", Under(members, "Type", Null)),
      Entry("body", Under(members, "Body", Text(""))),
      Entry("options", Under(members, "Options", Array([]))),
      Entry("blanks", Under(members, "Blanks", Under(members, "blanks", Array([])))),
      Entry("version", Under(members, "Version", Null))])
  {
    var v := NormalizedOf(truthy, members, false).members;
    assert v[0] == Entry("type", Under(members, "Type", Null));
    assert v[1] == Entry("body", Under(members, "Body", Text("")));
    assert v[2] == Entry("options", Under(members, "Options", Array([])));
    assert v[3] == Entry("blanks", Under(members, "Blanks", Under(members, "blanks", Array([]))));
    assert v[4] == Entry("version", Under(members, "Version", Null));
  }

  /** In the legacy form the default also stands in for a value that is not truthy; one under
      "Blanks" is not replaced by that under "blanks". */
  lemma LegacyNormalizedIs(truthy: Json -> bool, members: seq<Entry<Json>>)
    ensures var shown := (v: Json, byDefault: Json) => if truthy(v) then v else byDefault;
      NormalizedOf(truthy, members, true) == Object([
        Entry("type", shown(Under(members, "Type", Null), Null)),
        Entry("body", shown(Under(members, "Body", Text("")), Text(""))),
        Entry("options", shown(Under(members, "Options", Array([])), Array([]))),
        Entry("blanks", shown(Under(members, "Blanks", Under(members, "blanks", Array([]))), Array([]))),
        Entry("version", shown(Under(members, "Version", Null), Null))])
  {
    var v := NormalizedOf(truthy, members, true).members;
    var shown := (v: Json, byDefault: Json) => if truthy(v) then v else byDefault;
    assert v[0] == Entry("type", shown(Under(members, "Type", Null), Null));
    assert v[1] == Entry("body", shown(Under(members, "Body", Text("")), Text("")));
    assert v[2] == Entry("options", shown(Under(members, "Options", Array([])), Array([])));
    assert v[3] == Entry("blanks", shown(Under(members, "Blanks", Under(members, "blanks", Array([]))), Array([])));
    assert v[4] == Entry("version", shown(Under(members, "Version", Null), Null));
  }

  /** The fingerprint, or "" if a number in the question is out of range. */
  function FingerprintOf(form: Forms, truthy: Json -> bool, digest: string -> string, content: string): string {
    var v := NormalizedOf(truthy, ContentOf(content), false);
    if Readable(form, v) then digest("v3\n" + Printed(Canonical, form, v)) else ""
  }

  ghost predicate Injective(digest: string -> string) {
    forall a, b | digest(a) == digest(b) :: a == b
  }

  /** The five keys differ in their first letter, or else in their second. */
  lemma FieldsAreUnique(truthy: Json -> bool, members: seq<Entry<Json>>, legacy: bool)
    ensures Unique(NormalizedOf(truthy, members, legacy).members)
  {
    var m := NormalizedOf(truthy, members, legacy).members;
    forall i, j | 0 <= i < j < |m| ensures m[i].key != m[j].key {
      assert m[i].key == FIELDS[i].key && m[j].key == FIELDS[j].key;
      assert FIELDS[i].key[0] != FIELDS[j].key[0] || FIELDS[i].key[1] != FIELDS[j].key[1];
    }
  }

  /** The same key stands in the same place of both, and nowhere else. */
  predicate LinedUp(x: seq<Entry<Json>>, y: seq<Entry<Json>>) {
    |x| == |y| == 5 &&
    forall i | 0 <= i < 5 :: x[i].key == y[i].key && Last(x, x[i].key) == i && Last(y, y[i].key) == i
  }

  lemma FieldsLineUp(truthy: Json -> bool, a: seq<Entry<Json>>, b: seq<Entry<Json>>)
    ensures LinedUp(NormalizedOf(truthy, a, false).members, NormalizedOf(truthy, b, false).members)
  {
    var x, y := NormalizedOf(truthy, a, false).members, NormalizedOf(truthy, b, false).members;
    FieldsAreUnique(truthy, a, false);
    FieldsAreUnique(truthy, b, false);
    forall i | 0 <= i < 5 ensures x[i].key == y[i].key && Last(x, x[i].key) == i && Last(y, y[i].key) == i {
      FindUnique(x, i);
      FindUnique(y, i);
    }
  }

  lemma SameValues(form: Forms, x: seq<Entry<Json>>, y: seq<Entry<Json>>)
    requires LinedUp(x, y)
    ensures EqualMembers(form, x, y) <==> forall i | 0 <= i < |x| :: Equal(form, x[i].value, y[i].value)
  {
  }

  lemma SameFields(form: Forms, truthy: Json -> bool, a: seq<Entry<Json>>, b: seq<Entry<Json>>)
    ensures SameQuestion(form, a, b) <==>
      Equal(form, NormalizedOf(truthy, a, false), NormalizedOf(truthy, b, false))
  {
    var v, w := NormalizedOf(truthy, a, false), NormalizedOf(truthy, b, false);
    FieldsLineUp(truthy, a, b);
    ValuesAre(truthy, a);
    ValuesAre(truthy, b);
    FiveValues(form, v, w);
  }

  lemma FiveValues(form: Forms, v: Json, w: Json)
    requires v.Object? && w.Object? && LinedUp(v.members, w.members)
    ensures Equal(form, v, w) <==>
      && Equal(form, v.members[0].value, w.members[0].value) && Equal(form, v.members[1].value, w.members[1].value)
      && Equal(form, v.members[2].value, w.members[2].value) && Equal(form, v.members[3].value, w.members[3].value)
      && Equal(form, v.members[4].value, w.members[4].value)
  {
    SameValues(form, v.members, w.members);
    AllFive(form, v.members, w.members);
  }

  lemma ValuesAre(truthy: Json -> bool, members: seq<Entry<Json>>)
    ensures var v := NormalizedOf(truthy, members, false).members;
      && |v| == 5
      && v[0].value == Under(members, "Type", Null)
      && v[1].value == Under(members, "Body", Text(""))
      && v[2].value == Under(members, "Options", Array([]))
      && v[3].value == Under(members, "Blanks", Under(members, "blanks", Array([])))
      && v[4].value == Under(members, "Version", Null)
  {
    NormalizedIs(truthy, members);
  }

  lemma AllFive(form: Forms, x: seq<Entry<Json>>, y: seq<Entry<Json>>)
    requires |x| == |y| == 5
    ensures (forall i | 0 <= i < |x| :: Equal(form, x[i].value, y[i].value)) <==>
      && Equal(form, x[0].value, y[0].value) && Equal(form, x[1].value, y[1].value)
      && Equal(form, x[2].value, y[2].value) && Equal(form, x[3].value, y[3].value)
      && Equal(form, x[4].value, y[4].value)
  {
  }

  lemma SamePrinted(form: Forms, v: Json, w: Json)
    requires Sound(form) && Readable(form, v) && Readable(form, w)
    ensures Printed(Canonical, form, v) == Printed(Canonical, form, w) <==> Equal(form, v, w)
  {
    SameNormal(form, v, w);
    NormalIsWellFormed(Canonical, form, v);
    NormalIsWellFormed(Canonical, form, w);
    if Printed(Canonical, form, v) == Printed(Canonical, form, w) {
      PrintingIsInjective(Normal(Canonical, form, v), Normal(Canonical, form, w));
    }
  }

  lemma SameDigest(digest: string -> string, p: string, q: string)
    requires Injective(digest)
    ensures digest("v3\n" + p) == digest("v3\n" + q) <==> p == q
  {
    assert ("v3\n" + p)[3..] == p && ("v3\n" + q)[3..] == q;
  }

  /** Two questions have the same fingerprint exactly when they are the same question, no
      matter how their content is spaced, ordered or escaped. */
  lemma FingerprintDecides(form: Forms, truthy: Json -> bool, digest: string -> string, a: string, b: string)
    requires Sound(form) && Injective(digest)
    requires Readable(form, NormalizedOf(truthy, ContentOf(a), false))
    requires Readable(form, NormalizedOf(truthy, ContentOf(b), false))
    ensures FingerprintOf(form, truthy, digest, a) == FingerprintOf(form, truthy, digest, b)
      <==> SameQuestion(form, ContentOf(a), ContentOf(b))
  {
    var v := NormalizedOf(truthy, ContentOf(a), false);
    var w := NormalizedOf(truthy, ContentOf(b), false);
    SameFields(form, truthy, ContentOf(a), ContentOf(b));
    SamePrinted(form, v, w);
    SameDigest(digest, Printed(Canonical, form, v), Printed(Canonical, form, w));
  }

  /** The fingerprint is the digest of the question's canonical text after the name of the
      algorithm. */
  lemma FingerprintIs(form: Forms, truthy: Json -> bool, digest: string -> string, content: string)
    ensures var x := ContentOf(content);
      var question := Object([
        Entry("type", Under(x, "Type", Null)),
        Entry("body", Under(x, "Body", Text(""))),
        Entry("options", Under(x, "Options", Array([]))),
        Entry("blanks", Under(x, "Blanks", Under(x, "blanks", Array([])))),
        Entry("version", Under(x, "Version", Null))]);
      FingerprintOf(form, truthy, digest, content) ==
        if Readable(form, question) then digest(['v', '3', '\n'] + Print(Normal(Canonical, form, question))) else ""
  {
    NormalizedIs(truthy, ContentOf(content));
  }

  method Fingerprint(form: Forms, truthy: Json -> bool, digest: string -> string, content: string,
        raws: seq<Entry<string>>)
    returns (r: string)
    requires StandFor(raws, ContentOf(content))
    ensures r == FingerprintOf(form, truthy, digest, content)
  {
    var normalized := Normalized(truthy, content, raws, false);
    var text := Stringify(normalized, Canonical, form);
    r := if text.Some? then digest("v3\n" + text.value) else "";
  }

  /** The hashes earlier versions may have stored: of the content as it is, and of the
      normalized question, both in the legacy order. */
  predicate LegacyFingerprint(form: Forms, truthy: Json -> bool, digest: string -> string, content: string,
        hash: string) {
    var v := NormalizedOf(truthy, ContentOf(content), true);
    || (Stringified(Legacy, form, content).Some? && hash == digest(Stringified(Legacy, form, content).value))
    || (Readable(form, v) && hash == digest(Printed(Legacy, form, v)))
  }

  /** The two texts whose digests earlier versions may have stored. */
  lemma LegacyFingerprintsAre(form: Forms, truthy: Json -> bool, digest: string -> string, content: string,
        hash: string)
    ensures var x := ContentOf(content);
      var shown := (v: Json, byDefault: Json) => if truthy(v) then v else byDefault;
      var question := Object([
        Entry("type", shown(Under(x, "Type", Null), Null)),
        Entry("body", shown(Under(x, "Body", Text("")), Text(""))),
        Entry("options", shown(Under(x, "Options", Array([])), Array([]))),
        Entry("blanks", shown(Under(x, "Blanks", Under(x, "blanks", Array([]))), Array([]))),
        Entry("version", shown(Under(x, "Version", Null), Null))]);
      var whole := Parse(content);
      LegacyFingerprint(form, truthy, digest, content, hash) <==>
        || (whole.Some? && Readable(form, whole.value) && hash == digest(Print(Normal(Legacy, form, whole.value))))
        || (Readable(form, question) && hash == digest(Print(Normal(Legacy, form, question))))
  {
    LegacyNormalizedIs(truthy, ContentOf(content));
  }

  method LegacyFingerprints(form: Forms, truthy: Json -> bool, digest: string -> string, content: string,
        raws: seq<Entry<string>>)
    returns (r: seq<string>)
    requires StandFor(raws, ContentOf(content))
    ensures forall hash :: hash in r <==> LegacyFingerprint(form, truthy, digest, content, hash)
  {
    r := [];
    var text := Stringify(content, Legacy, form);
    if text.Some? {
      r := r + [digest(text.value)];
    }
    var normalized := Normalized(truthy, content, raws, true);
    text := Stringify(normalized, Legacy, form);
    if text.Some? {
      r := r + [digest(text.value)];
    }
  }

  method Matches(form: Forms, truthy: Json -> bool, digest: string -> string, content: string,
        raws: seq<Entry<string>>, hash: string, canonical: bool)
    returns (r: bool)
    requires StandFor(raws, ContentOf(content))
    ensures r <==> if canonical then hash == FingerprintOf(form, truthy, digest, content)
                   else LegacyFingerprint(form, truthy, digest, content, hash)
  {
    if canonical {
      var f := Fingerprint(form, truthy, digest, content, raws);
      return hash == f;
    }
    var hashes := LegacyFingerprints(form, truthy, digest, content, raws);
    for i := 0 to |hashes|
      invariant forall j | 0 <= j < i :: hashes[j] != hash
    {
      if hash == hashes[i] {
        assert hash in hashes;
        return true;
      }
    }
    assert hash !in hashes;
    return false;
  }
}
