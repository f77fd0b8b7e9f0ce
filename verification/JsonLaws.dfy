/** Reading what has been printed gives the same value: printing loses nothing. */
module JsonLaws {
  import opened Options
  import opened Ordering
  import opened Json

  /** Every number in the value is written as RFC 8259 asks for. */
  predicate WellFormed(v: Json) {
    match v
    case Numeral(t) => NumberToken(t)
    case Array(items) => forall i | 0 <= i < |items| :: WellFormed(items[i])
    case Object(members) => forall i | 0 <= i < |members| :: WellFormed(members[i].value)
    case _ => true
  }

  lemma Joined(a: string, b: string, c: string)
    ensures a + b + c == a + (b + c)
  {
  }

  lemma EscapeRead(c: char, rest: string)
    ensures ReadString(Escaped(c) + rest) == Prepended(c, ReadString(rest))
  {
    var s := Escaped(c) + rest;
    if c < ' ' && |Escaped(c)| == 6 {
      ControlRead(c, rest);
    } else if |Escaped(c)| == 2 {
      LetterRead(c, rest);
    } else {
      assert s == [c] + rest && s[1..] == rest;
    }
  }

  lemma LetterRead(c: char, rest: string)
    requires |Escaped(c)| == 2
    ensures ReadString(Escaped(c) + rest) == Prepended(c, ReadString(rest))
  {
    var s := Escaped(c) + rest;
    assert s[1..] == [s[1]] + rest && s[1..][1..] == rest;
    assert ReadEscape(s[1..]) == Got(c, rest);
  }

  lemma ControlRead(c: char, rest: string)
    requires c < ' ' && |Escaped(c)| == 6
    ensures ReadString(Escaped(c) + rest) == Prepended(c, ReadString(rest))
  {
    var s := Escaped(c) + rest;
    var t := s[1..];
    assert t == ['u', '0', '0', HexDigit(c as int / 16), HexDigit(c as int % 16)] + rest;
    var u := t[1..];
    assert u == ['0', '0', HexDigit(c as int / 16), HexDigit(c as int % 16)] + rest;
    HexRead(c as int / 16);
    HexRead(c as int % 16);
    assert CodeUnit(u) == c as int;
    assert t[5..] == rest;
    assert ReadEscape(t) == Got(c, rest);
  }

  lemma HexRead(n: int)
    requires 0 <= n < 16
    ensures HexValue(HexDigit(n)) == n
  {
  }

  /** How a character is written: as it is from the space on, but for quotation marks and
      backslashes; five control characters by a letter; and the others by their number, in lower
      case. */
  lemma EscapesAre(c: char)
    ensures c >= ' ' && c != '\"' && c != '\\' ==> Escaped(c) == [c]
    ensures Escaped('\"') == ['\\', '\"'] && Escaped('\\') == ['\\', '\\']
    ensures Escaped(8 as char) == ['\\', 'b'] && Escaped(12 as char) == ['\\', 'f']
    ensures Escaped(10 as char) == ['\\', 'n'] && Escaped(13 as char) == ['\\', 'r']
    ensures Escaped(9 as char) == ['\\', 't']
    ensures c < ' ' && c as int !in {8, 9, 10, 12, 13} ==>
      && |Escaped(c)| == 6 && Escaped(c)[..4] == "\\u00"
      && HexValue(Escaped(c)[4]) * 16 + HexValue(Escaped(c)[5]) == c as int
      && Escaped(c)[4] in "0123456789abcdef" && Escaped(c)[5] in "0123456789abcdef"
  {
    if c < ' ' {
      HexRead(c as int / 16);
      HexRead(c as int % 16);
    }
  }

  lemma {:induction false} EscapedAllRead(s: string, tail: string, value: string, rest: string)
    requires ReadString(tail) == Got(value, rest)
    ensures ReadString(EscapedAll(s) + tail) == Got(s + value, rest)
  {
    if s == "" {
      assert EscapedAll(s) + tail == tail && s + value == value;
    } else {
      var init, c := s[..|s| - 1], s[|s| - 1];
      var tail' := OneMore(c, tail, value, rest);
      EscapedAllRead(init, tail', [c] + value, rest);
      LastFirst(s, tail, value);
    }
  }

  lemma OneMore(c: char, tail: string, value: string, rest: string) returns (tail': string)
    requires ReadString(tail) == Got(value, rest)
    ensures tail' == Escaped(c) + tail && ReadString(tail') == Got([c] + value, rest)
  {
    EscapeRead(c, tail);
    tail' := Escaped(c) + tail;
  }

  lemma LastFirst(s: string, tail: string, value: string)
    requires s != ""
    ensures var init, c := s[..|s| - 1], s[|s| - 1];
      && EscapedAll(s) + tail == EscapedAll(init) + (Escaped(c) + tail)
      && s + value == init + ([c] + value)
  {
    Joined(EscapedAll(s[..|s| - 1]), Escaped(s[|s| - 1]), tail);
  }

  lemma ClosingRead(rest: string)
    ensures ReadString("\"" + rest) == Got("", rest)
  {
    assert ("\"" + rest)[1..] == rest;
  }

  lemma QuotedRead(s: string, rest: string)
    ensures |Quoted(s)| > 1 && (Quoted(s) + rest)[0] == '\"'
    ensures ReadString((Quoted(s) + rest)[1..]) == Got(s, rest)
  {
    ClosingRead(rest);
    EscapedAllRead(s, "\"" + rest, "", rest);
    Joined("\"" + EscapedAll(s), "\"", rest);
    Joined("\"", EscapedAll(s), "\"" + rest);
    assert (Quoted(s) + rest)[1..] == EscapedAll(s) + ("\"" + rest);
    assert s + "" == s;
  }

  /** No two strings are quoted alike. */
  lemma QuotingIsInjective(s: string, t: string)
    requires Quoted(s) == Quoted(t)
    ensures s == t
  {
    QuotedRead(s, "");
    QuotedRead(t, "");
  }

  predicate Ends(rest: string) {
    rest == "" || !NumberChar(rest[0])
  }

  lemma {:induction false} NumberLengthOf(t: string, rest: string)
    requires forall i | 0 <= i < |t| :: NumberChar(t[i])
    requires Ends(rest)
    ensures NumberLength(t + rest) == |t|
  {
    if t == "" {
      assert t + rest == rest;
    } else {
      NumberLengthOf(t[1..], rest);
      assert (t + rest)[1..] == t[1..] + rest;
    }
  }

  lemma NumeralRead(t: string, rest: string)
    requires NumberToken(t) && Ends(rest)
    ensures ReadValue(t + rest) == Got(Numeral(t), rest)
  {
    var s := t + rest;
    NumberLengthOf(t, rest);
    assert s[..|t|] == t && s[|t|..] == rest;
    assert NumberChar(s[0]) && s[0] == t[0];
    assert ReadNumber(s) == Got(Numeral(t), rest);
  }

  lemma WordRead(word: string, v: Json, rest: string)
    requires word != ""
    ensures ReadWord(word + rest, word, v) == Got(v, rest)
  {
    assert (word + rest)[..|word|] == word && (word + rest)[|word|..] == rest;
  }

  lemma {:induction false} PrintStarts(v: Json, rest: string)
    requires WellFormed(v)
    ensures Print(v) != "" && !Space(Print(v)[0]) && Print(v)[0] != ']' && Print(v)[0] != '}'
    ensures Skip(Print(v) + rest) == Print(v) + rest
  {
    if v.Numeral? {
      assert NumberChar(v.token[0]);
    }
  }

  /** What follows a printed value is left alone. */
  lemma {:induction false} PrintRead(v: Json, rest: string)
    requires WellFormed(v) && Ends(rest)
    ensures ReadValue(Print(v) + rest) == Got(v, rest)
    decreases v, 1
  {
    PrintStarts(v, rest);
    match v
    case Null => WordRead("null", v, rest);
    case Boolean(b) => WordRead(if b then "true" else "false", v, rest);
    case Text(t) => QuotedRead(t, rest);
    case Numeral(t) => NumeralRead(t, rest);
    case Array(items) => ArrayRead(v, rest);
    case Object(members) => ObjectRead(v, rest);
  }

  lemma {:induction false} ArrayRead(v: Json, rest: string)
    requires v.Array? && WellFormed(v)
    ensures ReadValue(Print(v) + rest) == Got(v, rest)
    decreases v, 0
  {
    var s := Print(v) + rest;
    var items := v.items;
    var inner := PrintItems(items) + ("]" + rest);
    Joined("[" + PrintItems(items), "]", rest);
    Joined("[", PrintItems(items), "]" + rest);
    assert s[1..] == inner && Skip(s) == s;
    if items == [] {
      assert inner == "]" + rest && inner[1..] == rest;
      assert Skip(inner) == inner;
    } else {
      ItemsRead(items, rest);
      ItemsStart(items, "]" + rest);
    }
  }

  lemma ItemsStart(items: seq<Json>, tail: string)
    requires items != [] && WellFormed(items[0])
    ensures PrintItems(items) != "" && Skip(PrintItems(items) + tail) == PrintItems(items) + tail
    ensures PrintItems(items)[0] != ']'
  {
    PrintStarts(items[0], "");
  }

  lemma ItemsSplit(items: seq<Json>, tail: string)
    requires |items| > 1
    ensures PrintItems(items) + tail == Print(items[0]) + ("," + (PrintItems(items[1..]) + tail))
  {
    Joined(Print(items[0]) + ",", PrintItems(items[1..]), tail);
    Joined(Print(items[0]), ",", PrintItems(items[1..]) + tail);
  }

  lemma FirstAndRest<T>(s: seq<T>)
    requires s != []
    ensures [s[0]] + s[1..] == s
  {
  }

  lemma ReadNext(s: string, v: Json, tail: string)
    requires ReadValue(s) == Got(v, "," + tail)
    ensures var r := ReadItems(tail);
      ReadItems(s) == if r.Got? then Got([v] + r.value, r.rest) else Bad
  {
    assert Skip("," + tail) == "," + tail && ("," + tail)[1..] == tail;
  }

  lemma ReadLast(s: string, v: Json, rest: string)
    requires ReadValue(s) == Got(v, "]" + rest)
    ensures ReadItems(s) == Got([v], rest)
  {
    assert Skip("]" + rest) == "]" + rest && ("]" + rest)[1..] == rest;
  }

  lemma {:induction false} ItemsRead(items: seq<Json>, rest: string)
    requires items != [] && forall i | 0 <= i < |items| :: WellFormed(items[i])
    ensures ReadItems(PrintItems(items) + ("]" + rest)) == Got(items, rest)
    decreases items
  {
    if |items| == 1 {
      PrintRead(items[0], "]" + rest);
      ReadLast(PrintItems(items) + ("]" + rest), items[0], rest);
      assert items == [items[0]];
    } else {
      var inner := PrintItems(items[1..]) + ("]" + rest);
      ItemsSplit(items, "]" + rest);
      PrintRead(items[0], "," + inner);
      ItemsRead(items[1..], rest);
      ReadNext(PrintItems(items) + ("]" + rest), items[0], inner);
      FirstAndRest(items);
    }
  }

  lemma NoMembers(rest: string)
    ensures Skip("}" + rest) == "}" + rest && ("}" + rest)[1..] == rest
  {
  }

  lemma {:induction false} ObjectRead(v: Json, rest: string)
    requires v.Object? && WellFormed(v)
    ensures ReadValue(Print(v) + rest) == Got(v, rest)
    decreases v, 0
  {
    var s := Print(v) + rest;
    var members := v.members;
    var inner := PrintMembers(members) + ("}" + rest);
    Joined("{" + PrintMembers(members), "}", rest);
    Joined("{", PrintMembers(members), "}" + rest);
    assert s[1..] == inner && Skip(s) == s;
    if members == [] {
      NoMembers(rest);
      assert inner == "}" + rest;
    } else {
      MembersRead(members, rest);
      MembersStart(members, "}" + rest);
    }
  }

  lemma MembersStart(members: seq<Entry<Json>>, tail: string)
    requires members != []
    ensures PrintMembers(members) != "" && Skip(PrintMembers(members) + tail) == PrintMembers(members) + tail
    ensures PrintMembers(members)[0] == '\"'
  {
    assert Quoted(members[0].key)[0] == '\"';
  }

  lemma {:induction false} MemberRead(m: Entry<Json>, rest: string)
    requires WellFormed(m.value) && Ends(rest)
    ensures ReadMember(Quoted(m.key) + ":" + Print(m.value) + rest) == Got(m, rest)
    decreases m, 1
  {
    var tail := ":" + (Print(m.value) + rest);
    var s := Quoted(m.key) + ":" + Print(m.value) + rest;
    Joined(Quoted(m.key) + ":", Print(m.value), rest);
    Joined(Quoted(m.key), ":", Print(m.value) + rest);
    QuotedRead(m.key, tail);
    assert Skip(s) == s;
    assert Skip(tail) == tail && tail[1..] == Print(m.value) + rest;
    PrintRead(m.value, rest);
  }

  lemma MembersSplit(members: seq<Entry<Json>>, tail: string)
    requires |members| > 1
    ensures var m := members[0];
      PrintMembers(members) + tail
      == Quoted(m.key) + ":" + Print(m.value) + ("," + (PrintMembers(members[1..]) + tail))
  {
    var first := Quoted(members[0].key) + ":" + Print(members[0].value);
    Joined(first + ",", PrintMembers(members[1..]), tail);
    Joined(first, ",", PrintMembers(members[1..]) + tail);
  }

  lemma ReadMore(s: string, m: Entry<Json>, tail: string)
    requires ReadMember(s) == Got(m, "," + tail)
    ensures var r := ReadMembers(tail);
      ReadMembers(s) == if r.Got? then Got([m] + r.value, r.rest) else Bad
  {
    assert Skip("," + tail) == "," + tail && ("," + tail)[1..] == tail;
  }

  lemma ReadFinal(s: string, m: Entry<Json>, rest: string)
    requires ReadMember(s) == Got(m, "}" + rest)
    ensures ReadMembers(s) == Got([m], rest)
  {
    assert Skip("}" + rest) == "}" + rest && ("}" + rest)[1..] == rest;
  }

  lemma {:induction false} MembersRead(members: seq<Entry<Json>>, rest: string)
    requires members != [] && forall i | 0 <= i < |members| :: WellFormed(members[i].value)
    ensures ReadMembers(PrintMembers(members) + ("}" + rest)) == Got(members, rest)
    decreases members
  {
    var m := members[0];
    if |members| == 1 {
      MemberRead(m, "}" + rest);
      ReadFinal(PrintMembers(members) + ("}" + rest), m, rest);
      assert members == [m];
    } else {
      MembersRead(members[1..], rest);
      MemberRead(m, "," + (PrintMembers(members[1..]) + ("}" + rest)));
      MembersSplit(members, "}" + rest);
      ReadMore(PrintMembers(members) + ("}" + rest), m, PrintMembers(members[1..]) + ("}" + rest));
      FirstAndRest(members);
    }
  }

  /** Reading a printed value gives that value back, whatever it is. */
  lemma PrintThenParse(v: Json)
    requires WellFormed(v)
    ensures Parse(Print(v)) == Some(v)
  {
    PrintRead(v, "");
    assert Print(v) + "" == Print(v);
  }

  /** No two values are printed alike. */
  lemma PrintingIsInjective(v: Json, w: Json)
    requires WellFormed(v) && WellFormed(w) && Print(v) == Print(w)
    ensures v == w
  {
    PrintThenParse(v);
    PrintThenParse(w);
  }
}
