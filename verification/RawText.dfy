/**
 Texts of JSON values put together from texts of their parts, as the normalized question is
 (internal/questions/fingerprint.go:18-47): reading the whole gives the values of the parts.
 */
module RawTexts {
  import opened Options
  import opened Ordering
  import opened Json
  import opened JsonLaws

  // ---------------------------------------------------------------- what follows a value is left alone

  lemma FirstOf(s: string, tail: string)
    requires s != ""
    ensures (s + tail)[0] == s[0] && (s + tail)[1..] == s[1..] + tail
  {
  }

  lemma {:induction false} SkipMore(s: string, tail: string)
    ensures Skip(s + tail) == if Skip(s) == "" then Skip(tail) else Skip(s) + tail
  {
    if s == "" {
      assert s + tail == tail;
    } else {
      FirstOf(s, tail);
      if Space(s[0]) {
        SkipMore(s[1..], tail);
      }
    }
  }

  lemma CodeUnitMore(s: string, tail: string)
    requires |s| >= 4
    ensures CodeUnit(s + tail) == CodeUnit(s)
  {
  }

  /** The low half of a surrogate pair that would only be found in the tail. */
  lemma NoHalfInTail(s: string)
    requires 5 <= |s| < 11 && ReadString(s[5..]).Got?
    ensures s[5] == '\\' ==> |s| > 6 && s[6] != 'u'
  {
    var t := s[5..];
    if s[5] == '\\' {
      assert t[1..] == s[6..];
      if |s| > 6 && s[6] == 'u' {
        assert |t[1..][1..]| < 4;
      }
    }
  }

  lemma UnicodeMore(s: string, tail: string)
    requires s != "" && s[0] == 'u' && ReadEscape(s).Got? && ReadString(ReadEscape(s).rest).Got?
    ensures ReadEscape(s + tail) == Got(ReadEscape(s).value, ReadEscape(s).rest + tail)
  {
    FirstOf(s, tail);
    CodeUnitMore(s[1..], tail);
    assert (s + tail)[5..] == s[5..] + tail;
    if |s| >= 11 {
      assert (s + tail)[7..] == s[7..] + tail && (s + tail)[11..] == s[11..] + tail;
      CodeUnitMore(s[7..], tail);
    } else {
      NoHalfInTail(s);
    }
  }

  lemma EscapeMore(s: string, tail: string)
    requires ReadEscape(s).Got? && ReadString(ReadEscape(s).rest).Got?
    ensures ReadEscape(s + tail) == Got(ReadEscape(s).value, ReadEscape(s).rest + tail)
  {
    if s[0] == 'u' {
      UnicodeMore(s, tail);
    } else {
      FirstOf(s, tail);
    }
  }

  lemma {:induction false} StringMore(s: string, tail: string)
    requires ReadString(s).Got?
    ensures ReadString(s + tail) == Got(ReadString(s).value, ReadString(s).rest + tail)
    decreases |s|
  {
    FirstOf(s, tail);
    if s[0] == '\"' {
    } else if s[0] == '\\' {
      EscapeMore(s[1..], tail);
      StringMore(ReadEscape(s[1..]).rest, tail);
    } else {
      StringMore(s[1..], tail);
    }
  }

  lemma {:induction false} NumberLengthMore(s: string, tail: string)
    requires Ends(tail)
    ensures NumberLength(s + tail) == NumberLength(s)
  {
    if s == "" {
      assert s + tail == tail;
    } else {
      FirstOf(s, tail);
      if NumberChar(s[0]) {
        NumberLengthMore(s[1..], tail);
      }
    }
  }

  lemma NumberMore(s: string, tail: string)
    requires ReadNumber(s).Got? && Ends(tail)
    ensures ReadNumber(s + tail) == Got(ReadNumber(s).value, ReadNumber(s).rest + tail)
  {
    var n := NumberLength(s);
    NumberLengthMore(s, tail);
    assert (s + tail)[..n] == s[..n] && (s + tail)[n..] == s[n..] + tail;
  }

  lemma WordMore(s: string, tail: string, word: string, v: Json)
    requires word != "" && ReadWord(s, word, v).Got?
    ensures ReadWord(s + tail, word, v) == Got(v, ReadWord(s, word, v).rest + tail)
  {
    assert (s + tail)[..|word|] == s[..|word|] && (s + tail)[|word|..] == s[|word|..] + tail;
  }

  /** A value that was read is read again when more text follows, and the more is left. */
  lemma {:induction false} ValueMore(s: string, tail: string)
    requires ReadValue(s).Got? && Ends(tail)
    ensures ReadValue(s + tail) == Got(ReadValue(s).value, ReadValue(s).rest + tail)
    decreases |s|, 3
  {
    var t := Skip(s);
    SkipMore(s, tail);
    FirstOf(t, tail);
    if t[0] == '\"' {
      StringMore(t[1..], tail);
    } else if t[0] == '[' {
      ArrayMore(s, t, tail);
    } else if t[0] == '{' {
      ObjectMore(s, t, tail);
    } else if t[0] == 'n' {
      WordMore(t, tail, "null", Null);
    } else if t[0] == 't' {
      WordMore(t, tail, "true", Boolean(true));
    } else if t[0] == 'f' {
      WordMore(t, tail, "false", Boolean(false));
    } else {
      NumberMore(t, tail);
    }
  }

  lemma {:induction false} ArrayMore(s: string, t: string, tail: string)
    requires t == Skip(s) != "" && t[0] == '[' && ReadValue(s).Got? && Ends(tail)
    ensures ReadValue(s + tail) == Got(ReadValue(s).value, ReadValue(s).rest + tail)
    decreases |s|, 2
  {
    var u := Skip(t[1..]);
    SkipMore(s, tail);
    FirstOf(t, tail);
    SkipMore(t[1..], tail);
    assert u == "" ==> ReadValue(t[1..]).Bad?;
    FirstOf(u, tail);
    if u[0] != ']' {
      ItemsMore(t[1..], tail);
    }
  }

  lemma {:induction false} ObjectMore(s: string, t: string, tail: string)
    requires t == Skip(s) != "" && t[0] == '{' && ReadValue(s).Got? && Ends(tail)
    ensures ReadValue(s + tail) == Got(ReadValue(s).value, ReadValue(s).rest + tail)
    decreases |s|, 2
  {
    var u := Skip(t[1..]);
    SkipMore(s, tail);
    FirstOf(t, tail);
    SkipMore(t[1..], tail);
    assert u == "" ==> ReadMember(t[1..]).Bad?;
    FirstOf(u, tail);
    if u[0] != '}' {
      MembersMore(t[1..], tail);
    }
  }

  lemma {:induction false} ItemsMore(s: string, tail: string)
    requires ReadItems(s).Got? && Ends(tail)
    ensures ReadItems(s + tail) == Got(ReadItems(s).value, ReadItems(s).rest + tail)
    decreases |s|, 4
  {
    var rest := ReadValue(s).rest;
    ValueMore(s, tail);
    SkipMore(rest, tail);
    FirstOf(Skip(rest), tail);
    if Skip(rest)[0] == ',' {
      ItemsMore(Skip(rest)[1..], tail);
    }
  }

  lemma {:induction false} MemberMore(s: string, tail: string)
    requires ReadMember(s).Got? && Ends(tail)
    ensures ReadMember(s + tail) == Got(ReadMember(s).value, ReadMember(s).rest + tail)
    decreases |s|, 4
  {
    var t := Skip(s);
    SkipMore(s, tail);
    FirstOf(t, tail);
    StringMore(t[1..], tail);
    var rest := ReadString(t[1..]).rest;
    SkipMore(rest, tail);
    FirstOf(Skip(rest), tail);
    ValueMore(Skip(rest)[1..], tail);
  }

  lemma {:induction false} MembersMore(s: string, tail: string)
    requires ReadMembers(s).Got? && Ends(tail)
    ensures ReadMembers(s + tail) == Got(ReadMembers(s).value, ReadMembers(s).rest + tail)
    decreases |s|, 5
  {
    var rest := ReadMember(s).rest;
    MemberMore(s, tail);
    SkipMore(rest, tail);
    FirstOf(Skip(rest), tail);
    if Skip(rest)[0] == ',' {
      MembersMore(Skip(rest)[1..], tail);
    }
  }

  // ---------------------------------------------------------------- the text of an object

  /** One member: its key, and the text of its value. */
  function MemberText(f: Entry<string>): string {
    Quoted(f.key) + ":" + f.value
  }

  function MembersText(fields: seq<Entry<string>>): string {
    if fields == [] then ""
    else if |fields| == 1 then MemberText(fields[0])
    else MemberText(fields[0]) + "," + MembersText(fields[1..])
  }

  /** The texts stand for the values, member by member. */
  predicate StandFor(fields: seq<Entry<string>>, members: seq<Entry<Json>>) {
    && |fields| == |members|
    && forall i | 0 <= i < |fields| :: StandsFor(fields[i], members[i])
  }

  predicate StandsFor(f: Entry<string>, m: Entry<Json>) {
    f.key == m.key && Parse(f.value) == Some(m.value)
  }

  lemma MemberTextRead(f: Entry<string>, m: Entry<Json>, tail: string) returns (q: string)
    requires StandsFor(f, m) && Ends(tail)
    ensures ReadMember(MemberText(f) + tail) == Got(m, q + tail) && Skip(q) == ""
  {
    var s, after := MemberText(f) + tail, ":" + (f.value + tail);
    Joined(Quoted(f.key) + ":", f.value, tail);
    Joined(Quoted(f.key), ":", f.value + tail);
    QuotedRead(f.key, after);
    assert Skip(s) == s;
    assert Skip(after) == after && after[1..] == f.value + tail;
    ValueMore(f.value, tail);
    q := ReadValue(f.value).rest;
  }

  lemma LastMemberRead(f: Entry<string>, m: Entry<Json>, rest: string)
    requires StandsFor(f, m)
    ensures ReadMembers(MemberText(f) + ("}" + rest)) == Got([m], rest)
  {
    var q := MemberTextRead(f, m, "}" + rest);
    SkipMore(q, "}" + rest);
    NoMembers(rest);
  }

  lemma NextMemberRead(f: Entry<string>, m: Entry<Json>, tail: string)
    requires StandsFor(f, m)
    ensures var r := ReadMembers(tail);
      ReadMembers(MemberText(f) + ("," + tail)) == if r.Got? then Got([m] + r.value, r.rest) else Bad
  {
    var q := MemberTextRead(f, m, "," + tail);
    SkipMore(q, "," + tail);
    assert Skip("," + tail) == "," + tail && ("," + tail)[1..] == tail;
  }

  lemma {:induction false} MembersTextRead(fields: seq<Entry<string>>, members: seq<Entry<Json>>, rest: string)
    requires StandFor(fields, members) && fields != []
    ensures ReadMembers(MembersText(fields) + ("}" + rest)) == Got(members, rest)
    decreases |fields|
  {
    assert StandsFor(fields[0], members[0]);
    if |fields| == 1 {
      LastMemberRead(fields[0], members[0], rest);
      assert members == [members[0]];
    } else {
      var tail := MembersText(fields[1..]) + ("}" + rest);
      MembersTextRead(fields[1..], members[1..], rest);
      NextMemberRead(fields[0], members[0], tail);
      Joined(MemberText(fields[0]) + ",", MembersText(fields[1..]), "}" + rest);
      Joined(MemberText(fields[0]), ",", tail);
      FirstAndRest(members);
    }
  }

  lemma MembersTextStarts(fields: seq<Entry<string>>)
    requires fields != []
    ensures MembersText(fields) != "" && MembersText(fields)[0] == '\"'
  {
    assert MemberText(fields[0])[0] == '\"';
  }

  lemma BracesRead(inner: string, members: seq<Entry<Json>>)
    requires inner != "" && inner[0] == '\"' && ReadMembers(inner + "}") == Got(members, "")
    ensures Parse("{" + inner + "}") == Some(Object(members))
  {
    var s := "{" + inner + "}";
    Joined("{", inner, "}");
    assert s[1..] == inner + "}" && Skip(s) == s && Skip(inner + "}") == inner + "}";
  }

  /** An object put together from texts of its members' values is read as these members. */
  lemma ObjectTextRead(fields: seq<Entry<string>>, members: seq<Entry<Json>>)
    requires StandFor(fields, members) && fields != []
    ensures Parse("{" + MembersText(fields) + "}") == Some(Object(members))
  {
    MembersTextRead(fields, members, "");
    assert "}" + "" == "}";
    MembersTextStarts(fields);
    BracesRead(MembersText(fields), members);
  }

  lemma {:induction false} OneMoreMember(fields: seq<Entry<string>>, f: Entry<string>)
    ensures MembersText(fields + [f]) ==
      if fields == [] then MemberText(f) else MembersText(fields) + "," + MemberText(f)
  {
    if fields == [] {
      assert fields + [f] == [f];
    } else {
      assert (fields + [f])[1..] == fields[1..] + [f];
      OneMoreMember(fields[1..], f);
      if |fields| > 1 {
        Joined(MemberText(fields[0]) + ",", MembersText(fields[1..]) + ",", MemberText(f));
        Joined(MemberText(fields[0]) + ",", MembersText(fields[1..]), ",");
      }
    }
  }

  lemma StandForOneMore(fields: seq<Entry<string>>, members: seq<Entry<Json>>, f: Entry<string>)
    requires |fields| < |members| && StandFor(fields, members[..|fields|]) && StandsFor(f, members[|fields|])
    ensures StandFor(fields + [f], members[..|fields| + 1])
  {
    forall i | 0 <= i < |fields| ensures StandsFor(fields[i], members[i]) {
      assert StandsFor(fields[i], members[..|fields|][i]);
    }
  }

  /** The text so far, with one more member. */
  lemma TextOneMore(text: string, fields: seq<Entry<string>>, f: Entry<string>)
    requires text == "{" + MembersText(fields)
    ensures "{" + MembersText(fields + [f]) == (if fields == [] then text else text + ",") + MemberText(f)
  {
    OneMoreMember(fields, f);
    if fields == [] {
      assert text == "{";
    } else {
      Joined("{", MembersText(fields), ",");
      Joined("{", MembersText(fields) + ",", MemberText(f));
    }
  }
}
