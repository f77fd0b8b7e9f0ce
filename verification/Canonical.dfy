/**
 The canonical and the legacy form of a JSON value, and what it means for two values to be
 the same (internal/questions/fingerprint.go:78-178). The shortest decimal form of a
 number is a parameter; what matters is that it is a number token and its own form.
 */
module Canonicals {
  import opened Options
  import opened Ordering
  import opened Json
  import opened JsonLaws

  /** The form of a number token, or none if the number is out of range (or the text is not a
      number token). */
  type Forms = string -> Option<string>

  ghost predicate Sound(form: Forms) {
    forall t | form(t).Some? :: NumberToken(t) && NumberToken(form(t).value) && form(form(t).value) == form(t)
  }

  /** No number is out of range, not even one whose member is overwritten later. */
  predicate Readable(form: Forms, v: Json) {
    match v
    case Numeral(t) => form(t).Some?
    case Array(items) => forall i | 0 <= i < |items| :: Readable(form, items[i])
    case Object(members) => forall i | 0 <= i < |members| :: Readable(form, members[i].value)
    case _ => true
  }

  predicate ReadableAll(form: Forms, members: seq<Entry<Json>>) {
    forall i | 0 <= i < |members| :: Readable(form, members[i].value)
  }

  /** Numbers in their form, repeated members merged, members in order, at every depth. */
  function Normal(order: Order, form: Forms, v: Json): Json
    requires Readable(form, v)
    decreases v
  {
    match v
    case Numeral(t) => Numeral(form(t).value)
    case Array(items) =>
      Array(seq(|items|, i requires 0 <= i < |items| => Normal(order, form, items[i])))
    case Object(members) =>
      Object(Sorted(order, Merged(NormalMembers(order, form, members))))
    case _ => v
  }

  function NormalMembers(order: Order, form: Forms, members: seq<Entry<Json>>): (r: seq<Entry<Json>>)
    requires ReadableAll(form, members)
    ensures |r| == |members|
    decreases members
  {
    seq(|members|, i requires 0 <= i < |members| =>
      Entry(members[i].key, Normal(order, form, members[i].value)))
  }

  /** The same value: members are found by key, the last one of a key counts, and numbers
      are compared by their form. */
  predicate Equal(form: Forms, v: Json, w: Json)
    decreases v
  {
    match (v, w)
    case (Numeral(t), Numeral(u)) => form(t) == form(u)
    case (Array(a), Array(b)) => |a| == |b| && forall i | 0 <= i < |a| :: Equal(form, a[i], b[i])
    case (Object(a), Object(b)) => EqualMembers(form, a, b)
    case _ => v == w
  }

  predicate EqualMembers(form: Forms, a: seq<Entry<Json>>, b: seq<Entry<Json>>)
    decreases a
  {
    && (forall i | 0 <= i < |a| :: Last(b, a[i].key) >= 0)
    && (forall j | 0 <= j < |b| :: Last(a, b[j].key) >= 0)
    && forall i | 0 <= i < |a| && Last(a, a[i].key) == i && Last(b, a[i].key) >= 0 ::
         Equal(form, a[i].value, b[Last(b, a[i].key)].value)
  }

  // ---------------------------------------------------------------- normal forms

  lemma {:induction false} LastByKeys<T, U>(a: seq<Entry<T>>, b: seq<Entry<U>>, k: string)
    requires |a| == |b| && forall i | 0 <= i < |a| :: a[i].key == b[i].key
    ensures Last(a, k) == Last(b, k) && Position(a, k) == Position(b, k)
  {
    if a != [] {
      LastByKeys(a[..|a| - 1], b[..|b| - 1], k);
    }
  }

  /** What the members of a normal form are, whatever the order. */
  lemma NormalFinds(order: Order, form: Forms, members: seq<Entry<Json>>, k: string)
    requires ReadableAll(form, members)
    ensures var r := Sorted(order, Merged(NormalMembers(order, form, members)));
      var i := Last(members, k);
      Find(r, k) == if i < 0 then None else Some(Normal(order, form, members[i].value))
  {
    var n := NormalMembers(order, form, members);
    LastByKeys(n, members, k);
    MergingKeepsContent(n, k);
    SortedIsRight(order, Merged(n));
    assert Find(Sorted(order, Merged(n)), k) == Find(Merged(n), k);
  }

  lemma {:induction false} NormalIsWellFormed(order: Order, form: Forms, v: Json)
    requires Sound(form) && Readable(form, v)
    ensures WellFormed(Normal(order, form, v)) && Readable(form, Normal(order, form, v))
    decreases v
  {
    match v
    case Array(items) =>
      forall i | 0 <= i < |items|
        ensures WellFormed(Normal(order, form, items[i])) && Readable(form, Normal(order, form, items[i]))
      {
        NormalIsWellFormed(order, form, items[i]);
      }
    case Object(members) =>
      var r := Sorted(order, Merged(NormalMembers(order, form, members)));
      SortedIsRight(order, Merged(NormalMembers(order, form, members)));
      forall j | 0 <= j < |r| ensures WellFormed(r[j].value) && Readable(form, r[j].value) {
        FindUnique(r, j);
        NormalFinds(order, form, members, r[j].key);
        NormalIsWellFormed(order, form, members[Last(members, r[j].key)].value);
      }
    case _ =>
  }

  /** A normal form is its own normal form. */
  lemma {:induction false} NormalIsIdempotent(order: Order, form: Forms, v: Json)
    requires Sound(form) && Readable(form, v)
    ensures var n := Normal(order, form, v);
      Readable(form, n) && Normal(order, form, n) == n
    decreases v
  {
    NormalIsWellFormed(order, form, v);
    match v
    case Array(items) =>
      forall i | 0 <= i < |items|
        ensures Readable(form, Normal(order, form, items[i]))
        ensures Normal(order, form, Normal(order, form, items[i])) == Normal(order, form, items[i])
      {
        NormalIsIdempotent(order, form, items[i]);
      }
    case Object(members) =>
      var r := Sorted(order, Merged(NormalMembers(order, form, members)));
      SortedIsRight(order, Merged(NormalMembers(order, form, members)));
      forall j | 0 <= j < |r| ensures Readable(form, r[j].value) && Normal(order, form, r[j].value) == r[j].value {
        FindUnique(r, j);
        NormalFinds(order, form, members, r[j].key);
        NormalIsIdempotent(order, form, members[Last(members, r[j].key)].value);
      }
      assert NormalMembers(order, form, r) == r;
      MergingUnique(r);
      SortingSorted(order, r);
    case _ =>
  }

  /** Two values have the same canonical form exactly when they are the same value. */
  lemma {:induction false} SameNormal(form: Forms, v: Json, w: Json)
    requires Readable(form, v) && Readable(form, w)
    ensures Normal(Canonical, form, v) == Normal(Canonical, form, w) <==> Equal(form, v, w)
    decreases v
  {
    match (v, w)
    case (Array(a), Array(b)) => SameNormalItems(form, a, b);
    case (Object(a), Object(b)) => SameNormalMembers(form, a, b);
    case _ =>
  }

  lemma {:induction false} SameNormalItems(form: Forms, a: seq<Json>, b: seq<Json>)
    requires Readable(form, Array(a)) && Readable(form, Array(b))
    ensures Normal(Canonical, form, Array(a)) == Normal(Canonical, form, Array(b)) <==> Equal(form, Array(a), Array(b))
    decreases a
  {
    var x, y := Normal(Canonical, form, Array(a)).items, Normal(Canonical, form, Array(b)).items;
    if |a| == |b| {
      forall i | 0 <= i < |a| ensures x[i] == y[i] <==> Equal(form, a[i], b[i]) {
        SameNormal(form, a[i], b[i]);
      }
      assert x == y <==> forall i | 0 <= i < |a| :: x[i] == y[i];
    }
  }

  lemma {:induction false} SameNormalMembers(form: Forms, a: seq<Entry<Json>>, b: seq<Entry<Json>>)
    requires ReadableAll(form, a) && ReadableAll(form, b)
    ensures Normal(Canonical, form, Object(a)) == Normal(Canonical, form, Object(b)) <==> EqualMembers(form, a, b)
    decreases a
  {
    forall i | 0 <= i < |a| && Last(b, a[i].key) >= 0
      ensures Normal(Canonical, form, a[i].value) == Normal(Canonical, form, b[Last(b, a[i].key)].value)
        <==> Equal(form, a[i].value, b[Last(b, a[i].key)].value)
    {
      SameNormal(form, a[i].value, b[Last(b, a[i].key)].value);
    }
    SettledDecides(form, a, b);
  }

  lemma SettledDecides(form: Forms, a: seq<Entry<Json>>, b: seq<Entry<Json>>)
    requires ReadableAll(form, a) && ReadableAll(form, b) && Settled(form, a, b)
    ensures Sorted(Canonical, Merged(NormalMembers(Canonical, form, a)))
         == Sorted(Canonical, Merged(NormalMembers(Canonical, form, b)))
       <==> EqualMembers(form, a, b)
  {
    if EqualMembers(form, a, b) {
      SameIfEqual(form, a, b);
    } else if Sorted(Canonical, Merged(NormalMembers(Canonical, form, a)))
           == Sorted(Canonical, Merged(NormalMembers(Canonical, form, b))) {
      EqualIfSame(form, a, b);
    }
  }

  ghost predicate Settled(form: Forms, a: seq<Entry<Json>>, b: seq<Entry<Json>>)
    requires ReadableAll(form, a) && ReadableAll(form, b)
  {
    forall i | 0 <= i < |a| && Last(b, a[i].key) >= 0 ::
      Normal(Canonical, form, a[i].value) == Normal(Canonical, form, b[Last(b, a[i].key)].value)
      <==> Equal(form, a[i].value, b[Last(b, a[i].key)].value)
  }

  lemma EqualIfSame(form: Forms, a: seq<Entry<Json>>, b: seq<Entry<Json>>)
    requires ReadableAll(form, a) && ReadableAll(form, b) && Settled(form, a, b)
    requires Sorted(Canonical, Merged(NormalMembers(Canonical, form, a)))
          == Sorted(Canonical, Merged(NormalMembers(Canonical, form, b)))
    ensures EqualMembers(form, a, b)
  {
    forall i | 0 <= i < |a|
      ensures Last(b, a[i].key) >= 0
      ensures Last(a, a[i].key) == i ==> Equal(form, a[i].value, b[Last(b, a[i].key)].value)
    {
      NormalFinds(Canonical, form, a, a[i].key);
      NormalFinds(Canonical, form, b, a[i].key);
    }
    forall j | 0 <= j < |b| ensures Last(a, b[j].key) >= 0 {
      NormalFinds(Canonical, form, a, b[j].key);
      NormalFinds(Canonical, form, b, b[j].key);
    }
  }

  lemma SameIfEqual(form: Forms, a: seq<Entry<Json>>, b: seq<Entry<Json>>)
    requires ReadableAll(form, a) && ReadableAll(form, b) && Settled(form, a, b)
    requires EqualMembers(form, a, b)
    ensures Sorted(Canonical, Merged(NormalMembers(Canonical, form, a)))
         == Sorted(Canonical, Merged(NormalMembers(Canonical, form, b)))
  {
    var x := Sorted(Canonical, Merged(NormalMembers(Canonical, form, a)));
    var y := Sorted(Canonical, Merged(NormalMembers(Canonical, form, b)));
    SortedIsRight(Canonical, Merged(NormalMembers(Canonical, form, a)));
    SortedIsRight(Canonical, Merged(NormalMembers(Canonical, form, b)));
    forall k ensures Find(x, k) == Find(y, k) {
      NormalFinds(Canonical, form, a, k);
      NormalFinds(Canonical, form, b, k);
      var i, j := Last(a, k), Last(b, k);
      if i >= 0 {
        assert Last(b, a[i].key) >= 0;
      }
      if j >= 0 {
        assert Last(a, b[j].key) >= 0;
      }
    }
    CanonicalIsUnique(x, y);
  }

  // ---------------------------------------------------------------- texts

  /** Reads a text and prints its normal form; fails if the text is not JSON or a number in
      it is out of range. */
  function Stringified(order: Order, form: Forms, text: string): Option<string> {
    var v := Parse(text);
    if v.Some? && Readable(form, v.value) then Some(Print(Normal(order, form, v.value))) else None
  }

  /** Reading canonical (or legacy) text back gives the same value and the same text. */
  lemma ReadingBack(order: Order, form: Forms, text: string)
    requires Sound(form) && Stringified(order, form, text).Some?
    ensures var out := Stringified(order, form, text).value;
      && Parse(out) == Some(Normal(order, form, Parse(text).value))
      && Stringified(order, form, out) == Some(out)
  {
    var n := Normal(order, form, Parse(text).value);
    NormalIsWellFormed(order, form, Parse(text).value);
    NormalIsIdempotent(order, form, Parse(text).value);
    PrintThenParse(n);
  }

  /** Two texts have the same canonical text exactly when they stand for the same value. */
  lemma CanonicalTextDecides(form: Forms, a: string, b: string)
    requires Sound(form)
    requires Stringified(Canonical, form, a).Some? && Stringified(Canonical, form, b).Some?
    ensures Stringified(Canonical, form, a) == Stringified(Canonical, form, b)
      <==> Equal(form, Parse(a).value, Parse(b).value)
  {
    var v, w := Parse(a).value, Parse(b).value;
    SameNormal(form, v, w);
    NormalIsWellFormed(Canonical, form, v);
    NormalIsWellFormed(Canonical, form, w);
    if Print(Normal(Canonical, form, v)) == Print(Normal(Canonical, form, w)) {
      PrintingIsInjective(Normal(Canonical, form, v), Normal(Canonical, form, w));
    }
  }

  /** A value is equal to itself with the members of any object listed in another order. */
  lemma PermutedMembers(form: Forms, a: seq<Entry<Json>>, b: seq<Entry<Json>>)
    requires Unique(a) && Unique(b) && multiset(a) == multiset(b)
    ensures EqualMembers(form, a, b)
  {
    forall i | 0 <= i < |a|
      ensures Last(b, a[i].key) >= 0 && b[Last(b, a[i].key)] == a[i]
    {
      assert a[i] in multiset(b);
      var j :| 0 <= j < |b| && b[j] == a[i];
      FindUnique(b, j);
    }
    forall j | 0 <= j < |b| ensures Last(a, b[j].key) >= 0 {
      assert b[j] in multiset(a);
    }
    forall i | 0 <= i < |a| ensures Equal(form, a[i].value, a[i].value) {
      EqualToItself(form, a[i].value);
    }
  }

  /** The same value, but for the order of the members of its objects at any depth; no object
      repeats a key. */
  ghost predicate Shuffled(v: Json, w: Json)
    decreases v
  {
    match (v, w)
    case (Array(a), Array(b)) => |a| == |b| && forall i | 0 <= i < |a| :: Shuffled(a[i], b[i])
    case (Object(a), Object(b)) =>
      Unique(a) && Unique(b) && exists c: seq<Entry<Json>> :: EachShuffled(a, c) && multiset(c) == multiset(b)
    case _ => v == w
  }

  /** The same keys in the same order, each with a shuffled value. */
  ghost predicate EachShuffled(a: seq<Entry<Json>>, c: seq<Entry<Json>>)
    decreases a
  {
    |a| == |c| && forall i | 0 <= i < |a| :: a[i].key == c[i].key && Shuffled(a[i].value, c[i].value)
  }

  lemma FoundAgain(c: seq<Entry<Json>>, b: seq<Entry<Json>>, i: nat)
    requires Unique(b) && multiset(c) == multiset(b) && i < |c|
    ensures Last(b, c[i].key) >= 0 && b[Last(b, c[i].key)] == c[i]
  {
    assert c[i] in multiset(b);
    var j :| 0 <= j < |b| && b[j] == c[i];
    FindUnique(b, j);
  }

  lemma KeysFound(a: seq<Entry<Json>>, c: seq<Entry<Json>>, b: seq<Entry<Json>>, j: nat)
    requires EachShuffled(a, c) && multiset(c) == multiset(b) && j < |b|
    ensures Last(a, b[j].key) >= 0
  {
    assert b[j] in multiset(c);
    var i :| 0 <= i < |c| && c[i] == b[j];
    assert a[i].key == b[j].key;
  }

  /** A shuffled value is equal, whatever the depth. */
  lemma {:induction false} ShuffledIsEqual(form: Forms, v: Json, w: Json)
    requires Shuffled(v, w)
    ensures Equal(form, v, w)
    decreases v
  {
    match (v, w)
    case (Array(a), Array(b)) =>
      forall i | 0 <= i < |a| ensures Equal(form, a[i], b[i]) {
        ShuffledIsEqual(form, a[i], b[i]);
      }
    case (Object(a), Object(b)) => ShuffledMembers(form, a, b);
    case _ =>
  }

  lemma {:induction false} ShuffledMembers(form: Forms, a: seq<Entry<Json>>, b: seq<Entry<Json>>)
    requires Shuffled(Object(a), Object(b))
    ensures EqualMembers(form, a, b)
    decreases a
  {
    var c: seq<Entry<Json>> :| EachShuffled(a, c) && multiset(c) == multiset(b);
    forall i | 0 <= i < |a|
      ensures Last(b, a[i].key) >= 0 && Equal(form, a[i].value, b[Last(b, a[i].key)].value)
    {
      FoundAgain(c, b, i);
      ShuffledIsEqual(form, a[i].value, c[i].value);
    }
    forall j | 0 <= j < |b| ensures Last(a, b[j].key) >= 0 {
      KeysFound(a, c, b, j);
    }
  }

  lemma {:induction false} ShuffledIsReadable(form: Forms, v: Json, w: Json)
    requires Shuffled(v, w) && Readable(form, v)
    ensures Readable(form, w)
    decreases v
  {
    match (v, w)
    case (Array(a), Array(b)) =>
      forall i | 0 <= i < |b| ensures Readable(form, b[i]) {
        ShuffledIsReadable(form, a[i], b[i]);
      }
    case (Object(a), Object(b)) =>
      var c: seq<Entry<Json>> :| EachShuffled(a, c) && multiset(c) == multiset(b);
      forall j | 0 <= j < |b| ensures Readable(form, b[j].value) {
        assert b[j] in multiset(c);
        var i :| 0 <= i < |c| && c[i] == b[j];
        ShuffledIsReadable(form, a[i].value, c[i].value);
      }
    case _ =>
  }

  /** Whatever the order of members at any depth, the canonical text is the same. */
  lemma ShuffledTexts(form: Forms, a: string, b: string)
    requires Sound(form) && Stringified(Canonical, form, a).Some? && Parse(b).Some?
    requires Shuffled(Parse(a).value, Parse(b).value)
    ensures Stringified(Canonical, form, b) == Stringified(Canonical, form, a)
  {
    ShuffledIsReadable(form, Parse(a).value, Parse(b).value);
    ShuffledIsEqual(form, Parse(a).value, Parse(b).value);
    CanonicalTextDecides(form, a, b);
  }

  lemma {:induction false} EqualToItself(form: Forms, v: Json)
    ensures Equal(form, v, v)
    decreases v
  {
    match v
    case Array(items) =>
      forall i | 0 <= i < |items| ensures Equal(form, items[i], items[i]) {
        EqualToItself(form, items[i]);
      }
    case Object(members) =>
      forall i | 0 <= i < |members| ensures Equal(form, members[i].value, members[i].value) {
        EqualToItself(form, members[i].value);
      }
    case _ =>
  }

  /** The legacy form lists array indices first, ascending, and the other keys by their first
      occurrence, each with the value of its last occurrence. */
  lemma LegacyListing(form: Forms, members: seq<Entry<Json>>)
    requires ReadableAll(form, members)
    ensures var r := Normal(Legacy, form, Object(members)).members;
      && Unique(r) && OwnKeyOrder(members, r)
      && forall k :: Find(r, k) ==
           if Last(members, k) < 0 then None else Some(Normal(Legacy, form, members[Last(members, k)].value))
  {
    var n := NormalMembers(Legacy, form, members);
    var r := Sorted(Legacy, Merged(n));
    LegacyOrder(n);
    forall k ensures Find(r, k) ==
           if Last(members, k) < 0 then None else Some(Normal(Legacy, form, members[Last(members, k)].value))
    {
      NormalFinds(Legacy, form, members, k);
    }
    forall k ensures Position(n, k) == Position(members, k) {
      LastByKeys(n, members, k);
    }
  }
}
