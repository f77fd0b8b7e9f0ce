/**
 Lists of keyed entries: which entry of a key counts, how repeated keys are merged, and
 the two orders in which members are printed (internal/questions/fingerprint.go:131-178).
 */
module Ordering {
  import opened Options

  datatype Entry<+T> = Entry(key: string, value: T)

  // ---------------------------------------------------------------- strings

  /** Lexicographic order by code point, which on UTF-8 is the order by byte. */
  predicate Below(a: string, b: string) {
    b != "" && (a == "" || a[0] < b[0] || (a[0] == b[0] && Below(a[1..], b[1..])))
  }

  lemma {:induction false} BelowIsTotal(a: string, b: string)
    ensures !(Below(a, b) && Below(b, a))
    ensures a == b || Below(a, b) || Below(b, a)
    ensures a == b ==> !Below(a, b)
  {
    if a != "" && b != "" && a[0] == b[0] {
      BelowIsTotal(a[1..], b[1..]);
      assert a == [a[0]] + a[1..] && b == [b[0]] + b[1..];
    }
  }

  lemma {:induction false} BelowIsTransitive(a: string, b: string, c: string)
    requires Below(a, b) && Below(b, c)
    ensures Below(a, c)
  {
    if a != "" && a[0] == b[0] == c[0] {
      BelowIsTransitive(a[1..], b[1..], c[1..]);
    }
  }

  /** a is the beginning of b, or the smaller one where they first differ. */
  ghost predicate Precedes(a: string, b: string, k: nat) {
    && k <= |a| && k <= |b| && a[..k] == b[..k]
    && if k < |a| then k < |b| && a[k] < b[k] else k < |b|
  }

  lemma {:induction false} BelowIsLexicographic(a: string, b: string)
    ensures Below(a, b) <==> exists k: nat :: Precedes(a, b, k)
  {
    if a != "" && b != "" && a[0] == b[0] {
      BelowIsLexicographic(a[1..], b[1..]);
      if Below(a, b) {
        var k: nat :| Precedes(a[1..], b[1..], k);
        assert a[..k + 1] == [a[0]] + a[1..][..k] && b[..k + 1] == [b[0]] + b[1..][..k];
        assert Precedes(a, b, k + 1);
      }
      if k: nat :| Precedes(a, b, k) {
        var n := k - 1;
        assert a[1..][..n] == a[..k][1..] && b[1..][..n] == b[..k][1..];
        assert Precedes(a[1..], b[1..], n);
      }
    } else {
      forall k: nat | 0 < k <= |a| && k <= |b| ensures a[..k] != b[..k] {
        assert a[..k][0] == a[0] && b[..k][0] == b[0];
      }
      assert Precedes(a, b, 0) <==> Below(a, b);
    }
  }

  function Digit(c: char): int {
    if '0' <= c <= '9' then c as int - '0' as int else -1
  }

  predicate Digits(s: string) {
    s != "" && forall i | 0 <= i < |s| :: Digit(s[i]) >= 0
  }

  function Number(s: string): int {
    if s == "" then 0 else 10 * Number(s[..|s| - 1]) + Digit(s[|s| - 1])
  }

  function Decimal(n: nat): string {
    if n < 10 then [('0' as int + n) as char] else Decimal(n / 10) + [('0' as int + n % 10) as char]
  }

  /** The number of an array-index key: decimal digits without a needless zero, below 2^32 - 1. */
  function IndexKey(s: string): Option<int> {
    if Digits(s) && 0 <= Number(s) < 4294967295 && Decimal(Number(s)) == s then Some(Number(s)) else None
  }

  lemma {:induction false} DecimalHead(n: nat)
    ensures n > 0 ==> Decimal(n)[0] != '0'
    ensures |Decimal(n)| == 1 <==> n < 10
  {
    if n >= 10 {
      DecimalHead(n / 10);
      assert |Decimal(n)| == |Decimal(n / 10)| + 1;
    }
  }

  lemma {:induction false} NumberGrows(s: string)
    requires Digits(s)
    ensures Number(s) >= 0 && (s[0] != '0' ==> Number(s) > 0)
  {
    if |s| > 1 {
      var init := s[..|s| - 1];
      assert forall i | 0 <= i < |init| :: init[i] == s[i];
      NumberGrows(init);
    } else {
      assert s[..0] == "";
    }
  }

  lemma {:induction false} NumberBack(s: string)
    requires Digits(s) && (s[0] != '0' || |s| == 1)
    ensures Number(s) >= 0 && Decimal(Number(s)) == s
  {
    NumberGrows(s);
    var n := |s| - 1;
    var init, d := s[..n], Digit(s[n]);
    assert s == init + [s[n]];
    if n > 0 {
      assert forall i | 0 <= i < |init| :: init[i] == s[i];
      NumberBack(init);
      NumberGrows(init);
      assert Number(s) == 10 * Number(init) + d && Number(s) / 10 == Number(init) && Number(s) % 10 == d;
    } else {
      assert init == "" && Number(s) == d;
    }
  }

  /** The keys that count as array indices: "0", or decimal digits of which the first is not
      zero, up to 4294967294. */
  lemma IndexKeysAre(s: string)
    ensures IndexKey(s).Some? <==>
      && s != "" && (forall i | 0 <= i < |s| :: '0' <= s[i] <= '9')
      && (s[0] != '0' || s == "0") && Number(s) <= 4294967294
    ensures IndexKey(s).Some? ==> IndexKey(s).value == Number(s)
  {
    if Digits(s) {
      NumberGrows(s);
      if s[0] != '0' || |s| == 1 {
        NumberBack(s);
      } else if Decimal(Number(s)) == s {
        DecimalHead(Number(s));
      }
    }
  }

  // ---------------------------------------------------------------- the two orders

  datatype Order = Canonical | Legacy {
    predicate Before(a: string, b: string) {
      if Canonical? then Below(a, b)
      else
        var x, y := IndexKey(a), IndexKey(b);
        if x.Some? != y.Some? then x.Some? else x.Some? && x.value < y.value
    }
  }

  lemma OrderIsTotal(order: Order, a: string, b: string)
    ensures !(order.Before(a, b) && order.Before(b, a))
  {
    BelowIsTotal(a, b);
  }

  /** "Not after" is transitive. */
  lemma NotAfter(order: Order, a: string, b: string, c: string)
    requires !order.Before(b, a) && !order.Before(c, b)
    ensures !order.Before(c, a)
  {
    if order.Canonical? {
      BelowIsTotal(a, b);
      BelowIsTotal(b, c);
      BelowIsTotal(a, c);
      if Below(a, b) && Below(b, c) {
        BelowIsTransitive(a, b, c);
      }
    }
  }

  // ---------------------------------------------------------------- lookup

  /** The last entry of a key, or -1. */
  function Last<T>(s: seq<Entry<T>>, key: string): (i: int)
    ensures -1 <= i < |s|
    ensures i >= 0 ==> s[i].key == key
    ensures forall j | i < j < |s| :: s[j].key != key
  {
    if s == [] then -1
    else if s[|s| - 1].key == key then |s| - 1
    else Last(s[..|s| - 1], key)
  }

  function Find<T>(s: seq<Entry<T>>, key: string): Option<T> {
    var i := Last(s, key);
    if i < 0 then None else Some(s[i].value)
  }

  /** Both lists map the same keys to the same values. */
  ghost predicate SameContent<T(!new)>(a: seq<Entry<T>>, b: seq<Entry<T>>) {
    forall k :: Find(a, k) == Find(b, k)
  }

  predicate Unique<T>(s: seq<Entry<T>>) {
    forall i, j | 0 <= i < j < |s| :: s[i].key != s[j].key
  }

  lemma FindLast<T>(s: seq<Entry<T>>, e: Entry<T>, k: string)
    ensures Find(s + [e], k) == if k == e.key then Some(e.value) else Find(s, k)
  {
    assert (s + [e])[..|s|] == s;
  }

  // ---------------------------------------------------------------- merging

  /** The position of a key, or the length. */
  function Position<T>(s: seq<Entry<T>>, key: string): (i: nat)
    ensures i <= |s| && (i < |s| ==> s[i].key == key)
    ensures forall j | 0 <= j < i :: s[j].key != key
  {
    if s == [] then 0
    else
      var i := Position(s[..|s| - 1], key);
      if i < |s| - 1 || s[|s| - 1].key == key then i else |s|
  }

  function MergedWith<T>(r: seq<Entry<T>>, e: Entry<T>): seq<Entry<T>> {
    var i := Position(r, e.key);
    if i < |r| then r[i := e] else r + [e]
  }

  /** Repeated keys keep their first place and take their last value. */
  function Merged<T>(s: seq<Entry<T>>): (r: seq<Entry<T>>)
    ensures Unique(r)
  {
    if s == [] then []
    else MergedWith(Merged(s[..|s| - 1]), s[|s| - 1])
  }

  lemma FindUnique<T>(s: seq<Entry<T>>, i: nat)
    requires Unique(s) && i < |s|
    ensures Last(s, s[i].key) == i && Find(s, s[i].key) == Some(s[i].value)
  {
  }

  lemma FindReplaced<T>(s: seq<Entry<T>>, i: nat, e: Entry<T>, k: string)
    requires Unique(s) && i < |s| && s[i].key == e.key
    ensures Find(s[i := e], k) == if k == e.key then Some(e.value) else Find(s, k)
  {
    var t := s[i := e];
    var j := Last(s, k);
    if j >= 0 {
      FindUnique(s, j);
      FindUnique(t, j);
    } else {
      assert Last(t, k) < 0;
    }
  }

  lemma {:induction false} MergingKeepsContent<T(!new)>(s: seq<Entry<T>>, k: string)
    ensures Find(Merged(s), k) == Find(s, k)
  {
    if s != [] {
      var before := s[..|s| - 1];
      var e := s[|s| - 1];
      var r := Merged(before);
      MergingKeepsContent(before, k);
      assert s == before + [e];
      FindLast(before, e, k);
      if Position(r, e.key) < |r| {
        FindReplaced(r, Position(r, e.key), e, k);
      } else {
        FindLast(r, e, k);
      }
    }
  }

  lemma NewKey<T>(s: seq<Entry<T>>)
    requires Unique(s) && s != []
    ensures Unique(s[..|s| - 1]) && Position(s[..|s| - 1], s[|s| - 1].key) == |s| - 1
  {
    var init := s[..|s| - 1];
    assert forall j | 0 <= j < |init| :: init[j] == s[j];
  }

  lemma {:induction false} MergingUnique<T>(s: seq<Entry<T>>)
    requires Unique(s)
    ensures Merged(s) == s
  {
    if s != [] {
      var init := s[..|s| - 1];
      MergingUnique(init);
      NewKey(s);
      assert s == init + [s[|s| - 1]];
    }
  }

  lemma PositionGrows<T>(s: seq<Entry<T>>, e: Entry<T>, key: string)
    ensures Position(s + [e], key) == if Position(s, key) < |s| || e.key == key then Position(s, key) else |s| + 1
  {
    assert (s + [e])[..|s|] == s;
  }

  // ---------------------------------------------------------------- sorting

  /** Where a stable sort puts one more entry. */
  function Inserted<T>(order: Order, s: seq<Entry<T>>, e: Entry<T>): seq<Entry<T>> {
    if s == [] || !order.Before(e.key, s[|s| - 1].key) then s + [e]
    else Inserted(order, s[..|s| - 1], e) + [s[|s| - 1]]
  }

  function Sorted<T>(order: Order, s: seq<Entry<T>>): seq<Entry<T>> {
    if s == [] then [] else Inserted(order, Sorted(order, s[..|s| - 1]), s[|s| - 1])
  }

  predicate InOrder<T>(order: Order, s: seq<Entry<T>>) {
    forall i, j | 0 <= i < j < |s| :: !order.Before(s[j].key, s[i].key)
  }

  lemma BehindAll<T>(order: Order, s: seq<Entry<T>>, e: Entry<T>)
    requires InOrder(order, s) && s != [] && !order.Before(e.key, s[|s| - 1].key)
    ensures forall j | 0 <= j < |s| :: !order.Before(e.key, s[j].key)
  {
    forall j | 0 <= j < |s| ensures !order.Before(e.key, s[j].key) {
      if j < |s| - 1 {
        NotAfter(order, s[j].key, s[|s| - 1].key, e.key);
      }
    }
  }

  /** The place of the new entry: everything before it is not after it, and everything that
      follows it is. */
  lemma {:induction false} InsertedAt<T>(order: Order, s: seq<Entry<T>>, e: Entry<T>) returns (i: nat)
    requires InOrder(order, s)
    ensures i <= |s| && Inserted(order, s, e) == s[..i] + [e] + s[i..]
    ensures forall j | 0 <= j < i :: !order.Before(e.key, s[j].key)
    ensures forall j | i <= j < |s| :: order.Before(e.key, s[j].key)
  {
    if s == [] {
      i := 0;
    } else if !order.Before(e.key, s[|s| - 1].key) {
      i := |s|;
      BehindAll(order, s, e);
      assert s[..i] == s && s[i..] == [] && s + [e] + [] == s + [e];
    } else {
      var init := s[..|s| - 1];
      i := InsertedAt(order, init, e);
      AroundNew(s, i, e);
    }
  }

  lemma AroundNew<T>(s: seq<Entry<T>>, i: nat, e: Entry<T>)
    requires i < |s|
    ensures var init := s[..|s| - 1];
      init[..i] + [e] + init[i..] + [s[|s| - 1]] == s[..i] + [e] + s[i..]
  {
  }

  lemma InsertKeepsOrder<T>(order: Order, s: seq<Entry<T>>, e: Entry<T>)
    requires InOrder(order, s)
    ensures InOrder(order, Inserted(order, s, e))
  {
    var i := InsertedAt(order, s, e);
    var r := Inserted(order, s, e);
    forall j, k | 0 <= j < k < |r| ensures !order.Before(r[k].key, r[j].key) {
      if j == i {
        OrderIsTotal(order, r[k].key, e.key);
      }
    }
  }

  lemma InsertKeepsContent<T(!new)>(order: Order, s: seq<Entry<T>>, e: Entry<T>)
    requires InOrder(order, s) && Unique(s + [e])
    ensures Unique(Inserted(order, s, e))
    ensures forall k :: Find(Inserted(order, s, e), k) == Find(s + [e], k)
  {
    var i := InsertedAt(order, s, e);
    MovedKeepsUnique(s, e, i);
    forall k ensures Find(s[..i] + [e] + s[i..], k) == Find(s + [e], k) {
      MovedKeepsFind(s, e, i, k);
    }
  }

  lemma MovedKeepsUnique<T>(s: seq<Entry<T>>, e: Entry<T>, i: nat)
    requires i <= |s| && Unique(s + [e])
    ensures Unique(s[..i] + [e] + s[i..])
  {
    var r, t := s[..i] + [e] + s[i..], s + [e];
    forall j, k | 0 <= j < k < |r| ensures r[j].key != r[k].key {
      var j' := if j < i then j else if j == i then |s| else j - 1;
      var k' := if k < i then k else if k == i then |s| else k - 1;
      assert t[j'].key == r[j].key && t[k'].key == r[k].key;
    }
  }

  lemma MovedKeepsFind<T>(s: seq<Entry<T>>, e: Entry<T>, i: nat, k: string)
    requires i <= |s| && Unique(s + [e]) && Unique(s[..i] + [e] + s[i..])
    ensures Find(s[..i] + [e] + s[i..], k) == Find(s + [e], k)
  {
    var r, t := s[..i] + [e] + s[i..], s + [e];
    var j := Last(t, k);
    if j >= 0 {
      var at := if j == |s| then i else if j < i then j else j + 1;
      assert r[at] == t[j];
      FindUnique(r, at);
    } else {
      forall at | 0 <= at < |r| ensures r[at].key != k {
        assert r[at] == t[if at < i then at else if at == i then |s| else at - 1];
      }
    }
  }

  lemma {:induction false} SortedIsRight<T(!new)>(order: Order, s: seq<Entry<T>>)
    requires Unique(s)
    ensures InOrder(order, Sorted(order, s)) && Unique(Sorted(order, s))
    ensures SameContent(Sorted(order, s), s) && |Sorted(order, s)| == |s|
  {
    if s != [] {
      var init := s[..|s| - 1];
      var e := s[|s| - 1];
      SortedIsRight(order, init);
      var r := Sorted(order, init);
      assert s == init + [e];
      forall j | 0 <= j < |r| ensures r[j].key != e.key {
        FindUnique(r, j);
        assert Find(init, r[j].key) == Find(r, r[j].key);
      }
      assert Unique(r + [e]);
      var i := InsertedAt(order, r, e);
      InsertKeepsOrder(order, r, e);
      InsertKeepsContent(order, r, e);
      forall k ensures Find(Sorted(order, s), k) == Find(s, k) {
        FindLast(r, e, k);
        FindLast(init, e, k);
      }
    }
  }

  lemma {:induction false} SortingSorted<T>(order: Order, s: seq<Entry<T>>)
    requires InOrder(order, s)
    ensures Sorted(order, s) == s
  {
    if s != [] {
      SortingSorted(order, s[..|s| - 1]);
      if |s| > 1 {
        assert !order.Before(s[|s| - 1].key, s[|s| - 2].key);
      }
      assert s == s[..|s| - 1] + [s[|s| - 1]];
    }
  }

  /** In the canonical order there is only one way to list a given content. */
  lemma {:induction false} CanonicalIsUnique<T(!new)>(a: seq<Entry<T>>, b: seq<Entry<T>>)
    requires InOrder(Canonical, a) && Unique(a) && InOrder(Canonical, b) && Unique(b)
    requires SameContent(a, b)
    ensures a == b
    decreases |a|
  {
    if a == [] {
      if b != [] {
        FindUnique(b, 0);
      }
    } else {
      var x := a[|a| - 1];
      FindUnique(a, |a| - 1);
      assert Find(a, x.key) == Find(b, x.key);
      var y := b[|b| - 1];
      FindUnique(b, |b| - 1);
      assert Find(b, y.key) == Find(a, y.key);
      BelowIsTotal(x.key, y.key);
      assert x == y;
      Shorter(a, b);
      CanonicalIsUnique(a[..|a| - 1], b[..|b| - 1]);
      assert a == a[..|a| - 1] + [x] && b == b[..|b| - 1] + [y];
    }
  }

  lemma Shorter<T(!new)>(a: seq<Entry<T>>, b: seq<Entry<T>>)
    requires a != [] && b != [] && Unique(a) && Unique(b) && SameContent(a, b)
    requires a[|a| - 1] == b[|b| - 1]
    ensures SameContent(a[..|a| - 1], b[..|b| - 1])
  {
    var e := a[|a| - 1];
    var a', b' := a[..|a| - 1], b[..|b| - 1];
    assert a == a' + [e] && b == b' + [e];
    forall k ensures Find(a', k) == Find(b', k) {
      assert Find(a, k) == Find(b, k);
      FindLast(a', e, k);
      FindLast(b', e, k);
      if k == e.key {
        assert Last(a', k) < 0 && Last(b', k) < 0;
      }
    }
  }

  // ---------------------------------------------------------------- the legacy order

  /** One key stands before another: it is smaller, or it came first. */
  predicate Ahead<T>(order: Order, s: seq<Entry<T>>, a: string, b: string) {
    order.Before(a, b) || Position(s, a) < Position(s, b)
  }

  predicate Stable<T>(order: Order, s: seq<Entry<T>>, r: seq<Entry<T>>) {
    forall i, j | 0 <= i < j < |r| :: Ahead(order, s, r[i].key, r[j].key)
  }

  lemma AheadGrows<T>(order: Order, s: seq<Entry<T>>, e: Entry<T>, a: string, b: string)
    requires Ahead(order, s, a, b) && Position(s, a) < |s| && Position(s, b) < |s|
    ensures Ahead(order, s + [e], a, b)
  {
    PositionGrows(s, e, a);
    PositionGrows(s, e, b);
  }

  lemma AheadOfNew<T>(order: Order, s: seq<Entry<T>>, e: Entry<T>, a: string)
    requires Position(s, a) < |s| && Position(s, e.key) == |s|
    ensures Ahead(order, s + [e], a, e.key)
  {
    PositionGrows(s, e, a);
    PositionGrows(s, e, e.key);
  }

  predicate AllPresent<T>(s: seq<Entry<T>>, r: seq<Entry<T>>) {
    forall i | 0 <= i < |r| :: Position(s, r[i].key) < |s|
  }

  /** A relation between any two keys in a list survives an insertion that respects it. */
  lemma PairsAfterInsertion<T>(ahead: (string, string) -> bool, r: seq<Entry<T>>, e: Entry<T>, at: nat)
    requires at <= |r|
    requires forall i, j | 0 <= i < j < |r| :: ahead(r[i].key, r[j].key)
    requires forall i | 0 <= i < at :: ahead(r[i].key, e.key)
    requires forall i | at <= i < |r| :: ahead(e.key, r[i].key)
    ensures var r' := r[..at] + [e] + r[at..];
      forall i, j | 0 <= i < j < |r'| :: ahead(r'[i].key, r'[j].key)
  {
  }

  lemma InsertionIsStable<T>(order: Order, s: seq<Entry<T>>, e: Entry<T>, r: seq<Entry<T>>, at: nat)
    requires Stable(order, s, r) && AllPresent(s, r) && Position(s, e.key) == |s| && at <= |r|
    requires forall k | at <= k < |r| :: order.Before(e.key, r[k].key)
    ensures Stable(order, s + [e], r[..at] + [e] + r[at..])
  {
    var ahead := (a: string, b: string) => Ahead(order, s + [e], a, b);
    forall i, j | 0 <= i < j < |r| ensures ahead(r[i].key, r[j].key) {
      AheadGrows(order, s, e, r[i].key, r[j].key);
    }
    forall i | 0 <= i < at ensures ahead(r[i].key, e.key) {
      AheadOfNew(order, s, e, r[i].key);
    }
    PairsAfterInsertion(ahead, r, e, at);
  }

  lemma {:induction false} SortIsStable<T(!new)>(order: Order, s: seq<Entry<T>>)
    requires Unique(s)
    ensures Stable(order, s, Sorted(order, s))
  {
    if s != [] {
      var init := s[..|s| - 1];
      var e := s[|s| - 1];
      var before := Sorted(order, init);
      assert s == init + [e];
      SortedIsRight(order, init);
      SortIsStable(order, init);
      var at := InsertedAt(order, before, e);
      forall i | 0 <= i < |before| ensures Position(init, before[i].key) < |init| {
        Present(init, before, i);
      }
      InsertionIsStable(order, init, e, before, at);
    }
  }

  lemma Present<T(!new)>(s: seq<Entry<T>>, r: seq<Entry<T>>, i: nat)
    requires Unique(r) && SameContent(r, s) && i < |r|
    ensures Position(s, r[i].key) < |s|
  {
    FindUnique(r, i);
    assert Find(r, r[i].key) == Find(s, r[i].key);
  }

  predicate ByFirst<T>(s: seq<Entry<T>>, r: seq<Entry<T>>) {
    forall i, j | 0 <= i < j < |r| :: Position(s, r[i].key) < Position(s, r[j].key)
  }

  /** Merging lists the keys in the order of their first occurrence. */
  lemma {:induction false} MergedByFirst<T(!new)>(s: seq<Entry<T>>)
    ensures ByFirst(s, Merged(s)) && AllPresent(s, Merged(s))
  {
    if s != [] {
      var init := s[..|s| - 1];
      var e := s[|s| - 1];
      MergedByFirst(init);
      assert s == init + [e];
      MergingKeepsContent(init, e.key);
      MergeOne(init, Merged(init), e);
    }
  }

  lemma PlaceAfterMerge<T>(s: seq<Entry<T>>, r: seq<Entry<T>>, e: Entry<T>, i: nat)
    requires AllPresent(s, r) && (Position(s, e.key) < |s| ==> Position(r, e.key) < |r|)
    requires i < |MergedWith(r, e)|
    ensures Position(s + [e], MergedWith(r, e)[i].key) == if i < |r| then Position(s, r[i].key) else |s|
  {
    PositionGrows(s, e, MergedWith(r, e)[i].key);
  }

  lemma MergeOne<T>(s: seq<Entry<T>>, r: seq<Entry<T>>, e: Entry<T>)
    requires ByFirst(s, r) && AllPresent(s, r) && (Position(s, e.key) < |s| ==> Position(r, e.key) < |r|)
    ensures ByFirst(s + [e], MergedWith(r, e)) && AllPresent(s + [e], MergedWith(r, e))
  {
    var r' := MergedWith(r, e);
    forall i, j | 0 <= i < j < |r'| ensures Position(s + [e], r'[i].key) < Position(s + [e], r'[j].key) {
      PlaceAfterMerge(s, r, e, i);
      PlaceAfterMerge(s, r, e, j);
    }
    forall i | 0 <= i < |r'| ensures Position(s + [e], r'[i].key) < |s + [e]| {
      PlaceAfterMerge(s, r, e, i);
    }
  }

  /** What order the keys are listed in: array indices first, ascending, and then the others,
      each at the place of its first occurrence (section 10.1.11.1 of ECMA-262). */
  predicate OwnKeyOrder<T>(s: seq<Entry<T>>, r: seq<Entry<T>>) {
    forall i, j | 0 <= i < j < |r| ::
      var x, y := IndexKey(r[i].key), IndexKey(r[j].key);
      if y.Some? then x.Some? && x.value < y.value
      else x.None? ==> Position(s, r[i].key) < Position(s, r[j].key)
  }

  lemma LegacyOrder<T(!new)>(s: seq<Entry<T>>)
    ensures var r := Sorted(Legacy, Merged(s));
      Unique(r) && SameContent(r, s) && OwnKeyOrder(s, r)
  {
    var m := Merged(s);
    var r := Sorted(Legacy, m);
    SortedIsRight(Legacy, m);
    SortIsStable(Legacy, m);
    MergedByFirst(s);
    forall k ensures Find(r, k) == Find(s, k) {
      MergingKeepsContent(s, k);
    }
    forall i, j | 0 <= i < j < |r|
      ensures var x, y := IndexKey(r[i].key), IndexKey(r[j].key);
        if y.Some? then x.Some? && x.value < y.value
        else x.None? ==> Position(s, r[i].key) < Position(s, r[j].key)
    {
      var x, y := IndexKey(r[i].key), IndexKey(r[j].key);
      assert !Legacy.Before(r[j].key, r[i].key);
      if x.Some? && y.Some? {
        assert Decimal(x.value) == r[i].key != r[j].key == Decimal(y.value);
      }
      if x.None? && y.None? {
        Present(m, r, i);
        Present(m, r, j);
        assert Ahead(Legacy, m, r[i].key, r[j].key);
        assert m[Position(m, r[i].key)].key == r[i].key && m[Position(m, r[j].key)].key == r[j].key;
      }
    }
  }

  // ---------------------------------------------------------------- changing the values

  function Mapped<T, U>(f: T -> U, s: seq<Entry<T>>): seq<Entry<U>> {
    seq(|s|, i requires 0 <= i < |s| => Entry(s[i].key, f(s[i].value)))
  }

  /** Merging and sorting look at the keys alone. */
  lemma {:induction false} MergingMapped<T, U>(f: T -> U, s: seq<Entry<T>>)
    ensures Merged(Mapped(f, s)) == Mapped(f, Merged(s))
  {
    if s != [] {
      var init := s[..|s| - 1];
      var e := s[|s| - 1];
      MergingMapped(f, init);
      assert Mapped(f, s)[..|s| - 1] == Mapped(f, init);
      MergeOneMapped(f, Merged(init), e);
    }
  }

  lemma MergeOneMapped<T, U>(f: T -> U, r: seq<Entry<T>>, e: Entry<T>)
    ensures var i := Position(r, e.key);
      var e' := Entry(e.key, f(e.value));
      && Position(Mapped(f, r), e.key) == i
      && Mapped(f, r + [e]) == Mapped(f, r) + [e']
      && (i < |r| ==> Mapped(f, r[i := e]) == Mapped(f, r)[i := e'])
  {
    PositionMapped(f, r, e.key);
  }

  lemma {:induction false} PositionMapped<T, U>(f: T -> U, s: seq<Entry<T>>, key: string)
    ensures Position(Mapped(f, s), key) == Position(s, key)
  {
    if s != [] {
      PositionMapped(f, s[..|s| - 1], key);
      assert Mapped(f, s)[..|s| - 1] == Mapped(f, s[..|s| - 1]);
    }
  }

  lemma {:induction false} InsertingMapped<T, U>(f: T -> U, order: Order, s: seq<Entry<T>>, e: Entry<T>)
    ensures Inserted(order, Mapped(f, s), Entry(e.key, f(e.value))) == Mapped(f, Inserted(order, s, e))
  {
    if s != [] && order.Before(e.key, s[|s| - 1].key) {
      InsertingMapped(f, order, s[..|s| - 1], e);
      assert Mapped(f, s)[..|s| - 1] == Mapped(f, s[..|s| - 1]);
    }
  }

  lemma {:induction false} SortingMapped<T, U>(f: T -> U, order: Order, s: seq<Entry<T>>)
    ensures Sorted(order, Mapped(f, s)) == Mapped(f, Sorted(order, s))
  {
    if s != [] {
      var init := s[..|s| - 1];
      SortingMapped(f, order, init);
      assert Mapped(f, s)[..|s| - 1] == Mapped(f, init);
      InsertingMapped(f, order, Sorted(order, init), s[|s| - 1]);
    }
  }
}
