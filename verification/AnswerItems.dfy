/**
 The rows in which a standard answer is stored (internal/bank/store.go:128-179), kept in
 the order of their primary key. A table is the list of its rows.
 */
module AnswerItems {
  import opened Options
  import opened Ordering
  import opened Answers

  datatype Item = Item(slot: nat, variant: nat, value: string)

  /** The order of the primary key. */
  predicate Precedes(a: Item, b: Item) {
    a.slot < b.slot || (a.slot == b.slot && a.variant < b.variant)
  }

  /** One more row in its place; none if its key is taken. */
  function Put(rows: seq<Item>, item: Item): Option<seq<Item>> {
    if rows == [] || Precedes(rows[|rows| - 1], item) then Some(rows + [item])
    else if !Precedes(item, rows[|rows| - 1]) then None
    else
      var r := Put(rows[..|rows| - 1], item);
      if r.None? then None else Some(r.value + [rows[|rows| - 1]])
  }

  /** By slot, and within a slot by variant; no key twice. */
  predicate InKeyOrder(rows: seq<Item>) {
    forall i, j | 0 <= i < j < |rows| ::
      rows[i].slot < rows[j].slot || (rows[i].slot == rows[j].slot && rows[i].variant < rows[j].variant)
  }

  /** A row goes where its key belongs, unless there is one with its key. */
  lemma {:induction false} PutKeepsOrder(rows: seq<Item>, item: Item)
    requires InKeyOrder(rows)
    ensures Put(rows, item).None? <==>
      exists i | 0 <= i < |rows| :: rows[i].slot == item.slot && rows[i].variant == item.variant
    ensures Put(rows, item).Some? ==> InKeyOrder(Put(rows, item).value)
    ensures Put(rows, item).Some? ==> forall x :: x in Put(rows, item).value <==> x in rows || x == item
  {
    if rows != [] {
      var n := |rows| - 1;
      PutKeepsOrder(rows[..n], item);
      var r := Put(rows, item);
      if Precedes(item, rows[n]) && r.Some? {
        var front := Put(rows[..n], item).value;
        forall i | 0 <= i < |front| ensures Precedes(front[i], rows[n]) {
          assert front[i] in front;
        }
      }
    }
  }

  // ---------------------------------------------------------------- writing

  function StoredValues(a: Answer): seq<string> {
    if a.kind == Choice || a.kind == Judge then [a.answer] else a.answers
  }

  /** What goes into a slot: the accepted texts of a blank, or else the one value. */
  function Variants(a: Answer, i: nat): seq<string>
    requires i < |StoredValues(a)|
  {
    var key := Decimal(i + 1);
    if a.kind == Fill && key in a.accepted && |a.accepted[key]| > 0 then a.accepted[key] else [StoredValues(a)[i]]
  }

  function SlotRows(slot: nat, variants: seq<string>): seq<Item> {
    seq(|variants|, j requires 0 <= j < |variants| => Item(slot, j, variants[j]))
  }

  function RowsUpTo(a: Answer, n: nat): (r: seq<Item>)
    requires n <= |StoredValues(a)|
    ensures r != [] ==> r[|r| - 1].slot <= n
  {
    if n == 0 then [] else RowsUpTo(a, n - 1) + SlotRows(n, Variants(a, n - 1))
  }

  function RowsOf(a: Answer): seq<Item> {
    RowsUpTo(a, |StoredValues(a)|)
  }

  /** Writes an answer into a table from which the old one has been deleted; no key clashes. */
  method WriteAnswer(a: Answer) returns (ok: bool, rows: seq<Item>)
    ensures ok && rows == RowsOf(a)
  {
    var values := a.answers;
    if a.kind == Choice || a.kind == Judge {
      values := [a.answer];
    }
    rows := [];
    for i := 0 to |values|
      invariant rows == RowsUpTo(a, i)
    {
      var variants := [values[i]];
      var key := Decimal(i + 1);
      if a.kind == Fill && key in a.accepted && |a.accepted[key]| > 0 {
        variants := a.accepted[key];
      }
      ok, rows := WriteSlot(rows, i + 1, variants);
      if !ok {
        return;
      }
    }
    ok := true;
  }

  method WriteSlot(before: seq<Item>, slot: nat, variants: seq<string>) returns (ok: bool, rows: seq<Item>)
    requires before != [] ==> before[|before| - 1].slot < slot
    ensures ok && rows == before + SlotRows(slot, variants)
  {
    rows := before;
    for j := 0 to |variants|
      invariant rows == before + SlotRows(slot, variants)[..j]
    {
      var item := Item(slot, j, variants[j]);
      assert j > 0 ==> rows[|rows| - 1] == SlotRows(slot, variants)[j - 1];
      var r := Put(rows, item);
      if r.None? {
        return false, rows;
      }
      rows := r.value;
    }
    return true, rows;
  }

  // ---------------------------------------------------------------- reading

  function ListUnder(accepted: map<string, seq<string>>, key: string): seq<string> {
    if key in accepted then accepted[key] else []
  }

  function WithRow(a: Answer, row: Item): Answer {
    match a.kind
    case Choice => a.(answer := row.value)
    case Judge => a.(answer := row.value)
    case Multi => a.(answers := a.answers + [row.value])
    case Fill =>
      var key := Decimal(row.slot);
      a.(accepted := a.accepted[key := ListUnder(a.accepted, key) + [row.value]],
         answers := if row.variant == 0 then a.answers + [row.value] else a.answers)
    case Reference => a
  }

  function ReadOf(kind: Kind, rows: seq<Item>): (a: Answer)
    ensures a.kind == kind
  {
    if rows == [] then Answer(kind, "", [], map[])
    else WithRow(ReadOf(kind, rows[..|rows| - 1]), rows[|rows| - 1])
  }

  method ReadAnswer(kind: Kind, rows: seq<Item>) returns (a: Answer)
    ensures a == ReadOf(kind, rows)
  {
    a := Answer(kind, "", [], map[]);
    for i := 0 to |rows|
      invariant a == ReadOf(kind, rows[..i])
    {
      assert rows[..i + 1][..i] == rows[..i];
      var row := rows[i];
      match kind {
        case Choice => a := a.(answer := row.value);
        case Judge => a := a.(answer := row.value);
        case Multi => a := a.(answers := a.answers + [row.value]);
        case Fill =>
          var key := Decimal(row.slot);
          a := a.(accepted := a.accepted[key := ListUnder(a.accepted, key) + [row.value]]);
          if row.variant == 0 {
            a := a.(answers := a.answers + [row.value]);
          }
        case Reference =>
      }
    }
    assert rows[..|rows|] == rows;
  }

  // ---------------------------------------------------------------- the round trip

  lemma ReadMore(kind: Kind, rows: seq<Item>, row: Item)
    ensures ReadOf(kind, rows + [row]) == WithRow(ReadOf(kind, rows), row)
  {
    assert (rows + [row])[..|rows|] == rows;
  }

  lemma {:induction false} MultiRead(a: Answer, n: nat)
    requires a.kind == Multi && n <= |a.answers|
    ensures ReadOf(Multi, RowsUpTo(a, n)) == Answer(Multi, "", a.answers[..n], map[])
  {
    if n > 0 {
      MultiRead(a, n - 1);
      MultiRow(a, n);
      MultiMore(RowsUpTo(a, n - 1), a.answers, n);
    } else {
      assert a.answers[..0] == [];
    }
  }

  lemma MultiMore(rows: seq<Item>, answers: seq<string>, n: nat)
    requires 0 < n <= |answers| && ReadOf(Multi, rows) == Answer(Multi, "", answers[..n - 1], map[])
    ensures ReadOf(Multi, rows + [Item(n, 0, answers[n - 1])]) == Answer(Multi, "", answers[..n], map[])
  {
    ReadMore(Multi, rows, Item(n, 0, answers[n - 1]));
    assert answers[..n] == answers[..n - 1] + [answers[n - 1]];
  }

  lemma MultiRow(a: Answer, n: nat)
    requires a.kind == Multi && 0 < n <= |a.answers|
    ensures RowsUpTo(a, n) == RowsUpTo(a, n - 1) + [Item(n, 0, a.answers[n - 1])]
  {
    assert Variants(a, n - 1) == [a.answers[n - 1]];
    assert SlotRows(n, [a.answers[n - 1]]) == [Item(n, 0, a.answers[n - 1])];
  }

  lemma AllMultiRead(a: Answer)
    requires a.kind == Multi && a == Answer(Multi, "", a.answers, map[])
    ensures ReadOf(Multi, RowsOf(a)) == a
  {
    MultiRead(a, |a.answers|);
    assert a.answers[..|a.answers|] == a.answers;
  }


  function WithVariants(a: Answer, slot: nat, list: seq<string>): Answer
    requires list != []
  {
    a.(accepted := a.accepted[Decimal(slot) := list], answers := a.answers + [list[0]])
  }

  lemma VariantMore(a: Answer, slot: nat, list: seq<string>, t: string)
    requires a.kind == Fill && list != []
    ensures WithRow(WithVariants(a, slot, list), Item(slot, |list|, t)) == WithVariants(a, slot, list + [t])
  {
  }

  lemma VariantFirst(a: Answer, slot: nat, t: string)
    requires a.kind == Fill && Decimal(slot) !in a.accepted
    ensures WithRow(a, Item(slot, 0, t)) == WithVariants(a, slot, [t])
  {
    assert [] + [t] == [t];
  }

  lemma SlotRowsMore(rows: seq<Item>, slot: nat, list: seq<string>, t: string)
    ensures rows + SlotRows(slot, list + [t]) == rows + SlotRows(slot, list) + [Item(slot, |list|, t)]
  {
    assert SlotRows(slot, list + [t]) == SlotRows(slot, list) + [Item(slot, |list|, t)];
  }

  /** Reading the variants of a new blank. */
  lemma {:induction false} VariantsRead(rows: seq<Item>, slot: nat, list: seq<string>)
    requires list != [] && Decimal(slot) !in ReadOf(Fill, rows).accepted
    ensures ReadOf(Fill, rows + SlotRows(slot, list)) == WithVariants(ReadOf(Fill, rows), slot, list)
  {
    var init, t := list[..|list| - 1], list[|list| - 1];
    assert list == init + [t];
    SlotRowsMore(rows, slot, init, t);
    ReadMore(Fill, rows + SlotRows(slot, init), Item(slot, |init|, t));
    if init == [] {
      assert rows + SlotRows(slot, init) == rows;
      VariantFirst(ReadOf(Fill, rows), slot, t);
    } else {
      VariantsRead(rows, slot, init);
      VariantMore(ReadOf(Fill, rows), slot, init, t);
    }
  }

  lemma NewSlot(lists: seq<seq<string>>)
    ensures Decimal(|lists| + 1) !in Slots(lists)
  {
    SlotsHave(lists, Decimal(|lists| + 1));
    NumberedOnce(|lists| + 1);
  }

  lemma BlankVariants(lists: seq<seq<string>>, i: nat)
    requires AllFilled(lists) && i < |lists|
    ensures Variants(FillAnswer(lists), i) == lists[i]
  {
    SlotIs(lists, i);
  }

  lemma FillGrows(lists: seq<seq<string>>, n: nat)
    requires AllFilled(lists) && 0 < n <= |lists|
    ensures AllFilled(lists[..n - 1]) && AllFilled(lists[..n])
    ensures FillAnswer(lists[..n]) == WithVariants(FillAnswer(lists[..n - 1]), n, lists[n - 1])
  {
    assert lists[..n][..n - 1] == lists[..n - 1];
    assert Firsts(lists[..n]) == Firsts(lists[..n - 1]) + [lists[n - 1][0]];
  }

  lemma {:induction false} FillRead(lists: seq<seq<string>>, n: nat)
    requires AllFilled(lists) && n <= |lists|
    ensures AllFilled(lists[..n]) && ReadOf(Fill, RowsUpTo(FillAnswer(lists), n)) == FillAnswer(lists[..n])
  {
    if n > 0 {
      FillRead(lists, n - 1);
      FillGrows(lists, n);
      BlankVariants(lists, n - 1);
      NewSlot(lists[..n - 1]);
      VariantsRead(RowsUpTo(FillAnswer(lists), n - 1), n, lists[n - 1]);
    }
  }

  /** What is stored is what is read: for every answer that fits some question. */
  lemma WriteThenRead(content: Members, a: Answer)
    requires Fits(content, a)
    ensures ReadOf(a.kind, RowsOf(a)) == a
  {
    match a.kind
    case Multi => AllMultiRead(a);
    case Fill =>
      var lists :| FillsIn(content, a, lists);
      AllFillRead(lists);
    case _ => SingleRead(a);
  }

  lemma AllFillRead(lists: seq<seq<string>>)
    requires AllFilled(lists)
    ensures ReadOf(Fill, RowsOf(FillAnswer(lists))) == FillAnswer(lists)
  {
    FillRead(lists, |lists|);
    assert lists[..|lists|] == lists;
  }

  lemma SingleRead(a: Answer)
    requires (a.kind == Choice || a.kind == Judge) && a.answers == [] && a.accepted == map[]
    ensures ReadOf(a.kind, RowsOf(a)) == a
  {
    assert RowsOf(a) == RowsUpTo(a, 0) + SlotRows(1, [a.answer]);
    assert RowsOf(a) == [Item(1, 0, a.answer)] && [Item(1, 0, a.answer)][..0] == [];
  }
}
