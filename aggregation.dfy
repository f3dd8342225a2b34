/**
  The shopping-list aggregation of `RecipeViewSet.download_shopping_cart`
  (backend/api/views.py): the rows of every recipe in a user's cart are folded
  into an insertion-ordered dictionary keyed by ingredient name, keeping the
  unit of the first row with that name and summing the amounts.
*/
module Aggregation {

  /** One row of the cart query: (ingredient name, measurement unit, amount). */
  datatype Row = Row(name: string, unit: string, amount: nat)

  /** The value a name maps to: {'measurement_unit': ..., 'amount': ...}. */
  datatype Entry = Entry(unit: string, amount: nat)

  /**
    A Python dict as the loop builds it: `keys` in insertion order (the order
    `dict.items()` yields them) and `entries` the value under each key.
  */
  datatype ShoppingList = ShoppingList(keys: seq<string>, entries: map<string, Entry>)

  predicate Distinct<T(==)>(s: seq<T>)
  {
    forall i, j :: 0 <= i < j < |s| ==> s[i] != s[j]
  }

  /** The keys are listed once each and are exactly the dictionary's keys. */
  predicate Valid(list: ShoppingList)
  {
    Distinct(list.keys) && list.entries.Keys == set k | k in list.keys
  }

  /** The names of `rows`, each once, in the order of their first occurrence. */
  function DistinctNames(rows: seq<Row>): seq<string>
  {
    if rows == [] then []
    else
      var seen := DistinctNames(rows[..|rows| - 1]);
      if rows[|rows| - 1].name in seen then seen else seen + [rows[|rows| - 1].name]
  }

  /** The sum of the amounts of all rows named `name`. */
  function TotalAmount(rows: seq<Row>, name: string): nat
  {
    if rows == [] then 0
    else
      var last := rows[|rows| - 1];
      TotalAmount(rows[..|rows| - 1], name) + (if last.name == name then last.amount else 0)
  }

  /** Every row's name is among the distinct names. */
  lemma {:induction false} RowNamesListed(rows: seq<Row>)
    ensures forall j :: 0 <= j < |rows| ==> rows[j].name in DistinctNames(rows)
  {
    if rows != [] {
      var prefix := rows[..|rows| - 1];
      RowNamesListed(prefix);
      assert forall j :: 0 <= j < |prefix| ==> rows[j] == prefix[j];
    }
  }

  /** The index of the first row named `name`. */
  function FirstIndex(rows: seq<Row>, name: string): (i: nat)
    requires name in DistinctNames(rows)
    ensures i < |rows| && rows[i].name == name
    ensures forall j :: 0 <= j < i ==> rows[j].name != name
  {
    var prefix := rows[..|rows| - 1];
    if name in DistinctNames(prefix) then
      var i := FirstIndex(prefix, name);
      assert rows[i] == prefix[i];
      assert forall j :: 0 <= j < i ==> rows[j] == prefix[j];
      i
    else
      RowNamesListed(prefix);
      assert forall j :: 0 <= j < |prefix| ==> rows[j] == prefix[j];
      |rows| - 1
  }

  /**
    What the loop produces: one entry per distinct name, in first-occurrence
    order, holding the unit of the first row with that name and the total amount.
  */
  function ShoppingListOf(rows: seq<Row>): (list: ShoppingList)
    ensures |list.keys| <= |rows|
  {
    DistinctNamesBounded(rows);
    var keys := DistinctNames(rows);
    ShoppingList(keys, map n | n in keys :: EntryOf(rows, n))
  }

  /** The entry for `name`: the unit of its first row and the total of its amounts. */
  function EntryOf(rows: seq<Row>, name: string): Entry
    requires name in DistinctNames(rows)
  {
    Entry(rows[FirstIndex(rows, name)].unit, TotalAmount(rows, name))
  }

  lemma EntryOfSnoc(rows: seq<Row>, r: Row, name: string)
    requires name in DistinctNames(rows + [r])
    ensures name in DistinctNames(rows) ==>
      EntryOf(rows + [r], name) == EntryOf(rows, name).(amount := EntryOf(rows, name).amount + (if r.name == name then r.amount else 0))
    ensures name !in DistinctNames(rows) ==> EntryOf(rows + [r], name) == Entry(r.unit, r.amount)
  {
    var s := rows + [r];
    TotalAmountSnoc(rows, r, name);
    DistinctNamesSnoc(rows, r);
    if name in DistinctNames(rows) {
      FirstIndexSnoc(rows, r, name);
      assert s[FirstIndex(rows, name)] == rows[FirstIndex(rows, name)];
    } else {
      TotalAmountOfAbsent(rows, name);
      RowNamesListed(rows);
      assert FirstIndex(s, name) == |rows|;
    }
  }

  lemma DistinctNamesSnoc(rows: seq<Row>, r: Row)
    ensures DistinctNames(rows + [r])
      == if r.name in DistinctNames(rows) then DistinctNames(rows) else DistinctNames(rows) + [r.name]
  {
    assert (rows + [r])[..|rows|] == rows;
  }

  lemma TotalAmountSnoc(rows: seq<Row>, r: Row, name: string)
    ensures TotalAmount(rows + [r], name) == TotalAmount(rows, name) + (if r.name == name then r.amount else 0)
  {
    assert (rows + [r])[..|rows|] == rows;
  }

  lemma FirstIndexSnoc(rows: seq<Row>, r: Row, name: string)
    requires name in DistinctNames(rows)
    ensures name in DistinctNames(rows + [r])
    ensures FirstIndex(rows + [r], name) == FirstIndex(rows, name)
  {
    assert (rows + [r])[..|rows|] == rows;
  }

  /** How one more row changes the expected dictionary: a new key, or a larger amount. */
  lemma ShoppingListOfSnoc(rows: seq<Row>, r: Row)
    ensures var before, after := ShoppingListOf(rows), ShoppingListOf(rows + [r]);
      if r.name in before.entries then
        after == ShoppingList(before.keys,
          before.entries[r.name := Entry(before.entries[r.name].unit, before.entries[r.name].amount + r.amount)])
      else
        after == ShoppingList(before.keys + [r.name], before.entries[r.name := Entry(r.unit, r.amount)])
  {
    var before := ShoppingListOf(rows);
    DistinctNamesSnoc(rows, r);
    var expected := if r.name in before.entries
      then ShoppingList(before.keys,
        before.entries[r.name := Entry(before.entries[r.name].unit, before.entries[r.name].amount + r.amount)])
      else ShoppingList(before.keys + [r.name], before.entries[r.name := Entry(r.unit, r.amount)]);
    forall n | n in expected.entries
      ensures expected.entries[n] == EntryOf(rows + [r], n)
    {
      EntryOfSnoc(rows, r, n);
    }
    ShoppingListOfIs(rows + [r], expected);
  }

  /** A name that no row carries totals zero. */
  lemma {:induction false} TotalAmountOfAbsent(rows: seq<Row>, name: string)
    requires name !in DistinctNames(rows)
    ensures TotalAmount(rows, name) == 0
  {
    if rows != [] {
      var prefix := rows[..|rows| - 1];
      assert rows == prefix + [rows[|rows| - 1]];
      DistinctNamesSnoc(prefix, rows[|rows| - 1]);
      TotalAmountOfAbsent(prefix, name);
    }
  }

  /**
    The loop of `download_shopping_cart`: builds the insertion-ordered dict in
    place, inserting unseen names and adding to the amount of seen ones.
  */
  method Aggregate(rows: seq<Row>) returns (list: ShoppingList)
    ensures list == ShoppingListOf(rows)
  {
    var keys: seq<string> := [];
    var entries: map<string, Entry> := map[];
    for i := 0 to |rows|
      invariant keys == DistinctNames(rows[..i])
      invariant forall n :: n in entries <==> n in keys
      invariant forall n :: n in entries ==> entries[n] == EntryOf(rows[..i], n)
    {
      var row := rows[i];
      assert rows[..i + 1] == rows[..i] + [row];
      DistinctNamesSnoc(rows[..i], row);
      if row.name !in entries {
        entries := entries[row.name := Entry(row.unit, row.amount)];
        keys := keys + [row.name];
      } else {
        entries := entries[row.name := entries[row.name].(amount := entries[row.name].amount + row.amount)];
      }
      forall n | n in entries
        ensures entries[n] == EntryOf(rows[..i + 1], n)
      {
        EntryOfSnoc(rows[..i], row, n);
      }
    }
    assert rows[..|rows|] == rows;
    list := ShoppingList(keys, entries);
    ShoppingListOfIs(rows, list);
  }

  /** A dictionary with the expected keys and the expected entry under each key is the expected one. */
  lemma ShoppingListOfIs(rows: seq<Row>, list: ShoppingList)
    requires list.keys == DistinctNames(rows)
    requires forall n :: n in list.entries <==> n in list.keys
    requires forall n :: n in list.entries ==> list.entries[n] == EntryOf(rows, n)
    ensures list == ShoppingListOf(rows)
  {
    assert list.entries == ShoppingListOf(rows).entries;
  }

  /** The names are listed once each. */
  lemma {:induction false} DistinctNamesDistinct(rows: seq<Row>)
    ensures Distinct(DistinctNames(rows))
  {
    if rows != [] {
      var prefix := rows[..|rows| - 1];
      assert rows == prefix + [rows[|rows| - 1]];
      DistinctNamesSnoc(prefix, rows[|rows| - 1]);
      DistinctNamesDistinct(prefix);
    }
  }

  /** Each listed name is the name of some row, so there are no more names than rows. */
  lemma {:induction false} DistinctNamesBounded(rows: seq<Row>)
    ensures |DistinctNames(rows)| <= |rows|
  {
    if rows != [] {
      var prefix := rows[..|rows| - 1];
      assert rows == prefix + [rows[|rows| - 1]];
      DistinctNamesSnoc(prefix, rows[|rows| - 1]);
      DistinctNamesBounded(prefix);
    }
  }

  /**
    The dictionary has exactly one entry per distinct name of the input and no
    others, never more entries than rows, and none at all for an empty cart.
  */
  lemma ShoppingListShape(rows: seq<Row>)
    ensures Valid(ShoppingListOf(rows))
    ensures forall n :: n in ShoppingListOf(rows).entries <==> exists j :: 0 <= j < |rows| && rows[j].name == n
    ensures |ShoppingListOf(rows).keys| == |ShoppingListOf(rows).entries| <= |rows|
    ensures rows == [] ==> ShoppingListOf(rows) == ShoppingList([], map[])
  {
    var list := ShoppingListOf(rows);
    DistinctNamesDistinct(rows);
    DistinctNamesBounded(rows);
    RowNamesListed(rows);
    forall n | n in list.entries
      ensures exists j :: 0 <= j < |rows| && rows[j].name == n
    {
      var j := FirstIndex(rows, n);
    }
    DistinctCardinality(list.keys);
  }

  lemma ShoppingListValid(rows: seq<Row>)
    ensures Valid(ShoppingListOf(rows))
  {
    DistinctNamesDistinct(rows);
  }

  /** A sequence without repeats has as many distinct elements as positions. */
  lemma {:induction false} DistinctCardinality<T>(s: seq<T>)
    requires Distinct(s)
    ensures |set x | x in s| == |s|
  {
    if s != [] {
      var prefix := s[..|s| - 1];
      assert s == prefix + [s[|s| - 1]];
      assert (set x | x in s) == (set x | x in prefix) + {s[|s| - 1]};
      DistinctCardinality(prefix);
    }
  }

  /**
    Entries appear in the order in which their names first occur in the input:
    an earlier key's first row comes before a later key's first row.
  */
  lemma {:induction false} FirstOccurrenceOrder(rows: seq<Row>, a: nat, b: nat)
    requires a < b < |DistinctNames(rows)|
    ensures FirstIndex(rows, DistinctNames(rows)[a]) < FirstIndex(rows, DistinctNames(rows)[b])
  {
    var prefix := rows[..|rows| - 1];
    var last := rows[|rows| - 1];
    assert rows == prefix + [last];
    DistinctNamesSnoc(prefix, last);
    var keys := DistinctNames(prefix);
    FirstIndexSnoc(prefix, last, DistinctNames(rows)[a]);
    if b < |keys| {
      FirstIndexSnoc(prefix, last, DistinctNames(rows)[b]);
      FirstOccurrenceOrder(prefix, a, b);
    } else {
      assert FirstIndex(prefix, keys[a]) < |prefix|;
    }
  }

  /** Rows appended after a name's first row never change that name's unit. */
  lemma {:induction false} LaterUnitsIgnored(rows: seq<Row>, later: seq<Row>, name: string)
    requires name in DistinctNames(rows)
    ensures name in DistinctNames(rows + later)
    ensures EntryOf(rows + later, name).unit == EntryOf(rows, name).unit
    decreases |later|
  {
    if later == [] {
      assert rows + later == rows;
    } else {
      var init := later[..|later| - 1];
      assert rows + later == (rows + init) + [later[|later| - 1]];
      LaterUnitsIgnored(rows, init, name);
      EntryOfSnoc(rows + init, later[|later| - 1], name);
      FirstIndexSnoc(rows + init, later[|later| - 1], name);
    }
  }

  /** The sum of the amounts of all rows, whatever their names. */
  function SumAmounts(rows: seq<Row>): nat
  {
    if rows == [] then 0 else SumAmounts(rows[..|rows| - 1]) + rows[|rows| - 1].amount
  }

  /** The sum of the amounts of the entries listed under `keys`. */
  function SumEntries(keys: seq<string>, entries: map<string, Entry>): nat
    requires forall k :: k in keys ==> k in entries
  {
    if keys == [] then 0 else SumEntries(keys[..|keys| - 1], entries) + entries[keys[|keys| - 1]].amount
  }

  lemma {:induction false} SumEntriesUpdate(keys: seq<string>, entries: map<string, Entry>, k: string, e: Entry)
    requires forall x :: x in keys ==> x in entries
    ensures forall x :: x in keys ==> x in entries[k := e]
    ensures k !in keys ==> SumEntries(keys, entries[k := e]) == SumEntries(keys, entries)
    ensures k in keys && Distinct(keys) ==>
      SumEntries(keys, entries[k := e]) + entries[k].amount == SumEntries(keys, entries) + e.amount
  {
    if keys != [] {
      var prefix := keys[..|keys| - 1];
      assert forall x :: x in prefix ==> x in keys;
      SumEntriesUpdate(prefix, entries, k, e);
      if Distinct(keys) {
        assert Distinct(prefix);
        assert k == keys[|keys| - 1] ==> k !in prefix;
      }
    }
  }

  /** Every listed key has an entry, so the entries can be summed in key order. */
  lemma KeysHaveEntries(rows: seq<Row>)
    ensures forall k :: k in ShoppingListOf(rows).keys ==> k in ShoppingListOf(rows).entries
  {
  }

  /** Merging loses and invents nothing: the entries' amounts add up to the rows' amounts. */
  lemma {:induction false} AggregationConservesTotal(rows: seq<Row>)
    ensures forall k :: k in ShoppingListOf(rows).keys ==> k in ShoppingListOf(rows).entries
    ensures SumEntries(ShoppingListOf(rows).keys, ShoppingListOf(rows).entries) == SumAmounts(rows)
  {
    KeysHaveEntries(rows);
    if rows != [] {
      var prefix := rows[..|rows| - 1];
      var r := rows[|rows| - 1];
      assert rows == prefix + [r];
      AggregationConservesTotal(prefix);
      AggregationStepAddsRow(prefix, r);
    }
  }

  /** Aggregating one more row adds that row's amount to the sum of the entries. */
  lemma AggregationStepAddsRow(prefix: seq<Row>, r: Row)
    ensures forall k :: k in ShoppingListOf(prefix).keys ==> k in ShoppingListOf(prefix).entries
    ensures forall k :: k in ShoppingListOf(prefix + [r]).keys ==> k in ShoppingListOf(prefix + [r]).entries
    ensures SumEntries(ShoppingListOf(prefix + [r]).keys, ShoppingListOf(prefix + [r]).entries)
         == SumEntries(ShoppingListOf(prefix).keys, ShoppingListOf(prefix).entries) + r.amount
  {
    KeysHaveEntries(prefix);
    KeysHaveEntries(prefix + [r]);
    DistinctNamesDistinct(prefix);
    ShoppingListOfSnoc(prefix, r);
    SumEntriesStep(ShoppingListOf(prefix), ShoppingListOf(prefix + [r]), r);
  }

  /** One aggregation step adds the row's amount to the sum of the entries. */
  lemma SumEntriesStep(before: ShoppingList, after: ShoppingList, r: Row)
    requires Distinct(before.keys)
    requires forall k :: k in before.keys <==> k in before.entries
    requires forall k :: k in after.keys ==> k in after.entries
    requires r.name in before.entries ==>
      after == ShoppingList(before.keys,
        before.entries[r.name := Entry(before.entries[r.name].unit, before.entries[r.name].amount + r.amount)])
    requires r.name !in before.entries ==>
      after == ShoppingList(before.keys + [r.name], before.entries[r.name := Entry(r.unit, r.amount)])
    ensures SumEntries(after.keys, after.entries) == SumEntries(before.keys, before.entries) + r.amount
  {
    if r.name in before.entries {
      SumEntriesUpdate(before.keys, before.entries, r.name,
        Entry(before.entries[r.name].unit, before.entries[r.name].amount + r.amount));
    } else {
      SumEntriesAppend(before.keys, before.entries, r.name, Entry(r.unit, r.amount));
    }
  }

  lemma SumEntriesAppend(keys: seq<string>, entries: map<string, Entry>, k: string, e: Entry)
    requires forall x :: x in keys ==> x in entries
    requires k !in keys
    ensures forall x :: x in keys + [k] ==> x in entries[k := e]
    ensures SumEntries(keys + [k], entries[k := e]) == SumEntries(keys, entries) + e.amount
  {
    SumEntriesUpdate(keys, entries, k, e);
    var keys' := keys + [k];
    assert keys'[..|keys'| - 1] == keys;
  }

  lemma {:induction false} TotalAmountAppend(a: seq<Row>, b: seq<Row>, name: string)
    ensures TotalAmount(a + b, name) == TotalAmount(a, name) + TotalAmount(b, name)
    decreases |b|
  {
    if b == [] {
      assert a + b == a;
    } else {
      var init := b[..|b| - 1];
      assert a + b == (a + init) + [b[|b| - 1]];
      assert b == init + [b[|b| - 1]];
      TotalAmountSnoc(a + init, b[|b| - 1], name);
      TotalAmountSnoc(init, b[|b| - 1], name);
      TotalAmountAppend(a, init, name);
    }
  }

  /** A name's total does not depend on the order in which the cart's rows arrive. */
  lemma {:induction false} TotalAmountPermutation(rows: seq<Row>, other: seq<Row>, name: string)
    requires multiset(rows) == multiset(other)
    ensures TotalAmount(rows, name) == TotalAmount(other, name)
    decreases |rows|
  {
    if rows != [] {
      var prefix := rows[..|rows| - 1];
      var r := rows[|rows| - 1];
      assert rows == prefix + [r];
      assert r in multiset(other);
      var k :| 0 <= k < |other| && other[k] == r;
      var rest := other[..k] + other[k + 1..];
      assert other == other[..k] + [r] + other[k + 1..];
      assert multiset(other) == multiset(other[..k]) + multiset{r} + multiset(other[k + 1..]);
      assert multiset(rows) == multiset(prefix) + multiset{r};
      assert multiset(rest) == multiset(other[..k]) + multiset(other[k + 1..]);
      assert multiset(rest) == multiset(other) - multiset{r};
      assert multiset(prefix) == multiset(rows) - multiset{r};
      TotalAmountPermutation(prefix, rest, name);
      TotalAmountSnoc(prefix, r, name);
      TotalAmountAppend(other[..k] + [r], other[k + 1..], name);
      TotalAmountSnoc(other[..k], r, name);
      TotalAmountAppend(other[..k], other[k + 1..], name);
    }
  }

  /** Rows a, b, a with two different names: a comes first with 5 + 2, b second with 3. */
  lemma InterleavedRowsExample(a: string, b: string, unit: string)
    requires a != b
    ensures ShoppingListOf([Row(a, unit, 5), Row(b, unit, 3), Row(a, unit, 2)])
      == ShoppingList([a, b], map[a := Entry(unit, 7), b := Entry(unit, 3)])
  {
    var rows := [Row(a, unit, 5), Row(b, unit, 3)];
    var before := ShoppingList([a, b], map[a := Entry(unit, 5), b := Entry(unit, 3)]);
    TwoRowsExample(a, b, unit);
    SnocOntoListed(rows, Row(a, unit, 2), before);
    assert rows + [Row(a, unit, 2)] == [Row(a, unit, 5), Row(b, unit, 3), Row(a, unit, 2)];
    assert before.entries[a := Entry(unit, 7)] == map[a := Entry(unit, 7), b := Entry(unit, 3)];
  }

  lemma SnocOntoListed(rows: seq<Row>, r: Row, before: ShoppingList)
    requires ShoppingListOf(rows) == before && r.name in before.entries
    ensures ShoppingListOf(rows + [r]) == ShoppingList(before.keys,
      before.entries[r.name := Entry(before.entries[r.name].unit, before.entries[r.name].amount + r.amount)])
  {
    ShoppingListOfSnoc(rows, r);
  }

  /** Two rows with different names become two entries, in row order. */
  lemma TwoRowsExample(a: string, b: string, unit: string)
    requires a != b
    ensures ShoppingListOf([Row(a, unit, 5), Row(b, unit, 3)])
      == ShoppingList([a, b], map[a := Entry(unit, 5), b := Entry(unit, 3)])
  {
    var r1 := Row(a, unit, 5);
    ShoppingListOfSnoc([], r1);
    assert [] + [r1] == [r1];
    assert ShoppingListOf([r1]) == ShoppingList([a], map[a := Entry(unit, 5)]);
    ShoppingListOfSnoc([r1], Row(b, unit, 3));
    assert [r1] + [Row(b, unit, 3)] == [r1, Row(b, unit, 3)];
  }

  /** The same ingredient three times is merged into one line with the summed amount. */
  lemma RepeatedIngredientExample(name: string, unit: string)
    ensures ShoppingListOf([Row(name, unit, 1), Row(name, unit, 1), Row(name, unit, 1)])
      == ShoppingList([name], map[name := Entry(unit, 3)])
  {
    var r := Row(name, unit, 1);
    assert ShoppingListOf([]) == ShoppingList([], map[]);
    ShoppingListOfSnoc([], r);
    assert [] + [r] == [r];
    assert ShoppingListOf([r]) == ShoppingList([name], map[name := Entry(unit, 1)]);
    SnocOntoListed([r], r, ShoppingList([name], map[name := Entry(unit, 1)]));
    assert [r] + [r] == [r, r];
    SnocOntoListed([r, r], r, ShoppingList([name], map[name := Entry(unit, 2)]));
    assert [r, r] + [r] == [r, r, r];
  }
}
