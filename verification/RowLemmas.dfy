/** Ordered insertion read back by key, and staging flattened into one row sequence per table. */
module RowLemmas {
  import opened Wrappers
  import opened Index
  import opened Tables
  import opened Staging

  /** The value of the first row with this key. */
  function First<K(==), V>(rows: seq<(K, V)>, key: K): Option<V> {
    if rows == [] then None
    else
      var earlier := First(rows[..|rows| - 1], key);
      if earlier.Some? then earlier
      else if rows[|rows| - 1].0 == key then Some(rows[|rows| - 1].1) else None
  }

  /** The OR of all rows with this key. */
  function Mask<K(==)>(rows: seq<(K, Bits)>, key: K): Bits {
    if rows == [] then {}
    else Mask(rows[..|rows| - 1], key) + (if rows[|rows| - 1].0 == key then rows[|rows| - 1].1 else {})
  }

  lemma {:induction false} InsertRowsLookup<K, V>(t: map<K, V>, rows: seq<(K, V)>, key: K)
    ensures key in InsertRows(t, rows) <==> key in t || First(rows, key).Some?
    ensures key in InsertRows(t, rows) ==>
              InsertRows(t, rows)[key] == if key in t then t[key] else First(rows, key).value
  {
    if rows != [] {
      InsertRowsLookup(t, rows[..|rows| - 1], key);
    }
  }

  lemma {:induction false} OrRowsLookup<K>(t: map<K, Bits>, rows: seq<(K, Bits)>, key: K)
    ensures key in OrRows(t, rows) <==> key in t || First(rows, key).Some?
    ensures key in OrRows(t, rows) ==>
              OrRows(t, rows)[key] == (if key in t then t[key] else {}) + Mask(rows, key)
    ensures First(rows, key).None? ==> Mask(rows, key) == {}
  {
    if rows != [] {
      OrRowsLookup(t, rows[..|rows| - 1], key);
    }
  }

  lemma {:induction false} FirstConcat<K, V>(a: seq<(K, V)>, b: seq<(K, V)>, key: K)
    ensures First(a + b, key) == if First(a, key).Some? then First(a, key) else First(b, key)
  {
    if b == [] {
      assert a + b == a;
    } else {
      assert (a + b)[..|a + b| - 1] == a + b[..|b| - 1];
      FirstConcat(a, b[..|b| - 1], key);
    }
  }

  lemma {:induction false} MaskConcat<K>(a: seq<(K, Bits)>, b: seq<(K, Bits)>, key: K)
    ensures Mask(a + b, key) == Mask(a, key) + Mask(b, key)
  {
    if b == [] {
      assert a + b == a;
    } else {
      assert (a + b)[..|a + b| - 1] == a + b[..|b| - 1];
      MaskConcat(a, b[..|b| - 1], key);
    }
  }

  lemma {:induction false} InsertRowsConcat<K, V>(t: map<K, V>, a: seq<(K, V)>, b: seq<(K, V)>)
    ensures InsertRows(t, a + b) == InsertRows(InsertRows(t, a), b)
  {
    if b == [] {
      assert a + b == a;
    } else {
      assert (a + b)[..|a + b| - 1] == a + b[..|b| - 1];
      InsertRowsConcat(t, a, b[..|b| - 1]);
    }
  }

  lemma {:induction false} OrRowsConcat<K>(t: map<K, Bits>, a: seq<(K, Bits)>, b: seq<(K, Bits)>)
    ensures OrRows(t, a + b) == OrRows(OrRows(t, a), b)
  {
    if b == [] {
      assert a + b == a;
    } else {
      assert (a + b)[..|a + b| - 1] == a + b[..|b| - 1];
      OrRowsConcat(t, a, b[..|b| - 1]);
    }
  }

  lemma {:induction false} FirstHasRow<K, V>(rows: seq<(K, V)>, key: K)
    ensures First(rows, key).Some? <==> exists i :: 0 <= i < |rows| && rows[i].0 == key
    ensures First(rows, key).Some? ==>
              exists i :: 0 <= i < |rows| && rows[i].0 == key && rows[i].1 == First(rows, key).value
  {
    if rows != [] {
      var n := |rows| - 1;
      FirstHasRow(rows[..n], key);
      forall i | 0 <= i < n ensures rows[..n][i] == rows[i] {}
      if First(rows[..n], key).Some? {
        var i :| 0 <= i < n && rows[..n][i].0 == key && rows[..n][i].1 == First(rows[..n], key).value;
        assert rows[i].0 == key && rows[i].1 == First(rows, key).value;
      } else if rows[n].0 == key {
        assert rows[n].1 == First(rows, key).value;
      } else {
        assert forall i :: 0 <= i < n ==> rows[..n][i].0 != key;
      }
    }
  }

  // ---- staging, flattened ----

  function ItemRows<K, V>(r: Request, cached: set<nat>, item: Item, rowsOf: Item -> seq<(K, V)>)
    : seq<((Text, K), V)>
  {
    if Skips(r, cached, item) then [] else AtPath(ItemPath(r, item), rowsOf(item))
  }

  /** All rows that the items put into one staging table, in staging order. */
  function AllRows<K, V>(r: Request, cached: set<nat>, items: seq<Item>, rowsOf: Item -> seq<(K, V)>)
    : seq<((Text, K), V)>
  {
    if items == [] then []
    else AllRows(r, cached, items[..|items| - 1], rowsOf) + ItemRows(r, cached, items[|items| - 1], rowsOf)
  }

  lemma {:induction false} StageItemsFlat(rows: Rows, r: Request, cached: set<nat>, items: seq<Item>)
    ensures var staged := StageItems(rows, r, cached, items);
            && staged.records == InsertRows(rows.records, AllRows(r, cached, items, RecordRows))
            && staged.symbolTypes == InsertRows(rows.symbolTypes, AllRows(r, cached, items, SymbolTypeRows))
            && staged.functionTypes == InsertRows(rows.functionTypes, AllRows(r, cached, items, FunctionTypeRows))
            && staged.properties == OrRows(rows.properties, AllRows(r, cached, items, PropertyRows))
  {
    if items != [] {
      var front, last := items[..|items| - 1], items[|items| - 1];
      StageItemsFlat(rows, r, cached, front);
      InsertRowsConcat(rows.records, AllRows(r, cached, front, RecordRows), ItemRows(r, cached, last, RecordRows));
      InsertRowsConcat(rows.symbolTypes, AllRows(r, cached, front, SymbolTypeRows),
                       ItemRows(r, cached, last, SymbolTypeRows));
      InsertRowsConcat(rows.functionTypes, AllRows(r, cached, front, FunctionTypeRows),
                       ItemRows(r, cached, last, FunctionTypeRows));
      OrRowsConcat(rows.properties, AllRows(r, cached, front, PropertyRows),
                   ItemRows(r, cached, last, PropertyRows));
    }
  }
}
