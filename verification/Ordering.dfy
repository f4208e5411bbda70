/** ORDER BY, row-value comparison and LIMIT over a composite key. */
module Ordering {
  import opened Wrappers
  import opened Index

  /** A stored value; SQLite orders integers before text, and text bytewise. */
  datatype Cell = Number(n: int) | Chars(text: Text)

  type Key = seq<Cell>

  predicate TextLess(a: Text, b: Text) {
    b != [] && (a == [] || a[0] < b[0] || (a[0] == b[0] && TextLess(a[1..], b[1..])))
  }

  predicate CellLess(a: Cell, b: Cell) {
    match (a, b)
    case (Number(m), Number(n)) => m < n
    case (Number(_), Chars(_)) => true
    case (Chars(_), Number(_)) => false
    case (Chars(s), Chars(t)) => TextLess(s, t)
  }

  predicate Less(a: Key, b: Key) {
    b != [] && (a == [] || CellLess(a[0], b[0]) || (a[0] == b[0] && Less(a[1..], b[1..])))
  }

  // ---- a strict total order ----

  lemma {:induction false} TextOrder(a: Text, b: Text)
    ensures !TextLess(a, a)
    ensures a == b || TextLess(a, b) || TextLess(b, a)
    ensures !(TextLess(a, b) && TextLess(b, a))
  {
    if a != [] {
      TextOrder(a[1..], if b == [] then [] else b[1..]);
      if b != [] && a[1..] == b[1..] && a[0] == b[0] {
        assert a == [a[0]] + a[1..] && b == [b[0]] + b[1..];
      }
    }
  }

  lemma {:induction false} TextTransitive(a: Text, b: Text, c: Text)
    requires TextLess(a, b) && TextLess(b, c)
    ensures TextLess(a, c)
  {
    if a != [] && a[0] == b[0] == c[0] {
      TextTransitive(a[1..], b[1..], c[1..]);
    }
  }

  lemma CellOrder(a: Cell, b: Cell)
    ensures !CellLess(a, a)
    ensures a == b || CellLess(a, b) || CellLess(b, a)
    ensures !(CellLess(a, b) && CellLess(b, a))
  {
    if a.Chars? {
      TextOrder(a.text, if b.Chars? then b.text else []);
    }
  }

  lemma CellTransitive(a: Cell, b: Cell, c: Cell)
    requires CellLess(a, b) && CellLess(b, c)
    ensures CellLess(a, c)
  {
    if a.Chars? {
      TextTransitive(a.text, b.text, c.text);
    }
  }

  lemma {:induction false} KeyOrder(a: Key, b: Key)
    ensures !Less(a, a)
    ensures a == b || Less(a, b) || Less(b, a)
    ensures !(Less(a, b) && Less(b, a))
  {
    if a != [] {
      KeyOrder(a[1..], if b == [] then [] else b[1..]);
      CellOrder(a[0], if b == [] then a[0] else b[0]);
      if b != [] && a[1..] == b[1..] && a[0] == b[0] {
        assert a == [a[0]] + a[1..] && b == [b[0]] + b[1..];
      }
    }
  }

  lemma {:induction false} KeyTransitive(a: Key, b: Key, c: Key)
    requires Less(a, b) && Less(b, c)
    ensures Less(a, c)
  {
    if a != [] {
      if CellLess(a[0], b[0]) && CellLess(b[0], c[0]) {
        CellTransitive(a[0], b[0], c[0]);
      } else if a[0] == b[0] == c[0] {
        KeyTransitive(a[1..], b[1..], c[1..]);
      }
    }
  }

  // ---- statements ----

  /** WHERE. */
  function Where<R>(rows: seq<R>, keep: R -> bool): seq<R> {
    if rows == [] then [] else (if keep(rows[0]) then [rows[0]] else []) + Where(rows[1..], keep)
  }

  function Inserted<R>(sorted: seq<R>, row: R, key: R -> Key): seq<R> {
    if sorted == [] then [row]
    else if Less(key(row), key(sorted[0])) then [row] + sorted
    else [sorted[0]] + Inserted(sorted[1..], row, key)
  }

  /** ORDER BY. */
  function OrderBy<R>(rows: seq<R>, key: R -> Key): seq<R> {
    if rows == [] then [] else Inserted(OrderBy(rows[1..], key), rows[0], key)
  }

  function IsAfter<R>(key: R -> Key, after: Option<Key>): R -> bool {
    (row: R) => after.Some? ==> Less(after.value, key(row))
  }

  /** LIMIT. */
  function Limited<R>(rows: seq<R>, limit: nat): seq<R> {
    if |rows| <= limit then rows else rows[..limit]
  }

  function Select<R>(table: seq<R>, keep: R -> bool, key: R -> Key, after: Option<Key>, limit: nat): seq<R> {
    Limited(OrderBy(Where(Where(table, keep), IsAfter(key, after)), key), limit)
  }

  predicate Sorted<R>(rows: seq<R>, key: R -> Key) {
    forall i, j | 0 <= i < j < |rows| :: !Less(key(rows[j]), key(rows[i]))
  }

  predicate StrictlySorted<R>(rows: seq<R>, key: R -> Key) {
    forall i, j | 0 <= i < j < |rows| :: Less(key(rows[i]), key(rows[j]))
  }

  ghost predicate DistinctKeys<R>(rows: seq<R>, key: R -> Key) {
    forall i, j | 0 <= i < j < |rows| :: key(rows[i]) != key(rows[j])
  }

  lemma {:induction false} IndexOf<R>(rows: seq<R>, row: R) returns (i: nat)
    requires row in rows
    ensures i < |rows| && rows[i] == row
  {
    if rows[0] == row {
      i := 0;
    } else {
      assert row in rows[1..];
      i := IndexOf(rows[1..], row);
      i := i + 1;
    }
  }

  // ---- ORDER BY sorts ----

  lemma {:induction false} InsertedRows<R>(sorted: seq<R>, row: R, key: R -> Key)
    ensures multiset(Inserted(sorted, row, key)) == multiset(sorted) + multiset{row}
  {
    hide Less;
    if sorted != [] {
      InsertedRows(sorted[1..], row, key);
      assert sorted == [sorted[0]] + sorted[1..];
    }
  }

  lemma {:induction false} InsertedSorts<R>(sorted: seq<R>, row: R, key: R -> Key)
    requires Sorted(sorted, key)
    ensures Sorted(Inserted(sorted, row, key), key)
  {
    hide Less;
    if sorted == [] {
    } else if Less(key(row), key(sorted[0])) {
      forall j | 0 <= j < |sorted| ensures !Less(key(sorted[j]), key(row)) {
        KeyOrder(key(row), key(sorted[0]));
        if Less(key(sorted[j]), key(row)) {
          KeyTransitive(key(sorted[j]), key(row), key(sorted[0]));
        }
        KeyOrder(key(sorted[0]), key(sorted[0]));
      }
    } else {
      var rest := Inserted(sorted[1..], row, key);
      InsertedSorts(sorted[1..], row, key);
      InsertedRows(sorted[1..], row, key);
      forall j | 0 <= j < |rest| ensures !Less(key(rest[j]), key(sorted[0])) {
        assert rest[j] in multiset(rest);
        assert rest[j] in multiset(sorted[1..]) || rest[j] == row;
        if rest[j] in sorted[1..] {
          var i :| 0 <= i < |sorted[1..]| && sorted[1..][i] == rest[j];
          assert sorted[i + 1] == rest[j];
        }
      }
    }
  }

  /** ORDER BY returns the same rows, in order. */
  lemma {:induction false} OrderBySorts<R>(rows: seq<R>, key: R -> Key)
    ensures Sorted(OrderBy(rows, key), key)
    ensures multiset(OrderBy(rows, key)) == multiset(rows)
  {
    if rows != [] {
      OrderBySorts(rows[1..], key);
      InsertedSorts(OrderBy(rows[1..], key), rows[0], key);
      InsertedRows(OrderBy(rows[1..], key), rows[0], key);
      assert rows == [rows[0]] + rows[1..];
    }
  }

  lemma {:induction false} InsertedDistinct<R>(sorted: seq<R>, row: R, key: R -> Key)
    requires StrictlySorted(sorted, key) && forall r | r in sorted :: key(r) != key(row)
    ensures StrictlySorted(Inserted(sorted, row, key), key)
    ensures forall r | r in Inserted(sorted, row, key) :: r in sorted || r == row
    ensures |Inserted(sorted, row, key)| == |sorted| + 1
  {
    if sorted == [] {
    } else if Less(key(row), key(sorted[0])) {
      forall j | 0 <= j < |sorted| ensures Less(key(row), key(sorted[j])) {
        if j > 0 {
          KeyTransitive(key(row), key(sorted[0]), key(sorted[j]));
        }
      }
    } else {
      var rest := Inserted(sorted[1..], row, key);
      InsertedDistinct(sorted[1..], row, key);
      KeyOrder(key(sorted[0]), key(row));
      assert sorted[0] in sorted;
      forall j | 0 <= j < |rest| ensures Less(key(sorted[0]), key(rest[j])) {
        assert rest[j] in rest;
        if rest[j] in sorted[1..] {
          var i :| 0 <= i < |sorted[1..]| && sorted[1..][i] == rest[j];
          assert sorted[i + 1] == rest[j];
        }
      }
    }
  }

  lemma OrderByMember<R>(rows: seq<R>, key: R -> Key, r: R)
    ensures r in OrderBy(rows, key) <==> r in rows
  {
    OrderBySorts(rows, key);
    assert r in multiset(OrderBy(rows, key)) <==> r in multiset(rows);
  }

  /** Rows with distinct keys have one order only. */
  lemma {:induction false} OrderByStrict<R>(rows: seq<R>, key: R -> Key)
    requires DistinctKeys(rows, key)
    ensures StrictlySorted(OrderBy(rows, key), key)
    ensures |OrderBy(rows, key)| == |rows|
  {
    if rows != [] {
      OrderByStrict(rows[1..], key);
      forall r | r in OrderBy(rows[1..], key) ensures key(r) != key(rows[0]) {
        OrderByMember(rows[1..], key, r);
        var i := IndexOf(rows[1..], r);
        assert rows[i + 1] == r;
      }
      InsertedDistinct(OrderBy(rows[1..], key), rows[0], key);
    }
  }

  // ---- a row-value comparison cuts the ordered rows ----

  lemma {:induction false} WhereNone<R>(rows: seq<R>, keep: R -> bool)
    requires forall r | r in rows :: !keep(r)
    ensures Where(rows, keep) == []
  {
    if rows != [] {
      WhereNone(rows[1..], keep);
    }
  }

  lemma {:induction false} WhereAll<R>(rows: seq<R>, keep: R -> bool)
    requires forall r | r in rows :: keep(r)
    ensures Where(rows, keep) == rows
  {
    if rows != [] {
      WhereAll(rows[1..], keep);
    }
  }

  lemma {:induction false} WhereMember<R>(rows: seq<R>, keep: R -> bool, r: R)
    ensures r in Where(rows, keep) <==> r in rows && keep(r)
  {
    if rows != [] {
      WhereMember(rows[1..], keep, r);
    }
  }

  lemma {:induction false} WhereConcat<R>(a: seq<R>, b: seq<R>, keep: R -> bool)
    ensures Where(a + b, keep) == Where(a, keep) + Where(b, keep)
  {
    if a == [] {
      assert a + b == b;
    } else {
      WhereConcat(a[1..], b, keep);
      assert a == [a[0]] + a[1..] && a + b == [a[0]] + (a[1..] + b);
      WhereHead(a[0], a[1..], keep);
      WhereHead(a[0], a[1..] + b, keep);
      hide Where;
    }
  }

  lemma {:induction false} WhereDistinct<R>(rows: seq<R>, keep: R -> bool, key: R -> Key)
    requires forall i, j | 0 <= i < j < |rows| && keep(rows[i]) && keep(rows[j]) :: key(rows[i]) != key(rows[j])
    ensures DistinctKeys(Where(rows, keep), key)
  {
    if rows != [] {
      var rest := rows[1..];
      WhereDistinct(rest, keep, key);
      if keep(rows[0]) {
        forall r | r in Where(rest, keep) ensures key(r) != key(rows[0]) {
          WhereMember(rest, keep, r);
          var i := IndexOf(rest, r);
          assert rows[i + 1] == r;
        }
        var kept := Where(rest, keep);
        forall i | 0 <= i < |kept| ensures key(kept[i]) != key(rows[0]) {
          assert kept[i] in kept;
        }
      }
    }
  }

  lemma WhereHead<R>(row: R, rest: seq<R>, keep: R -> bool)
    ensures Where([row] + rest, keep) == (if keep(row) then [row] else []) + Where(rest, keep)
  {
    assert ([row] + rest)[1..] == rest;
  }

  lemma InsertedHead<R>(first: R, rest: seq<R>, row: R, key: R -> Key)
    ensures Inserted([first] + rest, row, key)
            == if Less(key(row), key(first)) then [row, first] + rest else [first] + Inserted(rest, row, key)
  {
    assert ([first] + rest)[1..] == rest;
  }

  /** Inserting and then filtering is filtering and then inserting. */
  lemma {:induction false} InsertedWhere<R>(sorted: seq<R>, row: R, keep: R -> bool, key: R -> Key)
    requires Sorted(sorted, key)
    ensures Where(Inserted(sorted, row, key), keep)
            == if keep(row) then Inserted(Where(sorted, keep), row, key) else Where(sorted, keep)
  {
    if sorted == [] {
      assert [row][1..] == [];
    } else if Less(key(row), key(sorted[0])) {
      WhereHead(row, sorted, keep);
      if keep(row) {
        FirstIsLess(sorted, row, keep, key);
      }
    } else {
      InsertedWhere(sorted[1..], row, keep, key);
      WhereHead(sorted[0], Inserted(sorted[1..], row, key), keep);
      InsertedHead(sorted[0], Where(sorted[1..], keep), row, key);
      hide Less;
      if !keep(sorted[0]) {
        assert Where(sorted, keep) == Where(sorted[1..], keep);
      }
    }
  }

  lemma FirstIsLess<R>(sorted: seq<R>, row: R, keep: R -> bool, key: R -> Key)
    requires Sorted(sorted, key) && sorted != [] && Less(key(row), key(sorted[0]))
    ensures Where(sorted, keep) == [] || Less(key(row), key(Where(sorted, keep)[0]))
  {
    if Where(sorted, keep) != [] {
      var first := Where(sorted, keep)[0];
      WhereMember(sorted, keep, first);
      assert first in Where(sorted, keep);
      assert first in sorted;
      var i := IndexOf(sorted, first);
      if key(first) != key(sorted[0]) {
        KeyOrder(key(sorted[0]), key(first));
        KeyOrder(key(first), key(first));
        KeyTransitive(key(row), key(sorted[0]), key(first));
      }
    }
  }

  lemma {:induction false} OrderWhere<R>(rows: seq<R>, keep: R -> bool, key: R -> Key)
    ensures OrderBy(Where(rows, keep), key) == Where(OrderBy(rows, key), keep)
  {
    if rows != [] {
      OrderWhere(rows[1..], keep, key);
      OrderBySorts(rows[1..], key);
      InsertedWhere(OrderBy(rows[1..], key), rows[0], keep, key);
      OrderHead(rows[0], Where(rows[1..], keep), key);
      hide Less, Inserted;
      if !keep(rows[0]) {
        assert Where(rows, keep) == Where(rows[1..], keep);
      }
    }
  }

  lemma OrderHead<R>(row: R, rest: seq<R>, key: R -> Key)
    ensures OrderBy([row] + rest, key) == Inserted(OrderBy(rest, key), row, key)
  {
    assert ([row] + rest)[1..] == rest;
  }

  /** Everything after the k-th key is everything from the k-th row on. */
  lemma AfterCuts<R>(rows: seq<R>, key: R -> Key, k: nat)
    requires DistinctKeys(rows, key) && 0 < k <= |rows|
    ensures |OrderBy(rows, key)| == |rows|
    ensures var all := OrderBy(rows, key);
            OrderBy(Where(rows, IsAfter(key, Some(key(all[k - 1])))), key) == all[k..]
  {
    OrderByStrict(rows, key);
    var all := OrderBy(rows, key);
    var keep := IsAfter(key, Some(key(all[k - 1])));
    OrderWhere(rows, keep, key);
    assert all == all[..k] + all[k..];
    WhereConcat(all[..k], all[k..], keep);
    forall r | r in all[..k] ensures !keep(r) {
      var i :| 0 <= i < k && all[i] == r;
      KeyOrder(key(all[i]), key(all[k - 1]));
    }
    forall r | r in all[k..] ensures keep(r) {
      var i :| 0 <= i < |all[k..]| && all[k..][i] == r;
      assert all[k + i] == r;
    }
    WhereNone(all[..k], keep);
    WhereAll(all[k..], keep);
  }

  lemma WhereEverything<R>(rows: seq<R>, key: R -> Key)
    ensures Where(rows, IsAfter(key, None)) == rows
  {
    WhereAll(rows, IsAfter(key, None));
  }
}
