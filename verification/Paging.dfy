/** The paged tools over one snapshot of the tables: search and reference queries, declared types, signatures. */
module Paging {
  import opened Wrappers
  import opened Index
  import opened Tables
  import opened Ordering
  import opened PageWalk
  import opened Cursors

  const MAX_LIMIT := 200

  // ---- tables as the rows a statement scans ----

  /** The scan shows every stored row once. */
  ghost predicate RecordScan(table: seq<RecordRow>, stored: FileTable<RecordKey, RecordData>) {
    && (forall i, j | 0 <= i < j < |table| :: (table[i].file, table[i].key) != (table[j].file, table[j].key))
    && (forall key | key in stored :: RecordRow(key.0, key.1, stored[key]) in table)
    && forall row | row in table :: (row.file, row.key) in stored && stored[(row.file, row.key)] == row.data
  }

  ghost predicate TypeScan(table: seq<TypeRow>, stored: FileTable<SymbolTypeKey, ()>) {
    && (forall i, j | 0 <= i < j < |table| :: table[i] != table[j])
    && (forall key | key in stored :: TypeRow(key.0, key.1) in table)
    && forall row | row in table :: (row.file, row.key) in stored
  }

  ghost predicate FunctionScan(table: seq<FunctionRow>, stored: FileTable<FunctionTypeKey, FunctionTypeData>) {
    && (forall i, j | 0 <= i < j < |table| :: (table[i].file, table[i].key) != (table[j].file, table[j].key))
    && (forall key | key in stored :: FunctionRow(key.0, key.1, stored[key]) in table)
    && forall row | row in table :: (row.file, row.key) in stored && stored[(row.file, row.key)] == row.data
  }

  function OfIdentity(identity: Identity): TypeRow -> bool {
    (row: TypeRow) => TypesOf(identity, row)
  }

  function OfFunction(identity: Identity): FunctionRow -> bool {
    (row: FunctionRow) => SignatureOf(identity, row)
  }

  // ---- the tools ----

  /** keep is the query's WHERE clause without the cursor. */
  function SearchRecords(codec: Codec, table: seq<RecordRow>, keep: RecordRow -> bool, limit: int)
    : Option<Text> -> Reply<RecordRow>
  {
    (token: Option<Text>) =>
      if limit < 1 || limit > MAX_LIMIT then InvalidParams
      else if token.None? then
        Result(Select(table, keep, RecordOrder, None, limit + 1), limit, RecordToken(codec))
      else
        var cursor := ParseCursor(codec, token.value);
        if cursor.None? then InvalidParams
        else if !ValidCursor(cursor.value) then DatabaseError
        else Result(Select(table, keep, RecordOrder, Some(CursorKey(cursor.value)), limit + 1), limit,
                    RecordToken(codec))
  }

  function DeclaredTypes(codec: Codec, table: seq<TypeRow>, identity: Identity, limit: int)
    : Option<Text> -> Reply<TypeRow>
  {
    (token: Option<Text>) =>
      if limit < 1 || limit > MAX_LIMIT || !ValidIdentity(identity) then InvalidParams
      else if token.None? then
        Result(Select(table, OfIdentity(identity), TypeOrder, None, limit + 1), limit, TypeToken(codec))
      else
        var cursor := ParseTypeCursor(codec, token.value);
        if cursor.None? then InvalidParams
        else Result(Select(table, OfIdentity(identity), TypeOrder, Some(TypeKey(cursor.value)), limit + 1), limit,
                    TypeToken(codec))
  }

  function FunctionSignature(codec: Codec, table: seq<FunctionRow>, identity: Identity, limit: int)
    : Option<Text> -> Reply<FunctionRow>
  {
    (token: Option<Text>) =>
      if limit < 1 || limit > MAX_LIMIT || !ValidIdentity(identity) then InvalidParams
      else if token.None? then
        Result(Select(table, OfFunction(identity), FunctionOrder, None, limit + 1), limit, FunctionToken(codec))
      else
        var cursor := ParseFunctionCursor(codec, token.value);
        if cursor.None? then InvalidParams
        else Result(Select(table, OfFunction(identity), FunctionOrder, Some(FunctionKey(cursor.value)), limit + 1),
                    limit, FunctionToken(codec))
  }

  // ---- the loops ----

  /** The statement loop of the type queries: every row goes to a collector that never refuses. */
  method StreamTypes<R>(rows: seq<R>, limit: nat) returns (collected: seq<R>)
    ensures collected == if limit == 0 then rows else Limited(rows, limit)
  {
    collected := [];
    var count := 0;
    while (limit == 0 || count < limit) && count < |rows|
      invariant count <= |rows| && (limit == 0 || count <= limit)
      invariant collected == rows[..count]
    {
      collected := collected + [rows[count]];
      count := count + 1;
    }
  }

  /** emit_records with a collector that stops the query once it holds more than limit rows. */
  method EmitRecords(rows: seq<RecordRow>, limit: nat) returns (collected: seq<RecordRow>)
    ensures collected == Limited(rows, limit + 1)
  {
    collected := [];
    for i := 0 to |rows|
      invariant |collected| <= limit && collected == rows[..i]
    {
      collected := collected + [rows[i]];
      if |collected| > limit {
        return;
      }
    }
  }

  /** The three result builders: drop the extra row and leave a cursor to the last one kept. */
  method BuildResult<R>(fetched: seq<R>, limit: nat, token: R -> Text) returns (reply: Reply<R>)
    ensures reply == Result(fetched, limit, token)
  {
    var records := fetched;
    var more := |records| > limit;
    if more {
      records := records[..limit];
    }
    var next := None;
    if more && records != [] {
      next := Some(token(records[|records| - 1]));
    }
    reply := Success(records, more, next);
  }

  method RunSearch(codec: Codec, table: seq<RecordRow>, keep: RecordRow -> bool, limit: int, token: Option<Text>)
    returns (reply: Reply<RecordRow>)
    ensures reply == SearchRecords(codec, table, keep, limit)(token)
  {
    if limit < 1 || limit > MAX_LIMIT {
      return InvalidParams;
    }
    var after: Option<Key> := None;
    if token.Some? {
      var cursor := ParseCursor(codec, token.value);
      if cursor.None? {
        return InvalidParams;
      }
      if !ValidCursor(cursor.value) {
        return DatabaseError;
      }
      after := Some(CursorKey(cursor.value));
    }
    var rows := Select(table, keep, RecordOrder, after, limit + 1);
    var collected := EmitRecords(rows, limit);
    reply := BuildResult(collected, limit, RecordToken(codec));
  }

  method RunDeclaredTypes(codec: Codec, table: seq<TypeRow>, identity: Identity, limit: int, token: Option<Text>)
    returns (reply: Reply<TypeRow>)
    ensures reply == DeclaredTypes(codec, table, identity, limit)(token)
  {
    if limit < 1 || limit > MAX_LIMIT || !ValidIdentity(identity) {
      return InvalidParams;
    }
    var after: Option<Key> := None;
    if token.Some? {
      var cursor := ParseTypeCursor(codec, token.value);
      if cursor.None? {
        return InvalidParams;
      }
      after := Some(TypeKey(cursor.value));
    }
    var rows := OrderBy(Where(Where(table, OfIdentity(identity)), IsAfter(TypeOrder, after)), TypeOrder);
    var collected := StreamTypes(rows, limit + 1);
    reply := BuildResult(collected, limit, TypeToken(codec));
  }

  method RunFunctionSignature(codec: Codec, table: seq<FunctionRow>, identity: Identity, limit: int,
                              token: Option<Text>)
    returns (reply: Reply<FunctionRow>)
    ensures reply == FunctionSignature(codec, table, identity, limit)(token)
  {
    if limit < 1 || limit > MAX_LIMIT || !ValidIdentity(identity) {
      return InvalidParams;
    }
    var after: Option<Key> := None;
    if token.Some? {
      var cursor := ParseFunctionCursor(codec, token.value);
      if cursor.None? {
        return InvalidParams;
      }
      after := Some(FunctionKey(cursor.value));
    }
    var rows := OrderBy(Where(Where(table, OfFunction(identity)), IsAfter(FunctionOrder, after)), FunctionOrder);
    var collected := StreamTypes(rows, limit + 1);
    reply := BuildResult(collected, limit, FunctionToken(codec));
  }

  // ---- pages partition the result ----

  /** The selection after the k-th row's key is the k-th page. */
  lemma SelectedPage<R(!new)>(table: seq<R>, keep: R -> bool, key: R -> Key, k: nat, limit: nat, token: R -> Text)
    requires DistinctKeys(Where(table, keep), key) && k <= |Where(table, keep)|
    ensures |OrderBy(Where(table, keep), key)| == |Where(table, keep)|
    ensures var all := OrderBy(Where(table, keep), key);
            var after := if k == 0 then None else Some(key(all[k - 1]));
            Result(Select(table, keep, key, after, limit + 1), limit, token) == PageAt(all, limit, token, k)
  {
    var rows := Where(table, keep);
    OrderByStrict(rows, key);
    hide OrderBy, Where, DistinctKeys;
    if k == 0 {
      WhereEverything(rows, key);
      assert OrderBy(rows, key)[0..] == OrderBy(rows, key);
    } else {
      AfterCuts(rows, key, k);
    }
  }

  ghost predicate RecordsNameable(codec: Codec, rows: seq<RecordRow>) {
    forall row | row in rows :: StoredRecord(row) && Lossless(codec, RecordObject(CursorOf(row)))
  }

  lemma RecordsDistinct(table: seq<RecordRow>, stored: FileTable<RecordKey, RecordData>, keep: RecordRow -> bool)
    requires RecordScan(table, stored)
    ensures DistinctKeys(Where(table, keep), RecordOrder)
  {
    forall i, j | 0 <= i < j < |table| && keep(table[i]) && keep(table[j])
      ensures RecordOrder(table[i]) != RecordOrder(table[j])
    {
      RecordOrderIsPrimary(table[i], table[j]);
    }
    WhereDistinct(table, keep, RecordOrder);
  }

  /** What the tool makes of one row's token. */
  lemma RecordAnswers(codec: Codec, table: seq<RecordRow>, keep: RecordRow -> bool, limit: int, k: nat)
    requires 1 <= limit <= MAX_LIMIT && DistinctKeys(Where(table, keep), RecordOrder)
    requires 0 < k < |OrderBy(Where(table, keep), RecordOrder)|
    requires var row := OrderBy(Where(table, keep), RecordOrder)[k - 1];
             StoredRecord(row) && Lossless(codec, RecordObject(CursorOf(row)))
    ensures Answers(SearchRecords(codec, table, keep, limit), OrderBy(Where(table, keep), RecordOrder), limit,
                    RecordToken(codec), Nameable, k)
  {
    var all := OrderBy(Where(table, keep), RecordOrder);
    hide DistinctKeys, OrderBy, Where, PageAt, Result, ParseCursor, ValidCursor, CursorKey, RecordOrder, Select,
      RecordToken, Nameable, StoredRecord;
    OrderByStrict(Where(table, keep), RecordOrder);
    SelectedPage(table, keep, RecordOrder, k, limit, RecordToken(codec));
    RecordCursorRoundTrip(codec, all[k - 1]);
  }

  lemma RecordsPager(codec: Codec, table: seq<RecordRow>, stored: FileTable<RecordKey, RecordData>,
                     keep: RecordRow -> bool, limit: int)
    requires 1 <= limit <= MAX_LIMIT && RecordScan(table, stored) && RecordsNameable(codec, Where(table, keep))
    ensures Pager(SearchRecords(codec, table, keep, limit), OrderBy(Where(table, keep), RecordOrder), limit,
                  RecordToken(codec), Nameable)
  {
    RecordsDistinct(table, stored, keep);
    var all, reply := OrderBy(Where(table, keep), RecordOrder), SearchRecords(codec, table, keep, limit);
    hide RecordScan, DistinctKeys, OrderBy, Where, PageAt, Result, RecordOrder, Select, RecordToken, Nameable, Answers,
      ParseCursor, ValidCursor;
    SelectedPage(table, keep, RecordOrder, 0, limit, RecordToken(codec));
    forall k | 0 < k < |all| ensures Answers(reply, all, limit, RecordToken(codec), Nameable, k) {
      OrderByMember(Where(table, keep), RecordOrder, all[k - 1]);
      RecordAnswers(codec, table, keep, limit, k);
    }
  }

  predicate Always<R>(row: R) {
    true
  }

  ghost predicate TypesNameable(codec: Codec, rows: seq<TypeRow>) {
    forall row | row in rows :: StoredType(row) && Lossless(codec, TypeObject(TypeCursorOf(row)))
  }

  lemma TypesDistinct(table: seq<TypeRow>, stored: FileTable<SymbolTypeKey, ()>, identity: Identity)
    requires TypeScan(table, stored)
    ensures DistinctKeys(Where(table, OfIdentity(identity)), TypeOrder)
  {
    forall i, j | 0 <= i < j < |table| && OfIdentity(identity)(table[i]) && OfIdentity(identity)(table[j])
      ensures TypeOrder(table[i]) != TypeOrder(table[j])
    {
      TypeOrderIsPrimary(identity, table[i], table[j]);
    }
    WhereDistinct(table, OfIdentity(identity), TypeOrder);
  }

  lemma TypesPager(codec: Codec, table: seq<TypeRow>, stored: FileTable<SymbolTypeKey, ()>, identity: Identity,
                   limit: int)
    requires 1 <= limit <= MAX_LIMIT && ValidIdentity(identity) && TypeScan(table, stored)
    requires TypesNameable(codec, Where(table, OfIdentity(identity)))
    ensures Pager(DeclaredTypes(codec, table, identity, limit),
                  OrderBy(Where(table, OfIdentity(identity)), TypeOrder), limit, TypeToken(codec), Always)
  {
    TypesDistinct(table, stored, identity);
    var keep := OfIdentity(identity);
    var all, reply := OrderBy(Where(table, keep), TypeOrder), DeclaredTypes(codec, table, identity, limit);
    hide TypeScan, DistinctKeys, OrderBy, Where, PageAt, Result, ParseTypeCursor, TypeKey, TypeOrder;
    hide Select, TypeToken, OfIdentity, ValidIdentity;
    SelectedPage(table, keep, TypeOrder, 0, limit, TypeToken(codec));
    forall k | 0 < k < |all| ensures Answers(reply, all, limit, TypeToken(codec), Always, k) {
      OrderByMember(Where(table, keep), TypeOrder, all[k - 1]);
      TypeAnswers(codec, table, identity, limit, k);
    }
  }

  lemma TypeAnswers(codec: Codec, table: seq<TypeRow>, identity: Identity, limit: int, k: nat)
    requires 1 <= limit <= MAX_LIMIT && ValidIdentity(identity)
    requires DistinctKeys(Where(table, OfIdentity(identity)), TypeOrder)
    requires 0 < k < |OrderBy(Where(table, OfIdentity(identity)), TypeOrder)|
    requires var row := OrderBy(Where(table, OfIdentity(identity)), TypeOrder)[k - 1];
             StoredType(row) && Lossless(codec, TypeObject(TypeCursorOf(row)))
    ensures Answers(DeclaredTypes(codec, table, identity, limit),
                    OrderBy(Where(table, OfIdentity(identity)), TypeOrder), limit, TypeToken(codec), Always, k)
  {
    var keep := OfIdentity(identity);
    var all := OrderBy(Where(table, keep), TypeOrder);
    hide DistinctKeys, OrderBy, Where, PageAt, Result, ParseTypeCursor, TypeKey, TypeOrder, Select, TypeToken,
      OfIdentity, ValidIdentity, StoredType;
    OrderByStrict(Where(table, keep), TypeOrder);
    SelectedPage(table, keep, TypeOrder, k, limit, TypeToken(codec));
    TypeCursorRoundTrip(codec, all[k - 1]);
  }

  ghost predicate FunctionsNameable(codec: Codec, rows: seq<FunctionRow>) {
    forall row | row in rows :: StoredFunction(row) && Lossless(codec, FunctionObject(FunctionCursorOf(row)))
  }

  lemma FunctionsDistinct(table: seq<FunctionRow>, stored: FileTable<FunctionTypeKey, FunctionTypeData>,
                          identity: Identity)
    requires FunctionScan(table, stored)
    ensures DistinctKeys(Where(table, OfFunction(identity)), FunctionOrder)
  {
    forall i, j | 0 <= i < j < |table| && OfFunction(identity)(table[i]) && OfFunction(identity)(table[j])
      ensures FunctionOrder(table[i]) != FunctionOrder(table[j])
    {
      FunctionOrderIsPrimary(identity, table[i], table[j]);
    }
    WhereDistinct(table, OfFunction(identity), FunctionOrder);
  }

  lemma FunctionsPager(codec: Codec, table: seq<FunctionRow>, stored: FileTable<FunctionTypeKey, FunctionTypeData>,
                       identity: Identity, limit: int)
    requires 1 <= limit <= MAX_LIMIT && ValidIdentity(identity) && FunctionScan(table, stored)
    requires FunctionsNameable(codec, Where(table, OfFunction(identity)))
    ensures Pager(FunctionSignature(codec, table, identity, limit),
                  OrderBy(Where(table, OfFunction(identity)), FunctionOrder), limit, FunctionToken(codec), Always)
  {
    FunctionsDistinct(table, stored, identity);
    var keep := OfFunction(identity);
    var all, reply := OrderBy(Where(table, keep), FunctionOrder), FunctionSignature(codec, table, identity, limit);
    hide FunctionScan, DistinctKeys, OrderBy, Where, PageAt, Result, ParseFunctionCursor, FunctionKey, FunctionOrder;
    hide Select, FunctionToken, OfFunction, ValidIdentity;
    SelectedPage(table, keep, FunctionOrder, 0, limit, FunctionToken(codec));
    forall k | 0 < k < |all| ensures Answers(reply, all, limit, FunctionToken(codec), Always, k) {
      OrderByMember(Where(table, keep), FunctionOrder, all[k - 1]);
      FunctionAnswers(codec, table, identity, limit, k);
    }
  }

  lemma FunctionAnswers(codec: Codec, table: seq<FunctionRow>, identity: Identity, limit: int, k: nat)
    requires 1 <= limit <= MAX_LIMIT && ValidIdentity(identity)
    requires DistinctKeys(Where(table, OfFunction(identity)), FunctionOrder)
    requires 0 < k < |OrderBy(Where(table, OfFunction(identity)), FunctionOrder)|
    requires var row := OrderBy(Where(table, OfFunction(identity)), FunctionOrder)[k - 1];
             StoredFunction(row) && Lossless(codec, FunctionObject(FunctionCursorOf(row)))
    ensures Answers(FunctionSignature(codec, table, identity, limit),
                    OrderBy(Where(table, OfFunction(identity)), FunctionOrder), limit, FunctionToken(codec), Always, k)
  {
    var keep := OfFunction(identity);
    var all := OrderBy(Where(table, keep), FunctionOrder);
    hide DistinctKeys, OrderBy, Where, PageAt, Result, ParseFunctionCursor, FunctionKey, FunctionOrder, Select,
      FunctionToken, OfFunction, ValidIdentity, StoredFunction;
    OrderByStrict(Where(table, keep), FunctionOrder);
    SelectedPage(table, keep, FunctionOrder, k, limit, FunctionToken(codec));
    FunctionCursorRoundTrip(codec, all[k - 1]);
  }

  // ---- the promises ----

  /** A complete walk shows every selected row once, in order; no walk shows anything else or goes on for ever. */
  ghost predicate Partitions<R(!new)>(reply: Option<Text> -> Reply<R>, rows: seq<R>, key: R -> Key) {
    exists all ::
      && StrictlySorted(all, key) && multiset(all) == multiset(rows)
      && (forall pages | Walk(reply, pages) :: Items(pages) <= all && |pages| <= 1 + |all|)
      && (forall pages | Walk(reply, pages) && Ends(pages) :: Items(pages) == all)
  }

  lemma PagerPartitions<R(!new)>(reply: Option<Text> -> Reply<R>, rows: seq<R>, key: R -> Key, limit: nat,
                                 token: R -> Text, accepts: R -> bool)
    requires limit >= 1 && DistinctKeys(rows, key) && Pager(reply, OrderBy(rows, key), limit, token, accepts)
    ensures Partitions(reply, rows, key)
    ensures (exists pages :: Walk(reply, pages) && Ends(pages))
            <==> BoundariesAccepted(OrderBy(rows, key), limit, accepts, 0)
  {
    hide OrderBy, Pager, Walk, Ends, Items;
    OrderByStrict(rows, key);
    OrderBySorts(rows, key);
    PagesPartition(reply, OrderBy(rows, key), limit, token, accepts);
  }

  /** Record queries: the pages partition the result, and the walk ends exactly when each row that closes a page has a
      position and no empty name. */
  lemma RecordPagesPartition(codec: Codec, table: seq<RecordRow>, stored: FileTable<RecordKey, RecordData>,
                             keep: RecordRow -> bool, limit: int)
    requires 1 <= limit <= MAX_LIMIT && RecordScan(table, stored) && RecordsNameable(codec, Where(table, keep))
    ensures var reply := SearchRecords(codec, table, keep, limit);
            && Partitions(reply, Where(table, keep), RecordOrder)
            && ((exists pages :: Walk(reply, pages) && Ends(pages))
                <==> BoundariesAccepted(OrderBy(Where(table, keep), RecordOrder), limit, Nameable, 0))
  {
    hide *;
    RecordsPager(codec, table, stored, keep, limit);
    RecordsDistinct(table, stored, keep);
    PagerPartitions(SearchRecords(codec, table, keep, limit), Where(table, keep), RecordOrder, limit,
                    RecordToken(codec), Nameable);
  }

  lemma AlwaysAccepted<R>(all: seq<R>, limit: nat)
    requires limit >= 1
    ensures BoundariesAccepted(all, limit, Always, 0)
  {
    AcceptedBoundaries(all, limit, Always, 0);
  }

  /** Declared types: the walk always ends and shows every type of the symbol once. */
  lemma TypePagesPartition(codec: Codec, table: seq<TypeRow>, stored: FileTable<SymbolTypeKey, ()>,
                           identity: Identity, limit: int)
    requires 1 <= limit <= MAX_LIMIT && ValidIdentity(identity) && TypeScan(table, stored)
    requires TypesNameable(codec, Where(table, OfIdentity(identity)))
    ensures var reply := DeclaredTypes(codec, table, identity, limit);
            && Partitions(reply, Where(table, OfIdentity(identity)), TypeOrder)
            && exists pages :: Walk(reply, pages) && Ends(pages)
  {
    hide *;
    TypesPager(codec, table, stored, identity, limit);
    TypesDistinct(table, stored, identity);
    PagerPartitions(DeclaredTypes(codec, table, identity, limit), Where(table, OfIdentity(identity)), TypeOrder, limit,
                    TypeToken(codec), Always);
    AlwaysAccepted(OrderBy(Where(table, OfIdentity(identity)), TypeOrder), limit);
  }

  /** Signatures: the walk always ends and shows the return type and every parameter once. */
  lemma FunctionPagesPartition(codec: Codec, table: seq<FunctionRow>,
                               stored: FileTable<FunctionTypeKey, FunctionTypeData>, identity: Identity, limit: int)
    requires 1 <= limit <= MAX_LIMIT && ValidIdentity(identity) && FunctionScan(table, stored)
    requires FunctionsNameable(codec, Where(table, OfFunction(identity)))
    ensures var reply := FunctionSignature(codec, table, identity, limit);
            && Partitions(reply, Where(table, OfFunction(identity)), FunctionOrder)
            && exists pages :: Walk(reply, pages) && Ends(pages)
  {
    hide *;
    FunctionsPager(codec, table, stored, identity, limit);
    FunctionsDistinct(table, stored, identity);
    PagerPartitions(FunctionSignature(codec, table, identity, limit), Where(table, OfFunction(identity)), FunctionOrder,
                    limit, FunctionToken(codec), Always);
    AlwaysAccepted(OrderBy(Where(table, OfFunction(identity)), FunctionOrder), limit);
  }

  function Everything(): RecordRow -> bool {
    (row: RecordRow) => true
  }

  /** A symbol recorded at line 0 stops the walk: of two records the second one cannot be reached one by one. */
  lemma LineZeroStops(codec: Codec, first: RecordRow, second: RecordRow)
    requires first.file == second.file && first.key.line == 0 && second.key.line > 0
    requires RecordsNameable(codec, [first, second])
    ensures var reply := SearchRecords(codec, [first, second], Everything(), 1);
            !exists pages :: Walk(reply, pages) && Ends(pages)
  {
    var table, keep := [first, second], Everything();
    var stored := map[(first.file, first.key) := first.data, (second.file, second.key) := second.data];
    assert table[0] == first && table[1] == second;
    assert RecordScan(table, stored);
    WhereAll(table, keep);
    var x, y := RecordOrder(first), RecordOrder(second);
    assert x[1..][0] == y[1..][0] && x[1..][1..][0] == Number(0) && y[1..][1..][0] == Number(second.key.line);
    assert Less(x[1..][1..], y[1..][1..]);
    assert Less(x, y);
    OrderOfTwo(first, second);
    hide Walk, Ends, RecordScan, Where, Partitions, SearchRecords;
    RecordPagesPartition(codec, table, stored, keep, 1);
  }

  lemma OrderOfTwo(first: RecordRow, second: RecordRow)
    requires Less(RecordOrder(first), RecordOrder(second))
    ensures OrderBy([first, second], RecordOrder) == [first, second]
  {
    var key := RecordOrder;
    assert Less(key(first), key(second));
    hide Less, RecordOrder;
    assert [first, second][1..] == [second] && [second][1..] == [];
    assert OrderBy([second], key) == [second] by {
      assert OrderBy([], key) == [];
    }
    assert OrderBy([first, second], key) == Inserted([second], first, key);
  }
}
