/** Which rows the paged tools show, in terms of the stored columns. */
module QueryResults {
  import opened Wrappers
  import opened Index
  import opened Tables
  import opened Ordering
  import opened PageWalk
  import opened Cursors
  import opened Paging
  import opened CallPaging
  import CallGraph

  // ---- complete walks ----

  ghost predicate InTable<K, V>(stored: FileTable<K, V>, file: FileId, key: K, data: V) {
    (file, key) in stored && stored[(file, key)] == data
  }

  /** A complete walk shows the selected rows, each once. */
  lemma WalkShows<R(!new)>(reply: Option<Text> -> Reply<R>, rows: seq<R>, key: R -> Key, pages: seq<Reply<R>>)
    requires Partitions(reply, rows, key) && Walk(reply, pages) && Ends(pages)
    ensures forall row :: row in Items(pages) <==> row in rows
    ensures StrictlySorted(Items(pages), key)
    ensures forall i, j | 0 <= i < j < |Items(pages)| :: Items(pages)[i] != Items(pages)[j]
  {
    hide *;
    CompleteWalk(reply, rows, key, pages);
    StrictIsDistinct(Items(pages), key);
    forall row ensures row in Items(pages) <==> row in rows {
      SameMembers(Items(pages), rows, row);
    }
  }

  lemma CompleteWalk<R(!new)>(reply: Option<Text> -> Reply<R>, rows: seq<R>, key: R -> Key, pages: seq<Reply<R>>)
    requires Partitions(reply, rows, key) && Walk(reply, pages) && Ends(pages)
    ensures StrictlySorted(Items(pages), key) && multiset(Items(pages)) == multiset(rows)
  {
    hide Walk, Ends, Items, StrictlySorted;
  }

  lemma SameMembers<R>(a: seq<R>, b: seq<R>, row: R)
    requires multiset(a) == multiset(b)
    ensures row in a <==> row in b
  {
    assert row in multiset(a) <==> row in multiset(b);
  }

  lemma StrictIsDistinct<R>(rows: seq<R>, key: R -> Key)
    requires StrictlySorted(rows, key)
    ensures forall i, j | 0 <= i < j < |rows| :: rows[i] != rows[j]
  {
    hide Less;
    forall i, j | 0 <= i < j < |rows| ensures rows[i] != rows[j] {
      KeyOrder(key(rows[i]), key(rows[j]));
    }
  }

  /** Record queries: the stored rows that satisfy the filter. */
  lemma RecordWalkShows(codec: Codec, table: seq<RecordRow>, stored: FileTable<RecordKey, RecordData>,
                        keep: RecordRow -> bool, limit: int, pages: seq<Reply<RecordRow>>)
    requires 1 <= limit <= MAX_LIMIT && RecordScan(table, stored) && RecordsNameable(codec, Where(table, keep))
    requires Walk(SearchRecords(codec, table, keep, limit), pages) && Ends(pages)
    ensures forall row: RecordRow ::
              row in Items(pages) <==> InTable(stored, row.file, row.key, row.data) && keep(row)
    ensures forall i, j | 0 <= i < j < |Items(pages)| :: Items(pages)[i] != Items(pages)[j]
  {
    RecordScanned(table, stored);
    hide *;
    RecordPagesPartition(codec, table, stored, keep, limit);
    WalkShows(SearchRecords(codec, table, keep, limit), Where(table, keep), RecordOrder, pages);
    forall row: RecordRow
      ensures row in Items(pages) <==> InTable(stored, row.file, row.key, row.data) && keep(row)
    {
      WhereMember(table, keep, row);
    }
  }

  lemma RecordScanned(table: seq<RecordRow>, stored: FileTable<RecordKey, RecordData>)
    requires RecordScan(table, stored)
    ensures forall row: RecordRow :: row in table <==> InTable(stored, row.file, row.key, row.data)
  {
    forall row: RecordRow | InTable(stored, row.file, row.key, row.data) ensures row in table {
      assert RecordRow(row.file, row.key, stored[(row.file, row.key)]) in table;
    }
  }

  /** Declared types: the stored types of that symbol, in the order of the types' names. */
  lemma TypeWalkShows(codec: Codec, table: seq<TypeRow>, stored: FileTable<SymbolTypeKey, ()>, identity: Identity,
                      limit: int, pages: seq<Reply<TypeRow>>)
    requires 1 <= limit <= MAX_LIMIT && ValidIdentity(identity) && TypeScan(table, stored)
    requires TypesNameable(codec, Where(table, OfIdentity(identity)))
    requires Walk(DeclaredTypes(codec, table, identity, limit), pages) && Ends(pages)
    ensures forall row: TypeRow ::
              row in Items(pages) <==>
                && (row.file, row.key) in stored && row.file.variant == identity.variant
                && row.key.symbol == identity.symbol && row.key.kind == identity.kind
                && row.key.usrId == identity.usrId
    ensures var shown := Items(pages);
            forall i, j | 0 <= i < j < |shown| ::
              shown[i] != shown[j] && !TextLess(shown[j].key.declaredType, shown[i].key.declaredType)
  {
    hide *;
    TypePagesPartition(codec, table, stored, identity, limit);
    WalkShows(DeclaredTypes(codec, table, identity, limit), Where(table, OfIdentity(identity)), TypeOrder, pages);
    forall row: TypeRow
      ensures row in Items(pages) <==>
                && (row.file, row.key) in stored && row.file.variant == identity.variant
                && row.key.symbol == identity.symbol && row.key.kind == identity.kind
                && row.key.usrId == identity.usrId
    {
      WhereMember(table, OfIdentity(identity), row);
      TypeSelected(table, stored, identity, row);
    }
    TypesInOrder(Items(pages));
  }

  lemma TypeSelected(table: seq<TypeRow>, stored: FileTable<SymbolTypeKey, ()>, identity: Identity, row: TypeRow)
    requires TypeScan(table, stored)
    ensures row in table && OfIdentity(identity)(row) <==>
              && (row.file, row.key) in stored && row.file.variant == identity.variant
              && row.key.symbol == identity.symbol && row.key.kind == identity.kind
              && row.key.usrId == identity.usrId
  {
    if (row.file, row.key) in stored {
      assert TypeRow((row.file, row.key).0, (row.file, row.key).1) in table;
    }
  }

  lemma TypesInOrder(rows: seq<TypeRow>)
    requires StrictlySorted(rows, TypeOrder)
    ensures forall i, j | 0 <= i < j < |rows| :: !TextLess(rows[j].key.declaredType, rows[i].key.declaredType)
  {
    forall i, j | 0 <= i < j < |rows| ensures !TextLess(rows[j].key.declaredType, rows[i].key.declaredType) {
      var x, y := TypeOrder(rows[i]), TypeOrder(rows[j]);
      assert Less(x, y);
      FirstCell(x, y);
      TextOrder(rows[i].key.declaredType, rows[j].key.declaredType);
    }
  }

  lemma FirstCell(x: Key, y: Key)
    requires Less(x, y) && x != []
    ensures y != [] && (CellLess(x[0], y[0]) || x[0] == y[0])
  {
  }

  /** Signatures: the stored rows of that function, the return type before the parameters. */
  lemma FunctionWalkShows(codec: Codec, table: seq<FunctionRow>, stored: FileTable<FunctionTypeKey, FunctionTypeData>,
                          identity: Identity, limit: int, pages: seq<Reply<FunctionRow>>)
    requires 1 <= limit <= MAX_LIMIT && ValidIdentity(identity) && FunctionScan(table, stored)
    requires FunctionsNameable(codec, Where(table, OfFunction(identity)))
    requires Walk(FunctionSignature(codec, table, identity, limit), pages) && Ends(pages)
    ensures forall row: FunctionRow ::
              row in Items(pages) <==>
                && InTable(stored, row.file, row.key, row.data) && row.file.variant == identity.variant
                && row.key.symbol == identity.symbol && row.key.usrId == identity.usrId
    ensures var shown := Items(pages);
            forall i, j | 0 <= i < j < |shown| ::
              shown[i] != shown[j] && shown[i].key.position <= shown[j].key.position
  {
    hide *;
    FunctionPagesPartition(codec, table, stored, identity, limit);
    WalkShows(FunctionSignature(codec, table, identity, limit), Where(table, OfFunction(identity)), FunctionOrder,
              pages);
    forall row: FunctionRow
      ensures row in Items(pages) <==>
                && InTable(stored, row.file, row.key, row.data) && row.file.variant == identity.variant
                && row.key.symbol == identity.symbol && row.key.usrId == identity.usrId
    {
      WhereMember(table, OfFunction(identity), row);
      FunctionSelected(table, stored, identity, row);
    }
    FunctionsInOrder(Items(pages));
  }

  lemma FunctionSelected(table: seq<FunctionRow>, stored: FileTable<FunctionTypeKey, FunctionTypeData>,
                         identity: Identity, row: FunctionRow)
    requires FunctionScan(table, stored)
    ensures row in table && OfFunction(identity)(row) <==>
              && InTable(stored, row.file, row.key, row.data) && row.file.variant == identity.variant
              && row.key.symbol == identity.symbol && row.key.usrId == identity.usrId
  {
    if InTable(stored, row.file, row.key, row.data) {
      assert FunctionRow((row.file, row.key).0, (row.file, row.key).1, stored[(row.file, row.key)]) in table;
    }
  }

  lemma FunctionsInOrder(rows: seq<FunctionRow>)
    requires StrictlySorted(rows, FunctionOrder)
    ensures forall i, j | 0 <= i < j < |rows| :: rows[i].key.position <= rows[j].key.position
  {
    forall i, j | 0 <= i < j < |rows| ensures rows[i].key.position <= rows[j].key.position {
      var x, y := FunctionOrder(rows[i]), FunctionOrder(rows[j]);
      assert Less(x, y);
      FirstCell(x, y);
    }
  }

  // ---- direct calls ----

  /** The stored call of the function, or by it, that a direct query is about. */
  predicate IsCallOf(row: RecordRow, direction: Direction, identity: Identity) {
    && row.file.variant == identity.variant
    && row.key.record == 1 && row.key.action == 3 && row.key.kind == 7
    && (direction.Callers? ==> row.key.symbol == identity.symbol && row.data.usrId == Some(identity.usrId))
    && (direction.Callees? ==> row.data.context == identity.symbol && row.data.contextUsrId == Some(identity.usrId))
  }

  /** Name of the function at the other end, path, line, column. */
  predicate NotLater(direction: Direction, a: RecordRow, b: RecordRow) {
    var x := if direction.Callers? then a.data.context else a.key.symbol;
    var y := if direction.Callers? then b.data.context else b.key.symbol;
    || TextLess(x, y)
    || (x == y
        && (|| TextLess(a.file.path, b.file.path)
            || (a.file.path == b.file.path
                && (a.key.line < b.key.line || (a.key.line == b.key.line && a.key.column <= b.key.column)))))
  }

  lemma StreamedShows(table: seq<RecordRow>, stored: FileTable<RecordKey, RecordData>, direction: Direction,
                      identity: Identity)
    requires RecordScan(table, stored)
    ensures forall row: RecordRow ::
              row in Streamed(table, direction, identity) <==>
                InTable(stored, row.file, row.key, row.data) && IsCallOf(row, direction, identity)
    ensures var all := Streamed(table, direction, identity);
            forall i, j | 0 <= i < j < |all| :: all[i] != all[j] && NotLater(direction, all[i], all[j])
  {
    var all := Streamed(table, direction, identity);
    RecordScanned(table, stored);
    StreamedDistinct(table, stored, direction, identity);
    hide RecordScan;
    forall row: RecordRow
      ensures row in all <==> InTable(stored, row.file, row.key, row.data) && IsCallOf(row, direction, identity)
    {
      hide InTable;
      OrderByMember(Where(table, CallsWith(direction, identity)), CallOrder(direction), row);
      WhereMember(table, CallsWith(direction, identity), row);
    }
    OrderBySorts(Where(table, CallsWith(direction, identity)), CallOrder(direction));
    hide Streamed, Where, OrderBy;
    forall i, j | 0 <= i < j < |all| ensures NotLater(direction, all[i], all[j]) {
      CallsInOrder(direction, all[i], all[j]);
    }
  }

  lemma CallsInOrder(direction: Direction, a: RecordRow, b: RecordRow)
    requires !Less(CallOrder(direction)(b), CallOrder(direction)(a))
    ensures NotLater(direction, a, b)
  {
    var x, y := CallOrder(direction)(b), CallOrder(direction)(a);
    CellOrder(x[0], y[0]);
    CellOrder(x[1], y[1]);
    LessUnfolds(x, y);
  }

  lemma LessUnfolds(x: Key, y: Key)
    requires |x| == |y| == 4
    ensures Less(x, y) <==>
              || CellLess(x[0], y[0])
              || (x[0] == y[0] && (|| CellLess(x[1], y[1])
                                   || (x[1] == y[1] && (|| CellLess(x[2], y[2])
                                                        || (x[2] == y[2] && CellLess(x[3], y[3]))))))
  {
    hide CellLess;
    assert x[1..][0] == x[1] && x[1..][1..][0] == x[2] && x[1..][1..][1..][0] == x[3];
    assert y[1..][0] == y[1] && y[1..][1..][0] == y[2] && y[1..][1..][1..][0] == y[3];
    assert Less(x[1..][1..][1..], y[1..][1..][1..]) <==> CellLess(x[3], y[3]);
    assert Less(x[1..][1..], y[1..][1..]) <==> CellLess(x[2], y[2]) || (x[2] == y[2] && CellLess(x[3], y[3]));
  }

  /** A complete walk over direct calls shows the stored calls of that function in that direction, each once, ordered by
      the function at the other end and then by position. */
  lemma CallWalkShows(codec: Codec, table: seq<RecordRow>, stored: FileTable<RecordKey, RecordData>,
                      direction: Direction, identity: Identity, limit: int, pages: seq<Reply<RecordRow>>)
    requires 1 <= limit <= MAX_LIMIT && ValidFunction(identity) && RecordScan(table, stored) && codec.read([]).None?
    requires forall row | row in table && IsCallOf(row, direction, identity) ::
               Lossless(codec, RecordObject(CursorOf(row)))
    requires Walk(DirectCalls(codec, table, direction, identity, limit), pages) && Ends(pages)
    ensures forall row: RecordRow ::
              row in Items(pages) <==>
                InTable(stored, row.file, row.key, row.data) && IsCallOf(row, direction, identity)
    ensures var shown := Items(pages);
            forall i, j | 0 <= i < j < |shown| :: shown[i] != shown[j] && NotLater(direction, shown[i], shown[j])
  {
    hide *;
    StreamedShows(table, stored, direction, identity);
    RecordScanned(table, stored);
    LosslessCallPages(codec, table, stored, direction, identity, limit);
  }

  // ---- the direct and the recursive query ----

  predicate Positioned(row: RecordRow) {
    0 <= row.key.line < 0x1_0000_0000 && 0 <= row.key.column < 0x1_0000_0000
  }

  function AsCall(row: RecordRow): CallGraph.CallRow
    requires Positioned(row)
  {
    CallGraph.CallRow(row.file.variant, row.file.path, row.key.line, row.key.column, row.key.symbol, row.data.usrId,
                      row.data.context, row.data.contextUsrId)
  }

  function AsCalls(rows: seq<RecordRow>): seq<CallGraph.CallRow>
    requires forall row | row in rows :: Positioned(row)
  {
    if rows == [] then [] else [AsCall(rows[0])] + AsCalls(rows[1..])
  }

  function AnyCall(): RecordRow -> bool {
    (row: RecordRow) => IsCall(row.key)
  }

  function GraphDirection(direction: Direction): CallGraph.Direction {
    match direction
    case Callers => CallGraph.Callers
    case Callees => CallGraph.Callees
  }

  lemma {:induction false} CallsOfRows(rows: seq<RecordRow>, direction: Direction, identity: Identity)
    requires forall row | row in rows :: Positioned(row) && IsCall(row.key)
    ensures forall row | row in Where(rows, CallsWith(direction, identity)) :: Positioned(row)
    ensures CallGraph.Calls(AsCalls(rows), GraphDirection(direction),
                            CallGraph.Identity(identity.variant, identity.symbol, identity.usrId))
            == AsCalls(Where(rows, CallsWith(direction, identity)))
  {
    hide Positioned;
    if rows != [] {
      CallsOfRows(rows[1..], direction, identity);
      var kept, more := Where(rows[1..], CallsWith(direction, identity)), AsCalls(rows[1..]);
      assert AsCalls(rows)[1..] == more;
      if CallsWith(direction, identity)(rows[0]) {
        assert ([rows[0]] + kept)[1..] == kept;
      } else {
        assert [] + kept == kept;
      }
    }
  }

  lemma {:induction false} WhereTwice<R>(rows: seq<R>, outer: R -> bool, keep: R -> bool)
    requires forall row | row in rows && keep(row) :: outer(row)
    ensures Where(Where(rows, outer), keep) == Where(rows, keep)
  {
    if rows != [] {
      WhereTwice(rows[1..], outer, keep);
      WhereHead(rows[0], Where(rows[1..], outer), keep);
      assert [] + Where(rows[1..], outer) == Where(rows[1..], outer);
      assert [] + Where(rows[1..], keep) == Where(rows[1..], keep);
    }
  }

  /** Of the calls in streaming order, those that the recursive query looks up for a function are the rows of the direct
      query, in the same order. */
  lemma DirectIsFirstLevel(table: seq<RecordRow>, direction: Direction, identity: Identity)
    requires forall row | row in table :: Positioned(row)
    ensures var calls := OrderBy(Where(table, AnyCall()), CallOrder(direction));
            && (forall row | row in calls :: Positioned(row))
            && (forall row | row in Streamed(table, direction, identity) :: Positioned(row))
            && CallGraph.Calls(AsCalls(calls), GraphDirection(direction),
                               CallGraph.Identity(identity.variant, identity.symbol, identity.usrId))
               == AsCalls(Streamed(table, direction, identity))
  {
    var keep, key := CallsWith(direction, identity), CallOrder(direction);
    var calls := OrderBy(Where(table, AnyCall()), key);
    forall row | row in calls ensures Positioned(row) && IsCall(row.key) {
      OrderByMember(Where(table, AnyCall()), key, row);
      WhereMember(table, AnyCall(), row);
    }
    WhereTwice(table, AnyCall(), keep);
    OrderWhere(Where(table, AnyCall()), keep, key);
    hide OrderBy, Where, CallsWith, CallOrder, AsCalls;
    CallsOfRows(calls, direction, identity);
  }

  // ---- refusals ----

  /** A cursor that is no hexadecimal JSON object is refused by all three tools, as is a limit out of range. */
  lemma BadRequestsAreRefused(codec: Codec, records: seq<RecordRow>, keep: RecordRow -> bool, types: seq<TypeRow>,
                              functions: seq<FunctionRow>, identity: Identity, limit: int, token: Option<Text>)
    requires limit < 1 || limit > 200 || (token.Some? && DecodeCursor(codec, token.value).None?)
    ensures SearchRecords(codec, records, keep, limit)(token) == InvalidParams
    ensures DeclaredTypes(codec, types, identity, limit)(token) == InvalidParams
    ensures FunctionSignature(codec, functions, identity, limit)(token) == InvalidParams
  {
    hide DecodeCursor, Select, Result, RecordToken, TypeToken, FunctionToken;
  }

  /** An incomplete identity is refused. */
  lemma BadIdentitiesAreRefused(codec: Codec, types: seq<TypeRow>, functions: seq<FunctionRow>,
                                calls: seq<RecordRow>, direction: Direction, identity: Identity, limit: int,
                                token: Option<Text>)
    requires identity.variant == [] || identity.symbol == [] || identity.usrId == 0
    ensures DeclaredTypes(codec, types, identity, limit)(token) == InvalidParams
    ensures FunctionSignature(codec, functions, identity, limit)(token) == InvalidParams
    ensures DirectCalls(codec, calls, direction, identity, limit)(token) == InvalidParams
  {
    hide Select, Result, TypeToken, FunctionToken, Streamed, After, PageAt, ParseTypeCursor, ParseFunctionCursor;
  }

  /** A cursor of a direct call query that no call of the function has is refused. */
  lemma StrayCallCursorsAreRefused(codec: Codec, table: seq<RecordRow>, stored: FileTable<RecordKey, RecordData>,
                                   direction: Direction, identity: Identity, limit: int, cursor: Text)
    requires RecordScan(table, stored) && cursor != []
    requires forall row: RecordRow ::
               InTable(stored, row.file, row.key, row.data) && IsCallOf(row, direction, identity) ==>
                 RecordToken(codec)(row) != cursor
    ensures DirectCalls(codec, table, direction, identity, limit)(Some(cursor)) == InvalidParams
  {
    var all := Streamed(table, direction, identity);
    StreamedShows(table, stored, direction, identity);
    hide Streamed, PageAt, InTable, IsCallOf, RecordToken, NotLater, RecordScan, ValidFunction;
    forall i | 0 <= i < |all| ensures RecordToken(codec)(all[i]) != cursor {
      assert all[i] in all;
    }
    NeverSeen(all, RecordToken(codec), cursor);
  }
}
