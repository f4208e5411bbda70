/** Paging when only the names that close a page are known to be UTF-8: what JSON makes of other names is left open. */
module PagingUtf8 {
  import opened Wrappers
  import opened Index
  import opened Tables
  import opened Ordering
  import opened PageWalk
  import opened Cursors
  import opened Paging
  import Hex
  import Utf16
  import Utf16Results

  /** Section 3 of RFC 3629: the encoding of some scalar values. */
  ghost predicate Utf8(text: Text) {
    exists values: seq<nat> :: (forall v | v in values :: Utf16.Scalar(v)) && Utf16Results.EncodeAll(values) == text
  }

  ghost predicate Utf8Object(o: Object) {
    forall name | name in o && o[name].Str? :: Utf8(o[name].text)
  }

  /** JSON writes and reads strings of UTF-8 without loss. */
  ghost predicate KeepsUtf8(codec: Codec) {
    forall o: Object | Utf8Object(o) :: Lossless(codec, o)
  }

  lemma {:induction false} DigitsAreUtf8(value: nat, digits: nat)
    ensures Utf8(Hex.Fixed(value, digits))
    decreases digits
  {
    if digits == 0 {
      assert Utf16Results.EncodeAll([]) == [];
    } else {
      DigitsAreUtf8(value / 16, digits - 1);
      OneMoreAscii(Hex.Fixed(value / 16, digits - 1), Hex.Digit(value % 16));
    }
  }

  lemma OneMoreAscii(text: Text, b: byte)
    requires Utf8(text) && b < 0x80
    ensures Utf8(text + [b])
  {
    var values: seq<nat> :| (forall v | v in values :: Utf16.Scalar(v)) && Utf16Results.EncodeAll(values) == text;
    var more := values + [b as int];
    assert more[..|values|] == values;
    assert Utf16Results.Encode(b as int) == [b];
    assert Utf16Results.EncodeAll(more) == text + [b];
  }

  // ---- rows that a cursor brings back ----

  /** A position, no empty name, and names of UTF-8. */
  ghost predicate RecordAccepted(row: RecordRow) {
    Nameable(row) && Utf8(row.file.variant) && Utf8(row.file.path) && Utf8(row.key.symbol)
  }

  ghost predicate TypeAccepted(row: TypeRow) {
    && Utf8(row.key.declaredType) && Utf8(row.key.canonicalType) && Utf8(row.key.typeSymbol)
    && Utf8(row.file.path)
  }

  ghost predicate FunctionAccepted(row: FunctionRow) {
    && Utf8(row.key.declaredType) && Utf8(row.key.canonicalType) && Utf8(row.key.typeSymbol)
    && Utf8(row.file.path)
  }

  lemma RecordIsLossless(codec: Codec, row: RecordRow)
    requires KeepsUtf8(codec) && RecordAccepted(row)
    ensures Lossless(codec, RecordObject(CursorOf(row)))
  {
    hide Utf8, Lossless;
    assert Utf8Object(RecordObject(CursorOf(row)));
  }

  lemma TypeIsLossless(codec: Codec, row: TypeRow)
    requires KeepsUtf8(codec) && TypeAccepted(row)
    ensures Lossless(codec, TypeObject(TypeCursorOf(row)))
  {
    DigitsAreUtf8(row.key.typeUsrId, 16);
    hide Utf8, Lossless, Hex.Fixed;
    assert Utf8Object(TypeObject(TypeCursorOf(row)));
  }

  lemma FunctionIsLossless(codec: Codec, row: FunctionRow)
    requires KeepsUtf8(codec) && FunctionAccepted(row)
    ensures Lossless(codec, FunctionObject(FunctionCursorOf(row)))
  {
    DigitsAreUtf8(row.key.typeUsrId, 16);
    hide Utf8, Lossless, Hex.Fixed;
    assert Utf8Object(FunctionObject(FunctionCursorOf(row)));
  }

  // ---- the promises ----

  lemma AcceptedPartitions<R(!new)>(reply: Option<Text> -> Reply<R>, rows: seq<R>, key: R -> Key, limit: nat,
                                    token: R -> Text, accepts: R -> bool)
    requires limit >= 1 && DistinctKeys(rows, key) && AcceptedPager(reply, OrderBy(rows, key), limit, token, accepts)
    requires BoundariesAccepted(OrderBy(rows, key), limit, accepts, 0)
    ensures Partitions(reply, rows, key) && exists pages :: Walk(reply, pages) && Ends(pages)
  {
    hide OrderBy, AcceptedPager, Walk, Ends, Items, BoundariesAccepted;
    OrderByStrict(rows, key);
    OrderBySorts(rows, key);
    AcceptedPagesPartition(reply, OrderBy(rows, key), limit, token, accepts);
  }

  lemma RecordsAcceptedPager(codec: Codec, table: seq<RecordRow>, keep: RecordRow -> bool, limit: int)
    requires 1 <= limit <= MAX_LIMIT && KeepsUtf8(codec) && forall row | row in Where(table, keep) :: StoredRecord(row)
    requires DistinctKeys(Where(table, keep), RecordOrder)
    ensures AcceptedPager(SearchRecords(codec, table, keep, limit), OrderBy(Where(table, keep), RecordOrder), limit,
                          RecordToken(codec), (row: RecordRow) => RecordAccepted(row))
  {
    var all, reply := OrderBy(Where(table, keep), RecordOrder), SearchRecords(codec, table, keep, limit);
    hide DistinctKeys, OrderBy, Where, PageAt, Result, RecordOrder, Select, RecordToken, Nameable, KeepsUtf8, Utf8,
      ParseCursor, ValidCursor, StoredRecord, Lossless;
    OrderByStrict(Where(table, keep), RecordOrder);
    SelectedPage(table, keep, RecordOrder, 0, limit, RecordToken(codec));
    forall k | 0 < k < |all| && RecordAccepted(all[k - 1])
      ensures reply(Some(RecordToken(codec)(all[k - 1]))) == PageAt(all, limit, RecordToken(codec), k)
    {
      OrderByMember(Where(table, keep), RecordOrder, all[k - 1]);
      RecordIsLossless(codec, all[k - 1]);
      RecordAnswers(codec, table, keep, limit, k);
    }
  }

  /** Record queries: whatever the other rows are called, the walk ends and its pages partition the result when each
      row that closes a page has a position and non-empty names of UTF-8. */
  lemma RecordPagesUtf8(codec: Codec, table: seq<RecordRow>, stored: FileTable<RecordKey, RecordData>,
                        keep: RecordRow -> bool, limit: int)
    requires 1 <= limit <= MAX_LIMIT && KeepsUtf8(codec) && RecordScan(table, stored)
    requires forall row | row in Where(table, keep) :: StoredRecord(row)
    requires BoundariesAccepted(OrderBy(Where(table, keep), RecordOrder), limit,
                                (row: RecordRow) => RecordAccepted(row), 0)
    ensures var reply := SearchRecords(codec, table, keep, limit);
            && Partitions(reply, Where(table, keep), RecordOrder)
            && exists pages :: Walk(reply, pages) && Ends(pages)
  {
    hide *;
    RecordsDistinct(table, stored, keep);
    RecordsAcceptedPager(codec, table, keep, limit);
    AcceptedPartitions(SearchRecords(codec, table, keep, limit), Where(table, keep), RecordOrder, limit,
                       RecordToken(codec), (row: RecordRow) => RecordAccepted(row));
  }

  lemma TypesAcceptedPager(codec: Codec, table: seq<TypeRow>, identity: Identity, limit: int)
    requires 1 <= limit <= MAX_LIMIT && ValidIdentity(identity) && KeepsUtf8(codec)
    requires forall row | row in Where(table, OfIdentity(identity)) :: StoredType(row)
    requires DistinctKeys(Where(table, OfIdentity(identity)), TypeOrder)
    ensures AcceptedPager(DeclaredTypes(codec, table, identity, limit),
                          OrderBy(Where(table, OfIdentity(identity)), TypeOrder), limit, TypeToken(codec),
                          (row: TypeRow) => TypeAccepted(row))
  {
    var keep := OfIdentity(identity);
    var all, reply := OrderBy(Where(table, keep), TypeOrder), DeclaredTypes(codec, table, identity, limit);
    hide DistinctKeys, OrderBy, Where, PageAt, Result, TypeOrder, Select, TypeToken, KeepsUtf8, Utf8, ParseTypeCursor,
      StoredType, Lossless, OfIdentity;
    OrderByStrict(Where(table, keep), TypeOrder);
    SelectedPage(table, keep, TypeOrder, 0, limit, TypeToken(codec));
    forall k | 0 < k < |all| && TypeAccepted(all[k - 1])
      ensures reply(Some(TypeToken(codec)(all[k - 1]))) == PageAt(all, limit, TypeToken(codec), k)
    {
      OrderByMember(Where(table, keep), TypeOrder, all[k - 1]);
      TypeIsLossless(codec, all[k - 1]);
      TypeAnswers(codec, table, identity, limit, k);
    }
  }

  /** Declared types: the same when each row that closes a page has a path and types of UTF-8. */
  lemma TypePagesUtf8(codec: Codec, table: seq<TypeRow>, stored: FileTable<SymbolTypeKey, ()>, identity: Identity,
                      limit: int)
    requires 1 <= limit <= MAX_LIMIT && ValidIdentity(identity) && KeepsUtf8(codec) && TypeScan(table, stored)
    requires forall row | row in Where(table, OfIdentity(identity)) :: StoredType(row)
    requires BoundariesAccepted(OrderBy(Where(table, OfIdentity(identity)), TypeOrder), limit,
                                (row: TypeRow) => TypeAccepted(row), 0)
    ensures var reply := DeclaredTypes(codec, table, identity, limit);
            && Partitions(reply, Where(table, OfIdentity(identity)), TypeOrder)
            && exists pages :: Walk(reply, pages) && Ends(pages)
  {
    hide *;
    TypesDistinct(table, stored, identity);
    TypesAcceptedPager(codec, table, identity, limit);
    AcceptedPartitions(DeclaredTypes(codec, table, identity, limit), Where(table, OfIdentity(identity)), TypeOrder,
                       limit, TypeToken(codec), (row: TypeRow) => TypeAccepted(row));
  }

  lemma FunctionsAcceptedPager(codec: Codec, table: seq<FunctionRow>, identity: Identity, limit: int)
    requires 1 <= limit <= MAX_LIMIT && ValidIdentity(identity) && KeepsUtf8(codec)
    requires forall row | row in Where(table, OfFunction(identity)) :: StoredFunction(row)
    requires DistinctKeys(Where(table, OfFunction(identity)), FunctionOrder)
    ensures AcceptedPager(FunctionSignature(codec, table, identity, limit),
                          OrderBy(Where(table, OfFunction(identity)), FunctionOrder), limit, FunctionToken(codec),
                          (row: FunctionRow) => FunctionAccepted(row))
  {
    var keep := OfFunction(identity);
    var all, reply := OrderBy(Where(table, keep), FunctionOrder), FunctionSignature(codec, table, identity, limit);
    hide DistinctKeys, OrderBy, Where, PageAt, Result, FunctionOrder, Select, FunctionToken, KeepsUtf8, Utf8,
      ParseFunctionCursor, StoredFunction, Lossless, OfFunction;
    OrderByStrict(Where(table, keep), FunctionOrder);
    SelectedPage(table, keep, FunctionOrder, 0, limit, FunctionToken(codec));
    forall k | 0 < k < |all| && FunctionAccepted(all[k - 1])
      ensures reply(Some(FunctionToken(codec)(all[k - 1]))) == PageAt(all, limit, FunctionToken(codec), k)
    {
      OrderByMember(Where(table, keep), FunctionOrder, all[k - 1]);
      FunctionIsLossless(codec, all[k - 1]);
      FunctionAnswers(codec, table, identity, limit, k);
    }
  }

  /** Signatures: the same when each row that closes a page has a path and types of UTF-8. */
  lemma FunctionPagesUtf8(codec: Codec, table: seq<FunctionRow>, stored: FileTable<FunctionTypeKey, FunctionTypeData>,
                          identity: Identity, limit: int)
    requires 1 <= limit <= MAX_LIMIT && ValidIdentity(identity) && KeepsUtf8(codec) && FunctionScan(table, stored)
    requires forall row | row in Where(table, OfFunction(identity)) :: StoredFunction(row)
    requires BoundariesAccepted(OrderBy(Where(table, OfFunction(identity)), FunctionOrder), limit,
                                (row: FunctionRow) => FunctionAccepted(row), 0)
    ensures var reply := FunctionSignature(codec, table, identity, limit);
            && Partitions(reply, Where(table, OfFunction(identity)), FunctionOrder)
            && exists pages :: Walk(reply, pages) && Ends(pages)
  {
    hide *;
    FunctionsDistinct(table, stored, identity);
    FunctionsAcceptedPager(codec, table, identity, limit);
    AcceptedPartitions(FunctionSignature(codec, table, identity, limit), Where(table, OfFunction(identity)),
                       FunctionOrder, limit, FunctionToken(codec), (row: FunctionRow) => FunctionAccepted(row));
  }
}
