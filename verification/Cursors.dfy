/** The cursors of the three paged tools (tools/mcp/mcp_tools.cpp, tools/mcp/mcp_symbol_tools.cpp,
    lib/semindex_database/index_db_reader.c). */
module Cursors {
  import opened Wrappers
  import opened Index
  import opened Tables
  import opened Ordering
  import opened Hex

  const KIND_LAST := 12
  const UINT_MAX := 0xffff_ffff
  const INT_MAX := 0x7fff_ffff

  // ---- JSON objects ----

  datatype Name =
    | Variant | Path | Line | Column | SymbolName | Record | Action | Kind | Mode
    | DeclaredType | CanonicalType | TypeSymbol | TypeKind | TypeUsrId | Position | Another(name: Text)

  datatype Value = Str(text: Text) | Integer(n: int) | Composite

  type Object = map<Name, Value>

  /** LLVM's JSON serialiser, and its parser restricted to objects. */
  datatype Codec = Codec(write: Object -> Text, read: Text -> Option<Object>)

  ghost predicate Lossless(codec: Codec, o: Object) {
    codec.read(codec.write(o)) == Some(o)
  }

  function GetString(o: Object, name: Name): Option<Text> {
    if name in o && o[name].Str? then Some(o[name].text) else None
  }

  function GetInteger(o: Object, name: Name): Option<int> {
    if name in o && o[name].Integer? then Some(o[name].n) else None
  }

  function EncodeCursor(codec: Codec, o: Object): Text {
    Encoded(codec.write(o))
  }

  function DecodeCursor(codec: Codec, token: Text): Option<Object> {
    match Decoded(token)
    case None => None
    case Some(json) => codec.read(json)
  }

  lemma TokenRoundTrip(codec: Codec, o: Object)
    requires Lossless(codec, o)
    ensures DecodeCursor(codec, EncodeCursor(codec, o)) == Some(o)
  {
    HexRoundTrip(codec.write(o));
  }

  // ---- records ----

  datatype RecordRow = RecordRow(file: FileId, key: RecordKey, data: RecordData)

  /** semindex_db_record_type_t: declaration 0, definition 1, reference 2. */
  function RecordType(record: int, action: int): int {
    if record == 1 then 2 else if action != 0 then 1 else 0
  }

  function StoredRecordType(record: int): Option<int> {
    if record == 0 || record == 1 then Some(0) else if record == 2 then Some(1) else None
  }

  datatype RecordCursor = RecordCursor(
    variant: Text, path: Text, line: int, column: int, symbol: Text, record: int, action: int, kind: int, mode: int)

  function CursorOf(row: RecordRow): RecordCursor {
    RecordCursor(row.file.variant, row.file.path, row.key.line, row.key.column, row.key.symbol,
                 RecordType(row.key.record, row.key.action), row.key.action, row.key.kind, row.key.mode)
  }

  function RecordObject(c: RecordCursor): Object {
    map[Variant := Str(c.variant), Path := Str(c.path), Line := Integer(c.line), Column := Integer(c.column),
        SymbolName := Str(c.symbol), Record := Integer(c.record), Action := Integer(c.action),
        Kind := Integer(c.kind), Mode := Integer(c.mode)]
  }

  function RecordToken(codec: Codec): RecordRow -> Text {
    (row: RecordRow) => EncodeCursor(codec, RecordObject(CursorOf(row)))
  }

  function ReadRecordCursor(o: Object): Option<RecordCursor> {
    match (GetString(o, Variant), GetString(o, Path), GetString(o, SymbolName), GetInteger(o, Line),
           GetInteger(o, Column), GetInteger(o, Record), GetInteger(o, Action), GetInteger(o, Kind),
           GetInteger(o, Mode))
    case (Some(variant), Some(path), Some(symbol), Some(line), Some(column), Some(record), Some(action), Some(kind),
      Some(mode)) =>
      if line < 1 || line > UINT_MAX || column < 1 || column > UINT_MAX || record < 0 || record > 2
         || action < 0 || action > UINT_MAX || kind < 0 || kind > KIND_LAST || mode < 0 || mode > UINT_MAX then None
      else Some(RecordCursor(variant, path, line, column, symbol, record, action, kind, mode))
    case _ => None
  }

  function ParseCursor(codec: Codec, token: Text): Option<RecordCursor> {
    match DecodeCursor(codec, token)
    case None => None
    case Some(o) => ReadRecordCursor(o)
  }

  predicate ValidCursor(c: RecordCursor) {
    && c.variant != [] && c.path != [] && c.symbol != [] && c.line != 0 && c.column != 0
    && StoredRecordType(c.record).Some?
    && !(c.record == 0 && c.action != 0)
    && !(c.record == 1 && c.action == 0)
  }

  /** The row value that the cursor's statement compares with. */
  function CursorKey(c: RecordCursor): Key
    requires StoredRecordType(c.record).Some?
  {
    [Chars(c.variant), Chars(c.path), Number(c.line), Number(c.column), Chars(c.symbol),
     Number(StoredRecordType(c.record).value), Number(c.action), Number(c.kind), Number(c.mode)]
  }

  /** ORDER BY of the record queries. */
  function RecordOrder(row: RecordRow): Key {
    [Chars(row.file.variant), Chars(row.file.path), Number(row.key.line), Number(row.key.column),
     Chars(row.key.symbol), Number(row.key.record), Number(row.key.action), Number(row.key.kind),
     Number(row.key.mode)]
  }

  /** What the indexer stores: enumerators and unsigned positions. */
  predicate StoredRecord(row: RecordRow) {
    && 0 <= row.key.record <= 1 && 0 <= row.key.action <= INT_MAX && 0 <= row.key.kind <= KIND_LAST
    && 0 <= row.key.mode <= UINT_MAX && 0 <= row.key.line <= UINT_MAX && 0 <= row.key.column <= UINT_MAX
  }

  /** The rows that a cursor can name. */
  predicate Nameable(row: RecordRow) {
    row.file.variant != [] && row.file.path != [] && row.key.symbol != [] && row.key.line >= 1 && row.key.column >= 1
  }

  /** A row's own cursor is taken back, as the row's place in the order, exactly when it names a position and has no
      empty name. */
  lemma RecordCursorRoundTrip(codec: Codec, row: RecordRow)
    requires StoredRecord(row) && Lossless(codec, RecordObject(CursorOf(row)))
    ensures var parsed := ParseCursor(codec, RecordToken(codec)(row));
            && (parsed.Some? && ValidCursor(parsed.value) <==> Nameable(row))
            && (Nameable(row) ==> CursorKey(parsed.value) == RecordOrder(row))
  {
    TokenRoundTrip(codec, RecordObject(CursorOf(row)));
  }

  /** The order is total on stored rows: the primary key fixes it, and it fixes the primary key. */
  lemma RecordOrderIsPrimary(a: RecordRow, b: RecordRow)
    ensures RecordOrder(a) == RecordOrder(b) <==> a.file == b.file && a.key == b.key
  {
    if RecordOrder(a) == RecordOrder(b) {
      assert forall i | 0 <= i < 9 :: RecordOrder(a)[i] == RecordOrder(b)[i];
      var x, y := RecordOrder(a), RecordOrder(b);
      assert x[0] == y[0] && x[1] == y[1] && x[2] == y[2] && x[3] == y[3] && x[4] == y[4];
      assert x[5] == y[5] && x[6] == y[6] && x[7] == y[7] && x[8] == y[8];
    }
  }

  // ---- types of one symbol ----

  datatype Identity = Identity(variant: Text, symbol: Text, kind: int, usrId: uint64)

  predicate ValidIdentity(identity: Identity) {
    identity.variant != [] && identity.symbol != [] && identity.usrId != 0 && 0 <= identity.kind <= KIND_LAST
  }

  /** SQLite stores the 64 bits as a signed integer. */
  function Signed(id: uint64): int {
    if id < 0x8000_0000_0000_0000 then id else id - 0x1_0000_0000_0000_0000
  }

  datatype TypeRow = TypeRow(file: FileId, key: SymbolTypeKey)

  datatype TypeCursor = TypeCursor(
    declaredType: Text, canonicalType: Text, typeSymbol: Text, typeKind: int, typeUsrId: uint64, path: Text)

  function TypeCursorOf(row: TypeRow): TypeCursor {
    TypeCursor(row.key.declaredType, row.key.canonicalType, row.key.typeSymbol, row.key.typeKind, row.key.typeUsrId,
               row.file.path)
  }

  function TypeObject(c: TypeCursor): Object {
    map[DeclaredType := Str(c.declaredType), CanonicalType := Str(c.canonicalType), TypeSymbol := Str(c.typeSymbol),
        TypeKind := Integer(c.typeKind), TypeUsrId := Str(IdString(c.typeUsrId)), Path := Str(c.path)]
  }

  function TypeToken(codec: Codec): TypeRow -> Text {
    (row: TypeRow) => EncodeCursor(codec, TypeObject(TypeCursorOf(row)))
  }

  function ReadTypeCursor(o: Object): Option<TypeCursor> {
    match (GetString(o, DeclaredType), GetString(o, CanonicalType), GetString(o, TypeSymbol), GetInteger(o, TypeKind),
           GetString(o, TypeUsrId), GetString(o, Path))
    case (Some(declaredType), Some(canonicalType), Some(typeSymbol), Some(typeKind), Some(id), Some(path)) =>
      var typeUsrId := ParseId(id);
      if typeUsrId.None? || typeKind < -1 || typeKind > KIND_LAST then None
      else Some(TypeCursor(declaredType, canonicalType, typeSymbol, typeKind, typeUsrId.value, path))
    case _ => None
  }

  function ParseTypeCursor(codec: Codec, token: Text): Option<TypeCursor> {
    match DecodeCursor(codec, token)
    case None => None
    case Some(o) => ReadTypeCursor(o)
  }

  function TypeKey(c: TypeCursor): Key {
    [Chars(c.declaredType), Chars(c.canonicalType), Chars(c.typeSymbol), Number(c.typeKind),
     Number(Signed(c.typeUsrId)), Chars(c.path)]
  }

  function TypeOrder(row: TypeRow): Key {
    [Chars(row.key.declaredType), Chars(row.key.canonicalType), Chars(row.key.typeSymbol), Number(row.key.typeKind),
     Number(Signed(row.key.typeUsrId)), Chars(row.file.path)]
  }

  predicate TypesOf(identity: Identity, row: TypeRow) {
    && row.key.symbol == identity.symbol && row.key.kind == identity.kind && row.key.usrId == identity.usrId
    && row.file.variant == identity.variant
  }

  predicate StoredType(row: TypeRow) {
    -1 <= row.key.typeKind <= KIND_LAST
  }

  lemma TypeCursorRoundTrip(codec: Codec, row: TypeRow)
    requires StoredType(row) && Lossless(codec, TypeObject(TypeCursorOf(row)))
    ensures var parsed := ParseTypeCursor(codec, TypeToken(codec)(row));
            parsed.Some? && TypeKey(parsed.value) == TypeOrder(row)
  {
    TokenRoundTrip(codec, TypeObject(TypeCursorOf(row)));
    IdRoundTrip(row.key.typeUsrId);
    hide IdString, ParseId;
  }

  /** Among the types of one symbol the order is the primary key. */
  lemma TypeOrderIsPrimary(identity: Identity, a: TypeRow, b: TypeRow)
    requires TypesOf(identity, a) && TypesOf(identity, b)
    ensures TypeOrder(a) == TypeOrder(b) <==> a == b
  {
    if TypeOrder(a) == TypeOrder(b) {
      var x, y := TypeOrder(a), TypeOrder(b);
      assert x[0] == y[0] && x[1] == y[1] && x[2] == y[2] && x[3] == y[3] && x[4] == y[4] && x[5] == y[5];
    }
  }

  // ---- the signature of one function ----

  datatype FunctionRow = FunctionRow(file: FileId, key: FunctionTypeKey, data: FunctionTypeData)

  datatype FunctionCursor = FunctionCursor(position: int, types: TypeCursor)

  function FunctionCursorOf(row: FunctionRow): FunctionCursor {
    FunctionCursor(row.key.position,
                   TypeCursor(row.key.declaredType, row.key.canonicalType, row.key.typeSymbol, row.key.typeKind,
                              row.key.typeUsrId, row.file.path))
  }

  function FunctionObject(c: FunctionCursor): Object {
    TypeObject(c.types)[Position := Integer(c.position)]
  }

  function FunctionToken(codec: Codec): FunctionRow -> Text {
    (row: FunctionRow) => EncodeCursor(codec, FunctionObject(FunctionCursorOf(row)))
  }

  function ReadFunctionCursor(o: Object): Option<FunctionCursor> {
    match (GetInteger(o, Position), ReadTypeCursor(o))
    case (Some(position), Some(types)) =>
      if position < -1 || position > INT_MAX then None else Some(FunctionCursor(position, types))
    case _ => None
  }

  function ParseFunctionCursor(codec: Codec, token: Text): Option<FunctionCursor> {
    match DecodeCursor(codec, token)
    case None => None
    case Some(o) => ReadFunctionCursor(o)
  }

  function FunctionKey(c: FunctionCursor): Key {
    [Number(c.position)] + TypeKey(c.types)
  }

  function FunctionOrder(row: FunctionRow): Key {
    [Number(row.key.position), Chars(row.key.declaredType), Chars(row.key.canonicalType), Chars(row.key.typeSymbol),
     Number(row.key.typeKind), Number(Signed(row.key.typeUsrId)), Chars(row.file.path)]
  }

  predicate SignatureOf(identity: Identity, row: FunctionRow) {
    && row.key.symbol == identity.symbol && row.key.usrId == identity.usrId && row.file.variant == identity.variant
  }

  predicate StoredFunction(row: FunctionRow) {
    -1 <= row.key.typeKind <= KIND_LAST && -1 <= row.key.position <= INT_MAX
  }

  lemma FunctionCursorRoundTrip(codec: Codec, row: FunctionRow)
    requires StoredFunction(row) && Lossless(codec, FunctionObject(FunctionCursorOf(row)))
    ensures var parsed := ParseFunctionCursor(codec, FunctionToken(codec)(row));
            parsed.Some? && FunctionKey(parsed.value) == FunctionOrder(row)
  {
    TokenRoundTrip(codec, FunctionObject(FunctionCursorOf(row)));
    IdRoundTrip(row.key.typeUsrId);
    hide IdString, ParseId;
  }

  lemma FunctionOrderIsPrimary(identity: Identity, a: FunctionRow, b: FunctionRow)
    requires SignatureOf(identity, a) && SignatureOf(identity, b)
    ensures FunctionOrder(a) == FunctionOrder(b) <==> a.file == b.file && a.key == b.key
  {
    if FunctionOrder(a) == FunctionOrder(b) {
      var x, y := FunctionOrder(a), FunctionOrder(b);
      assert x[0] == y[0] && x[1] == y[1] && x[2] == y[2] && x[3] == y[3] && x[4] == y[4] && x[5] == y[5];
      assert x[6] == y[6];
    }
  }
}
