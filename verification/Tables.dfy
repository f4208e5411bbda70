/** The shared SQLite tables as maps from their primary keys, and SQL's statements as operations on maps.
    A file_id names one row of `files`, which is UNIQUE(variant, path), so the pair itself is the identifier. */
module Tables {
  import opened Wrappers
  import opened Index

  type Fingerprint = seq<byte>

  /** A property mask as the set of its one bits, so that SQL's | is union. */
  type Bits = set<nat>

  datatype FileId = FileId(variant: Text, path: Text)
  datatype FileMeta = FileMeta(mtime: int, size: int)

  datatype RecordKey = RecordKey(
    symbol: Text, record: int, action: int, kind: int, mode: int, line: int, column: int)
  datatype RecordData = RecordData(
    context: Text, usrId: Option<uint64>, contextUsrId: Option<uint64>, local: bool)

  datatype SymbolTypeKey = SymbolTypeKey(
    symbol: Text, kind: int, usrId: uint64, declaredType: Text, canonicalType: Text,
    typeSymbol: Text, typeKind: int, typeUsrId: uint64)

  datatype FunctionTypeKey = FunctionTypeKey(
    symbol: Text, usrId: uint64, position: int, declaredType: Text, canonicalType: Text,
    typeSymbol: Text, typeKind: int, typeUsrId: uint64)
  datatype FunctionTypeData = FunctionTypeData(name: Text, variadic: bool)

  datatype PropertyKey = PropertyKey(symbol: Text, kind: int, usrId: uint64)

  /** A shared table is keyed by file and by the rest of its primary key; a staging table by path. */
  type FileTable<K(==), V> = map<(FileId, K), V>
  type PathTable<K(==), V> = map<(Text, K), V>

  datatype Database = Database(
    files: map<FileId, FileMeta>,
    records: FileTable<RecordKey, RecordData>,
    symbolTypes: FileTable<SymbolTypeKey, ()>,
    functionTypes: FileTable<FunctionTypeKey, FunctionTypeData>,
    properties: FileTable<PropertyKey, Bits>,
    fingerprints: FileTable<Fingerprint, ()>)

  /** INSERT OR IGNORE of one row. */
  function InsertRow<K, V>(t: map<K, V>, row: (K, V)): map<K, V> {
    if row.0 in t then t else t[row.0 := row.1]
  }

  /** INSERT OR IGNORE of rows in order. */
  function InsertRows<K, V>(t: map<K, V>, rows: seq<(K, V)>): map<K, V> {
    if rows == [] then t
    else InsertRow(InsertRows(t, rows[..|rows| - 1]), rows[|rows| - 1])
  }

  /** INSERT ... ON CONFLICT DO UPDATE SET properties = properties | excluded.properties. */
  function OrRow<K>(t: map<K, Bits>, row: (K, Bits)): map<K, Bits> {
    t[row.0 := if row.0 in t then t[row.0] + row.1 else row.1]
  }

  function OrRows<K>(t: map<K, Bits>, rows: seq<(K, Bits)>): map<K, Bits> {
    if rows == [] then t
    else OrRow(OrRows(t, rows[..|rows| - 1]), rows[|rows| - 1])
  }

  /** DELETE FROM t WHERE file_id IN (doomed). */
  function DeleteFiles<K, V>(t: FileTable<K, V>, doomed: set<FileId>): FileTable<K, V> {
    map key: (FileId, K) | key in t && key.0 !in doomed :: t[key]
  }

  /** The join of a staging table with the `files` rows of one variant. */
  function Join<K, V>(staged: PathTable<K, V>, variant: Text, files: map<FileId, FileMeta>): FileTable<K, V> {
    map key: (FileId, K)
      | key in (set k: (Text, K) | k in staged :: (FileId(variant, k.0), k.1)) && key.0 in files
      :: staged[(key.0.path, key.1)]
  }

  /** INSERT OR IGNORE INTO t SELECT ...: the row already stored wins. */
  function InsertOrIgnore<K, V>(t: map<K, V>, rows: map<K, V>): map<K, V> {
    rows + t
  }

  /** INSERT INTO t SELECT ... ON CONFLICT DO UPDATE SET properties = properties | excluded.properties. */
  function UpsertOr<K>(t: map<K, Bits>, rows: map<K, Bits>): map<K, Bits> {
    map key: K | key in t.Keys + rows.Keys ::
      if key in t && key in rows then t[key] + rows[key] else if key in t then t[key] else rows[key]
  }
}
