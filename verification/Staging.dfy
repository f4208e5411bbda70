/** What one store puts into its private TEMP tables, and what the merge transaction then does with them
    (lib/semindex_index_db/index_db_writer.c), as functions of the request and of the shared tables read. */
module Staging {
  import opened Wrappers
  import opened Index
  import opened Tables

  datatype Stat = Stat(device: int, inode: int, mtime: int, size: int)

  /** One entry of the index's file table: its stored path, fingerprint and the stat() result at staging. */
  datatype FileEntry = FileEntry(path: Text, recordCount: nat, fingerprint: Fingerprint, stat: Option<Stat>)

  datatype MainFile = MainFile(path: Text, stat: Option<Stat>)

  datatype Request = Request(
    index: Index, files: seq<FileEntry>, mainFile: Option<MainFile>, variant: Text, includeLocal: bool)

  datatype StagedFile = StagedFile(
    meta: FileMeta, isMain: bool, ordinal: Option<nat>, fingerprint: Option<Fingerprint>, cached: bool)

  datatype Rows = Rows(
    records: PathTable<RecordKey, RecordData>,
    symbolTypes: PathTable<SymbolTypeKey, ()>,
    functionTypes: PathTable<FunctionTypeKey, FunctionTypeData>,
    properties: PathTable<PropertyKey, Bits>)

  const NO_ROWS := Rows(map[], map[], map[], map[])

  datatype Staging = Staging(files: map<Text, StagedFile>, rows: Rows)

  // ---- staging_files ----

  function Meta(stat: Option<Stat>): FileMeta {
    if stat.Some? then FileMeta(stat.value.mtime, stat.value.size) else FileMeta(0, 0)
  }

  /** The entry is the main file when both could be stat'ed and name the same inode. */
  predicate SameInode(entry: FileEntry, mainFile: Option<MainFile>) {
    && entry.stat.Some? && mainFile.Some? && mainFile.value.stat.Some?
    && entry.stat.value.device == mainFile.value.stat.value.device
    && entry.stat.value.inode == mainFile.value.stat.value.inode
  }

  function StageEntry(files: map<Text, StagedFile>, r: Request, i: nat): map<Text, StagedFile>
    requires i < |r.files|
  {
    var e := r.files[i];
    if e.recordCount == 0 then files
    else
      var isMain := SameInode(e, r.mainFile);
      files[e.path := StagedFile(Meta(e.stat), isMain, Some(i), if isMain then None else Some(e.fingerprint), false)]
  }

  function StageEntries(r: Request, n: nat): map<Text, StagedFile>
    requires n <= |r.files|
  {
    if n == 0 then map[] else StageEntry(StageEntries(r, n - 1), r, n - 1)
  }

  function StageMain(files: map<Text, StagedFile>, mainFile: Option<MainFile>): map<Text, StagedFile> {
    match mainFile
    case None => files
    case Some(m) =>
      if m.path in files
      then files[m.path := files[m.path].(meta := Meta(m.stat), isMain := true, fingerprint := None)]
      else files[m.path := StagedFile(Meta(m.stat), true, None, None, false)]
  }

  /** staging_files before any cache lookup. */
  function FreshFiles(r: Request): map<Text, StagedFile> {
    StageMain(StageEntries(r, |r.files|), r.mainFile)
  }

  /** The EXISTS subquery shared by the cache lookup and the re-check under the writer lock. */
  predicate Hit(db: Database, variant: Text, path: Text, s: StagedFile) {
    var f := FileId(variant, path);
    f in db.files && db.files[f] == s.meta && s.fingerprint.Some? && (f, s.fingerprint.value) in db.fingerprints
  }

  predicate MayCache(db: Database, variant: Text, path: Text, s: StagedFile) {
    !s.isMain && s.meta.mtime != 0 && Hit(db, variant, path, s)
  }

  function MarkCached(files: map<Text, StagedFile>, db: Database, variant: Text): map<Text, StagedFile> {
    map p | p in files :: if MayCache(db, variant, p, files[p]) then files[p].(cached := true) else files[p]
  }

  function ClearCached(files: map<Text, StagedFile>): map<Text, StagedFile> {
    map p | p in files :: files[p].(cached := false)
  }

  /** The file indexes whose records stage_records skips. */
  function CachedOrdinals(files: map<Text, StagedFile>): set<nat> {
    set p | p in files && files[p].cached && files[p].ordinal.Some? :: files[p].ordinal.value
  }

  /** The re-check of every cache hit while the writer lock is held. */
  predicate CachedFilesValid(db: Database, variant: Text, files: map<Text, StagedFile>) {
    forall p | p in files && files[p].cached :: Hit(db, variant, p, files[p])
  }

  // ---- staged rows ----

  predicate ContainsScope(s: Text) {
    exists i | 0 <= i < |s| - 1 :: s[i] == COLON && s[i + 1] == COLON
  }

  function QualifiedName(owner: Text, name: Text): Text {
    if owner == [] then name
    else if ContainsScope(owner) then owner + [COLON, COLON] + name
    else owner + [DOT] + name
  }

  function RecordPath(files: seq<FileEntry>, fileIndex: nat, fallback: Text): Text {
    if fileIndex < |files| then files[fileIndex].path else fallback
  }

  function OptionalId(usr: Text, id: uint64): Option<uint64> {
    if usr == [] then None else Some(id)
  }

  function TypeKind(kind: int32, usrId: uint64): int {
    if usrId != 0 then kind else -1
  }

  function RecordRows(item: Item): seq<(RecordKey, RecordData)> {
    match item
    case SymbolItem(s) =>
      [(RecordKey(QualifiedName(s.owner, s.name), 0, if s.definition then 1 else 0, s.kind, 0, s.line, s.column),
        RecordData(s.context, OptionalId(s.usr, s.usrId), None, s.local))]
    case UseItem(u) =>
      [(RecordKey(QualifiedName(u.owner, u.name), 1, u.kind, u.symbolKind, u.mode, u.line, u.column),
        RecordData(u.context, OptionalId(u.usr, u.usrId), OptionalId(u.contextUsr, u.contextUsrId), u.local))]
    case SignatureItem(_) => []
  }

  function SymbolTypeRows(item: Item): seq<(SymbolTypeKey, ())> {
    if item.SymbolItem? && item.symbol.declaredType != [] && item.symbol.usr != [] then
      var s := item.symbol;
      [(SymbolTypeKey(QualifiedName(s.owner, s.name), s.kind, s.usrId, s.declaredType, s.canonicalType,
                      s.typeSymbol, TypeKind(s.typeKind, s.typeUsrId), s.typeUsrId), ())]
    else []
  }

  function Pow2(n: nat): (p: nat)
    ensures p > 0
  {
    if n == 0 then 1 else 2 * Pow2(n - 1)
  }

  function OneBits(mask: uint64): Bits {
    set b: nat | b < 64 && (mask / Pow2(b)) % 2 == 1
  }

  function PropertyRows(item: Item): seq<(PropertyKey, Bits)> {
    if item.SymbolItem? && item.symbol.properties != 0 && item.symbol.usr != [] then
      [(PropertyKey(QualifiedName(item.symbol.owner, item.symbol.name), item.symbol.kind, item.symbol.usrId),
        OneBits(item.symbol.properties))]
    else []
  }

  function ReturnRow(g: Signature): (FunctionTypeKey, FunctionTypeData) {
    (FunctionTypeKey(QualifiedName(g.owner, g.name), g.usrId, -1, g.returnType, g.canonicalReturnType, [], -1, 0),
     FunctionTypeData([], g.variadic))
  }

  function ParameterRow(g: Signature, k: nat): (FunctionTypeKey, FunctionTypeData)
    requires k < |g.parameters|
  {
    var p := g.parameters[k];
    (FunctionTypeKey(QualifiedName(g.owner, g.name), g.usrId, k, p.declaredType, p.canonicalType, p.typeSymbol,
                     TypeKind(p.typeKind, p.typeUsrId), p.typeUsrId),
     FunctionTypeData(p.name, false))
  }

  function FunctionTypeRows(item: Item): seq<(FunctionTypeKey, FunctionTypeData)> {
    if item.SignatureItem? && item.signature.usr != [] then
      var g := item.signature;
      [ReturnRow(g)] + seq(|g.parameters|, k requires 0 <= k < |g.parameters| => ParameterRow(g, k))
    else []
  }

  function AtPath<K, V>(path: Text, rows: seq<(K, V)>): seq<((Text, K), V)> {
    seq(|rows|, i requires 0 <= i < |rows| => ((path, rows[i].0), rows[i].1))
  }

  predicate Skips(r: Request, cached: set<nat>, item: Item) {
    (item.Local() && !r.includeLocal) || item.FileIndex() in cached
  }

  function ItemPath(r: Request, item: Item): Text {
    RecordPath(r.files, item.FileIndex(), item.File())
  }

  function StageItem(rows: Rows, r: Request, cached: set<nat>, item: Item): Rows {
    if Skips(r, cached, item) then rows
    else
      var p := ItemPath(r, item);
      Rows(
        InsertRows(rows.records, AtPath(p, RecordRows(item))),
        InsertRows(rows.symbolTypes, AtPath(p, SymbolTypeRows(item))),
        InsertRows(rows.functionTypes, AtPath(p, FunctionTypeRows(item))),
        OrRows(rows.properties, AtPath(p, PropertyRows(item))))
  }

  function StageItems(rows: Rows, r: Request, cached: set<nat>, items: seq<Item>): Rows {
    if items == [] then rows
    else StageItem(StageItems(rows, r, cached, items[..|items| - 1]), r, cached, items[|items| - 1])
  }

  // ---- the three transactions of index_db_store ----

  function Stage(r: Request, db: Database): Staging {
    var files := MarkCached(FreshFiles(r), db, r.variant);
    Staging(files, StageItems(NO_ROWS, r, CachedOrdinals(files), r.index.Items()))
  }

  /** After a stale hit: the cached marks are cleared and everything is staged on top of what is there. */
  function Restage(r: Request, st: Staging): Staging {
    Staging(ClearCached(st.files), StageItems(st.rows, r, {}, r.index.Items()))
  }

  function InsertFiles(files: map<FileId, FileMeta>, variant: Text, staged: map<Text, StagedFile>)
    : map<FileId, FileMeta>
  {
    (map f | f in (set p | p in staged :: FileId(variant, p)) :: staged[f.path].meta) + files
  }

  function UpdateFiles(files: map<FileId, FileMeta>, variant: Text, staged: map<Text, StagedFile>)
    : map<FileId, FileMeta>
  {
    map f | f in files :: if f.variant == variant && f.path in staged then staged[f.path].meta else files[f]
  }

  /** The files whose rows the five DELETE statements remove. */
  function Doomed(files: map<FileId, FileMeta>, variant: Text, staged: map<Text, StagedFile>): set<FileId> {
    set f | f in files && f.variant == variant && f.path in staged
            && (staged[f.path].isMain || files[f] != staged[f.path].meta)
  }

  function FingerprintKeys(files: map<Text, StagedFile>): set<(Text, Fingerprint)> {
    set p | p in files && files[p].fingerprint.Some? :: (p, files[p].fingerprint.value)
  }

  function StagedFingerprints(files: map<Text, StagedFile>): PathTable<Fingerprint, ()> {
    map k | k in FingerprintKeys(files) :: ()
  }

  /** files after the INSERT OR IGNORE and the UPDATE. */
  function MergedFiles(files: map<FileId, FileMeta>, variant: Text, staged: map<Text, StagedFile>)
    : map<FileId, FileMeta>
  {
    UpdateFiles(InsertFiles(files, variant, staged), variant, staged)
  }

  /** The deletions look at the files between those two statements. */
  function DoomedFiles(files: map<FileId, FileMeta>, variant: Text, staged: map<Text, StagedFile>): set<FileId> {
    Doomed(InsertFiles(files, variant, staged), variant, staged)
  }

  function MergeTable<K, V>(t: FileTable<K, V>, doomed: set<FileId>, staged: PathTable<K, V>, variant: Text,
                            files: map<FileId, FileMeta>): FileTable<K, V>
  {
    InsertOrIgnore(DeleteFiles(t, doomed), Join(staged, variant, files))
  }

  function MergeProperties(t: FileTable<PropertyKey, Bits>, doomed: set<FileId>, staged: PathTable<PropertyKey, Bits>,
                           variant: Text, files: map<FileId, FileMeta>): FileTable<PropertyKey, Bits>
  {
    UpsertOr(DeleteFiles(t, doomed), Join(staged, variant, files))
  }

  /** The twelve statements of merge_staging. */
  function Merge(db: Database, variant: Text, st: Staging): Database {
    var doomed := DoomedFiles(db.files, variant, st.files);
    var files := MergedFiles(db.files, variant, st.files);
    Database(
      files,
      MergeTable(db.records, doomed, st.rows.records, variant, files),
      MergeTable(db.symbolTypes, doomed, st.rows.symbolTypes, variant, files),
      MergeTable(db.functionTypes, doomed, st.rows.functionTypes, variant, files),
      MergeProperties(db.properties, doomed, st.rows.properties, variant, files),
      MergeTable(db.fingerprints, doomed, StagedFingerprints(st.files), variant, files))
  }

  /** The store that knows no cache: everything is staged, then merged. */
  function FullStaging(r: Request): Staging {
    Staging(FreshFiles(r), StageItems(NO_ROWS, r, {}, r.index.Items()))
  }

  function FullStore(db: Database, r: Request): Database {
    Merge(db, r.variant, FullStaging(r))
  }
}
