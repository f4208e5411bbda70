/** What the committed stores mean for the tables: replacement of the main file, the frame, freshness over whole
    runs, and independence of the commit order. */
module StoreResults {
  import opened Wrappers
  import opened Index
  import opened Tables
  import opened Staging
  import opened RowLemmas
  import opened CacheSoundness
  import opened WriterProtocol
  import opened StagedFiles

  /** Every record that is staged is counted in its file's fingerprint, which is what puts the file in
      staging_files; the fingerprint builder establishes this (module Fingerprints). */
  ghost predicate Counted(r: Request) {
    forall x | x in r.index.Items() && !Skips(r, {}, x) && x.FileIndex() < |r.files| ::
      r.files[x.FileIndex()].recordCount > 0
  }

  /** Stored paths are not empty, and a record without a file has the empty path. */
  ghost predicate NamedPaths(r: Request) {
    && (forall i | 0 <= i < |r.files| :: r.files[i].path != [])
    && (r.mainFile.Some? ==> r.mainFile.value.path != [])
    && (forall x | x in r.index.Items() && x.FileIndex() >= |r.files| :: x.File() == [])
  }

  ghost predicate WellFormed(r: Request) {
    Counted(r) && NamedPaths(r)
  }

  lemma {:induction false} EntriesAreStaged(r: Request, n: nat, i: nat)
    requires i < n <= |r.files| && r.files[i].recordCount > 0
    ensures r.files[i].path in StageEntries(r, n)
  {
    if i < n - 1 {
      EntriesAreStaged(r, n - 1, i);
    }
  }

  /** Every staged row's path is also a staged file, or the empty path that no file has. */
  lemma {:induction false} StagedRowsHaveFiles<K, V>(r: Request, items: seq<Item>, rowsOf: Item -> seq<(K, V)>,
                                                     key: (Text, K))
    requires WellFormed(r) && forall x | x in items :: x in r.index.Items()
    requires First(AllRows(r, {}, items, rowsOf), key).Some?
    ensures key.0 in FreshFiles(r) || key.0 == []
  {
    var front, last := items[..|items| - 1], items[|items| - 1];
    FirstConcat(AllRows(r, {}, front, rowsOf), ItemRows(r, {}, last, rowsOf), key);
    if First(AllRows(r, {}, front, rowsOf), key).Some? {
      StagedRowsHaveFiles(r, front, rowsOf, key);
    } else {
      FirstHasRow(ItemRows(r, {}, last, rowsOf), key);
      if last.FileIndex() < |r.files| {
        EntriesAreStaged(r, |r.files|, last.FileIndex());
      }
    }
  }

  lemma {:induction false} StagedPathsAreNamed(r: Request, n: nat)
    requires NamedPaths(r) && n <= |r.files|
    ensures [] !in StageEntries(r, n)
  {
    if n != 0 {
      StagedPathsAreNamed(r, n - 1);
    }
  }

  ghost predicate NamedFiles(db: Database) {
    forall f | f in db.files :: f.path != []
  }

  lemma FullStoreKeepsNamed(db: Database, r: Request)
    requires WellFormed(r) && NamedFiles(db)
    ensures NamedFiles(FullStore(db, r))
  {
    StagedPathsAreNamed(r, |r.files|);
  }

  // ---- one table of one store, by key ----

  ghost predicate Touched(r: Request, f: FileId) {
    f.variant == r.variant && f.path in FreshFiles(r)
  }

  /** The store keeps the rows that f has. */
  ghost predicate Keeps(db: Database, r: Request, f: FileId) {
    Touched(r, f) ==> f !in db.files || (!FreshFiles(r)[f.path].isMain && db.files[f] == FreshFiles(r)[f.path].meta)
  }

  /** No row without a files row: the foreign key. */
  ghost predicate HasFiles(db: Database) {
    && (forall key | key in db.records :: key.0 in db.files)
    && (forall key | key in db.symbolTypes :: key.0 in db.files)
    && (forall key | key in db.functionTypes :: key.0 in db.files)
    && (forall key | key in db.properties :: key.0 in db.files)
    && (forall key | key in db.fingerprints :: key.0 in db.files)
  }

  lemma FullStoreKeepsHasFiles(db: Database, r: Request)
    requires HasFiles(db)
    ensures HasFiles(FullStore(db, r))
  {
    var after, rows := FullStore(db, r), FullStaging(r).rows;
    forall key | key in after.records ensures key.0 in after.files {
      JoinLookup(rows.records, r.variant, after.files, key);
    }
    forall key | key in after.symbolTypes ensures key.0 in after.files {
      JoinLookup(rows.symbolTypes, r.variant, after.files, key);
    }
    forall key | key in after.functionTypes ensures key.0 in after.files {
      JoinLookup(rows.functionTypes, r.variant, after.files, key);
    }
    forall key | key in after.properties ensures key.0 in after.files {
      JoinLookup(rows.properties, r.variant, after.files, key);
    }
    forall key | key in after.fingerprints ensures key.0 in after.files {
      JoinLookup(StagedFingerprints(FreshFiles(r)), r.variant, after.files, key);
    }
  }

  function DoomedBy(db: Database, r: Request): set<FileId> {
    DoomedFiles(db.files, r.variant, FreshFiles(r))
  }

  function FilesOf(db: Database, r: Request): map<FileId, FileMeta> {
    MergedFiles(db.files, r.variant, FreshFiles(r))
  }

  /** One existing-wins table after a store. */
  function TableAfter<K, V>(db: Database, r: Request, t: FileTable<K, V>, rowsOf: Item -> seq<(K, V)>)
    : FileTable<K, V>
  {
    MergeTable(t, DoomedBy(db, r), InsertRows(map[], AllRows(r, {}, r.index.Items(), rowsOf)), r.variant,
               FilesOf(db, r))
  }

  /** after is what the cache-free store of r makes of db, table by table. */
  ghost predicate StoreOf(db: Database, r: Request, after: Database) {
    && after.files == FilesOf(db, r)
    && after.records == TableAfter(db, r, db.records, RecordRows)
    && after.symbolTypes == TableAfter(db, r, db.symbolTypes, SymbolTypeRows)
    && after.functionTypes == TableAfter(db, r, db.functionTypes, FunctionTypeRows)
    && after.properties == PropertiesOf(db, r)
    && after.fingerprints == MergeTable(db.fingerprints, DoomedBy(db, r), StagedFingerprints(FreshFiles(r)),
                                        r.variant, FilesOf(db, r))
  }

  function PropertiesOf(db: Database, r: Request): FileTable<PropertyKey, Bits> {
    MergeProperties(db.properties, DoomedBy(db, r), OrRows(map[], AllRows(r, {}, r.index.Items(), PropertyRows)),
                    r.variant, FilesOf(db, r))
  }

  lemma MergedTable<K, V>(db: Database, r: Request, t: FileTable<K, V>, staged: PathTable<K, V>,
                          rowsOf: Item -> seq<(K, V)>)
    requires staged == InsertRows(map[], AllRows(r, {}, r.index.Items(), rowsOf))
    ensures MergeTable(t, DoomedBy(db, r), staged, r.variant, FilesOf(db, r)) == TableAfter(db, r, t, rowsOf)
  {
  }

  lemma MergeFields(db: Database, r: Request, rows: Rows)
    ensures var after := Merge(db, r.variant, Staging(FreshFiles(r), rows));
            && after.files == FilesOf(db, r)
            && after.records == MergeTable(db.records, DoomedBy(db, r), rows.records, r.variant, FilesOf(db, r))
            && after.symbolTypes
               == MergeTable(db.symbolTypes, DoomedBy(db, r), rows.symbolTypes, r.variant, FilesOf(db, r))
            && after.functionTypes
               == MergeTable(db.functionTypes, DoomedBy(db, r), rows.functionTypes, r.variant, FilesOf(db, r))
            && after.properties
               == MergeProperties(db.properties, DoomedBy(db, r), rows.properties, r.variant, FilesOf(db, r))
            && after.fingerprints
               == MergeTable(db.fingerprints, DoomedBy(db, r), StagedFingerprints(FreshFiles(r)), r.variant,
                             FilesOf(db, r))
  {
  }

  lemma FullStoreIsStoreOf(db: Database, r: Request)
    ensures StoreOf(db, r, FullStore(db, r))
  {
    var rows := StageItems(NO_ROWS, r, {}, r.index.Items());
    StageItemsFlat(NO_ROWS, r, {}, r.index.Items());
    MergeFields(db, r, rows);
    MergedTable(db, r, db.records, rows.records, RecordRows);
    MergedTable(db, r, db.symbolTypes, rows.symbolTypes, SymbolTypeRows);
    MergedTable(db, r, db.functionTypes, rows.functionTypes, FunctionTypeRows);
  }

  lemma FilesAfter(db: Database, r: Request, f: FileId)
    ensures var after := FilesOf(db, r);
            && (f in after <==> f in db.files || Touched(r, f))
            && (Touched(r, f) ==> after[f] == FreshFiles(r)[f.path].meta)
            && (f in db.files && !Touched(r, f) ==> after[f] == db.files[f])
  {
    if Touched(r, f) {
      assert f == FileId(r.variant, f.path);
    }
  }

  lemma DoomedAreNotKept(db: Database, r: Request, f: FileId)
    requires f in db.files
    ensures f in DoomedBy(db, r) <==> !Keeps(db, r, f)
  {
  }

  /** A table at one key after a store: what was kept, else the first row this store staged. */
  lemma RowAfter<K, V>(db: Database, r: Request, t: FileTable<K, V>, rowsOf: Item -> seq<(K, V)>, key: (FileId, K))
    requires key in t ==> key.0 in db.files
    ensures var after := TableAfter(db, r, t, rowsOf);
            var staged := First(AllRows(r, {}, r.index.Items(), rowsOf), (key.0.path, key.1));
            var kept := key in t && Keeps(db, r, key.0);
            var added := key.0.variant == r.variant && key.0 in FilesOf(db, r) && staged.Some?;
            && (key in after <==> kept || added)
            && (kept ==> after[key] == t[key])
            && (!kept && added ==> after[key] == staged.value)
  {
    hide AllRows, First, FilesOf, DoomedBy, Keeps, InsertRows, Join;
    var rows := AllRows(r, {}, r.index.Items(), rowsOf);
    JoinLookup(InsertRows(map[], rows), r.variant, FilesOf(db, r), key);
    InsertRowsLookup(map[], rows, (key.0.path, key.1));
    if key in t {
      DoomedAreNotKept(db, r, key.0);
    }
  }

  lemma FingerprintAfter(db: Database, r: Request, after: Database, f: FileId, fp: Fingerprint)
    requires StoreOf(db, r, after) && ((f, fp) in db.fingerprints ==> f in db.files)
    ensures (f, fp) in after.fingerprints <==>
              || ((f, fp) in db.fingerprints && Keeps(db, r, f))
              || (Touched(r, f) && FreshFiles(r)[f.path].fingerprint == Some(fp))
  {
    JoinLookup(StagedFingerprints(FreshFiles(r)), r.variant, FilesOf(db, r), (f, fp));
    FilesAfter(db, r, f);
    if (f, fp) in db.fingerprints {
      DoomedAreNotKept(db, r, f);
    }
    if Touched(r, f) && FreshFiles(r)[f.path].fingerprint == Some(fp) {
      assert (f.path, fp) in FingerprintKeys(FreshFiles(r));
    }
  }

  lemma MergedProperties(t: FileTable<PropertyKey, Bits>, doomed: set<FileId>, staged: PathTable<PropertyKey, Bits>,
                         variant: Text, files: map<FileId, FileMeta>, key: (FileId, PropertyKey))
    ensures var after, joined := MergeProperties(t, doomed, staged, variant, files), Join(staged, variant, files);
            var kept := key in t && key.0 !in doomed;
            && BitsAt(after, key) == (if kept then t[key] else {}) + BitsAt(joined, key)
            && (key in after <==> kept || key in joined)
  {
  }

  lemma PropertiesAfter(db: Database, r: Request, key: (FileId, PropertyKey))
    requires key in db.properties ==> key.0 in db.files
    ensures var rows := AllRows(r, {}, r.index.Items(), PropertyRows);
            var after := PropertiesOf(db, r);
            var kept := key in db.properties && Keeps(db, r, key.0);
            var here := key.0.variant == r.variant && key.0 in FilesOf(db, r);
            && BitsAt(after, key) == (if kept then db.properties[key] else {})
                                     + (if here then Mask(rows, (key.0.path, key.1)) else {})
            && (key in after <==> kept || (here && First(rows, (key.0.path, key.1)).Some?))
  {
    var rows := AllRows(r, {}, r.index.Items(), PropertyRows);
    MergedProperties(db.properties, DoomedBy(db, r), OrRows(map[], rows), r.variant, FilesOf(db, r), key);
    JoinedBits(rows, r.variant, FilesOf(db, r), key);
    if key in db.properties {
      DoomedAreNotKept(db, r, key.0);
    }
  }

  // ---- replacement of the main file, and the frame ----

  /** The table's rows for f are the first row of each key. */
  ghost predicate HoldsFirstRows<K(!new), V>(t: FileTable<K, V>, f: FileId, rows: seq<((Text, K), V)>) {
    forall k: K ::
      && ((f, k) in t <==> First(rows, (f.path, k)).Some?)
      && ((f, k) in t ==> t[(f, k)] == First(rows, (f.path, k)).value)
  }

  /** The store staged f and does not keep the rows that it has. */
  ghost predicate Replaces(db: Database, r: Request, f: FileId) {
    Touched(r, f) && (f in db.files ==> FreshFiles(r)[f.path].isMain || db.files[f] != FreshFiles(r)[f.path].meta)
  }

  lemma TableReplaced<K(!new), V>(db: Database, r: Request, t: FileTable<K, V>, rowsOf: Item -> seq<(K, V)>, f: FileId)
    requires (forall key | key in t :: key.0 in db.files) && Replaces(db, r, f)
    ensures HoldsFirstRows(TableAfter(db, r, t, rowsOf), f, AllRows(r, {}, r.index.Items(), rowsOf))
  {
    FilesAfter(db, r, f);
    forall k: K
      ensures var rows := AllRows(r, {}, r.index.Items(), rowsOf);
              var after := TableAfter(db, r, t, rowsOf);
              && ((f, k) in after <==> First(rows, (f.path, k)).Some?)
              && ((f, k) in after ==> after[(f, k)] == First(rows, (f.path, k)).value)
    {
      RowAfter(db, r, t, rowsOf, (f, k));
    }
  }

  ghost predicate HoldsMasks(t: FileTable<PropertyKey, Bits>, f: FileId, rows: seq<((Text, PropertyKey), Bits)>) {
    forall k ::
      && ((f, k) in t <==> First(rows, (f.path, k)).Some?)
      && BitsAt(t, (f, k)) == Mask(rows, (f.path, k))
  }

  lemma PropertiesReplaced(db: Database, r: Request, f: FileId)
    requires (forall key | key in db.properties :: key.0 in db.files) && Replaces(db, r, f)
    ensures HoldsMasks(PropertiesOf(db, r), f, AllRows(r, {}, r.index.Items(), PropertyRows))
  {
    FilesAfter(db, r, f);
    forall k
      ensures var rows := AllRows(r, {}, r.index.Items(), PropertyRows);
              && ((f, k) in PropertiesOf(db, r) <==> First(rows, (f.path, k)).Some?)
              && BitsAt(PropertiesOf(db, r), (f, k)) == Mask(rows, (f.path, k))
    {
      PropertiesAfter(db, r, (f, k));
    }
  }

  /** The tables hold exactly the request's rows for f: the first staged row of each key, and the OR of its property
      masks. */
  ghost predicate ReplacedRows(after: Database, r: Request, f: FileId) {
    && HoldsFirstRows(after.records, f, AllRows(r, {}, r.index.Items(), RecordRows))
    && HoldsFirstRows(after.symbolTypes, f, AllRows(r, {}, r.index.Items(), SymbolTypeRows))
    && HoldsFirstRows(after.functionTypes, f, AllRows(r, {}, r.index.Items(), FunctionTypeRows))
    && HoldsMasks(after.properties, f, AllRows(r, {}, r.index.Items(), PropertyRows))
  }

  /** The same, and no fingerprint. */
  ghost predicate Replaced(after: Database, r: Request, f: FileId) {
    ReplacedRows(after, r, f) && forall fp :: (f, fp) !in after.fingerprints
  }

  /** A store replaces its main file. */
  lemma MainReplacement(db: Database, r: Request, f: FileId)
    requires HasFiles(db) && f.variant == r.variant && IsMainPath(r, f.path)
    ensures Replaced(FullStore(db, r), r, f)
  {
    StagedFileIs(r, f.path);
    hide IsMainPath, SeenBy, FreshFiles;
    FullStoreIsStoreOf(db, r);
    ReplacedBy(db, r, FullStore(db, r), f);
  }

  lemma ReplacedBy(db: Database, r: Request, after: Database, f: FileId)
    requires StoreOf(db, r, after) && HasFiles(db) && Touched(r, f) && FreshFiles(r)[f.path].isMain
    ensures Replaced(after, r, f)
  {
    RowsReplacedBy(db, r, after, f);
    FreshFilesOrdinals(r);
    forall fp ensures (f, fp) !in after.fingerprints {
      FingerprintAfter(db, r, after, f, fp);
    }
  }

  lemma RowsReplacedBy(db: Database, r: Request, after: Database, f: FileId)
    requires StoreOf(db, r, after) && HasFiles(db) && Replaces(db, r, f)
    ensures ReplacedRows(after, r, f)
  {
    TableReplaced(db, r, db.records, RecordRows, f);
    TableReplaced(db, r, db.symbolTypes, SymbolTypeRows, f);
    TableReplaced(db, r, db.functionTypes, FunctionTypeRows, f);
    PropertiesReplaced(db, r, f);
  }

  /** f was staged with another modification time or size than the database has for it. */
  ghost predicate Changed(db: Database, r: Request, f: FileId) {
    && f.variant == r.variant && f in db.files
    && exists mtime, size :: SeenBy(r, f.path, mtime, size) && (mtime != db.files[f].mtime || size != db.files[f].size)
  }

  ghost predicate OwnFingerprints(after: Database, r: Request, f: FileId) {
    forall fp :: (f, fp) in after.fingerprints <==> FingerprintOf(r, f.path, fp)
  }

  /** A store replaces the rows and fingerprints of every file that changed, main file or not. */
  lemma ChangedReplacement(db: Database, r: Request, f: FileId)
    requires HasFiles(db) && Changed(db, r, f)
    ensures ReplacedRows(FullStore(db, r), r, f) && OwnFingerprints(FullStore(db, r), r, f)
  {
    var after := FullStore(db, r);
    FullStoreIsStoreOf(db, r);
    StagedFileIs(r, f.path);
    hide IsMainPath, SeenBy, FreshFiles, FingerprintOf, FullStore, StoreOf, HasFiles;
    assert Replaces(db, r, f);
    RowsReplacedBy(db, r, after, f);
    forall fp ensures (f, fp) in after.fingerprints <==> FingerprintOf(r, f.path, fp) {
      ReplacedFingerprint(db, r, after, f, fp);
    }
  }

  lemma ReplacedFingerprint(db: Database, r: Request, after: Database, f: FileId, fp: Fingerprint)
    requires StoreOf(db, r, after) && HasFiles(db) && f in db.files && Replaces(db, r, f)
    ensures (f, fp) in after.fingerprints <==> FreshFiles(r)[f.path].fingerprint == Some(fp)
  {
    FingerprintAfter(db, r, after, f, fp);
  }

  /** Two stores that saw a shared file with different modification times or sizes: only what the later one staged
      for it is left. */
  lemma LaterStoreReplaces(db: Database, a: Request, b: Request, f: FileId, before: FileMeta, now: FileMeta)
    requires HasFiles(db) && f.variant == a.variant == b.variant && before != now
    requires SeenBy(a, f.path, before.mtime, before.size) && SeenBy(b, f.path, now.mtime, now.size)
    ensures var after := FullStore(FullStore(db, a), b);
            ReplacedRows(after, b, f) && OwnFingerprints(after, b, f) && f in after.files && after.files[f] == now
  {
    var mid := FullStore(db, a);
    StagedFileIs(a, f.path);
    StagedFileIs(b, f.path);
    FullStoreIsStoreOf(db, a);
    FullStoreIsStoreOf(mid, b);
    FullStoreKeepsHasFiles(db, a);
    hide SeenBy, FreshFiles, FullStore, HasFiles, ReplacedRows, OwnFingerprints, FilesOf;
    FilesAfter(db, a, f);
    FilesAfter(mid, b, f);
    assert Changed(mid, b, f);
    ChangedReplacement(mid, b, f);
  }

  /** The two tables hold the same rows for f. */
  ghost predicate SameRows<K(!new), V>(a: FileTable<K, V>, b: FileTable<K, V>, f: FileId) {
    forall k: K :: ((f, k) in a <==> (f, k) in b) && ((f, k) in a ==> a[(f, k)] == b[(f, k)])
  }

  ghost predicate SameFile(a: Database, b: Database, f: FileId) {
    && (f in a.files <==> f in b.files) && (f in a.files ==> a.files[f] == b.files[f])
    && SameRows(a.records, b.records, f)
    && SameRows(a.symbolTypes, b.symbolTypes, f)
    && SameRows(a.functionTypes, b.functionTypes, f)
    && SameRows(a.properties, b.properties, f)
    && SameRows(a.fingerprints, b.fingerprints, f)
  }

  /** The store has nothing to say about f. */
  ghost predicate Elsewhere(r: Request, f: FileId) {
    f.variant != r.variant || (WellFormed(r) && f.path !in FreshFiles(r) && f.path != [])
  }

  lemma NoRowElsewhere<K, V>(r: Request, rowsOf: Item -> seq<(K, V)>, key: (FileId, K))
    requires Elsewhere(r, key.0)
    ensures key.0.variant == r.variant ==>
              First(AllRows(r, {}, r.index.Items(), rowsOf), (key.0.path, key.1)).None?
  {
    if key.0.variant == r.variant && First(AllRows(r, {}, r.index.Items(), rowsOf), (key.0.path, key.1)).Some? {
      StagedRowsHaveFiles(r, r.index.Items(), rowsOf, (key.0.path, key.1));
    }
  }

  lemma TableFrame<K(!new), V>(db: Database, r: Request, t: FileTable<K, V>, rowsOf: Item -> seq<(K, V)>, f: FileId)
    requires Elsewhere(r, f) && forall key | key in t :: key.0 in db.files
    ensures SameRows(t, TableAfter(db, r, t, rowsOf), f)
  {
    forall k: K
      ensures var after := TableAfter(db, r, t, rowsOf);
              ((f, k) in t <==> (f, k) in after) && ((f, k) in t ==> t[(f, k)] == after[(f, k)])
    {
      RowAfter(db, r, t, rowsOf, (f, k));
      NoRowElsewhere(r, rowsOf, (f, k));
    }
  }

  lemma PropertiesFrame(db: Database, r: Request, f: FileId)
    requires HasFiles(db) && Elsewhere(r, f)
    ensures SameRows(db.properties, PropertiesOf(db, r), f)
  {
    var after := PropertiesOf(db, r);
    forall k
      ensures ((f, k) in db.properties <==> (f, k) in after)
      ensures (f, k) in after ==> db.properties[(f, k)] == after[(f, k)]
    {
      PropertiesAfter(db, r, (f, k));
      NoRowElsewhere(r, PropertyRows, (f, k));
      OrRowsLookup(map[], AllRows(r, {}, r.index.Items(), PropertyRows), (f.path, k));
    }
  }

  lemma FingerprintsFrame(db: Database, r: Request, after: Database, f: FileId)
    requires StoreOf(db, r, after) && HasFiles(db) && Elsewhere(r, f)
    ensures SameRows(db.fingerprints, after.fingerprints, f)
  {
    forall fp
      ensures (f, fp) in db.fingerprints <==> (f, fp) in after.fingerprints
      ensures (f, fp) in after.fingerprints ==> db.fingerprints[(f, fp)] == () == after.fingerprints[(f, fp)]
    {
      FingerprintAfter(db, r, after, f, fp);
    }
  }

  lemma FrameOf(db: Database, r: Request, after: Database, f: FileId)
    requires StoreOf(db, r, after) && HasFiles(db) && Elsewhere(r, f)
    ensures SameFile(db, after, f)
  {
    FilesAfter(db, r, f);
    TableFrame(db, r, db.records, RecordRows, f);
    TableFrame(db, r, db.symbolTypes, SymbolTypeRows, f);
    TableFrame(db, r, db.functionTypes, FunctionTypeRows, f);
    PropertiesFrame(db, r, f);
    FingerprintsFrame(db, r, after, f);
  }

  /** A store changes nothing about files of other variants, nor about files that it did not stage. */
  lemma StoreFrame(db: Database, r: Request, f: FileId)
    requires HasFiles(db) && Elsewhere(r, f)
    ensures SameFile(db, FullStore(db, r), f)
  {
    FullStoreIsStoreOf(db, r);
    FrameOf(db, r, FullStore(db, r), f);
  }
}
