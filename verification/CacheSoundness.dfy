/** Why a store may leave out the files whose fingerprints are already in the shared tables. */
module CacheSoundness {
  import opened Wrappers
  import opened Index
  import opened Tables
  import opened Staging
  import opened RowLemmas

  /** The rows that file i of a request contributes, without their path. */
  function Content<K, V>(r: Request, i: nat, items: seq<Item>, rowsOf: Item -> seq<(K, V)>): seq<(K, V)> {
    if items == [] then []
    else
      var last := items[|items| - 1];
      Content(r, i, items[..|items| - 1], rowsOf)
      + (if last.FileIndex() == i && !Skips(r, {}, last) then rowsOf(last) else [])
  }

  /** Equal fingerprints stand for equal content, within one request and between requests. */
  ghost predicate Agree(r: Request, q: Request) {
    forall i, j | 0 <= i < |r.files| && 0 <= j < |q.files| && r.files[i].fingerprint == q.files[j].fingerprint ::
      SameContent(r, i, q, j)
  }

  ghost predicate SameContent(r: Request, i: nat, q: Request, j: nat) {
    && Content(r, i, r.index.Items(), RecordRows) == Content(q, j, q.index.Items(), RecordRows)
    && Content(r, i, r.index.Items(), SymbolTypeRows) == Content(q, j, q.index.Items(), SymbolTypeRows)
    && Content(r, i, r.index.Items(), FunctionTypeRows) == Content(q, j, q.index.Items(), FunctionTypeRows)
    && Content(r, i, r.index.Items(), PropertyRows) == Content(q, j, q.index.Items(), PropertyRows)
  }

  /** Every row key is present for the file. */
  ghost predicate HasKeys<K, V>(t: FileTable<K, V>, f: FileId, rows: seq<(K, V)>) {
    forall k | 0 <= k < |rows| :: (f, rows[k].0) in t
  }

  /** Every property bit is present for the file. */
  ghost predicate HasBits<K>(t: FileTable<K, Bits>, f: FileId, rows: seq<(K, Bits)>) {
    forall k | 0 <= k < |rows| :: (f, rows[k].0) in t && rows[k].1 <= t[(f, rows[k].0)]
  }

  /** The content of file i of the request is stored for f. */
  ghost predicate Stored(db: Database, f: FileId, r: Request, i: nat) {
    && HasKeys(db.records, f, Content(r, i, r.index.Items(), RecordRows))
    && HasKeys(db.symbolTypes, f, Content(r, i, r.index.Items(), SymbolTypeRows))
    && HasKeys(db.functionTypes, f, Content(r, i, r.index.Items(), FunctionTypeRows))
    && HasBits(db.properties, f, Content(r, i, r.index.Items(), PropertyRows))
  }

  /** The cache invariant: a stored fingerprint vouches for all of its content. */
  ghost predicate CacheSound(db: Database, requests: seq<Request>) {
    forall f, fp | (f, fp) in db.fingerprints ::
      && f in db.files
      && forall w, i | 0 <= w < |requests| && 0 <= i < |requests[w].files| && requests[w].files[i].fingerprint == fp ::
           Stored(db, f, requests[w], i)
  }

  // ---- staging_files: the cache marks touch nothing but `cached` ----

  /** files is the request's fresh staging_files with some hits marked. */
  ghost predicate MarkedFiles(files: map<Text, StagedFile>, r: Request) {
    && ClearCached(files) == FreshFiles(r)
    && forall p | p in files && files[p].cached :: !files[p].isMain && files[p].ordinal.Some?
  }

  lemma {:induction false} StageEntriesOrdinals(r: Request, n: nat)
    requires n <= |r.files|
    ensures forall p | p in StageEntries(r, n) ::
              var s := StageEntries(r, n)[p];
              && s.ordinal.Some? && s.ordinal.value < n && r.files[s.ordinal.value].path == p && !s.cached
              && s.meta == Meta(r.files[s.ordinal.value].stat)
              && r.files[s.ordinal.value].recordCount > 0
              && s.fingerprint == (if s.isMain then None else Some(r.files[s.ordinal.value].fingerprint))
  {
    if n != 0 {
      StageEntriesOrdinals(r, n - 1);
    }
  }

  lemma FreshFilesOrdinals(r: Request)
    ensures forall p | p in FreshFiles(r) ::
              var s := FreshFiles(r)[p];
              && !s.cached
              && (s.isMain ==> s.fingerprint.None?)
              && (!s.isMain ==> s.ordinal.Some? && s.fingerprint.Some?)
              && (s.ordinal.Some? ==> s.ordinal.value < |r.files| && r.files[s.ordinal.value].path == p)
              && (s.fingerprint.Some? ==>
                    s.ordinal.Some? && s.fingerprint.value == r.files[s.ordinal.value].fingerprint)
  {
    StageEntriesOrdinals(r, |r.files|);
  }

  lemma MarkingIsMarked(r: Request, db: Database)
    ensures MarkedFiles(MarkCached(FreshFiles(r), db, r.variant), r)
  {
    FreshFilesOrdinals(r);
    var files := MarkCached(FreshFiles(r), db, r.variant);
    assert ClearCached(files) == FreshFiles(r);
  }

  lemma MarksAreInvisible(files: map<Text, StagedFile>, clean: map<Text, StagedFile>, variant: Text,
                          stored: map<FileId, FileMeta>)
    requires ClearCached(files) == clean
    ensures DoomedFiles(stored, variant, files) == DoomedFiles(stored, variant, clean)
    ensures MergedFiles(stored, variant, files) == MergedFiles(stored, variant, clean)
    ensures StagedFingerprints(files) == StagedFingerprints(clean)
  {
    assert files.Keys == clean.Keys;
    assert forall p | p in files :: files[p].meta == clean[p].meta && files[p].isMain == clean[p].isMain
             && files[p].fingerprint == clean[p].fingerprint;
    assert InsertFiles(stored, variant, files) == InsertFiles(stored, variant, clean);
    assert forall k :: k in FingerprintKeys(files) <==> k in FingerprintKeys(clean);
  }

  // ---- leaving out stored content changes no table ----

  /** Every row of a skipped item is in the table already. */
  ghost predicate Covered<K(!new), V>(base: FileTable<K, V>, r: Request, cached: set<nat>, items: seq<Item>,
                                rowsOf: Item -> seq<(K, V)>)
  {
    forall item | item in items && item.FileIndex() in cached && !Skips(r, {}, item) ::
      HasKeys(base, FileId(r.variant, ItemPath(r, item)), rowsOf(item))
  }

  /** Rows whose keys are all stored for their file hold no key that is not. */
  lemma StoredRowsAbsent<K, V>(base: FileTable<K, V>, variant: Text, path: Text, rows: seq<(K, V)>, key: (Text, K))
    requires HasKeys(base, FileId(variant, path), rows)
    requires (FileId(variant, key.0), key.1) !in base
    ensures First(AtPath(path, rows), key).None?
  {
    FirstHasRow(AtPath(path, rows), key);
    assert forall i | 0 <= i < |rows| :: AtPath(path, rows)[i].0 != key;
  }

  /** For a key that is not stored yet, the staged row is the same with and without the cached files. */
  lemma {:induction false} FirstWithoutCached<K(!new), V>(
    base: FileTable<K, V>, r: Request, cached: set<nat>, items: seq<Item>, rowsOf: Item -> seq<(K, V)>, key: (Text, K))
    requires Covered(base, r, cached, items, rowsOf)
    requires (FileId(r.variant, key.0), key.1) !in base
    ensures First(AllRows(r, cached, items, rowsOf), key) == First(AllRows(r, {}, items, rowsOf), key)
  {
    if items != [] {
      var front, last := items[..|items| - 1], items[|items| - 1];
      FirstWithoutCached(base, r, cached, front, rowsOf, key);
      FirstConcat(AllRows(r, cached, front, rowsOf), ItemRows(r, cached, last, rowsOf), key);
      FirstConcat(AllRows(r, {}, front, rowsOf), ItemRows(r, {}, last, rowsOf), key);
      if Skips(r, cached, last) && !Skips(r, {}, last) {
        StoredRowsAbsent(base, r.variant, ItemPath(r, last), rowsOf(last), key);
      }
    }
  }

  lemma {:induction false} FirstWithinFull<K, V>(
    r: Request, cached: set<nat>, items: seq<Item>, rowsOf: Item -> seq<(K, V)>, key: (Text, K))
    requires First(AllRows(r, cached, items, rowsOf), key).Some?
    ensures First(AllRows(r, {}, items, rowsOf), key).Some?
  {
    var front, last := items[..|items| - 1], items[|items| - 1];
    FirstConcat(AllRows(r, cached, front, rowsOf), ItemRows(r, cached, last, rowsOf), key);
    FirstConcat(AllRows(r, {}, front, rowsOf), ItemRows(r, {}, last, rowsOf), key);
    if First(AllRows(r, cached, front, rowsOf), key).Some? {
      FirstWithinFull(r, cached, front, rowsOf, key);
    }
  }

  lemma JoinLookup<K, V>(staged: PathTable<K, V>, variant: Text, files: map<FileId, FileMeta>, key: (FileId, K))
    ensures key in Join(staged, variant, files) <==>
              key.0.variant == variant && key.0 in files && (key.0.path, key.1) in staged
    ensures key in Join(staged, variant, files) ==>
              Join(staged, variant, files)[key] == staged[(key.0.path, key.1)]
  {
    if key.0.variant == variant && (key.0.path, key.1) in staged {
      var k := (key.0.path, key.1);
      assert key == (FileId(variant, k.0), k.1);
    }
  }

  lemma SameInsertion<K(!new), V>(base: map<K, V>, a: map<K, V>, b: map<K, V>)
    requires forall key: K | key !in base :: (key in a <==> key in b) && (key in a ==> a[key] == b[key])
    ensures InsertOrIgnore(base, a) == InsertOrIgnore(base, b)
  {
    forall key: K
      ensures key in InsertOrIgnore(base, a) <==> key in InsertOrIgnore(base, b)
      ensures key in InsertOrIgnore(base, a) ==> InsertOrIgnore(base, a)[key] == InsertOrIgnore(base, b)[key]
    {
    }
  }

  lemma InsertWithoutCached<K(!new), V>(
    base: FileTable<K, V>, r: Request, cached: set<nat>, rowsOf: Item -> seq<(K, V)>, files: map<FileId, FileMeta>)
    requires Covered(base, r, cached, r.index.Items(), rowsOf)
    ensures var part := InsertRows(map[], AllRows(r, cached, r.index.Items(), rowsOf));
            var full := InsertRows(map[], AllRows(r, {}, r.index.Items(), rowsOf));
            InsertOrIgnore(base, Join(part, r.variant, files)) == InsertOrIgnore(base, Join(full, r.variant, files))
  {
    var items := r.index.Items();
    var part := InsertRows(map[], AllRows(r, cached, items, rowsOf));
    var full := InsertRows(map[], AllRows(r, {}, items, rowsOf));
    var a, b := Join(part, r.variant, files), Join(full, r.variant, files);
    forall key: (FileId, K) | key !in base
      ensures (key in a <==> key in b) && (key in a ==> a[key] == b[key])
    {
      JoinLookup(part, r.variant, files, key);
      JoinLookup(full, r.variant, files, key);
      if key.0.variant == r.variant {
        var k := (key.0.path, key.1);
        assert key.0 == FileId(r.variant, k.0);
        FirstWithoutCached(base, r, cached, items, rowsOf, k);
        InsertRowsLookup(map[], AllRows(r, cached, items, rowsOf), k);
        InsertRowsLookup(map[], AllRows(r, {}, items, rowsOf), k);
      }
    }
    SameInsertion(base, a, b);
  }

  // ---- the same for the OR-ed property masks ----

  ghost predicate CoveredBits(base: FileTable<PropertyKey, Bits>, r: Request, cached: set<nat>, items: seq<Item>) {
    forall item | item in items && item.FileIndex() in cached && !Skips(r, {}, item) ::
      HasBits(base, FileId(r.variant, ItemPath(r, item)), PropertyRows(item))
  }

  /** What a table holds for a key, no row being no bits. */
  function BitsAt<K(==)>(t: map<K, Bits>, key: K): Bits {
    if key in t then t[key] else {}
  }

  lemma StoredMask(base: FileTable<PropertyKey, Bits>, variant: Text, path: Text, rows: seq<(PropertyKey, Bits)>,
                   key: (Text, PropertyKey))
    requires HasBits(base, FileId(variant, path), rows) && |rows| <= 1
    ensures Mask(AtPath(path, rows), key) <= BitsAt(base, (FileId(variant, key.0), key.1))
  {
    if |rows| == 1 {
      assert AtPath(path, rows)[..0] == [];
      assert (FileId(variant, path), rows[0].0) in base;
    }
  }

  lemma {:induction false} MaskWithoutCached(
    base: FileTable<PropertyKey, Bits>, r: Request, cached: set<nat>, items: seq<Item>, key: (Text, PropertyKey))
    requires CoveredBits(base, r, cached, items)
    ensures var stored := BitsAt(base, (FileId(r.variant, key.0), key.1));
            stored + Mask(AllRows(r, cached, items, PropertyRows), key)
            == stored + Mask(AllRows(r, {}, items, PropertyRows), key)
  {
    hide Mask, AllRows, ItemRows;
    if items == [] {
      NoRows(r, cached, PropertyRows);
      NoRows(r, {}, PropertyRows);
    } else {
      var front, last := items[..|items| - 1], items[|items| - 1];
      assert CoveredBits(base, r, cached, front);
      MaskWithoutCached(base, r, cached, front, key);
      LastMask(r, cached, items, key);
      LastMask(r, {}, items, key);
      CachedMask(base, r, cached, items, last, key);
    }
  }

  lemma NoRows<K, V>(r: Request, cached: set<nat>, rowsOf: Item -> seq<(K, V)>)
    ensures AllRows(r, cached, [], rowsOf) == []
  {
  }

  lemma LastMask(r: Request, cached: set<nat>, items: seq<Item>, key: (Text, PropertyKey))
    requires items != []
    ensures Mask(AllRows(r, cached, items, PropertyRows), key)
            == Mask(AllRows(r, cached, items[..|items| - 1], PropertyRows), key)
               + Mask(ItemRows(r, cached, items[|items| - 1], PropertyRows), key)
  {
    hide Mask, ItemRows;
    MaskConcat(AllRows(r, cached, items[..|items| - 1], PropertyRows),
               ItemRows(r, cached, items[|items| - 1], PropertyRows), key);
  }

  /** A skipped item has its bits stored already, and any other item is staged either way. */
  lemma CachedMask(base: FileTable<PropertyKey, Bits>, r: Request, cached: set<nat>, items: seq<Item>, item: Item,
                   key: (Text, PropertyKey))
    requires CoveredBits(base, r, cached, items) && item in items
    ensures var stored := BitsAt(base, (FileId(r.variant, key.0), key.1));
            var part, full := ItemRows(r, cached, item, PropertyRows), ItemRows(r, {}, item, PropertyRows);
            stored + Mask(part, key) == stored + Mask(full, key)
  {
    hide HasBits, AtPath, BitsAt, PropertyRows;
    if Skips(r, cached, item) && !Skips(r, {}, item) {
      AtMostOneMask(item);
      StoredMask(base, r.variant, ItemPath(r, item), PropertyRows(item), key);
    }
  }

  lemma AtMostOneMask(item: Item)
    ensures |PropertyRows(item)| <= 1
  {
  }

  lemma SameUpsert<K(!new)>(base: map<K, Bits>, a: map<K, Bits>, b: map<K, Bits>)
    requires forall key: K | key !in base :: key in a <==> key in b
    requires forall key: K :: BitsAt(base, key) + BitsAt(a, key) == BitsAt(base, key) + BitsAt(b, key)
    ensures UpsertOr(base, a) == UpsertOr(base, b)
  {
    forall key: K
      ensures key in UpsertOr(base, a) <==> key in UpsertOr(base, b)
      ensures key in UpsertOr(base, a) ==> UpsertOr(base, a)[key] == UpsertOr(base, b)[key]
    {
      assert BitsAt(base, key) + BitsAt(a, key) == BitsAt(base, key) + BitsAt(b, key);
    }
  }

  /** The bits that the joined staging table holds for a key. */
  lemma JoinedBits(rows: seq<((Text, PropertyKey), Bits)>, variant: Text, files: map<FileId, FileMeta>,
                   key: (FileId, PropertyKey))
    ensures BitsAt(Join(OrRows(map[], rows), variant, files), key)
            == if key.0.variant == variant && key.0 in files then Mask(rows, (key.0.path, key.1)) else {}
    ensures key in Join(OrRows(map[], rows), variant, files) <==>
              key.0.variant == variant && key.0 in files && First(rows, (key.0.path, key.1)).Some?
  {
    JoinLookup(OrRows(map[], rows), variant, files, key);
    OrRowsLookup(map[], rows, (key.0.path, key.1));
  }

  lemma UpsertWithoutCached(
    base: FileTable<PropertyKey, Bits>, r: Request, cached: set<nat>, files: map<FileId, FileMeta>)
    requires CoveredBits(base, r, cached, r.index.Items())
    ensures var part := OrRows(map[], AllRows(r, cached, r.index.Items(), PropertyRows));
            var full := OrRows(map[], AllRows(r, {}, r.index.Items(), PropertyRows));
            UpsertOr(base, Join(part, r.variant, files)) == UpsertOr(base, Join(full, r.variant, files))
  {
    var items := r.index.Items();
    var partRows, fullRows := AllRows(r, cached, items, PropertyRows), AllRows(r, {}, items, PropertyRows);
    var a, b := Join(OrRows(map[], partRows), r.variant, files), Join(OrRows(map[], fullRows), r.variant, files);
    BitsAreKeys(base, r, cached, items);
    forall key: (FileId, PropertyKey)
      ensures key !in base ==> (key in a <==> key in b)
      ensures BitsAt(base, key) + BitsAt(a, key) == BitsAt(base, key) + BitsAt(b, key)
    {
      JoinedBits(partRows, r.variant, files, key);
      JoinedBits(fullRows, r.variant, files, key);
      if key.0.variant == r.variant {
        assert key.0 == FileId(r.variant, key.0.path);
        MaskWithoutCached(base, r, cached, items, (key.0.path, key.1));
        if key !in base {
          FirstWithoutCached(base, r, cached, items, PropertyRows, (key.0.path, key.1));
        }
      }
    }
    SameUpsert(base, a, b);
  }

  lemma BitsAreKeys(base: FileTable<PropertyKey, Bits>, r: Request, cached: set<nat>, items: seq<Item>)
    requires CoveredBits(base, r, cached, items)
    ensures Covered(base, r, cached, items, PropertyRows)
  {
    forall item | item in items && item.FileIndex() in cached && !Skips(r, {}, item)
      ensures HasKeys(base, FileId(r.variant, ItemPath(r, item)), PropertyRows(item))
    {
      assert HasBits(base, FileId(r.variant, ItemPath(r, item)), PropertyRows(item));
    }
  }

  // ---- a valid cache hit means the skipped items are covered ----

  lemma {:induction false} ContentHoldsItem<K, V>(
    t: FileTable<K, V>, f: FileId, r: Request, items: seq<Item>, rowsOf: Item -> seq<(K, V)>, item: Item)
    requires item in items && !Skips(r, {}, item)
    requires HasKeys(t, f, Content(r, item.FileIndex(), items, rowsOf))
    ensures HasKeys(t, f, rowsOf(item))
  {
    var front, last := items[..|items| - 1], items[|items| - 1];
    var before, all := Content(r, item.FileIndex(), front, rowsOf), Content(r, item.FileIndex(), items, rowsOf);
    if item == last {
      forall k | 0 <= k < |rowsOf(item)| ensures (f, rowsOf(item)[k].0) in t {
        assert all[|before| + k] == rowsOf(item)[k];
      }
    } else {
      forall k | 0 <= k < |before| ensures (f, before[k].0) in t {
        assert all[k] == before[k];
      }
      ContentHoldsItem(t, f, r, front, rowsOf, item);
    }
  }

  lemma {:induction false} ContentHoldsBits(
    t: FileTable<PropertyKey, Bits>, f: FileId, r: Request, items: seq<Item>, item: Item)
    requires item in items && !Skips(r, {}, item)
    requires HasBits(t, f, Content(r, item.FileIndex(), items, PropertyRows))
    ensures HasBits(t, f, PropertyRows(item))
  {
    var front, last := items[..|items| - 1], items[|items| - 1];
    var before := Content(r, item.FileIndex(), front, PropertyRows);
    var all := Content(r, item.FileIndex(), items, PropertyRows);
    if item == last {
      forall k | 0 <= k < |PropertyRows(item)|
        ensures (f, PropertyRows(item)[k].0) in t && PropertyRows(item)[k].1 <= t[(f, PropertyRows(item)[k].0)]
      {
        assert all[|before| + k] == PropertyRows(item)[k];
      }
    } else {
      forall k | 0 <= k < |before| ensures (f, before[k].0) in t && before[k].1 <= t[(f, before[k].0)] {
        assert all[k] == before[k];
      }
      ContentHoldsBits(t, f, r, front, item);
    }
  }

  /** Every cached file is stored, and survives the deletions. */
  ghost predicate CachedStored(db: Database, r: Request, cached: set<nat>, doomed: set<FileId>) {
    forall i | i in cached ::
      i < |r.files| && FileId(r.variant, r.files[i].path) !in doomed
      && Stored(db, FileId(r.variant, r.files[i].path), r, i)
  }

  lemma CachedItemsCovered(db: Database, r: Request, cached: set<nat>, doomed: set<FileId>)
    requires CachedStored(db, r, cached, doomed)
    ensures Covered(DeleteFiles(db.records, doomed), r, cached, r.index.Items(), RecordRows)
    ensures Covered(DeleteFiles(db.symbolTypes, doomed), r, cached, r.index.Items(), SymbolTypeRows)
    ensures Covered(DeleteFiles(db.functionTypes, doomed), r, cached, r.index.Items(), FunctionTypeRows)
    ensures CoveredBits(DeleteFiles(db.properties, doomed), r, cached, r.index.Items())
  {
    var items := r.index.Items();
    forall item | item in items && item.FileIndex() in cached && !Skips(r, {}, item)
      ensures var f := FileId(r.variant, ItemPath(r, item));
              && HasKeys(DeleteFiles(db.records, doomed), f, RecordRows(item))
              && HasKeys(DeleteFiles(db.symbolTypes, doomed), f, SymbolTypeRows(item))
              && HasKeys(DeleteFiles(db.functionTypes, doomed), f, FunctionTypeRows(item))
              && HasBits(DeleteFiles(db.properties, doomed), f, PropertyRows(item))
    {
      var f := FileId(r.variant, ItemPath(r, item));
      ContentHoldsItem(db.records, f, r, items, RecordRows, item);
      ContentHoldsItem(db.symbolTypes, f, r, items, SymbolTypeRows, item);
      ContentHoldsItem(db.functionTypes, f, r, items, FunctionTypeRows, item);
      ContentHoldsBits(db.properties, f, r, items, item);
    }
  }

  lemma ValidHitsAreStored(db: Database, r: Request, files: map<Text, StagedFile>, requests: seq<Request>, w: nat)
    requires w < |requests| && requests[w] == r
    requires CacheSound(db, requests) && MarkedFiles(files, r) && CachedFilesValid(db, r.variant, files)
    ensures CachedStored(db, r, CachedOrdinals(files),
                         DoomedFiles(db.files, r.variant, files))
  {
    FreshFilesOrdinals(r);
    var inserted := InsertFiles(db.files, r.variant, files);
    forall i | i in CachedOrdinals(files)
      ensures i < |r.files| && Stored(db, FileId(r.variant, r.files[i].path), r, i)
      ensures FileId(r.variant, r.files[i].path) !in Doomed(inserted, r.variant, files)
    {
      var p :| p in files && files[p].cached && files[p].ordinal == Some(i);
      assert ClearCached(files)[p] == files[p].(cached := false);
      assert Hit(db, r.variant, p, files[p]);
      assert inserted[FileId(r.variant, p)] == db.files[FileId(r.variant, p)];
      assert (FileId(r.variant, p), r.files[i].fingerprint) in db.fingerprints;
    }
  }

  /** The cache is invisible: merging the abridged staging gives what the cache-free store gives. */
  lemma CachedMergeIsFullStore(db: Database, r: Request, st: Staging, requests: seq<Request>, w: nat)
    requires w < |requests| && requests[w] == r
    requires CacheSound(db, requests) && CachedFilesValid(db, r.variant, st.files)
    requires MarkedFiles(st.files, r)
    requires st.rows == StageItems(NO_ROWS, r, CachedOrdinals(st.files), r.index.Items())
    ensures Merge(db, r.variant, st) == FullStore(db, r)
  {
    var items, cached := r.index.Items(), CachedOrdinals(st.files);
    var doomed := DoomedFiles(db.files, r.variant, st.files);
    var files := MergedFiles(db.files, r.variant, st.files);
    MarksAreInvisible(st.files, FreshFiles(r), r.variant, db.files);
    ValidHitsAreStored(db, r, st.files, requests, w);
    CachedItemsCovered(db, r, cached, doomed);
    StageItemsFlat(NO_ROWS, r, cached, items);
    StageItemsFlat(NO_ROWS, r, {}, items);
    InsertWithoutCached(DeleteFiles(db.records, doomed), r, cached, RecordRows, files);
    InsertWithoutCached(DeleteFiles(db.symbolTypes, doomed), r, cached, SymbolTypeRows, files);
    InsertWithoutCached(DeleteFiles(db.functionTypes, doomed), r, cached, FunctionTypeRows, files);
    UpsertWithoutCached(DeleteFiles(db.properties, doomed), r, cached, files);
  }

  // ---- the cache-free store keeps the cache invariant ----

  lemma OwnRowIsStaged<K, V>(r: Request, item: Item, rowsOf: Item -> seq<(K, V)>, k: nat)
    requires !Skips(r, {}, item) && k < |rowsOf(item)|
    ensures First(ItemRows(r, {}, item, rowsOf), (ItemPath(r, item), rowsOf(item)[k].0)).Some?
  {
    FirstHasRow(ItemRows(r, {}, item, rowsOf), (ItemPath(r, item), rowsOf(item)[k].0));
    assert ItemRows(r, {}, item, rowsOf)[k].0 == (ItemPath(r, item), rowsOf(item)[k].0);
  }

  lemma {:induction false} ContentIsStaged<K, V>(
    r: Request, i: nat, items: seq<Item>, rowsOf: Item -> seq<(K, V)>, k: nat)
    requires i < |r.files| && k < |Content(r, i, items, rowsOf)|
    ensures First(AllRows(r, {}, items, rowsOf), (r.files[i].path, Content(r, i, items, rowsOf)[k].0)).Some?
  {
    hide First, ItemRows;
    var front, last := items[..|items| - 1], items[|items| - 1];
    var before := Content(r, i, front, rowsOf);
    var key := (r.files[i].path, Content(r, i, items, rowsOf)[k].0);
    FirstConcat(AllRows(r, {}, front, rowsOf), ItemRows(r, {}, last, rowsOf), key);
    if k < |before| {
      ContentIsStaged(r, i, front, rowsOf, k);
    } else {
      assert last.FileIndex() == i && !Skips(r, {}, last);
      OwnRowIsStaged(r, last, rowsOf, k - |before|);
    }
  }

  lemma {:induction false} ContentBitsAreStaged(r: Request, i: nat, items: seq<Item>, k: nat)
    requires i < |r.files| && k < |Content(r, i, items, PropertyRows)|
    ensures Content(r, i, items, PropertyRows)[k].1
            <= Mask(AllRows(r, {}, items, PropertyRows), (r.files[i].path, Content(r, i, items, PropertyRows)[k].0))
  {
    var front, last := items[..|items| - 1], items[|items| - 1];
    var before := Content(r, i, front, PropertyRows);
    var row := Content(r, i, items, PropertyRows)[k];
    var key := (r.files[i].path, row.0);
    MaskConcat(AllRows(r, {}, front, PropertyRows), ItemRows(r, {}, last, PropertyRows), key);
    if k < |before| {
      ContentBitsAreStaged(r, i, front, k);
    } else {
      assert ItemRows(r, {}, last, PropertyRows)[..0] == [];
      assert ItemRows(r, {}, last, PropertyRows)[0] == (key, row.1);
    }
  }

  /** A store leaves the content of every file it fingerprinted in the tables. */
  lemma FullStoreStoresContent(db: Database, r: Request, p: Text)
    requires p in FreshFiles(r) && FreshFiles(r)[p].ordinal.Some? && FreshFiles(r)[p].ordinal.value < |r.files|
    requires r.files[FreshFiles(r)[p].ordinal.value].path == p
    ensures Stored(FullStore(db, r), FileId(r.variant, p), r, FreshFiles(r)[p].ordinal.value)
  {
    var i, items, after := FreshFiles(r)[p].ordinal.value, r.index.Items(), FullStore(db, r);
    var f := FileId(r.variant, p);
    var rows := FullStaging(r).rows;
    StageItemsFlat(NO_ROWS, r, {}, items);
    assert f in after.files;
    forall k | 0 <= k < |Content(r, i, items, RecordRows)|
      ensures (f, Content(r, i, items, RecordRows)[k].0) in after.records
    {
      var key := Content(r, i, items, RecordRows)[k].0;
      ContentIsStaged(r, i, items, RecordRows, k);
      InsertRowsLookup(map[], AllRows(r, {}, items, RecordRows), (p, key));
      JoinLookup(rows.records, r.variant, after.files, (f, key));
    }
    forall k | 0 <= k < |Content(r, i, items, SymbolTypeRows)|
      ensures (f, Content(r, i, items, SymbolTypeRows)[k].0) in after.symbolTypes
    {
      var key := Content(r, i, items, SymbolTypeRows)[k].0;
      ContentIsStaged(r, i, items, SymbolTypeRows, k);
      InsertRowsLookup(map[], AllRows(r, {}, items, SymbolTypeRows), (p, key));
      JoinLookup(rows.symbolTypes, r.variant, after.files, (f, key));
    }
    forall k | 0 <= k < |Content(r, i, items, FunctionTypeRows)|
      ensures (f, Content(r, i, items, FunctionTypeRows)[k].0) in after.functionTypes
    {
      var key := Content(r, i, items, FunctionTypeRows)[k].0;
      ContentIsStaged(r, i, items, FunctionTypeRows, k);
      InsertRowsLookup(map[], AllRows(r, {}, items, FunctionTypeRows), (p, key));
      JoinLookup(rows.functionTypes, r.variant, after.files, (f, key));
    }
    forall k | 0 <= k < |Content(r, i, items, PropertyRows)|
      ensures (f, Content(r, i, items, PropertyRows)[k].0) in after.properties
      ensures Content(r, i, items, PropertyRows)[k].1 <= after.properties[(f, Content(r, i, items, PropertyRows)[k].0)]
    {
      var key := Content(r, i, items, PropertyRows)[k].0;
      ContentIsStaged(r, i, items, PropertyRows, k);
      ContentBitsAreStaged(r, i, items, k);
      OrRowsLookup(map[], AllRows(r, {}, items, PropertyRows), (p, key));
      JoinLookup(rows.properties, r.variant, after.files, (f, key));
    }
  }

  ghost predicate AllAgree(requests: seq<Request>) {
    forall v, w | 0 <= v < |requests| && 0 <= w < |requests| :: Agree(requests[v], requests[w])
  }

  lemma KeysStay<K, V>(t: FileTable<K, V>, doomed: set<FileId>, staged: PathTable<K, V>, variant: Text,
                       files: map<FileId, FileMeta>, f: FileId, rows: seq<(K, V)>)
    requires HasKeys(t, f, rows) && f !in doomed
    ensures HasKeys(MergeTable(t, doomed, staged, variant, files), f, rows)
  {
  }

  lemma BitsStay(t: FileTable<PropertyKey, Bits>, doomed: set<FileId>, staged: PathTable<PropertyKey, Bits>,
                 variant: Text, files: map<FileId, FileMeta>, f: FileId, rows: seq<(PropertyKey, Bits)>)
    requires HasBits(t, f, rows) && f !in doomed
    ensures HasBits(MergeProperties(t, doomed, staged, variant, files), f, rows)
  {
  }

  /** Content stored for a file that the store does not delete stays stored. */
  lemma StoredStays(db: Database, variant: Text, st: Staging, f: FileId, q: Request, j: nat)
    requires Stored(db, f, q, j) && f !in DoomedFiles(db.files, variant, st.files)
    ensures Stored(Merge(db, variant, st), f, q, j)
  {
    var items := q.index.Items();
    var doomed, files := DoomedFiles(db.files, variant, st.files), MergedFiles(db.files, variant, st.files);
    KeysStay(db.records, doomed, st.rows.records, variant, files, f, Content(q, j, items, RecordRows));
    KeysStay(db.symbolTypes, doomed, st.rows.symbolTypes, variant, files, f, Content(q, j, items, SymbolTypeRows));
    KeysStay(db.functionTypes, doomed, st.rows.functionTypes, variant, files, f,
             Content(q, j, items, FunctionTypeRows));
    BitsStay(db.properties, doomed, st.rows.properties, variant, files, f, Content(q, j, items, PropertyRows));
  }

  /** A fingerprint in the tables after a store was there and kept, or is one this store staged. */
  lemma FingerprintOrigin(db: Database, r: Request, f: FileId, fp: Fingerprint)
    requires (f, fp) in FullStore(db, r).fingerprints
    ensures || ((f, fp) in db.fingerprints
                && f !in DoomedFiles(db.files, r.variant, FreshFiles(r)))
            || (f.variant == r.variant && f.path in FreshFiles(r) && FreshFiles(r)[f.path].fingerprint == Some(fp))
    ensures f in db.files || (f.variant == r.variant && f.path in FreshFiles(r)) || (f, fp) in db.fingerprints
  {
    JoinLookup(StagedFingerprints(FreshFiles(r)), r.variant, FullStore(db, r).files, (f, fp));
  }

  /** Committing a store keeps the cache invariant. */
  lemma FullStoreKeepsCacheSound(db: Database, requests: seq<Request>, w: nat)
    requires w < |requests| && AllAgree(requests) && CacheSound(db, requests)
    ensures CacheSound(FullStore(db, requests[w]), requests)
  {
    var r, after := requests[w], FullStore(db, requests[w]);
    FreshFilesOrdinals(r);
    forall f, fp | (f, fp) in after.fingerprints
      ensures f in after.files
      ensures forall v, j | 0 <= v < |requests| && 0 <= j < |requests[v].files|
                            && requests[v].files[j].fingerprint == fp :: Stored(after, f, requests[v], j)
    {
      FingerprintOrigin(db, r, f, fp);
      forall v, j | 0 <= v < |requests| && 0 <= j < |requests[v].files| && requests[v].files[j].fingerprint == fp
        ensures Stored(after, f, requests[v], j)
      {
        FingerprintVouches(db, requests, w, f, fp, v, j);
      }
    }
  }

  lemma FingerprintVouches(db: Database, requests: seq<Request>, w: nat, f: FileId, fp: Fingerprint, v: nat, j: nat)
    requires w < |requests| && AllAgree(requests) && CacheSound(db, requests)
    requires (f, fp) in FullStore(db, requests[w]).fingerprints
    requires v < |requests| && j < |requests[v].files| && requests[v].files[j].fingerprint == fp
    ensures Stored(FullStore(db, requests[w]), f, requests[v], j)
  {
    var r := requests[w];
    FingerprintOrigin(db, r, f, fp);
    FreshFilesOrdinals(r);
    if f.variant == r.variant && f.path in FreshFiles(r) && FreshFiles(r)[f.path].fingerprint == Some(fp) {
      var i := FreshFiles(r)[f.path].ordinal.value;
      FullStoreStoresContent(db, r, f.path);
      assert Agree(r, requests[v]);
      assert SameContent(r, i, requests[v], j);
    } else {
      StoredStays(db, r.variant, FullStaging(r), f, requests[v], j);
    }
  }
}
