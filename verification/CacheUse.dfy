/** When the cache is used: which files a store leaves out. */
module CacheUse {
  import opened Wrappers
  import opened Index
  import opened Tables
  import opened Staging
  import opened CacheSoundness
  import opened StoreResults
  import opened StagedFiles

  /** The database has the file with this fingerprint, unchanged since, and its modification time is known. */
  ghost predicate KnownUnchanged(db: Database, r: Request, path: Text) {
    var f := FileId(r.variant, path);
    && f in db.files && SeenBy(r, path, db.files[f].mtime, db.files[f].size) && db.files[f].mtime != 0
    && exists fp :: FingerprintOf(r, path, fp) && (f, fp) in db.fingerprints
  }

  /** A file is left out exactly when the database knows it unchanged; the main file never is. */
  lemma StageMarks(db: Database, r: Request, path: Text)
    ensures path in Stage(r, db).files && Stage(r, db).files[path].cached <==> KnownUnchanged(db, r, path)
  {
    StagedFileIs(r, path);
    FreshFilesOrdinals(r);
    hide FreshFiles, SeenBy, FingerprintOf, IsMainPath, StageItems;
    var f := FileId(r.variant, path);
    if path in FreshFiles(r) {
      var s := FreshFiles(r)[path];
      assert f in db.files && db.files[f] == s.meta ==> SeenBy(r, path, db.files[f].mtime, db.files[f].size);
      assert KnownUnchanged(db, r, path) ==> s.fingerprint.Some?;
    }
  }

  lemma CachedOrdinal(db: Database, r: Request, path: Text, i: nat)
    requires KnownUnchanged(db, r, path) && LastEntry(r, path, i) && !NamesMain(r, path)
    ensures i in CachedOrdinals(Stage(r, db).files)
  {
    StageMarks(db, r, path);
    var j := EntriesOf(r, |r.files|, path);
    hide StageEntries, SeenBy, FingerprintOf, StageItems;
    EntriesAreStaged(r, |r.files|, i);
    OneLastEntry(r, path, i, j);
  }

  /** A store of what was stored just before leaves out every file but the main one, as far as the modification times
      are known. */
  lemma RepeatedStoreIsCached(db: Database, r: Request, path: Text, i: nat, mtime: int, size: int)
    requires HasFiles(db) && LastEntry(r, path, i) && !IsMainPath(r, path)
    requires SeenBy(r, path, mtime, size) && mtime != 0
    ensures KnownUnchanged(FullStore(db, r), r, path)
    ensures i in CachedOrdinals(Stage(r, FullStore(db, r)).files)
  {
    var f, after, fp := FileId(r.variant, path), FullStore(db, r), r.files[i].fingerprint;
    StagedFileIs(r, path);
    assert FingerprintOf(r, path, fp);
    assert !NamesMain(r, path);
    FullStoreIsStoreOf(db, r);
    hide FreshFiles, SeenBy, FingerprintOf, IsMainPath, FullStore, LastEntry, FilesOf, HasFiles;
    FilesAfter(db, r, f);
    HasFingerprintFile(db, f, fp);
    FingerprintAfter(db, r, after, f, fp);
    CachedOrdinal(after, r, path, i);
  }

  lemma HasFingerprintFile(db: Database, f: FileId, fp: Fingerprint)
    requires HasFiles(db)
    ensures (f, fp) in db.fingerprints ==> f in db.files
  {
  }
}
