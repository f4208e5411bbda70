/** Results about whole runs of the writers, and about the commit order. */
module WriterRuns {
  import opened Wrappers
  import opened Index
  import opened Tables
  import opened Staging
  import opened RowLemmas
  import opened CacheSoundness
  import opened WriterProtocol
  import opened StoreResults
  import opened StagedFiles

  const EMPTY := Database(map[], map[], map[], map[], map[], map[])

  // ---- freshness ----

  /** The request's stat() of f gave exactly this modification time and size. */
  ghost predicate StagedAs(r: Request, f: FileId, meta: FileMeta) {
    f.variant == r.variant && SeenBy(r, f.path, meta.mtime, meta.size)
  }

  lemma StagedAsNow(r: Request, f: FileId)
    requires Touched(r, f)
    ensures StagedAs(r, f, FreshFiles(r)[f.path].meta)
  {
    hide SeenBy, FreshFiles;
    StagedFileIs(r, f.path);
  }

  /** Some logged store staged f as it is now, and staged this row for it. */
  ghost predicate RowContributed<K, V>(requests: seq<Request>, log: seq<nat>, f: FileId, meta: FileMeta,
                                       rowsOf: Item -> seq<(K, V)>, k: K, value: Option<V>)
  {
    exists i ::
      && 0 <= i < |log| && log[i] < |requests| && StagedAs(requests[log[i]], f, meta)
      && StagedRow(requests[log[i]], f, rowsOf, k, value)
  }

  ghost predicate StagedRow<K, V>(r: Request, f: FileId, rowsOf: Item -> seq<(K, V)>, k: K, value: Option<V>) {
    var row := First(AllRows(r, {}, r.index.Items(), rowsOf), (f.path, k));
    row.Some? && (value.Some? ==> row == value)
  }

  /** exact also asks for the columns outside the key. */
  ghost predicate FreshRows<K, V>(t: FileTable<K, V>, files: map<FileId, FileMeta>, requests: seq<Request>,
                                  log: seq<nat>, rowsOf: Item -> seq<(K, V)>, exact: bool)
  {
    forall key | key in t ::
      && key.0 in files
      && RowContributed(requests, log, key.0, files[key.0], rowsOf, key.1, if exact then Some(t[key]) else None)
  }

  ghost predicate BitContributed(requests: seq<Request>, log: seq<nat>, f: FileId, meta: FileMeta, k: PropertyKey,
                                 b: nat)
  {
    exists i ::
      && 0 <= i < |log| && log[i] < |requests| && StagedAs(requests[log[i]], f, meta)
      && b in Mask(AllRows(requests[log[i]], {}, requests[log[i]].index.Items(), PropertyRows), (f.path, k))
  }

  ghost predicate FreshBits(db: Database, requests: seq<Request>, log: seq<nat>) {
    forall key, b | key in db.properties && b in db.properties[key] ::
      key.0 in db.files && BitContributed(requests, log, key.0, db.files[key.0], key.1, b)
  }

  ghost predicate FingerprintContributed(requests: seq<Request>, log: seq<nat>, f: FileId, meta: FileMeta,
                                         fp: Fingerprint)
  {
    exists i ::
      && 0 <= i < |log| && log[i] < |requests| && StagedAs(requests[log[i]], f, meta)
      && FingerprintOf(requests[log[i]], f.path, fp)
  }

  ghost predicate FreshFingerprints(db: Database, requests: seq<Request>, log: seq<nat>) {
    forall f, fp | (f, fp) in db.fingerprints ::
      f in db.files && FingerprintContributed(requests, log, f, db.files[f], fp)
  }

  /** Every row and fingerprint of a file comes from a store that staged exactly the (mtime, size) the file's row
      holds now. */
  ghost predicate Fresh(db: Database, requests: seq<Request>, log: seq<nat>, exact: bool) {
    && FreshRows(db.records, db.files, requests, log, RecordRows, exact)
    && FreshRows(db.symbolTypes, db.files, requests, log, SymbolTypeRows, exact)
    && FreshRows(db.functionTypes, db.files, requests, log, FunctionTypeRows, exact)
    && FreshRows(db.properties, db.files, requests, log, PropertyRows, false)
    && FreshBits(db, requests, log)
    && FreshFingerprints(db, requests, log)
  }

  lemma LaterLog<K, V>(requests: seq<Request>, log: seq<nat>, w: nat, f: FileId, meta: FileMeta,
                       rowsOf: Item -> seq<(K, V)>, k: K, value: Option<V>)
    requires RowContributed(requests, log, f, meta, rowsOf, k, value)
    ensures RowContributed(requests, log + [w], f, meta, rowsOf, k, value)
  {
    var i :| && 0 <= i < |log| && log[i] < |requests| && StagedAs(requests[log[i]], f, meta)
             && StagedRow(requests[log[i]], f, rowsOf, k, value);
    assert (log + [w])[i] == log[i];
  }

  lemma NewRow<K, V>(requests: seq<Request>, log: seq<nat>, w: nat, f: FileId, meta: FileMeta,
                     rowsOf: Item -> seq<(K, V)>, k: K, value: Option<V>)
    requires w < |requests| && StagedAs(requests[w], f, meta) && StagedRow(requests[w], f, rowsOf, k, value)
    ensures RowContributed(requests, log + [w], f, meta, rowsOf, k, value)
  {
    assert (log + [w])[|log|] == w;
  }

  /** A file whose rows are kept has the metadata it had. */
  lemma KeptMeta(db: Database, r: Request, f: FileId)
    requires f in db.files && Keeps(db, r, f)
    ensures f in FilesOf(db, r) && FilesOf(db, r)[f] == db.files[f]
  {
    FilesAfter(db, r, f);
  }

  /** A file that gets a staged row was staged. */
  lemma AddedIsTouched<K, V>(db: Database, r: Request, rowsOf: Item -> seq<(K, V)>, key: (FileId, K))
    requires WellFormed(r) && NamedFiles(db)
    requires key.0.variant == r.variant && key.0 in FilesOf(db, r)
    requires First(AllRows(r, {}, r.index.Items(), rowsOf), (key.0.path, key.1)).Some?
    ensures Touched(r, key.0)
  {
    FilesAfter(db, r, key.0);
    StagedRowsHaveFiles(r, r.index.Items(), rowsOf, (key.0.path, key.1));
    StagedPathsAreNamed(r, |r.files|);
  }

  lemma FreshRow<K, V>(db: Database, requests: seq<Request>, log: seq<nat>, w: nat, t: FileTable<K, V>,
                       rowsOf: Item -> seq<(K, V)>, exact: bool, key: (FileId, K))
    requires w < |requests| && WellFormed(requests[w]) && NamedFiles(db)
    requires FreshRows(t, db.files, requests, log, rowsOf, exact)
    requires key in TableAfter(db, requests[w], t, rowsOf)
    ensures var after, files := TableAfter(db, requests[w], t, rowsOf), FilesOf(db, requests[w]);
            && key.0 in files
            && RowContributed(requests, log + [w], key.0, files[key.0], rowsOf, key.1,
                              if exact then Some(after[key]) else None)
  {
    var r := requests[w];
    RowAfter(db, r, t, rowsOf, key);
    FilesAfter(db, r, key.0);
    if key in t && Keeps(db, r, key.0) {
      KeptMeta(db, r, key.0);
      LaterLog(requests, log, w, key.0, db.files[key.0], rowsOf, key.1, if exact then Some(t[key]) else None);
    } else {
      var value := First(AllRows(r, {}, r.index.Items(), rowsOf), (key.0.path, key.1)).value;
      AddedIsTouched(db, r, rowsOf, key);
      StagedAsNow(r, key.0);
      NewRow(requests, log, w, key.0, FilesOf(db, r)[key.0], rowsOf, key.1, if exact then Some(value) else None);
    }
  }

  lemma FreshTable<K, V>(db: Database, requests: seq<Request>, log: seq<nat>, w: nat, t: FileTable<K, V>,
                         rowsOf: Item -> seq<(K, V)>, exact: bool)
    requires w < |requests| && WellFormed(requests[w]) && NamedFiles(db)
    requires FreshRows(t, db.files, requests, log, rowsOf, exact)
    ensures FreshRows(TableAfter(db, requests[w], t, rowsOf), FilesOf(db, requests[w]), requests, log + [w], rowsOf,
                      exact)
  {
    forall key | key in TableAfter(db, requests[w], t, rowsOf)
      ensures var after, files := TableAfter(db, requests[w], t, rowsOf), FilesOf(db, requests[w]);
              && key.0 in files
              && RowContributed(requests, log + [w], key.0, files[key.0], rowsOf, key.1,
                                if exact then Some(after[key]) else None)
    {
      FreshRow(db, requests, log, w, t, rowsOf, exact, key);
    }
  }

  lemma FreshPropertyRows(db: Database, requests: seq<Request>, log: seq<nat>, w: nat)
    requires w < |requests| && WellFormed(requests[w]) && NamedFiles(db)
    requires FreshRows(db.properties, db.files, requests, log, PropertyRows, false)
    ensures FreshRows(PropertiesOf(db, requests[w]), FilesOf(db, requests[w]), requests, log + [w], PropertyRows, false)
  {
    var r := requests[w];
    forall key | key in PropertiesOf(db, r)
      ensures key.0 in FilesOf(db, r)
      ensures RowContributed(requests, log + [w], key.0, FilesOf(db, r)[key.0], PropertyRows, key.1, None)
    {
      PropertiesAfter(db, r, key);
      FilesAfter(db, r, key.0);
      if key in db.properties && Keeps(db, r, key.0) {
        KeptMeta(db, r, key.0);
        LaterLog(requests, log, w, key.0, db.files[key.0], PropertyRows, key.1, None);
      } else {
        AddedIsTouched(db, r, PropertyRows, key);
        StagedAsNow(r, key.0);
        NewRow(requests, log, w, key.0, FilesOf(db, r)[key.0], PropertyRows, key.1, None);
      }
    }
  }

  lemma LaterBit(requests: seq<Request>, log: seq<nat>, w: nat, f: FileId, meta: FileMeta, k: PropertyKey, b: nat)
    requires BitContributed(requests, log, f, meta, k, b)
    ensures BitContributed(requests, log + [w], f, meta, k, b)
  {
    var i :| && 0 <= i < |log| && log[i] < |requests| && StagedAs(requests[log[i]], f, meta)
             && b in Mask(AllRows(requests[log[i]], {}, requests[log[i]].index.Items(), PropertyRows), (f.path, k));
    assert (log + [w])[i] == log[i];
  }

  lemma NewBit(requests: seq<Request>, log: seq<nat>, w: nat, f: FileId, meta: FileMeta, k: PropertyKey, b: nat)
    requires w < |requests| && StagedAs(requests[w], f, meta)
    requires b in Mask(AllRows(requests[w], {}, requests[w].index.Items(), PropertyRows), (f.path, k))
    ensures BitContributed(requests, log + [w], f, meta, k, b)
  {
    assert (log + [w])[|log|] == w;
  }

  lemma FreshBit(db: Database, requests: seq<Request>, log: seq<nat>, w: nat, key: (FileId, PropertyKey), b: nat)
    requires w < |requests| && WellFormed(requests[w]) && NamedFiles(db) && HasFiles(db)
    requires FreshBits(db, requests, log)
    requires key in PropertiesOf(db, requests[w]) && b in PropertiesOf(db, requests[w])[key]
    ensures key.0 in FilesOf(db, requests[w])
    ensures BitContributed(requests, log + [w], key.0, FilesOf(db, requests[w])[key.0], key.1, b)
  {
    var r := requests[w];
    var rows := AllRows(r, {}, r.index.Items(), PropertyRows);
    PropertiesAfter(db, r, key);
    FilesAfter(db, r, key.0);
    if key in db.properties && Keeps(db, r, key.0) && b in db.properties[key] {
      KeptMeta(db, r, key.0);
      LaterBit(requests, log, w, key.0, db.files[key.0], key.1, b);
    } else {
      assert b in Mask(rows, (key.0.path, key.1));
      OrRowsLookup(map[], rows, (key.0.path, key.1));
      AddedIsTouched(db, r, PropertyRows, key);
      StagedAsNow(r, key.0);
      NewBit(requests, log, w, key.0, FilesOf(db, r)[key.0], key.1, b);
    }
  }

  lemma FreshPropertyBits(db: Database, requests: seq<Request>, log: seq<nat>, w: nat, after: Database)
    requires w < |requests| && WellFormed(requests[w]) && NamedFiles(db) && HasFiles(db)
    requires StoreOf(db, requests[w], after) && FreshBits(db, requests, log)
    ensures FreshBits(after, requests, log + [w])
  {
    forall key, b | key in after.properties && b in after.properties[key]
      ensures key.0 in after.files && BitContributed(requests, log + [w], key.0, after.files[key.0], key.1, b)
    {
      FreshBit(db, requests, log, w, key, b);
    }
  }

  lemma FreshFingerprint(db: Database, requests: seq<Request>, log: seq<nat>, w: nat, after: Database, f: FileId,
                         fp: Fingerprint)
    requires w < |requests| && HasFiles(db) && StoreOf(db, requests[w], after) && FreshFingerprints(db, requests, log)
    requires (f, fp) in after.fingerprints
    ensures f in after.files && FingerprintContributed(requests, log + [w], f, after.files[f], fp)
  {
    hide FreshFiles, FilesOf, TableAfter, PropertiesOf, MergeTable, DoomedBy, SeenBy, FingerprintOf;
    var r := requests[w];
    FingerprintAfter(db, r, after, f, fp);
    FilesAfter(db, r, f);
    if (f, fp) in db.fingerprints && Keeps(db, r, f) {
      KeptMeta(db, r, f);
      var i :| && 0 <= i < |log| && log[i] < |requests| && StagedAs(requests[log[i]], f, db.files[f])
               && FingerprintOf(requests[log[i]], f.path, fp);
      assert (log + [w])[i] == log[i];
    } else {
      StagedAsNow(r, f);
      StagedFileIs(r, f.path);
      assert (log + [w])[|log|] == w;
    }
  }

  lemma FreshFingerprintRows(db: Database, requests: seq<Request>, log: seq<nat>, w: nat, after: Database)
    requires w < |requests| && HasFiles(db) && StoreOf(db, requests[w], after) && FreshFingerprints(db, requests, log)
    ensures FreshFingerprints(after, requests, log + [w])
  {
    forall f, fp | (f, fp) in after.fingerprints
      ensures f in after.files && FingerprintContributed(requests, log + [w], f, after.files[f], fp)
    {
      FreshFingerprint(db, requests, log, w, after, f, fp);
    }
  }

  lemma StoreKeepsFresh(db: Database, requests: seq<Request>, log: seq<nat>, w: nat, after: Database)
    requires w < |requests| && WellFormed(requests[w]) && NamedFiles(db) && HasFiles(db)
    requires StoreOf(db, requests[w], after) && Fresh(db, requests, log, true)
    ensures Fresh(after, requests, log + [w], true)
  {
    FreshTable(db, requests, log, w, db.records, RecordRows, true);
    FreshTable(db, requests, log, w, db.symbolTypes, SymbolTypeRows, true);
    FreshTable(db, requests, log, w, db.functionTypes, FunctionTypeRows, true);
    FreshPropertyRows(db, requests, log, w);
    FreshPropertyBits(db, requests, log, w, after);
    FreshFingerprintRows(db, requests, log, w, after);
  }

  lemma {:induction false} ReplayIsFresh(requests: seq<Request>, log: seq<nat>)
    requires forall r | r in requests :: WellFormed(r)
    requires forall i | 0 <= i < |log| :: log[i] < |requests|
    ensures var db := Replay(requests, EMPTY, log);
            HasFiles(db) && NamedFiles(db) && Fresh(db, requests, log, true)
  {
    if log != [] {
      var front, w := log[..|log| - 1], log[|log| - 1];
      assert log == front + [w];
      assert requests[w] in requests;
      ReplayIsFresh(requests, front);
      var before := Replay(requests, EMPTY, front);
      FullStoreKeepsHasFiles(before, requests[w]);
      FullStoreKeepsNamed(before, requests[w]);
      FullStoreIsStoreOf(before, requests[w]);
      StoreKeepsFresh(before, requests, front, w, FullStore(before, requests[w]));
    }
  }

  lemma FreshKeys<K, V>(a: FileTable<K, V>, b: FileTable<K, V>, files: map<FileId, FileMeta>, requests: seq<Request>,
                        log: seq<nat>, rowsOf: Item -> seq<(K, V)>)
    requires a.Keys == b.Keys && FreshRows(b, files, requests, log, rowsOf, true)
    ensures FreshRows(a, files, requests, log, rowsOf, false)
  {
    forall key | key in a
      ensures key.0 in files && RowContributed(requests, log, key.0, files[key.0], rowsOf, key.1, None)
    {
      assert key in b.Keys;
      var i :| && 0 <= i < |log| && log[i] < |requests| && StagedAs(requests[log[i]], key.0, files[key.0])
               && StagedRow(requests[log[i]], key.0, rowsOf, key.1, Some(b[key]));
      assert StagedRow(requests[log[i]], key.0, rowsOf, key.1, None);
    }
  }

  /** Freshness over whole runs that start with an empty index: for keys, masks and fingerprints always, for the
      other columns when no path is shared by two file indexes. */
  lemma RunsAreFresh(requests: seq<Request>, steps: seq<Step>)
    requires AllAgree(requests) && forall r | r in requests :: WellFormed(r)
    ensures var s := Run(requests, Start(requests, EMPTY), steps);
            && Fresh(s.db, requests, s.log, false)
            && ((forall r | r in requests :: DistinctPaths(r)) ==> Fresh(s.db, requests, s.log, true))
  {
    var s := Run(requests, Start(requests, EMPTY), steps);
    RunKeepsInv(requests, EMPTY, steps);
    LogIsInRange(requests, s);
    ReplayIsFresh(requests, s.log);
    var db := Replay(requests, EMPTY, s.log);
    FreshKeys(s.db.records, db.records, db.files, requests, s.log, RecordRows);
    FreshKeys(s.db.symbolTypes, db.symbolTypes, db.files, requests, s.log, SymbolTypeRows);
    FreshKeys(s.db.functionTypes, db.functionTypes, db.files, requests, s.log, FunctionTypeRows);
  }

  lemma LogIsInRange(requests: seq<Request>, s: System)
    requires PhasesInv(requests, s)
    ensures forall i | 0 <= i < |s.log| :: s.log[i] < |requests|
  {
  }

  // ---- one commit within a run ----

  ghost predicate HoldsKeys<K(!new), V>(t: FileTable<K, V>, f: FileId, rows: seq<((Text, K), V)>) {
    forall k: K :: (f, k) in t <==> First(rows, (f.path, k)).Some?
  }

  /** Replacement of f's rows, up to the columns outside the keys. */
  ghost predicate ReplacedRowKeys(after: Database, r: Request, f: FileId) {
    && HoldsKeys(after.records, f, AllRows(r, {}, r.index.Items(), RecordRows))
    && HoldsKeys(after.symbolTypes, f, AllRows(r, {}, r.index.Items(), SymbolTypeRows))
    && HoldsKeys(after.functionTypes, f, AllRows(r, {}, r.index.Items(), FunctionTypeRows))
    && HoldsMasks(after.properties, f, AllRows(r, {}, r.index.Items(), PropertyRows))
  }

  ghost predicate ReplacedKeys(after: Database, r: Request, f: FileId) {
    ReplacedRowKeys(after, r, f) && forall fp :: (f, fp) !in after.fingerprints
  }

  lemma ReplacedUpToKeys(a: Database, b: Database, r: Request, f: FileId)
    requires SameKeys(a, b) && ReplacedRows(b, r, f)
    ensures ReplacedRowKeys(a, r, f)
  {
    forall k ensures (f, k) in a.records <==> First(AllRows(r, {}, r.index.Items(), RecordRows), (f.path, k)).Some? {
      assert (f, k) in a.records.Keys <==> (f, k) in b.records.Keys;
    }
    forall k
      ensures (f, k) in a.functionTypes <==>
                First(AllRows(r, {}, r.index.Items(), FunctionTypeRows), (f.path, k)).Some?
    {
      assert (f, k) in a.functionTypes.Keys <==> (f, k) in b.functionTypes.Keys;
    }
  }

  /** Whichever attempt of whichever run commits, it replaces the writer's main file. */
  lemma CommitReplacesMain(requests: seq<Request>, steps: seq<Step>, step: Step, f: FileId)
    requires AllAgree(requests) && (forall r | r in requests :: WellFormed(r)) && step.writer < |requests|
    requires f.variant == requests[step.writer].variant && IsMainPath(requests[step.writer], f.path)
    ensures var s := Run(requests, Start(requests, EMPTY), steps);
            var after := Next(requests, s, step);
            |s.phases| == |after.phases| == |requests|
            && (!s.phases[step.writer].Committed? && after.phases[step.writer].Committed? ==>
                  && ReplacedKeys(after.db, requests[step.writer], f)
                  && (DistinctPaths(requests[step.writer]) ==> Replaced(after.db, requests[step.writer], f)))
  {
    var s := Run(requests, Start(requests, EMPTY), steps);
    var w, r, after := step.writer, requests[step.writer], Next(requests, s, step);
    RunKeepsInv(requests, EMPTY, steps);
    assert PhaseInv(s.phases[w], r);
    if !s.phases[w].Committed? && after.phases[w].Committed? {
      CommitIsFullStore(requests, s.db, w, s.phases[w].staging);
      RunHasFiles(requests, steps);
      MainReplacement(s.db, r, f);
      ReplacedUpToKeys(after.db, FullStore(s.db, r), r, f);
    }
  }

  /** And every file that it found with another modification time or size than the database has at that moment. */
  lemma CommitReplacesChanged(requests: seq<Request>, steps: seq<Step>, step: Step, f: FileId)
    requires AllAgree(requests) && (forall r | r in requests :: WellFormed(r)) && step.writer < |requests|
    requires Changed(Run(requests, Start(requests, EMPTY), steps).db, requests[step.writer], f)
    ensures var s := Run(requests, Start(requests, EMPTY), steps);
            var after := Next(requests, s, step);
            |s.phases| == |after.phases| == |requests|
            && (!s.phases[step.writer].Committed? && after.phases[step.writer].Committed? ==>
                  && ReplacedRowKeys(after.db, requests[step.writer], f)
                  && OwnFingerprints(after.db, requests[step.writer], f)
                  && (DistinctPaths(requests[step.writer]) ==> ReplacedRows(after.db, requests[step.writer], f)))
  {
    var s := Run(requests, Start(requests, EMPTY), steps);
    var w, r, after := step.writer, requests[step.writer], Next(requests, s, step);
    RunKeepsInv(requests, EMPTY, steps);
    assert PhaseInv(s.phases[w], r);
    if !s.phases[w].Committed? && after.phases[w].Committed? {
      CommitIsFullStore(requests, s.db, w, s.phases[w].staging);
      RunHasFiles(requests, steps);
      ChangedReplacement(s.db, r, f);
      ReplacedUpToKeys(after.db, FullStore(s.db, r), r, f);
    }
  }

  lemma RunHasFiles(requests: seq<Request>, steps: seq<Step>)
    requires AllAgree(requests) && forall r | r in requests :: WellFormed(r)
    ensures HasFiles(Run(requests, Start(requests, EMPTY), steps).db)
  {
    var s := Run(requests, Start(requests, EMPTY), steps);
    RunKeepsInv(requests, EMPTY, steps);
    ReplayIsFresh(requests, s.log);
    var db := Replay(requests, EMPTY, s.log);
    assert forall key | key in s.db.records.Keys :: key in db.records.Keys;
    assert forall key | key in s.db.functionTypes.Keys :: key in db.functionTypes.Keys;
  }

  // ---- the frame of the merge that runs ----

  lemma MergeKeepsRows<K(!new), V>(t: FileTable<K, V>, doomed: set<FileId>, staged: PathTable<K, V>, variant: Text,
                                   files: map<FileId, FileMeta>, f: FileId)
    requires f !in doomed
    ensures forall k: K | (f, k) in t ::
              (f, k) in MergeTable(t, doomed, staged, variant, files)
              && MergeTable(t, doomed, staged, variant, files)[(f, k)] == t[(f, k)]
  {
  }

  /** A file that keeps its keys and is not among those whose rows are deleted keeps its rows. */
  lemma KeptRows<K(!new), V>(t: FileTable<K, V>, full: FileTable<K, V>, merged: FileTable<K, V>, f: FileId)
    requires SameRows(t, full, f) && merged.Keys == full.Keys
    requires forall k: K | (f, k) in t :: (f, k) in merged && merged[(f, k)] == t[(f, k)]
    ensures SameRows(t, merged, f)
  {
    forall k: K ensures ((f, k) in t <==> (f, k) in merged) && ((f, k) in t ==> t[(f, k)] == merged[(f, k)]) {
      assert (f, k) in merged.Keys <==> (f, k) in full.Keys;
    }
  }

  lemma ElsewhereIsNotDoomed(r: Request, files: map<Text, StagedFile>, stored: map<FileId, FileMeta>, f: FileId)
    requires Elsewhere(r, f) && ClearCached(files) == FreshFiles(r)
    ensures f !in DoomedFiles(stored, r.variant, files)
  {
    assert files.Keys == ClearCached(files).Keys;
  }

  lemma MergeFrame(requests: seq<Request>, db: Database, w: nat, st: Staging, f: FileId)
    requires w < |requests| && CacheSound(db, requests) && HasFiles(db) && Elsewhere(requests[w], f)
    requires CachedFilesValid(db, requests[w].variant, st.files)
    requires AbridgedStaging(st, requests[w]) || RetryStaging(st, requests[w])
    ensures SameFile(db, Merge(db, requests[w].variant, st), f)
  {
    var r := requests[w];
    var full, merged := FullStore(db, r), Merge(db, r.variant, st);
    CommitIsFullStore(requests, db, w, st);
    StoreFrame(db, r, f);
    StagedFilesAreFresh(st, r);
    ElsewhereIsNotDoomed(r, st.files, db.files, f);
    var doomed, files := DoomedFiles(db.files, r.variant, st.files), MergedFiles(db.files, r.variant, st.files);
    MergeKeepsRows(db.records, doomed, st.rows.records, r.variant, files, f);
    MergeKeepsRows(db.functionTypes, doomed, st.rows.functionTypes, r.variant, files, f);
    hide FullStore, Elsewhere, HasFiles, CacheSound, MergeTable, SameRows, DoomedFiles, MergedFiles;
    KeptRows(db.records, full.records, merged.records, f);
    KeptRows(db.functionTypes, full.functionTypes, merged.functionTypes, f);
  }

  lemma StagedFilesAreFresh(st: Staging, r: Request)
    requires AbridgedStaging(st, r) || RetryStaging(st, r)
    ensures ClearCached(st.files) == FreshFiles(r)
  {
    if !AbridgedStaging(st, r) {
      var first :| AbridgedStaging(first, r) && st == Restage(r, first);
      assert ClearCached(ClearCached(first.files)) == ClearCached(first.files);
    }
  }

  lemma NextFrame(requests: seq<Request>, s: System, step: Step, f: FileId)
    requires step.writer < |requests| == |s.phases| && Elsewhere(requests[step.writer], f)
    requires CacheSound(s.db, requests) && HasFiles(s.db) && PhaseInv(s.phases[step.writer], requests[step.writer])
    ensures SameFile(s.db, Next(requests, s, step).db, f)
  {
    hide Merge, HasFiles, CacheSound, Elsewhere, Stage, Restage, AbridgedStaging, RetryStaging, CachedFilesValid;
    var w := step.writer;
    if ((step.MergeStep? && s.phases[w].Staged?) || (step.RemergeStep? && s.phases[w].Restaged?))
       && CachedFilesValid(s.db, requests[w].variant, s.phases[w].staging.files)
    {
      MergeFrame(requests, s.db, w, s.phases[w].staging, f);
      hide SameFile;
    }
  }

  /** In every reachable state no step of a writer, whichever merge it is, changes anything about files of other
      variants or files that the writer did not stage. */
  lemma StepFrame(requests: seq<Request>, steps: seq<Step>, step: Step, f: FileId)
    requires AllAgree(requests) && (forall r | r in requests :: WellFormed(r)) && step.writer < |requests|
    requires Elsewhere(requests[step.writer], f)
    ensures var s := Run(requests, Start(requests, EMPTY), steps);
            SameFile(s.db, Next(requests, s, step).db, f)
  {
    RunKeepsInv(requests, EMPTY, steps);
    RunHasFiles(requests, steps);
    var s := Run(requests, Start(requests, EMPTY), steps);
    assert PhaseInv(s.phases[step.writer], requests[step.writer]);
    hide Run, Next, HasFiles, CacheSound, Elsewhere, PhaseInv, WellFormed, AllAgree, Start, SameFile, SameKeys, Replay;
    NextFrame(requests, s, step, f);
  }

  // ---- commit order ----

  /** Neither store stages the other's main file, and they staged shared files alike. */
  ghost predicate Compatible(a: Request, b: Request) {
    && a.variant == b.variant
    && forall p | p in FreshFiles(a) && p in FreshFiles(b) ::
         && !FreshFiles(a)[p].isMain && !FreshFiles(b)[p].isMain
         && FreshFiles(a)[p].meta == FreshFiles(b)[p].meta
  }

  /** Whether a key is in a table after a then b, in terms of the table before. */
  lemma KeyAfterBoth<K, V>(db: Database, a: Request, b: Request, mid: Database, t: FileTable<K, V>,
                           rowsOf: Item -> seq<(K, V)>, key: (FileId, K))
    requires HasFiles(db) && HasFiles(mid) && NamedFiles(db) && NamedFiles(mid) && WellFormed(a) && WellFormed(b)
    requires Compatible(a, b) && mid.files == FilesOf(db, a)
    requires (key in t ==> key.0 in db.files) && (key in TableAfter(db, a, t, rowsOf) ==> key.0 in mid.files)
    ensures key in TableAfter(mid, b, TableAfter(db, a, t, rowsOf), rowsOf) <==>
              || (key in t && Keeps(db, a, key.0) && Keeps(db, b, key.0))
              || (Touched(a, key.0) && First(AllRows(a, {}, a.index.Items(), rowsOf), (key.0.path, key.1)).Some?)
              || (Touched(b, key.0) && First(AllRows(b, {}, b.index.Items(), rowsOf), (key.0.path, key.1)).Some?)
  {
    RowAfter(db, a, t, rowsOf, key);
    RowAfter(mid, b, TableAfter(db, a, t, rowsOf), rowsOf, key);
    FilesAfter(db, a, key.0);
    FilesAfter(mid, b, key.0);
    if key.0.variant == a.variant && key.0 in FilesOf(db, a)
       && First(AllRows(a, {}, a.index.Items(), rowsOf), (key.0.path, key.1)).Some? {
      AddedIsTouched(db, a, rowsOf, key);
    }
    if key.0.variant == b.variant && key.0 in FilesOf(mid, b)
       && First(AllRows(b, {}, b.index.Items(), rowsOf), (key.0.path, key.1)).Some? {
      AddedIsTouched(mid, b, rowsOf, key);
    }
  }

  lemma KeysCommute<K, V>(db: Database, a: Request, b: Request, ab: Database, ba: Database, t: FileTable<K, V>,
                          rowsOf: Item -> seq<(K, V)>)
    requires HasFiles(db) && HasFiles(ab) && HasFiles(ba) && NamedFiles(db) && NamedFiles(ab) && NamedFiles(ba)
    requires WellFormed(a) && WellFormed(b) && Compatible(a, b)
    requires ab.files == FilesOf(db, a) && ba.files == FilesOf(db, b)
    requires forall key | key in t :: key.0 in db.files
    requires forall key | key in TableAfter(db, a, t, rowsOf) :: key.0 in ab.files
    requires forall key | key in TableAfter(db, b, t, rowsOf) :: key.0 in ba.files
    ensures TableAfter(ab, b, TableAfter(db, a, t, rowsOf), rowsOf).Keys
            == TableAfter(ba, a, TableAfter(db, b, t, rowsOf), rowsOf).Keys
  {
    hide TableAfter, FilesOf, FreshFiles, AllRows, First;
    var x := TableAfter(ab, b, TableAfter(db, a, t, rowsOf), rowsOf);
    var y := TableAfter(ba, a, TableAfter(db, b, t, rowsOf), rowsOf);
    forall key | key in x.Keys ensures key in y.Keys {
      KeyAfterBoth(db, a, b, ab, t, rowsOf, key);
      KeyAfterBoth(db, b, a, ba, t, rowsOf, key);
    }
    forall key | key in y.Keys ensures key in x.Keys {
      KeyAfterBoth(db, a, b, ab, t, rowsOf, key);
      KeyAfterBoth(db, b, a, ba, t, rowsOf, key);
    }
  }

  /** What one staged store says about one property key. */
  function OwnBits(r: Request, key: (FileId, PropertyKey)): Bits {
    if key.0.variant == r.variant && key.0.path in FreshFiles(r)
    then Mask(AllRows(r, {}, r.index.Items(), PropertyRows), (key.0.path, key.1)) else {}
  }

  lemma BitsAfter(db: Database, r: Request, key: (FileId, PropertyKey))
    requires HasFiles(db) && NamedFiles(db) && WellFormed(r)
    ensures BitsAt(PropertiesOf(db, r), key)
            == (if Keeps(db, r, key.0) then BitsAt(db.properties, key) else {}) + OwnBits(r, key)
    ensures key in PropertiesOf(db, r) <==>
              || (key in db.properties && Keeps(db, r, key.0))
              || (Touched(r, key.0)
                  && First(AllRows(r, {}, r.index.Items(), PropertyRows), (key.0.path, key.1)).Some?)
  {
    var rows := AllRows(r, {}, r.index.Items(), PropertyRows);
    PropertiesAfter(db, r, key);
    FilesAfter(db, r, key.0);
    OrRowsLookup(map[], rows, (key.0.path, key.1));
    if key.0.variant == r.variant && key.0 in FilesOf(db, r) && First(rows, (key.0.path, key.1)).Some? {
      AddedIsTouched(db, r, PropertyRows, key);
    }
  }

  /** Keeping f through both stores does not depend on their order. */
  lemma KeepsBoth(db: Database, a: Request, b: Request, mid: Database, f: FileId)
    requires Compatible(a, b) && mid.files == FilesOf(db, a)
    ensures f in db.files ==>
              (Keeps(db, a, f) && Keeps(mid, b, f) <==> Keeps(db, a, f) && Keeps(db, b, f))
    ensures Touched(a, f) ==> Keeps(mid, b, f)
  {
    FilesAfter(db, a, f);
  }

  lemma PropertyAfterBoth(db: Database, a: Request, b: Request, mid: Database, key: (FileId, PropertyKey))
    requires HasFiles(db) && HasFiles(mid) && NamedFiles(db) && NamedFiles(mid) && WellFormed(a) && WellFormed(b)
    requires Compatible(a, b) && mid.files == FilesOf(db, a) && mid.properties == PropertiesOf(db, a)
    ensures BitsAt(PropertiesOf(mid, b), key)
            == (if Keeps(db, a, key.0) && Keeps(db, b, key.0) then BitsAt(db.properties, key) else {})
               + OwnBits(a, key) + OwnBits(b, key)
    ensures key in PropertiesOf(mid, b) <==>
              || (key in db.properties && Keeps(db, a, key.0) && Keeps(db, b, key.0))
              || (Touched(a, key.0) && First(AllRows(a, {}, a.index.Items(), PropertyRows), (key.0.path, key.1)).Some?)
              || (Touched(b, key.0) && First(AllRows(b, {}, b.index.Items(), PropertyRows), (key.0.path, key.1)).Some?)
  {
    hide PropertiesOf, FilesOf, FreshFiles, AllRows, First, Mask;
    BitsAfter(db, a, key);
    BitsAfter(mid, b, key);
    KeepsBoth(db, a, b, mid, key.0);
  }

  lemma PropertiesCommute(db: Database, a: Request, b: Request, ab: Database, ba: Database)
    requires HasFiles(db) && HasFiles(ab) && HasFiles(ba) && NamedFiles(db) && NamedFiles(ab) && NamedFiles(ba)
    requires WellFormed(a) && WellFormed(b) && Compatible(a, b)
    requires ab.files == FilesOf(db, a) && ab.properties == PropertiesOf(db, a)
    requires ba.files == FilesOf(db, b) && ba.properties == PropertiesOf(db, b)
    ensures PropertiesOf(ab, b) == PropertiesOf(ba, a)
  {
    hide PropertiesOf, FilesOf, FreshFiles, AllRows, First, Mask;
    var x, y := PropertiesOf(ab, b), PropertiesOf(ba, a);
    forall key
      ensures key in x <==> key in y
      ensures BitsAt(x, key) == BitsAt(y, key)
    {
      PropertyAfterBoth(db, a, b, ab, key);
      PropertyAfterBoth(db, b, a, ba, key);
    }
    assert forall key | key in x :: x[key] == BitsAt(x, key) == BitsAt(y, key) == y[key];
  }

  lemma FingerprintAfterBoth(db: Database, a: Request, b: Request, mid: Database, after: Database, f: FileId,
                             fp: Fingerprint)
    requires HasFiles(db) && HasFiles(mid) && Compatible(a, b) && StoreOf(db, a, mid) && StoreOf(mid, b, after)
    ensures (f, fp) in after.fingerprints <==>
              || ((f, fp) in db.fingerprints && Keeps(db, a, f) && Keeps(db, b, f))
              || (Touched(a, f) && FreshFiles(a)[f.path].fingerprint == Some(fp))
              || (Touched(b, f) && FreshFiles(b)[f.path].fingerprint == Some(fp))
  {
    hide FilesOf, FreshFiles, TableAfter, PropertiesOf, MergeTable, DoomedBy;
    FingerprintAfter(db, a, mid, f, fp);
    FingerprintAfter(mid, b, after, f, fp);
    KeepsBoth(db, a, b, mid, f);
  }

  lemma FingerprintsCommute(db: Database, a: Request, b: Request, ab: Database, ba: Database, abba: Database,
                            baab: Database)
    requires HasFiles(db) && HasFiles(ab) && HasFiles(ba) && Compatible(a, b)
    requires StoreOf(db, a, ab) && StoreOf(db, b, ba) && StoreOf(ab, b, abba) && StoreOf(ba, a, baab)
    ensures abba.fingerprints == baab.fingerprints
  {
    hide HasFiles, StoreOf, FreshFiles;
    forall key | key in abba.fingerprints.Keys ensures key in baab.fingerprints.Keys {
      FingerprintAfterBoth(db, a, b, ab, abba, key.0, key.1);
      FingerprintAfterBoth(db, b, a, ba, baab, key.0, key.1);
    }
    forall key | key in baab.fingerprints.Keys ensures key in abba.fingerprints.Keys {
      FingerprintAfterBoth(db, a, b, ab, abba, key.0, key.1);
      FingerprintAfterBoth(db, b, a, ba, baab, key.0, key.1);
    }
    SameSet(abba.fingerprints, baab.fingerprints);
  }

  lemma FilesCommute(db: Database, a: Request, b: Request, ab: Database, ba: Database)
    requires Compatible(a, b) && ab.files == FilesOf(db, a) && ba.files == FilesOf(db, b)
    ensures FilesOf(ab, b) == FilesOf(ba, a)
  {
    hide FilesOf, FreshFiles;
    forall f
      ensures f in FilesOf(ab, b) <==> f in FilesOf(ba, a)
      ensures f in FilesOf(ab, b) ==> FilesOf(ab, b)[f] == FilesOf(ba, a)[f]
    {
      FilesAfter(db, a, f);
      FilesAfter(ab, b, f);
      FilesAfter(db, b, f);
      FilesAfter(ba, a, f);
    }
  }

  lemma StoresOfCommute(db: Database, a: Request, b: Request, ab: Database, ba: Database, abba: Database,
                        baab: Database)
    requires HasFiles(db) && HasFiles(ab) && HasFiles(ba) && NamedFiles(db) && NamedFiles(ab) && NamedFiles(ba)
    requires WellFormed(a) && WellFormed(b) && Compatible(a, b)
    requires StoreOf(db, a, ab) && StoreOf(db, b, ba) && StoreOf(ab, b, abba) && StoreOf(ba, a, baab)
    ensures SameKeys(abba, baab)
  {
    FilesCommute(db, a, b, ab, ba);
    KeysCommute(db, a, b, ab, ba, db.records, RecordRows);
    KeysCommute(db, a, b, ab, ba, db.symbolTypes, SymbolTypeRows);
    KeysCommute(db, a, b, ab, ba, db.functionTypes, FunctionTypeRows);
    SameSet(abba.symbolTypes, baab.symbolTypes);
    PropertiesCommute(db, a, b, ab, ba);
    FingerprintsCommute(db, a, b, ab, ba, abba, baab);
  }

  /** Two stores of one variant, neither of which stages the other's main file and which saw their shared files
      alike, leave the same keys, masks, fingerprints and files in either order. */
  lemma StoresCommute(db: Database, a: Request, b: Request)
    requires HasFiles(db) && NamedFiles(db) && WellFormed(a) && WellFormed(b) && Compatible(a, b)
    ensures SameKeys(FullStore(FullStore(db, a), b), FullStore(FullStore(db, b), a))
  {
    var ab, ba := FullStore(db, a), FullStore(db, b);
    FullStoreKeepsHasFiles(db, a);
    FullStoreKeepsHasFiles(db, b);
    FullStoreKeepsNamed(db, a);
    FullStoreKeepsNamed(db, b);
    FullStoreIsStoreOf(db, a);
    FullStoreIsStoreOf(db, b);
    FullStoreIsStoreOf(ab, b);
    FullStoreIsStoreOf(ba, a);
    StoresOfCommute(db, a, b, ab, ba, FullStore(ab, b), FullStore(ba, a));
  }
}
