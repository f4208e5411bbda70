/** Any number of writers, any interleaving of their transactions: a run of the cached, retrying protocol leaves
    the shared tables that the cache-free stores leave, taken one after the other in commit order. */
module WriterProtocol {
  import opened Wrappers
  import opened Index
  import opened Tables
  import opened Staging
  import opened RowLemmas
  import opened CacheSoundness

  /** Where one index_db_store call is between its transactions. */
  datatype Phase =
    | Idle
    | Staged(staging: Staging)
    | Stale(staging: Staging)
    | Restaged(staging: Staging)
    | Committed
    | Aborted

  datatype System = System(db: Database, phases: seq<Phase>, log: seq<nat>)

  /** One transaction of one writer, or its failure. */
  datatype Step =
    | StageStep(writer: nat)
    | MergeStep(writer: nat)
    | RestageStep(writer: nat)
    | RemergeStep(writer: nat)
    | AbortStep(writer: nat)

  function Commit(requests: seq<Request>, s: System, w: nat, st: Staging): System
    requires w < |requests| && w < |s.phases|
  {
    System(Merge(s.db, requests[w].variant, st), s.phases[w := Committed], s.log + [w])
  }

  /** A step that the writer's phase does not allow changes nothing. */
  function Next(requests: seq<Request>, s: System, step: Step): System {
    var w := step.writer;
    if w >= |requests| || w >= |s.phases| then s
    else
      var r, phase := requests[w], s.phases[w];
      match step
      case StageStep(_) =>
        if phase.Idle? then s.(phases := s.phases[w := Staged(Stage(r, s.db))]) else s
      case MergeStep(_) =>
        if !phase.Staged? then s
        else if CachedFilesValid(s.db, r.variant, phase.staging.files) then Commit(requests, s, w, phase.staging)
        else s.(phases := s.phases[w := Stale(phase.staging)])
      case RestageStep(_) =>
        if phase.Stale? then s.(phases := s.phases[w := Restaged(Restage(r, phase.staging))]) else s
      case RemergeStep(_) =>
        if !phase.Restaged? then s
        else if CachedFilesValid(s.db, r.variant, phase.staging.files) then Commit(requests, s, w, phase.staging)
        else s.(phases := s.phases[w := Aborted])
      case AbortStep(_) =>
        if phase.Committed? then s else s.(phases := s.phases[w := Aborted])
  }

  function Run(requests: seq<Request>, s: System, steps: seq<Step>): System {
    if steps == [] then s
    else Next(requests, Run(requests, s, steps[..|steps| - 1]), steps[|steps| - 1])
  }

  function Start(requests: seq<Request>, db: Database): System {
    System(db, seq(|requests|, _ => Idle), [])
  }

  /** The cache-free stores of the logged writers, one after the other. */
  function Replay(requests: seq<Request>, db: Database, log: seq<nat>): Database {
    if log == [] then db
    else
      var before := Replay(requests, db, log[..|log| - 1]);
      if log[|log| - 1] < |requests| then FullStore(before, requests[log[|log| - 1]]) else before
  }

  // ---- equality up to the columns outside the primary keys ----

  predicate SameKeys(a: Database, b: Database) {
    && a.files == b.files
    && a.records.Keys == b.records.Keys
    && a.symbolTypes == b.symbolTypes
    && a.functionTypes.Keys == b.functionTypes.Keys
    && a.properties == b.properties
    && a.fingerprints == b.fingerprints
  }

  /** No stored path is shared by two file indexes. */
  ghost predicate DistinctPaths(r: Request) {
    forall x, y | x in r.index.Items() && y in r.index.Items() && ItemPath(r, x) == ItemPath(r, y) ::
      x.FileIndex() == y.FileIndex()
  }

  lemma JoinKeys<K, V>(a: PathTable<K, V>, b: PathTable<K, V>, variant: Text, files: map<FileId, FileMeta>)
    requires a.Keys == b.Keys
    ensures Join(a, variant, files).Keys == Join(b, variant, files).Keys
  {
    forall key ensures key in Join(a, variant, files) <==> key in Join(b, variant, files) {
      JoinLookup(a, variant, files, key);
      JoinLookup(b, variant, files, key);
      assert (key.0.path, key.1) in a.Keys <==> (key.0.path, key.1) in b.Keys;
    }
  }

  lemma InsertKeys<K, V>(a: FileTable<K, V>, b: FileTable<K, V>, doomed: set<FileId>, x: FileTable<K, V>,
                         y: FileTable<K, V>)
    requires a.Keys == b.Keys && x.Keys == y.Keys
    ensures InsertOrIgnore(DeleteFiles(a, doomed), x).Keys == InsertOrIgnore(DeleteFiles(b, doomed), y).Keys
  {
    forall key ensures key in DeleteFiles(a, doomed) <==> key in DeleteFiles(b, doomed) {
      assert key in a.Keys <==> key in b.Keys;
    }
  }

  /** What a store does to the keys depends on the keys only. */
  lemma MergeKeepsSameKeys(a: Database, b: Database, variant: Text, st: Staging, su: Staging)
    requires SameKeys(a, b) && st.files == su.files
    requires st.rows.records.Keys == su.rows.records.Keys && st.rows.symbolTypes == su.rows.symbolTypes
    requires st.rows.functionTypes.Keys == su.rows.functionTypes.Keys && st.rows.properties == su.rows.properties
    ensures SameKeys(Merge(a, variant, st), Merge(b, variant, su))
  {
    var doomed := DoomedFiles(a.files, variant, st.files);
    var files := MergedFiles(a.files, variant, st.files);
    JoinKeys(st.rows.records, su.rows.records, variant, files);
    JoinKeys(st.rows.functionTypes, su.rows.functionTypes, variant, files);
    InsertKeys(a.records, b.records, doomed, Join(st.rows.records, variant, files),
               Join(su.rows.records, variant, files));
    InsertKeys(a.functionTypes, b.functionTypes, doomed, Join(st.rows.functionTypes, variant, files),
               Join(su.rows.functionTypes, variant, files));
  }

  // ---- staging everything on top of an abridged staging ----

  lemma RowTwice<K, V>(r: Request, cached: set<nat>, rowsOf: Item -> seq<(K, V)>, key: (Text, K))
    ensures var part := AllRows(r, cached, r.index.Items(), rowsOf);
            var full := AllRows(r, {}, r.index.Items(), rowsOf);
            var twice, once := InsertRows(InsertRows(map[], part), full), InsertRows(map[], full);
            && (key in twice <==> key in once)
            && (DistinctPaths(r) && key in once ==> twice[key] == once[key])
  {
    var part, full := AllRows(r, cached, r.index.Items(), rowsOf), AllRows(r, {}, r.index.Items(), rowsOf);
    InsertRowsLookup(map[], part, key);
    InsertRowsLookup(InsertRows(map[], part), full, key);
    InsertRowsLookup(map[], full, key);
    if First(part, key).Some? {
      FirstWithinFull(r, cached, r.index.Items(), rowsOf, key);
      if DistinctPaths(r) {
        FirstByWholeFiles(r, cached, rowsOf, key);
      }
    }
  }

  lemma RowsTwice<K, V>(r: Request, cached: set<nat>, rowsOf: Item -> seq<(K, V)>)
    ensures var part := AllRows(r, cached, r.index.Items(), rowsOf);
            var full := AllRows(r, {}, r.index.Items(), rowsOf);
            var twice, once := InsertRows(InsertRows(map[], part), full), InsertRows(map[], full);
            twice.Keys == once.Keys && (DistinctPaths(r) ==> twice == once)
  {
    var part, full := AllRows(r, cached, r.index.Items(), rowsOf), AllRows(r, {}, r.index.Items(), rowsOf);
    var twice, once := InsertRows(InsertRows(map[], part), full), InsertRows(map[], full);
    forall key | key in twice.Keys ensures key in once.Keys {
      RowTwice(r, cached, rowsOf, key);
    }
    forall key | key in once.Keys ensures key in twice.Keys {
      RowTwice(r, cached, rowsOf, key);
    }
    if DistinctPaths(r) {
      forall key | key in once ensures twice[key] == once[key] {
        RowTwice(r, cached, rowsOf, key);
      }
    }
  }

  /** With distinct paths, a path's rows are staged all together or not at all. */
  lemma FirstByWholeFiles<K, V>(r: Request, cached: set<nat>, rowsOf: Item -> seq<(K, V)>, key: (Text, K))
    requires DistinctPaths(r)
    ensures var items := r.index.Items();
            First(AllRows(r, cached, items, rowsOf), key).Some? ==>
              First(AllRows(r, cached, items, rowsOf), key) == First(AllRows(r, {}, items, rowsOf), key)
  {
    var items := r.index.Items();
    if exists x :: x in items && ItemPath(r, x) == key.0 && x.FileIndex() in cached {
      FirstOfSkippedPath(r, cached, items, rowsOf, key);
    } else {
      FirstOfStagedPath(r, cached, items, rowsOf, key);
    }
  }

  lemma {:induction false} FirstOfSkippedPath<K, V>(
    r: Request, cached: set<nat>, items: seq<Item>, rowsOf: Item -> seq<(K, V)>, key: (Text, K))
    requires forall x | x in items && ItemPath(r, x) == key.0 :: x.FileIndex() in cached
    ensures First(AllRows(r, cached, items, rowsOf), key).None?
  {
    if items != [] {
      var front, last := items[..|items| - 1], items[|items| - 1];
      FirstOfSkippedPath(r, cached, front, rowsOf, key);
      FirstConcat(AllRows(r, cached, front, rowsOf), ItemRows(r, cached, last, rowsOf), key);
      FirstHasRow(ItemRows(r, cached, last, rowsOf), key);
    }
  }

  lemma {:induction false} FirstOfStagedPath<K, V>(
    r: Request, cached: set<nat>, items: seq<Item>, rowsOf: Item -> seq<(K, V)>, key: (Text, K))
    requires forall x | x in items && ItemPath(r, x) == key.0 :: x.FileIndex() !in cached
    ensures First(AllRows(r, cached, items, rowsOf), key) == First(AllRows(r, {}, items, rowsOf), key)
  {
    if items != [] {
      var front, last := items[..|items| - 1], items[|items| - 1];
      FirstOfStagedPath(r, cached, front, rowsOf, key);
      FirstConcat(AllRows(r, cached, front, rowsOf), ItemRows(r, cached, last, rowsOf), key);
      FirstConcat(AllRows(r, {}, front, rowsOf), ItemRows(r, {}, last, rowsOf), key);
      FirstHasRow(ItemRows(r, {}, last, rowsOf), key);
    }
  }

  lemma {:induction false} MaskWithinFull(r: Request, cached: set<nat>, items: seq<Item>, key: (Text, PropertyKey))
    ensures Mask(AllRows(r, cached, items, PropertyRows), key) <= Mask(AllRows(r, {}, items, PropertyRows), key)
  {
    if items != [] {
      var front, last := items[..|items| - 1], items[|items| - 1];
      MaskWithinFull(r, cached, front, key);
      MaskConcat(AllRows(r, cached, front, PropertyRows), ItemRows(r, cached, last, PropertyRows), key);
      MaskConcat(AllRows(r, {}, front, PropertyRows), ItemRows(r, {}, last, PropertyRows), key);
    }
  }

  lemma PropertiesTwice(r: Request, cached: set<nat>)
    ensures var items := r.index.Items();
            OrRows(OrRows(map[], AllRows(r, cached, items, PropertyRows)), AllRows(r, {}, items, PropertyRows))
            == OrRows(map[], AllRows(r, {}, items, PropertyRows))
  {
    var items := r.index.Items();
    var part, full := AllRows(r, cached, items, PropertyRows), AllRows(r, {}, items, PropertyRows);
    var twice, once := OrRows(OrRows(map[], part), full), OrRows(map[], full);
    forall key
      ensures key in twice <==> key in once
      ensures key in once ==> twice[key] == once[key]
    {
      OrRowsLookup(map[], part, key);
      OrRowsLookup(OrRows(map[], part), full, key);
      OrRowsLookup(map[], full, key);
      MaskWithinFull(r, cached, items, key);
      if First(part, key).Some? {
        FirstWithinFull(r, cached, items, PropertyRows, key);
      }
    }
  }

  lemma SameSet<K>(a: map<K, ()>, b: map<K, ()>)
    requires a.Keys == b.Keys
    ensures a == b
  {
    assert forall k | k in a :: a[k] == () == b[k];
  }

  /** Staging everything on top of an abridged staging gives the cache-free staging's keys, and equals it when
      paths are distinct. */
  lemma RowsOnTop(r: Request, cached: set<nat>)
    ensures var items := r.index.Items();
            var again := StageItems(StageItems(NO_ROWS, r, cached, items), r, {}, items);
            var full := StageItems(NO_ROWS, r, {}, items);
            && again.records.Keys == full.records.Keys
            && again.symbolTypes == full.symbolTypes
            && again.functionTypes.Keys == full.functionTypes.Keys
            && again.properties == full.properties
            && (DistinctPaths(r) ==> again == full)
  {
    var items := r.index.Items();
    StageItemsFlat(NO_ROWS, r, cached, items);
    StageItemsFlat(StageItems(NO_ROWS, r, cached, items), r, {}, items);
    StageItemsFlat(NO_ROWS, r, {}, items);
    RowsTwice(r, cached, RecordRows);
    RowsTwice(r, cached, SymbolTypeRows);
    RowsTwice(r, cached, FunctionTypeRows);
    PropertiesTwice(r, cached);
    SameSet(StageItems(StageItems(NO_ROWS, r, cached, items), r, {}, items).symbolTypes,
            StageItems(NO_ROWS, r, {}, items).symbolTypes);
  }

  // ---- the invariant of every run ----

  ghost predicate AbridgedStaging(st: Staging, r: Request) {
    && MarkedFiles(st.files, r)
    && st.rows == StageItems(NO_ROWS, r, CachedOrdinals(st.files), r.index.Items())
  }

  ghost predicate RetryStaging(st: Staging, r: Request) {
    exists first: Staging :: AbridgedStaging(first, r) && st == Restage(r, first)
  }

  ghost predicate PhaseInv(phase: Phase, r: Request) {
    match phase
    case Staged(st) => AbridgedStaging(st, r)
    case Stale(st) => AbridgedStaging(st, r)
    case Restaged(st) => RetryStaging(st, r)
    case _ => true
  }

  ghost predicate TablesInv(requests: seq<Request>, db0: Database, s: System) {
    && CacheSound(s.db, requests)
    && SameKeys(s.db, Replay(requests, db0, s.log))
    && ((forall r | r in requests :: DistinctPaths(r)) ==> s.db == Replay(requests, db0, s.log))
  }

  ghost predicate PhasesInv(requests: seq<Request>, s: System) {
    && |s.phases| == |requests|
    && (forall w | 0 <= w < |requests| :: PhaseInv(s.phases[w], requests[w]))
    && (forall w | 0 <= w < |requests| :: s.phases[w].Committed? <==> w in s.log)
    && (forall i, j | 0 <= i < j < |s.log| :: s.log[i] != s.log[j])
    && (forall i | 0 <= i < |s.log| :: s.log[i] < |requests|)
  }

  lemma CacheSoundByKeys(a: Database, b: Database, requests: seq<Request>)
    requires SameKeys(a, b) && CacheSound(b, requests)
    ensures CacheSound(a, requests)
  {
    forall f, fp, w, i | (f, fp) in a.fingerprints && 0 <= w < |requests| && 0 <= i < |requests[w].files|
                         && requests[w].files[i].fingerprint == fp
      ensures Stored(a, f, requests[w], i)
    {
      assert Stored(b, f, requests[w], i);
      assert forall k | k in b.records.Keys :: k in a.records.Keys;
      assert forall k | k in b.functionTypes.Keys :: k in a.functionTypes.Keys;
    }
  }

  /** A staging merged by either attempt does what the cache-free store does. */
  lemma CommitIsFullStore(requests: seq<Request>, db: Database, w: nat, st: Staging)
    requires w < |requests| && CacheSound(db, requests)
    requires CachedFilesValid(db, requests[w].variant, st.files)
    requires AbridgedStaging(st, requests[w]) || RetryStaging(st, requests[w])
    ensures SameKeys(Merge(db, requests[w].variant, st), FullStore(db, requests[w]))
    ensures DistinctPaths(requests[w]) ==> Merge(db, requests[w].variant, st) == FullStore(db, requests[w])
  {
    var r := requests[w];
    if AbridgedStaging(st, r) {
      CachedMergeIsFullStore(db, r, st, requests, w);
    } else {
      var first :| AbridgedStaging(first, r) && st == Restage(r, first);
      RowsOnTop(r, CachedOrdinals(first.files));
      MergeKeepsSameKeys(db, db, r.variant, st, FullStaging(r));
    }
  }

  lemma CommitKeepsTables(requests: seq<Request>, db0: Database, s: System, w: nat, st: Staging)
    requires AllAgree(requests) && TablesInv(requests, db0, s)
    requires w < |requests| == |s.phases| && CachedFilesValid(s.db, requests[w].variant, st.files)
    requires AbridgedStaging(st, requests[w]) || RetryStaging(st, requests[w])
    ensures TablesInv(requests, db0, Commit(requests, s, w, st))
  {
    var r, after := requests[w], Commit(requests, s, w, st);
    var replayed := Replay(requests, db0, s.log);
    assert after.log[..|after.log| - 1] == s.log;
    assert Replay(requests, db0, after.log) == FullStore(replayed, r);
    CommitIsFullStore(requests, s.db, w, st);
    MergeKeepsSameKeys(s.db, replayed, r.variant, FullStaging(r), FullStaging(r));
    FullStoreKeepsCacheSound(s.db, requests, w);
    CacheSoundByKeys(after.db, FullStore(s.db, r), requests);
    assert r in requests;
  }

  lemma CommitKeepsPhases(requests: seq<Request>, s: System, w: nat, st: Staging)
    requires PhasesInv(requests, s) && w < |requests| && !s.phases[w].Committed?
    ensures PhasesInv(requests, Commit(requests, s, w, st))
  {
    var after := Commit(requests, s, w, st);
    forall v | 0 <= v < |requests| ensures after.phases[v].Committed? <==> v in after.log {
      assert v in after.log <==> v in s.log || v == w;
    }
    forall i, j | 0 <= i < j < |after.log| ensures after.log[i] != after.log[j] {
      assert after.log[i] == s.log[i] && s.log[i] in s.log;
    }
  }

  /** A writer moves between phases that are not commits. */
  lemma MoveKeepsPhases(requests: seq<Request>, s: System, w: nat, phase: Phase)
    requires PhasesInv(requests, s) && w < |requests| && !s.phases[w].Committed?
    requires !phase.Committed? && PhaseInv(phase, requests[w])
    ensures PhasesInv(requests, s.(phases := s.phases[w := phase]))
  {
  }

  lemma NextKeepsInv(requests: seq<Request>, db0: Database, s: System, step: Step)
    requires AllAgree(requests) && TablesInv(requests, db0, s) && PhasesInv(requests, s)
    ensures TablesInv(requests, db0, Next(requests, s, step)) && PhasesInv(requests, Next(requests, s, step))
  {
    hide Merge, FullStore, AllAgree, Replay, SameKeys, CacheSound, CachedFilesValid;
    var w, after := step.writer, Next(requests, s, step);
    if w < |requests| && after != s {
      assert PhaseInv(s.phases[w], requests[w]);
      if after.phases[w].Committed? {
        CommitKeepsTables(requests, db0, s, w, s.phases[w].staging);
        CommitKeepsPhases(requests, s, w, s.phases[w].staging);
      } else {
        MarkingIsMarked(requests[w], s.db);
        assert PhaseInv(after.phases[w], requests[w]);
        MoveKeepsPhases(requests, s, w, after.phases[w]);
      }
    }
  }

  lemma {:induction false} RunKeepsInv(requests: seq<Request>, db0: Database, steps: seq<Step>)
    requires AllAgree(requests) && CacheSound(db0, requests)
    ensures TablesInv(requests, db0, Run(requests, Start(requests, db0), steps))
    ensures PhasesInv(requests, Run(requests, Start(requests, db0), steps))
  {
    if steps != [] {
      RunKeepsInv(requests, db0, steps[..|steps| - 1]);
      NextKeepsInv(requests, db0, Run(requests, Start(requests, db0), steps[..|steps| - 1]), steps[|steps| - 1]);
    }
  }

  /** Serialisability: the tables after any run are those of the committed writers' cache-free stores in commit
      order, each writer once; on the columns outside the keys too when no path is shared by two file indexes. */
  lemma SerialisableRefinement(requests: seq<Request>, db0: Database, steps: seq<Step>)
    requires AllAgree(requests) && CacheSound(db0, requests)
    ensures var s := Run(requests, Start(requests, db0), steps);
            && SameKeys(s.db, Replay(requests, db0, s.log))
            && ((forall r | r in requests :: DistinctPaths(r)) ==> s.db == Replay(requests, db0, s.log))
            && (forall i, j | 0 <= i < j < |s.log| :: s.log[i] != s.log[j])
            && |s.phases| == |requests|
            && (forall w | 0 <= w < |requests| :: s.phases[w].Committed? <==> w in s.log)
  {
    RunKeepsInv(requests, db0, steps);
  }

  /** The cache invariant holds in every reachable state. */
  lemma CacheSoundAlways(requests: seq<Request>, db0: Database, steps: seq<Step>)
    requires AllAgree(requests) && CacheSound(db0, requests)
    ensures CacheSound(Run(requests, Start(requests, db0), steps).db, requests)
  {
    RunKeepsInv(requests, db0, steps);
  }

  /** A staging that was made again has no cache hits left. */
  lemma RetryIsValid(r: Request, db: Database, st: Staging)
    requires RetryStaging(st, r)
    ensures CachedFilesValid(db, r.variant, st.files)
  {
    var first :| AbridgedStaging(first, r) && st == Restage(r, first);
    assert forall p | p in st.files :: !st.files[p].cached;
  }

  lemma RetryCommits(requests: seq<Request>, s: System, w: nat)
    requires w < |requests| == |s.phases| && PhaseInv(s.phases[w], requests[w])
    ensures s.phases[w].Restaged? ==> Next(requests, s, RemergeStep(w)).phases[w].Committed?
  {
    hide Merge, CachedFilesValid, RetryStaging, AbridgedStaging;
    if s.phases[w].Restaged? {
      RetryIsValid(requests[w], s.db, s.phases[w].staging);
    }
  }

  /** A second merge attempt is never stale: the re-check passes whatever was committed in between. */
  lemma OneRetryIsEnough(requests: seq<Request>, db0: Database, steps: seq<Step>, w: nat)
    requires AllAgree(requests) && CacheSound(db0, requests) && w < |requests|
    ensures var s := Run(requests, Start(requests, db0), steps);
            && |s.phases| == |requests|
            && (s.phases[w].Restaged? ==> Next(requests, s, RemergeStep(w)).phases[w].Committed?)
  {
    hide Run, Start, Next, AllAgree, TablesInv, CacheSound, PhaseInv;
    RunKeepsInv(requests, db0, steps);
    RetryCommits(requests, Run(requests, Start(requests, db0), steps), w);
  }

  lemma FreshMarksAreValid(r: Request, db: Database)
    ensures CachedFilesValid(db, r.variant, Stage(r, db).files)
  {
    FreshFilesOrdinals(r);
    hide StageItems;
    var files := FreshFiles(r);
    hide FreshFiles;
    forall p | p in MarkCached(files, db, r.variant) && MarkCached(files, db, r.variant)[p].cached
      ensures Hit(db, r.variant, p, MarkCached(files, db, r.variant)[p])
    {
      assert MayCache(db, r.variant, p, files[p]);
    }
  }

  /** No call gets stuck or is lost: a store that nobody interferes with commits at once; with others in between its
      merge commits or is found stale, and then it re-stages. */
  lemma StoresGoOn(requests: seq<Request>, s: System, w: nat)
    requires w < |requests| == |s.phases|
    ensures s.phases[w].Idle? ==>
              var staged := Next(requests, s, StageStep(w));
              && staged.phases[w].Staged? && staged.db == s.db
              && Next(requests, staged, MergeStep(w)).phases[w].Committed?
              && Next(requests, staged, MergeStep(w)).log == s.log + [w]
    ensures s.phases[w].Staged? ==>
              var merged := Next(requests, s, MergeStep(w));
              merged.phases[w].Committed? || (merged.phases[w].Stale? && merged.db == s.db)
    ensures s.phases[w].Stale? ==> Next(requests, s, RestageStep(w)).phases[w].Restaged?
  {
    hide Merge, CachedFilesValid, Stage, Restage;
    FreshMarksAreValid(requests[w], s.db);
  }
}
