/** index_db_store as it runs: staging and shared tables changed by ordered statements, one retry. */
module Writer {
  import opened Wrappers
  import opened Index
  import opened Tables
  import opened Staging
  import CacheSoundness

  /** The shared database file. */
  class SharedIndex {
    var files: map<FileId, FileMeta>
    var records: FileTable<RecordKey, RecordData>
    var symbolTypes: FileTable<SymbolTypeKey, ()>
    var functionTypes: FileTable<FunctionTypeKey, FunctionTypeData>
    var properties: FileTable<PropertyKey, Bits>
    var fingerprints: FileTable<Fingerprint, ()>

    constructor (db: Database)
      ensures View() == db
    {
      files, records, symbolTypes := db.files, db.records, db.symbolTypes;
      functionTypes, properties, fingerprints := db.functionTypes, db.properties, db.fingerprints;
    }

    function View(): Database
      reads this
    {
      Database(files, records, symbolTypes, functionTypes, properties, fingerprints)
    }

    /** What other processes commit while this one does not hold the writer lock. */
    method OthersCommit(db: Database)
      modifies this
      ensures View() == db
    {
      files, records, symbolTypes := db.files, db.records, db.symbolTypes;
      functionTypes, properties, fingerprints := db.functionTypes, db.properties, db.fingerprints;
    }
  }

  function CachedSet(cached: seq<bool>): set<nat> {
    set i | 0 <= i < |cached| && cached[i]
  }

  datatype MergeStatus = Merged | StaleHit

  lemma ItemsPrefix(index: Index, n: nat)
    requires n < |index.Items()|
    ensures index.Items()[..n + 1][..n] == index.Items()[..n]
    ensures index.Items()[..n + 1][n] == index.Items()[n]
  {
  }

  lemma StageOneMore(rows: Rows, r: Request, cached: set<nat>, n: nat)
    requires n < |r.index.Items()|
    ensures StageItems(rows, r, cached, r.index.Items()[..n + 1])
            == StageItem(StageItems(rows, r, cached, r.index.Items()[..n]), r, cached, r.index.Items()[n])
  {
    ItemsPrefix(r.index, n);
  }

  lemma StageNone(rows: Rows, r: Request, cached: set<nat>)
    ensures StageItems(rows, r, cached, r.index.Items()[..0]) == rows
    ensures r.index.Items()[..|r.index.Items()|] == r.index.Items()
  {
  }

  lemma OneRow<K, V>(t: map<(Text, K), V>, path: Text, rows: seq<(K, V)>)
    ensures rows == [] ==> InsertRows(t, AtPath(path, rows)) == t
    ensures |rows| == 1 ==> InsertRows(t, AtPath(path, rows)) == InsertRow(t, ((path, rows[0].0), rows[0].1))
  {
    assert rows == [] ==> AtPath(path, rows) == [];
    assert |rows| == 1 ==> AtPath(path, rows) == [((path, rows[0].0), rows[0].1)];
    assert |rows| == 1 ==> AtPath(path, rows)[..0] == [];
  }

  lemma OneMask<K>(t: map<(Text, K), Bits>, path: Text, rows: seq<(K, Bits)>)
    ensures rows == [] ==> OrRows(t, AtPath(path, rows)) == t
    ensures |rows| == 1 ==> OrRows(t, AtPath(path, rows)) == OrRow(t, ((path, rows[0].0), rows[0].1))
  {
    assert rows == [] ==> AtPath(path, rows) == [];
    assert |rows| == 1 ==> AtPath(path, rows) == [((path, rows[0].0), rows[0].1)];
    assert |rows| == 1 ==> AtPath(path, rows)[..0] == [];
  }

  /** An item stages at most one row in every table but function_types. */
  lemma StagedTables(rows: Rows, r: Request, cached: set<nat>, item: Item)
    requires !Skips(r, cached, item)
    ensures var p, after := ItemPath(r, item), StageItem(rows, r, cached, item);
            && after.records == (if RecordRows(item) == [] then rows.records
                                 else InsertRow(rows.records, ((p, RecordRows(item)[0].0), RecordRows(item)[0].1)))
            && after.symbolTypes == (if SymbolTypeRows(item) == [] then rows.symbolTypes
                                     else InsertRow(rows.symbolTypes, ((p, SymbolTypeRows(item)[0].0), ())))
            && after.functionTypes == InsertRows(rows.functionTypes, AtPath(p, FunctionTypeRows(item)))
            && (item.SignatureItem? || after.functionTypes == rows.functionTypes)
            && after.properties == (if PropertyRows(item) == [] then rows.properties
                                    else OrRow(rows.properties,
                                               ((p, PropertyRows(item)[0].0), PropertyRows(item)[0].1)))
  {
    var p := ItemPath(r, item);
    OneRow(rows.records, p, RecordRows(item));
    OneRow(rows.symbolTypes, p, SymbolTypeRows(item));
    OneRow(rows.functionTypes, p, FunctionTypeRows(item));
    OneMask(rows.properties, p, PropertyRows(item));
  }

  lemma SignatureRows(path: Text, g: Signature)
    requires g.usr != []
    ensures var all := AtPath(path, FunctionTypeRows(SignatureItem(g)));
            && |all| == 1 + |g.parameters|
            && all[0] == ((path, ReturnRow(g).0), ReturnRow(g).1)
            && forall k | 0 <= k < |g.parameters| :: all[1 + k] == ((path, ParameterRow(g, k).0), ParameterRow(g, k).1)
  {
  }

  /** A connection with its private TEMP tables. */
  class Writer {
    const request: Request
    const shared: SharedIndex
    var files: map<Text, StagedFile>
    var rows: Rows

    constructor (request: Request, shared: SharedIndex)
      ensures this.request == request && this.shared == shared && files == map[] && rows == NO_ROWS
    {
      this.request, this.shared := request, shared;
      files, rows := map[], NO_ROWS;
    }

    /** Fills staging_files and counts the files that a cache hit could spare. */
    method InsertStagedFiles() returns (candidates: nat)
      requires files == map[]
      modifies this`files
      ensures files == FreshFiles(request)
      ensures candidates == 0 ==> forall p | p in files :: files[p].isMain
    {
      candidates := 0;
      var i := 0;
      while i < |request.files|
        invariant i <= |request.files| && files == StageEntries(request, i)
        invariant candidates == 0 ==> forall p | p in files :: files[p].isMain
      {
        var entry := request.files[i];
        if entry.recordCount != 0 {
          var isMain := SameInode(entry, request.mainFile);
          if !isMain {
            candidates := candidates + 1;
          }
          files := files[entry.path := StagedFile(Meta(entry.stat), isMain, Some(i),
                                                  if isMain then None else Some(entry.fingerprint), false)];
        }
        i := i + 1;
      }
      if request.mainFile.Some? {
        var main := request.mainFile.value;
        if main.path in files {
          files := files[main.path := files[main.path].(meta := Meta(main.stat), isMain := true, fingerprint := None)];
        } else {
          files := files[main.path := StagedFile(Meta(main.stat), true, None, None, false)];
        }
      }
    }

    /** Reads the hits back from staging_files into cached. */
    method CollectHits(cached: array<bool>)
      requires forall i | 0 <= i < cached.Length :: !cached[i]
      requires forall p | p in files && files[p].cached ::
                 files[p].ordinal.Some? && files[p].ordinal.value < cached.Length
      modifies cached
      ensures CachedSet(cached[..]) == CachedOrdinals(files)
    {
      var hits := set p | p in files && files[p].cached;
      ghost var done: set<Text> := {};
      while hits != {}
        invariant forall p :: p in hits || p in done <==> p in files && files[p].cached
        invariant forall i | 0 <= i < cached.Length ::
                    cached[i] <==> exists p :: p in done && files[p].ordinal == Some(i)
        decreases hits
      {
        var p :| p in hits;
        var ordinal := files[p].ordinal.value;
        cached[ordinal] := true;
        hits, done := hits - {p}, done + {p};
      }
    }

    /** Fills staging_files and marks in cached the files whose records need not be staged. */
    method StageFiles(cached: array<bool>)
      requires files == map[] && cached.Length == |request.files| && forall i | 0 <= i < cached.Length :: !cached[i]
      modifies this`files, cached
      ensures files == MarkCached(FreshFiles(request), shared.View(), request.variant)
      ensures CachedSet(cached[..]) == CachedOrdinals(files)
    {
      var candidates := InsertStagedFiles();
      CacheSoundness.FreshFilesOrdinals(request);
      hide FreshFiles;
      if candidates == 0 {
        assert MarkCached(files, shared.View(), request.variant) == files;
        return;
      }
      files := MarkCached(files, shared.View(), request.variant);
      CollectHits(cached);
    }

    /** Stages every record whose file is not marked in cached. */
    method StageRecords(cached: array<bool>)
      requires cached.Length == |request.files|
      modifies this`rows
      ensures rows == StageItems(old(rows), request, CachedSet(cached[..]), request.index.Items())
    {
      StageNone(rows, request, CachedSet(cached[..]));
      hide StageItems;
      StageSymbols(cached, rows);
      StageUses(cached, old(rows));
      StageSignatures(cached, old(rows));
    }

    method StageSymbols(cached: array<bool>, ghost base: Rows)
      requires cached.Length == |request.files|
      requires rows == StageItems(base, request, CachedSet(cached[..]), request.index.Items()[..0])
      modifies this`rows
      ensures rows == StageItems(base, request, CachedSet(cached[..]), request.index.Items()[..|request.index.symbols|])
    {
      hide StageItems, StageItem;
      var symbols := request.index.symbols;
      var i := 0;
      while i < |symbols|
        invariant i <= |symbols|
        invariant rows == StageItems(base, request, CachedSet(cached[..]), request.index.Items()[..i])
      {
        StageOneMore(base, request, CachedSet(cached[..]), i);
        StageSymbol(cached, symbols[i]);
        i := i + 1;
      }
    }

    method StageUses(cached: array<bool>, ghost base: Rows)
      requires cached.Length == |request.files|
      requires rows == StageItems(base, request, CachedSet(cached[..]),
                                  request.index.Items()[..|request.index.symbols|])
      modifies this`rows
      ensures rows == StageItems(base, request, CachedSet(cached[..]),
                                 request.index.Items()[..|request.index.symbols| + |request.index.uses|])
    {
      hide StageItems, StageItem;
      var uses := request.index.uses;
      ghost var first := |request.index.symbols|;
      var i := 0;
      while i < |uses|
        invariant i <= |uses|
        invariant rows == StageItems(base, request, CachedSet(cached[..]), request.index.Items()[..first + i])
      {
        StageOneMore(base, request, CachedSet(cached[..]), first + i);
        StageUse(cached, uses[i]);
        i := i + 1;
      }
    }

    method StageSignatures(cached: array<bool>, ghost base: Rows)
      requires cached.Length == |request.files|
      requires rows == StageItems(base, request, CachedSet(cached[..]),
                                  request.index.Items()[..|request.index.symbols| + |request.index.uses|])
      modifies this`rows
      ensures rows == StageItems(base, request, CachedSet(cached[..]), request.index.Items())
    {
      hide StageItems, StageItem;
      var signatures := request.index.signatures;
      ghost var first := |request.index.symbols| + |request.index.uses|;
      var i := 0;
      while i < |signatures|
        invariant i <= |signatures|
        invariant rows == StageItems(base, request, CachedSet(cached[..]), request.index.Items()[..first + i])
      {
        StageOneMore(base, request, CachedSet(cached[..]), first + i);
        StageSignature(cached, signatures[i]);
        i := i + 1;
      }
      assert request.index.Items()[..first + |signatures|] == request.index.Items();
    }

    method StageSymbol(cached: array<bool>, s: Symbol)
      requires cached.Length == |request.files|
      modifies this`rows
      ensures rows == StageItem(old(rows), request, CachedSet(cached[..]), SymbolItem(s))
    {
      ghost var item := SymbolItem(s);
      if s.local && !request.includeLocal {
        return;
      }
      if s.fileIndex < cached.Length && cached[s.fileIndex] {
        return;
      }
      var path := RecordPath(request.files, s.fileIndex, s.file);
      var name := QualifiedName(s.owner, s.name);
      var key := RecordKey(name, 0, if s.definition then 1 else 0, s.kind, 0, s.line, s.column);
      var data := RecordData(s.context, OptionalId(s.usr, s.usrId), None, s.local);
      StagedTables(rows, request, CachedSet(cached[..]), item);
      hide StageItem;
      rows := rows.(records := InsertRow(rows.records, ((path, key), data)));
      if s.declaredType != [] && s.usr != [] {
        var typeKey := SymbolTypeKey(name, s.kind, s.usrId, s.declaredType, s.canonicalType, s.typeSymbol,
                                     TypeKind(s.typeKind, s.typeUsrId), s.typeUsrId);
        rows := rows.(symbolTypes := InsertRow(rows.symbolTypes, ((path, typeKey), ())));
      }
      if s.properties != 0 && s.usr != [] {
        var bits := OneBits(s.properties);
        rows := rows.(properties := OrRow(rows.properties, ((path, PropertyKey(name, s.kind, s.usrId)), bits)));
      }
    }

    method StageUse(cached: array<bool>, u: Use)
      requires cached.Length == |request.files|
      modifies this`rows
      ensures rows == StageItem(old(rows), request, CachedSet(cached[..]), UseItem(u))
    {
      if u.local && !request.includeLocal {
        return;
      }
      if u.fileIndex < cached.Length && cached[u.fileIndex] {
        return;
      }
      var path := RecordPath(request.files, u.fileIndex, u.file);
      var key := RecordKey(QualifiedName(u.owner, u.name), 1, u.kind, u.symbolKind, u.mode, u.line, u.column);
      var data := RecordData(u.context, OptionalId(u.usr, u.usrId), OptionalId(u.contextUsr, u.contextUsrId), u.local);
      StagedTables(rows, request, CachedSet(cached[..]), UseItem(u));
      rows := rows.(records := InsertRow(rows.records, ((path, key), data)));
    }

    method StageSignature(cached: array<bool>, g: Signature)
      requires cached.Length == |request.files|
      modifies this`rows
      ensures rows == StageItem(old(rows), request, CachedSet(cached[..]), SignatureItem(g))
    {
      if g.usr == [] {
        return;
      }
      if g.fileIndex < cached.Length && cached[g.fileIndex] {
        return;
      }
      StagedTables(rows, request, CachedSet(cached[..]), SignatureItem(g));
      hide StageItem;
      StageSignatureRows(RecordPath(request.files, g.fileIndex, g.file), g);
    }

    method StageSignatureRows(path: Text, g: Signature)
      requires g.usr != []
      modifies this`rows
      ensures rows == old(rows).(functionTypes := InsertRows(old(rows).functionTypes,
                                                             AtPath(path, FunctionTypeRows(SignatureItem(g)))))
    {
      ghost var all := AtPath(path, FunctionTypeRows(SignatureItem(g)));
      SignatureRows(path, g);
      hide AtPath, FunctionTypeRows, ReturnRow, ParameterRow;
      assert all[..1][..0] == [];
      rows := rows.(functionTypes := InsertRow(rows.functionTypes, ((path, ReturnRow(g).0), ReturnRow(g).1)));
      var k := 0;
      while k < |g.parameters|
        invariant k <= |g.parameters|
        invariant rows == old(rows).(functionTypes := InsertRows(old(rows).functionTypes, all[..1 + k]))
      {
        var row := ParameterRow(g, k);
        assert all[..2 + k][..1 + k] == all[..1 + k];
        rows := rows.(functionTypes := InsertRow(rows.functionTypes, ((path, row.0), row.1)));
        k := k + 1;
      }
      assert all[..1 + |g.parameters|] == all;
    }

    /** Under the writer lock: the hits are checked again, then the twelve statements run in order. */
    method MergeStaging() returns (status: MergeStatus)
      modifies shared
      ensures status == (if CachedFilesValid(old(shared.View()), request.variant, files) then Merged else StaleHit)
      ensures shared.View() == if status.Merged? then Merge(old(shared.View()), request.variant, Staging(files, rows))
                               else old(shared.View())
    {
      var valid := CachedFilesValid(shared.View(), request.variant, files);
      if !valid {
        return StaleHit;
      }
      var variant := request.variant;
      shared.files := InsertFiles(shared.files, variant, files);
      shared.records := DeleteFiles(shared.records, Doomed(shared.files, variant, files));
      shared.symbolTypes := DeleteFiles(shared.symbolTypes, Doomed(shared.files, variant, files));
      shared.functionTypes := DeleteFiles(shared.functionTypes, Doomed(shared.files, variant, files));
      shared.properties := DeleteFiles(shared.properties, Doomed(shared.files, variant, files));
      shared.fingerprints := DeleteFiles(shared.fingerprints, Doomed(shared.files, variant, files));
      shared.files := UpdateFiles(shared.files, variant, files);
      shared.records := InsertOrIgnore(shared.records, Join(rows.records, variant, shared.files));
      shared.symbolTypes := InsertOrIgnore(shared.symbolTypes, Join(rows.symbolTypes, variant, shared.files));
      shared.functionTypes := InsertOrIgnore(shared.functionTypes, Join(rows.functionTypes, variant, shared.files));
      shared.properties := UpsertOr(shared.properties, Join(rows.properties, variant, shared.files));
      shared.fingerprints := InsertOrIgnore(shared.fingerprints,
                                            Join(StagedFingerprints(files), variant, shared.files));
      return Merged;
    }
  }

  lemma NothingToRecheck(db: Database, variant: Text, files: map<Text, StagedFile>)
    ensures CachedFilesValid(db, variant, ClearCached(files))
  {
  }

  /** One call of index_db_store. atMerge and atRetry are the shared tables that the two merge transactions find,
      whatever other processes committed in the meantime. */
  method IndexDbStore(request: Request, shared: SharedIndex, atMerge: Database, atRetry: Database)
    returns (status: MergeStatus)
    modifies shared
    ensures status == Merged
    ensures var staged := Stage(request, old(shared.View()));
            shared.View() ==
              if CachedFilesValid(atMerge, request.variant, staged.files)
              then Merge(atMerge, request.variant, staged)
              else Merge(atRetry, request.variant, Restage(request, staged))
  {
    hide Merge, CachedFilesValid, StageItems, MarkCached, FreshFiles, CachedOrdinals;
    ghost var staged := Stage(request, shared.View());
    var cached := new bool[|request.files|](_ => false);
    var writer := new Writer(request, shared);
    writer.StageFiles(cached);
    writer.StageRecords(cached);
    assert Staging(writer.files, writer.rows) == staged;
    shared.OthersCommit(atMerge);
    status := writer.MergeStaging();
    if status.StaleHit? {
      var i := 0;
      while i < cached.Length
        modifies cached
        invariant i <= cached.Length && forall j | 0 <= j < i :: !cached[j]
      {
        cached[i] := false;
        i := i + 1;
      }
      writer.files := ClearCached(writer.files);
      assert CachedSet(cached[..]) == {};
      writer.StageRecords(cached);
      assert Staging(writer.files, writer.rows) == Restage(request, staged);
      NothingToRecheck(atRetry, request.variant, staged.files);
      shared.OthersCommit(atRetry);
      status := writer.MergeStaging();
    }
  }
}
