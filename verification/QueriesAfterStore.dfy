/** From the index of a translation unit to the answers of the tools: what is stored for a function is what the queries
    show of it. */
module QueriesAfterStore {
  import opened Wrappers
  import opened Index
  import opened Tables
  import opened Staging
  import opened StoreResults
  import opened PageWalk
  import opened Cursors
  import opened Paging
  import opened CallPaging
  import opened QueryResults
  import opened StoreQueries
  import Ordering

  // ---- signatures ----

  /** The signature has the identity, and its file is stored under the path. */
  ghost predicate SignatureHas(r: Request, path: Text, g: Signature, identity: Identity) {
    && g in r.index.signatures && g.usr != [] && StoredAt(r, path, false, g.fileIndex, g.file)
    && Qualified(g.owner, g.name, identity.symbol) && g.usrId == identity.usrId
  }

  ghost predicate OnlySignature(r: Request, path: Text, g: Signature, identity: Identity) {
    SignatureHas(r, path, g, identity) && forall h | SignatureHas(r, path, h, identity) :: h == g
  }

  lemma SameData(g: Signature, k: FunctionTypeKey, d: FunctionTypeData, e: FunctionTypeData)
    requires SignatureRecord(g, k, d) && SignatureRecord(g, k, e)
    ensures d == e
  {
    hide Qualified;
  }

  lemma SaidByOnly(r: Request, path: Text, g: Signature, identity: Identity, k: FunctionTypeKey, d: FunctionTypeData)
    requires OnlySignature(r, path, g, identity) && k.symbol == identity.symbol && k.usrId == identity.usrId
    ensures FunctionSaid(r, path, k, d) <==> SignatureRecord(g, k, d)
  {
    hide Qualified, StoredAt;
    if FunctionSaid(r, path, k, d) {
      var h :| h in r.index.signatures && StoredAt(r, path, false, h.fileIndex, h.file) && SignatureRecord(h, k, d);
      assert SignatureHas(r, path, h, identity);
    }
  }

  lemma RecordOfIdentity(g: Signature, k: FunctionTypeKey, d: FunctionTypeData, identity: Identity)
    requires SignatureRecord(g, k, d) && Qualified(g.owner, g.name, identity.symbol) && g.usrId == identity.usrId
    ensures k.symbol == identity.symbol && k.usrId == identity.usrId
  {
    QualifiedIs(g.owner, g.name, k.symbol);
    QualifiedIs(g.owner, g.name, identity.symbol);
    hide Qualified, QualifiedName;
  }

  /** Of the rows in a rewritten file, a complete walk over a function's signature shows exactly the return type at
      position -1 and the k-th parameter at position k. */
  lemma SignatureIsShown(db: Database, r: Request, f: FileId, g: Signature, codec: Codec, table: seq<FunctionRow>,
                         identity: Identity, limit: int, pages: seq<Reply<FunctionRow>>, row: FunctionRow)
    requires HasFiles(db) && Rewritten(db, r, f) && OnlySignature(r, f.path, g, identity)
    requires 1 <= limit <= MAX_LIMIT && ValidIdentity(identity) && identity.variant == f.variant
    requires FunctionScan(table, FullStore(db, r).functionTypes)
    requires FunctionsNameable(codec, Ordering.Where(table, OfFunction(identity)))
    requires Walk(FunctionSignature(codec, table, identity, limit), pages) && Ends(pages) && row.file == f
    ensures row in Items(pages) <==>
              || ReturnRecord(g, row.key, row.data)
              || exists i :: 0 <= i < |g.parameters| && ParameterRecord(g, i, row.key, row.data)
  {
    var after, k := FullStore(db, r).functionTypes, row.key;
    assert OnlySignature(r, f.path, g, identity) ==> SignatureHas(r, f.path, g, identity);
    hide *;
    FunctionWalkShows(codec, table, after, identity, limit, pages);
    FunctionsAfterStore(db, r, f, k);
    IdentityOf(r, f.path, g, identity);
    SignatureRecordIs(g, k, row.data);
    if SignatureRecord(g, k, row.data) {
      RecordOfIdentity(g, k, row.data, identity);
      SaidByOnly(r, f.path, g, identity, k, row.data);
      SaidByOnly(r, f.path, g, identity, k, after[(f, k)]);
      SameData(g, k, row.data, after[(f, k)]);
      TableHas(after, f, k, row.data);
    }
    if row in Items(pages) {
      TableHas(after, f, k, row.data);
      SaidByOnly(r, f.path, g, identity, k, row.data);
    }
  }

  lemma IdentityOf(r: Request, path: Text, g: Signature, identity: Identity)
    requires OnlySignature(r, path, g, identity)
    ensures Qualified(g.owner, g.name, identity.symbol) && g.usrId == identity.usrId
  {
    hide Qualified, StoredAt;
  }

  lemma SignatureRecordIs(g: Signature, k: FunctionTypeKey, d: FunctionTypeData)
    ensures SignatureRecord(g, k, d) <==>
              ReturnRecord(g, k, d) || exists i :: 0 <= i < |g.parameters| && ParameterRecord(g, i, k, d)
  {
  }

  lemma TableHas<K, V>(stored: FileTable<K, V>, f: FileId, k: K, v: V)
    ensures InTable(stored, f, k, v) <==> (f, k) in stored && stored[(f, k)] == v
  {
  }

  // ---- calls ----

  /** The use is a call of the callee by the caller, both with an identity. */
  predicate CallBetween(u: Use, caller: Identity, callee: Identity) {
    && u.kind == 3 && u.symbolKind == 7
    && u.usr != [] && Qualified(u.owner, u.name, callee.symbol) && u.usrId == callee.usrId
    && u.contextUsr != [] && u.context == caller.symbol && u.contextUsrId == caller.usrId
  }

  /** Every record that the index gives for this key names the same functions. */
  ghost predicate SameFunctions(r: Request, path: Text, k: RecordKey, u: Use) {
    forall d | RecordSaid(r, path, k, d) ::
      d.usrId == Some(u.usrId) && d.context == u.context && d.contextUsrId == Some(u.contextUsrId)
  }

  lemma CallKey(u: Use, k: RecordKey, d: RecordData, caller: Identity, callee: Identity)
    requires UseRecord(u, k, d) && CallBetween(u, caller, callee)
    ensures k.record == 1 && k.action == 3 && k.kind == 7 && k.symbol == callee.symbol
  {
    QualifiedIs(u.owner, u.name, k.symbol);
    QualifiedIs(u.owner, u.name, callee.symbol);
    hide Qualified, QualifiedName;
  }

  lemma CallIsStored(db: Database, r: Request, f: FileId, u: Use, k: RecordKey, caller: Identity, callee: Identity)
    requires HasFiles(db) && Rewritten(db, r, f) && u in r.index.uses && CallBetween(u, caller, callee)
    requires StoredAt(r, f.path, u.local, u.fileIndex, u.file) && SameFunctions(r, f.path, k, u)
    requires exists d :: UseRecord(u, k, d)
    ensures var after := FullStore(db, r).records;
            && (f, k) in after && after[(f, k)].usrId == Some(callee.usrId)
            && after[(f, k)].context == caller.symbol && after[(f, k)].contextUsrId == Some(caller.usrId)
            && k.record == 1 && k.action == 3 && k.kind == 7 && k.symbol == callee.symbol
  {
    var d :| UseRecord(u, k, d);
    CallKey(u, k, d, caller, callee);
    RecordsAfterStore(db, r, f, k);
    hide HasFiles, Rewritten, FullStore, UseRecord, StoredAt, Qualified;
    assert RecordSaid(r, f.path, k, d);
    hide RecordSaid;
  }

  /** A call in a rewritten file is shown when one asks for the callers of the callee, and when one asks for the callees
      of the caller. */
  lemma CallIsShown(db: Database, r: Request, f: FileId, u: Use, k: RecordKey, caller: Identity, callee: Identity,
                    codec: Codec, table: seq<RecordRow>, direction: Direction, limit: int,
                    pages: seq<Reply<RecordRow>>)
    requires HasFiles(db) && Rewritten(db, r, f) && u in r.index.uses && CallBetween(u, caller, callee)
    requires StoredAt(r, f.path, u.local, u.fileIndex, u.file) && SameFunctions(r, f.path, k, u)
    requires exists d :: UseRecord(u, k, d)
    requires caller.variant == callee.variant == f.variant && ValidFunction(caller) && ValidFunction(callee)
    requires 1 <= limit <= MAX_LIMIT && RecordScan(table, FullStore(db, r).records) && codec.read([]).None?
    requires forall row | row in table :: Lossless(codec, RecordObject(CursorOf(row)))
    requires var identity := if direction.Callers? then callee else caller;
             Walk(DirectCalls(codec, table, direction, identity, limit), pages) && Ends(pages)
    ensures exists row :: row in Items(pages) && row.file == f && row.key == k
  {
    var identity := if direction.Callers? then callee else caller;
    var after := FullStore(db, r).records;
    hide *;
    CallIsStored(db, r, f, u, k, caller, callee);
    CallWalkShows(codec, table, after, direction, identity, limit, pages);
    var row := RecordRow(f, k, after[(f, k)]);
    TableHas(after, f, k, row.data);
    RowIsCall(row, direction, caller, callee);
  }

  lemma RowIsCall(row: RecordRow, direction: Direction, caller: Identity, callee: Identity)
    requires caller.variant == callee.variant == row.file.variant
    requires row.key.record == 1 && row.key.action == 3 && row.key.kind == 7 && row.key.symbol == callee.symbol
    requires row.data.usrId == Some(callee.usrId) && row.data.context == caller.symbol
    requires row.data.contextUsrId == Some(caller.usrId)
    ensures IsCallOf(row, direction, if direction.Callers? then callee else caller)
  {
  }
}
