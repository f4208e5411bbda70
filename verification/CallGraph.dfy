/** The recursive branch of find_callers and find_callees (tools/mcp/mcp_callgraph_tools.cpp): a breadth-first
    search bounded in depth, functions and records. */
module CallGraph {
  import opened Wrappers
  import opened Index

  /** A function: the identity's kind is always SEMINDEX_SYMBOL_FUNCTION here. */
  datatype Identity = Identity(variant: Text, symbol: Text, usrId: uint64)

  /** A call row of the records table; a NULL id is None. */
  datatype CallRow = CallRow(
    variant: Text, path: Text, line: uint32, column: uint32, symbol: Text, usrId: Option<uint64>,
    context: Text, contextUsrId: Option<uint64>)

  datatype Direction = Callers | Callees

  /** calls holds the database's call rows in the order in which the call query streams them. */
  datatype Query = Query(
    calls: seq<CallRow>, direction: Direction, root: Identity, depth: nat, nodeLimit: nat, limit: nat)

  datatype Pending = Pending(identity: Identity, depth: nat, ancestors: set<Identity>)

  datatype Entry = Entry(row: CallRow, depth: nat)

  datatype Search = Search(
    pending: seq<Pending>, visited: set<Identity>, records: seq<Entry>, nodeLimitHit: bool, cyclesDetected: bool)

  datatype Result =
    | Graph(records: seq<Entry>, truncated: bool, nodeLimitHit: bool, cyclesDetected: bool)
    | DatabaseError

  // ---- the database query ----

  /** The WHERE clause; a comparison with NULL is never true. */
  predicate Matches(row: CallRow, direction: Direction, f: Identity) {
    && row.variant == f.variant
    && match direction
       case Callers => row.symbol == f.symbol && row.usrId == Some(f.usrId)
       case Callees => row.context == f.symbol && row.contextUsrId == Some(f.usrId)
  }

  /** All rows of a function, in order. */
  function Calls(rows: seq<CallRow>, direction: Direction, f: Identity): seq<CallRow> {
    if rows == [] then []
    else (if Matches(rows[0], direction, f) then [rows[0]] else []) + Calls(rows[1..], direction, f)
  }

  function CallsOf(q: Query, f: Identity): seq<CallRow> {
    Calls(q.calls, q.direction, f)
  }

  /** The function at the other end of a row; a NULL id is read as 0. */
  function NextOf(row: CallRow, direction: Direction): Identity {
    match direction
    case Callers => Identity(row.variant, row.context, if row.contextUsrId.Some? then row.contextUsrId.value else 0)
    case Callees => Identity(row.variant, row.symbol, if row.usrId.Some? then row.usrId.value else 0)
  }

  /** The collector stops the query once it holds `limit` rows. */
  function Collect(q: Query, f: Identity, limit: nat): seq<CallRow> {
    if |CallsOf(q, f)| <= limit then CallsOf(q, f) else CallsOf(q, f)[..limit]
  }

  // ---- the search ----

  function Visit(q: Query, s: Search, f: Pending, row: CallRow): Search {
    var next := NextOf(row, q.direction);
    var entry := Entry(row, f.depth + 1);
    if next in f.ancestors then s.(cyclesDetected := true, records := s.records + [entry])
    else if next in s.visited then s.(records := s.records + [entry])
    else if |s.visited| >= q.nodeLimit then s.(nodeLimitHit := true)
    else
      s.(visited := s.visited + {next},
         pending := s.pending + [Pending(next, f.depth + 1, f.ancestors + {next})],
         records := s.records + [entry])
  }

  /** The rows of one function, until the record limit is exceeded. */
  function VisitRows(q: Query, s: Search, f: Pending, rows: seq<CallRow>): (t: Search)
    requires |s.visited| <= q.nodeLimit
    ensures |t.visited| <= q.nodeLimit
    ensures 2 * |s.visited| - |s.pending| <= 2 * |t.visited| - |t.pending|
    decreases |rows|
  {
    if rows == [] || |s.records| > q.limit then s
    else VisitRows(q, Visit(q, s, f, rows[0]), f, rows[1..])
  }

  /** The work loop; None is a failed query, which a function without a name causes. */
  function Traverse(q: Query, s: Search): Option<Search>
    requires |s.visited| <= q.nodeLimit
    decreases 2 * (q.nodeLimit - |s.visited|) + |s.pending|
  {
    if s.pending == [] || |s.records| > q.limit then Some(s)
    else
      var f, rest := s.pending[0], s.(pending := s.pending[1..]);
      if f.depth >= q.depth then Traverse(q, rest)
      else if f.identity.symbol == [] then None
      else Traverse(q, VisitRows(q, rest, f, Collect(q, f.identity, q.limit + 1 - |s.records|)))
  }

  function Initial(q: Query): Search {
    Search([Pending(q.root, 0, {q.root})], {q.root}, [], false, false)
  }

  function GraphResult(q: Query, s: Search): Result {
    var more := |s.records| > q.limit;
    Graph(if more then s.records[..q.limit] else s.records, more || s.nodeLimitHit, s.nodeLimitHit, s.cyclesDetected)
  }

  function Recursive(q: Query): Result
    requires q.nodeLimit >= 1
  {
    match Traverse(q, Initial(q))
    case None => DatabaseError
    case Some(s) => GraphResult(q, s)
  }

  lemma NextCall(rows: seq<CallRow>, direction: Direction, f: Identity, i: nat)
    requires i < |rows|
    ensures Calls(rows[i..], direction, f)
            == (if Matches(rows[i], direction, f) then [rows[i]] else []) + Calls(rows[i + 1..], direction, f)
  {
    hide Matches;
    assert rows[i..][1..] == rows[i + 1..];
  }

  /** semindex_db_query_calls with the graph collector: false is a failed query. */
  method QueryCalls(q: Query, f: Identity, limit: nat) returns (ok: bool, rows: seq<CallRow>)
    requires limit >= 1
    ensures ok <==> f.symbol != []
    ensures ok ==> rows == Collect(q, f, limit)
  {
    hide Matches, Calls;
    rows := [];
    if f.symbol == [] {
      return false, rows;
    }
    var i := 0;
    assert q.calls[0..] == q.calls && [] + CallsOf(q, f) == CallsOf(q, f);
    while i < |q.calls|
      invariant i <= |q.calls| && |rows| < limit
      invariant CallsOf(q, f) == rows + Calls(q.calls[i..], q.direction, f)
    {
      NextCall(q.calls, q.direction, f, i);
      if Matches(q.calls[i], q.direction, f) {
        rows := rows + [q.calls[i]];
        if |rows| >= limit {
          assert CallsOf(q, f)[..limit] == rows;
          return true, rows;
        }
      }
      i := i + 1;
    }
    NoCalls(q.direction, f);
    assert q.calls[i..] == [] && rows + [] == rows;
    return true, rows;
  }

  lemma NoCalls(direction: Direction, f: Identity)
    ensures Calls([], direction, f) == []
  {
  }

  lemma NextVisit(q: Query, s: Search, f: Pending, rows: seq<CallRow>, i: nat)
    requires |s.visited| <= q.nodeLimit && |s.records| <= q.limit && i < |rows|
    ensures |Visit(q, s, f, rows[i]).visited| <= q.nodeLimit
    ensures VisitRows(q, s, f, rows[i..]) == VisitRows(q, Visit(q, s, f, rows[i]), f, rows[i + 1..])
  {
    hide NextOf;
  }

  lemma NoVisit(q: Query, s: Search, f: Pending, rows: seq<CallRow>)
    requires |s.visited| <= q.nodeLimit && (rows == [] || |s.records| > q.limit)
    ensures VisitRows(q, s, f, rows) == s
  {
  }

  /** The loop over the collected rows of one function. */
  method VisitCollected(q: Query, s: Search, f: Pending, rows: seq<CallRow>) returns (t: Search)
    requires |s.visited| <= q.nodeLimit && |s.records| <= q.limit
    ensures t == VisitRows(q, s, f, rows)
  {
    hide NextOf, VisitRows;
    t := s;
    var i := 0;
    assert rows[0..] == rows;
    while i < |rows|
      invariant i <= |rows| && |t.visited| <= q.nodeLimit && |t.records| <= q.limit
      invariant VisitRows(q, s, f, rows) == VisitRows(q, t, f, rows[i..])
    {
      NextVisit(q, t, f, rows, i);
      var next := NextOf(rows[i], q.direction);
      if next in f.ancestors {
        t := t.(cyclesDetected := true);
      } else if next !in t.visited {
        if |t.visited| >= q.nodeLimit {
          t := t.(nodeLimitHit := true);
          i := i + 1;
          continue;
        }
        t := t.(visited := t.visited + {next},
                pending := t.pending + [Pending(next, f.depth + 1, f.ancestors + {next})]);
      }
      t := t.(records := t.records + [Entry(rows[i], f.depth + 1)]);
      i := i + 1;
      if |t.records| > q.limit {
        NoVisit(q, t, f, rows[i..]);
        return;
      }
    }
    NoVisit(q, t, f, rows[i..]);
  }

  /** callRecords with depth > 1. */
  method RecursiveCallRecords(q: Query) returns (result: Result)
    requires q.nodeLimit >= 1
    ensures result == Recursive(q)
  {
    hide Visit, CallsOf;
    var s := Initial(q);
    while s.pending != [] && |s.records| <= q.limit
      invariant |s.visited| <= q.nodeLimit && Traverse(q, Initial(q)) == Traverse(q, s)
      decreases 2 * (q.nodeLimit - |s.visited|) + |s.pending|
    {
      var f := s.pending[0];
      s := s.(pending := s.pending[1..]);
      if f.depth >= q.depth {
        continue;
      }
      var ok, rows := QueryCalls(q, f.identity, q.limit + 1 - |s.records|);
      if !ok {
        return DatabaseError;
      }
      s := VisitCollected(q, s, f, rows);
    }
    result := GraphResult(q, s);
  }
}
