/** The direct branch of find_callers and find_callees (tools/mcp/mcp_callgraph_tools.cpp): every page streams the calls
    from the start and skips those up to the one whose cursor is given. */
module CallPaging {
  import opened Wrappers
  import opened Index
  import opened Tables
  import opened Ordering
  import opened PageWalk
  import opened Cursors
  import opened Paging

  /** Where the page behind a cursor begins; the first row with that cursor counts. */
  function After<R>(all: seq<R>, token: R -> Text, after: Text): Option<nat> {
    if after == [] then Some(0) else Behind(all, token, after)
  }

  function Behind<R>(all: seq<R>, token: R -> Text, after: Text): (r: Option<nat>)
    ensures r.Some? ==> 0 < r.value <= |all| && token(all[r.value - 1]) == after
                        && forall i | 0 <= i < r.value - 1 :: token(all[i]) != after
    ensures r.None? ==> forall i | 0 <= i < |all| :: token(all[i]) != after
  {
    if all == [] then None
    else if token(all[0]) == after then Some(1)
    else
      match Behind(all[1..], token, after)
      case None => None
      case Some(n) => Some(n + 1)
  }

  // ---- the statement ----

  datatype Direction = Callers | Callees

  /** The kind plays no part: it is always SEMINDEX_SYMBOL_FUNCTION. */
  predicate ValidFunction(identity: Identity) {
    identity.variant != [] && identity.symbol != [] && identity.usrId != 0
  }

  predicate IsCall(key: RecordKey) {
    key.record == 1 && key.action == 3 && key.kind == 7
  }

  /** The WHERE clause; a comparison with NULL is never true. */
  function CallsWith(direction: Direction, identity: Identity): RecordRow -> bool {
    (row: RecordRow) =>
      && row.file.variant == identity.variant && IsCall(row.key)
      && match direction
         case Callers => row.key.symbol == identity.symbol && row.data.usrId == Some(identity.usrId)
         case Callees => row.data.context == identity.symbol && row.data.contextUsrId == Some(identity.usrId)
  }

  /** ORDER BY; calls that differ in nothing but their mode come in the order of the scan. */
  function CallOrder(direction: Direction): RecordRow -> Key {
    (row: RecordRow) =>
      [Chars(match direction case Callers => row.data.context case Callees => row.key.symbol), Chars(row.file.path),
       Number(row.key.line), Number(row.key.column)]
  }

  function Streamed(table: seq<RecordRow>, direction: Direction, identity: Identity): seq<RecordRow> {
    OrderBy(Where(table, CallsWith(direction, identity)), CallOrder(direction))
  }

  // ---- the tool ----

  function DirectCalls(codec: Codec, table: seq<RecordRow>, direction: Direction, identity: Identity, limit: int)
    : Option<Text> -> Reply<RecordRow>
  {
    var all := Streamed(table, direction, identity);
    (cursor: Option<Text>) =>
      if limit < 1 || limit > MAX_LIMIT || !ValidFunction(identity) then InvalidParams
      else
        match After(all, RecordToken(codec), if cursor.Some? then cursor.value else [])
        case None => InvalidParams
        case Some(k) => if k <= |all| then PageAt(all, limit, RecordToken(codec), k) else InvalidParams
  }

  /** collectCallRecord, called for every row until it refuses. */
  method CollectCalls<R>(all: seq<R>, token: R -> Text, after: Text, limit: nat)
    returns (records: seq<R>, afterSeen: bool)
    ensures afterSeen <==> After(all, token, after).Some?
    ensures afterSeen ==> records == Limited(all[After(all, token, after).value..], limit + 1)
    ensures !afterSeen ==> records == []
  {
    records, afterSeen := [], after == [];
    ghost var start := 0;
    FromTheStart(all, token);
    hide After, Behind;
    for i := 0 to |all|
      invariant start <= i && |records| <= limit
      invariant if afterSeen then After(all, token, after) == Some(start) && records == all[start..i]
                else after != [] && records == [] && forall j | 0 <= j < i :: token(all[j]) != after
    {
      if !afterSeen {
        if token(all[i]) == after {
          FirstSeen(all, token, after, i);
          afterSeen, start := true, i + 1;
        }
      } else {
        records := records + [all[i]];
        if |records| > limit {
          assert records == all[start..][..limit + 1];
          return;
        }
      }
    }
    if !afterSeen {
      NeverSeen(all, token, after);
    }
  }

  lemma FromTheStart<R>(all: seq<R>, token: R -> Text)
    ensures After(all, token, []) == Some(0)
  {
  }

  lemma FirstSeen<R>(all: seq<R>, token: R -> Text, after: Text, i: nat)
    requires i < |all| && token(all[i]) == after != [] && forall j | 0 <= j < i :: token(all[j]) != after
    ensures After(all, token, after) == Some(i + 1)
  {
  }

  lemma NeverSeen<R>(all: seq<R>, token: R -> Text, after: Text)
    requires after != [] && forall j | 0 <= j < |all| :: token(all[j]) != after
    ensures After(all, token, after) == None
  {
  }

  method RunDirectCalls(codec: Codec, table: seq<RecordRow>, direction: Direction, identity: Identity, limit: int,
                        token: Option<Text>)
    returns (reply: Reply<RecordRow>)
    ensures reply == DirectCalls(codec, table, direction, identity, limit)(token)
  {
    if limit < 1 || limit > MAX_LIMIT || !ValidFunction(identity) {
      return InvalidParams;
    }
    var cursor := [];
    if token.Some? {
      cursor := token.value;
    }
    var all := Streamed(table, direction, identity);
    var records, afterSeen := CollectCalls(all, RecordToken(codec), cursor, limit);
    if !afterSeen {
      return InvalidParams;
    }
    reply := BuildResult(records, limit, RecordToken(codec));
  }

  // ---- walks ----

  /** The row's cursor brings the reader back to the row itself. */
  predicate Resumes<R(==)>(all: seq<R>, token: R -> Text, row: R) {
    var k := After(all, token, token(row));
    k.Some? && 0 < k.value <= |all| && all[k.value - 1] == row
  }

  ghost predicate Distinct<R>(all: seq<R>) {
    forall i, j | 0 <= i < j < |all| :: all[i] != all[j]
  }

  /** reply answers from the first row with the token. */
  ghost predicate Rescans<R(!new)>(reply: Option<Text> -> Reply<R>, all: seq<R>, limit: nat, token: R -> Text) {
    && reply(None) == PageAt(all, limit, token, 0)
    && forall k | 0 <= k < |all| :: RescansAt(reply, all, limit, token, k)
  }

  ghost predicate RescansAt<R(!new)>(reply: Option<Text> -> Reply<R>, all: seq<R>, limit: nat, token: R -> Text,
                                     k: nat)
    requires k < |all|
  {
    var start := After(all, token, token(all[k]));
    start.Some? && start.value <= k + 1 && reply(Some(token(all[k]))) == PageAt(all, limit, token, start.value)
  }

  lemma RowIsFound<R>(all: seq<R>, token: R -> Text, k: nat)
    requires k < |all|
    ensures var start := After(all, token, token(all[k])); start.Some? && start.value <= k + 1
  {
  }

  lemma CallsRescan(codec: Codec, table: seq<RecordRow>, direction: Direction, identity: Identity, limit: int)
    requires 1 <= limit <= MAX_LIMIT && ValidFunction(identity)
    ensures Rescans(DirectCalls(codec, table, direction, identity, limit), Streamed(table, direction, identity), limit,
                    RecordToken(codec))
  {
    var all := Streamed(table, direction, identity);
    hide PageAt, RecordToken, ValidFunction, Streamed;
    forall k | 0 <= k < |all|
      ensures RescansAt(DirectCalls(codec, table, direction, identity, limit), all, limit, RecordToken(codec), k)
    {
      RowIsFound(all, RecordToken(codec), k);
    }
  }

  lemma ResumesHere<R>(all: seq<R>, token: R -> Text, k: nat)
    requires Distinct(all) && k < |all|
    ensures Resumes(all, token, all[k]) <==> After(all, token, token(all[k])) == Some(k + 1)
  {
  }

  lemma RescansAccepts<R(!new)>(reply: Option<Text> -> Reply<R>, all: seq<R>, limit: nat, token: R -> Text)
    requires Rescans(reply, all, limit, token) && Distinct(all)
    ensures AcceptedPager(reply, all, limit, token, (row: R) => Resumes(all, token, row))
  {
    hide PageAt, After, Distinct, Resumes;
    forall k | 0 < k < |all| && Resumes(all, token, all[k - 1])
      ensures reply(Some(token(all[k - 1]))) == PageAt(all, limit, token, k)
    {
      ResumesHere(all, token, k - 1);
      assert RescansAt(reply, all, limit, token, k - 1);
    }
  }

  /** A walk never skips a row; one that shows each row once has gone forward only. */
  lemma {:induction false} NothingSkipped<R(!new)>(
    reply: Option<Text> -> Reply<R>, all: seq<R>, limit: nat, token: R -> Text, pages: seq<Reply<R>>, k: nat)
    requires Rescans(reply, all, limit, token) && Distinct(all) && limit >= 1 && k <= |all|
    requires pages != [] && Follows(reply, pages) && pages[0] == PageAt(all, limit, token, k) && Ends(pages)
    ensures |Items(pages)| >= |all| - k
    ensures |Items(pages)| == |all| - k ==>
              BoundariesAccepted(all, limit, (row: R) => Resumes(all, token, row), k)
    decreases |pages|
  {
    hide *;
    FirstPage(all, limit, token, pages, k);
    ItemsStep(pages);
    if k + limit < |all| {
      var next := NextRescan(reply, all, limit, token, pages, k);
      NothingSkipped(reply, all, limit, token, pages[1..], next);
      ForwardStep(all, limit, token, k);
    } else {
      NoMoreBoundaries(all, limit, token, k);
    }
  }

  lemma ItemsStep<R>(pages: seq<Reply<R>>)
    requires pages != [] && pages[0].Success?
    ensures Items(pages) == pages[0].items + Items(pages[1..])
  {
  }

  lemma NextRescan<R(!new)>(
    reply: Option<Text> -> Reply<R>, all: seq<R>, limit: nat, token: R -> Text, pages: seq<Reply<R>>, k: nat)
    returns (next: nat)
    requires Rescans(reply, all, limit, token) && limit >= 1 && k + limit < |all|
    requires pages != [] && Follows(reply, pages) && pages[0] == PageAt(all, limit, token, k) && Ends(pages)
    ensures |pages| > 1 && Follows(reply, pages[1..]) && Ends(pages[1..])
    ensures After(all, token, token(all[k + limit - 1])) == Some(next) && next <= k + limit
    ensures pages[1] == PageAt(all, limit, token, next)
  {
    PageFacts(all, limit, token, k);
    hide PageAt, After;
    assert RescansAt(reply, all, limit, token, k + limit - 1);
    next := After(all, token, token(all[k + limit - 1])).value;
    assert pages[1] == reply(pages[0].next);
  }

  lemma ForwardStep<R>(all: seq<R>, limit: nat, token: R -> Text, k: nat)
    requires Distinct(all) && limit >= 1 && k + limit < |all|
    ensures After(all, token, token(all[k + limit - 1])) == Some(k + limit)
            <==> Resumes(all, token, all[k + limit - 1])
    ensures Resumes(all, token, all[k + limit - 1])
            && BoundariesAccepted(all, limit, (row: R) => Resumes(all, token, row), k + limit) ==>
              BoundariesAccepted(all, limit, (row: R) => Resumes(all, token, row), k)
  {
    ResumesHere(all, token, k + limit - 1);
    hide Resumes, After, Distinct;
  }

  lemma NoMoreBoundaries<R>(all: seq<R>, limit: nat, token: R -> Text, k: nat)
    requires limit >= 1 && k + limit >= |all|
    ensures BoundariesAccepted(all, limit, (row: R) => Resumes(all, token, row), k)
  {
  }

  // ---- the promise ----

  /** The calls of one function: records with distinct primary keys. */
  ghost predicate CallRows(all: seq<RecordRow>) {
    && (forall row | row in all :: IsCall(row.key))
    && (forall a, b | a in all && b in all && a.file == b.file && a.key == b.key :: a == b)
    && Distinct(all)
  }

  lemma StreamedRows(table: seq<RecordRow>, stored: FileTable<RecordKey, RecordData>, direction: Direction,
                     identity: Identity)
    requires RecordScan(table, stored)
    ensures CallRows(Streamed(table, direction, identity))
  {
    var keep, key := CallsWith(direction, identity), CallOrder(direction);
    var rows := Where(table, keep);
    var all := OrderBy(rows, key);
    RecordsDistinct(table, stored, keep);
    OrderBySorts(rows, key);
    forall row | row in all ensures row in table && keep(row) {
      OrderByMember(rows, key, row);
      WhereMember(table, keep, row);
    }
    hide OrderBy, Where;
    assert Distinct(rows);
    SameRows(rows, all);
  }

  lemma StreamedDistinct(table: seq<RecordRow>, stored: FileTable<RecordKey, RecordData>, direction: Direction,
                         identity: Identity)
    requires RecordScan(table, stored)
    ensures Distinct(Streamed(table, direction, identity))
  {
    StreamedRows(table, stored, direction, identity);
  }

  lemma SameRows<R>(a: seq<R>, b: seq<R>)
    requires Distinct(a) && multiset(a) == multiset(b)
    ensures Distinct(b)
  {
    forall i, j | 0 <= i < j < |b| ensures b[i] != b[j] {
      if b[i] == b[j] {
        Twice(b, i, j);
        Once(a, b[i]);
      }
    }
  }

  lemma Twice<R>(b: seq<R>, i: nat, j: nat)
    requires i < j < |b| && b[i] == b[j]
    ensures multiset(b)[b[i]] >= 2
  {
    assert b == b[..j] + b[j..];
    assert b[..j][i] == b[i] && b[j..][0] == b[j];
  }

  lemma {:induction false} Once<R>(a: seq<R>, row: R)
    requires Distinct(a)
    ensures multiset(a)[row] <= 1
  {
    if a != [] {
      assert a == [a[0]] + a[1..];
      Once(a[1..], row);
      assert a[0] !in a[1..];
    }
  }

  /** Direct calls, whatever the names and positions are: a walk shows every call once exactly when the first call with
      the cursor of a row that closes a page is that row; then no walk goes on for ever or shows anything else. */
  lemma CallPagesPartition(codec: Codec, table: seq<RecordRow>, stored: FileTable<RecordKey, RecordData>,
                           direction: Direction, identity: Identity, limit: int)
    requires 1 <= limit <= MAX_LIMIT && ValidFunction(identity) && RecordScan(table, stored)
    ensures var all := Streamed(table, direction, identity);
            var reply := DirectCalls(codec, table, direction, identity, limit);
            var resumes := (row: RecordRow) => Resumes(all, RecordToken(codec), row);
            && ((exists pages :: Walk(reply, pages) && Ends(pages) && Items(pages) == all)
                <==> BoundariesAccepted(all, limit, resumes, 0))
            && (BoundariesAccepted(all, limit, resumes, 0) ==>
                  && (forall pages | Walk(reply, pages) :: Items(pages) <= all && |pages| <= 1 + |all|)
                  && (forall pages | Walk(reply, pages) && Ends(pages) :: Items(pages) == all))
  {
    var reply, token := DirectCalls(codec, table, direction, identity, limit), RecordToken(codec);
    var all := Streamed(table, direction, identity);
    var resumes := (row: RecordRow) => Resumes(all, RecordToken(codec), row);
    hide *;
    StreamedDistinct(table, stored, direction, identity);
    CallsRescan(codec, table, direction, identity, limit);
    if BoundariesAccepted(all, limit, resumes, 0) {
      RescansAccepts(reply, all, limit, token);
      AcceptedPagesPartition(reply, all, limit, token, resumes);
    }
    CompleteWalkIsForward(reply, all, limit, token);
  }

  lemma CompleteWalkIsForward<R(!new)>(reply: Option<Text> -> Reply<R>, all: seq<R>, limit: nat, token: R -> Text)
    requires Rescans(reply, all, limit, token) && Distinct(all) && limit >= 1
    ensures (exists pages :: Walk(reply, pages) && Ends(pages) && Items(pages) == all) ==>
              BoundariesAccepted(all, limit, (row: R) => Resumes(all, token, row), 0)
  {
    hide Rescans, Distinct, Follows, Items, PageAt, Resumes, BoundariesAccepted, Ends;
    if pages :| Walk(reply, pages) && Ends(pages) && Items(pages) == all {
      WalkBegins(reply, all, limit, token, pages);
      NothingSkipped(reply, all, limit, token, pages, 0);
    }
  }

  lemma WalkBegins<R(!new)>(reply: Option<Text> -> Reply<R>, all: seq<R>, limit: nat, token: R -> Text,
                            pages: seq<Reply<R>>)
    requires Rescans(reply, all, limit, token) && Walk(reply, pages)
    ensures pages != [] && Follows(reply, pages) && pages[0] == PageAt(all, limit, token, 0)
  {
  }

  /** When cursors are read back as they were written every row can close a page, at line 0 and without a name too. */
  lemma LosslessCallPages(codec: Codec, table: seq<RecordRow>, stored: FileTable<RecordKey, RecordData>,
                          direction: Direction, identity: Identity, limit: int)
    requires 1 <= limit <= MAX_LIMIT && ValidFunction(identity) && RecordScan(table, stored) && codec.read([]).None?
    requires forall row | row in Streamed(table, direction, identity) :: Lossless(codec, RecordObject(CursorOf(row)))
    ensures var all := Streamed(table, direction, identity);
            var reply := DirectCalls(codec, table, direction, identity, limit);
            && (exists pages :: Walk(reply, pages) && Ends(pages))
            && (forall pages | Walk(reply, pages) :: Items(pages) <= all && |pages| <= 1 + |all|)
            && (forall pages | Walk(reply, pages) && Ends(pages) :: Items(pages) == all)
  {
    var all, token := Streamed(table, direction, identity), RecordToken(codec);
    hide *;
    StreamedRows(table, stored, direction, identity);
    forall row | row in all ensures Resumes(all, token, row) {
      LosslessCallResumes(codec, all, row);
    }
    AcceptedBoundaries(all, limit, (row: RecordRow) => Resumes(all, token, row), 0);
    CallPagesPartition(codec, table, stored, direction, identity, limit);
  }

  lemma LosslessCallResumes(codec: Codec, all: seq<RecordRow>, row: RecordRow)
    requires CallRows(all) && row in all && codec.read([]).None?
    requires forall r | r in all :: Lossless(codec, RecordObject(CursorOf(r)))
    ensures Resumes(all, RecordToken(codec), row)
  {
    var token := RecordToken(codec);
    hide *;
    TokenIsText(codec, row);
    forall r | r in all && token(r) == token(row) ensures r == row {
      TokenIsPrimary(codec, all, r, row);
    }
    ResumesAlone(all, token, row);
  }

  lemma TokenIsText(codec: Codec, row: RecordRow)
    requires codec.read([]).None? && Lossless(codec, RecordObject(CursorOf(row)))
    ensures RecordToken(codec)(row) != []
  {
    TokenRoundTrip(codec, RecordObject(CursorOf(row)));
  }

  lemma TokenIsPrimary(codec: Codec, all: seq<RecordRow>, a: RecordRow, b: RecordRow)
    requires CallRows(all) && a in all && b in all && RecordToken(codec)(a) == RecordToken(codec)(b)
    requires Lossless(codec, RecordObject(CursorOf(a))) && Lossless(codec, RecordObject(CursorOf(b)))
    ensures a == b
  {
    var x, y := RecordObject(CursorOf(a)), RecordObject(CursorOf(b));
    TokenRoundTrip(codec, x);
    TokenRoundTrip(codec, y);
    assert x[Variant] == y[Variant] && x[Path] == y[Path] && x[SymbolName] == y[SymbolName];
    assert x[Line] == y[Line] && x[Column] == y[Column] && x[Mode] == y[Mode];
    assert a.key == b.key && a.file == b.file;
  }

  lemma ResumesAlone<R>(all: seq<R>, token: R -> Text, row: R)
    requires row in all && token(row) != [] && forall r | r in all && token(r) == token(row) :: r == row
    ensures Resumes(all, token, row)
  {
  }

  /** Paths that JSON does not tell apart: if the first two of three calls share a cursor, the reader who asks for one
      call at a time gets the second one for ever. */
  lemma SharedCursorLoops(codec: Codec, table: seq<RecordRow>, direction: Direction, identity: Identity)
    requires ValidFunction(identity) && |Streamed(table, direction, identity)| > 2
    requires var all, token := Streamed(table, direction, identity), RecordToken(codec);
             token(all[0]) == token(all[1]) != []
    ensures var reply := DirectCalls(codec, table, direction, identity, 1);
            !exists pages :: Walk(reply, pages) && Ends(pages)
  {
    var all, token := Streamed(table, direction, identity), RecordToken(codec);
    var reply := DirectCalls(codec, table, direction, identity, 1);
    hide Streamed, RecordToken, DirectCalls, PageAt, Follows;
    CallsRescan(codec, table, direction, identity, 1);
    PageFacts(all, 1, token, 0);
    PageFacts(all, 1, token, 1);
    assert RescansAt(reply, all, 1, token, 0);
    assert After(all, token, token(all[0])) == Some(1);
    forall pages | Walk(reply, pages) ensures !Ends(pages) {
      SameCursorAgain(reply, pages, token(all[0]));
    }
  }

  lemma {:induction false} SameCursorAgain<R>(reply: Option<Text> -> Reply<R>, pages: seq<Reply<R>>, cursor: Text)
    requires pages != [] && Follows(reply, pages) && pages[0].Success? && pages[0].next == Some(cursor)
    requires reply(Some(cursor)).Success? && reply(Some(cursor)).next == Some(cursor)
    ensures !Ends(pages)
  {
    if |pages| > 1 {
      SameCursorAgain(reply, pages[1..], cursor);
    }
  }
}
