/** What the bounded search promises: exactness when it is not truncated, honesty when it is. */
module CallGraphResults {
  import opened Wrappers
  import opened Index
  import opened CallGraph
  import opened CallGraphSearch
  import opened CallGraphOrder

  /** The search ends in a state that satisfies the invariants, or meets a function without a name. */
  lemma {:induction false} TraverseEnds(q: Query, s: Search, all: seq<Pending>, taken: nat)
    returns (last: seq<Pending>, end: nat)
    requires SearchInv(q, s, all, taken) && Traced(q, s, all, taken) && |s.visited| <= q.nodeLimit
    ensures match Traverse(q, s)
            case None => NamelessInReach(q)
            case Some(t) =>
              SearchInv(q, t, last, end) && Traced(q, t, last, end) && (|t.records| <= q.limit ==> end == |last|)
    decreases 2 * (q.nodeLimit - |s.visited|) + |s.pending|
  {
    hide SearchInv, Traced, VisitRows, Collect, AtDistance, AllAfterRows;
    QueueFacts(q, s, all, taken);
    last, end := all, taken;
    if taken < |all| && |s.records| <= q.limit {
      var f, rest := all[taken], s.(pending := s.pending[1..]);
      if f.depth >= q.depth {
        DropKeeps(q, s, all, taken);
        DropTraced(q, s, all, taken);
        last, end := TraverseEnds(q, rest, all, taken + 1);
      } else if f.identity.symbol != [] {
        last := ExpandKeeps(q, s, all, taken);
        ExpandTraced(q, s, all, taken);
        var t := VisitRows(q, rest, f, Collect(q, f.identity, q.limit + 1 - |s.records|));
        last, end := TraverseEnds(q, t, last, taken + 1);
      }
    }
  }

  lemma InitialInv(q: Query)
    requires q.nodeLimit >= 1
    ensures SearchInv(q, Initial(q), [Pending(q.root, 0, {q.root})], 0)
  {
    assert Reach(q, q.root, q.root, 0);
    assert ReachesFrom(q, q.root, q.root);
    assert [Pending(q.root, 0, {q.root})][0].identity == q.root;
  }

  // ---- the promises ----

  /** A record's function and its exact distance from the root. */
  predicate TrueDepth(q: Query, e: Entry) {
    var f := OwnerOf(e.row, q.direction);
    1 <= e.depth <= q.depth && f.Some? && AtDistance(q, f.value, e.depth - 1)
  }

  lemma HonestIsTrue(q: Query, e: Entry)
    requires Honest(q, e)
    ensures TrueDepth(q, e)
  {
    hide AtDistance;
    var f, n: nat :| AtDistance(q, f, n) && n < q.depth && e.row in CallsOf(q, f) && e.depth == n + 1;
    CallsMatch(q.calls, q.direction, f, e.row);
  }

  /** The final state of a search that did not fail. */
  lemma SearchEnds(q: Query) returns (t: Search, last: seq<Pending>, end: nat)
    requires q.nodeLimit >= 1 && Recursive(q).Graph?
    ensures Recursive(q) == GraphResult(q, t) && SearchInv(q, t, last, end) && Traced(q, t, last, end)
    ensures |t.records| <= q.limit ==> end == |last|
  {
    hide SearchInv, Traced;
    InitialInv(q);
    InitialTraced(q);
    t := Traverse(q, Initial(q)).value;
    last, end := TraverseEnds(q, Initial(q), [Pending(q.root, 0, {q.root})], 0);
  }

  lemma RangeIsListed(q: Query, visited: set<Identity>, last: seq<Pending>)
    requires q.depth >= 1 && Holds(visited, last) && forall i | 0 <= i < |last| :: NodeInv(q, visited, last[i])
    requires Within(q, q.depth - 1) <= visited
    ensures Listed(q, last) == Within(q, q.depth - 1)
  {
    hide Listed, Within, NodeInv;
    ListedWithin(q, visited, last);
    forall x | x in Within(q, q.depth - 1) ensures x in Listed(q, last) {
      var i :| 0 <= i < |last| && last[i].identity == x;
      ShallowLabel(q, visited, last[i], q.depth - 1);
      ListedOnes(q, last);
      assert last[i].identity == x && last[i].depth < q.depth;
    }
  }

  lemma FunctionsInRange(q: Query, t: Search, last: seq<Pending>)
    requires QueueInv(q, t, last, |last|) && Expanded(q, t.visited, last) && q.depth >= 1
    ensures Listed(q, last) == Within(q, q.depth - 1) && Within(q, q.depth) <= t.visited
  {
    hide Listed, Within, NodeInv, Holds, OnceEach, BreadthFirst, Expanded;
    assert last[..|last|] == last;
    LevelsVisited(q, t, last, |last|, q.depth, q.depth);
    WithinGrows(q, q.depth - 1, q.depth);
    RangeIsListed(q, t.visited, last);
  }

  lemma UntruncatedState(q: Query, t: Search, last: seq<Pending>)
    requires SearchInv(q, t, last, |last|) && !t.nodeLimitHit && |t.records| <= q.limit && q.depth >= 1
    ensures multiset(Rows(t.records)) == multiset(InRange(q))
    ensures |Within(q, q.depth)| <= q.nodeLimit
  {
    hide Expanded, Listing, Within, CountInv, RecordsInv, Holds, BreadthFirst, NodeInv, Rows, RowsOf, Listed;
    assert last[..|last|] == last;
    FunctionsInRange(q, t, last);
    ListingRows(q, last);
    SubsetSize(Within(q, q.depth), t.visited);
  }

  /** An untruncated answer is exactly right: the rows of all functions at distance less than the depth bound, each
      once, recorded one below their shortest distance. */
  lemma UntruncatedIsExact(q: Query)
    requires q.nodeLimit >= 1 && q.depth >= 1 && Recursive(q).Graph? && !Recursive(q).truncated
    ensures multiset(Rows(Recursive(q).records)) == multiset(InRange(q))
    ensures forall e | e in Recursive(q).records :: TrueDepth(q, e)
  {
    var t, last, end := SearchEnds(q);
    hide Recursive, SearchInv, TrueDepth;
    UntruncatedState(q, t, last);
    TruncatedIsHonest(q);
  }

  /** Truncated or not, no record is wrong: depths are exact and never decrease, and the record limit is kept. */
  lemma TruncatedIsHonest(q: Query)
    requires q.nodeLimit >= 1 && Recursive(q).Graph?
    ensures var r := Recursive(q);
            && |r.records| <= q.limit
            && (forall e | e in r.records :: TrueDepth(q, e))
            && (forall i, j | 0 <= i < j < |r.records| :: r.records[i].depth <= r.records[j].depth)
  {
    var t, last, end := SearchEnds(q);
    assert RecordsInv(q, t, Deepest(last, end));
    hide SearchInv, TrueDepth;
    var records := Recursive(q).records;
    assert forall i | 0 <= i < |records| :: records[i] == t.records[i];
    hide Recursive;
    forall e | e in records ensures TrueDepth(q, e) {
      var i :| 0 <= i < |records| && records[i] == e;
      HonestIsTrue(q, t.records[i]);
    }
  }

  /** The answer is truncated exactly when more functions or rows are in range than the limits allow. */
  lemma TruncatedIffTooMuch(q: Query)
    requires q.nodeLimit >= 1 && q.depth >= 1 && Recursive(q).Graph?
    ensures Recursive(q).truncated <==> |Within(q, q.depth)| > q.nodeLimit || |InRange(q)| > q.limit
  {
    var t, last, end := SearchEnds(q);
    var r := Recursive(q);
    hide Recursive;
    if r.truncated {
      assert RecordsInv(q, t, Deepest(last, end)) && CountInv(q, t);
    } else {
      hide SearchInv;
      UntruncatedState(q, t, last);
      assert |multiset(Rows(t.records))| == |t.records|;
    }
  }

  /** A reported cycle is a cycle of calls within reach. */
  lemma ReportedCyclesAreReal(q: Query)
    requires q.nodeLimit >= 1 && Recursive(q).Graph? && Recursive(q).cyclesDetected
    ensures exists f :: f in Within(q, q.depth) && OnCycle(q, f)
  {
    var t, last, end := SearchEnds(q);
    assert RecordsInv(q, t, Deepest(last, end));
  }

  /** A call of a function to itself, or back to the root. */
  predicate Returns(q: Query, row: CallRow) {
    NextOf(row, q.direction) == q.root || OwnerOf(row, q.direction) == Some(NextOf(row, q.direction))
  }

  predicate KnowsItsAncestors(q: Query, p: Pending) {
    p.identity in p.ancestors && q.root in p.ancestors
  }

  ghost predicate Caught(q: Query, s: Search) {
    && (forall p | p in s.pending :: KnowsItsAncestors(q, p))
    && (forall e | e in s.records && Returns(q, e.row) :: s.cyclesDetected)
  }

  lemma VisitCatches(q: Query, s: Search, f: Pending, row: CallRow)
    requires Caught(q, s) && KnowsItsAncestors(q, f) && OwnerOf(row, q.direction) == Some(f.identity)
    ensures Caught(q, Visit(q, s, f, row))
  {
    hide NextOf, OwnerOf;
  }

  lemma {:induction false} VisitRowsCatch(q: Query, s: Search, f: Pending, rows: seq<CallRow>)
    requires |s.visited| <= q.nodeLimit && Caught(q, s) && KnowsItsAncestors(q, f)
    requires forall row | row in rows :: OwnerOf(row, q.direction) == Some(f.identity)
    ensures Caught(q, VisitRows(q, s, f, rows))
    decreases |rows|
  {
    hide Caught, OwnerOf;
    if rows != [] && |s.records| <= q.limit {
      VisitCatches(q, s, f, rows[0]);
      VisitRowsCatch(q, Visit(q, s, f, rows[0]), f, rows[1..]);
    }
  }

  lemma {:induction false} TraverseCatches(q: Query, s: Search)
    requires |s.visited| <= q.nodeLimit && Caught(q, s)
    ensures Traverse(q, s).Some? ==> Caught(q, Traverse(q, s).value)
    decreases 2 * (q.nodeLimit - |s.visited|) + |s.pending|
  {
    hide VisitRows, OwnerOf, CallsOf, Returns, KnowsItsAncestors;
    if s.pending != [] && |s.records| <= q.limit {
      var f, rest := s.pending[0], s.(pending := s.pending[1..]);
      assert Caught(q, rest);
      if f.depth >= q.depth {
        TraverseCatches(q, rest);
      } else if f.identity.symbol != [] {
        var rows := Collect(q, f.identity, q.limit + 1 - |s.records|);
        CollectedAreOwn(q, f.identity, q.limit + 1 - |s.records|);
        hide Caught, Collect;
        VisitRowsCatch(q, rest, f, rows);
        TraverseCatches(q, VisitRows(q, rest, f, rows));
      }
    }
  }

  lemma CollectedAreOwn(q: Query, f: Identity, limit: nat)
    ensures forall row | row in Collect(q, f, limit) :: OwnerOf(row, q.direction) == Some(f)
  {
    CollectIsPrefix(q, f, limit);
    forall row | row in Collect(q, f, limit) ensures OwnerOf(row, q.direction) == Some(f) {
      assert row in CallsOf(q, f);
      CallsMatch(q.calls, q.direction, f, row);
    }
  }

  /** Truncated or not, an answer that holds a call of a function to itself or back to the root reports a cycle. */
  lemma RecordedReturnsAreReported(q: Query)
    requires q.nodeLimit >= 1 && Recursive(q).Graph?
    ensures (exists e :: e in Recursive(q).records && Returns(q, e.row)) ==> Recursive(q).cyclesDetected
  {
    assert Caught(q, Initial(q));
    TraverseCatches(q, Initial(q));
    hide Traverse, Returns;
  }

  /** The search fails only when a function without a name is in range. */
  lemma FailureNeedsNameless(q: Query)
    requires q.nodeLimit >= 1 && Recursive(q).DatabaseError?
    ensures NamelessInReach(q)
  {
    InitialInv(q);
    InitialTraced(q);
    hide SearchInv, NamelessInReach, Traced;
    var last, end := TraverseEnds(q, Initial(q), [Pending(q.root, 0, {q.root})], 0);
  }

  // ---- searches within the limits ----

  predicate WithinLimits(q: Query)
    requires q.depth >= 1
  {
    |Within(q, q.depth)| <= q.nodeLimit && |InRange(q)| <= q.limit
  }

  /** The final state of a search within the limits that did not fail: everything in range was searched. */
  lemma CompleteSearch(q: Query) returns (t: Search, last: seq<Pending>)
    requires q.nodeLimit >= 1 && q.depth >= 1 && WithinLimits(q) && Recursive(q).Graph?
    ensures Recursive(q).cyclesDetected == t.cyclesDetected && !t.nodeLimitHit && |t.records| <= q.limit
    ensures Traced(q, t, last, |last|) && SearchInv(q, t, last, |last|)
    ensures Listed(q, last) == Within(q, q.depth - 1)
  {
    var end: nat;
    TruncatedIffTooMuch(q);
    t, last, end := SearchEnds(q);
    assert !t.nodeLimitHit && |t.records| <= q.limit;
    hide Recursive, Within, InRange, QueueInv, RecordsInv, CountInv, Expanded, Listing, Traced;
    assert last[..|last|] == last;
    FunctionsInRange(q, t, last);
  }

  /** A function in range and its place in the queue. */
  lemma PlaceInQueue(q: Query, t: Search, last: seq<Pending>, f: Identity, n: nat) returns (i: nat)
    requires q.depth >= 1 && AtDistance(q, f, n) && n < q.depth
    requires SearchInv(q, t, last, |last|) && Listed(q, last) == Within(q, q.depth - 1)
    ensures i < |last| && last[i].identity == f && last[i].depth == n
  {
    hide Listed, SearchInv, Within;
    WithinGrows(q, n, q.depth - 1);
    ListedOnes(q, last);
    i :| 0 <= i < |last| && last[i].depth < q.depth && last[i].identity == f;
    QueuedDistance(q, t, last, i);
    hide AtDistance;
    SameDistance(q, f, n, last[i].depth);
  }

  lemma QueuedDistance(q: Query, t: Search, last: seq<Pending>, i: nat)
    requires SearchInv(q, t, last, |last|) && i < |last|
    ensures AtDistance(q, last[i].identity, last[i].depth)
  {
    hide CountInv, RecordsInv, Complete, CallsOf, Holds, OnceEach, BreadthFirst, ReachesFrom, Within;
    assert NodeInv(q, t.visited, last[i]);
  }

  lemma SameDistance(q: Query, f: Identity, m: nat, n: nat)
    requires AtDistance(q, f, m) && AtDistance(q, f, n)
    ensures m == n
  {
    if m < n {
      WithinGrows(q, m, n - 1);
    } else if n < m {
      WithinGrows(q, n, m - 1);
    }
  }

  /** Within the limits the search fails exactly when a function without a name is in range. */
  lemma FailsExactlyWhenNameless(q: Query)
    requires q.nodeLimit >= 1 && q.depth >= 1 && WithinLimits(q)
    ensures Recursive(q).DatabaseError? <==> NamelessInReach(q)
  {
    hide Recursive, WithinLimits;
    if Recursive(q).DatabaseError? {
      FailureNeedsNameless(q);
    } else if NamelessInReach(q) {
      var f: Identity, n: nat :| f.symbol == [] && AtDistance(q, f, n) && n < q.depth;
      hide AtDistance;
      var t, last := CompleteSearch(q);
      var i := PlaceInQueue(q, t, last, f, n);
      NoneNameless(q, t, last, i);
    }
  }

  lemma NoneNameless(q: Query, t: Search, last: seq<Pending>, i: nat)
    requires Traced(q, t, last, |last|) && i < |last| && last[i].depth < q.depth
    ensures last[i].identity.symbol != []
  {
    assert last[..|last|][i] == last[i];
  }

  /** A call in range that leads back to a function on the discovery path of its caller. */
  ghost predicate CallsBack(q: Query, f: Identity, n: nat, row: CallRow) {
    AtDistance(q, f, n) && n < q.depth && row in CallsOf(q, f) && NextOf(row, q.direction) in DiscoveryPath(q, f, n)
  }

  /** Within the limits a cycle is reported exactly when some function in range calls a function on its own discovery
      path: itself, the caller that it was first reached from, the one before, up to the root. */
  lemma CycleReportedIffCallBack(q: Query)
    requires q.nodeLimit >= 1 && q.depth >= 1 && WithinLimits(q) && Recursive(q).Graph?
    ensures Recursive(q).cyclesDetected <==> exists f, n: nat, row :: CallsBack(q, f, n, row)
  {
    hide Recursive, WithinLimits, CallsBack;
    var t, last := CompleteSearch(q);
    FlagIsCycleAmong(q, t, last);
    if t.cyclesDetected {
      CycleIsCallBack(q, t, last);
    }
    if f: Identity, n: nat, row: CallRow :| CallsBack(q, f, n, row) {
      CallBackIsCycle(q, t, last, f, n, row);
    }
  }

  lemma FlagIsCycleAmong(q: Query, t: Search, last: seq<Pending>)
    requires Traced(q, t, last, |last|) && !t.nodeLimitHit && |t.records| <= q.limit
    ensures t.cyclesDetected <==> CycleAmong(q, last)
    ensures OnPaths(q, last)
  {
    hide CycleAmong, OnPaths, Mentioned, Searched, Discovered, AllNamed;
    assert last[..|last|] == last;
  }

  lemma CycleIsCallBack(q: Query, t: Search, last: seq<Pending>)
    requires SearchInv(q, t, last, |last|) && CycleAmong(q, last) && OnPaths(q, last)
    ensures exists f, n: nat, row :: CallsBack(q, f, n, row)
  {
    hide CountInv, RecordsInv, Complete, CallsOf, Holds, OnceEach, BreadthFirst, ReachesFrom, AtDistance, NextOf,
      DiscoveryPath;
    var i :| 0 <= i < |last| && last[i].depth < q.depth && LeadsBack(q, last[i], CallsOf(q, last[i].identity));
    var f := last[i];
    var rows := CallsOf(q, f.identity);
    var k :| 0 <= k < |rows| && NextOf(rows[k], q.direction) in f.ancestors;
    assert NodeInv(q, t.visited, f);
    assert rows[k] in rows;
    assert CallsBack(q, f.identity, f.depth, rows[k]);
  }

  lemma CallBackIsCycle(q: Query, t: Search, last: seq<Pending>, f: Identity, n: nat, row: CallRow)
    requires q.depth >= 1 && CallsBack(q, f, n, row) && OnPaths(q, last)
    requires SearchInv(q, t, last, |last|) && Listed(q, last) == Within(q, q.depth - 1)
    ensures CycleAmong(q, last)
  {
    hide SearchInv, Listed, Within, CallsOf, AtDistance, NextOf, DiscoveryPath;
    var i := PlaceInQueue(q, t, last, f, n);
    var rows := CallsOf(q, f);
    var k :| 0 <= k < |rows| && rows[k] == row;
    assert LeadsBack(q, last[i], CallsOf(q, last[i].identity));
  }

  /** Within the limits a call in range of a function to itself or back to the root is reported. */
  lemma ReturnsInRangeAreReported(q: Query)
    requires q.nodeLimit >= 1 && q.depth >= 1 && WithinLimits(q) && Recursive(q).Graph?
    ensures (exists row :: row in InRange(q) && Returns(q, row)) ==> Recursive(q).cyclesDetected
  {
    hide Recursive, WithinLimits, InRange, Returns;
    CycleReportedIffCallBack(q);
    if row :| row in InRange(q) && Returns(q, row) {
      var f, n := RowInRange(q, row);
      PathHasEnds(q, f, n);
      ReturnIsCallBack(q, row, f, n);
    }
  }

  lemma ReturnIsCallBack(q: Query, row: CallRow, f: Identity, n: nat)
    requires Returns(q, row) && OwnerOf(row, q.direction) == Some(f) && row in CallsOf(q, f)
    requires AtDistance(q, f, n) && n < q.depth && f in DiscoveryPath(q, f, n) && q.root in DiscoveryPath(q, f, n)
    ensures CallsBack(q, f, n, row)
  {
  }

  /** The function that owns a row in range, and its distance. */
  lemma RowInRange(q: Query, row: CallRow) returns (f: Identity, n: nat)
    requires q.depth >= 1 && row in InRange(q)
    ensures OwnerOf(row, q.direction) == Some(f) && row in CallsOf(q, f) && AtDistance(q, f, n) && n < q.depth
  {
    hide Within, OwnerOf, Matches, AtDistance;
    RowsOfHold(q.calls, q.direction, Within(q, q.depth - 1), row);
    f := OwnerOf(row, q.direction).value;
    MatchesIsOwner(row, q.direction, f);
    CallsHold(q.calls, q.direction, f, row);
    n := DistanceWithin(q, f, q.depth - 1);
  }

  lemma {:induction false} RowsOfHold(rows: seq<CallRow>, direction: Direction, fs: set<Identity>, row: CallRow)
    requires row in RowsOf(rows, direction, fs)
    ensures row in rows && OwnerOf(row, direction).Some? && OwnerOf(row, direction).value in fs
  {
    hide OwnerOf;
    if row in RowsOf(rows[1..], direction, fs) {
      RowsOfHold(rows[1..], direction, fs, row);
    }
  }

  lemma {:induction false} DistanceWithin(q: Query, f: Identity, m: nat) returns (n: nat)
    requires f in Within(q, m)
    ensures n <= m && AtDistance(q, f, n)
  {
    hide Within;
    if m > 0 && f in Within(q, m - 1) {
      n := DistanceWithin(q, f, m - 1);
    } else {
      n := m;
    }
  }

  // ---- the two directions ----

  lemma {:induction false} CallsHold(rows: seq<CallRow>, direction: Direction, f: Identity, row: CallRow)
    ensures row in Calls(rows, direction, f) <==> row in rows && Matches(row, direction, f)
  {
    if rows != [] {
      CallsHold(rows[1..], direction, f, row);
    }
  }

  lemma CallMirrors(q: Query, p: Query, f: Identity, g: Identity)
    requires p.calls == q.calls && p.direction != q.direction && IsCall(q, f, g)
    requires forall row | row in q.calls :: row.usrId.Some? && row.contextUsrId.Some?
    ensures IsCall(p, g, f)
  {
    var row :| row in CallsOf(q, f) && NextOf(row, q.direction) == g;
    CallsHold(q.calls, q.direction, f, row);
    CallsHold(q.calls, p.direction, g, row);
    assert row in CallsOf(p, g) && NextOf(row, p.direction) == f;
  }

  /** Among rows with both identities, g is a callee of f exactly when f is a caller of g. */
  lemma CallersMirrorCallees(q: Query, p: Query, f: Identity, g: Identity)
    requires p.calls == q.calls && p.direction != q.direction
    requires forall row | row in q.calls :: row.usrId.Some? && row.contextUsrId.Some?
    ensures IsCall(q, f, g) <==> IsCall(p, g, f)
  {
    hide IsCall;
    if IsCall(q, f, g) {
      CallMirrors(q, p, f, g);
    }
    if IsCall(p, g, f) {
      CallMirrors(p, q, g, f);
    }
  }

  // ---- what the search does not promise ----

  /** Functions named by one letter, in variant "v" and file "p". */
  function Call(from: byte, to: byte): CallRow {
    CallRow([118], [112], 1, 1, [to], Some(to as int), [from], Some(from as int))
  }

  function Named(letter: byte): Identity {
    Identity([118], [letter], letter as int)
  }

  /** A calls B and C, which call each other. */
  function CrossCalls(): Query {
    Query([Call(65, 66), Call(65, 67), Call(66, 67), Call(67, 66)], Callees, Named(65), 3, 10, 10)
  }

  lemma CrossCallsOf(name: byte)
    requires name == 65 || name == 66 || name == 67
    ensures CallsOf(CrossCalls(), Named(name))
            == if name == 65 then [Call(65, 66), Call(65, 67)]
               else if name == 66 then [Call(66, 67)] else [Call(67, 66)]
  {
    var rows := CrossCalls().calls;
    assert rows[1..] == [rows[1], rows[2], rows[3]] && rows[1..][1..] == [rows[2], rows[3]];
    assert rows[1..][1..][1..] == [rows[3]] && rows[1..][1..][1..][1..] == [];
  }

  lemma CrossVisited()
    ensures var q := CrossCalls();
            var rest := Initial(q).(pending := []);
            var r, a, b := Named(65), Named(66), Named(67);
            VisitRows(q, rest, Pending(r, 0, {r}), CallsOf(q, r))
            == Search([Pending(a, 1, {r, a}), Pending(b, 1, {r, b})], {r, a, b},
                      [Entry(Call(65, 66), 1), Entry(Call(65, 67), 1)], false, false)
  {
    CrossCallsOf(65);
    hide CallsOf;
    var q, r, a, b := CrossCalls(), Named(65), Named(66), Named(67);
    var f := Pending(r, 0, {r});
    var rows := [Call(65, 66), Call(65, 67)];
    var s := Visit(q, Initial(q).(pending := []), f, rows[0]);
    assert s.visited == {r, a} && s.pending == [Pending(a, 1, {r, a})];
    var t := Visit(q, s, f, rows[1]);
    assert {r} + {b} == {r, b} && b !in s.visited;
    assert t.visited == {r, a, b} && t.pending == [Pending(a, 1, {r, a}), Pending(b, 1, {r, b})];
    assert rows[1..] == [rows[1]] && rows[1..][1..] == [];
  }

  lemma CrossRecorded(s: Search, f: Pending, row: CallRow)
    requires NextOf(row, Callees) !in f.ancestors && NextOf(row, Callees) in s.visited
    requires |s.visited| <= 10 && |s.records| <= 10
    ensures VisitRows(CrossCalls(), s, f, [row]) == s.(records := s.records + [Entry(row, f.depth + 1)])
  {
    assert [row][1..] == [];
  }

  lemma TraverseStep(q: Query, s: Search, f: Pending, rest: seq<Pending>, rows: seq<CallRow>, t: Search)
    requires |s.visited| <= q.nodeLimit && s.pending == [f] + rest && f.depth < q.depth && f.identity.symbol != []
    requires rows == CallsOf(q, f.identity) && |s.records| + |rows| <= q.limit
    requires t == VisitRows(q, s.(pending := rest), f, rows)
    ensures |t.visited| <= q.nodeLimit && Traverse(q, s) == Traverse(q, t)
  {
    hide CallsOf, VisitRows;
    assert s.pending[1..] == rest;
  }

  lemma CrossStep(s: Search, f: Pending, rest: seq<Pending>, row: CallRow)
    requires |s.visited| <= 10 && |s.records| <= 9 && s.pending == [f] + rest
    requires f.depth == 1 && f.identity.symbol != [] && CallsOf(CrossCalls(), f.identity) == [row]
    requires NextOf(row, Callees) !in f.ancestors && NextOf(row, Callees) in s.visited
    ensures Traverse(CrossCalls(), s)
            == Traverse(CrossCalls(), s.(pending := rest, records := s.records + [Entry(row, 2)]))
  {
    hide CallsOf, VisitRows, Traverse, NextOf;
    var t := s.(pending := rest, records := s.records + [Entry(row, 2)]);
    CrossRecorded(s.(pending := rest), f, row);
    TraverseStep(CrossCalls(), s, f, rest, [row], t);
  }

  lemma CrossLast(s: Search, f: Pending)
    requires |s.visited| <= 10 && |s.records| <= 9 && s.pending == [f] && f.depth == 1 && f.identity == Named(67)
    requires Named(66) !in f.ancestors && Named(66) in s.visited
    ensures Traverse(CrossCalls(), s)
            == Some(s.(pending := [], records := s.records + [Entry(Call(67, 66), 2)]))
  {
    CrossCallsOf(67);
    hide CallsOf, Traverse;
    CrossStep(s, f, [], Call(67, 66));
    Drained(CrossCalls(), s.(pending := [], records := s.records + [Entry(Call(67, 66), 2)]));
  }

  lemma CrossTraversed(s: Search)
    requires var r, a, b := Named(65), Named(66), Named(67);
             s == Search([Pending(a, 1, {r, a}), Pending(b, 1, {r, b})], {r, a, b},
                         [Entry(Call(65, 66), 1), Entry(Call(65, 67), 1)], false, false)
    ensures |s.visited| == 3
    ensures Traverse(CrossCalls(), s)
            == Some(s.(pending := [],
                       records := s.records + [Entry(Call(66, 67), 2)] + [Entry(Call(67, 66), 2)]))
  {
    hide CallsOf, Traverse, CrossCalls;
    CrossFirst(s, s.pending[0], s.pending[1]);
    CrossLast(s.(pending := [s.pending[1]], records := s.records + [Entry(Call(66, 67), 2)]), s.pending[1]);
  }

  lemma CrossFirst(s: Search, f: Pending, next: Pending)
    requires |s.visited| <= 10 && |s.records| <= 9 && s.pending == [f, next] && f.depth == 1 && f.identity == Named(66)
    requires Named(67) !in f.ancestors && Named(67) in s.visited
    ensures Traverse(CrossCalls(), s)
            == Traverse(CrossCalls(), s.(pending := [next], records := s.records + [Entry(Call(66, 67), 2)]))
  {
    CrossCallsOf(66);
    hide CallsOf, Traverse, CrossCalls;
    CrossStep(s, f, [next], Call(66, 67));
  }

  lemma Drained(q: Query, s: Search)
    requires |s.visited| <= q.nodeLimit && s.pending == []
    ensures Traverse(q, s) == Some(s)
  {
  }

  lemma CrossCycle()
    ensures var q := CrossCalls(); Named(66) in Within(q, 1) && OnCycle(q, Named(66))
  {
    var q, r, a, b := CrossCalls(), Named(65), Named(66), Named(67);
    CrossCallsOf(65);
    CrossCallsOf(66);
    CrossCallsOf(67);
    hide CallsOf;
    assert Call(65, 66) in CallsOf(q, r);
    CallsStayWithin(q, r, Call(65, 66), 0);
    assert Call(66, 67) in CallsOf(q, a) && Call(67, 66) in CallsOf(q, b);
    assert IsCall(q, a, b) && IsCall(q, b, a) && Reach(q, a, a, 0);
    hide CrossCalls, Within;
    assert Reach(q, b, a, 1);
    assert Reach(q, a, a, 2);
  }

  /** A cycle through functions of the same level is in the answer but not reported, though nothing is truncated. */
  lemma CrossCycleIsMissed()
    ensures var q := CrossCalls();
            && Recursive(q).Graph? && !Recursive(q).truncated && !Recursive(q).cyclesDetected
            && Named(66) in Within(q, 1) && OnCycle(q, Named(66))
  {
    CrossCycle();
    var q, r := CrossCalls(), Named(65);
    CrossCallsOf(65);
    CrossVisited();
    hide CallsOf, VisitRows, Traverse, OnCycle, Within;
    var s1 := VisitRows(q, Initial(q).(pending := []), Pending(r, 0, {r}), CallsOf(q, r));
    CrossTraversed(s1);
    TraverseStep(q, Initial(q), Pending(r, 0, {r}), [], CallsOf(q, r), s1);
  }

  /** A call outside of any function: no context and no id. */
  function NamelessCaller(): Query {
    Query([CallRow([118], [112], 1, 1, [65], Some(65), [], None)], Callers, Named(65), 2, 10, 10)
  }

  /** A call outside of any function fails the recursive query for the callers of its target. */
  lemma NamelessCallerFails()
    ensures Recursive(NamelessCaller()) == DatabaseError
  {
    var q, r, e := NamelessCaller(), Named(65), Identity([118], [], 0);
    var row := q.calls[0];
    assert q.calls == [row] && q.calls[1..] == [] && CallsOf(q, r) == [row];
    assert Collect(q, r, 11) == [row];
    hide CallsOf;
    var s := Visit(q, Initial(q).(pending := []), Pending(r, 0, {r}), row);
    assert s.pending == [Pending(e, 1, {r} + {e})];
    assert [row][1..] == [];
    assert Initial(q).pending[1..] == [];
    assert Traverse(q, Initial(q)) == Traverse(q, s);
    assert Traverse(q, s) == None;
  }
}
