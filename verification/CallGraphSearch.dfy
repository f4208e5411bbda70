/** The state of the bounded search against the graph: what every step keeps. */
module CallGraphSearch {
  import opened Wrappers
  import opened Index
  import opened CallGraph

  // ---- the graph ----

  ghost predicate IsCall(q: Query, f: Identity, g: Identity) {
    exists row :: row in CallsOf(q, f) && NextOf(row, q.direction) == g
  }

  function Successors(q: Query, fs: set<Identity>): set<Identity> {
    set f, row | f in fs && row in CallsOf(q, f) :: NextOf(row, q.direction)
  }

  /** The functions at most n calls away from the root. */
  function Within(q: Query, n: nat): set<Identity> {
    if n == 0 then {q.root} else Within(q, n - 1) + Successors(q, Within(q, n - 1))
  }

  /** n is the shortest distance from the root to f. */
  predicate AtDistance(q: Query, f: Identity, n: nat) {
    f in Within(q, n) && (n > 0 ==> f !in Within(q, n - 1))
  }

  /** b is reached from a in exactly n calls. */
  ghost predicate Reach(q: Query, a: Identity, b: Identity, n: nat)
    decreases n
  {
    if n == 0 then a == b else exists c :: IsCall(q, a, c) && Reach(q, c, b, n - 1)
  }

  ghost predicate OnCycle(q: Query, f: Identity) {
    exists n: nat :: n > 0 && Reach(q, f, f, n)
  }

  lemma {:induction false} ReachOneMore(q: Query, a: Identity, b: Identity, c: Identity, n: nat)
    requires Reach(q, a, b, n) && IsCall(q, b, c)
    ensures Reach(q, a, c, n + 1)
    decreases n
  {
    if n == 0 {
      assert Reach(q, c, c, 0);
    } else {
      var d :| IsCall(q, a, d) && Reach(q, d, b, n - 1);
      ReachOneMore(q, d, b, c, n - 1);
    }
  }

  lemma {:induction false} WithinGrows(q: Query, m: nat, n: nat)
    requires m <= n
    ensures Within(q, m) <= Within(q, n)
    decreases n
  {
    if m < n {
      WithinGrows(q, m, n - 1);
    }
  }

  lemma CallsStayWithin(q: Query, f: Identity, row: CallRow, n: nat)
    requires f in Within(q, n) && row in CallsOf(q, f)
    ensures NextOf(row, q.direction) in Within(q, n + 1)
  {
    assert NextOf(row, q.direction) in Successors(q, Within(q, n));
  }

  // ---- the invariant ----

  ghost predicate ReachesFrom(q: Query, a: Identity, b: Identity) {
    exists n: nat :: Reach(q, a, b, n)
  }

  ghost predicate NodeInv(q: Query, visited: set<Identity>, p: Pending) {
    && AtDistance(q, p.identity, p.depth) && p.depth <= q.depth
    && p.identity in p.ancestors && p.ancestors <= visited
    && forall a | a in p.ancestors :: ReachesFrom(q, a, p.identity)
  }

  /** No function is queued deeper than one below the last one taken from the queue. */
  function Deepest(all: seq<Pending>, taken: nat): nat
    requires taken <= |all|
  {
    if taken == 0 then 0 else all[taken - 1].depth + 1
  }

  ghost predicate BreadthFirst(all: seq<Pending>, taken: nat)
    requires taken <= |all|
  {
    && (forall i, j | 0 <= i < j < |all| :: all[i].depth <= all[j].depth)
    && (forall i | 0 <= i < |all| :: all[i].depth <= Deepest(all, taken))
  }

  ghost predicate OnceEach(all: seq<Pending>) {
    forall i, j | 0 <= i < j < |all| :: all[i].identity != all[j].identity
  }

  ghost predicate Holds(visited: set<Identity>, all: seq<Pending>) {
    && (forall i | 0 <= i < |all| :: all[i].identity in visited)
    && (forall x | x in visited :: exists i :: 0 <= i < |all| && all[i].identity == x)
  }

  /** all is every function ever queued, in order; the first `taken` of them have left the queue. */
  ghost predicate QueueInv(q: Query, s: Search, all: seq<Pending>, taken: nat) {
    && taken <= |all| && s.pending == all[taken..]
    && |s.visited| <= q.nodeLimit && q.root in s.visited
    && Holds(s.visited, all) && OnceEach(all) && BreadthFirst(all, taken)
    && (forall i | 0 <= i < |all| :: NodeInv(q, s.visited, all[i]))
  }

  /** The row is a call of a function that was searched, recorded one below it. */
  ghost predicate Honest(q: Query, e: Entry) {
    exists f, n: nat :: AtDistance(q, f, n) && n < q.depth && e.row in CallsOf(q, f) && e.depth == n + 1
  }

  ghost predicate CycleInReach(q: Query) {
    exists f :: f in Within(q, q.depth) && OnCycle(q, f)
  }

  ghost predicate RecordsInv(q: Query, s: Search, deepest: nat) {
    && (s.nodeLimitHit ==> |s.visited| >= q.nodeLimit && |Within(q, q.depth)| > q.nodeLimit)
    && (forall i | 0 <= i < |s.records| :: Honest(q, s.records[i]) && s.records[i].depth <= deepest)
    && (forall i, j | 0 <= i < j < |s.records| :: s.records[i].depth <= s.records[j].depth)
    && (s.cyclesDetected ==> CycleInReach(q))
  }

  function EntriesOf(rows: seq<CallRow>, depth: nat): seq<Entry> {
    seq(|rows|, i requires 0 <= i < |rows| => Entry(rows[i], depth))
  }

  /** All rows of the listed functions above the depth bound, in order. */
  function Listing(q: Query, fs: seq<Pending>): seq<Entry> {
    if fs == [] then []
    else
      var f := fs[|fs| - 1];
      Listing(q, fs[..|fs| - 1]) + if f.depth < q.depth then EntriesOf(CallsOf(q, f.identity), f.depth + 1) else []
  }

  ghost predicate CallsVisited(q: Query, visited: set<Identity>, rows: seq<CallRow>) {
    forall i | 0 <= i < |rows| :: NextOf(rows[i], q.direction) in visited
  }

  ghost predicate Expanded(q: Query, visited: set<Identity>, fs: seq<Pending>) {
    forall i | 0 <= i < |fs| && fs[i].depth < q.depth :: CallsVisited(q, visited, CallsOf(q, fs[i].identity))
  }

  /** As long as no limit was hit nothing is missing. */
  ghost predicate Complete(q: Query, s: Search, done: seq<Pending>) {
    !s.nodeLimitHit && |s.records| <= q.limit ==> Expanded(q, s.visited, done) && s.records == Listing(q, done)
  }

  // ---- whole levels ----

  lemma WithinCases(q: Query, x: Identity, k: nat) returns (f: Identity, i: nat)
    requires k > 0 && x in Within(q, k) && x !in Within(q, k - 1)
    ensures f in Within(q, k - 1) && i < |CallsOf(q, f)| && NextOf(CallsOf(q, f)[i], q.direction) == x
  {
    hide CallsOf, NextOf;
    var row: CallRow;
    f, row :| f in Within(q, k - 1) && row in CallsOf(q, f) && NextOf(row, q.direction) == x;
    i :| i < |CallsOf(q, f)| && CallsOf(q, f)[i] == row;
  }

  lemma NextLevelVisited(q: Query, s: Search, all: seq<Pending>, taken: nat, d: nat, k: nat)
    requires QueueInv(q, s, all, taken) && Expanded(q, s.visited, all[..taken]) && 0 < k <= d <= q.depth
    requires forall i | 0 <= i < |all| && all[i].depth < d :: i < taken
    requires Within(q, k - 1) <= s.visited
    ensures forall x | x in Within(q, k) :: x in s.visited
  {
    hide CallsOf, NextOf, QueueInv, Expanded, Within;
    forall x | x in Within(q, k) && x !in Within(q, k - 1) ensures x in s.visited {
      var f, j := WithinCases(q, x, k);
      LevelStep(q, s, all, taken, d, k, f, j);
    }
  }

  /** If everything above depth d was expanded, every function within d calls was visited. */
  lemma {:induction false} LevelsVisited(q: Query, s: Search, all: seq<Pending>, taken: nat, d: nat, k: nat)
    requires QueueInv(q, s, all, taken) && Expanded(q, s.visited, all[..taken]) && k <= d <= q.depth
    requires forall i | 0 <= i < |all| && all[i].depth < d :: i < taken
    ensures Within(q, k) <= s.visited
    decreases k
  {
    hide CallsOf, NextOf, NodeInv, Expanded, Successors, Holds, OnceEach, BreadthFirst;
    if k > 0 {
      LevelsVisited(q, s, all, taken, d, k - 1);
      NextLevelVisited(q, s, all, taken, d, k);
    }
  }

  lemma LevelStep(q: Query, s: Search, all: seq<Pending>, taken: nat, d: nat, k: nat, f: Identity, j: nat)
    requires QueueInv(q, s, all, taken) && Expanded(q, s.visited, all[..taken]) && 0 < k <= d <= q.depth
    requires forall i | 0 <= i < |all| && all[i].depth < d :: i < taken
    requires f in Within(q, k - 1) && Within(q, k - 1) <= s.visited && j < |CallsOf(q, f)|
    ensures NextOf(CallsOf(q, f)[j], q.direction) in s.visited
  {
    hide Within, CallsOf, NodeInv, NextOf;
    var i :| 0 <= i < |all| && all[i].identity == f;
    ShallowLabel(q, s.visited, all[i], k - 1);
    assert all[..taken][i] == all[i];
    assert CallsVisited(q, s.visited, CallsOf(q, f));
  }

  lemma ShallowLabel(q: Query, visited: set<Identity>, p: Pending, k: nat)
    requires NodeInv(q, visited, p) && p.identity in Within(q, k)
    ensures p.depth <= k
  {
    if p.depth > k {
      WithinGrows(q, k, p.depth - 1);
    }
  }

  // ---- one row ----

  /** While the rows of the last function taken are looked at; past are the rows already seen. */
  ghost predicate Midway(q: Query, s: Search, all: seq<Pending>, taken: nat, past: seq<CallRow>) {
    && 0 < taken <= |all|
    && var f := all[taken - 1];
    && f.depth < q.depth && past <= CallsOf(q, f.identity)
    && (!s.nodeLimitHit ==>
          && Within(q, f.depth) <= s.visited
          && Expanded(q, s.visited, all[..taken - 1])
          && CallsVisited(q, s.visited, past)
          && s.records == Listing(q, all[..taken - 1]) + EntriesOf(past, f.depth + 1))
  }

  /** What has been queued once a row of f has been looked at. */
  function AllAfter(q: Query, s: Search, all: seq<Pending>, f: Pending, row: CallRow): seq<Pending> {
    var next := NextOf(row, q.direction);
    if next in f.ancestors || next in s.visited || |s.visited| >= q.nodeLimit then all
    else all + [Pending(next, f.depth + 1, f.ancestors + {next})]
  }

  /** What has been queued once rows of f have been looked at. */
  function AllAfterRows(q: Query, s: Search, all: seq<Pending>, f: Pending, rows: seq<CallRow>): seq<Pending>
    decreases |rows|
  {
    if rows == [] || |s.records| > q.limit then all
    else AllAfterRows(q, Visit(q, s, f, rows[0]), AllAfter(q, s, all, f, rows[0]), f, rows[1..])
  }

  lemma AncestorsReachNext(q: Query, f: Pending, row: CallRow)
    requires row in CallsOf(q, f.identity) && forall a | a in f.ancestors :: ReachesFrom(q, a, f.identity)
    ensures forall a | a in f.ancestors :: ReachesFrom(q, a, NextOf(row, q.direction))
    ensures ReachesFrom(q, NextOf(row, q.direction), NextOf(row, q.direction))
  {
    var next := NextOf(row, q.direction);
    assert IsCall(q, f.identity, next);
    hide CallsOf, NextOf, IsCall;
    assert Reach(q, next, next, 0);
    forall a | a in f.ancestors ensures ReachesFrom(q, a, next) {
      var n: nat :| Reach(q, a, f.identity, n);
      ReachOneMore(q, a, f.identity, next, n);
    }
  }

  /** The new queue entry has its exact distance and its ancestors reach it. */
  lemma NewNode(q: Query, visited: set<Identity>, f: Pending, row: CallRow)
    requires NodeInv(q, visited, f) && f.depth < q.depth && row in CallsOf(q, f.identity)
    requires Within(q, f.depth) <= visited && NextOf(row, q.direction) !in visited
    ensures var next := NextOf(row, q.direction);
            NodeInv(q, visited + {next}, Pending(next, f.depth + 1, f.ancestors + {next}))
  {
    CallsStayWithin(q, f.identity, row, f.depth);
    AncestorsReachNext(q, f, row);
    hide Within, CallsOf, NextOf, ReachesFrom;
  }

  lemma PushHolds(visited: set<Identity>, all: seq<Pending>, p: Pending)
    requires Holds(visited, all)
    ensures Holds(visited + {p.identity}, all + [p])
  {
    var added := all + [p];
    forall x | x in visited + {p.identity} ensures exists i :: 0 <= i < |added| && added[i].identity == x {
      if x == p.identity {
        assert added[|all|].identity == x;
      } else {
        var i :| 0 <= i < |all| && all[i].identity == x;
        assert added[i].identity == x;
      }
    }
  }

  lemma PushAtEnd(visited: set<Identity>, all: seq<Pending>, taken: nat, p: Pending)
    requires 0 < taken <= |all| && Holds(visited, all) && OnceEach(all) && BreadthFirst(all, taken)
    requires p.identity !in visited && p.depth == all[taken - 1].depth + 1
    ensures Holds(visited + {p.identity}, all + [p]) && OnceEach(all + [p]) && BreadthFirst(all + [p], taken)
    ensures (all + [p])[taken..] == all[taken..] + [p]
  {
    PushHolds(visited, all, p);
    assert forall i | 0 <= i < |all| :: all[i].identity in visited;
    hide Holds;
  }

  lemma QueueAfterPush(q: Query, s: Search, all: seq<Pending>, taken: nat, p: Pending, records: seq<Entry>)
    requires QueueInv(q, s, all, taken) && 0 < taken && |s.visited| < q.nodeLimit
    requires p.identity !in s.visited && p.depth == all[taken - 1].depth + 1
    requires NodeInv(q, s.visited + {p.identity}, p)
    ensures QueueInv(q, s.(visited := s.visited + {p.identity}, pending := s.pending + [p], records := records),
                     all + [p], taken)
  {
    hide NodeInv;
    PushAtEnd(s.visited, all, taken, p);
    hide Holds, OnceEach, BreadthFirst;
    forall i | 0 <= i < |all + [p]| ensures NodeInv(q, s.visited + {p.identity}, (all + [p])[i]) {
      if i < |all| {
        NodeStays(q, s.visited, s.visited + {p.identity}, all[i]);
      }
    }
  }

  lemma VisitNew(q: Query, s: Search, all: seq<Pending>, f: Pending, row: CallRow)
    requires NextOf(row, q.direction) !in s.visited && |s.visited| < q.nodeLimit && f.ancestors <= s.visited
    ensures var next := NextOf(row, q.direction);
            var p := Pending(next, f.depth + 1, f.ancestors + {next});
            && AllAfter(q, s, all, f, row) == all + [p]
            && Visit(q, s, f, row) == s.(visited := s.visited + {p.identity}, pending := s.pending + [p],
                                         records := s.records + [Entry(row, f.depth + 1)])
  {
  }

  lemma PushKeepsQueue(q: Query, s: Search, all: seq<Pending>, taken: nat, past: seq<CallRow>, row: CallRow)
    requires QueueInv(q, s, all, taken) && Midway(q, s, all, taken, past)
    requires row in CallsOf(q, all[taken - 1].identity) && !s.nodeLimitHit
    requires NextOf(row, q.direction) !in s.visited && |s.visited| < q.nodeLimit
    ensures var f := all[taken - 1];
            QueueInv(q, Visit(q, s, f, row), AllAfter(q, s, all, f, row), taken)
  {
    var f, next := all[taken - 1], NextOf(row, q.direction);
    hide NodeInv, Within, CallsOf, NextOf, Expanded, Listing, EntriesOf, Visit, AllAfter;
    assert NodeInv(q, s.visited, f) && Within(q, f.depth) <= s.visited && f.depth < q.depth;
    hide QueueInv, Midway;
    AncestorsVisited(q, s.visited, f);
    NewNode(q, s.visited, f, row);
    QueueAfterPush(q, s, all, taken, Pending(next, f.depth + 1, f.ancestors + {next}),
                   s.records + [Entry(row, f.depth + 1)]);
    VisitNew(q, s, all, f, row);
  }

  lemma AncestorsVisited(q: Query, visited: set<Identity>, p: Pending)
    requires NodeInv(q, visited, p)
    ensures p.ancestors <= visited
  {
  }

  lemma NodeStays(q: Query, visited: set<Identity>, more: set<Identity>, p: Pending)
    requires NodeInv(q, visited, p) && visited <= more
    ensures NodeInv(q, more, p)
  {
  }

  lemma VisitKeepsQueue(q: Query, s: Search, all: seq<Pending>, taken: nat, past: seq<CallRow>, row: CallRow)
    requires QueueInv(q, s, all, taken) && Midway(q, s, all, taken, past)
    requires row in CallsOf(q, all[taken - 1].identity) && (s.nodeLimitHit ==> |s.visited| >= q.nodeLimit)
    ensures var f := all[taken - 1];
            QueueInv(q, Visit(q, s, f, row), AllAfter(q, s, all, f, row), taken)
  {
    var f, next := all[taken - 1], NextOf(row, q.direction);
    if next !in f.ancestors && next !in s.visited && |s.visited| < q.nodeLimit {
      PushKeepsQueue(q, s, all, taken, past, row);
    }
  }

  lemma BackCallIsCycle(q: Query, visited: set<Identity>, f: Pending, row: CallRow)
    requires NodeInv(q, visited, f) && row in CallsOf(q, f.identity) && NextOf(row, q.direction) in f.ancestors
    ensures CycleInReach(q)
  {
    var next := NextOf(row, q.direction);
    WithinGrows(q, f.depth, q.depth);
    hide Within, CallsOf;
    assert ReachesFrom(q, next, f.identity);
    var n: nat :| Reach(q, next, f.identity, n);
    assert IsCall(q, f.identity, next);
    assert Reach(q, f.identity, f.identity, n + 1);
    assert OnCycle(q, f.identity);
  }

  lemma HonestCall(q: Query, visited: set<Identity>, f: Pending, row: CallRow)
    requires NodeInv(q, visited, f) && f.depth < q.depth && row in CallsOf(q, f.identity)
    ensures Honest(q, Entry(row, f.depth + 1))
  {
    assert AtDistance(q, f.identity, f.depth);
  }

  /** The node limit is hit only when there are more functions within reach than it allows. */
  lemma LimitHitReason(q: Query, s: Search, all: seq<Pending>, taken: nat, f: Pending, row: CallRow)
    requires QueueInv(q, s, all, taken) && NodeInv(q, s.visited, f) && f.depth < q.depth
    requires row in CallsOf(q, f.identity)
    requires NextOf(row, q.direction) !in s.visited && |s.visited| >= q.nodeLimit
    ensures |Within(q, q.depth)| > q.nodeLimit
  {
    hide Within, CallsOf, NextOf, QueueInv, ReachesFrom;
    var next := NextOf(row, q.direction);
    assert f.identity in Within(q, f.depth);
    hide NodeInv;
    CallsStayWithin(q, f.identity, row, f.depth);
    WithinGrows(q, f.depth + 1, q.depth);
    VisitedWithin(q, s, all, taken);
    SubsetSize(s.visited + {next}, Within(q, q.depth));
  }

  lemma VisitedWithin(q: Query, s: Search, all: seq<Pending>, taken: nat)
    requires QueueInv(q, s, all, taken)
    ensures s.visited <= Within(q, q.depth)
  {
    hide Within, OnceEach, BreadthFirst;
    forall x | x in s.visited ensures x in Within(q, q.depth) {
      var i :| 0 <= i < |all| && all[i].identity == x;
      assert NodeInv(q, s.visited, all[i]);
      WithinGrows(q, all[i].depth, q.depth);
    }
  }

  lemma SubsetSize<T>(a: set<T>, b: set<T>)
    requires a <= b
    ensures |a| <= |b|
  {
    if a != {} {
      var x :| x in a;
      SubsetSize(a - {x}, b - {x});
    }
  }

  lemma VisitKeepsRecords(q: Query, s: Search, all: seq<Pending>, taken: nat, f: Pending, row: CallRow)
    requires QueueInv(q, s, all, taken) && NodeInv(q, s.visited, f) && f.depth < q.depth
    requires row in CallsOf(q, f.identity) && RecordsInv(q, s, f.depth + 1)
    ensures RecordsInv(q, Visit(q, s, f, row), f.depth + 1)
  {
    hide Honest, CycleInReach, CallsOf, Within, NodeInv, QueueInv, NextOf;
    var next := NextOf(row, q.direction);
    HonestCall(q, s.visited, f, row);
    if next in f.ancestors {
      BackCallIsCycle(q, s.visited, f, row);
    } else if next !in s.visited && |s.visited| >= q.nodeLimit {
      LimitHitReason(q, s, all, taken, f, row);
    }
  }

  lemma ExpandedStays(q: Query, visited: set<Identity>, more: set<Identity>, fs: seq<Pending>)
    requires Expanded(q, visited, fs) && visited <= more
    ensures Expanded(q, more, fs)
  {
    hide CallsOf;
    forall i | 0 <= i < |fs| && fs[i].depth < q.depth ensures CallsVisited(q, more, CallsOf(q, fs[i].identity)) {
      assert CallsVisited(q, visited, CallsOf(q, fs[i].identity));
    }
  }

  /** Unless the node limit is hit, a row is recorded and its function visited. */
  lemma VisitRecords(q: Query, s: Search, f: Pending, row: CallRow)
    requires f.ancestors <= s.visited
    ensures var t := Visit(q, s, f, row);
            && s.visited <= t.visited
            && (!t.nodeLimitHit ==>
                  && !s.nodeLimitHit && NextOf(row, q.direction) in t.visited
                  && t.records == s.records + [Entry(row, f.depth + 1)])
  {
    hide NextOf;
  }

  lemma OneMoreEntry(past: seq<CallRow>, row: CallRow, depth: nat)
    ensures EntriesOf(past + [row], depth) == EntriesOf(past, depth) + [Entry(row, depth)]
  {
  }

  lemma VisitKeepsMidway(q: Query, s: Search, all: seq<Pending>, taken: nat, past: seq<CallRow>, row: CallRow)
    requires Midway(q, s, all, taken, past) && past + [row] <= CallsOf(q, all[taken - 1].identity)
    requires all[taken - 1].ancestors <= s.visited
    ensures Midway(q, Visit(q, s, all[taken - 1], row), AllAfter(q, s, all, all[taken - 1], row), taken, past + [row])
  {
    hide Within, CallsOf, Listing, EntriesOf, Expanded, NextOf, Visit, AllAfter;
    var f := all[taken - 1];
    var t, added := Visit(q, s, f, row), AllAfter(q, s, all, f, row);
    AllAfterExtends(q, s, all, f, row);
    assert added[..taken - 1] == all[..taken - 1] && added[taken - 1] == f;
    OneMoreEntry(past, row, f.depth + 1);
    VisitRecords(q, s, f, row);
    if !t.nodeLimitHit {
      ExpandedStays(q, s.visited, t.visited, all[..taken - 1]);
    }
  }

  lemma {:induction false} VisitRowsKeep(q: Query, s: Search, all: seq<Pending>, taken: nat, past: seq<CallRow>,
                                         rows: seq<CallRow>)
    returns (last: seq<Pending>, seen: seq<CallRow>)
    requires QueueInv(q, s, all, taken) && Midway(q, s, all, taken, past)
    requires RecordsInv(q, s, all[taken - 1].depth + 1)
    requires past + rows <= CallsOf(q, all[taken - 1].identity)
    ensures var f, t := all[taken - 1], VisitRows(q, s, all[taken - 1], rows);
            && all <= last && QueueInv(q, t, last, taken) && Midway(q, t, last, taken, seen)
            && RecordsInv(q, t, f.depth + 1)
            && (|t.records| <= q.limit ==> seen == past + rows)
    ensures last == AllAfterRows(q, s, all, all[taken - 1], rows)
    decreases |rows|
  {
    hide Within, CallsOf, Listing, EntriesOf, NodeInv, RecordsInv, Visit, AllAfter, Expanded;
    if rows == [] || |s.records| > q.limit {
      last, seen := all, past;
      assert past + [] == past;
    } else {
      var f, row := all[taken - 1], rows[0];
      assert (past + rows)[|past|] == row && past + rows == past + [row] + rows[1..];
      assert past + [row] <= CallsOf(q, f.identity);
      assert CallsOf(q, f.identity)[|past|] == row;
      assert NodeInv(q, s.visited, f);
      AncestorsVisited(q, s.visited, f);
      LimitMeansFull(q, s, f.depth + 1);
      VisitKeepsQueue(q, s, all, taken, past, row);
      VisitKeepsRecords(q, s, all, taken, f, row);
      VisitKeepsMidway(q, s, all, taken, past, row);
      AllAfterExtends(q, s, all, f, row);
      last, seen := VisitRowsKeep(q, Visit(q, s, f, row), AllAfter(q, s, all, f, row), taken, past + [row], rows[1..]);
    }
  }

  lemma AllAfterExtends(q: Query, s: Search, all: seq<Pending>, f: Pending, row: CallRow)
    ensures all <= AllAfter(q, s, all, f, row)
  {
  }

  lemma LimitMeansFull(q: Query, s: Search, deepest: nat)
    requires RecordsInv(q, s, deepest)
    ensures s.nodeLimitHit ==> |s.visited| >= q.nodeLimit
  {
  }

  // ---- counting rows ----

  /** The function whose query returns the row. */
  function OwnerOf(row: CallRow, direction: Direction): Option<Identity> {
    match direction
    case Callers => if row.usrId.Some? then Some(Identity(row.variant, row.symbol, row.usrId.value)) else None
    case Callees =>
      if row.contextUsrId.Some? then Some(Identity(row.variant, row.context, row.contextUsrId.value)) else None
  }

  /** The rows of a set of functions, in table order. */
  function RowsOf(rows: seq<CallRow>, direction: Direction, fs: set<Identity>): seq<CallRow> {
    if rows == [] then []
    else
      var owner := OwnerOf(rows[0], direction);
      (if owner.Some? && owner.value in fs then [rows[0]] else []) + RowsOf(rows[1..], direction, fs)
  }

  lemma MatchesIsOwner(row: CallRow, direction: Direction, f: Identity)
    ensures Matches(row, direction, f) <==> OwnerOf(row, direction) == Some(f)
  {
  }

  lemma {:induction false} RowsOfOneMore(rows: seq<CallRow>, direction: Direction, fs: set<Identity>, f: Identity)
    requires f !in fs
    ensures multiset(RowsOf(rows, direction, fs + {f}))
            == multiset(RowsOf(rows, direction, fs)) + multiset(Calls(rows, direction, f))
  {
    if rows != [] {
      RowsOfOneMore(rows[1..], direction, fs, f);
      MatchesIsOwner(rows[0], direction, f);
    }
  }

  lemma {:induction false} RowsOfNone(rows: seq<CallRow>, direction: Direction)
    ensures RowsOf(rows, direction, {}) == []
  {
    if rows != [] {
      RowsOfNone(rows[1..], direction);
    }
  }

  lemma {:induction false} RowsOfMore(rows: seq<CallRow>, direction: Direction, fs: set<Identity>, gs: set<Identity>)
    requires fs <= gs
    ensures |RowsOf(rows, direction, fs)| <= |RowsOf(rows, direction, gs)|
  {
    if rows != [] {
      RowsOfMore(rows[1..], direction, fs, gs);
    }
  }

  function Rows(entries: seq<Entry>): seq<CallRow> {
    seq(|entries|, i requires 0 <= i < |entries| => entries[i].row)
  }

  /** The functions whose rows a listing holds. */
  function Listed(q: Query, fs: seq<Pending>): set<Identity> {
    if fs == [] then {}
    else
      var f := fs[|fs| - 1];
      Listed(q, fs[..|fs| - 1]) + if f.depth < q.depth then {f.identity} else {}
  }

  lemma {:induction false} ListedOnes(q: Query, fs: seq<Pending>)
    ensures forall x ::
              x in Listed(q, fs) <==> exists i :: 0 <= i < |fs| && fs[i].depth < q.depth && fs[i].identity == x
  {
    if fs != [] {
      ListedOnes(q, fs[..|fs| - 1]);
      var front := fs[..|fs| - 1];
      forall x
        ensures x in Listed(q, fs) <==> exists i :: 0 <= i < |fs| && fs[i].depth < q.depth && fs[i].identity == x
      {
        if x in Listed(q, front) {
          var i :| 0 <= i < |front| && front[i].depth < q.depth && front[i].identity == x;
          assert fs[i].identity == x;
        }
      }
    }
  }

  lemma RowsConcat(a: seq<Entry>, b: seq<Entry>)
    ensures Rows(a + b) == Rows(a) + Rows(b)
  {
  }

  lemma ListingRowsStep(q: Query, front: seq<Pending>, f: Pending)
    requires f.identity !in Listed(q, front)
    requires multiset(Rows(Listing(q, front))) == multiset(RowsOf(q.calls, q.direction, Listed(q, front)))
    ensures multiset(Rows(Listing(q, front + [f])))
            == multiset(RowsOf(q.calls, q.direction, Listed(q, front + [f])))
  {
    assert (front + [f])[..|front|] == front;
    OneMoreListed(q, front, f);
    hide Listing, RowsOf;
    if f.depth < q.depth {
      RowsOfOneMore(q.calls, q.direction, Listed(q, front), f.identity);
      RowsConcat(Listing(q, front), EntriesOf(CallsOf(q, f.identity), f.depth + 1));
      assert Rows(EntriesOf(CallsOf(q, f.identity), f.depth + 1)) == CallsOf(q, f.identity);
    } else {
      assert Listing(q, front) + [] == Listing(q, front);
      assert Listed(q, front) + {} == Listed(q, front);
    }
  }

  lemma {:induction false} ListingRows(q: Query, fs: seq<Pending>)
    requires OnceEach(fs)
    ensures multiset(Rows(Listing(q, fs))) == multiset(RowsOf(q.calls, q.direction, Listed(q, fs)))
  {
    if fs == [] {
      RowsOfNone(q.calls, q.direction);
      assert Rows([]) == [];
    } else {
      hide Listing, RowsOf, Rows, Listed;
      var front, f := fs[..|fs| - 1], fs[|fs| - 1];
      assert fs == front + [f];
      ListingRows(q, front);
      ListedOnes(q, front);
      ListingRowsStep(q, front, f);
    }
  }

  lemma ListingSize(q: Query, fs: seq<Pending>)
    requires OnceEach(fs)
    ensures |Listing(q, fs)| == |RowsOf(q.calls, q.direction, Listed(q, fs))|
  {
    ListingRows(q, fs);
    assert |multiset(Rows(Listing(q, fs)))| == |Listing(q, fs)|;
  }

  // ---- the whole search ----

  /** Taking the first function from the queue. */
  lemma PopKeeps(q: Query, s: Search, all: seq<Pending>, taken: nat)
    requires QueueInv(q, s, all, taken) && taken < |all| && RecordsInv(q, s, Deepest(all, taken))
    ensures s.pending != [] && s.pending[0] == all[taken]
    ensures QueueInv(q, s.(pending := s.pending[1..]), all, taken + 1)
    ensures RecordsInv(q, s.(pending := s.pending[1..]), Deepest(all, taken + 1))
    ensures Deepest(all, taken) <= Deepest(all, taken + 1)
  {
    hide NodeInv, Honest, CycleInReach;
    assert all[taken..][1..] == all[taken + 1..];
  }

  lemma Shallower(q: Query, all: seq<Pending>, taken: nat)
    requires taken < |all| && BreadthFirst(all, taken)
    ensures forall i | 0 <= i < |all| && all[i].depth < all[taken].depth :: i < taken
  {
  }

  /** Everything within reach of the next function's level has been visited, unless a limit was hit. */
  lemma StartMidway(q: Query, s: Search, all: seq<Pending>, taken: nat)
    requires QueueInv(q, s, all, taken) && taken < |all| && all[taken].depth < q.depth
    requires Complete(q, s, all[..taken]) && |s.records| <= q.limit
    ensures Midway(q, s.(pending := s.pending[1..]), all, taken + 1, [])
  {
    var f := all[taken];
    assert EntriesOf([], f.depth + 1) == [];
    if !s.nodeLimitHit {
      Shallower(q, all, taken);
      LevelsVisited(q, s, all, taken, f.depth, f.depth);
      hide Within, CallsOf, NodeInv, Listing, Expanded, EntriesOf;
      assert Listing(q, all[..taken]) + [] == Listing(q, all[..taken]);
    }
  }

  lemma OneMoreExpanded(q: Query, visited: set<Identity>, fs: seq<Pending>, f: Pending)
    requires Expanded(q, visited, fs)
    requires f.depth < q.depth ==> CallsVisited(q, visited, CallsOf(q, f.identity))
    ensures Expanded(q, visited, fs + [f])
  {
    hide CallsOf, CallsVisited;
    var more := fs + [f];
    forall i | 0 <= i < |more| && more[i].depth < q.depth
      ensures CallsVisited(q, visited, CallsOf(q, more[i].identity))
    {
      if i < |fs| {
        assert more[i] == fs[i];
      }
    }
  }

  lemma OneMoreListed(q: Query, fs: seq<Pending>, f: Pending)
    ensures Listing(q, fs + [f])
            == Listing(q, fs) + if f.depth < q.depth then EntriesOf(CallsOf(q, f.identity), f.depth + 1) else []
  {
    hide CallsOf, EntriesOf;
    assert (fs + [f])[..|fs|] == fs;
  }

  lemma CompleteAfter(q: Query, s: Search, t: Search, all: seq<Pending>, last: seq<Pending>, taken: nat,
                      seen: seq<CallRow>)
    requires taken < |all| && all <= last && Midway(q, t, last, taken + 1, seen)
    requires |s.records| <= q.limit && Complete(q, s, all[..taken]) && (!t.nodeLimitHit ==> !s.nodeLimitHit)
    requires |t.records| <= q.limit ==> seen == Collect(q, all[taken].identity, q.limit + 1 - |s.records|)
    ensures Complete(q, t, last[..taken + 1])
  {
    hide Within, Expanded, CallsOf, Listing;
    var f := all[taken];
    assert last[..taken] == all[..taken] && last[taken] == f;
    assert last[..taken + 1] == all[..taken] + [f];
    if !t.nodeLimitHit && |t.records| <= q.limit {
      assert |EntriesOf(seen, f.depth + 1)| == |seen|;
      assert seen == CallsOf(q, f.identity);
      hide EntriesOf, CallsVisited;
      OneMoreExpanded(q, t.visited, all[..taken], f);
      OneMoreListed(q, all[..taken], f);
    }
  }

  lemma HitStays(q: Query, s: Search, f: Pending, rows: seq<CallRow>)
    requires |s.visited| <= q.nodeLimit
    ensures !VisitRows(q, s, f, rows).nodeLimitHit ==> !s.nodeLimitHit
    decreases |rows|
  {
    if rows != [] && |s.records| <= q.limit {
      HitStays(q, Visit(q, s, f, rows[0]), f, rows[1..]);
    }
  }

  ghost predicate SearchInv(q: Query, s: Search, all: seq<Pending>, taken: nat) {
    && QueueInv(q, s, all, taken)
    && RecordsInv(q, s, Deepest(all, taken))
    && Complete(q, s, all[..taken])
    && CountInv(q, s)
  }

  /** Every row within the depth bound. */
  function InRange(q: Query): seq<CallRow>
    requires q.depth >= 1
  {
    RowsOf(q.calls, q.direction, Within(q, q.depth - 1))
  }

  /** Without the node limit no more records are made than there are rows in range. */
  ghost predicate CountInv(q: Query, s: Search) {
    !s.nodeLimitHit && s.records != [] ==> q.depth >= 1 && |s.records| <= |InRange(q)|
  }

  lemma NodeWithin(q: Query, visited: set<Identity>, p: Pending)
    requires NodeInv(q, visited, p) && p.depth < q.depth
    ensures p.identity in Within(q, q.depth - 1)
  {
    WithinGrows(q, p.depth, q.depth - 1);
  }

  lemma ListedWithin(q: Query, visited: set<Identity>, fs: seq<Pending>)
    requires q.depth >= 1 && forall i | 0 <= i < |fs| :: NodeInv(q, visited, fs[i])
    ensures Listed(q, fs) <= Within(q, q.depth - 1)
  {
    hide Listed, NodeInv, Within;
    ListedOnes(q, fs);
    forall x | x in Listed(q, fs) ensures x in Within(q, q.depth - 1) {
      var i :| 0 <= i < |fs| && fs[i].depth < q.depth && fs[i].identity == x;
      NodeWithin(q, visited, fs[i]);
    }
  }

  lemma ListingWithinRange(q: Query, visited: set<Identity>, fs: seq<Pending>)
    requires q.depth >= 1 && OnceEach(fs) && forall i | 0 <= i < |fs| :: NodeInv(q, visited, fs[i])
    ensures |Listing(q, fs)| <= |InRange(q)|
  {
    hide Listing, Listed, NodeInv, Within, RowsOf;
    ListingSize(q, fs);
    ListedWithin(q, visited, fs);
    RowsOfMore(q.calls, q.direction, Listed(q, fs), Within(q, q.depth - 1));
  }

  lemma CountAfter(q: Query, t: Search, last: seq<Pending>, taken: nat, seen: seq<CallRow>)
    requires QueueInv(q, t, last, taken) && Midway(q, t, last, taken, seen)
    ensures CountInv(q, t)
  {
    hide NodeInv, Within, CallsOf, Listing, Expanded, CallsVisited, InRange;
    if !t.nodeLimitHit {
      var f, front, some := last[taken - 1], last[..taken - 1], last[..taken];
      assert some == front + [f] && forall i | 0 <= i < |some| :: some[i] == last[i];
      assert |seen| <= |CallsOf(q, f.identity)|;
      OneMoreListed(q, front, f);
      ListingWithinRange(q, t.visited, some);
    }
  }

  lemma ExpandVisits(q: Query, s: Search, all: seq<Pending>, taken: nat, rows: seq<CallRow>)
    returns (last: seq<Pending>, seen: seq<CallRow>)
    requires |s.visited| <= q.nodeLimit
    requires QueueInv(q, s, all, taken) && RecordsInv(q, s, Deepest(all, taken)) && Complete(q, s, all[..taken])
    requires taken < |all| && |s.records| <= q.limit && all[taken].depth < q.depth
    requires rows <= CallsOf(q, all[taken].identity)
    ensures var f, rest := all[taken], s.(pending := s.pending[1..]);
            var t := VisitRows(q, rest, f, rows);
            && all <= last && QueueInv(q, t, last, taken + 1) && Midway(q, t, last, taken + 1, seen)
            && RecordsInv(q, t, f.depth + 1) && (|t.records| <= q.limit ==> seen == rows)
    ensures last == AllAfterRows(q, s.(pending := s.pending[1..]), all, all[taken], rows)
  {
    hide QueueInv, RecordsInv, Complete, Midway, CallsOf, VisitRows, AllAfterRows;
    assert [] + rows == rows;
    PopKeeps(q, s, all, taken);
    StartMidway(q, s, all, taken);
    last, seen := VisitRowsKeep(q, s.(pending := s.pending[1..]), all, taken + 1, [], rows);
  }

  lemma ExpandAssembles(q: Query, s: Search, t: Search, all: seq<Pending>, last: seq<Pending>, taken: nat,
                        seen: seq<CallRow>)
    requires taken < |all| && all <= last && QueueInv(q, t, last, taken + 1) && Midway(q, t, last, taken + 1, seen)
    requires |s.records| <= q.limit && Complete(q, s, all[..taken]) && (!t.nodeLimitHit ==> !s.nodeLimitHit)
    requires |t.records| <= q.limit ==> seen == Collect(q, all[taken].identity, q.limit + 1 - |s.records|)
    requires RecordsInv(q, t, all[taken].depth + 1)
    ensures SearchInv(q, t, last, taken + 1) && taken < |last|
  {
    hide CallsOf, Collect, QueueInv, RecordsInv, Complete, Midway, CountInv;
    assert last[taken] == all[taken];
    CompleteAfter(q, s, t, all, last, taken, seen);
    CountAfter(q, t, last, taken + 1, seen);
  }

  lemma SearchParts(q: Query, s: Search, all: seq<Pending>, taken: nat)
    requires SearchInv(q, s, all, taken)
    ensures QueueInv(q, s, all, taken) && RecordsInv(q, s, Deepest(all, taken)) && Complete(q, s, all[..taken])
  {
  }

  lemma CollectIsPrefix(q: Query, f: Identity, limit: nat)
    ensures Collect(q, f, limit) <= CallsOf(q, f)
  {
  }

  lemma ExpandKeeps(q: Query, s: Search, all: seq<Pending>, taken: nat) returns (last: seq<Pending>)
    requires |s.visited| <= q.nodeLimit
    requires SearchInv(q, s, all, taken) && taken < |all| && |s.records| <= q.limit && all[taken].depth < q.depth
    ensures var f, rest := all[taken], s.(pending := s.pending[1..]);
            SearchInv(q, VisitRows(q, rest, f, Collect(q, f.identity, q.limit + 1 - |s.records|)), last, taken + 1)
    ensures taken < |last| && all <= last
    ensures last == AllAfterRows(q, s.(pending := s.pending[1..]), all, all[taken],
                                 Collect(q, all[taken].identity, q.limit + 1 - |s.records|))
  {
    hide CallsOf, Collect, QueueInv, RecordsInv, VisitRows, Complete, Midway, CountInv, SearchInv;
    hide Deepest, AllAfterRows;
    SearchParts(q, s, all, taken);
    var rows := Collect(q, all[taken].identity, q.limit + 1 - |s.records|);
    CollectIsPrefix(q, all[taken].identity, q.limit + 1 - |s.records|);
    var seen: seq<CallRow>;
    last, seen := ExpandVisits(q, s, all, taken, rows);
    HitStays(q, s.(pending := s.pending[1..]), all[taken], rows);
    ExpandAssembles(q, s, VisitRows(q, s.(pending := s.pending[1..]), all[taken], rows), all, last, taken, seen);
  }

  lemma DropKeeps(q: Query, s: Search, all: seq<Pending>, taken: nat)
    requires SearchInv(q, s, all, taken) && taken < |all| && |s.records| <= q.limit && all[taken].depth >= q.depth
    ensures SearchInv(q, s.(pending := s.pending[1..]), all, taken + 1)
  {
    hide CallsOf, NodeInv, Within, EntriesOf, CallsVisited, QueueInv, RecordsInv, Expanded, Listing;
    PopKeeps(q, s, all, taken);
    assert all[..taken + 1] == all[..taken] + [all[taken]];
    if !s.nodeLimitHit {
      OneMoreExpanded(q, s.visited, all[..taken], all[taken]);
      OneMoreListed(q, all[..taken], all[taken]);
      assert Listing(q, all[..taken]) + [] == Listing(q, all[..taken]);
    }
  }

  ghost predicate NamelessInReach(q: Query) {
    exists f: Identity, n: nat :: f.symbol == [] && AtDistance(q, f, n) && n < q.depth
  }

  lemma QueueFacts(q: Query, s: Search, all: seq<Pending>, taken: nat)
    requires SearchInv(q, s, all, taken)
    ensures taken <= |all| && (s.pending == [] <==> taken == |all|) && |s.visited| <= q.nodeLimit
    ensures taken < |all| ==> s.pending[0] == all[taken] && AtDistance(q, all[taken].identity, all[taken].depth)
  {
    hide Holds, OnceEach, BreadthFirst, Within;
    assert taken < |all| ==> NodeInv(q, s.visited, all[taken]);
  }

  lemma {:induction false} CallsMatch(rows: seq<CallRow>, direction: Direction, f: Identity, row: CallRow)
    requires row in Calls(rows, direction, f)
    ensures OwnerOf(row, direction) == Some(f)
  {
    MatchesIsOwner(rows[0], direction, f);
    if row in Calls(rows[1..], direction, f) {
      CallsMatch(rows[1..], direction, f, row);
    }
  }
}
