/** Which rows an answer of the recursive search holds, in which order, and what its two limits leave out. */
module CallGraphListing {
  import opened Wrappers
  import opened Index
  import opened CallGraph
  import opened CallGraphSearch
  import opened CallGraphOrder
  import opened CallGraphResults

  // ---- the answer, from the graph alone ----

  /** The distance from the root of a function at most n calls away. */
  function Distance(q: Query, f: Identity, n: nat): nat {
    if n == 0 || f !in Within(q, n - 1) then n else Distance(q, f, n - 1)
  }

  /** The functions that the node limit admits: the first ones in breadth-first order. */
  function Admitted(q: Query): seq<Identity> {
    var all := Discovered(q, q.depth);
    if |all| <= q.nodeLimit then all else all[..q.nodeLimit]
  }

  /** The rows that lead to admitted functions. */
  function Leading(q: Query, rows: seq<CallRow>): seq<CallRow> {
    if rows == [] then []
    else (if NextOf(rows[0], q.direction) in Admitted(q) then [rows[0]] else []) + Leading(q, rows[1..])
  }

  /** The rows of a function that are looked at once so many records are there. */
  function Looked(q: Query, f: Identity, records: nat): seq<CallRow> {
    if records > q.limit || Distance(q, f, q.depth) >= q.depth then [] else Collect(q, f, q.limit + 1 - records)
  }

  /** What the functions contribute, one after the other. A row that leads to a function that was not admitted is left
      out, but takes its place among the rows that are looked at. */
  function Gathered(q: Query, fs: seq<Identity>): seq<Entry> {
    if fs == [] then []
    else
      var before, f := Gathered(q, fs[..|fs| - 1]), fs[|fs| - 1];
      before + EntriesOf(Leading(q, Looked(q, f, |before|)), Distance(q, f, q.depth) + 1)
  }

  /** A row that was looked at leads to a function that was not admitted. */
  predicate Refuses(q: Query, fs: seq<Identity>) {
    fs != []
    && (|| Refuses(q, fs[..|fs| - 1])
        || exists row | row in Looked(q, fs[|fs| - 1], |Gathered(q, fs[..|fs| - 1])|) ::
             NextOf(row, q.direction) !in Admitted(q))
  }

  // ---- the order has no duplicates ----

  ghost predicate NoDuplicates(ids: seq<Identity>) {
    forall i, j | 0 <= i < j < |ids| :: ids[i] != ids[j]
  }

  lemma {:induction false} MentionsOnce(ids: seq<Identity>)
    ensures NoDuplicates(FirstMentions(ids))
  {
    if ids != [] {
      MentionsOnce(ids[..|ids| - 1]);
      MentionsMember(ids[..|ids| - 1], ids[|ids| - 1]);
    }
  }

  lemma DiscoveredOnce(q: Query, n: nat)
    ensures NoDuplicates(Discovered(q, n))
  {
    if n > 0 {
      hide Discovered, FirstMentions, NextsOf;
      NextDiscovered(q, n - 1);
      MentionsOnce([q.root] + NextsOf(q, Discovered(q, n - 1)));
    }
  }

  lemma {:induction false} DistanceIs(q: Query, f: Identity, m: nat, n: nat)
    requires AtDistance(q, f, m) && m <= n
    ensures Distance(q, f, n) == m
  {
    hide Within;
    if m < n {
      WithinGrows(q, m, n - 1);
      DistanceIs(q, f, m, n - 1);
    }
  }

  /** A list of functions nearer than the bound that starts like the order is a front of those nearer than the bound. */
  lemma NearPrefix(q: Query, ids: seq<Identity>, m: nat, n: nat)
    requires ids <= Discovered(q, m) && forall x | x in ids :: x in Within(q, n)
    ensures ids <= Discovered(q, n)
  {
    hide Discovered, Within;
    if m <= n {
      DiscoveredPrefix(q, m, n);
    } else {
      DiscoveredPrefix(q, n, m);
      DiscoveredOnce(q, m);
      var near, far := Discovered(q, n), Discovered(q, m);
      if |ids| > |near| {
        assert ids[|near|] in ids;
        NotBefore(far, |near|);
        assert far[..|near|] == near;
        DiscoveredWithin(q, n, ids[|near|]);
      }
    }
  }

  // ---- the queue holds admitted functions only ----

  lemma {:induction false} QueueSize(visited: set<Identity>, all: seq<Pending>)
    requires Holds(visited, all) && OnceEach(all)
    ensures |all| == |visited|
  {
    if all == [] {
      assert visited == {};
    } else {
      var front, last := all[..|all| - 1], all[|all| - 1].identity;
      forall x | x in visited - {last} ensures exists i :: 0 <= i < |front| && front[i].identity == x {
        var i :| 0 <= i < |all| && all[i].identity == x;
        assert front[i].identity == x;
      }
      assert all[|all| - 1].identity in visited;
      QueueSize(visited - {last}, front);
    }
  }

  lemma AdmittedPrefix(q: Query, ids: seq<Identity>)
    requires ids <= Discovered(q, q.depth) && |ids| <= q.nodeLimit
    ensures ids <= Admitted(q)
  {
  }

  lemma {:induction false} SearchedAreNear(q: Query, visited: set<Identity>, fs: seq<Pending>)
    requires forall i | 0 <= i < |fs| :: NodeInv(q, visited, fs[i])
    ensures forall x | x in Searched(q, fs) :: q.depth > 0 && x in Within(q, q.depth - 1)
  {
    hide NodeInv, Within;
    if fs != [] {
      var front, f := fs[..|fs| - 1], fs[|fs| - 1];
      SearchedAreNear(q, visited, front);
      if f.depth < q.depth {
        NodeWithin(q, visited, f);
      }
    }
  }

  /** As long as the node limit was not hit the queue is a front of the order. */
  lemma QueueIsAdmitted(q: Query, s: Search, all: seq<Pending>, taken: nat, past: seq<CallRow>)
    requires QueueInv(q, s, all, taken) && MidTraced(q, s, all, taken, past) && !s.nodeLimitHit
    requires past <= CallsOf(q, all[taken - 1].identity) && all[taken - 1].depth < q.depth
    ensures Ids(all) <= Admitted(q)
  {
    hide Within, CallsOf, NodeInv, Discovered, NextsOf, Nexts, FirstMentions, OnPaths, CycleAmong, LeadsBack, Searched,
      Admitted;
    var f, front := all[taken - 1], all[..taken - 1];
    var done, rest := Searched(q, front), CallsOf(q, f.identity)[|past|..];
    assert forall i | 0 <= i < |front| :: NodeInv(q, s.visited, front[i]);
    SearchedAreNear(q, s.visited, front);
    NodeWithin(q, s.visited, f);
    NearPrefix(q, done + [f.identity], taken, q.depth - 1);
    QueueIsFront(q, done, f.identity, past);
    QueueSize(s.visited, all);
    AdmittedPrefix(q, Ids(all));
  }

  lemma QueueIsFront(q: Query, done: seq<Identity>, f: Identity, past: seq<CallRow>)
    requires past <= CallsOf(q, f) && q.depth > 0 && done + [f] <= Discovered(q, q.depth - 1)
    ensures FirstMentions([q.root] + NextsOf(q, done) + Nexts(q, past)) <= Discovered(q, q.depth)
  {
    var seen, more := [q.root] + NextsOf(q, done) + Nexts(q, past), Nexts(q, CallsOf(q, f)[|past|..]);
    hide *;
    AllNexts(q, done, f, past);
    MentionsPrefix(seen, more);
    SearchedBefore(q, done + [f]);
    PrefixOfPrefix(FirstMentions(seen), Mentioned(q, done + [f]), Discovered(q, q.depth));
  }

  lemma AllNexts(q: Query, done: seq<Identity>, f: Identity, past: seq<CallRow>)
    requires past <= CallsOf(q, f)
    ensures FirstMentions([q.root] + NextsOf(q, done) + Nexts(q, past) + Nexts(q, CallsOf(q, f)[|past|..]))
            == Mentioned(q, done + [f])
  {
    var rows := CallsOf(q, f);
    hide *;
    NextsSplit(q, rows, past);
    NextsOfAppend(q, done, f);
    MentionedIs(q, done + [f]);
    Regroup([q.root], NextsOf(q, done), Nexts(q, past), Nexts(q, rows[|past|..]));
  }

  lemma NextsSplit(q: Query, rows: seq<CallRow>, past: seq<CallRow>)
    requires past <= rows
    ensures Nexts(q, past) + Nexts(q, rows[|past|..]) == Nexts(q, rows)
  {
  }

  lemma MentionedIs(q: Query, fs: seq<Identity>)
    ensures Mentioned(q, fs) == FirstMentions([q.root] + NextsOf(q, fs))
  {
  }

  lemma Regroup<T>(a: seq<T>, b: seq<T>, c: seq<T>, d: seq<T>)
    ensures a + b + c + d == a + (b + (c + d))
  {
  }

  lemma SearchedBefore(q: Query, fs: seq<Identity>)
    requires q.depth > 0 && fs <= Discovered(q, q.depth - 1)
    ensures Mentioned(q, fs) <= Discovered(q, q.depth)
  {
    hide Discovered, Mentioned;
    MentionedPrefix(q, fs, Discovered(q, q.depth - 1));
    NextDiscovered(q, q.depth - 1);
  }

  lemma PrefixOfPrefix(a: seq<Identity>, b: seq<Identity>, c: seq<Identity>)
    requires a <= b <= c
    ensures a <= c
  {
  }

  lemma QueuedOnly(visited: set<Identity>, all: seq<Pending>, admitted: seq<Identity>, x: Identity)
    requires Holds(visited, all) && Ids(all) <= admitted && x in visited
    ensures x in admitted
  {
    VisitedAreQueued(visited, all, x);
    var i :| 0 <= i < |Ids(all)| && Ids(all)[i] == x;
    assert admitted[i] == x;
  }

  /** With a full queue nothing else is admitted. */
  lemma FullQueue(q: Query, visited: set<Identity>, all: seq<Pending>)
    requires Holds(visited, all) && OnceEach(all) && Ids(all) <= Admitted(q) && |visited| >= q.nodeLimit
    ensures Ids(all) == Admitted(q)
    ensures forall x :: x in Admitted(q) <==> x in visited
  {
    hide Holds, Discovered;
    QueueSize(visited, all);
    forall x ensures x in Admitted(q) <==> x in visited {
      VisitedAreQueued(visited, all, x);
    }
  }

  // ---- one row, all rows ----

  ghost predicate QueueAdmitted(q: Query, all: seq<Pending>) {
    Ids(all) <= Admitted(q)
  }

  /** n of a function's rows, from the i-th one on. */
  function Slice(q: Query, f: Identity, i: nat, n: nat): seq<CallRow> {
    var rows := CallsOf(q, f);
    if i + n <= |rows| then rows[i..i + n] else []
  }

  predicate LeadsOutside(q: Query, rows: seq<CallRow>) {
    exists row :: row in rows && NextOf(row, q.direction) !in Admitted(q)
  }

  ghost predicate Visiting(q: Query, s: Search, all: seq<Pending>, taken: nat, past: seq<CallRow>) {
    && 0 < taken <= |all| && QueueInv(q, s, all, taken) && Midway(q, s, all, taken, past)
    && MidTraced(q, s, all, taken, past) && RecordsInv(q, s, all[taken - 1].depth + 1)
    && QueueAdmitted(q, all)
  }

  lemma VisitingFacts(q: Query, s: Search, all: seq<Pending>, taken: nat, past: seq<CallRow>)
    requires Visiting(q, s, all, taken, past)
    ensures 0 < taken <= |all| && QueueInv(q, s, all, taken) && Midway(q, s, all, taken, past)
    ensures MidTraced(q, s, all, taken, past) && RecordsInv(q, s, all[taken - 1].depth + 1)
    ensures QueueAdmitted(q, all)
  {
  }

  lemma IsVisiting(q: Query, s: Search, all: seq<Pending>, taken: nat, past: seq<CallRow>)
    requires 0 < taken <= |all| && QueueInv(q, s, all, taken) && Midway(q, s, all, taken, past)
    requires MidTraced(q, s, all, taken, past) && RecordsInv(q, s, all[taken - 1].depth + 1)
    requires QueueAdmitted(q, all)
    ensures Visiting(q, s, all, taken, past)
  {
  }

  lemma VisitStays(q: Query, s: Search, all: seq<Pending>, taken: nat, past: seq<CallRow>, row: CallRow)
    requires Visiting(q, s, all, taken, past) && 0 < taken <= |all|
    requires past + [row] <= CallsOf(q, all[taken - 1].identity) && row in CallsOf(q, all[taken - 1].identity)
    ensures var added := AllAfter(q, s, all, all[taken - 1], row);
            && taken <= |added| && added[taken - 1] == all[taken - 1]
            && Visiting(q, Visit(q, s, all[taken - 1], row), added, taken, past + [row])
    ensures |Visit(q, s, all[taken - 1], row).visited| <= q.nodeLimit
  {
    hide *;
    VisitingFacts(q, s, all, taken, past);
    OneVisit(q, s, all, taken, past, row);
    VisitAdmits(q, s, all, taken, past, row);
    IsVisiting(q, Visit(q, s, all[taken - 1], row), AllAfter(q, s, all, all[taken - 1], row), taken, past + [row]);
  }

  /** A row is recorded exactly when it leads to an admitted function; otherwise the node limit is hit. */
  lemma VisitGathers(q: Query, s: Search, all: seq<Pending>, taken: nat, past: seq<CallRow>, row: CallRow,
                     seen: seq<CallRow>)
    requires Visiting(q, s, all, taken, past) && 0 < taken <= |all|
    requires Visiting(q, Visit(q, s, all[taken - 1], row), AllAfter(q, s, all, all[taken - 1], row), taken, seen)
    ensures var t, next := Visit(q, s, all[taken - 1], row), NextOf(row, q.direction);
            && t.records == s.records + (if next in Admitted(q) then [Entry(row, all[taken - 1].depth + 1)] else [])
            && (t.nodeLimitHit <==> s.nodeLimitHit || next !in Admitted(q))
  {
    hide *;
    VisitingSets(q, s, all, taken, past);
    VisitingSets(q, Visit(q, s, all[taken - 1], row), AllAfter(q, s, all, all[taken - 1], row), taken, seen);
    VisitVerdict(q, s, all, all[taken - 1], row);
  }

  lemma VisitingSets(q: Query, s: Search, all: seq<Pending>, taken: nat, past: seq<CallRow>)
    requires Visiting(q, s, all, taken, past)
    ensures 0 < taken <= |all| && Holds(s.visited, all) && OnceEach(all) && all[taken - 1].ancestors <= s.visited
    ensures QueueAdmitted(q, all)
  {
    VisitingFacts(q, s, all, taken, past);
    QueueSets(q, s, all, taken);
  }

  lemma QueueSets(q: Query, s: Search, all: seq<Pending>, taken: nat)
    requires QueueInv(q, s, all, taken) && 0 < taken
    ensures taken <= |all| && Holds(s.visited, all) && OnceEach(all) && all[taken - 1].ancestors <= s.visited
  {
    hide Holds, OnceEach, BreadthFirst, NodeInv;
    AncestorsVisited(q, s.visited, all[taken - 1]);
  }

  lemma VisitVerdict(q: Query, s: Search, all: seq<Pending>, f: Pending, row: CallRow)
    requires Holds(s.visited, all) && OnceEach(all) && f.ancestors <= s.visited && QueueAdmitted(q, all)
    requires Holds(Visit(q, s, f, row).visited, AllAfter(q, s, all, f, row))
    requires QueueAdmitted(q, AllAfter(q, s, all, f, row))
    ensures var t, next := Visit(q, s, f, row), NextOf(row, q.direction);
            && t.records == s.records + (if next in Admitted(q) then [Entry(row, f.depth + 1)] else [])
            && (t.nodeLimitHit <==> s.nodeLimitHit || next !in Admitted(q))
  {
    var t, next := Visit(q, s, f, row), NextOf(row, q.direction);
    hide Holds, OnceEach, NextOf, Admitted, Ids, AllAfter;
    assert s.records + [] == s.records;
    if next in s.visited {
      QueuedOnly(s.visited, all, Admitted(q), next);
    } else if |s.visited| >= q.nodeLimit {
      FullQueue(q, s.visited, all);
    } else {
      QueuedOnly(t.visited, AllAfter(q, s, all, f, row), Admitted(q), next);
    }
  }

  lemma VisitAdmits(q: Query, s: Search, all: seq<Pending>, taken: nat, past: seq<CallRow>, row: CallRow)
    requires Visiting(q, s, all, taken, past)
    requires past + [row] <= CallsOf(q, all[taken - 1].identity) && row in CallsOf(q, all[taken - 1].identity)
    ensures QueueAdmitted(q, AllAfter(q, s, all, all[taken - 1], row))
  {
    var f := all[taken - 1];
    var t, added := Visit(q, s, f, row), AllAfter(q, s, all, f, row);
    OneVisit(q, s, all, taken, past, row);
    LimitMeansFull(q, s, f.depth + 1);
    MidwayDepth(q, s, all, taken, past);
    hide Within, CallsOf, NodeInv, RecordsInv, Midway, MidTraced, QueueInv, NextOf, Admitted;
    if added != all {
      QueueIsAdmitted(q, t, added, taken, past + [row]);
    }
  }


  lemma GatherAppend(records: seq<Entry>, row: CallRow, kept: bool, more: seq<CallRow>, depth: nat)
    ensures var rows := (if kept then [row] else []) + more;
            records + EntriesOf(rows, depth)
            == records + (if kept then [Entry(row, depth)] else []) + EntriesOf(more, depth)
  {
  }

  lemma {:induction false} RowsGather(q: Query, s: Search, all: seq<Pending>, taken: nat, f: Pending,
                                      past: seq<CallRow>, i: nat, rows: seq<CallRow>)
    requires |s.visited| <= q.nodeLimit && 0 < taken <= |all| && f == all[taken - 1]
    requires Visiting(q, s, all, taken, past)
    requires i == |past| && past == Slice(q, f.identity, 0, i) && rows == Slice(q, f.identity, i, |rows|)
    requires |s.records| + |rows| <= q.limit + 1
    ensures var t := VisitRows(q, s, f, rows);
            && t.records == s.records + EntriesOf(Leading(q, rows), f.depth + 1)
            && (t.nodeLimitHit <==> s.nodeLimitHit || LeadsOutside(q, rows))
            && QueueAdmitted(q, AllAfterRows(q, s, all, f, rows))
    decreases |rows|
  {
    hide Visiting, Visit, AllAfter, CallsOf, NextOf, Admitted, EntriesOf;
    if rows == [] {
      NothingGathered(q, s, all, taken, past);
    } else {
      var row := rows[0];
      OneRowAhead(q, f.identity, past, rows);
      VisitStays(q, s, all, taken, past, row);
      VisitGathers(q, s, all, taken, past, row, past + [row]);
      RowsGather(q, Visit(q, s, f, row), AllAfter(q, s, all, f, row), taken, f, past + [row], i + 1, rows[1..]);
      GatherAppend(s.records, row, NextOf(row, q.direction) in Admitted(q), Leading(q, rows[1..]), f.depth + 1);
    }
  }

  lemma OneRowAhead(q: Query, f: Identity, past: seq<CallRow>, rows: seq<CallRow>)
    requires past == Slice(q, f, 0, |past|) && rows == Slice(q, f, |past|, |rows|) && rows != []
    ensures past + [rows[0]] <= CallsOf(q, f) && rows[0] in CallsOf(q, f)
    ensures past + [rows[0]] == Slice(q, f, 0, |past| + 1) && rows[1..] == Slice(q, f, |past| + 1, |rows| - 1)
  {
    hide CallsOf;
    assert rows[0] == CallsOf(q, f)[|past|];
  }

  lemma NothingGathered(q: Query, s: Search, all: seq<Pending>, taken: nat, past: seq<CallRow>)
    requires Visiting(q, s, all, taken, past)
    ensures s.records == s.records + EntriesOf([], all[taken - 1].depth + 1) && QueueAdmitted(q, all)
  {
  }

  // ---- the search ----

  /** The search so far has gathered what its functions contribute. */
  ghost predicate Gathers(q: Query, s: Search, all: seq<Pending>, taken: nat) {
    && taken <= |all| && QueueAdmitted(q, all)
    && s.records == Gathered(q, Ids(all[..taken])) && (s.nodeLimitHit <==> Refuses(q, Ids(all[..taken])))
  }

  lemma QueuedDepth(q: Query, s: Search, all: seq<Pending>, taken: nat, i: nat)
    requires SearchInv(q, s, all, taken) && i < |all|
    ensures Distance(q, all[i].identity, q.depth) == all[i].depth <= q.depth
  {
    hide CountInv, RecordsInv, Complete, CallsOf, Holds, OnceEach, BreadthFirst, ReachesFrom, Within, AtDistance;
    assert NodeInv(q, s.visited, all[i]);
    DistanceIs(q, all[i].identity, all[i].depth, q.depth);
  }

  lemma GatheredAppend(q: Query, fs: seq<Identity>, f: Identity)
    ensures var before := Gathered(q, fs);
            && Gathered(q, fs + [f])
               == before + EntriesOf(Leading(q, Looked(q, f, |before|)), Distance(q, f, q.depth) + 1)
            && (Refuses(q, fs + [f]) <==>
                  || Refuses(q, fs)
                  || exists row :: row in Looked(q, f, |before|) && NextOf(row, q.direction) !in Admitted(q))
  {
    hide Leading, Looked, Distance, Admitted, NextOf;
    assert (fs + [f])[..|fs|] == fs;
  }

  lemma OneMoreId(all: seq<Pending>, taken: nat)
    requires taken < |all|
    ensures Ids(all[..taken + 1]) == Ids(all[..taken]) + [all[taken].identity]
  {
  }

  lemma DropGathers(q: Query, s: Search, all: seq<Pending>, taken: nat)
    requires SearchInv(q, s, all, taken) && Gathers(q, s, all, taken) && taken < |all| && all[taken].depth >= q.depth
    ensures Gathers(q, s.(pending := s.pending[1..]), all, taken + 1)
  {
    QueuedDepth(q, s, all, taken, taken);
    hide SearchInv, Admitted, Distance, Ids;
    OneMoreId(all, taken);
    GatheredAppend(q, Ids(all[..taken]), all[taken].identity);
    assert s.records + [] == s.records && EntriesOf([], q.depth + 1) == [];
  }

  lemma StartVisiting(q: Query, s: Search, all: seq<Pending>, taken: nat)
    requires SearchInv(q, s, all, taken) && Traced(q, s, all, taken) && taken < |all| && |s.records| <= q.limit
    requires all[taken].depth < q.depth && QueueAdmitted(q, all) && s.pending != []
    ensures Visiting(q, s.(pending := s.pending[1..]), all, taken + 1, [])
  {
    hide QueueInv, RecordsInv, Complete, Midway, MidTraced, Traced, BreadthFirst, Admitted, Ids, CountInv;
    QueueIsBreadthFirst(q, s, all, taken);
    DeepestTaken(all, taken);
    PopKeeps(q, s, all, taken);
    StartMidway(q, s, all, taken);
    StartTraced(q, s, all, taken);
  }

  lemma CollectAhead(q: Query, f: Identity, limit: nat)
    ensures |Collect(q, f, limit)| <= limit && Slice(q, f, 0, 0) == []
    ensures Collect(q, f, limit) == Slice(q, f, 0, |Collect(q, f, limit)|)
  {
    hide CallsOf;
  }

  lemma ExpandRows(q: Query, s: Search, all: seq<Pending>, taken: nat)
    requires |s.visited| <= q.nodeLimit && s.pending != []
    requires SearchInv(q, s, all, taken) && Traced(q, s, all, taken) && QueueAdmitted(q, all)
    requires taken < |all| && |s.records| <= q.limit && all[taken].depth < q.depth
    ensures var f, rest := all[taken], s.(pending := s.pending[1..]);
            var rows := Collect(q, f.identity, q.limit + 1 - |s.records|);
            var t := VisitRows(q, rest, f, rows);
            && t.records == s.records + EntriesOf(Leading(q, rows), f.depth + 1)
            && (t.nodeLimitHit <==> s.nodeLimitHit || LeadsOutside(q, rows))
            && QueueAdmitted(q, AllAfterRows(q, rest, all, f, rows))
  {
    hide *;
    StartVisiting(q, s, all, taken);
    CollectedGather(q, s.(pending := s.pending[1..]), all, taken + 1, all[taken]);
  }

  lemma CollectedGather(q: Query, s: Search, all: seq<Pending>, taken: nat, f: Pending)
    requires |s.visited| <= q.nodeLimit && 0 < taken <= |all| && f == all[taken - 1] && |s.records| <= q.limit
    requires Visiting(q, s, all, taken, [])
    ensures var rows := Collect(q, f.identity, q.limit + 1 - |s.records|);
            var t := VisitRows(q, s, f, rows);
            && t.records == s.records + EntriesOf(Leading(q, rows), f.depth + 1)
            && (t.nodeLimitHit <==> s.nodeLimitHit || LeadsOutside(q, rows))
            && QueueAdmitted(q, AllAfterRows(q, s, all, f, rows))
  {
    hide *;
    CollectAhead(q, f.identity, q.limit + 1 - |s.records|);
    RowsGather(q, s, all, taken, f, [], 0, Collect(q, f.identity, q.limit + 1 - |s.records|));
  }

  lemma SameFront(q: Query, s: Search, all: seq<Pending>, taken: nat, rows: seq<CallRow>)
    requires taken < |all|
    ensures var last := AllAfterRows(q, s, all, all[taken], rows);
            taken < |last| && Ids(last[..taken + 1]) == Ids(all[..taken]) + [all[taken].identity]
  {
    var last := AllAfterRows(q, s, all, all[taken], rows);
    hide AllAfterRows, Ids;
    AllAfterRowsExtends(q, s, all, all[taken], rows);
    assert last[..taken + 1] == all[..taken + 1];
    OneMoreId(all, taken);
  }

  lemma ExpandGathers(q: Query, s: Search, all: seq<Pending>, taken: nat)
    requires |s.visited| <= q.nodeLimit && s.pending != []
    requires SearchInv(q, s, all, taken) && Traced(q, s, all, taken) && Gathers(q, s, all, taken)
    requires taken < |all| && |s.records| <= q.limit && all[taken].depth < q.depth
    ensures var f, rest := all[taken], s.(pending := s.pending[1..]);
            var rows := Collect(q, f.identity, q.limit + 1 - |s.records|);
            Gathers(q, VisitRows(q, rest, f, rows), AllAfterRows(q, rest, all, f, rows), taken + 1)
  {
    hide *;
    GathersFront(q, s, all, taken);
    QueuedDepth(q, s, all, taken, taken);
    LookedIs(q, all[taken].identity, |s.records|);
    ExpandRows(q, s, all, taken);
    ExpandedGathers(q, s, s.(pending := s.pending[1..]), all, taken, all[taken],
                    Collect(q, all[taken].identity, q.limit + 1 - |s.records|));
  }

  lemma ExpandedGathers(q: Query, s: Search, rest: Search, all: seq<Pending>, taken: nat, f: Pending,
                        rows: seq<CallRow>)
    requires Gathers(q, s, all, taken) && taken < |all| && f == all[taken] && |rest.visited| <= q.nodeLimit
    requires Looked(q, f.identity, |s.records|) == rows && Distance(q, f.identity, q.depth) == f.depth
    requires VisitRows(q, rest, f, rows).records == s.records + EntriesOf(Leading(q, rows), f.depth + 1)
    requires VisitRows(q, rest, f, rows).nodeLimitHit <==> s.nodeLimitHit || LeadsOutside(q, rows)
    requires QueueAdmitted(q, AllAfterRows(q, rest, all, f, rows))
    ensures Gathers(q, VisitRows(q, rest, f, rows), AllAfterRows(q, rest, all, f, rows), taken + 1)
  {
    hide *;
    SameFront(q, rest, all, taken, rows);
    Gathering(q, s, all, taken, VisitRows(q, rest, f, rows), AllAfterRows(q, rest, all, f, rows), rows);
  }

  lemma LookedIs(q: Query, f: Identity, records: nat)
    requires Distance(q, f, q.depth) < q.depth && records <= q.limit
    ensures Looked(q, f, records) == Collect(q, f, q.limit + 1 - records)
  {
  }

  lemma GathersFront(q: Query, s: Search, all: seq<Pending>, taken: nat)
    requires Gathers(q, s, all, taken)
    ensures QueueAdmitted(q, all)
  {
  }

  lemma Gathering(q: Query, s: Search, all: seq<Pending>, taken: nat, t: Search, last: seq<Pending>,
                  rows: seq<CallRow>)
    requires Gathers(q, s, all, taken) && taken < |all| && QueueAdmitted(q, last)
    requires taken < |last| && Ids(last[..taken + 1]) == Ids(all[..taken]) + [all[taken].identity]
    requires Looked(q, all[taken].identity, |s.records|) == rows
    requires Distance(q, all[taken].identity, q.depth) == all[taken].depth
    requires t.records == s.records + EntriesOf(Leading(q, rows), all[taken].depth + 1)
    requires t.nodeLimitHit <==> s.nodeLimitHit || LeadsOutside(q, rows)
    ensures Gathers(q, t, last, taken + 1)
  {
    hide Admitted, Distance, Ids, Looked, Gathered, Refuses, NextOf, EntriesOf, Leading;
    GatheredAppend(q, Ids(all[..taken]), all[taken].identity);
  }

  lemma {:induction false} TraverseGathers(q: Query, s: Search, all: seq<Pending>, taken: nat)
    returns (last: seq<Pending>, end: nat)
    requires SearchInv(q, s, all, taken) && Traced(q, s, all, taken) && Gathers(q, s, all, taken)
    requires |s.visited| <= q.nodeLimit && Traverse(q, s).Some?
    ensures var t := Traverse(q, s).value;
            && SearchInv(q, t, last, end) && Gathers(q, t, last, end) && (|t.records| <= q.limit ==> end == |last|)
    decreases 2 * (q.nodeLimit - |s.visited|) + |s.pending|
  {
    hide SearchInv, Traced, VisitRows, Collect, AtDistance, AllAfterRows, Gathers;
    QueueFacts(q, s, all, taken);
    last, end := all, taken;
    if taken < |all| && |s.records| <= q.limit {
      var f, rest := all[taken], s.(pending := s.pending[1..]);
      if f.depth >= q.depth {
        DropKeeps(q, s, all, taken);
        DropTraced(q, s, all, taken);
        DropGathers(q, s, all, taken);
        last, end := TraverseGathers(q, rest, all, taken + 1);
      } else {
        last := ExpandKeeps(q, s, all, taken);
        ExpandTraced(q, s, all, taken);
        ExpandGathers(q, s, all, taken);
        var t := VisitRows(q, rest, f, Collect(q, f.identity, q.limit + 1 - |s.records|));
        last, end := TraverseGathers(q, t, last, taken + 1);
      }
    }
  }

  // ---- the answer ----

  lemma FrontAndLast<T>(all: seq<T>, n: nat)
    requires 0 < n <= |all|
    ensures all[..n] == all[..n - 1] + [all[n - 1]]
  {
  }

  lemma {:induction false} GatheredStops(q: Query, fs: seq<Identity>, m: nat, n: nat)
    requires m <= n <= |fs| && |Gathered(q, fs[..m])| > q.limit
    ensures Gathered(q, fs[..n]) == Gathered(q, fs[..m]) && (Refuses(q, fs[..n]) <==> Refuses(q, fs[..m]))
    decreases n
  {
    hide *;
    if m < n {
      GatheredStops(q, fs, m, n - 1);
      FrontAndLast(fs, n);
      NoMoreGathered(q, fs[..n - 1], fs[n - 1]);
    }
  }

  lemma NoMoreGathered(q: Query, fs: seq<Identity>, f: Identity)
    requires |Gathered(q, fs)| > q.limit
    ensures Gathered(q, fs + [f]) == Gathered(q, fs) && (Refuses(q, fs + [f]) <==> Refuses(q, fs))
  {
    hide *;
    GatheredAppends(q, fs, f);
    NothingLooked(q, f, |Gathered(q, fs)|);
    NothingAdded(q, Gathered(q, fs), Distance(q, f, q.depth) + 1);
  }

  lemma NothingLooked(q: Query, f: Identity, records: nat)
    requires records > q.limit
    ensures Looked(q, f, records) == [] && !LeadsOutside(q, Looked(q, f, records))
  {
    hide Distance, Admitted, NextOf;
  }

  lemma NothingAdded(q: Query, records: seq<Entry>, depth: nat)
    ensures records + EntriesOf(Leading(q, []), depth) == records
  {
  }

  lemma AdmittedOnce(q: Query)
    ensures NoDuplicates(Admitted(q))
    ensures forall x | x in Admitted(q) :: x in Within(q, q.depth)
  {
    hide Discovered, Within;
    DiscoveredOnce(q, q.depth);
    forall x | x in Admitted(q) ensures x in Within(q, q.depth) {
      DiscoveredWithin(q, q.depth, x);
    }
  }

  /** A search that came to the end of its queue has queued every admitted function. */
  lemma AllAdmitted(q: Query, t: Search, last: seq<Pending>)
    requires SearchInv(q, t, last, |last|) && Ids(last) <= Admitted(q) && |t.records| <= q.limit && q.depth >= 1
    ensures Ids(last) == Admitted(q)
  {
    hide Expanded, Listing, Within, CountInv, Holds, BreadthFirst, NodeInv, Listed, Admitted, Ids, OnceEach;
    if t.nodeLimitHit {
      LimitMeansFull(q, t, Deepest(last, |last|));
      FullQueue(q, t.visited, last);
    } else {
      assert last[..|last|] == last;
      FunctionsInRange(q, t, last);
      AdmittedOnce(q);
      EndOfPrefix(t.visited, last, Admitted(q));
    }
  }

  lemma EndOfPrefix(visited: set<Identity>, last: seq<Pending>, admitted: seq<Identity>)
    requires Holds(visited, last) && Ids(last) <= admitted && NoDuplicates(admitted)
    requires forall x | x in admitted :: x in visited
    ensures Ids(last) == admitted
  {
    hide Holds, Ids, NoDuplicates;
    var ids := Ids(last);
    if |ids| < |admitted| {
      NotBefore(admitted, |ids|);
      assert admitted[..|ids|] == ids;
      assert admitted[|ids|] in admitted;
      VisitedAreQueued(visited, last, admitted[|ids|]);
    }
  }

  lemma NotBefore(ids: seq<Identity>, n: nat)
    requires NoDuplicates(ids) && n < |ids|
    ensures ids[n] !in ids[..n]
  {
  }

  lemma InitialGathers(q: Query)
    requires q.nodeLimit >= 1
    ensures Gathers(q, Initial(q), [Pending(q.root, 0, {q.root})], 0)
  {
    var all := [Pending(q.root, 0, {q.root})];
    DiscoveredPrefix(q, 0, q.depth);
    assert Ids(all) == Discovered(q, 0);
    hide Discovered;
    AdmittedPrefix(q, Ids(all));
    hide Admitted;
    assert all[..0] == [] && Ids([]) == [];
  }

  lemma SearchGathers(q: Query) returns (t: Search)
    requires q.nodeLimit >= 1 && q.depth >= 1 && Recursive(q).Graph?
    ensures Recursive(q) == GraphResult(q, t)
    ensures t.records == Gathered(q, Admitted(q)) && (t.nodeLimitHit <==> Refuses(q, Admitted(q)))
  {
    hide SearchInv, Traced, Gathers, Admitted;
    InitialInv(q);
    InitialTraced(q);
    InitialGathers(q);
    t := Traverse(q, Initial(q)).value;
    var last, end := TraverseGathers(q, Initial(q), [Pending(q.root, 0, {q.root})], 0);
    hide Recursive, Traverse;
    GatheredEnds(q, t, last, end);
  }

  lemma GatheredEnds(q: Query, t: Search, last: seq<Pending>, end: nat)
    requires SearchInv(q, t, last, end) && Gathers(q, t, last, end) && q.depth >= 1
    requires |t.records| <= q.limit ==> end == |last|
    ensures t.records == Gathered(q, Admitted(q)) && (t.nodeLimitHit <==> Refuses(q, Admitted(q)))
  {
    hide SearchInv, Admitted, Ids, Gathered, Refuses;
    if |t.records| <= q.limit {
      assert last[..end] == last;
      AllAdmitted(q, t, last);
    } else {
      FrontOfIds(last, end, Admitted(q));
      assert Admitted(q)[..|Admitted(q)|] == Admitted(q);
      GatheredStops(q, Admitted(q), |Ids(last[..end])|, |Admitted(q)|);
    }
  }

  lemma FrontOfIds(last: seq<Pending>, end: nat, admitted: seq<Identity>)
    requires end <= |last| && Ids(last) <= admitted
    ensures |Ids(last[..end])| <= |admitted| && admitted[..|Ids(last[..end])|] == Ids(last[..end])
  {
    assert Ids(last[..end]) == Ids(last)[..end];
  }

  function FirstEntries(entries: seq<Entry>, limit: nat): seq<Entry> {
    if |entries| <= limit then entries else entries[..limit]
  }

  /** Every answer, truncated or not, within the limits or beyond: the records are the first ones of what the admitted
      functions contribute in breadth-first order; the node limit is reported exactly when a row that was looked at
      leads to a function that was not admitted, and truncation when that is so or more than the limit was
      contributed. */
  lemma AnswerIsGathered(q: Query)
    requires q.nodeLimit >= 1 && q.depth >= 1 && Recursive(q).Graph?
    ensures var r, gathered := Recursive(q), Gathered(q, Admitted(q));
            && r.records == FirstEntries(gathered, q.limit)
            && (r.nodeLimitHit <==> Refuses(q, Admitted(q)))
            && (r.truncated <==> r.nodeLimitHit || |gathered| > q.limit)
  {
    var t := SearchGathers(q);
    hide Recursive, Admitted, Gathered, Refuses;
  }

  // ---- within the node limit ----

  /** The rows of a function nearer than the depth bound. */
  function NearRows(q: Query, f: Identity): seq<CallRow> {
    if Distance(q, f, q.depth) < q.depth then CallsOf(q, f) else []
  }

  /** All rows of the functions nearer than the depth bound. */
  function Whole(q: Query, fs: seq<Identity>): seq<Entry> {
    if fs == [] then []
    else
      var f := fs[|fs| - 1];
      Whole(q, fs[..|fs| - 1]) + EntriesOf(NearRows(q, f), Distance(q, f, q.depth) + 1)
  }

  function FirstRows(rows: seq<CallRow>, limit: int): seq<CallRow> {
    if |rows| <= limit then rows else if limit <= 0 then [] else rows[..limit]
  }

  lemma {:induction false} LeadingAll(q: Query, rows: seq<CallRow>)
    requires forall row | row in rows :: NextOf(row, q.direction) in Admitted(q)
    ensures Leading(q, rows) == rows
  {
    hide Admitted, NextOf;
    if rows != [] {
      LeadingAll(q, rows[1..]);
      assert rows == [rows[0]] + rows[1..];
    }
  }

  lemma LookedAll(q: Query, f: Identity, records: nat)
    ensures Looked(q, f, records) == FirstRows(NearRows(q, f), q.limit + 1 - records)
  {
    hide CallsOf, Distance;
  }

  lemma FrontAppend(a: seq<Entry>, rows: seq<CallRow>, limit: nat, d: nat)
    ensures var before := FirstEntries(a, limit + 1);
            before + EntriesOf(FirstRows(rows, limit + 1 - |before|), d)
            == FirstEntries(a + EntriesOf(rows, d), limit + 1)
  {
  }

  lemma LookedLead(q: Query, f: Identity, records: nat)
    requires LeadInside(q, f)
    ensures Leading(q, Looked(q, f, records)) == Looked(q, f, records) && !LeadsOutside(q, Looked(q, f, records))
  {
    hide NearRows, Looked, NextOf, Admitted;
    LookedAll(q, f, records);
    LeadingAll(q, Looked(q, f, records));
  }

  predicate LeadInside(q: Query, f: Identity) {
    forall row | row in NearRows(q, f) :: NextOf(row, q.direction) in Admitted(q)
  }

  /** When every call leads to an admitted function nothing is refused, and only the record limit cuts. */
  lemma {:induction false} GatheredIsFront(q: Query, fs: seq<Identity>, n: nat)
    requires n <= |fs| && forall i | 0 <= i < n :: LeadInside(q, fs[i])
    ensures !Refuses(q, fs[..n]) && Gathered(q, fs[..n]) == FirstEntries(Whole(q, fs[..n]), q.limit + 1)
    decreases n
  {
    hide *;
    if n > 0 {
      GatheredIsFront(q, fs, n - 1);
      FrontAndLast(fs, n);
      FrontStep(q, fs[..n - 1], fs[n - 1]);
    } else {
      NoFront(q, fs);
    }
  }

  lemma NoFront(q: Query, fs: seq<Identity>)
    ensures !Refuses(q, fs[..0]) && Gathered(q, fs[..0]) == FirstEntries(Whole(q, fs[..0]), q.limit + 1)
  {
    assert fs[..0] == [];
  }

  lemma FrontStep(q: Query, front: seq<Identity>, f: Identity)
    requires !Refuses(q, front) && Gathered(q, front) == FirstEntries(Whole(q, front), q.limit + 1)
    requires LeadInside(q, f)
    ensures !Refuses(q, front + [f])
    ensures Gathered(q, front + [f]) == FirstEntries(Whole(q, front + [f]), q.limit + 1)
  {
    var records, d := |Gathered(q, front)|, Distance(q, f, q.depth);
    hide *;
    GatheredAppends(q, front, f);
    WholeAppend(q, front, f);
    LookedLead(q, f, records);
    LookedAll(q, f, records);
    FrontAppend(Whole(q, front), NearRows(q, f), q.limit, d + 1);
  }

  lemma GatheredAppends(q: Query, fs: seq<Identity>, f: Identity)
    ensures var looked := Looked(q, f, |Gathered(q, fs)|);
            && Gathered(q, fs + [f]) == Gathered(q, fs) + EntriesOf(Leading(q, looked), Distance(q, f, q.depth) + 1)
            && (Refuses(q, fs + [f]) <==> Refuses(q, fs) || LeadsOutside(q, looked))
  {
    hide Gathered, Refuses, Leading, Looked, Distance, Admitted, NextOf;
    GatheredAppend(q, fs, f);
  }

  lemma WholeAppend(q: Query, fs: seq<Identity>, f: Identity)
    ensures Whole(q, fs + [f]) == Whole(q, fs) + EntriesOf(NearRows(q, f), Distance(q, f, q.depth) + 1)
  {
    hide Distance, EntriesOf, NearRows;
    assert (fs + [f])[..|fs|] == fs;
  }

  lemma {:induction false} DistanceFits(q: Query, f: Identity, n: nat)
    ensures Distance(q, f, n) <= n
    ensures n > 0 ==> (Distance(q, f, n) < n <==> f in Within(q, n - 1))
  {
    hide Within;
    if n > 0 && f in Within(q, n - 1) {
      DistanceFits(q, f, n - 1);
    }
  }

  lemma {:induction false} OnceSize(ids: seq<Identity>, all: set<Identity>)
    requires NoDuplicates(ids) && forall x :: x in ids <==> x in all
    ensures |ids| == |all|
  {
    if ids == [] {
      assert all == {};
    } else {
      var front, last := ids[..|ids| - 1], ids[|ids| - 1];
      assert last in ids;
      forall x ensures x in front <==> x in all - {last} {
        assert ids == front + [last];
      }
      OnceSize(front, all - {last});
    }
  }

  lemma EverythingAdmitted(q: Query)
    requires |Within(q, q.depth)| <= q.nodeLimit
    ensures Admitted(q) == Discovered(q, q.depth)
  {
    hide Within, Discovered;
    DiscoveredOnce(q, q.depth);
    forall x ensures x in Discovered(q, q.depth) <==> x in Within(q, q.depth) {
      DiscoveredWithin(q, q.depth, x);
    }
    OnceSize(Discovered(q, q.depth), Within(q, q.depth));
  }

  lemma AllLeadInside(q: Query)
    requires q.depth >= 1 && |Within(q, q.depth)| <= q.nodeLimit
    ensures forall f :: LeadInside(q, f)
  {
    hide Within, Discovered, Admitted, Distance, CallsOf, NextOf;
    EverythingAdmitted(q);
    forall f, row | row in NearRows(q, f)
      ensures NextOf(row, q.direction) in Admitted(q)
    {
      DistanceFits(q, f, q.depth);
      CallsStayWithin(q, f, row, q.depth - 1);
      DiscoveredWithin(q, q.depth, NextOf(row, q.direction));
    }
  }

  function Queued(q: Query, fs: seq<Identity>): seq<Pending> {
    seq(|fs|, i requires 0 <= i < |fs| => Pending(fs[i], Distance(q, fs[i], q.depth), {}))
  }

  lemma {:induction false} WholeIsListing(q: Query, fs: seq<Identity>)
    ensures Whole(q, fs) == Listing(q, Queued(q, fs))
  {
    hide Distance, CallsOf;
    if fs != [] {
      var n := |fs| - 1;
      WholeIsListing(q, fs[..n]);
      assert Queued(q, fs)[..n] == Queued(q, fs[..n]);
      assert EntriesOf([], Distance(q, fs[n], q.depth) + 1) == [];
    }
  }

  /** The whole listing holds the rows in range. */
  lemma WholeIsRange(q: Query)
    requires q.depth >= 1
    ensures multiset(Rows(Whole(q, Discovered(q, q.depth)))) == multiset(InRange(q))
    ensures |Whole(q, Discovered(q, q.depth))| == |InRange(q)|
  {
    var fs := Discovered(q, q.depth);
    var queue := Queued(q, fs);
    hide Discovered, Within, Distance, Listing, Whole, Listed, RowsOf, Rows;
    DiscoveredOnce(q, q.depth);
    WholeIsListing(q, fs);
    ListedIsNear(q, fs);
    ListingRows(q, queue);
    ListingSize(q, queue);
  }

  lemma ListedIsNear(q: Query, fs: seq<Identity>)
    requires q.depth >= 1 && fs == Discovered(q, q.depth)
    ensures Listed(q, Queued(q, fs)) == Within(q, q.depth - 1)
  {
    hide Discovered, Within, Distance, Listed;
    var queue := Queued(q, fs);
    ListedOnes(q, queue);
    forall x ensures x in Listed(q, queue) <==> x in Within(q, q.depth - 1) {
      DistanceFits(q, x, q.depth);
      if x in Within(q, q.depth - 1) {
        WithinGrows(q, q.depth - 1, q.depth);
        DiscoveredWithin(q, q.depth, x);
        var i :| 0 <= i < |fs| && fs[i] == x;
        assert queue[i].identity == x;
      }
    }
  }

  /** Within the node limit the answer is the front of all rows in range, in breadth-first order, that the record limit
      allows, and the node limit is not reported. */
  lemma FrontWithinNodeLimit(q: Query)
    requires q.nodeLimit >= 1 && q.depth >= 1 && Recursive(q).Graph? && |Within(q, q.depth)| <= q.nodeLimit
    ensures var r, whole := Recursive(q), Whole(q, Discovered(q, q.depth));
            && !r.nodeLimitHit && r.records == FirstEntries(whole, q.limit)
            && multiset(Rows(whole)) == multiset(InRange(q)) && |whole| == |InRange(q)|
  {
    hide *;
    AnswerIsGathered(q);
    AllLeadInside(q);
    GatheredIsFront(q, Admitted(q), |Admitted(q)|);
    assert Admitted(q)[..|Admitted(q)|] == Admitted(q);
    EverythingAdmitted(q);
    WholeIsRange(q);
    FrontOfFront(Whole(q, Discovered(q, q.depth)), q.limit);
  }

  lemma FrontOfFront(entries: seq<Entry>, limit: nat)
    ensures FirstEntries(FirstEntries(entries, limit + 1), limit) == FirstEntries(entries, limit)
  {
  }

  /** A reported node limit is exceeded; and an exceeded one is reported when the records fit. */
  lemma NodeLimitHitMeans(q: Query)
    requires q.nodeLimit >= 1 && q.depth >= 1 && Recursive(q).Graph?
    ensures Recursive(q).nodeLimitHit ==> |Within(q, q.depth)| > q.nodeLimit
    ensures |Within(q, q.depth)| > q.nodeLimit && |InRange(q)| <= q.limit ==> Recursive(q).nodeLimitHit
  {
    var t, last, end := SearchEnds(q);
    assert RecordsInv(q, t, Deepest(last, end)) && CountInv(q, t);
    hide SearchInv, Within, InRange, RecordsInv, CountInv;
    if Recursive(q).nodeLimitHit && |Within(q, q.depth)| <= q.nodeLimit {
      hide Recursive;
      FrontWithinNodeLimit(q);
    }
    TruncatedIffTooMuch(q);
    HitOrMore(q, t);
  }

  lemma HitOrMore(q: Query, t: Search)
    requires q.nodeLimit >= 1 && q.depth >= 1 && CountInv(q, t) && Recursive(q) == GraphResult(q, t)
    ensures Recursive(q).truncated && |InRange(q)| <= q.limit ==> Recursive(q).nodeLimitHit
  {
  }

  // ---- a raised record limit ----

  lemma SameCalls(q: Query, p: Query, f: Identity)
    requires p == q.(limit := p.limit)
    ensures CallsOf(p, f) == CallsOf(q, f)
  {
  }

  lemma {:induction false} SameWithin(q: Query, p: Query, n: nat)
    requires p == q.(limit := p.limit)
    ensures Within(p, n) == Within(q, n)
  {
    hide Successors;
    if n > 0 {
      SameWithin(q, p, n - 1);
      SameSuccessors(q, p, Within(q, n - 1));
    }
  }

  lemma SameSuccessors(q: Query, p: Query, fs: set<Identity>)
    requires p == q.(limit := p.limit)
    ensures Successors(p, fs) == Successors(q, fs)
  {
    hide CallsOf, NextOf;
    forall f ensures CallsOf(p, f) == CallsOf(q, f) {
      SameCalls(q, p, f);
    }
  }

  lemma {:induction false} SameNexts(q: Query, p: Query, fs: seq<Identity>)
    requires p == q.(limit := p.limit)
    ensures NextsOf(p, fs) == NextsOf(q, fs)
  {
    if fs != [] {
      SameNexts(q, p, fs[..|fs| - 1]);
      var rows := CallsOf(q, fs[|fs| - 1]);
      assert Nexts(p, rows) == Nexts(q, rows);
    }
  }

  lemma {:induction false} SameDiscovered(q: Query, p: Query, n: nat)
    requires p == q.(limit := p.limit)
    ensures Discovered(p, n) == Discovered(q, n)
  {
    hide NextsOf;
    if n > 0 {
      SameDiscovered(q, p, n - 1);
      SameNexts(q, p, Discovered(q, n - 1));
    }
  }

  lemma {:induction false} SameDistances(q: Query, p: Query, f: Identity, n: nat)
    requires p == q.(limit := p.limit)
    ensures Distance(p, f, n) == Distance(q, f, n)
  {
    hide Within;
    if n > 0 {
      SameWithin(q, p, n - 1);
      SameDistances(q, p, f, n - 1);
    }
  }

  lemma {:induction false} SameWhole(q: Query, p: Query, fs: seq<Identity>)
    requires p == q.(limit := p.limit)
    ensures Whole(p, fs) == Whole(q, fs)
  {
    hide Distance, CallsOf;
    if fs != [] {
      var f := fs[|fs| - 1];
      SameWhole(q, p, fs[..|fs| - 1]);
      SameCalls(q, p, f);
      SameDistances(q, p, f, q.depth);
    }
  }

  /** A truncated answer within the node limit holds exactly as many records as its limit allows, and a higher limit
      continues it. */
  lemma HigherLimitContinues(q: Query, p: Query)
    requires q.nodeLimit >= 1 && q.depth >= 1 && |Within(q, q.depth)| <= q.nodeLimit
    requires p == q.(limit := p.limit) && q.limit <= p.limit && Recursive(q).Graph? && Recursive(p).Graph?
    ensures |Recursive(q).records| == if |InRange(q)| <= q.limit then |InRange(q)| else q.limit
    ensures Recursive(q).records <= Recursive(p).records
    ensures p.limit >= |InRange(q)| ==> |Recursive(p).records| == |InRange(q)| && !Recursive(p).truncated
  {
    hide *;
    SameWithin(q, p, q.depth);
    SameDiscovered(q, p, q.depth);
    SameWhole(q, p, Discovered(q, q.depth));
    FrontWithinNodeLimit(q);
    FrontWithinNodeLimit(p);
    FrontsNest(Whole(q, Discovered(q, q.depth)), q.limit, p.limit);
    TruncatedIffTooMuch(p);
  }

  lemma FrontsNest(entries: seq<Entry>, m: nat, n: nat)
    requires m <= n
    ensures FirstEntries(entries, m) <= FirstEntries(entries, n)
    ensures |FirstEntries(entries, m)| == if |entries| <= m then |entries| else m
    ensures |FirstEntries(entries, n)| == if |entries| <= n then |entries| else n
  {
  }
}
