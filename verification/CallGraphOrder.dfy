/** The order in which a graph is discovered, level by level, and the bounded search against it. */
module CallGraphOrder {
  import opened Wrappers
  import opened Index
  import opened CallGraph
  import opened CallGraphSearch

  // ---- the order, from the graph alone ----

  function Nexts(q: Query, rows: seq<CallRow>): seq<Identity> {
    seq(|rows|, i requires 0 <= i < |rows| => NextOf(rows[i], q.direction))
  }

  /** Everything that the functions call, in order. */
  function NextsOf(q: Query, fs: seq<Identity>): seq<Identity> {
    if fs == [] then [] else NextsOf(q, fs[..|fs| - 1]) + Nexts(q, CallsOf(q, fs[|fs| - 1]))
  }

  function FirstMentions(ids: seq<Identity>): seq<Identity> {
    if ids == [] then []
    else
      var front, last := ids[..|ids| - 1], ids[|ids| - 1];
      if last in front then FirstMentions(front) else FirstMentions(front) + [last]
  }

  function Mentioned(q: Query, fs: seq<Identity>): seq<Identity> {
    FirstMentions([q.root] + NextsOf(q, fs))
  }

  /** The functions at most n calls away from the root, in breadth-first order. */
  function Discovered(q: Query, n: nat): seq<Identity> {
    if n == 0 then [q.root] else Mentioned(q, Discovered(q, n - 1))
  }

  function FirstCaller(q: Query, fs: seq<Identity>, f: Identity): Option<Identity> {
    if fs == [] then None
    else
      var earlier := FirstCaller(q, fs[..|fs| - 1], f);
      if earlier.None? && f in Nexts(q, CallsOf(q, fs[|fs| - 1])) then Some(fs[|fs| - 1]) else earlier
  }

  /** From the root to f, which is n calls away: f, its first caller in breadth-first order, the first caller of that,
      and so on. */
  function DiscoveryPath(q: Query, f: Identity, n: nat): set<Identity>
    decreases n
  {
    if n == 0 then {f}
    else
      var caller := FirstCaller(q, Discovered(q, n - 1), f);
      (if caller.Some? then DiscoveryPath(q, caller.value, n - 1) else {}) + {f}
  }

  // ---- facts about the order ----

  lemma MentionsAppend(ids: seq<Identity>, x: Identity)
    ensures FirstMentions(ids + [x]) == if x in ids then FirstMentions(ids) else FirstMentions(ids) + [x]
  {
    assert (ids + [x])[..|ids|] == ids;
  }

  lemma {:induction false} MentionsMember(ids: seq<Identity>, x: Identity)
    ensures x in FirstMentions(ids) <==> x in ids
  {
    if ids != [] {
      MentionsMember(ids[..|ids| - 1], x);
      assert ids == ids[..|ids| - 1] + [ids[|ids| - 1]];
    }
  }

  lemma {:induction false} MentionsPrefix(a: seq<Identity>, b: seq<Identity>)
    ensures FirstMentions(a) <= FirstMentions(a + b)
    decreases |b|
  {
    if b == [] {
      assert a + b == a;
    } else {
      MentionsPrefix(a, b[..|b| - 1]);
      assert a + b == a + b[..|b| - 1] + [b[|b| - 1]];
      MentionsAppend(a + b[..|b| - 1], b[|b| - 1]);
    }
  }

  lemma NextsOfAppend(q: Query, fs: seq<Identity>, f: Identity)
    ensures NextsOf(q, fs + [f]) == NextsOf(q, fs) + Nexts(q, CallsOf(q, f))
  {
    assert (fs + [f])[..|fs|] == fs;
  }

  lemma {:induction false} MentionedPrefix(q: Query, a: seq<Identity>, b: seq<Identity>)
    requires a <= b
    ensures Mentioned(q, a) <= Mentioned(q, b)
    decreases |b|
  {
    hide CallsOf, Nexts;
    if a == b {
    } else {
      var front, f := b[..|b| - 1], b[|b| - 1];
      MentionedPrefix(q, a, front);
      assert b == front + [f];
      NextsOfAppend(q, front, f);
      var more := Nexts(q, CallsOf(q, f));
      assert [q.root] + NextsOf(q, b) == [q.root] + NextsOf(q, front) + more;
      MentionsPrefix([q.root] + NextsOf(q, front), more);
    }
  }

  lemma RootFirst(q: Query, fs: seq<Identity>)
    ensures [q.root] <= Mentioned(q, fs)
  {
    hide NextsOf;
    MentionsPrefix([q.root], NextsOf(q, fs));
    MentionsAppend([], q.root);
    assert [] + [q.root] == [q.root] && FirstMentions([]) == [];
  }

  lemma {:induction false} DiscoveredGrows(q: Query, n: nat)
    ensures Discovered(q, n) <= Discovered(q, n + 1)
  {
    hide Mentioned;
    if n == 0 {
      RootFirst(q, Discovered(q, 0));
    } else {
      DiscoveredGrows(q, n - 1);
      MentionedPrefix(q, Discovered(q, n - 1), Discovered(q, n));
    }
  }

  lemma {:induction false} DiscoveredPrefix(q: Query, m: nat, n: nat)
    requires m <= n
    ensures Discovered(q, m) <= Discovered(q, n)
    decreases n
  {
    hide Discovered;
    if m < n {
      DiscoveredPrefix(q, m, n - 1);
      DiscoveredGrows(q, n - 1);
    }
  }

  lemma {:induction false} NextsOfMember(q: Query, fs: seq<Identity>, x: Identity)
    ensures x in NextsOf(q, fs) <==> exists f :: f in fs && x in Nexts(q, CallsOf(q, f))
  {
    hide CallsOf, Nexts;
    if fs != [] {
      var front, last := fs[..|fs| - 1], fs[|fs| - 1];
      NextsOfMember(q, front, x);
      assert fs == front + [last];
    }
  }

  lemma NextsAreCalls(q: Query, f: Identity, x: Identity)
    ensures x in Nexts(q, CallsOf(q, f)) <==> IsCall(q, f, x)
  {
    hide CallsOf, NextOf;
    var rows := CallsOf(q, f);
    if x in Nexts(q, rows) {
      var i :| 0 <= i < |rows| && Nexts(q, rows)[i] == x;
      assert rows[i] in rows;
    }
    if IsCall(q, f, x) {
      var row :| row in rows && NextOf(row, q.direction) == x;
      var i :| 0 <= i < |rows| && rows[i] == row;
      assert Nexts(q, rows)[i] == x;
    }
  }

  /** The functions discovered within n calls are those within n calls. */
  lemma {:induction false} DiscoveredWithin(q: Query, n: nat, x: Identity)
    ensures x in Discovered(q, n) <==> x in Within(q, n)
  {
    hide Within, Mentioned;
    if n == 0 {
      AtRoot(q);
    } else {
      if x in Discovered(q, n) {
        var f := Mention(q, Discovered(q, n - 1), x);
        if x == q.root {
          AtRoot(q);
          WithinGrows(q, 0, n);
        } else {
          DiscoveredWithin(q, n - 1, f);
          CallIsWithin(q, f, x, n - 1);
        }
      }
      if x in Within(q, n) {
        DiscoveredGrows(q, n - 1);
        DiscoveredWithin(q, n - 1, x);
        if x !in Within(q, n - 1) {
          var f, i := WithinCases(q, x, n);
          DiscoveredWithin(q, n - 1, f);
          CallAt(q, f, i);
          CalleeMentioned(q, Discovered(q, n - 1), f, x);
        }
      }
    }
  }

  lemma AtRoot(q: Query)
    ensures Within(q, 0) == {q.root}
  {
  }

  lemma Mention(q: Query, fs: seq<Identity>, x: Identity) returns (f: Identity)
    requires x in Mentioned(q, fs)
    ensures x == q.root || (f in fs && IsCall(q, f, x))
  {
    hide NextsOf, Nexts, CallsOf, IsCall, FirstMentions;
    MentionsMember([q.root] + NextsOf(q, fs), x);
    NextsOfMember(q, fs, x);
    f := x;
    if x != q.root {
      f :| f in fs && x in Nexts(q, CallsOf(q, f));
      NextsAreCalls(q, f, x);
    }
  }

  lemma CalleeMentioned(q: Query, fs: seq<Identity>, f: Identity, x: Identity)
    requires f in fs && IsCall(q, f, x)
    ensures x in NextsOf(q, fs) && x in Mentioned(q, fs)
  {
    hide NextsOf, Nexts, CallsOf, IsCall, FirstMentions;
    NextsAreCalls(q, f, x);
    NextsOfMember(q, fs, x);
    MentionsMember([q.root] + NextsOf(q, fs), x);
  }

  lemma CallIsWithin(q: Query, f: Identity, x: Identity, n: nat)
    requires f in Within(q, n) && IsCall(q, f, x)
    ensures x in Within(q, n + 1)
  {
    hide CallsOf, Within;
    var row :| row in CallsOf(q, f) && NextOf(row, q.direction) == x;
    CallsStayWithin(q, f, row, n);
  }

  lemma CallAt(q: Query, f: Identity, i: nat)
    requires i < |CallsOf(q, f)|
    ensures IsCall(q, f, NextOf(CallsOf(q, f)[i], q.direction))
  {
    hide CallsOf;
    assert CallsOf(q, f)[i] in CallsOf(q, f);
  }

  lemma {:induction false} FirstCallerExists(q: Query, fs: seq<Identity>, f: Identity)
    ensures FirstCaller(q, fs, f).Some? <==> exists g :: g in fs && f in Nexts(q, CallsOf(q, g))
  {
    hide CallsOf, Nexts;
    if fs != [] {
      FirstCallerExists(q, fs[..|fs| - 1], f);
      assert fs == fs[..|fs| - 1] + [fs[|fs| - 1]];
    }
  }

  lemma {:induction false} FirstCallerPrefix(q: Query, fs: seq<Identity>, gs: seq<Identity>, f: Identity)
    requires fs <= gs && FirstCaller(q, fs, f).Some?
    ensures FirstCaller(q, gs, f) == FirstCaller(q, fs, f)
    decreases |gs|
  {
    hide CallsOf, Nexts;
    if fs != gs {
      FirstCallerPrefix(q, fs, gs[..|gs| - 1], f);
    }
  }

  /** g comes first when nothing before it calls f. */
  lemma FirstCallerIs(q: Query, before: seq<Identity>, g: Identity, all: seq<Identity>, f: Identity)
    requires before + [g] <= all && f !in NextsOf(q, before) && f in Nexts(q, CallsOf(q, g))
    ensures FirstCaller(q, all, f) == Some(g)
  {
    hide CallsOf, Nexts;
    NextsOfMember(q, before, f);
    FirstCallerExists(q, before, f);
    assert (before + [g])[..|before|] == before;
    FirstCallerPrefix(q, before + [g], all, f);
  }

  /** The path of a new function extends that of the function that discovers it. */
  lemma PathExtends(q: Query, before: seq<Identity>, g: Identity, n: nat, m: nat, f: Identity)
    requires before + [g] <= Discovered(q, m) && f !in NextsOf(q, before) && f in Nexts(q, CallsOf(q, g))
    requires g in Within(q, n)
    ensures DiscoveryPath(q, f, n + 1) == DiscoveryPath(q, g, n) + {f}
  {
    hide CallsOf, Nexts, NextsOf, Discovered, Within;
    var big := if m < n then n else m;
    DiscoveredPrefix(q, m, big);
    DiscoveredPrefix(q, n, big);
    FirstCallerIs(q, before, g, Discovered(q, big), f);
    DiscoveredWithin(q, n, g);
    FirstCallerExists(q, Discovered(q, n), f);
    FirstCallerPrefix(q, Discovered(q, n), Discovered(q, big), f);
  }

  lemma {:induction false} PathHasEnds(q: Query, f: Identity, n: nat)
    requires AtDistance(q, f, n)
    ensures f in DiscoveryPath(q, f, n) && q.root in DiscoveryPath(q, f, n)
    decreases n
  {
    hide AtDistance, Discovered, FirstCaller;
    if n == 0 {
      OnlyRootAtZero(q, f);
    } else {
      var caller := CallerAtDistance(q, f, n);
      PathHasEnds(q, caller, n - 1);
    }
  }

  lemma OnlyRootAtZero(q: Query, f: Identity)
    requires AtDistance(q, f, 0)
    ensures f == q.root
  {
  }

  lemma CallerAtDistance(q: Query, f: Identity, n: nat) returns (caller: Identity)
    requires n > 0 && AtDistance(q, f, n)
    ensures FirstCaller(q, Discovered(q, n - 1), f) == Some(caller) && AtDistance(q, caller, n - 1)
  {
    hide CallsOf, Nexts, Discovered, NextOf, Within, FirstCaller, IsCall;
    var g, i := WithinCases(q, f, n);
    CallAt(q, g, i);
    NextsAreCalls(q, g, f);
    DiscoveredWithin(q, n - 1, g);
    FirstCallerExists(q, Discovered(q, n - 1), f);
    caller := FirstCaller(q, Discovered(q, n - 1), f).value;
    FirstCallerIsOne(q, Discovered(q, n - 1), f);
    DiscoveredWithin(q, n - 1, caller);
    NextsAreCalls(q, caller, f);
    if n > 1 {
      NoShortcut(q, caller, f, n - 2);
    }
  }

  lemma {:induction false} FirstCallerIsOne(q: Query, fs: seq<Identity>, f: Identity)
    requires FirstCaller(q, fs, f).Some?
    ensures FirstCaller(q, fs, f).value in fs && f in Nexts(q, CallsOf(q, FirstCaller(q, fs, f).value))
  {
    hide CallsOf, Nexts;
    if FirstCaller(q, fs[..|fs| - 1], f).Some? {
      FirstCallerIsOne(q, fs[..|fs| - 1], f);
    }
  }

  lemma NoShortcut(q: Query, g: Identity, f: Identity, n: nat)
    requires IsCall(q, g, f) && f !in Within(q, n + 1)
    ensures g !in Within(q, n)
  {
    hide Within, IsCall;
    if g in Within(q, n) {
      CallIsWithin(q, g, f, n);
    }
  }

  // ---- the search discovers in that order ----

  function Ids(fs: seq<Pending>): seq<Identity> {
    seq(|fs|, i requires 0 <= i < |fs| => fs[i].identity)
  }

  /** The functions whose calls were looked up. */
  function Searched(q: Query, fs: seq<Pending>): seq<Identity> {
    if fs == [] then []
    else
      var f := fs[|fs| - 1];
      Searched(q, fs[..|fs| - 1]) + if f.depth < q.depth then [f.identity] else []
  }

  ghost predicate OnPaths(q: Query, all: seq<Pending>) {
    forall i | 0 <= i < |all| :: all[i].ancestors == DiscoveryPath(q, all[i].identity, all[i].depth)
  }

  /** One of the rows leads back to an ancestor of f. */
  ghost predicate LeadsBack(q: Query, f: Pending, rows: seq<CallRow>) {
    exists i :: 0 <= i < |rows| && NextOf(rows[i], q.direction) in f.ancestors
  }

  ghost predicate CycleAmong(q: Query, fs: seq<Pending>) {
    exists i :: 0 <= i < |fs| && fs[i].depth < q.depth && LeadsBack(q, fs[i], CallsOf(q, fs[i].identity))
  }

  ghost predicate AllNamed(q: Query, fs: seq<Pending>) {
    forall i | 0 <= i < |fs| && fs[i].depth < q.depth :: fs[i].identity.symbol != []
  }

  /** As long as no limit was hit, functions were queued in breadth-first order with their paths as ancestors, and the
      cycle flag tells whether a call led back. */
  ghost predicate Traced(q: Query, s: Search, all: seq<Pending>, taken: nat) {
    && taken <= |all| && AllNamed(q, all[..taken])
    && (!s.nodeLimitHit && |s.records| <= q.limit ==>
          && Ids(all) == Mentioned(q, Searched(q, all[..taken]))
          && Searched(q, all[..taken]) <= Discovered(q, taken)
          && OnPaths(q, all) && (s.cyclesDetected <==> CycleAmong(q, all[..taken])))
  }

  /** The same while the rows of the last function taken are looked at. */
  ghost predicate MidTraced(q: Query, s: Search, all: seq<Pending>, taken: nat, past: seq<CallRow>) {
    && 0 < taken <= |all|
    && var f, done := all[taken - 1], Searched(q, all[..taken - 1]);
    !s.nodeLimitHit ==>
      && Ids(all) == FirstMentions([q.root] + NextsOf(q, done) + Nexts(q, past))
      && done + [f.identity] <= Discovered(q, taken)
      && OnPaths(q, all)
      && (s.cyclesDetected <==> CycleAmong(q, all[..taken - 1]) || LeadsBack(q, f, past))
  }

  lemma SearchedAppend(q: Query, fs: seq<Pending>, f: Pending)
    ensures Searched(q, fs + [f]) == Searched(q, fs) + if f.depth < q.depth then [f.identity] else []
  {
    assert (fs + [f])[..|fs|] == fs;
  }

  lemma LeadsBackAppend(q: Query, f: Pending, past: seq<CallRow>, row: CallRow)
    ensures LeadsBack(q, f, past + [row]) <==> LeadsBack(q, f, past) || NextOf(row, q.direction) in f.ancestors
  {
    hide NextOf;
    var more := past + [row];
    if i :| 0 <= i < |past| && NextOf(past[i], q.direction) in f.ancestors {
      assert more[i] == past[i];
    }
    assert more[|past|] == row;
  }

  lemma CycleAmongAppend(q: Query, fs: seq<Pending>, f: Pending)
    ensures CycleAmong(q, fs + [f])
            <==> CycleAmong(q, fs) || (f.depth < q.depth && LeadsBack(q, f, CallsOf(q, f.identity)))
  {
    hide LeadsBack, CallsOf;
    var more := fs + [f];
    if i :| 0 <= i < |fs| && fs[i].depth < q.depth && LeadsBack(q, fs[i], CallsOf(q, fs[i].identity)) {
      assert more[i] == fs[i];
    }
    assert more[|fs|] == f;
  }

  lemma NextsAppend(q: Query, past: seq<CallRow>, row: CallRow)
    ensures Nexts(q, past + [row]) == Nexts(q, past) + [NextOf(row, q.direction)]
  {
  }

  lemma VisitedAreQueued(visited: set<Identity>, all: seq<Pending>, x: Identity)
    requires Holds(visited, all)
    ensures x in Ids(all) <==> x in visited
  {
    if x in visited {
      var i :| 0 <= i < |all| && all[i].identity == x;
      assert Ids(all)[i] == x;
    }
  }

  /** A row mentions one more function, which is queued exactly when it is new. */
  lemma MentionsAfter(q: Query, s: Search, all: seq<Pending>, taken: nat, past: seq<CallRow>, row: CallRow)
    requires MidTraced(q, s, all, taken, past) && Holds(s.visited, all) && all[taken - 1].ancestors <= s.visited
    requires !Visit(q, s, all[taken - 1], row).nodeLimitHit
    ensures var added := AllAfter(q, s, all, all[taken - 1], row);
            Ids(added)
            == FirstMentions([q.root] + NextsOf(q, Searched(q, all[..taken - 1])) + Nexts(q, past + [row]))
  {
    hide NextsOf, Nexts, Searched, CycleAmong, OnPaths, LeadsBack, Discovered, FirstMentions, NextOf;
    var next := NextOf(row, q.direction);
    var before := [q.root] + NextsOf(q, Searched(q, all[..taken - 1])) + Nexts(q, past);
    NextsAppend(q, past, row);
    MentionsAppend(before, next);
    MentionsMember(before, next);
    VisitedAreQueued(s.visited, all, next);
    assert before + [next]
        == [q.root] + NextsOf(q, Searched(q, all[..taken - 1])) + Nexts(q, past + [row]);
  }

  lemma NewIsOnPath(q: Query, s: Search, all: seq<Pending>, taken: nat, past: seq<CallRow>, row: CallRow)
    requires MidTraced(q, s, all, taken, past) && Holds(s.visited, all) && !s.nodeLimitHit
    requires row in CallsOf(q, all[taken - 1].identity) && NextOf(row, q.direction) !in s.visited
    requires AtDistance(q, all[taken - 1].identity, all[taken - 1].depth)
    ensures var f, next := all[taken - 1], NextOf(row, q.direction);
            f.ancestors + {next} == DiscoveryPath(q, next, f.depth + 1)
  {
    hide NextsOf, Nexts, Searched, CycleAmong, LeadsBack, Discovered, FirstMentions, NextOf, CallsOf, Within;
    var f, next, done := all[taken - 1], NextOf(row, q.direction), Searched(q, all[..taken - 1]);
    VisitedAreQueued(s.visited, all, next);
    MentionsMember([q.root] + NextsOf(q, done) + Nexts(q, past), next);
    RowIsNext(q, f.identity, row);
    PathExtends(q, done, f.identity, f.depth, taken, next);
  }

  lemma RowIsNext(q: Query, f: Identity, row: CallRow)
    requires row in CallsOf(q, f)
    ensures NextOf(row, q.direction) in Nexts(q, CallsOf(q, f))
  {
    hide CallsOf, Nexts;
    assert IsCall(q, f, NextOf(row, q.direction));
    NextsAreCalls(q, f, NextOf(row, q.direction));
  }

  lemma VisitTraced(q: Query, s: Search, all: seq<Pending>, taken: nat, past: seq<CallRow>, row: CallRow)
    requires MidTraced(q, s, all, taken, past) && Holds(s.visited, all) && NodeInv(q, s.visited, all[taken - 1])
    requires row in CallsOf(q, all[taken - 1].identity)
    ensures MidTraced(q, Visit(q, s, all[taken - 1], row), AllAfter(q, s, all, all[taken - 1], row), taken,
                      past + [row])
  {
    hide NextsOf, Nexts, Searched, CycleAmong, LeadsBack, Discovered, FirstMentions, NextOf, CallsOf, Within, Holds,
      ReachesFrom, DiscoveryPath;
    var f := all[taken - 1];
    var t, added := Visit(q, s, f, row), AllAfter(q, s, all, f, row);
    AllAfterExtends(q, s, all, f, row);
    assert added[..taken - 1] == all[..taken - 1] && added[taken - 1] == f;
    if !t.nodeLimitHit {
      MentionsAfter(q, s, all, taken, past, row);
      LeadsBackAppend(q, f, past, row);
      if NextOf(row, q.direction) !in s.visited {
        NewIsOnPath(q, s, all, taken, past, row);
      }
    }
  }

  lemma {:induction false} AllRecorded(q: Query, s: Search, f: Pending, rows: seq<CallRow>)
    requires |s.visited| <= q.nodeLimit
    ensures var t := VisitRows(q, s, f, rows);
            && |s.records| <= |t.records|
            && (!t.nodeLimitHit && |t.records| <= q.limit ==> |t.records| == |s.records| + |rows|)
            && (!t.nodeLimitHit ==> !s.nodeLimitHit)
    decreases |rows|
  {
    hide NextOf;
    if rows != [] && |s.records| <= q.limit {
      AllRecorded(q, Visit(q, s, f, rows[0]), f, rows[1..]);
    }
  }

  lemma {:induction false} VisitRowsTraced(q: Query, s: Search, all: seq<Pending>, taken: nat, past: seq<CallRow>,
                                           rows: seq<CallRow>)
    requires |s.visited| <= q.nodeLimit && 0 < taken <= |all|
    requires QueueInv(q, s, all, taken) && Midway(q, s, all, taken, past) && MidTraced(q, s, all, taken, past)
    requires RecordsInv(q, s, all[taken - 1].depth + 1)
    requires past + rows <= CallsOf(q, all[taken - 1].identity)
    ensures var t := VisitRows(q, s, all[taken - 1], rows);
            |t.records| <= q.limit ==>
              MidTraced(q, t, AllAfterRows(q, s, all, all[taken - 1], rows), taken, past + rows)
    decreases |rows|
  {
    hide Within, CallsOf, NodeInv, RecordsInv, Visit, AllAfter, Midway, MidTraced, QueueInv;
    if rows == [] || |s.records| > q.limit {
      assert past + [] == past;
    } else {
      var f, row := all[taken - 1], rows[0];
      assert (past + rows)[|past|] == row && past + rows == past + [row] + rows[1..];
      assert past + [row] <= CallsOf(q, f.identity);
      assert CallsOf(q, f.identity)[|past|] == row;
      OneVisit(q, s, all, taken, past, row);
      VisitRowsTraced(q, Visit(q, s, f, row), AllAfter(q, s, all, f, row), taken, past + [row], rows[1..]);
    }
  }

  /** One row keeps everything. */
  lemma OneVisit(q: Query, s: Search, all: seq<Pending>, taken: nat, past: seq<CallRow>, row: CallRow)
    requires 0 < taken <= |all|
    requires QueueInv(q, s, all, taken) && Midway(q, s, all, taken, past) && MidTraced(q, s, all, taken, past)
    requires RecordsInv(q, s, all[taken - 1].depth + 1)
    requires past + [row] <= CallsOf(q, all[taken - 1].identity) && row in CallsOf(q, all[taken - 1].identity)
    ensures var f := all[taken - 1];
            var t, added := Visit(q, s, f, row), AllAfter(q, s, all, f, row);
            && |t.visited| <= q.nodeLimit && taken <= |added| && added[taken - 1] == f
            && QueueInv(q, t, added, taken) && Midway(q, t, added, taken, past + [row])
            && MidTraced(q, t, added, taken, past + [row]) && RecordsInv(q, t, f.depth + 1)
  {
    hide Within, CallsOf, NodeInv, RecordsInv, Visit, AllAfter, Midway, MidTraced, QueueInv, NextOf;
    var f := all[taken - 1];
    QueueParts(q, s, all, taken);
    MidwayDepth(q, s, all, taken, past);
    AncestorsVisited(q, s.visited, f);
    LimitMeansFull(q, s, f.depth + 1);
    VisitKeepsQueue(q, s, all, taken, past, row);
    VisitKeepsRecords(q, s, all, taken, f, row);
    VisitKeepsMidway(q, s, all, taken, past, row);
    VisitTraced(q, s, all, taken, past, row);
    AllAfterExtends(q, s, all, f, row);
    VisitedFits(q, Visit(q, s, f, row), AllAfter(q, s, all, f, row), taken);
  }

  lemma QueueParts(q: Query, s: Search, all: seq<Pending>, taken: nat)
    requires QueueInv(q, s, all, taken) && 0 < taken <= |all|
    ensures NodeInv(q, s.visited, all[taken - 1]) && Holds(s.visited, all)
  {
    hide NodeInv, Holds, OnceEach, BreadthFirst;
  }

  lemma MidwayDepth(q: Query, s: Search, all: seq<Pending>, taken: nat, past: seq<CallRow>)
    requires Midway(q, s, all, taken, past)
    ensures all[taken - 1].depth < q.depth
  {
  }

  lemma VisitedFits(q: Query, s: Search, all: seq<Pending>, taken: nat)
    requires QueueInv(q, s, all, taken)
    ensures |s.visited| <= q.nodeLimit
  {
  }

  /** Functions that are not as deep as the bound were all searched once they left the queue. */
  lemma {:induction false} SearchedAll(q: Query, all: seq<Pending>, n: nat)
    requires n <= |all| && forall i | 0 <= i < n :: all[i].depth < q.depth
    ensures Searched(q, all[..n]) == Ids(all)[..n]
  {
    if n > 0 {
      SearchedAll(q, all, n - 1);
      assert all[..n] == all[..n - 1] + [all[n - 1]];
      SearchedAppend(q, all[..n - 1], all[n - 1]);
      assert Ids(all)[..n] == Ids(all)[..n - 1] + [all[n - 1].identity];
    } else {
      assert all[..0] == [];
    }
  }

  lemma NothingLeadsBack(q: Query, f: Pending)
    ensures Nexts(q, []) == [] && !LeadsBack(q, f, [])
  {
  }

  /** The next function to be searched is the next one in breadth-first order. */
  lemma NextInOrder(q: Query, all: seq<Pending>, taken: nat)
    requires taken < |all| && BreadthFirst(all, taken) && all[taken].depth < q.depth
    requires Ids(all) == Mentioned(q, Searched(q, all[..taken]))
    requires Searched(q, all[..taken]) <= Discovered(q, taken)
    ensures Searched(q, all[..taken]) + [all[taken].identity] <= Discovered(q, taken + 1)
  {
    hide Mentioned, Discovered;
    SearchedAll(q, all, taken);
    assert Ids(all)[..taken] + [all[taken].identity] == Ids(all)[..taken + 1];
    MentionedPrefix(q, Searched(q, all[..taken]), Discovered(q, taken));
    NextDiscovered(q, taken);
  }

  lemma StartTraced(q: Query, s: Search, all: seq<Pending>, taken: nat)
    requires Traced(q, s, all, taken) && taken < |all| && BreadthFirst(all, taken) && all[taken].depth < q.depth
    requires |s.records| <= q.limit && s.pending != []
    ensures MidTraced(q, s.(pending := s.pending[1..]), all, taken + 1, [])
  {
    hide NextsOf, Nexts, LeadsBack, Discovered, FirstMentions, CycleAmong, OnPaths, AllNamed, BreadthFirst, Searched;
    if !s.nodeLimitHit {
      NothingLeadsBack(q, all[taken]);
      var mentions := [q.root] + NextsOf(q, Searched(q, all[..taken]));
      assert mentions + [] == mentions;
      NextInOrder(q, all, taken);
    }
  }

  lemma NextDiscovered(q: Query, n: nat)
    ensures Discovered(q, n + 1) == Mentioned(q, Discovered(q, n))
  {
  }

  lemma RowsTraced(q: Query, s: Search, all: seq<Pending>, taken: nat, rows: seq<CallRow>)
    requires |s.visited| <= q.nodeLimit && s.pending != [] && taken < |all|
    requires QueueInv(q, s, all, taken) && RecordsInv(q, s, Deepest(all, taken)) && Complete(q, s, all[..taken])
    requires Traced(q, s, all, taken) && |s.records| <= q.limit && all[taken].depth < q.depth
    requires rows <= CallsOf(q, all[taken].identity)
    ensures var f, rest := all[taken], s.(pending := s.pending[1..]);
            var t := VisitRows(q, rest, f, rows);
            |t.records| <= q.limit ==> MidTraced(q, t, AllAfterRows(q, rest, all, f, rows), taken + 1, rows)
  {
    hide QueueInv, RecordsInv, Complete, Midway, CallsOf, VisitRows, AllAfterRows, MidTraced, Traced, BreadthFirst;
    hide NodeInv, Deepest, Listing, Expanded;
    QueueIsBreadthFirst(q, s, all, taken);
    DeepestTaken(all, taken);
    assert [] + rows == rows;
    PopKeeps(q, s, all, taken);
    StartMidway(q, s, all, taken);
    StartTraced(q, s, all, taken);
    VisitRowsTraced(q, s.(pending := s.pending[1..]), all, taken + 1, [], rows);
  }

  lemma QueueIsBreadthFirst(q: Query, s: Search, all: seq<Pending>, taken: nat)
    requires QueueInv(q, s, all, taken)
    ensures BreadthFirst(all, taken)
  {
    hide NodeInv, Holds, OnceEach, BreadthFirst;
  }

  lemma DeepestTaken(all: seq<Pending>, taken: nat)
    requires taken < |all|
    ensures Deepest(all, taken + 1) == all[taken].depth + 1
  {
  }

  lemma ExpandTraced(q: Query, s: Search, all: seq<Pending>, taken: nat)
    requires |s.visited| <= q.nodeLimit && s.pending != []
    requires SearchInv(q, s, all, taken) && Traced(q, s, all, taken) && taken < |all| && |s.records| <= q.limit
    requires all[taken].depth < q.depth && all[taken].identity.symbol != []
    ensures var f, rest := all[taken], s.(pending := s.pending[1..]);
            var rows := Collect(q, f.identity, q.limit + 1 - |s.records|);
            Traced(q, VisitRows(q, rest, f, rows), AllAfterRows(q, rest, all, f, rows), taken + 1)
  {
    var f, rest := all[taken], s.(pending := s.pending[1..]);
    var rows := Collect(q, f.identity, q.limit + 1 - |s.records|);
    WholeOrMore(q, f.identity, q.limit + 1 - |s.records|);
    assert AllNamed(q, all[..taken]);
    hide CallsOf, Collect, QueueInv, RecordsInv, VisitRows, Complete, CountInv, AllAfterRows, MidTraced, SearchInv;
    hide Traced, AllNamed;
    SearchParts(q, s, all, taken);
    RowsTraced(q, s, all, taken, rows);
    AllRecorded(q, rest, f, rows);
    AllAfterRowsExtends(q, rest, all, f, rows);
    EndTraced(q, s, all, taken, VisitRows(q, rest, f, rows), AllAfterRows(q, rest, all, f, rows), rows);
  }

  lemma WholeOrMore(q: Query, f: Identity, limit: nat)
    ensures Collect(q, f, limit) <= CallsOf(q, f)
    ensures |Collect(q, f, limit)| < limit ==> Collect(q, f, limit) == CallsOf(q, f)
  {
  }

  lemma {:induction false} AllAfterRowsExtends(q: Query, s: Search, all: seq<Pending>, f: Pending, rows: seq<CallRow>)
    ensures all <= AllAfterRows(q, s, all, f, rows)
    decreases |rows|
  {
    hide Visit, AllAfter;
    if rows != [] && |s.records| <= q.limit {
      AllAfterExtends(q, s, all, f, rows[0]);
      AllAfterRowsExtends(q, Visit(q, s, f, rows[0]), AllAfter(q, s, all, f, rows[0]), f, rows[1..]);
    }
  }

  lemma EndTraced(q: Query, s: Search, all: seq<Pending>, taken: nat, t: Search, last: seq<Pending>,
                  rows: seq<CallRow>)
    requires taken < |all| && all <= last && AllNamed(q, all[..taken]) && all[taken].identity.symbol != []
    requires all[taken].depth < q.depth
    requires |t.records| <= q.limit ==> MidTraced(q, t, last, taken + 1, rows)
    requires !t.nodeLimitHit && |t.records| <= q.limit ==> rows == CallsOf(q, all[taken].identity)
    ensures Traced(q, t, last, taken + 1)
  {
    hide NextsOf, Nexts, Discovered, FirstMentions, CycleAmong, OnPaths, CallsOf, LeadsBack, Searched;
    var f := all[taken];
    assert last[..taken + 1] == all[..taken] + [f] && last[..taken] == all[..taken] && last[taken] == f;
    if !t.nodeLimitHit && |t.records| <= q.limit {
      SearchedAppend(q, all[..taken], f);
      CycleAmongAppend(q, all[..taken], f);
      NextsOfAppend(q, Searched(q, all[..taken]), f.identity);
      assert [q.root] + NextsOf(q, Searched(q, all[..taken])) + Nexts(q, rows)
          == [q.root] + (NextsOf(q, Searched(q, all[..taken])) + Nexts(q, rows));
    }
  }

  lemma DropTraced(q: Query, s: Search, all: seq<Pending>, taken: nat)
    requires Traced(q, s, all, taken) && taken < |all| && all[taken].depth >= q.depth && s.pending != []
    ensures Traced(q, s.(pending := s.pending[1..]), all, taken + 1)
  {
    hide NextsOf, Nexts, Discovered, FirstMentions, CycleAmong, OnPaths, CallsOf, LeadsBack, Searched, Mentioned;
    var f := all[taken];
    assert all[..taken + 1] == all[..taken] + [f];
    SearchedAppend(q, all[..taken], f);
    CycleAmongAppend(q, all[..taken], f);
    DiscoveredPrefix(q, taken, taken + 1);
    assert Searched(q, all[..taken]) + [] == Searched(q, all[..taken]);
  }

  lemma InitialTraced(q: Query)
    ensures Traced(q, Initial(q), [Pending(q.root, 0, {q.root})], 0)
  {
    hide NextsOf, Nexts, CallsOf, LeadsBack, Mentioned, Searched;
    var all := [Pending(q.root, 0, {q.root})];
    assert all[..0] == [] && Ids(all) == [q.root];
    NothingSearched(q);
    assert !CycleAmong(q, []);
  }

  lemma NothingSearched(q: Query)
    ensures Searched(q, []) == [] && Mentioned(q, []) == [q.root]
  {
    MentionsAppend([], q.root);
    assert NextsOf(q, []) == [] && FirstMentions([]) == [];
    assert [q.root] + [] == [q.root] && [] + [q.root] == [q.root];
  }
}
