/** Following nextCursor until it is absent, for any tool that answers page by page. */
module PageWalk {
  import opened Wrappers
  import opened Index
  import opened Ordering

  datatype Reply<R> =
    | Success(items: seq<R>, truncated: bool, next: Option<Text>)
    | InvalidParams
    | DatabaseError

  /** recordsResult, symbolTypesResult and functionTypesResult: one row more than the limit was asked for. */
  function Result<R>(fetched: seq<R>, limit: nat, token: R -> Text): Reply<R> {
    var more := |fetched| > limit;
    var kept := if more then fetched[..limit] else fetched;
    Success(kept, more, if more && kept != [] then Some(token(kept[|kept| - 1])) else None)
  }

  /** The answer that starts at the k-th row. */
  function PageAt<R>(all: seq<R>, limit: nat, token: R -> Text, k: nat): Reply<R>
    requires k <= |all|
  {
    Result(Limited(all[k..], limit + 1), limit, token)
  }

  /** reply answers from the start without a token, and after the token's row when that row is acceptable. */
  ghost predicate Pager<R(!new)>(reply: Option<Text> -> Reply<R>, all: seq<R>, limit: nat, token: R -> Text,
                                 accepts: R -> bool) {
    && reply(None) == PageAt(all, limit, token, 0)
    && forall k | 0 < k < |all| :: Answers(reply, all, limit, token, accepts, k)
  }

  ghost predicate Answers<R(!new)>(reply: Option<Text> -> Reply<R>, all: seq<R>, limit: nat, token: R -> Text,
                                   accepts: R -> bool, k: nat)
    requires 0 < k < |all|
  {
    var answer := reply(Some(token(all[k - 1])));
    if accepts(all[k - 1]) then answer == PageAt(all, limit, token, k) else !answer.Success?
  }

  /** reply answers after the token of an acceptable row; what it answers after any other is left open. */
  ghost predicate AcceptedPager<R(!new)>(reply: Option<Text> -> Reply<R>, all: seq<R>, limit: nat, token: R -> Text,
                                         accepts: R -> bool) {
    && reply(None) == PageAt(all, limit, token, 0)
    && forall k | 0 < k < |all| && accepts(all[k - 1]) ::
         reply(Some(token(all[k - 1]))) == PageAt(all, limit, token, k)
  }

  /** Each page was asked for with the token of the one before. */
  ghost predicate Follows<R>(reply: Option<Text> -> Reply<R>, pages: seq<Reply<R>>) {
    |pages| > 1 ==>
      pages[0].Success? && pages[0].next.Some? && pages[1] == reply(pages[0].next) && Follows(reply, pages[1..])
  }

  ghost predicate Walk<R>(reply: Option<Text> -> Reply<R>, pages: seq<Reply<R>>) {
    pages != [] && pages[0] == reply(None) && Follows(reply, pages)
  }

  predicate Ends<R>(pages: seq<Reply<R>>)
    requires pages != []
  {
    var last := pages[|pages| - 1];
    last.Success? && last.next.None?
  }

  function Items<R>(pages: seq<Reply<R>>): seq<R> {
    if pages == [] then []
    else (if pages[0].Success? then pages[0].items else []) + Items(pages[1..])
  }

  /** The last row of every page but the last one is acceptable. */
  predicate BoundariesAccepted<R>(all: seq<R>, limit: nat, accepts: R -> bool, k: nat)
    requires limit >= 1
    decreases |all| - k
  {
    k + limit < |all| ==> accepts(all[k + limit - 1]) && BoundariesAccepted(all, limit, accepts, k + limit)
  }

  lemma PageFacts<R>(all: seq<R>, limit: nat, token: R -> Text, k: nat)
    requires k <= |all| && limit >= 1
    ensures var page := PageAt(all, limit, token, k);
            && page.Success?
            && page.truncated == page.next.Some? == (k + limit < |all|)
            && page.items == (if k + limit < |all| then all[k..k + limit] else all[k..])
            && (page.next.Some? ==> page.next.value == token(all[k + limit - 1]))
  {
    var tail := all[k..];
    if k + limit < |all| {
      assert Limited(tail, limit + 1)[..limit] == all[k..k + limit];
    }
  }

  /** What a walk that starts at the k-th row has shown. */
  ghost predicate Covers<R>(all: seq<R>, limit: nat, accepts: R -> bool, pages: seq<Reply<R>>, k: nat)
    requires limit >= 1 && k <= |all| && pages != []
  {
    && Items(pages) <= all[k..]
    && |pages| <= 1 + |all| - k
    && (Ends(pages) ==> Items(pages) == all[k..] && BoundariesAccepted(all, limit, accepts, k))
    && (BoundariesAccepted(all, limit, accepts, k) ==> pages[|pages| - 1].Success?)
  }

  lemma CoversMore<R>(all: seq<R>, limit: nat, accepts: R -> bool, pages: seq<Reply<R>>, k: nat)
    requires limit >= 1 && k + limit < |all| && |pages| > 1
    requires pages[0].Success? && pages[0].items == all[k..k + limit]
    requires if accepts(all[k + limit - 1]) then Covers(all, limit, accepts, pages[1..], k + limit)
             else |pages| == 2 && !pages[1].Success?
    ensures Covers(all, limit, accepts, pages, k)
  {
    assert all[k..] == all[k..k + limit] + all[k + limit..];
    if !accepts(all[k + limit - 1]) {
      assert pages[1..] == [pages[1]] && pages[1..][1..] == [];
      assert Items(pages[1..]) == [];
      assert Items(pages) == all[k..k + limit];
    }
  }

  lemma CoversLast<R>(all: seq<R>, limit: nat, accepts: R -> bool, pages: seq<Reply<R>>, k: nat)
    requires limit >= 1 && k <= |all| && |pages| == 1 && pages[0].Success?
    requires pages[0].next.Some? == (k + limit < |all|)
    requires pages[0].items == if k + limit < |all| then all[k..k + limit] else all[k..]
    ensures Covers(all, limit, accepts, pages, k)
  {
    assert pages == [pages[0]] && pages[1..] == [];
    assert Items(pages) == pages[0].items;
  }

  lemma FirstPage<R>(all: seq<R>, limit: nat, token: R -> Text, pages: seq<Reply<R>>, k: nat)
    requires k <= |all| && limit >= 1 && pages != [] && pages[0] == PageAt(all, limit, token, k)
    ensures pages[0].Success? && pages[0].next.Some? == (k + limit < |all|)
    ensures pages[0].items == if k + limit < |all| then all[k..k + limit] else all[k..]
  {
    PageFacts(all, limit, token, k);
  }

  lemma {:induction false} WalkFrom<R(!new)>(
    reply: Option<Text> -> Reply<R>, all: seq<R>, limit: nat, token: R -> Text, accepts: R -> bool,
    pages: seq<Reply<R>>, k: nat)
    requires Pager(reply, all, limit, token, accepts) && limit >= 1 && k <= |all|
    requires pages != [] && Follows(reply, pages) && pages[0] == PageAt(all, limit, token, k)
    ensures Covers(all, limit, accepts, pages, k)
    decreases |pages|
  {
    hide *;
    FirstPage(all, limit, token, pages, k);
    if |pages| == 1 {
      CoversLast(all, limit, accepts, pages, k);
    } else {
      NextPage(reply, all, limit, token, accepts, pages, k);
      if accepts(all[k + limit - 1]) {
        WalkFrom(reply, all, limit, token, accepts, pages[1..], k + limit);
      }
      CoversMore(all, limit, accepts, pages, k);
    }
  }

  lemma NextPage<R(!new)>(
    reply: Option<Text> -> Reply<R>, all: seq<R>, limit: nat, token: R -> Text, accepts: R -> bool,
    pages: seq<Reply<R>>, k: nat)
    requires Pager(reply, all, limit, token, accepts) && limit >= 1 && k <= |all|
    requires |pages| > 1 && Follows(reply, pages) && pages[0] == PageAt(all, limit, token, k)
    ensures k + limit < |all| && Follows(reply, pages[1..])
    ensures if accepts(all[k + limit - 1]) then pages[1] == PageAt(all, limit, token, k + limit)
            else !pages[1].Success? && |pages| == 2
  {
    assert |pages| > 2 ==> Follows(reply, pages[1..]) && pages[1..][0].Success?;
    PageFacts(all, limit, token, k);
    hide PageAt;
    assert pages[1] == reply(pages[0].next);
    assert Answers(reply, all, limit, token, accepts, k + limit);
  }

  lemma {:induction false} WalkExists<R(!new)>(
    reply: Option<Text> -> Reply<R>, all: seq<R>, limit: nat, token: R -> Text, accepts: R -> bool, k: nat)
    returns (pages: seq<Reply<R>>)
    requires AcceptedPager(reply, all, limit, token, accepts) && limit >= 1 && k <= |all|
    requires BoundariesAccepted(all, limit, accepts, k)
    ensures pages != [] && Follows(reply, pages) && pages[0] == PageAt(all, limit, token, k) && Ends(pages)
    decreases |all| - k
  {
    PageFacts(all, limit, token, k);
    hide PageAt;
    var first, next := PageAt(all, limit, token, k), k + limit;
    pages := [first];
    if next < |all| {
      var rest := WalkExists(reply, all, limit, token, accepts, next);
      assert accepts(all[next - 1]);
      pages := [first] + rest;
      assert pages[1..] == rest;
    }
  }

  /** No duplicate, no gap and no endless walk; and an end is reached exactly when every row that ends a page is
      acceptable. */
  lemma PagesPartition<R(!new)>(
    reply: Option<Text> -> Reply<R>, all: seq<R>, limit: nat, token: R -> Text, accepts: R -> bool)
    requires Pager(reply, all, limit, token, accepts) && limit >= 1
    ensures forall pages | Walk(reply, pages) :: Items(pages) <= all && |pages| <= 1 + |all|
    ensures forall pages | Walk(reply, pages) && Ends(pages) :: Items(pages) == all
    ensures (exists pages :: Walk(reply, pages) && Ends(pages)) <==> BoundariesAccepted(all, limit, accepts, 0)
  {
    assert all[0..] == all;
    forall pages | Walk(reply, pages)
      ensures Items(pages) <= all && |pages| <= 1 + |all|
      ensures Ends(pages) ==> Items(pages) == all && BoundariesAccepted(all, limit, accepts, 0)
    {
      WalkFrom(reply, all, limit, token, accepts, pages, 0);
    }
    if BoundariesAccepted(all, limit, accepts, 0) {
      PagerIsAccepted(reply, all, limit, token, accepts);
      var pages := WalkExists(reply, all, limit, token, accepts, 0);
      assert Walk(reply, pages) && Ends(pages);
    }
  }

  lemma PagerIsAccepted<R(!new)>(
    reply: Option<Text> -> Reply<R>, all: seq<R>, limit: nat, token: R -> Text, accepts: R -> bool)
    requires Pager(reply, all, limit, token, accepts)
    ensures AcceptedPager(reply, all, limit, token, accepts)
  {
    hide PageAt;
    forall k | 0 < k < |all| && accepts(all[k - 1])
      ensures reply(Some(token(all[k - 1]))) == PageAt(all, limit, token, k)
    {
      assert Answers(reply, all, limit, token, accepts, k);
    }
  }

  lemma {:induction false} AcceptedWalkFrom<R(!new)>(
    reply: Option<Text> -> Reply<R>, all: seq<R>, limit: nat, token: R -> Text, accepts: R -> bool,
    pages: seq<Reply<R>>, k: nat)
    requires AcceptedPager(reply, all, limit, token, accepts) && limit >= 1 && k <= |all|
    requires BoundariesAccepted(all, limit, accepts, k)
    requires pages != [] && Follows(reply, pages) && pages[0] == PageAt(all, limit, token, k)
    ensures Covers(all, limit, accepts, pages, k)
    decreases |pages|
  {
    hide *;
    FirstPage(all, limit, token, pages, k);
    if |pages| == 1 {
      CoversLast(all, limit, accepts, pages, k);
    } else {
      NextAcceptedPage(reply, all, limit, token, accepts, pages, k);
      AcceptedWalkFrom(reply, all, limit, token, accepts, pages[1..], k + limit);
      CoversMore(all, limit, accepts, pages, k);
    }
  }

  lemma NextAcceptedPage<R(!new)>(
    reply: Option<Text> -> Reply<R>, all: seq<R>, limit: nat, token: R -> Text, accepts: R -> bool,
    pages: seq<Reply<R>>, k: nat)
    requires AcceptedPager(reply, all, limit, token, accepts) && limit >= 1 && k <= |all|
    requires BoundariesAccepted(all, limit, accepts, k)
    requires |pages| > 1 && Follows(reply, pages) && pages[0] == PageAt(all, limit, token, k)
    ensures k + limit < |all| && Follows(reply, pages[1..]) && accepts(all[k + limit - 1])
    ensures pages[1] == PageAt(all, limit, token, k + limit) && BoundariesAccepted(all, limit, accepts, k + limit)
  {
    PageFacts(all, limit, token, k);
    hide PageAt;
    assert pages[1] == reply(pages[0].next);
    assert accepts(all[k + limit - 1]);
  }

  /** As long as every row that ends a page is acceptable it does not matter what the tool makes of other cursors. */
  lemma AcceptedPagesPartition<R(!new)>(
    reply: Option<Text> -> Reply<R>, all: seq<R>, limit: nat, token: R -> Text, accepts: R -> bool)
    requires AcceptedPager(reply, all, limit, token, accepts) && limit >= 1
    requires BoundariesAccepted(all, limit, accepts, 0)
    ensures forall pages | Walk(reply, pages) :: Items(pages) <= all && |pages| <= 1 + |all|
    ensures forall pages | Walk(reply, pages) && Ends(pages) :: Items(pages) == all
    ensures exists pages :: Walk(reply, pages) && Ends(pages)
  {
    assert all[0..] == all;
    forall pages | Walk(reply, pages)
      ensures Items(pages) <= all && |pages| <= 1 + |all|
      ensures Ends(pages) ==> Items(pages) == all
    {
      AcceptedWalkFrom(reply, all, limit, token, accepts, pages, 0);
    }
    var pages := WalkExists(reply, all, limit, token, accepts, 0);
    assert Walk(reply, pages) && Ends(pages);
  }

  /** Every limit works exactly when all rows but the last are acceptable. */
  lemma AllLimits<R>(all: seq<R>, accepts: R -> bool)
    ensures (forall limit: nat | limit >= 1 :: BoundariesAccepted(all, limit, accepts, 0))
            <==> forall i | 0 <= i < |all| - 1 :: accepts(all[i])
  {
    if i :| 0 <= i < |all| - 1 && !accepts(all[i]) {
      var limit: nat := i + 1;
      assert !BoundariesAccepted(all, limit, accepts, 0);
    } else {
      forall limit: nat | limit >= 1 ensures BoundariesAccepted(all, limit, accepts, 0) {
        AcceptedBoundaries(all, limit, accepts, 0);
      }
    }
  }

  lemma {:induction false} AcceptedBoundaries<R>(all: seq<R>, limit: nat, accepts: R -> bool, k: nat)
    requires limit >= 1 && forall i | 0 <= i < |all| - 1 :: accepts(all[i])
    ensures BoundariesAccepted(all, limit, accepts, k)
    decreases |all| - k
  {
    if k + limit < |all| {
      AcceptedBoundaries(all, limit, accepts, k + limit);
    }
  }
}
