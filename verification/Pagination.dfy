/** Bounded page and cursor pagination (scripts/check_m3_7_production_edge.py). */
module Pagination {
  import opened Outcomes

  const MAX_ITEMS := 5_000
  const MAX_PAGES := 100
  const PAGE_SIZE := 50

  datatype Failure = Malformed | Changed | TooMany | Incomplete | PageBound | Repeated

  datatype Result<T> = Success(items: seq<T>) | Failure(failure: Failure)

  // ------------------------------------------------------------------------- pages

  /** A response with its `result_info`; `Other` is any response of another shape. */
  datatype Response<T> = Page(result: seq<T>, page: int, totalPages: int, totalCount: int, count: int) | Other

  /** The metadata check of one response. */
  predicate WellFormed<T>(r: Response<T>, page: nat) {
    && r.Page? && r.page == page
    && 0 <= r.totalPages <= MAX_PAGES
    && 0 <= r.totalCount <= MAX_ITEMS
    && (r.totalCount == 0 ==> r.totalPages <= 1)
    && (r.totalCount > 0 ==> r.totalPages > 0)
    && r.count == |r.result|
  }

  /** The server's responses by page number. */
  type Server<T> = nat -> Response<T>

  function Items<T>(r: Response<T>): seq<T> { if r.Page? then r.result else [] }

  /** The first `n` pages in order. */
  function Joined<T>(server: Server<T>, n: nat): seq<T> {
    if n == 0 then [] else Joined(server, n - 1) + Items(server(n))
  }

  function Last<T>(r: Response<T>): nat
    requires r.Page?
  {
    if r.totalPages >= 1 then r.totalPages else 1
  }

  function Totals<T>(r: Response<T>): (int, int) { if r.Page? then (r.totalPages, r.totalCount) else (-1, -1) }

  /** Every page up to the last is well formed under constant totals, and the items add up. */
  ghost predicate Consistent<T(!new)>(server: Server<T>, n: nat) {
    forall k :: 1 <= k <= n ==>
      && WellFormed(server(k), k)
      && Totals(server(k)) == Totals(server(1))
  }

  ghost predicate Complete<T(!new)>(server: Server<T>) {
    && WellFormed(server(1), 1)
    && Consistent(server, Last(server(1)))
    && |Joined(server, Last(server(1)))| == server(1).totalCount
  }

  lemma {:induction false} JoinedGrows<T>(server: Server<T>, m: nat, n: nat)
    requires m <= n
    ensures |Joined(server, m)| <= |Joined(server, n)|
  {
    if m < n {
      JoinedGrows(server, m, n - 1);
    }
  }

  /** `get_collection`: it succeeds exactly on a complete server, with all of its items; the error
      after the loop is never reached. */
  method GetCollection<T(!new)>(server: Server<T>) returns (r: Result<T>, requests: nat)
    ensures r.Success? <==> Complete(server)
    ensures r.Success? ==> && r.items == Joined(server, requests) && |r.items| == server(1).totalCount
                           && requests == Last(server(1))
    ensures requests <= MAX_PAGES
    ensures r != Result<T>.Failure(PageBound)
  {
    var collection := [];
    var pages, count := 0, 0;
    for page := 1 to MAX_PAGES + 1
      invariant collection == Joined(server, page - 1)
      invariant Consistent(server, page - 1)
      invariant page > 1 ==> pages == server(1).totalPages && count == server(1).totalCount && WellFormed(server(1), 1)
      invariant page > 1 ==> page - 1 < Last(server(1))
    {
      requests := page;
      var response := server(page);
      if !WellFormed(response, page) {
        return Failure(Failure.Malformed), requests;
      }
      if page == 1 {
        pages, count := response.totalPages, response.totalCount;
      } else if response.totalPages != pages || response.totalCount != count {
        return Failure(Changed), requests;
      }
      collection := collection + response.result;
      if |collection| > MAX_ITEMS {
        JoinedGrows(server, page, Last(server(1)));
        return Failure(TooMany), requests;
      }
      if page == Last(response) {
        if |collection| != response.totalCount {
          return Failure(Failure.Incomplete), requests;
        }
        return Success(collection), requests;
      }
    }
    r := Failure(PageBound);
  }

  /** A response that says of itself what it is: this page, these totals and as many items as it
      holds. */
  predicate Tells<T>(r: Response<T>, page: nat, pages: int, count: int) {
    r.Page? && (r.page, r.totalPages, r.totalCount, r.count) == (page, pages, count, |r.result|)
  }

  /** Totals that a collection can have. */
  predicate Possible(pages: int, count: int) {
    0 <= pages <= 100 && 0 <= count <= 5000 && (count == 0 ==> pages <= 1) && (count > 0 ==> pages > 0)
  }

  ghost predicate Told<T(!new)>(server: Server<T>, pages: int, count: int) {
    && Possible(pages, count)
    && (forall k: nat {:trigger server(k)} :: k == 1 || 1 <= k <= pages ==> Tells(server(k), k, pages, count))
    && |Joined(server, if pages >= 1 then pages else 1)| == count
  }

  /** What is collected, told by the fields of the responses: every page has its own number, as many
      items as it counts and the same possible totals, and the items add up to them. */
  lemma {:induction false} CollectedTell<T(!new)>(server: Server<T>)
    ensures Complete(server) <==> exists pages, count :: Told(server, pages, count)
  {
    if Complete(server) {
      var first := server(1);
      forall k: nat | k == 1 || 1 <= k <= first.totalPages
        ensures Tells(server(k), k, first.totalPages, first.totalCount)
      {
        assert WellFormed(server(k), k) && Totals(server(k)) == Totals(first);
      }
      assert Told(server, first.totalPages, first.totalCount);
    }
    if pages, count :| Told(server, pages, count) {
      assert Tells(server(1), 1, pages, count);
      forall k | 1 <= k <= Last(server(1))
        ensures WellFormed(server(k), k) && Totals(server(k)) == Totals(server(1))
      {
        assert Tells(server(k), k, pages, count);
      }
    }
  }

  /** A server that gives one of its pages another number or a wrong count is never collected. */
  lemma {:induction false} WrongPageIsRefused<T(!new)>(server: Server<T>, k: nat)
    requires server(1).Page? && server(k).Page? && (k == 1 || 1 <= k <= server(1).totalPages)
    requires server(k).page != k || server(k).count != |server(k).result|
    ensures !Complete(server)
  {
    CollectedTell(server);
  }

  /** A server that pages a fixed list honestly. */
  ghost predicate Faithful<T(!new)>(server: Server<T>, items: seq<T>) {
    var total := (|items| + PAGE_SIZE - 1) / PAGE_SIZE;
    forall k {:trigger server(k)} :: 1 <= k <= MAX_PAGES && (k == 1 || k <= total) ==>
      var part := items[Start(|items|, k - 1)..Start(|items|, k)];
      server(k) == Page(part, k, total, |items|, |part|)
  }

  function Start(length: nat, k: nat): nat { if PAGE_SIZE * k <= length then PAGE_SIZE * k else length }

  lemma {:induction false} FaithfulJoin<T(!new)>(server: Server<T>, items: seq<T>, n: nat)
    requires Faithful(server, items) && n <= MAX_PAGES && n <= (|items| + PAGE_SIZE - 1) / PAGE_SIZE
    ensures Joined(server, n) == items[..Start(|items|, n)]
  {
    if n > 0 {
      FaithfulJoin(server, items, n - 1);
      var part := items[Start(|items|, n - 1)..Start(|items|, n)];
      assert server(n).result == part;
      assert items[..Start(|items|, n)] == items[..Start(|items|, n - 1)] + part;
    }
  }

  /** Every list of at most 5000 items is collected whole from a server that pages it honestly,
      and no longer list is. */
  lemma {:induction false} FaithfulServersAreCollected<T(!new)>(server: Server<T>, items: seq<T>)
    requires Faithful(server, items)
    ensures Complete(server) <==> |items| <= 5000
    ensures |items| <= MAX_ITEMS ==> Joined(server, Last(server(1))) == items
  {
    var total := (|items| + PAGE_SIZE - 1) / PAGE_SIZE;
    assert server(1).totalCount == |items| && server(1).totalPages == total;
    if |items| <= MAX_ITEMS {
      assert total <= MAX_PAGES;
      if items == [] {
        assert Joined(server, 0) == [];
        assert Joined(server, 1) == [];
      } else {
        FaithfulJoin(server, items, total);
        assert Start(|items|, total) == |items|;
        assert items[..|items|] == items;
      }
    }
  }

  // ----------------------------------------------------------------------- cursors

  type Cursor = string

  /** A cursor response: its items and the cursor after them, if there is more. */
  datatype Answer<T> = Part(part: seq<T>, after: Option<Cursor>) | Unusable {
    predicate Usable() { Part? && (after.Some? ==> after.value != "") }
  }

  /** The answer to the n-th request, for the cursor it carries; the first one carries none. */
  type Feed<T> = (nat, Option<Cursor>) -> Answer<T>

  /** The cursor that the n-th request carries when the feed is simply followed. */
  function Asked<T>(feed: Feed<T>, n: nat): Option<Cursor> {
    if n == 0 then None
    else
      var answer := feed(n - 1, Asked(feed, n - 1));
      if answer.Part? then answer.after else None
  }

  function Answered<T>(feed: Feed<T>, n: nat): Answer<T> {
    feed(n, Asked(feed, n))
  }

  /** The items of the first `n` answers. */
  function Gathered<T>(feed: Feed<T>, n: nat): seq<T> {
    if n == 0 then []
    else Gathered(feed, n - 1) + (var answer := Answered(feed, n - 1); if answer.Part? then answer.part else [])
  }

  /** The first `n` answers are usable and each but the last points further. */
  ghost predicate Continues<T(!new)>(feed: Feed<T>, n: nat) {
    forall k {:trigger Answered(feed, k)} :: 0 <= k < n ==> Answered(feed, k).Usable() && Answered(feed, k).after.Some?
  }

  /** The feed comes to an end with its n-th answer. */
  ghost predicate EndsAt<T(!new)>(feed: Feed<T>, n: nat) {
    Continues(feed, n) && Answered(feed, n).Usable() && Answered(feed, n).after.None?
  }

  /** No two of the first `n` requests carry the same cursor. */
  ghost predicate Distinct<T(!new)>(feed: Feed<T>, n: nat) {
    forall i, k {:trigger Asked(feed, i), Asked(feed, k)} :: 0 <= i < k < n ==> Asked(feed, i) != Asked(feed, k)
  }

  /** Answers depend on the cursor only. */
  ghost predicate Stateless<T(!new)>(feed: Feed<T>) {
    forall i, k, cursor :: feed(i, cursor) == feed(k, cursor)
  }

  lemma {:induction false} GatheredGrows<T>(feed: Feed<T>, m: nat, n: nat)
    requires m <= n
    ensures |Gathered(feed, m)| <= |Gathered(feed, n)|
  {
    if m < n {
      GatheredGrows(feed, m, n - 1);
    }
  }

  /** On a stateless feed equal cursors have equal futures. */
  lemma {:induction false} SameFuture<T(!new)>(feed: Feed<T>, i: nat, k: nat, d: nat)
    requires Stateless(feed) && Asked(feed, i) == Asked(feed, k)
    ensures Asked(feed, i + d) == Asked(feed, k + d) && Answered(feed, i + d) == Answered(feed, k + d)
  {
    if d > 0 {
      SameFuture(feed, i, k, d - 1);
    }
  }

  /** A stateless feed that comes to an end never repeats a cursor on the way: rejecting a
      repetition loses nothing. */
  lemma {:induction false} EndingIsDistinct<T(!new)>(feed: Feed<T>, n: nat)
    requires Stateless(feed) && EndsAt(feed, n)
    ensures Distinct(feed, n + 1)
  {
    forall i, k | 0 <= i < k < n + 1
      ensures Asked(feed, i) != Asked(feed, k)
    {
      if Asked(feed, i) == Asked(feed, k) {
        SameFuture(feed, i, k, n - k);
      }
    }
  }

  /** The simple form: follow the cursors until they end, within both bounds. */
  ghost predicate Collectable<T(!new)>(feed: Feed<T>) {
    exists n :: 0 <= n < MAX_PAGES && EndsAt(feed, n) && |Gathered(feed, n + 1)| <= MAX_ITEMS
  }

  lemma {:induction false} EndsLater<T(!new)>(feed: Feed<T>, m: nat, n: nat)
    requires Continues(feed, m) && EndsAt(feed, n)
    ensures m <= n
  {
  }

  /** An unusable answer or one item too many cannot be repaired later. */
  lemma {:induction false} Uncollectable<T(!new)>(feed: Feed<T>, m: nat)
    requires Continues(feed, m)
    requires !Answered(feed, m).Usable() || |Gathered(feed, m + 1)| > MAX_ITEMS || m >= MAX_PAGES
    ensures !Collectable(feed)
  {
    forall n: nat | n < MAX_PAGES && EndsAt(feed, n)
      ensures |Gathered(feed, n + 1)| > MAX_ITEMS
    {
      EndsLater(feed, m, n);
      if m < n {
        assert Answered(feed, m).Usable();
      }
      GatheredGrows(feed, m + 1, n + 1);
    }
  }

  lemma {:induction false} RepeatedIsUncollectable<T(!new)>(feed: Feed<T>, k: nat, m: nat)
    requires Stateless(feed) && Continues(feed, m) && k < m && Asked(feed, k) == Asked(feed, m)
    ensures !Collectable(feed)
  {
    forall n: nat | EndsAt(feed, n)
      ensures false
    {
      EndsLater(feed, m, n);
      EndingIsDistinct(feed, n);
    }
  }

  /** The state of the loop after some requests. */
  ghost predicate Following<T(!new)>(feed: Feed<T>, n: nat, seen: set<Cursor>) {
    && Continues(feed, n) && Distinct(feed, n + 1)
    && (forall k {:trigger Asked(feed, k)} :: 0 < k <= n ==> Asked(feed, k).Some? && Asked(feed, k).value in seen)
    && (forall c <- seen :: IsAsked(feed, n, c))
  }

  ghost predicate IsAsked<T(!new)>(feed: Feed<T>, n: nat, c: Cursor) {
    exists k {:trigger Asked(feed, k)} :: 0 < k <= n && Asked(feed, k) == Some(c)
  }

  lemma {:induction false} NextIsNew<T(!new)>(feed: Feed<T>, n: nat, seen: set<Cursor>, c: Cursor)
    requires Following(feed, n, seen) && Asked(feed, n + 1) == Some(c) && c !in seen
    ensures Distinct(feed, n + 2)
  {
    forall i, k | 0 <= i < k < n + 2
      ensures Asked(feed, i) != Asked(feed, k)
    {
      if k <= n {
        assert Distinct(feed, n + 1);
      } else {
        assert Asked(feed, k) == Some(c);
      }
    }
  }

  lemma {:induction false} SeenNext<T(!new)>(feed: Feed<T>, n: nat, seen: set<Cursor>, c: Cursor)
    requires (forall other <- seen :: IsAsked(feed, n, other)) && Asked(feed, n + 1) == Some(c)
    ensures forall other <- seen + {c} :: IsAsked(feed, n + 1, other)
  {
    forall other | other in seen + {c}
      ensures IsAsked(feed, n + 1, other)
    {
      if other in seen {
        assert IsAsked(feed, n, other);
        var k :| 0 < k <= n && Asked(feed, k) == Some(other);
      }
    }
  }

  lemma {:induction false} SeenIsRepeated<T(!new)>(feed: Feed<T>, n: nat, seen: set<Cursor>, c: Cursor)
    requires Following(feed, n, seen) && Continues(feed, n + 1) && Asked(feed, n + 1) == Some(c) && c in seen
    ensures Stateless(feed) ==> !Collectable(feed)
  {
    assert IsAsked(feed, n, c);
    var k :| 0 < k <= n && Asked(feed, k) == Some(c);
    if Stateless(feed) {
      RepeatedIsUncollectable(feed, k, n + 1);
    }
  }

  lemma {:induction false} FollowNext<T(!new)>(feed: Feed<T>, n: nat, seen: set<Cursor>)
    requires Following(feed, n, seen) && Answered(feed, n).Usable() && Answered(feed, n).after.Some?
    ensures Asked(feed, n + 1) == Answered(feed, n).after
    ensures Answered(feed, n).after.value !in seen ==> Following(feed, n + 1, seen + {Answered(feed, n).after.value})
    ensures Stateless(feed) && Answered(feed, n).after.value in seen ==> !Collectable(feed)
  {
    var c := Answered(feed, n).after.value;
    assert Asked(feed, n + 1) == Some(c);
    assert Continues(feed, n + 1);
    if c in seen {
      SeenIsRepeated(feed, n, seen, c);
    } else {
      NextIsNew(feed, n, seen, c);
      SeenNext(feed, n, seen, c);
    }
  }

  /** A feed that answers with an empty cursor or an answer of another shape before its end is never
      collected. */
  lemma {:induction false} BadAnswerIsRefused<T(!new)>(feed: Feed<T>, m: nat)
    requires Continues(feed, m)
    requires Answered(feed, m).Unusable? || Answered(feed, m).after == Some("")
    ensures !Collectable(feed) && forall n: nat :: !EndsAt(feed, n)
  {
    Uncollectable(feed, m);
    forall n: nat | EndsAt(feed, n)
      ensures m < n || m == n
    {
      EndsLater(feed, m, n);
    }
  }

  lemma {:induction false} Collected<T(!new)>(feed: Feed<T>, n: nat)
    requires n < MAX_PAGES && EndsAt(feed, n) && |Gathered(feed, n + 1)| <= MAX_ITEMS
    ensures Collectable(feed)
  {
  }

  /** `get_cursor_collection`: distinct cursors, at most 100 requests, and on success exactly what
      following the cursors gathers; on a stateless feed the repetition check costs nothing. */
  method GetCursorCollection<T(!new)>(feed: Feed<T>) returns (r: Result<T>, requests: nat)
    ensures requests <= MAX_PAGES && Distinct(feed, requests)
    ensures r.Success? ==>
              && requests > 0 && EndsAt(feed, requests - 1) && r.items == Gathered(feed, requests)
              && |r.items| <= MAX_ITEMS
    ensures Stateless(feed) ==> (r.Success? <==> Collectable(feed))
  {
    var collection := [];
    var cursor: Option<Cursor> := None;
    var seen: set<Cursor> := {};
    requests := 0;
    while requests < MAX_PAGES
      invariant requests <= MAX_PAGES
      invariant collection == Gathered(feed, requests) && |collection| <= MAX_ITEMS
      invariant cursor == Asked(feed, requests)
      invariant Following(feed, requests, seen)
    {
      var answer := feed(requests, cursor);
      assert answer == Answered(feed, requests);
      requests := requests + 1;
      if !answer.Usable() {
        Uncollectable(feed, requests - 1);
        return Failure(Failure.Malformed), requests;
      }
      collection := collection + answer.part;
      if |collection| > MAX_ITEMS {
        Uncollectable(feed, requests - 1);
        return Failure(TooMany), requests;
      }
      if answer.after.None? {
        Collected(feed, requests - 1);
        return Success(collection), requests;
      }
      FollowNext(feed, requests - 1, seen);
      if answer.after.value in seen {
        return Failure(Repeated), requests;
      }
      seen := seen + {answer.after.value};
      cursor := answer.after;
    }
    Uncollectable(feed, requests);
    r := Failure(PageBound);
  }
}
