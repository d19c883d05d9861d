/**
  Listing stored threads: pages of a source are filtered, and refilled from
  further pages until there are as many as were asked for.
*/
module ThreadListing {
  import opened Wrappers

  type Cursor = nat
  type Item = nat
  type Summary = nat

  const THREAD_LIST_MAX_LIMIT := 100

  datatype Fetched = Items(items: seq<Item>, next: Option<Cursor>) | FetchFailed

  /** Where the threads come from, and what the request keeps of them; both are other code. */
  datatype Source = Source(fetch: (nat, Option<Cursor>) -> Fetched, view: Item -> Option<Summary>)

  datatype Start = FromStart | From(cursor: Cursor) | Unreadable(text: string)

  function StartCursor(start: Start): Option<Cursor> {
    if start.From? then Some(start.cursor) else None
  }

  datatype Listing = Listed(items: seq<Summary>, next: Option<Cursor>) | InvalidCursor(text: string) | ListFailed

  // --- The loop --------------------------------------------------------------------------------------------

  /** The loop over one page: it stops as soon as it has as many as are missing. */
  function Filtered(source: Source, items: seq<Item>, remaining: nat, soFar: seq<Summary>): seq<Summary>
    decreases |items|
  {
    if items == [] then soFar
    else
      var summary := source.view(items[0]);
      if summary.None? then Filtered(source, items[1..], remaining, soFar)
      else
        var more := soFar + [summary.value];
        if |more| >= remaining then more else Filtered(source, items[1..], remaining, more)
  }

  datatype State =
    | Looking(cursor: Option<Cursor>, last: Option<Cursor>, items: seq<Summary>)
    | Done(listing: Listing)

  function Missing(requested: nat, items: seq<Summary>): nat {
    if |items| <= requested then requested - |items| else 0
  }

  /** One turn of the refill loop. */
  function Turn(source: Source, requested: nat, s: State): State {
    if s.Done? then s
    else
      var remaining := Missing(requested, s.items);
      if remaining == 0 then Done(Listed(s.items, None))
      else
        var fetched := source.fetch(if remaining < THREAD_LIST_MAX_LIMIT then remaining else THREAD_LIST_MAX_LIMIT, s.cursor);
        if fetched.FetchFailed? then Done(ListFailed)
        else
          var items := s.items + Filtered(source, fetched.items, remaining, []);
          if Missing(requested, items) == 0 || fetched.next.None? then Done(Listed(items, fetched.next))
          else if s.last == fetched.next then Done(Listed(items, None))
          else Looking(fetched.next, fetched.next, items)
  }

  function Turns(source: Source, requested: nat, s: State, n: nat): State
    decreases n
  {
    if n == 0 then s else Turns(source, requested, Turn(source, requested, s), n - 1)
  }

  /** The loop of a request from this cursor, after so many turns. */
  function Loop(source: Source, requested: nat, from: Option<Cursor>, n: nat): State {
    Turns(source, requested, Looking(from, from, []), n)
  }

  lemma {:induction false} TurnsAdd(source: Source, requested: nat, s: State, a: nat, b: nat)
    ensures Turns(source, requested, s, a + b) == Turns(source, requested, Turns(source, requested, s, a), b)
    decreases a
  {
    if a > 0 {
      TurnsAdd(source, requested, Turn(source, requested, s), a - 1, b);
    }
  }

  lemma {:induction false} DoneStays(source: Source, requested: nat, s: State, n: nat)
    requires s.Done?
    ensures Turns(source, requested, s, n) == s
    decreases n
  {
    if n > 0 {
      DoneStays(source, requested, s, n - 1);
    }
  }

  lemma LookingBefore(source: Source, requested: nat, s: State, a: nat, b: nat)
    requires a <= b && Turns(source, requested, s, b).Looking?
    ensures Turns(source, requested, s, a).Looking?
  {
    TurnsAdd(source, requested, s, a, b - a);
    if Turns(source, requested, s, a).Done? {
      DoneStays(source, requested, Turns(source, requested, s, a), b - a);
    }
  }

  function PageSize(requested: nat, items: seq<Summary>): nat {
    var remaining := Missing(requested, items);
    if remaining < THREAD_LIST_MAX_LIMIT then remaining else THREAD_LIST_MAX_LIMIT
  }

  /** A page is asked for with what is missing, but with a hundred at most. */
  lemma PageSizeIs(requested: nat, items: seq<Summary>)
    requires |items| <= requested
    ensures PageSize(requested, items) == if requested < |items| + 100 then requested - |items| else 100
  {
  }

  // --- How the loop ends, over any source -------------------------------------------------------------------

  /** The loop comes to a page that cannot be fetched. */
  ghost predicate FailsAt(source: Source, requested: nat, from: Option<Cursor>, k: nat) {
    var s := Loop(source, requested, from, k);
    s.Looking? && |s.items| < requested && source.fetch(PageSize(requested, s.items), s.cursor).FetchFailed?
  }

  lemma {:induction false} FilteredBound(source: Source, items: seq<Item>, remaining: nat, soFar: seq<Summary>)
    requires |soFar| < remaining
    ensures |Filtered(source, items, remaining, soFar)| <= remaining
    decreases |items|
  {
    if items != [] && source.view(items[0]).Some? && |soFar| + 1 < remaining {
      FilteredBound(source, items[1..], remaining, soFar + [source.view(items[0]).value]);
    } else if items != [] && source.view(items[0]).None? {
      FilteredBound(source, items[1..], remaining, soFar);
    }
  }

  lemma {:induction false} LoopBound(source: Source, requested: nat, from: Option<Cursor>, n: nat)
    requires Loop(source, requested, from, n).Looking?
    ensures |Loop(source, requested, from, n).items| <= requested
  {
    if n > 0 {
      LookingBefore(source, requested, Looking(from, from, []), n - 1, n);
      LoopBound(source, requested, from, n - 1);
      TurnsAdd(source, requested, Looking(from, from, []), n - 1, 1);
      var s := Loop(source, requested, from, n - 1);
      TurnBound(source, requested, s);
    }
  }

  lemma TurnBound(source: Source, requested: nat, s: State)
    requires s.Looking? && |s.items| <= requested
    ensures var t := Turn(source, requested, s);
      && (t.Looking? ==> |t.items| <= requested)
      && (t.Done? && t.listing.Listed? ==> |t.listing.items| <= requested && (t.listing.next.Some? ==> |t.listing.items| == requested))
      && !(t.Done? && t.listing.InvalidCursor?)
  {
    var remaining := Missing(requested, s.items);
    var fetched := source.fetch(PageSize(requested, s.items), s.cursor);
    if remaining > 0 && fetched.Items? {
      FilteredBound(source, fetched.items, remaining, []);
    }
  }

  lemma {:induction false} LastTurn(source: Source, requested: nat, from: Option<Cursor>, n: nat, r: Listing) returns (k: nat)
    requires Loop(source, requested, from, n) == Done(r)
    ensures Loop(source, requested, from, k).Looking? && Turn(source, requested, Loop(source, requested, from, k)) == Done(r)
  {
    k := n - 1;
    TurnsAdd(source, requested, Looking(from, from, []), n - 1, 1);
    if Loop(source, requested, from, n - 1).Done? {
      k := LastTurn(source, requested, from, n - 1, r);
    }
  }

  /**
    The loop fails exactly if it comes to a page that cannot be fetched. A
    listing never holds more than was asked for, and gives a cursor only if it
    holds as many.
  */
  lemma HowItEnds(source: Source, requested: nat, from: Option<Cursor>, n: nat, r: Listing)
    requires Loop(source, requested, from, n) == Done(r)
    ensures r == ListFailed <==> exists k: nat :: FailsAt(source, requested, from, k)
    ensures r.Listed? ==> |r.items| <= requested && (r.next.Some? ==> |r.items| == requested)
    ensures !r.InvalidCursor?
  {
    var k := LastTurn(source, requested, from, n, r);
    LoopBound(source, requested, from, k);
    TurnBound(source, requested, Loop(source, requested, from, k));
    FailedTurn(source, requested, Loop(source, requested, from, k));
    assert r == ListFailed <==> FailsAt(source, requested, from, k);
    if j: nat :| FailsAt(source, requested, from, j) {
      FailedTurn(source, requested, Loop(source, requested, from, j));
      SameEnd(source, requested, from, j, k);
    }
  }

  lemma SameEnd(source: Source, requested: nat, from: Option<Cursor>, j: nat, k: nat)
    requires Loop(source, requested, from, j).Looking? && Turn(source, requested, Loop(source, requested, from, j)).Done?
    requires Loop(source, requested, from, k).Looking? && Turn(source, requested, Loop(source, requested, from, k)).Done?
    ensures j == k
  {
    var start := Looking(from, from, []);
    TurnsAdd(source, requested, start, j, 1);
    TurnsAdd(source, requested, start, k, 1);
    if j < k {
      LookingBefore(source, requested, start, j + 1, k);
    } else if k < j {
      LookingBefore(source, requested, start, k + 1, j);
    }
  }

  lemma FailedTurn(source: Source, requested: nat, s: State)
    requires s.Looking? && |s.items| <= requested
    ensures Turn(source, requested, s) == Done(ListFailed) <==>
      |s.items| < requested && source.fetch(PageSize(requested, s.items), s.cursor).FetchFailed?
  {
  }

  // --- Well-behaved sources --------------------------------------------------------------------------------------

  /** How far a cursor has come in the list behind the source, and by how many steps at most it can still advance. */
  datatype Progress = Progress(place: Cursor -> nat, rank: Cursor -> nat, bound: nat)

  function Place(k: Progress, c: Option<Cursor>): nat {
    if c.Some? then k.place(c.value) else 0
  }

  function Rank(k: Progress, c: Option<Cursor>): nat {
    if c.Some? then k.rank(c.value) else 0
  }

  /** Where the page with this next cursor ends. */
  function EndOf(k: Progress, next: Option<Cursor>, all: seq<Item>): nat {
    if next.Some? then k.place(next.value) else |all|
  }

  /**
    A page of the list behind the source: it continues where the cursor
    stands, holds no more than was asked for, and leads on to where it ends;
    cursors advance strictly.
  */
  ghost predicate GoodPage(page: Fetched, all: seq<Item>, k: Progress, n: nat, c: Option<Cursor>) {
    && page.Items?
    && Place(k, c) <= EndOf(k, page.next, all) <= |all|
    && page.items == all[Place(k, c)..EndOf(k, page.next, all)]
    && |page.items| <= n
    && (page.next.Some? ==> Rank(k, c) < Rank(k, page.next))
  }

  /** The source serves this list; it may fail at any time. */
  ghost predicate Serves(source: Source, all: seq<Item>, k: Progress) {
    && (forall c: Cursor :: k.place(c) <= |all| && k.rank(c) <= k.bound)
    && forall n: nat, c: Option<Cursor> | n >= 1 && source.fetch(n, c).Items? :: GoodPage(source.fetch(n, c), all, k, n, c)
  }

  /** The summaries of the items that the request keeps. */
  function Views(source: Source, items: seq<Item>): seq<Summary> {
    if items == [] then []
    else
      var summary := source.view(items[|items| - 1]);
      Views(source, items[..|items| - 1]) + if summary.Some? then [summary.value] else []
  }

  lemma {:induction false} ViewsConcat(source: Source, a: seq<Item>, b: seq<Item>)
    ensures Views(source, a + b) == Views(source, a) + Views(source, b)
  {
    if b == [] {
      assert a + b == a;
    } else {
      assert (a + b)[..|a + b| - 1] == a + b[..|b| - 1];
      ViewsConcat(source, a, b[..|b| - 1]);
    }
  }

  lemma {:induction false} ViewsLength(source: Source, items: seq<Item>)
    ensures |Views(source, items)| <= |items|
  {
    if items != [] {
      ViewsLength(source, items[..|items| - 1]);
    }
  }

  /** A page no longer than what is missing is filtered to the end. */
  lemma {:induction false} FilteredIsViews(source: Source, items: seq<Item>, remaining: nat, soFar: seq<Summary>)
    requires |soFar| + |items| <= remaining
    ensures Filtered(source, items, remaining, soFar) == soFar + Views(source, items)
    decreases |items|
  {
    if items != [] {
      var summary, rest := source.view(items[0]), items[1..];
      assert items == [items[0]] + rest;
      ViewsConcat(source, [items[0]], rest);
      assert [items[0]][..0] == [];
      if summary.None? {
        FilteredIsViews(source, rest, remaining, soFar);
      } else {
        var more := soFar + [summary.value];
        if |more| >= remaining {
          assert rest == [];
        } else {
          FilteredIsViews(source, rest, remaining, more);
        }
      }
    }
  }

  // --- One request ---------------------------------------------------------------------------------------------------

  /** While the loop runs: what was collected is the list up to where the cursor stands. */
  ghost predicate Collected(source: Source, all: seq<Item>, k: Progress, requested: nat, from: Option<Cursor>, s: State) {
    && s.Looking?
    && Place(k, from) <= Place(k, s.cursor) <= |all|
    && s.items == Views(source, all[Place(k, from)..Place(k, s.cursor)])
    && |s.items| < requested
    && Rank(k, from) <= Rank(k, s.cursor)
    && s.last == s.cursor
  }

  /** The listing is the next stretch of the list, and its cursor is where that ends; it is full unless the list is at its end. */
  ghost predicate NextStretch(source: Source, all: seq<Item>, k: Progress, requested: nat, from: Option<Cursor>, r: Listing) {
    && r.Listed?
    && Place(k, from) <= EndOf(k, r.next, all) <= |all|
    && r.items == Views(source, all[Place(k, from)..EndOf(k, r.next, all)])
    && |r.items| <= requested
    && (r.next.Some? ==> |r.items| == requested && Rank(k, from) < Rank(k, r.next))
  }

  lemma ServesGoodPages(source: Source, all: seq<Item>, k: Progress, n: nat, c: Option<Cursor>)
    requires Serves(source, all, k) && n >= 1 && source.fetch(n, c).Items?
    ensures GoodPage(source.fetch(n, c), all, k, n, c)
  {
  }

  /** A page adds the kept items of one more stretch. */
  lemma PageAdds(source: Source, all: seq<Item>, k: Progress, page: Fetched, remaining: nat, p: nat, c: Option<Cursor>)
    requires GoodPage(page, all, k, remaining, c) && p <= Place(k, c)
    ensures Filtered(source, page.items, remaining, []) == Views(source, page.items)
    ensures Views(source, all[p..Place(k, c)]) + Filtered(source, page.items, remaining, []) == Views(source, all[p..EndOf(k, page.next, all)])
    ensures |Filtered(source, page.items, remaining, [])| <= remaining
  {
    var q, e := Place(k, c), EndOf(k, page.next, all);
    FilteredIsViews(source, page.items, remaining, []);
    ViewsLength(source, page.items);
    assert all[p..e] == all[p..q] + all[q..e];
    ViewsConcat(source, all[p..q], all[q..e]);
  }

  lemma TurnCollects(source: Source, all: seq<Item>, k: Progress, requested: nat, from: Option<Cursor>, s: State)
    requires Serves(source, all, k) && Collected(source, all, k, requested, from, s)
    ensures var t := Turn(source, requested, s);
      if t.Looking? then Collected(source, all, k, requested, from, t) && Rank(k, s.cursor) < Rank(k, t.cursor)
      else t.listing == ListFailed || NextStretch(source, all, k, requested, from, t.listing)
  {
    var remaining := Missing(requested, s.items);
    var n := if remaining < THREAD_LIST_MAX_LIMIT then remaining else THREAD_LIST_MAX_LIMIT;
    var page := source.fetch(n, s.cursor);
    if page.Items? {
      ServesGoodPages(source, all, k, n, s.cursor);
      GoodTurn(source, all, k, requested, from, s, page, n);
    }
  }

  lemma GoodTurn(source: Source, all: seq<Item>, k: Progress, requested: nat, from: Option<Cursor>, s: State, page: Fetched, n: nat)
    requires Collected(source, all, k, requested, from, s)
    requires n == if Missing(requested, s.items) < THREAD_LIST_MAX_LIMIT then Missing(requested, s.items) else THREAD_LIST_MAX_LIMIT
    requires page == source.fetch(n, s.cursor) && GoodPage(page, all, k, n, s.cursor)
    ensures var t := Turn(source, requested, s);
      if t.Looking? then Collected(source, all, k, requested, from, t) && Rank(k, s.cursor) < Rank(k, t.cursor)
      else NextStretch(source, all, k, requested, from, t.listing)
  {
    PageAdds(source, all, k, page, Missing(requested, s.items), Place(k, from), s.cursor);
  }

  /** `list_threads_common`, for a source that serves some list. */
  method ListThreads(source: Source, requested: nat, start: Start, ghost all: seq<Item>, ghost k: Progress) returns (r: Listing)
    requires Serves(source, all, k)
    ensures start.Unreadable? ==> r == InvalidCursor(start.text)
    ensures !start.Unreadable? ==> exists n: nat :: Loop(source, requested, StartCursor(start), n) == Done(r)
    ensures r == ListFailed <==> !start.Unreadable? && exists n: nat :: FailsAt(source, requested, StartCursor(start), n)
    ensures !start.Unreadable? && requested == 0 ==> r == Listed([], None)
    ensures !start.Unreadable? && requested >= 1 && r != ListFailed ==>
      NextStretch(source, all, k, requested, StartCursor(start), r)
  {
    if start.Unreadable? {
      return InvalidCursor(start.text);
    }
    var cursor := StartCursor(start);
    ghost var from := cursor;
    var last := cursor;
    var remaining := requested;
    var items: seq<Summary> := [];
    var next: Option<Cursor> := None;
    ghost var start', turns := Looking(from, from, []), 0;
    assert Views(source, all[Place(k, from)..Place(k, from)]) == [];
    while remaining > 0
      invariant remaining == Missing(requested, items)
      invariant Loop(source, requested, from, turns) == Looking(cursor, last, items)
      invariant requested >= 1 ==> remaining > 0 && Collected(source, all, k, requested, from, Looking(cursor, last, items))
      invariant requested == 0 ==> turns == 0 && items == [] && next == None
      decreases k.bound - Rank(k, cursor)
    {
      TurnCollects(source, all, k, requested, from, Looking(cursor, last, items));
      TurnsAdd(source, requested, start', turns, 1);
      turns := turns + 1;
      var pageSize := if remaining < THREAD_LIST_MAX_LIMIT then remaining else THREAD_LIST_MAX_LIMIT;
      var page := source.fetch(pageSize, cursor);
      if page.FetchFailed? {
        r := ListFailed;
        HowItEnds(source, requested, from, turns, r);
        return;
      }
      var filtered := FilterPage(source, page.items, remaining);
      items := items + filtered;
      remaining := Missing(requested, items);
      next := page.next;
      if remaining == 0 {
        break;
      }
      if page.next.None? {
        break;
      }
      if last == page.next {
        next := None;
        break;
      }
      last := page.next;
      cursor := page.next;
    }
    r := Listed(items, next);
    if requested == 0 {
      turns := 1;
    }
    HowItEnds(source, requested, from, turns, r);
  }

  method FilterPage(source: Source, items: seq<Item>, remaining: nat) returns (filtered: seq<Summary>)
    ensures filtered == Filtered(source, items, remaining, [])
  {
    filtered := [];
    for i := 0 to |items|
      invariant Filtered(source, items, remaining, []) == Filtered(source, items[i..], remaining, filtered)
    {
      assert items[i..][1..] == items[i + 1..];
      var summary := source.view(items[i]);
      if summary.Some? {
        filtered := filtered + [summary.value];
        if |filtered| >= remaining {
          return;
        }
      }
    }
    assert items[|items|..] == [];
  }

  // --- A client that follows the cursors ---------------------------------------------------------------------------------

  function AllItems(listings: seq<Listing>): seq<Summary> {
    if listings == [] then []
    else (if listings[0].Listed? then listings[0].items else []) + AllItems(listings[1..])
  }

  /** Each request asks for at least one, from where the one before it ended. */
  ghost predicate Followed(source: Source, all: seq<Item>, k: Progress, sizes: seq<nat>, from: Option<Cursor>, listings: seq<Listing>) {
    |sizes| == |listings| &&
    (listings != [] ==>
      && sizes[0] >= 1 && NextStretch(source, all, k, sizes[0], from, listings[0])
      && (|listings| > 1 ==> listings[0].next.Some?)
      && Followed(source, all, k, sizes[1..], listings[0].next, listings[1..]))
  }

  /**
    Whatever page sizes a client asks for, what it gets by following the
    cursors is the filtered list, each thread once and in order, as far as it
    has followed; and it follows no more cursors than the source can give.
  */
  lemma {:induction false} FollowingListsAll(source: Source, all: seq<Item>, k: Progress, sizes: seq<nat>, from: Option<Cursor>, listings: seq<Listing>)
    requires Followed(source, all, k, sizes, from, listings) && listings != []
    requires forall c: Cursor :: k.place(c) <= |all| && k.rank(c) <= k.bound
    ensures listings[|listings| - 1].Listed?
    ensures var next := listings[|listings| - 1].next;
      && Place(k, from) <= EndOf(k, next, all) <= |all|
      && AllItems(listings) == Views(source, all[Place(k, from)..EndOf(k, next, all)])
    ensures Rank(k, from) + |listings| <= k.bound + 1
    decreases |listings|
  {
    var first, rest := listings[0], listings[1..];
    var p, q := Place(k, from), EndOf(k, first.next, all);
    if rest == [] {
      assert AllItems(rest) == [];
      assert first.items + [] == first.items;
    } else {
      FollowingListsAll(source, all, k, sizes[1..], first.next, rest);
      assert rest[|rest| - 1] == listings[|listings| - 1];
      var e := EndOf(k, listings[|listings| - 1].next, all);
      assert all[p..e] == all[p..q] + all[q..e];
      ViewsConcat(source, all[p..q], all[q..e]);
    }
  }

  /** And once there is no cursor any more, it has got everything. */
  lemma FollowedToTheEnd(source: Source, all: seq<Item>, k: Progress, sizes: seq<nat>, listings: seq<Listing>)
    requires Serves(source, all, k) && Followed(source, all, k, sizes, None, listings)
    requires listings != [] && listings[|listings| - 1].Listed? && listings[|listings| - 1].next.None?
    ensures AllItems(listings) == Views(source, all)
  {
    FollowingListsAll(source, all, k, sizes, None, listings);
    assert all[0..|all|] == all;
  }

  // --- When the loop does not end ----------------------------------------------------------------------------------------

  /** The source has finitely many cursors to give. */
  ghost predicate FewCursors(source: Source, bound: nat) {
    forall n: nat, c: Option<Cursor> :: source.fetch(n, c).Items? && source.fetch(n, c).next.Some? ==> source.fetch(n, c).next.value < bound
  }

  /** What comes back to itself goes on for ever. */
  lemma {:induction false} ComesBack(source: Source, requested: nat, s: State, period: nat, n: nat)
    requires s.Looking? && period >= 1 && Turns(source, requested, s, period) == s
    ensures Turns(source, requested, s, n).Looking?
    decreases n
  {
    if n <= period {
      LookingBefore(source, requested, s, n, period);
    } else {
      TurnsAdd(source, requested, s, period, n - period);
      ComesBack(source, requested, s, period, n - period);
    }
  }

  /** A turn after which the loop still looks. */
  lemma LookingTurn(source: Source, requested: nat, s: State)
    requires s.Looking? && Turn(source, requested, s).Looking?
    ensures var t := Turn(source, requested, s);
      s.items <= t.items && |t.items| < requested && t.last == t.cursor && t.cursor.Some? && t.cursor != s.last
    ensures forall bound | FewCursors(source, bound) :: Turn(source, requested, s).cursor.value < bound
  {
  }

  /** What was collected only grows, and after the first turn the cursor is one that the source gave. */
  lemma {:induction false} LookingTurns(source: Source, requested: nat, s: State, n: nat, bound: nat)
    requires s.Looking? && Turns(source, requested, s, n).Looking? && FewCursors(source, bound)
    ensures var t := Turns(source, requested, s, n);
      && s.items <= t.items
      && (n >= 1 ==> |t.items| < requested && t.last == t.cursor && t.cursor.Some? && t.cursor.value < bound)
    decreases n
  {
    if n > 0 {
      LookingBefore(source, requested, s, n - 1, n);
      LookingTurns(source, requested, s, n - 1, bound);
      TurnsAdd(source, requested, s, n - 1, 1);
      LookingTurn(source, requested, Turns(source, requested, s, n - 1));
    }
  }

  lemma {:induction false} Pigeonhole(f: seq<nat>, bound: nat) returns (i: nat, j: nat)
    requires |f| > bound && forall k | 0 <= k < |f| :: f[k] < bound
    ensures i < j < |f| && f[i] == f[j]
    decreases bound
  {
    var last := f[|f| - 1];
    if k :| 0 <= k < |f| - 1 && f[k] == last {
      i, j := k, |f| - 1;
    } else {
      var g := seq(|f| - 1, k requires 0 <= k < |f| - 1 => if f[k] == bound - 1 then last else f[k]);
      i, j := Pigeonhole(g, bound - 1);
    }
  }

  /** The state after n turns and that after m turns are the same, with at least one other between them. */
  ghost predicate CycleAt(source: Source, requested: nat, s: State, n: nat, m: nat) {
    n + 2 <= m && Turns(source, requested, s, n).Looking? && Turns(source, requested, s, n) == Turns(source, requested, s, m)
  }

  /** While nothing is collected, the cursors must repeat. */
  lemma CycleOfCursors(source: Source, requested: nat, s: State, bound: nat) returns (n: nat, m: nat)
    requires s.Looking? && FewCursors(source, bound)
    requires var t := Turns(source, requested, s, bound + 1); t.Looking? && t.items == s.items
    ensures CycleAt(source, requested, s, n, m) && 1 <= n && m <= bound + 1
  {
    var end := bound + 1;
    forall k: nat | 1 <= k <= end
      ensures var t := Turns(source, requested, s, k);
        t.Looking? && t.cursor.Some? && t.cursor.value < bound && t == Looking(t.cursor, t.cursor, s.items)
    {
      LookingBefore(source, requested, s, k, end);
      LookingTurns(source, requested, s, k, bound);
      TurnsAdd(source, requested, s, k, end - k);
      LookingTurns(source, requested, Turns(source, requested, s, k), end - k, bound);
    }
    var cursors := seq(end, k requires 0 <= k < end => Turns(source, requested, s, k + 1).cursor.value);
    var i, j := Pigeonhole(cursors, bound);
    n, m := i + 1, j + 1;
    NoFixedState(source, requested, s, n);
  }

  /** As many turns as there are cursors, and one, for each summary that may still be collected. */
  function Horizon(missing: nat, bound: nat): nat {
    bound + 1 + if missing == 0 then 0 else Horizon(missing - 1, bound)
  }

  lemma {:induction false} HorizonGrows(a: nat, b: nat, bound: nat)
    requires a <= b
    ensures Horizon(a, bound) <= Horizon(b, bound)
  {
    if a > 0 {
      HorizonGrows(a - 1, b - 1, bound);
    }
  }

  lemma NoFixedState(source: Source, requested: nat, s: State, n: nat)
    requires n >= 1 && Turns(source, requested, s, n).Looking? && Turns(source, requested, s, n).last == Turns(source, requested, s, n).cursor
    ensures Turns(source, requested, s, n + 1) != Turns(source, requested, s, n)
  {
    TurnsAdd(source, requested, s, n, 1);
    var t := Turns(source, requested, s, n);
    if Turn(source, requested, t) == t {
      LookingTurn(source, requested, t);
    }
  }

  lemma {:induction false} EndlessCycles(source: Source, requested: nat, s: State, bound: nat) returns (n: nat, m: nat)
    requires s.Looking? && FewCursors(source, bound) && |s.items| <= requested
    requires forall k: nat :: Turns(source, requested, s, k).Looking?
    ensures CycleAt(source, requested, s, n, m) && 1 <= n && m <= Horizon(requested - |s.items|, bound)
    decreases requested - |s.items|
  {
    var end := bound + 1;
    var t := Turns(source, requested, s, end);
    LookingTurns(source, requested, s, end, bound);
    if t.items == s.items {
      n, m := CycleOfCursors(source, requested, s, bound);
    } else {
      forall k: nat ensures Turns(source, requested, t, k) == Turns(source, requested, s, end + k) {
        TurnsAdd(source, requested, s, end, k);
      }
      var i, j := EndlessCycles(source, requested, t, bound);
      n, m := end + i, end + j;
      HorizonGrows(requested - |t.items|, requested - |s.items| - 1, bound);
    }
  }

  // --- The same in terms of the source -----------------------------------------------------------------------------------

  predicate KeepsNothing(source: Source, items: seq<Item>) {
    forall i | 0 <= i < |items| :: source.view(items[i]).None?
  }

  /** The page at this cursor leads on to another one, and nothing on it is kept. */
  predicate EmptyStep(source: Source, n: nat, c: Cursor, d: Cursor) {
    var page := source.fetch(n, Some(c));
    page.Items? && page.next == Some(d) && d != c && KeepsNothing(source, page.items)
  }

  /** Two or more such steps from a cursor back to it. */
  predicate EmptyCycle(source: Source, n: nat, cursors: seq<Cursor>) {
    && |cursors| >= 3 && cursors[0] == cursors[|cursors| - 1]
    && forall i | 0 <= i < |cursors| - 1 :: EmptyStep(source, n, cursors[i], cursors[i + 1])
  }

  lemma {:induction false} FilteredNothing(source: Source, items: seq<Item>, remaining: nat, soFar: seq<Summary>)
    ensures |Filtered(source, items, remaining, soFar)| >= |soFar|
    ensures Filtered(source, items, remaining, soFar) == soFar <==> KeepsNothing(source, items)
    decreases |items|
  {
    if items != [] {
      var summary, rest := source.view(items[0]), items[1..];
      assert forall i | 0 <= i < |rest| :: rest[i] == items[i + 1];
      if summary.None? {
        FilteredNothing(source, rest, remaining, soFar);
      } else {
        FilteredNothing(source, rest, remaining, soFar + [summary.value]);
      }
    }
  }

  /** One empty step is one turn that changes only the cursor. */
  lemma EmptyTurn(source: Source, requested: nat, items: seq<Summary>, c: Cursor, d: Cursor)
    requires |items| < requested
    ensures EmptyStep(source, PageSize(requested, items), c, d) <==>
      Turn(source, requested, Looking(Some(c), Some(c), items)) == Looking(Some(d), Some(d), items)
  {
    var page := source.fetch(PageSize(requested, items), Some(c));
    if page.Items? {
      FilteredNothing(source, page.items, Missing(requested, items), []);
    }
  }

  lemma {:induction false} AroundTheCycle(source: Source, requested: nat, items: seq<Summary>, cursors: seq<Cursor>, i: nat)
    requires |items| < requested && i < |cursors| && EmptyCycle(source, PageSize(requested, items), cursors)
    ensures Turns(source, requested, Looking(Some(cursors[0]), Some(cursors[0]), items), i) == Looking(Some(cursors[i]), Some(cursors[i]), items)
  {
    if i > 0 {
      AroundTheCycle(source, requested, items, cursors, i - 1);
      TurnsAdd(source, requested, Looking(Some(cursors[0]), Some(cursors[0]), items), i - 1, 1);
      EmptyTurn(source, requested, items, cursors[i - 1], cursors[i]);
    }
  }

  /** Between two equal states nothing is collected, and the cursors make an empty cycle. */
  lemma CursorsBetween(source: Source, requested: nat, s: State, n: nat, m: nat, bound: nat) returns (cursors: seq<Cursor>)
    requires s.Looking? && FewCursors(source, bound) && 1 <= n && CycleAt(source, requested, s, n, m)
    ensures var t := Turns(source, requested, s, n);
      && |t.items| < requested && EmptyCycle(source, PageSize(requested, t.items), cursors)
      && t == Looking(Some(cursors[0]), Some(cursors[0]), t.items)
  {
    var t := Turns(source, requested, s, n);
    LookingTurns(source, requested, s, n, bound);
    forall k: nat | n <= k <= m
      ensures var u := Turns(source, requested, s, k);
        u.Looking? && u.cursor.Some? && u == Looking(u.cursor, u.cursor, t.items)
    {
      LookingBefore(source, requested, s, k, m);
      LookingTurns(source, requested, s, k, bound);
      TurnsAdd(source, requested, s, n, k - n);
      LookingTurns(source, requested, t, k - n, bound);
      TurnsAdd(source, requested, s, k, m - k);
      LookingTurns(source, requested, Turns(source, requested, s, k), m - k, bound);
    }
    cursors := seq(m - n + 1, i requires 0 <= i <= m - n => Turns(source, requested, s, n + i).cursor.value);
    forall i | 0 <= i < m - n ensures EmptyStep(source, PageSize(requested, t.items), cursors[i], cursors[i + 1]) {
      TurnsAdd(source, requested, s, n + i, 1);
      EmptyTurn(source, requested, t.items, cursors[i], cursors[i + 1]);
    }
  }

  /** After so many turns the loop stands at the start of an empty cycle. */
  ghost predicate EntersEmptyCycle(source: Source, requested: nat, from: Option<Cursor>, n: nat) {
    var s := Loop(source, requested, from, n);
    s.Looking? && |s.items| < requested && s.last == s.cursor
    && exists cursors :: EmptyCycle(source, PageSize(requested, s.items), cursors) && s.cursor == Some(cursors[0])
  }

  /**
    Over a source with finitely many cursors, the loop goes on for ever if and
    only if, within a bound, it comes to a cursor from which two or more pages
    of which nothing is kept lead back to it.
  */
  lemma EndlessIffCyclic(source: Source, requested: nat, from: Option<Cursor>, bound: nat)
    requires FewCursors(source, bound)
    ensures (forall n: nat :: Loop(source, requested, from, n).Looking?)
      <==> exists n: nat | n <= Horizon(requested, bound) :: EntersEmptyCycle(source, requested, from, n)
  {
    var s := Looking(from, from, []);
    if forall n: nat :: Loop(source, requested, from, n).Looking? {
      forall k: nat ensures Turns(source, requested, s, k).Looking? {
        assert Loop(source, requested, from, k).Looking?;
      }
      var n, m := EndlessCycles(source, requested, s, bound);
      var cursors := CursorsBetween(source, requested, s, n, m, bound);
      assert EntersEmptyCycle(source, requested, from, n);
    }
    if n: nat :| n <= Horizon(requested, bound) && EntersEmptyCycle(source, requested, from, n) {
      EmptyCycleIsEndless(source, requested, from, n);
    }
  }

  lemma EmptyCycleIsEndless(source: Source, requested: nat, from: Option<Cursor>, n: nat)
    requires EntersEmptyCycle(source, requested, from, n)
    ensures forall k: nat :: Loop(source, requested, from, k).Looking?
  {
    var s, t := Looking(from, from, []), Loop(source, requested, from, n);
    var cursors :| EmptyCycle(source, PageSize(requested, t.items), cursors) && t.cursor == Some(cursors[0]);
    AroundTheCycle(source, requested, t.items, cursors, |cursors| - 1);
    forall k: nat ensures Loop(source, requested, from, k).Looking? {
      if k <= n {
        LookingBefore(source, requested, s, k, n);
      } else {
        TurnsAdd(source, requested, s, n, k - n);
        ComesBack(source, requested, t, |cursors| - 1, k - n);
      }
    }
  }

  // --- A source that does not advance --------------------------------------------------------------------------------------

  /** Empty pages whose cursors point to each other. */
  function Alternating(): Source {
    Source((n: nat, c: Option<Cursor>) => Items([], Some(if c == Some(0) then 1 else 0)), (i: Item) => None)
  }

  /** The loop looks out only for the cursor it has just used, so two that alternate keep it going for ever. */
  lemma {:induction false} AlternatingNeverEnds(requested: nat, c: Option<Cursor>, n: nat)
    requires requested >= 1
    ensures Turns(Alternating(), requested, Looking(c, c, []), n).Looking?
    decreases n
  {
    if n > 0 {
      var next: Option<Cursor> := Some(if c == Some(0) then 1 else 0);
      assert Alternating().fetch(1, c).next == next != c;
      assert Turn(Alternating(), requested, Looking(c, c, [])) == Looking(next, next, []);
      AlternatingNeverEnds(requested, next, n - 1);
    }
  }
}
