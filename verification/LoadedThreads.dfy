/**
  Listing the loaded threads page by page. The cursor is the last identifier
  returned, and the set of threads may change between two pages.
*/
module LoadedThreads {
  import opened Wrappers
  import opened Ordering

  const U32_VALUES := 0x1_0000_0000

  type U32 = n: nat | n < U32_VALUES witness 0

  /** A cursor as the client sends it, once it has been read as an identifier. */
  datatype Cursor = NoCursor | At(id: string) | Unreadable(text: string)

  datatype Reply = Page(data: seq<string>, next: Option<string>) | InvalidCursor(text: string)

  predicate Before(a: string, b: string) {
    StringLe(a, b) && a != b
  }

  ghost predicate Increasing(s: seq<string>) {
    forall i, j | 0 <= i < j < |s| :: Before(s[i], s[j])
  }

  /** How many come up to and including the cursor. */
  function StartAfter(data: seq<string>, cursor: string): (n: nat)
    ensures n <= |data|
  {
    if data == [] || Before(cursor, data[0]) then 0 else 1 + StartAfter(data[1..], cursor)
  }

  /** Without a limit all that is left, as far as its number fits; and at least one. */
  function EffectiveLimit(limit: Option<U32>, total: nat): (n: nat)
    ensures n >= 1
  {
    var n := if limit.Some? then limit.value else total % U32_VALUES;
    if n < 1 then 1 else n
  }

  function PageEnd(total: nat, start: nat, limit: Option<U32>): (end: nat)
    requires start <= total
    ensures start <= end <= total && end - start <= EffectiveLimit(limit, total)
  {
    var n := EffectiveLimit(limit, total);
    if start + n <= total then start + n else total
  }

  function PageFrom(data: seq<string>, start: nat, limit: Option<U32>): Reply
    requires start <= |data|
  {
    var end := PageEnd(|data|, start, limit);
    var page := data[start..end];
    Page(page, if page != [] && end < |data| then Some(page[|page| - 1]) else None)
  }

  function LoadedPage(listed: seq<string>, cursor: Cursor, limit: Option<U32>): Reply {
    if listed == [] then Page([], None)
    else
      var data := Sort(StringLe, listed);
      match cursor
      case NoCursor => PageFrom(data, 0, limit)
      case At(id) => PageFrom(data, StartAfter(data, id), limit)
      case Unreadable(text) => InvalidCursor(text)
  }

  // --- The request -----------------------------------------------------------------------------------------

  lemma StringOrder()
    ensures TotalOrder(StringLe)
  {
    forall a: string, b: string ensures StringLe(a, b) || StringLe(b, a) {
      StringLeTotal(a, b);
    }
    forall a: string, b: string, c: string | StringLe(a, b) && StringLe(b, c) ensures StringLe(a, c) {
      StringLeTransitive(a, b, c);
    }
  }

  lemma BeforeTransitive(a: string, b: string, c: string)
    requires (Before(a, b) && StringLe(b, c)) || (StringLe(a, b) && Before(b, c))
    ensures Before(a, c)
  {
    StringLeTransitive(a, b, c);
    if a == c {
      StringLeAntisymmetric(a, b);
    }
  }

  lemma BeforeOrNot(a: string, b: string)
    ensures Before(a, b) <==> !StringLe(b, a)
  {
    StringLeTotal(a, b);
    if StringLe(a, b) && StringLe(b, a) {
      StringLeAntisymmetric(a, b);
    }
  }

  predicate Distinct(s: seq<string>) {
    forall i, j | 0 <= i < j < |s| :: s[i] != s[j]
  }

  lemma {:induction false} DistinctByContents(s: seq<string>)
    ensures Distinct(s) <==> forall x :: multiset(s)[x] <= 1
  {
    if s != [] {
      var init, last := s[..|s| - 1], s[|s| - 1];
      assert s == init + [last];
      DistinctByContents(init);
      if Distinct(s) {
        assert Distinct(init) && last !in init;
      } else if Distinct(init) {
        var i, j :| 0 <= i < j < |s| && s[i] == s[j];
        assert j == |s| - 1 && init[i] == last;
        assert last in multiset(init);
        assert multiset(s)[last] >= 2;
      } else {
        var x :| multiset(init)[x] > 1;
        assert multiset(s)[x] > 1;
      }
    }
  }

  lemma SortedIds(listed: seq<string>)
    requires Distinct(listed)
    ensures var data := Sort(StringLe, listed);
      Increasing(data) && |data| == |listed| && forall x :: x in data <==> x in listed
  {
    var data := Sort(StringLe, listed);
    StringOrder();
    SortSorts(StringLe, listed);
    SortContents(StringLe, listed);
    DistinctByContents(listed);
    DistinctByContents(data);
    forall x ensures x in data <==> x in listed {
      assert x in data <==> x in multiset(data);
      assert x in listed <==> x in multiset(listed);
    }
    assert |data| == |multiset(data)| && |listed| == |multiset(listed)|;
  }

  lemma {:induction false} StartAfterMeaning(data: seq<string>, cursor: string)
    requires Increasing(data)
    ensures forall i | 0 <= i < |data| :: i < StartAfter(data, cursor) <==> StringLe(data[i], cursor)
  {
    if data != [] {
      BeforeOrNot(cursor, data[0]);
      var rest := data[1..];
      assert forall i | 0 <= i < |rest| :: rest[i] == data[i + 1];
      if Before(cursor, data[0]) {
        forall i | 0 <= i < |data| ensures !StringLe(data[i], cursor) {
          if i > 0 {
            BeforeTransitive(cursor, data[0], data[i]);
          }
          BeforeOrNot(cursor, data[i]);
        }
      } else {
        StartAfterMeaning(rest, cursor);
        forall i | 0 <= i < |data| ensures i < StartAfter(data, cursor) <==> StringLe(data[i], cursor) {
          assert i > 0 ==> data[i] == rest[i - 1];
        }
      }
    }
  }

  /** `binary_search`: the place of the identifier, or the one where it belongs. */
  method BinarySearch(data: seq<string>, key: string) returns (found: bool, at: nat)
    requires Increasing(data)
    ensures found ==> at < |data| && data[at] == key
    ensures !found ==> at <= |data| && (forall i | 0 <= i < at :: Before(data[i], key)) && (forall i | at <= i < |data| :: Before(key, data[i]))
  {
    var low, high := 0, |data|;
    while low < high
      invariant 0 <= low <= high <= |data|
      invariant forall i | 0 <= i < low :: Before(data[i], key)
      invariant forall i | high <= i < |data| :: Before(key, data[i])
    {
      var mid := (low + high) / 2;
      if data[mid] == key {
        return true, mid;
      }
      BeforeOrNot(data[mid], key);
      if StringLe(data[mid], key) {
        forall i | 0 <= i <= mid ensures Before(data[i], key) {
          if i < mid {
            BeforeTransitive(data[i], data[mid], key);
          }
        }
        low := mid + 1;
      } else {
        BeforeOrNot(key, data[mid]);
        forall i | mid <= i < |data| ensures Before(key, data[i]) {
          if mid < i {
            BeforeTransitive(key, data[mid], data[i]);
          }
        }
        high := mid;
      }
    }
    return false, low;
  }

  lemma StartIsUnique(data: seq<string>, cursor: string, start: nat)
    requires Increasing(data) && start <= |data|
    requires forall i | 0 <= i < |data| :: i < start <==> StringLe(data[i], cursor)
    ensures start == StartAfter(data, cursor)
  {
    StartAfterMeaning(data, cursor);
    var n := StartAfter(data, cursor);
    var k := if start < n then start else n;
    assert k < |data| ==> (k < start <==> StringLe(data[k], cursor));
  }

  /** Where the page after this identifier starts. */
  method StartOfPage(data: seq<string>, id: string) returns (start: nat)
    requires Increasing(data)
    ensures start == StartAfter(data, id)
  {
    var found, at := BinarySearch(data, id);
    start := if found then at + 1 else at;
    forall i | 0 <= i < |data| ensures i < start <==> StringLe(data[i], id) {
      BeforeOrNot(id, data[i]);
      if found {
        assert i < at ==> Before(data[i], data[at]);
        assert at < i ==> Before(data[at], data[i]);
      }
    }
    StartIsUnique(data, id, start);
  }

  /** The end of `thread_loaded_list`: cutting the page out. */
  method CutPage(data: seq<string>, start: nat, limit: Option<U32>) returns (r: Reply)
    requires start <= |data|
    ensures r == PageFrom(data, start, limit)
  {
    var total := |data|;
    var effective := if limit.Some? then limit.value else total % U32_VALUES;
    if effective < 1 {
      effective := 1;
    }
    var end := start + effective;
    if end > total {
      end := total;
    }
    var page := data[start..end];
    r := Page(page, if page != [] && end < total then Some(page[|page| - 1]) else None);
  }

  /** `thread_loaded_list` */
  method LoadedList(listed: seq<string>, cursor: Cursor, limit: Option<U32>) returns (r: Reply)
    requires Distinct(listed)
    ensures r == LoadedPage(listed, cursor, limit)
  {
    if listed == [] {
      return Page([], None);
    }
    SortedIds(listed);
    var data := Sort(StringLe, listed);
    match cursor {
      case NoCursor => r := CutPage(data, 0, limit);
      case Unreadable(text) => r := InvalidCursor(text);
      case At(id) =>
        var start := StartOfPage(data, id);
        r := CutPage(data, start, limit);
    }
  }

  // --- One page ------------------------------------------------------------------------------------------------

  function CursorAt(after: Option<string>): Cursor {
    if after.Some? then At(after.value) else NoCursor
  }

  predicate IsAfter(x: string, after: Option<string>) {
    after.Some? ==> Before(after.value, x)
  }

  /** In the sorted list they come behind the others. */
  lemma RemainingAreLast(data: seq<string>, after: Option<string>)
    requires Increasing(data)
    ensures var start := if after.Some? then StartAfter(data, after.value) else 0;
      forall i | 0 <= i < |data| :: start <= i <==> IsAfter(data[i], after)
  {
    if after.Some? {
      StartAfterMeaning(data, after.value);
      forall i | 0 <= i < |data| ensures StartAfter(data, after.value) <= i <==> IsAfter(data[i], after) {
        BeforeOrNot(after.value, data[i]);
      }
    }
  }

  /** A page holds the next identifiers in order, up to the limit; what comes later is after its cursor. */
  lemma PageMeaning(listed: seq<string>, after: Option<string>, limit: Option<U32>)
    requires Distinct(listed)
    ensures var p := LoadedPage(listed, CursorAt(after), limit);
      && p.Page? && Increasing(p.data) && |p.data| <= EffectiveLimit(limit, |listed|)
      && (forall x | x in p.data :: x in listed && IsAfter(x, after))
      && (p.next.Some? ==> p.data != [] && p.next.value == p.data[|p.data| - 1])
      && (forall x | x in listed && IsAfter(x, after) :: x in p.data || (p.next.Some? && Before(p.next.value, x)))
  {
    if listed != [] {
      SortedIds(listed);
      var data := Sort(StringLe, listed);
      var start := if after.Some? then StartAfter(data, after.value) else 0;
      RemainingAreLast(data, after);
      PageFromMeaning(data, start, limit);
      assert LoadedPage(listed, CursorAt(after), limit) == PageFrom(data, start, limit);
      PageOfSorted(listed, data, start, after, PageFrom(data, start, limit));
    }
  }

  lemma PageOfSorted(listed: seq<string>, data: seq<string>, start: nat, after: Option<string>, p: Reply)
    requires p.Page? && start <= |data| && (forall x :: x in data <==> x in listed)
    requires forall i | 0 <= i < |data| :: start <= i <==> IsAfter(data[i], after)
    requires forall x | x in p.data :: exists i | start <= i < |data| :: data[i] == x
    requires forall i | start <= i < |data| :: data[i] in p.data || (p.next.Some? && Before(p.next.value, data[i]))
    ensures forall x | x in p.data :: x in listed && IsAfter(x, after)
    ensures forall x | x in listed && IsAfter(x, after) :: x in p.data || (p.next.Some? && Before(p.next.value, x))
  {
    forall x | x in listed && IsAfter(x, after) ensures x in p.data || (p.next.Some? && Before(p.next.value, x)) {
      var i :| 0 <= i < |data| && data[i] == x;
    }
  }

  lemma PageFromMeaning(data: seq<string>, start: nat, limit: Option<U32>)
    requires Increasing(data) && start <= |data|
    ensures var p := PageFrom(data, start, limit);
      && Increasing(p.data) && |p.data| <= EffectiveLimit(limit, |data|)
      && (forall x | x in p.data :: exists i | start <= i < |data| :: data[i] == x)
      && (p.next.Some? ==> p.data != [] && p.next.value == p.data[|p.data| - 1])
      && (forall i | start <= i < |data| :: data[i] in p.data || (p.next.Some? && Before(p.next.value, data[i])))
  {
    var end, p := PageEnd(|data|, start, limit), PageFrom(data, start, limit);
    assert p.data == data[start..end];
    forall i | start <= i < |data| ensures data[i] in p.data || (p.next.Some? && Before(p.next.value, data[i])) {
      if i < end {
        assert p.data[i - start] == data[i];
      }
    }
  }

  /** The loaded threads that come after the cursor. */
  function Remaining(listed: seq<string>, after: Option<string>): set<string> {
    set x | x in listed && IsAfter(x, after)
  }

  /** How many the client asks for: at least one; without a limit their number, as far as it fits 32 bits. */
  function AskedFor(limit: Option<U32>, total: nat): nat {
    match limit
    case Some(0) => 1
    case Some(n) => n
    case None => if total % U32_VALUES == 0 then 1 else total % U32_VALUES
  }

  lemma {:induction false} DistinctCount(s: seq<string>)
    requires Distinct(s)
    ensures |set x | x in s| == |s|
  {
    if s != [] {
      var init, last := s[..|s| - 1], s[|s| - 1];
      assert s == init + [last];
      DistinctCount(init);
      assert (set x | x in s) == (set x | x in init) + {last};
      assert last !in init;
    }
  }

  lemma LastOnes(data: seq<string>, start: nat, after: Option<string>)
    requires Distinct(data) && start <= |data| && forall i | 0 <= i < |data| :: start <= i <==> IsAfter(data[i], after)
    ensures |Remaining(data, after)| == |data| - start
  {
    var rest := data[start..];
    assert forall i | 0 <= i < |rest| :: rest[i] == data[start + i];
    DistinctCount(rest);
    forall x ensures x in Remaining(data, after) <==> x in rest {
      if x in Remaining(data, after) {
        var i :| 0 <= i < |data| && data[i] == x;
        assert rest[i - start] == x;
      }
    }
    assert Remaining(data, after) == set x | x in rest;
  }

  lemma RemainingCount(listed: seq<string>, after: Option<string>)
    requires Distinct(listed)
    ensures var start := if after.Some? then StartAfter(Sort(StringLe, listed), after.value) else 0;
      |Remaining(listed, after)| == |listed| - start
  {
    var data := Sort(StringLe, listed);
    SortedIds(listed);
    RemainingAreLast(data, after);
    LastOnes(data, if after.Some? then StartAfter(data, after.value) else 0, after);
    assert Remaining(listed, after) == Remaining(data, after);
  }

  /** A page is full: it holds as many as are asked for, or all that remain; there is a cursor exactly if more remain. */
  lemma PageIsFull(listed: seq<string>, after: Option<string>, limit: Option<U32>)
    requires Distinct(listed)
    ensures var p, remaining, most := LoadedPage(listed, CursorAt(after), limit), |Remaining(listed, after)|, AskedFor(limit, |listed|);
      && p.Page? && |p.data| == (if most <= remaining then most else remaining)
      && (p.next.Some? <==> |p.data| < remaining)
  {
    if listed == [] {
      assert Remaining(listed, after) == {};
    } else {
      SortedIds(listed);
      RemainingCount(listed, after);
    }
  }

  /** The request is refused exactly if its cursor cannot be read and there is any thread. */
  lemma RefusedIff(listed: seq<string>, cursor: Cursor, limit: Option<U32>, text: string)
    ensures LoadedPage(listed, cursor, limit) == InvalidCursor(text) <==> listed != [] && cursor == Unreadable(text)
    ensures cursor.Unreadable? && listed == [] ==> LoadedPage(listed, cursor, limit) == Page([], None)
  {
  }

  // --- A client that follows the cursors -----------------------------------------------------------------------------

  /** The threads there are when a page is asked for, and the limit asked for. */
  datatype Visit = Visit(listed: seq<string>, limit: Option<U32>)

  /** The pages a client gets that follows the cursors until there is none. */
  function Browse(visits: seq<Visit>, after: Option<string>): seq<Reply> {
    if visits == [] then []
    else
      var p := LoadedPage(visits[0].listed, CursorAt(after), visits[0].limit);
      [p] + if p.Page? && p.next.Some? then Browse(visits[1..], p.next) else []
  }

  function Returned(pages: seq<Reply>): seq<string> {
    if pages == [] then []
    else (if pages[0].Page? then pages[0].data else []) + Returned(pages[1..])
  }

  /** The client has come past this identifier: it is at the end, or its last cursor is not before it. */
  predicate Passed(pages: seq<Reply>, x: string) {
    pages != [] &&
    var last := pages[|pages| - 1];
    last.Page? && (last.next.Some? ==> StringLe(x, last.next.value))
  }

  lemma ConcatIncreasing(a: seq<string>, b: seq<string>)
    requires Increasing(a) && Increasing(b)
    requires forall x | x in b :: a != [] ==> Before(a[|a| - 1], x)
    ensures Increasing(a + b)
  {
    forall i, j | 0 <= i < j < |a + b| ensures Before((a + b)[i], (a + b)[j]) {
      if i < |a| <= j {
        assert b[j - |a|] in b;
        if i < |a| - 1 {
          BeforeTransitive(a[i], a[|a| - 1], b[j - |a|]);
        }
      }
    }
  }

  /** Returned by the pages, if it was there at each visit and is among those to come. */
  ghost predicate ReturnedIfThere(visits: seq<Visit>, pages: seq<Reply>, after: Option<string>, x: string)
    requires |pages| <= |visits|
  {
    Passed(pages, x) && IsAfter(x, after) && (forall i | 0 <= i < |pages| :: x in visits[i].listed) ==> x in Returned(pages)
  }

  /** What comes after a page's cursor comes after all of the page, and after what the page came after. */
  lemma RestComesAfter(p: Reply, after: Option<string>, rest: seq<string>)
    requires p.Page? && p.next.Some? && p.data != [] && p.next.value == p.data[|p.data| - 1]
    requires forall x | x in p.data :: IsAfter(x, after)
    requires Increasing(p.data) && Increasing(rest) && forall x | x in rest :: IsAfter(x, p.next)
    ensures Increasing(p.data + rest) && forall x | x in rest :: IsAfter(x, after)
  {
    var last := p.next.value;
    assert last in p.data;
    forall x | x in rest ensures Before(last, x) && IsAfter(x, after) {
      assert IsAfter(x, p.next);
      if after.Some? {
        BeforeTransitive(after.value, last, x);
      }
    }
    ConcatIncreasing(p.data, rest);
  }

  /** One more page before the others. */
  lemma OneMorePage(visits: seq<Visit>, after: Option<string>, p: Reply, rest: seq<Reply>, x: string)
    requires visits != [] && Distinct(visits[0].listed) && |rest| < |visits|
    requires p == LoadedPage(visits[0].listed, CursorAt(after), visits[0].limit)
    requires p.Page? && p.next.Some? ==> ReturnedIfThere(visits[1..], rest, p.next, x)
    requires p.Page? && p.next.None? ==> rest == []
    ensures ReturnedIfThere(visits, [p] + rest, after, x)
  {
    var pages := [p] + rest;
    PageMeaning(visits[0].listed, after, visits[0].limit);
    assert pages[1..] == rest;
    if Passed(pages, x) && IsAfter(x, after) && (forall i | 0 <= i < |pages| :: x in visits[i].listed) && x !in p.data {
      assert x in visits[0].listed;
      BeforeOrNot(p.next.value, x);
      assert rest != [] && pages[|pages| - 1] == rest[|rest| - 1];
      forall i | 0 <= i < |rest| ensures x in visits[1..][i].listed {
        assert x in visits[i + 1].listed;
      }
    }
  }

  /**
    However the threads and the limits change between the pages: identifiers
    come in increasing order, so none comes twice; and every thread that was
    there at each visit, and that the client has come past, was returned.
  */
  lemma {:induction false} BrowsingIsComplete(visits: seq<Visit>, after: Option<string>)
    requires forall i | 0 <= i < |visits| :: Distinct(visits[i].listed)
    ensures var pages := Browse(visits, after);
      && |pages| <= |visits|
      && Increasing(Returned(pages))
      && (forall x | x in Returned(pages) :: IsAfter(x, after))
      && (forall x :: ReturnedIfThere(visits, pages, after, x))
    decreases |visits|
  {
    if visits != [] {
      var p := LoadedPage(visits[0].listed, CursorAt(after), visits[0].limit);
      PageMeaning(visits[0].listed, after, visits[0].limit);
      var rest := if p.next.Some? then Browse(visits[1..], p.next) else [];
      assert forall i | 0 <= i < |visits[1..]| :: visits[1..][i] == visits[i + 1];
      if p.next.Some? {
        BrowsingIsComplete(visits[1..], p.next);
        RestComesAfter(p, after, Returned(rest));
      }
      forall x ensures ReturnedIfThere(visits, [p] + rest, after, x) {
        OneMorePage(visits, after, p, rest, x);
      }
      assert ([p] + rest)[1..] == rest;
      assert p.next.None? ==> p.data + Returned(rest) == p.data;
    }
  }
}
