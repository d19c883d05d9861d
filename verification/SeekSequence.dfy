/**
  Finding the lines of a patch in a file, exactly or more and more leniently.
*/
module SeekSequence {
  import opened Wrappers
  import opened Text

  /** Typographic dashes, quotes and spaces become the plain ones. */
  function Plain(c: char): char {
    if '\U{2010}' <= c <= '\U{2015}' || c == '\U{2212}' then '-'
    else if '\U{2018}' <= c <= '\U{201B}' then '\''
    else if '\U{201C}' <= c <= '\U{201F}' then '"'
    else if c == '\U{00A0}' || '\U{2002}' <= c <= '\U{200A}' || c == '\U{202F}' || c == '\U{205F}' || c == '\U{3000}' then ' '
    else c
  }

  function PlainText(s: string): string {
    seq(|s|, i requires 0 <= i < |s| => Plain(s[i]))
  }

  function Normalise(s: string): string {
    PlainText(Trim(s))
  }

  type Level = k: nat | k <= 3 witness 0

  /** What each of the four passes compares of a line. */
  function Seen(k: Level, line: string): string {
    if k == 0 then line
    else if k == 1 then TrimEnd(line)
    else if k == 2 then Trim(line)
    else Normalise(line)
  }

  function Keys(k: Level, lines: seq<string>): seq<string> {
    seq(|lines|, i requires 0 <= i < |lines| => Seen(k, lines[i]))
  }

  predicate Occurs(hay: seq<string>, needle: seq<string>, i: nat) {
    i + |needle| <= |hay| && hay[i..i + |needle|] == needle
  }

  /** From line `i` on, the lines look like the pattern to this pass. */
  predicate MatchesAt(lines: seq<string>, pattern: seq<string>, i: nat, k: Level) {
    Occurs(Keys(k, lines), Keys(k, pattern), i)
  }

  function FirstOccurrence(hay: seq<string>, needle: seq<string>, from: nat): Option<nat>
    decreases |hay| - from
  {
    if from + |needle| > |hay| then None
    else if Occurs(hay, needle, from) then Some(from)
    else if from == |hay| then None
    else FirstOccurrence(hay, needle, from + 1)
  }

  /** The first match of a pass, at or after a line. */
  function FirstMatch(lines: seq<string>, pattern: seq<string>, from: nat, k: Level): Option<nat> {
    FirstOccurrence(Keys(k, lines), Keys(k, pattern), from)
  }

  /** The first match of the strictest pass that has any. */
  function BestMatch(lines: seq<string>, pattern: seq<string>, from: nat): Option<nat> {
    var exact, ends := FirstMatch(lines, pattern, from, 0), FirstMatch(lines, pattern, from, 1);
    var sides := FirstMatch(lines, pattern, from, 2);
    if exact.Some? then exact
    else if ends.Some? then ends
    else if sides.Some? then sides
    else FirstMatch(lines, pattern, from, 3)
  }

  /** Where the search begins: for a pattern meant for the end of the file, only the end. */
  function SearchStart(lines: seq<string>, pattern: seq<string>, start: nat, eof: bool): nat {
    if eof && |pattern| <= |lines| then |lines| - |pattern| else start
  }

  // --- The search ------------------------------------------------------------------------------------------

  /** One pass. */
  method Pass(lines: seq<string>, pattern: seq<string>, from: nat, k: Level) returns (r: Option<nat>)
    requires |pattern| <= |lines|
    ensures r == FirstMatch(lines, pattern, from, k)
  {
    ghost var hay, needle := Keys(k, lines), Keys(k, pattern);
    var i := from;
    while i <= |lines| - |pattern|
      invariant from <= i
      invariant FirstOccurrence(hay, needle, from) == FirstOccurrence(hay, needle, i)
      decreases |lines| - i
    {
      var ok := SameLines(lines, pattern, i, k);
      if ok {
        return Some(i);
      }
      i := i + 1;
    }
    return None;
  }

  /** The inner loop of a pass. */
  method SameLines(lines: seq<string>, pattern: seq<string>, i: nat, k: Level) returns (ok: bool)
    requires i + |pattern| <= |lines|
    ensures ok == Occurs(Keys(k, lines), Keys(k, pattern), i)
  {
    ghost var window, needle := Keys(k, lines)[i..i + |pattern|], Keys(k, pattern);
    ok := true;
    for j := 0 to |pattern|
      invariant ok
      invariant forall l | 0 <= l < j :: window[l] == needle[l]
    {
      assert window[j] == Seen(k, lines[i + j]) && needle[j] == Seen(k, pattern[j]);
      if Seen(k, lines[i + j]) != Seen(k, pattern[j]) {
        ok := false;
        break;
      }
    }
    assert ok ==> window == needle;
  }

  /** `seek_sequence` */
  method Seek(lines: seq<string>, pattern: seq<string>, start: nat, eof: bool) returns (r: Option<nat>)
    ensures pattern == [] ==> r == Some(start)
    ensures pattern != [] && |pattern| > |lines| ==> r == None
    ensures pattern != [] && |pattern| <= |lines| ==> r == BestMatch(lines, pattern, SearchStart(lines, pattern, start, eof))
  {
    if pattern == [] {
      return Some(start);
    }
    if |pattern| > |lines| {
      return None;
    }
    var searchStart := if eof && |lines| >= |pattern| then |lines| - |pattern| else start;
    r := Pass(lines, pattern, searchStart, 0);
    if r.Some? {
      return;
    }
    r := Pass(lines, pattern, searchStart, 1);
    if r.Some? {
      return;
    }
    r := Pass(lines, pattern, searchStart, 2);
    if r.Some? {
      return;
    }
    r := Pass(lines, pattern, searchStart, 3);
  }

  // --- What is found ---------------------------------------------------------------------------------------------

  ghost predicate IsFirst(hay: seq<string>, needle: seq<string>, from: nat, r: Option<nat>) {
    && (r.Some? ==> from <= r.value && Occurs(hay, needle, r.value) && forall i: nat | from <= i < r.value :: !Occurs(hay, needle, i))
    && (r.None? ==> forall i: nat | from <= i :: !Occurs(hay, needle, i))
  }

  lemma {:induction false} FirstOccurrenceIsFirst(hay: seq<string>, needle: seq<string>, from: nat)
    ensures IsFirst(hay, needle, from, FirstOccurrence(hay, needle, from))
    decreases |hay| - from
  {
    if from + |needle| <= |hay| && !Occurs(hay, needle, from) && from != |hay| {
      FirstOccurrenceIsFirst(hay, needle, from + 1);
    }
  }

  /** Each pass finds whatever the stricter ones find. */
  lemma MoreLenient(lines: seq<string>, pattern: seq<string>, i: nat, k: Level, l: Level)
    requires k <= l && MatchesAt(lines, pattern, i, k)
    ensures MatchesAt(lines, pattern, i, l)
  {
    var hay, needle := Keys(l, lines), Keys(l, pattern);
    forall j | 0 <= j < |pattern| ensures hay[i..i + |pattern|][j] == needle[j] {
      assert Keys(k, lines)[i..i + |pattern|][j] == Keys(k, pattern)[j];
      SeenMore(k, l, lines[i + j], pattern[j]);
    }
  }

  lemma SeenMore(k: Level, l: Level, a: string, b: string)
    requires k <= l && Seen(k, a) == Seen(k, b)
    ensures Seen(l, a) == Seen(l, b)
  {
  }

  /** This is the least index, from `from` on, at the strictest level that has a match there. */
  ghost predicate IsBest(lines: seq<string>, pattern: seq<string>, from: nat, i: nat, k: Level) {
    && from <= i && MatchesAt(lines, pattern, i, k)
    && (forall j: nat | from <= j < i :: !MatchesAt(lines, pattern, j, k))
    && (forall j: nat, l: Level | from <= j && l < k :: !MatchesAt(lines, pattern, j, l))
  }

  lemma BestOfLevel(lines: seq<string>, pattern: seq<string>, from: nat, i: nat, k: Level)
    requires FirstMatch(lines, pattern, from, k) == Some(i)
    requires forall l: Level | l < k :: FirstMatch(lines, pattern, from, l).None?
    ensures IsBest(lines, pattern, from, i, k)
    ensures i + |pattern| <= |lines| && MatchesAt(lines, pattern, i, 3)
  {
    FirstOccurrenceIsFirst(Keys(k, lines), Keys(k, pattern), from);
    forall j: nat, l: Level | from <= j && l < k ensures !MatchesAt(lines, pattern, j, l) {
      FirstOccurrenceIsFirst(Keys(l, lines), Keys(l, pattern), from);
      assert FirstMatch(lines, pattern, from, l).None?;
    }
    MoreLenient(lines, pattern, i, k, 3);
  }

  /** The level at which the search succeeds. */
  lemma LevelOfBest(lines: seq<string>, pattern: seq<string>, from: nat) returns (k: Level)
    requires BestMatch(lines, pattern, from).Some?
    ensures IsBest(lines, pattern, from, BestMatch(lines, pattern, from).value, k)
    ensures var i := BestMatch(lines, pattern, from).value;
      from <= i && i + |pattern| <= |lines| && MatchesAt(lines, pattern, i, 3)
  {
    k := if FirstMatch(lines, pattern, from, 0).Some? then 0
         else if FirstMatch(lines, pattern, from, 1).Some? then 1
         else if FirstMatch(lines, pattern, from, 2).Some? then 2 else 3;
    BestOfLevel(lines, pattern, from, BestMatch(lines, pattern, from).value, k);
  }

  /**
    The index found is the least at the strictest level that has a match in
    the window, and lies in the file; nothing is found exactly when not even
    the most lenient level has a match there.
  */
  lemma BestMatchMeaning(lines: seq<string>, pattern: seq<string>, from: nat)
    ensures var r := BestMatch(lines, pattern, from);
      && (r.Some? ==> r.value + |pattern| <= |lines| && exists k: Level :: IsBest(lines, pattern, from, r.value, k))
      && (r.None? <==> forall i: nat | from <= i :: !MatchesAt(lines, pattern, i, 3))
  {
    BestMatchOrNone(lines, pattern, from);
    if BestMatch(lines, pattern, from).Some? {
      var k := LevelOfBest(lines, pattern, from);
    }
  }

  lemma BestMatchOrNone(lines: seq<string>, pattern: seq<string>, from: nat)
    ensures var r := BestMatch(lines, pattern, from);
      && (r.Some? ==> from <= r.value && r.value + |pattern| <= |lines| && MatchesAt(lines, pattern, r.value, 3))
      && (r.None? ==> forall i: nat | from <= i :: !MatchesAt(lines, pattern, i, 3))
  {
    if BestMatch(lines, pattern, from).Some? {
      var k := LevelOfBest(lines, pattern, from);
    } else {
      FirstOccurrenceIsFirst(Keys(3, lines), Keys(3, pattern), from);
    }
  }

  // --- Patterns for the end of the file ------------------------------------------------------------------------------

  /** What the function's comment promises: the end of the file first, and otherwise from `start` on. */
  function Documented(lines: seq<string>, pattern: seq<string>, start: nat, eof: bool): Option<nat>
    requires |pattern| <= |lines|
  {
    var atEnd := BestMatch(lines, pattern, |lines| - |pattern|);
    if eof && atEnd.Some? then atEnd else BestMatch(lines, pattern, start)
  }

  lemma FoundAtEnd(lines: seq<string>, pattern: seq<string>, end: nat)
    requires |pattern| <= |lines| && end == |lines| - |pattern| && BestMatch(lines, pattern, end).Some?
    ensures BestMatch(lines, pattern, end) == Some(end) && MatchesAt(lines, pattern, end, 3)
  {
    var k := LevelOfBest(lines, pattern, end);
  }

  /** At the end of the file there is only one place to match. */
  lemma MatchAtEnd(lines: seq<string>, pattern: seq<string>)
    requires |pattern| <= |lines|
    ensures var end := |lines| - |pattern|;
      BestMatch(lines, pattern, end) == if MatchesAt(lines, pattern, end, 3) then Some(end) else None
  {
    var end := |lines| - |pattern|;
    if BestMatch(lines, pattern, end).Some? {
      FoundAtEnd(lines, pattern, end);
    } else {
      BestMatchOrNone(lines, pattern, end);
      assert !MatchesAt(lines, pattern, end, 3);
    }
  }

  /** The program does what is promised exactly unless the fallback would find something. */
  lemma FallbackIsMissing(lines: seq<string>, pattern: seq<string>, start: nat, eof: bool)
    requires |pattern| <= |lines|
    ensures BestMatch(lines, pattern, SearchStart(lines, pattern, start, eof)) == Documented(lines, pattern, start, eof) <==>
      (!eof || MatchesAt(lines, pattern, |lines| - |pattern|, 3) || forall i: nat | start <= i :: !MatchesAt(lines, pattern, i, 3))
  {
    BestMatchOrNone(lines, pattern, start);
    MatchAtEnd(lines, pattern);
  }

  /** A match is found before `start` exactly when the pattern is meant for the end, matches there, and the end comes first. */
  lemma FoundBeforeStart(lines: seq<string>, pattern: seq<string>, start: nat, eof: bool)
    requires |pattern| <= |lines|
    ensures var r := BestMatch(lines, pattern, SearchStart(lines, pattern, start, eof));
      r.Some? && r.value < start <==> eof && |lines| - |pattern| < start && MatchesAt(lines, pattern, |lines| - |pattern|, 3)
  {
    if eof {
      MatchAtEnd(lines, pattern);
    } else {
      BestMatchOrNone(lines, pattern, start);
    }
  }

  /** A line that is there, but is not the last one: as the end of the file it is not found. */
  lemma NoFallback(line: string, last: string)
    requires Normalise(line) != Normalise(last)
    ensures BestMatch([line, last], [line], SearchStart([line, last], [line], 0, true)) == None
    ensures Documented([line, last], [line], 0, true) == Some(0)
  {
    var lines, pattern := [line, last], [line];
    assert Keys(3, lines)[1..2] == [Normalise(last)] && Keys(3, pattern) == [Normalise(line)];
    assert [Normalise(last)][0] != [Normalise(line)][0];
    MatchAtEnd(lines, pattern);
    assert Keys(0, lines)[0..1] == [line] && Keys(0, pattern) == [line];
    assert FirstMatch(lines, pattern, 0, 0) == Some(0);
  }
}
