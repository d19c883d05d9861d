/**
  The bracket and quote scanner of the TypeScript post-processor, and the two
  searches that run on it: splitting at top-level delimiters and locating the
  top-level brace pair.
*/
module TsScanner {
  import opened Wrappers
  import opened Text

  /** What the scanner knows between two characters. */
  datatype Scan = Scan(brace: nat, bracket: nat, paren: nat, angle: nat, stringDelim: Option<char>, escape: bool) {
    predicate InString() {
      stringDelim.Some?
    }

    predicate TopLevel() {
      brace == 0 && bracket == 0 && paren == 0 && angle == 0
    }

    /** Strings open with a quote, and an escape is only ever pending inside a string. */
    predicate Valid() {
      && (InString() ==> stringDelim.value == '"' || stringDelim.value == '\'')
      && (escape ==> InString())
    }

    /** One more brace open around everything. */
    function Nested(): Scan {
      this.(brace := brace + 1)
    }
  }

  const START := Scan(0, 0, 0, 0, None, false)

  function Closed(depth: nat): nat {
    if depth > 0 then depth - 1 else 0
  }

  function Step(st: Scan, ch: char): Scan {
    if st.InString() then
      if st.escape then st.(escape := false)
      else if ch == '\\' then st.(escape := true)
      else if ch == st.stringDelim.value then st.(stringDelim := None)
      else st
    else
      match ch
      case '"' => st.(stringDelim := Some(ch))
      case '\'' => st.(stringDelim := Some(ch))
      case '{' => st.(brace := st.brace + 1)
      case '}' => st.(brace := Closed(st.brace))
      case '[' => st.(bracket := st.bracket + 1)
      case ']' => st.(bracket := Closed(st.bracket))
      case '(' => st.(paren := st.paren + 1)
      case ')' => st.(paren := Closed(st.paren))
      case '<' => st.(angle := st.angle + 1)
      case '>' => st.(angle := Closed(st.angle))
      case _ => st
  }

  function Run(st: Scan, s: string): Scan
    decreases |s|
  {
    if s == [] then st else Run(Step(st, s[0]), s[1..])
  }

  lemma {:induction false} RunAppend(st: Scan, a: string, b: string)
    ensures Run(st, a + b) == Run(Run(st, a), b)
    decreases |a|
  {
    if a == [] {
      assert a + b == b;
    } else {
      assert (a + b)[1..] == a[1..] + b;
      RunAppend(Step(st, a[0]), a[1..], b);
    }
  }

  lemma {:induction false} RunValid(st: Scan, s: string)
    requires st.Valid()
    ensures Run(st, s).Valid()
    decreases |s|
  {
    if s != [] {
      RunValid(Step(st, s[0]), s[1..]);
    }
  }

  /** The scanner object: one field per thing it tracks, updated character by character. */
  class ScanState {
    var brace: int
    var bracket: int
    var paren: int
    var angle: int
    var stringDelim: Option<char>
    var escape: bool

    ghost predicate Valid()
      reads this
    {
      brace >= 0 && bracket >= 0 && paren >= 0 && angle >= 0
    }

    ghost function View(): Scan
      reads this
      requires Valid()
    {
      Scan(brace, bracket, paren, angle, stringDelim, escape)
    }

    constructor ()
      ensures Valid() && View() == START
    {
      brace, bracket, paren, angle := 0, 0, 0, 0;
      stringDelim, escape := None, false;
    }

    method Observe(ch: char)
      requires Valid()
      modifies this
      ensures Valid() && View() == Step(old(View()), ch)
    {
      if stringDelim.Some? {
        if escape {
          escape := false;
          return;
        }
        if ch == '\\' {
          escape := true;
          return;
        }
        if ch == stringDelim.value {
          stringDelim := None;
        }
        return;
      }
      match ch {
        case '"' => stringDelim := Some(ch);
        case '\'' => stringDelim := Some(ch);
        case '{' => brace := brace + 1;
        case '}' => brace := if brace - 1 > 0 then brace - 1 else 0;
        case '[' => bracket := bracket + 1;
        case ']' => bracket := if bracket - 1 > 0 then bracket - 1 else 0;
        case '(' => paren := paren + 1;
        case ')' => paren := if paren - 1 > 0 then paren - 1 else 0;
        case '<' => angle := angle + 1;
        case '>' => if angle > 0 { angle := angle - 1; }
        case _ =>
      }
    }

    predicate InString()
      reads this
    {
      stringDelim.Some?
    }

    predicate TopLevel()
      reads this
    {
      brace == 0 && bracket == 0 && paren == 0 && angle == 0
    }
  }

  // --- Splitting at top-level delimiters ---------------------------------------------------

  predicate Cuts(st: Scan, ch: char, delimiters: set<char>) {
    !st.InString() && st.TopLevel() && ch in delimiters
  }

  /** The raw pieces between cuts; `current` is the text since the last cut. */
  function Pieces(current: string, rest: string, st: Scan, delimiters: set<char>): seq<string>
    decreases |rest|
  {
    if rest == [] then [current]
    else if Cuts(st, rest[0], delimiters) then
      [current] + Pieces([], rest[1..], Step(st, rest[0]), delimiters)
    else
      Pieces(current + [rest[0]], rest[1..], Step(st, rest[0]), delimiters)
  }

  /** The part a piece leaves, if trimming leaves anything. */
  function Part(piece: string): seq<string> {
    if Trim(piece) == [] then [] else [Trim(piece)]
  }

  function TrimmedParts(pieces: seq<string>): seq<string> {
    if pieces == [] then [] else Part(pieces[0]) + TrimmedParts(pieces[1..])
  }

  function Split(s: string, delimiters: set<char>): seq<string> {
    TrimmedParts(Pieces([], s, START, delimiters))
  }

  lemma TrimmedPartsCons(piece: string, pieces: seq<string>)
    ensures TrimmedParts([piece] + pieces) == Part(piece) + TrimmedParts(pieces)
    ensures TrimmedParts([piece]) == Part(piece)
  {
    assert ([piece] + pieces)[1..] == pieces;
    assert [piece][1..] == [];
  }

  /** The parts still to come when the text from `start` is uncut and `index` is next. */
  function Remaining(input: string, start: nat, index: nat, st: Scan, delimiters: set<char>): seq<string>
    requires start <= index <= |input|
  {
    TrimmedParts(Pieces(input[start..index], input[index..], st, delimiters))
  }

  lemma RemainingStep(input: string, start: nat, index: nat, st: Scan, delimiters: set<char>)
    requires start <= index < |input|
    ensures Remaining(input, start, index, st, delimiters)
         == (if Cuts(st, input[index], delimiters)
            then Part(input[start..index]) + Remaining(input, index + 1, index + 1, Step(st, input[index]), delimiters)
            else Remaining(input, start, index + 1, Step(st, input[index]), delimiters))
  {
    assert input[index..][1..] == input[index + 1..];
    if Cuts(st, input[index], delimiters) {
      assert input[index + 1..index + 1] == [];
      TrimmedPartsCons(input[start..index], Pieces([], input[index + 1..], Step(st, input[index]), delimiters));
    } else {
      assert input[start..index + 1] == input[start..index] + [input[index]];
    }
  }

  /** A cut makes a part of what was uncut; what was split and what remains stay the same together. */
  lemma SplitStep(parts: seq<string>, input: string, start: nat, index: nat, st: Scan, delimiters: set<char>)
    requires start <= index < |input|
    ensures parts + Remaining(input, start, index, st, delimiters) ==
      if Cuts(st, input[index], delimiters)
      then parts + Part(input[start..index]) + Remaining(input, index + 1, index + 1, Step(st, input[index]), delimiters)
      else parts + Remaining(input, start, index + 1, Step(st, input[index]), delimiters)
  {
    RemainingStep(input, start, index, st, delimiters);
    if Cuts(st, input[index], delimiters) {
      Regroup(parts, Part(input[start..index]), Remaining(input, index + 1, index + 1, Step(st, input[index]), delimiters));
    }
  }

  lemma RemainingEnd(input: string, start: nat, st: Scan, delimiters: set<char>)
    requires start <= |input|
    ensures Remaining(input, start, |input|, st, delimiters) == Part(input[start..])
  {
    assert input[start..|input|] == input[start..];
    TrimmedPartsCons(input[start..], []);
    assert [input[start..]] + [] == [input[start..]];
  }

  lemma Regroup<T>(a: seq<T>, b: seq<T>, c: seq<T>)
    ensures a + (b + c) == (a + b) + c
  {
  }

  /** `split_top_level_multi`: one pass, with the start of the running part as loop state. */
  method SplitTopLevelMulti(input: string, delimiters: set<char>) returns (parts: seq<string>)
    ensures parts == Split(input, delimiters)
  {
    var state := new ScanState();
    var start := 0;
    parts := [];
    assert input[0..0] == [] && input[0..] == input;
    for index := 0 to |input|
      invariant fresh(state) && state.Valid()
      invariant 0 <= start <= index
      invariant parts + Remaining(input, start, index, state.View(), delimiters) == Split(input, delimiters)
    {
      var ch := input[index];
      SplitStep(parts, input, start, index, state.View(), delimiters);
      if !state.InString() && state.TopLevel() && ch in delimiters {
        parts := WithPart(parts, input[start..index]);
        start := index + 1;
      }
      state.Observe(ch);
    }
    RemainingEnd(input, start, state.View(), delimiters);
    parts := WithPart(parts, input[start..]);
  }

  method WithPart(parts: seq<string>, piece: string) returns (more: seq<string>)
    ensures more == parts + Part(piece)
  {
    var part := Trim(piece);
    more := if part != [] then parts + [part] else parts;
  }

  // --- What a part is ------------------------------------------------------------------------

  /** Scanning `s` from `st` meets no cut. */
  predicate NoCut(st: Scan, s: string, delimiters: set<char>)
    decreases |s|
  {
    s == [] || (!Cuts(st, s[0], delimiters) && NoCut(Step(st, s[0]), s[1..], delimiters))
  }

  /** A delimiter the scanner itself pays no attention to: not white, not a quote, not a bracket that opens. */
  predicate Neutral(delimiters: set<char>) {
    forall d | d in delimiters :: !IsWhite(d) && Step(START, d) == START
  }

  /** A part on its own: not empty, trimmed, and not splittable any further. */
  predicate Atom(p: string, delimiters: set<char>) {
    p != [] && Trimmed(p) && NoCut(START, p, delimiters)
  }

  /** Scanning the whole part leaves every bracket and string closed. */
  predicate Balanced(p: string) {
    Run(START, p) == START
  }

  /** Atoms of which all but the last are balanced: what splitting yields. */
  predicate WellSplit(parts: seq<string>, delimiters: set<char>) {
    && (forall i | 0 <= i < |parts| :: Atom(parts[i], delimiters))
    && (forall i | 0 <= i < |parts| - 1 :: Balanced(parts[i]))
  }

  /** A separator that contains one delimiter with white space around it, like " | " or ", ". */
  predicate Separator(sep: string, delimiters: set<char>) {
    exists k | 0 <= k < |sep| :: sep[k] in delimiters && AllWhite(sep[..k]) && AllWhite(sep[k + 1..])
  }

  lemma {:induction false} NoCutAppend(st: Scan, a: string, b: string, delimiters: set<char>)
    ensures NoCut(st, a + b, delimiters) <==> NoCut(st, a, delimiters) && NoCut(Run(st, a), b, delimiters)
    decreases |a|
  {
    if a == [] {
      assert a + b == b;
    } else {
      assert (a + b)[1..] == a[1..] + b;
      NoCutAppend(Step(st, a[0]), a[1..], b, delimiters);
    }
  }

  /** White space outside a string changes nothing. */
  lemma {:induction false} RunWhite(st: Scan, s: string, delimiters: set<char>)
    requires AllWhite(s) && Neutral(delimiters)
    requires !st.InString()
    ensures Run(st, s) == st && NoCut(st, s, delimiters)
    decreases |s|
  {
    if s != [] {
      assert Step(st, s[0]) == st;
      RunWhite(st, s[1..], delimiters);
    }
  }

  /** White space never closes a string, so a scan that ends outside one was outside before it. */
  lemma {:induction false} RunWhiteBack(st: Scan, s: string)
    requires AllWhite(s) && st.Valid()
    requires !Run(st, s).InString()
    ensures Run(st, s) == st
    decreases |s|
  {
    if st.InString() {
      WhiteKeepsString(st, s);
      assert false;
    } else if s != [] {
      assert Step(st, s[0]) == st;
      RunWhiteBack(st, s[1..]);
    }
  }

  lemma {:induction false} WhiteKeepsString(st: Scan, s: string)
    requires AllWhite(s) && st.InString() && !IsWhite(st.stringDelim.value)
    ensures Run(st, s).InString()
    decreases |s|
  {
    if s != [] {
      WhiteKeepsString(Step(st, s[0]), s[1..]);
    }
  }

  // --- Splitting and rejoining ---------------------------------------------------------------

  lemma {:induction false} PiecesSkip(current: string, p: string, rest: string, st: Scan, delimiters: set<char>)
    requires NoCut(st, p, delimiters)
    ensures Pieces(current, p + rest, st, delimiters) == Pieces(current + p, rest, Run(st, p), delimiters)
    decreases |p|
  {
    if p == [] {
      assert p + rest == rest && current + p == current;
    } else {
      assert (p + rest)[1..] == p[1..] + rest;
      assert current + [p[0]] + p[1..] == current + p;
      PiecesSkip(current + [p[0]], p[1..], rest, Step(st, p[0]), delimiters);
    }
  }

  /** Trimming a piece that has no cut inside gives an atom, balanced if the piece was. */
  lemma TrimmedIsAtom(piece: string, delimiters: set<char>)
    requires Neutral(delimiters) && NoCut(START, piece, delimiters)
    ensures Trim(piece) != [] ==> Atom(Trim(piece), delimiters)
    ensures Run(START, piece) == START ==> Balanced(Trim(piece))
  {
    var before, after := TrimParts(piece);
    var p := Trim(piece);
    NoCutAppend(START, before + p, after, delimiters);
    NoCutAppend(START, before, p, delimiters);
    RunAppend(START, before + p, after);
    RunAppend(START, before, p);
    RunWhite(START, before, delimiters);
    RunValid(START, p);
    if Run(START, piece) == START {
      RunWhiteBack(Run(START, p), after);
    }
  }

  /** The piece before a cut, in front of parts that are already well split. */
  lemma PartWellSplit(piece: string, parts: seq<string>, delimiters: set<char>)
    requires Neutral(delimiters) && NoCut(START, piece, delimiters)
    requires parts == [] || Run(START, piece) == START
    requires WellSplit(parts, delimiters)
    ensures WellSplit(Part(piece) + parts, delimiters)
  {
    TrimmedIsAtom(piece, delimiters);
  }

  lemma {:induction false} PiecesWellSplit(current: string, rest: string, st: Scan, delimiters: set<char>)
    requires Neutral(delimiters)
    requires NoCut(START, current, delimiters) && Run(START, current) == st
    ensures WellSplit(TrimmedParts(Pieces(current, rest, st, delimiters)), delimiters)
    decreases |rest|
  {
    if rest == [] {
      TrimmedPartsCons(current, []);
      PartWellSplit(current, [], delimiters);
      assert Part(current) + [] == Part(current);
    } else if Cuts(st, rest[0], delimiters) {
      RunValid(START, current);
      var pieces := Pieces([], rest[1..], START, delimiters);
      PiecesWellSplit([], rest[1..], START, delimiters);
      PartWellSplit(current, TrimmedParts(pieces), delimiters);
      TrimmedPartsCons(current, pieces);
    } else {
      NoCutAppend(START, current, [rest[0]], delimiters);
      RunAppend(START, current, [rest[0]]);
      PiecesWellSplit(current + [rest[0]], rest[1..], Step(st, rest[0]), delimiters);
    }
  }

  /** Whatever the text, splitting it yields atoms of which all but the last are balanced. */
  lemma SplitIsWellSplit(s: string, delimiters: set<char>)
    requires Neutral(delimiters)
    ensures WellSplit(Split(s, delimiters), delimiters)
  {
    PiecesWellSplit([], s, START, delimiters);
  }

  /** The pieces with the characters between them. */
  function Woven(pieces: seq<string>, cuts: string): string
    requires |pieces| == |cuts| + 1
  {
    if cuts == [] then pieces[0] else pieces[0] + [cuts[0]] + Woven(pieces[1..], cuts[1..])
  }

  /** Pieces that a splitter must not cut further, each but the last ending at the top level. */
  predicate Uncut(pieces: seq<string>, delimiters: set<char>) {
    && (forall i | 0 <= i < |pieces| :: NoCut(START, pieces[i], delimiters))
    && (forall i | 0 <= i < |pieces| - 1 :: Run(START, pieces[i]) == START)
  }

  lemma {:induction false} PiecesCover(current: string, rest: string, st: Scan, delimiters: set<char>) returns (cuts: string)
    requires Neutral(delimiters)
    requires NoCut(START, current, delimiters) && Run(START, current) == st
    ensures var pieces := Pieces(current, rest, st, delimiters);
      && |pieces| == |cuts| + 1 && Woven(pieces, cuts) == current + rest && Uncut(pieces, delimiters)
      && forall i | 0 <= i < |cuts| :: cuts[i] in delimiters
    decreases |rest|
  {
    if rest == [] {
      cuts := [];
      assert current + rest == current;
    } else if Cuts(st, rest[0], delimiters) {
      RunValid(START, current);
      var more := PiecesCover([], rest[1..], START, delimiters);
      var later := Pieces([], rest[1..], START, delimiters);
      cuts := [rest[0]] + more;
      assert cuts[1..] == more && ([current] + later)[1..] == later;
      assert [] + rest[1..] == rest[1..];
      assert current + [rest[0]] + rest[1..] == current + rest;
    } else {
      NoCutAppend(START, current, [rest[0]], delimiters);
      RunAppend(START, current, [rest[0]]);
      cuts := PiecesCover(current + [rest[0]], rest[1..], Step(st, rest[0]), delimiters);
      assert current + [rest[0]] + rest[1..] == current + rest;
    }
  }

  /**
    Nothing of the text is lost: it is a sequence of uncut pieces with
    delimiters between them, and its parts are what trimming leaves of those.
  */
  lemma SplitCoversText(s: string, delimiters: set<char>) returns (pieces: seq<string>, cuts: string)
    requires Neutral(delimiters)
    ensures |pieces| == |cuts| + 1 && Woven(pieces, cuts) == s && Uncut(pieces, delimiters)
    ensures forall i | 0 <= i < |cuts| :: cuts[i] in delimiters
    ensures Split(s, delimiters) == TrimmedParts(pieces)
  {
    pieces := Pieces([], s, START, delimiters);
    cuts := PiecesCover([], s, START, delimiters);
    assert [] + s == s;
  }

  /** There is no other way to cut a text into such pieces. */
  lemma {:induction false} OnlyPieces(pieces: seq<string>, cuts: string, delimiters: set<char>)
    requires Neutral(delimiters) && |pieces| == |cuts| + 1 && Uncut(pieces, delimiters)
    requires forall i | 0 <= i < |cuts| :: cuts[i] in delimiters
    ensures Pieces([], Woven(pieces, cuts), START, delimiters) == pieces
    decreases |cuts|
  {
    var p := pieces[0];
    assert [] + p == p;
    if cuts == [] {
      assert p + [] == p;
      PiecesSkip([], p, [], START, delimiters);
    } else {
      var rest := Woven(pieces[1..], cuts[1..]);
      var tail := [cuts[0]] + rest;
      assert Woven(pieces, cuts) == p + tail;
      PiecesSkip([], p, tail, START, delimiters);
      assert tail[1..] == rest;
      assert forall i | 0 <= i < |pieces[1..]| :: pieces[1..][i] == pieces[i + 1];
      assert forall i | 0 <= i < |cuts[1..]| :: cuts[1..][i] == cuts[i + 1];
      OnlyPieces(pieces[1..], cuts[1..], delimiters);
    }
  }

  /** A balanced atom in front of a separator is the first part; the scan goes on as if at the start. */
  lemma SplitFirst(lead: string, p: string, sep: string, rest: string, delimiters: set<char>) returns (b: string)
    requires Neutral(delimiters) && Separator(sep, delimiters) && AllWhite(lead)
    requires Atom(p, delimiters) && Balanced(p)
    ensures AllWhite(b)
    ensures TrimmedParts(Pieces(lead, p + sep + rest, START, delimiters))
         == [p] + TrimmedParts(Pieces(b, rest, START, delimiters))
  {
    var k :| 0 <= k < |sep| && sep[k] in delimiters && AllWhite(sep[..k]) && AllWhite(sep[k + 1..]);
    var a, d := sep[..k], sep[k];
    b := sep[k + 1..];
    var tail := [d] + (b + rest);
    assert p + sep + rest == p + (a + tail);
    PiecesSkip(lead, p, a + tail, START, delimiters);
    RunWhite(START, a, delimiters);
    PiecesSkip(lead + p, a, tail, START, delimiters);
    assert tail[1..] == b + rest;
    RunWhite(START, b, delimiters);
    PiecesSkip([], b, rest, START, delimiters);
    assert [] + b == b;
    TrimOfPadded(lead, p, a);
    TrimmedPartsCons(lead + p + a, Pieces([], b + rest, START, delimiters));
  }

  lemma {:induction false} SplitOfJoinFrom(lead: string, parts: seq<string>, sep: string, delimiters: set<char>)
    requires Neutral(delimiters) && Separator(sep, delimiters) && AllWhite(lead)
    requires WellSplit(parts, delimiters)
    ensures TrimmedParts(Pieces(lead, Join(parts, sep), START, delimiters)) == parts
    decreases |parts|
  {
    if parts == [] {
      assert lead + [] + [] == lead;
      TrimOfPadded(lead, [], []);
      TrimmedPartsCons(lead, []);
    } else if |parts| == 1 {
      var p := parts[0];
      assert p + [] == p && lead + p + [] == lead + p;
      PiecesSkip(lead, p, [], START, delimiters);
      TrimOfPadded(lead, p, []);
      TrimmedPartsCons(lead + p, []);
    } else {
      var b := SplitFirst(lead, parts[0], sep, Join(parts[1..], sep), delimiters);
      SplitOfJoinFrom(b, parts[1..], sep, delimiters);
    }
  }

  /** A list of parts survives joining and splitting exactly when it is a list that splitting can yield. */
  lemma JoinThenSplit(parts: seq<string>, sep: string, delimiters: set<char>)
    requires Neutral(delimiters) && Separator(sep, delimiters)
    ensures Split(Join(parts, sep), delimiters) == parts <==> WellSplit(parts, delimiters)
  {
    SplitIsWellSplit(Join(parts, sep), delimiters);
    if WellSplit(parts, delimiters) {
      SplitOfJoinFrom([], parts, sep, delimiters);
    }
  }

  /** `kept` is `parts` with some elements left out, order preserved. */
  predicate Subsequence<T(==)>(kept: seq<T>, parts: seq<T>) {
    || kept == []
    || (parts != [] && kept[0] == parts[0] && Subsequence(kept[1..], parts[1..]))
    || (parts != [] && Subsequence(kept, parts[1..]))
  }

  lemma {:induction false} SubsequenceWellSplit(kept: seq<string>, parts: seq<string>, delimiters: set<char>)
    requires Subsequence(kept, parts) && WellSplit(parts, delimiters)
    ensures WellSplit(kept, delimiters)
    decreases |parts|
  {
    if kept != [] {
      var rest := parts[1..];
      assert forall i | 0 <= i < |rest| :: rest[i] == parts[i + 1];
      if kept[0] == parts[0] && Subsequence(kept[1..], rest) {
        SubsequenceWellSplit(kept[1..], rest, delimiters);
        if |kept| > 1 {
          SubsequenceShorter(kept[1..], rest);
        }
        assert forall i | 1 <= i < |kept| :: kept[i] == kept[1..][i - 1];
      } else {
        SubsequenceWellSplit(kept, rest, delimiters);
      }
    }
  }

  lemma {:induction false} SubsequenceShorter<T>(kept: seq<T>, parts: seq<T>)
    requires Subsequence(kept, parts)
    ensures |kept| <= |parts|
    decreases |parts|
  {
    if kept != [] {
      if kept[0] == parts[0] && Subsequence(kept[1..], parts[1..]) {
        SubsequenceShorter(kept[1..], parts[1..]);
      } else {
        SubsequenceShorter(kept, parts[1..]);
      }
    }
  }

  /**
    Split any text, keep any of the parts in order, join them again and split
    again: exactly the kept parts come back.
  */
  lemma SplitKeepJoinSplit(s: string, kept: seq<string>, sep: string, delimiters: set<char>)
    requires Neutral(delimiters) && Separator(sep, delimiters)
    requires Subsequence(kept, Split(s, delimiters))
    ensures Split(Join(kept, sep), delimiters) == kept
  {
    SplitIsWellSplit(s, delimiters);
    SubsequenceWellSplit(kept, Split(s, delimiters), delimiters);
    JoinThenSplit(kept, sep, delimiters);
  }

  // --- The top-level brace pair ----------------------------------------------------------------

  /** Where a brace pair was found. */
  datatype Span = Span(open: nat, close: nat)

  predicate OpensAtTop(st: Scan, ch: char) {
    !st.InString() && ch == '{' && st.TopLevel()
  }

  /** `ch` was a closing brace outside any string and left nothing open. */
  predicate ClosesToTop(st: Scan, ch: char) {
    !Step(st, ch).InString() && ch == '}' && Step(st, ch).TopLevel()
  }

  /** The scan of `find_top_level_brace_span` from `index` on, with the latest opening brace so far. */
  function SpanFrom(s: string, index: nat, st: Scan, open: Option<nat>): (r: Option<Span>)
    requires index <= |s| && (open.Some? ==> open.value < index)
    ensures r.Some? ==> r.value.open < r.value.close < |s|
    decreases |s| - index
  {
    if index == |s| then None
    else
      var open' := if OpensAtTop(st, s[index]) then Some(index) else open;
      if ClosesToTop(st, s[index]) && open'.Some? then Some(Span(open'.value, index))
      else SpanFrom(s, index + 1, Step(st, s[index]), open')
  }

  function BraceSpan(s: string): (r: Option<Span>)
    ensures r.Some? ==> r.value.open < r.value.close < |s|
  {
    SpanFrom(s, 0, START, None)
  }

  method FindTopLevelBraceSpan(input: string) returns (span: Option<Span>)
    ensures span == BraceSpan(input)
  {
    var state := new ScanState();
    var openIndex: Option<nat> := None;
    for index := 0 to |input|
      invariant fresh(state) && state.Valid()
      invariant openIndex.Some? ==> openIndex.value < index
      invariant SpanFrom(input, index, state.View(), openIndex) == BraceSpan(input)
    {
      var ch := input[index];
      if !state.InString() && ch == '{' && state.TopLevel() {
        openIndex := Some(index);
      }
      state.Observe(ch);
      if !state.InString() && ch == '}' && state.TopLevel() && openIndex.Some? {
        return Some(Span(openIndex.value, index));
      }
    }
    return None;
  }

  /** The scanner's state in front of position `i`. */
  ghost function At(s: string, i: nat): Scan
    requires i <= |s|
  {
    Run(START, s[..i])
  }

  lemma AtNext(s: string, i: nat)
    requires i < |s|
    ensures At(s, i + 1) == Step(At(s, i), s[i])
  {
    assert s[..i + 1] == s[..i] + [s[i]];
    RunAppend(START, s[..i], [s[i]]);
  }

  /** `i` is a brace that opens at top level. */
  ghost predicate OpenAt(s: string, i: nat) {
    i < |s| && OpensAtTop(At(s, i), s[i])
  }

  /** `i` is a closing brace outside strings that leaves nothing open. */
  ghost predicate CloseAt(s: string, i: nat) {
    i < |s| && ClosesToTop(At(s, i), s[i])
  }

  /** The last top-level opening brace before the first closing brace back at top level that has one before it. */
  ghost predicate IsBraceSpan(s: string, open: nat, close: nat) {
    && open < close
    && OpenAt(s, open) && CloseAt(s, close)
    && (forall j | open < j <= close :: !OpenAt(s, j))
    && (forall i, j | 0 <= i < j < close && OpenAt(s, i) :: !CloseAt(s, j))
  }

  lemma {:induction false} SpanFromMeaning(s: string, index: nat, open: Option<nat>)
    requires index <= |s|
    requires open.Some? ==> open.value < index && OpenAt(s, open.value) && forall j | open.value < j < index :: !OpenAt(s, j)
    requires open.None? ==> forall j | 0 <= j < index :: !OpenAt(s, j)
    requires forall i, j | 0 <= i < j < index && OpenAt(s, i) :: !CloseAt(s, j)
    ensures forall o: nat, c: nat :: SpanFrom(s, index, At(s, index), open) == Some(Span(o, c)) ==> IsBraceSpan(s, o, c)
    ensures SpanFrom(s, index, At(s, index), open).None? ==> forall i, j | 0 <= i < j && OpenAt(s, i) :: !CloseAt(s, j)
    decreases |s| - index
  {
    if index < |s| {
      AtNext(s, index);
      var open' := if OpenAt(s, index) then Some(index) else open;
      if !(CloseAt(s, index) && open'.Some?) {
        SpanFromMeaning(s, index + 1, open');
      }
    }
  }

  lemma BraceSpanUnique(s: string, o1: nat, c1: nat, o2: nat, c2: nat)
    requires IsBraceSpan(s, o1, c1) && IsBraceSpan(s, o2, c2)
    ensures o1 == o2 && c1 == c2
  {
    if c1 != c2 {
      assert false;
    }
  }

  /** The search finds exactly the brace pair described by `IsBraceSpan`, and finds it whenever there is one. */
  lemma BraceSpanMeaning(s: string, open: nat, close: nat)
    ensures BraceSpan(s) == Some(Span(open, close)) <==> IsBraceSpan(s, open, close)
  {
    assert At(s, 0) == START;
    SpanFromMeaning(s, 0, None);
    if IsBraceSpan(s, open, close) {
      var span := BraceSpan(s).value;
      BraceSpanUnique(s, open, close, span.open, span.close);
    }
  }

  // --- Replacing what is between the braces -----------------------------------------------------

  /** Scanning `s` from `st` never meets a closing brace while no brace is open. */
  predicate OpensItsBraces(st: Scan, s: string)
    decreases |s|
  {
    s == [] || (!(!st.InString() && s[0] == '}' && st.brace == 0) && OpensItsBraces(Step(st, s[0]), s[1..]))
  }

  lemma {:induction false} OpensItsBracesAppend(st: Scan, a: string, b: string)
    ensures OpensItsBraces(st, a + b) <==> OpensItsBraces(st, a) && OpensItsBraces(Run(st, a), b)
    decreases |a|
  {
    if a == [] {
      assert a + b == b;
    } else {
      assert (a + b)[1..] == a[1..] + b;
      OpensItsBracesAppend(Step(st, a[0]), a[1..], b);
    }
  }

  /** Inside one more brace the scan runs the same, one brace deeper. */
  lemma {:induction false} RunNested(st: Scan, s: string)
    requires OpensItsBraces(st, s)
    ensures Run(st.Nested(), s) == Run(st, s).Nested()
    decreases |s|
  {
    if s != [] {
      assert Step(st.Nested(), s[0]) == Step(st, s[0]).Nested();
      RunNested(Step(st, s[0]), s[1..]);
    }
  }

  lemma {:induction false} RunRest(s: string, open: nat, k: nat)
    requires open + 1 + k <= |s| && OpenAt(s, open)
    requires OpensItsBraces(START, s[open + 1..open + 1 + k])
    ensures At(s, open) == START
    ensures At(s, open + 1 + k) == Run(START, s[open + 1..open + 1 + k]).Nested()
  {
    RunValid(START, s[..open]);
    AtNext(s, open);
    var inner := s[open + 1..open + 1 + k];
    assert s[..open + 1 + k] == s[..open + 1] + inner;
    RunAppend(START, s[..open + 1], inner);
    RunNested(START, inner);
  }

  /** What stands between the braces found is balanced, unless a brace closes before it opens. */
  lemma InnerBalanced(s: string, open: nat, close: nat)
    requires IsBraceSpan(s, open, close)
    requires OpensItsBraces(START, s[open + 1..close])
    ensures Run(START, s[open + 1..close]) == START
  {
    RunRest(s, open, close - open - 1);
    RunValid(START, s[open + 1..close]);
  }

  /** Two texts with a common front are scanned alike over that front. */
  lemma AtPrefix(s: string, t: string, n: nat, i: nat)
    requires i <= n <= |s| && n <= |t| && s[..n] == t[..n]
    ensures At(s, i) == At(t, i)
    ensures i < n ==> (OpenAt(s, i) <==> OpenAt(t, i)) && (CloseAt(s, i) <==> CloseAt(t, i))
  {
    assert s[..i] == s[..n][..i] && t[..i] == t[..n][..i];
    if i < n {
      assert s[i] == s[..n][i] && t[i] == t[..n][i];
    }
  }

  /** The text with `body` between the braces. */
  function Replaced(s: string, open: nat, close: nat, body: string): string
    requires open < close < |s|
  {
    s[..open + 1] + body + s[close..]
  }

  lemma ReplacedParts(s: string, open: nat, close: nat, body: string)
    requires open < close < |s|
    ensures var t := Replaced(s, open, close, body); var c := open + 1 + |body|;
      && c < |t|
      && t[..open + 1] == s[..open + 1] && t[open + 1..c] == body && t[c..] == s[close..] && t[c] == s[close]
  {
    var t, c := Replaced(s, open, close, body), open + 1 + |body|;
    assert t[..open + 1] == s[..open + 1];
    assert t[c..] == s[close..];
    assert t[c] == t[c..][0];
  }

  /** What the scan must see of a body behind its opening brace: no other brace that counts, and then its closing brace. */
  predicate StaysInside(st: Scan, s: string)
    decreases |s|
  {
    if s == [] then ClosesToTop(st, '}')
    else !OpensAtTop(st, s[0]) && !ClosesToTop(st, s[0]) && StaysInside(Step(st, s[0]), s[1..])
  }

  ghost predicate QuietBetween(t: string, k: nat, close: nat) {
    forall j | k <= j < close :: !OpenAt(t, j) && !CloseAt(t, j)
  }

  lemma {:induction false} StaysInsideMeaning(t: string, k: nat, close: nat)
    requires k <= close < |t| && t[close] == '}'
    ensures StaysInside(At(t, k), t[k..close]) <==> QuietBetween(t, k, close) && CloseAt(t, close)
    decreases close - k
  {
    if k < close {
      AtNext(t, k);
      StaysInsideMeaning(t, k + 1, close);
      assert t[k..close][0] == t[k] && t[k..close][1..] == t[k + 1..close];
      assert QuietBetween(t, k, close) <==> !OpenAt(t, k) && !CloseAt(t, k) && QuietBetween(t, k + 1, close);
    }
  }

  /** The state behind a brace that opens at top level. */
  lemma BehindOpening(t: string, open: nat)
    requires OpenAt(t, open)
    ensures At(t, open + 1) == START.Nested()
  {
    RunValid(START, t[..open]);
    AtNext(t, open);
  }

  lemma SpanIffQuiet(s: string, t: string, open: nat, close: nat, c: nat)
    requires IsBraceSpan(s, open, close)
    requires open < c < |t| && t[..open + 1] == s[..open + 1] && t[c] == '}'
    ensures IsBraceSpan(t, open, c) <==> QuietBetween(t, open + 1, c) && CloseAt(t, c)
  {
    AtPrefix(s, t, open + 1, open);
    forall i, j | 0 <= i < j <= open && OpenAt(t, i) ensures !CloseAt(t, j) {
      AtPrefix(s, t, open + 1, i);
      AtPrefix(s, t, open + 1, j);
    }
  }

  lemma InsideIff(s: string, t: string, open: nat, close: nat, c: nat, body: string)
    requires IsBraceSpan(s, open, close)
    requires open < c < |t| && t[..open + 1] == s[..open + 1] && t[open + 1..c] == body && t[c] == '}'
    ensures IsBraceSpan(t, open, c) <==> StaysInside(START.Nested(), body)
  {
    SpanIffQuiet(s, t, open, close, c);
    AtPrefix(s, t, open + 1, open);
    BehindOpening(t, open);
    StaysInsideMeaning(t, open + 1, c);
  }

  lemma FoundIff(s: string, t: string, open: nat, close: nat, c: nat, body: string)
    requires BraceSpan(s) == Some(Span(open, close))
    requires open < c < |t| && t[..open + 1] == s[..open + 1] && t[open + 1..c] == body && t[c] == s[close]
    ensures BraceSpan(t) == Some(Span(open, c)) <==> StaysInside(START.Nested(), body)
  {
    BraceSpanMeaning(s, open, close);
    BraceSpanMeaning(t, open, c);
    InsideIff(s, t, open, close, c, body);
  }

  /** Whatever the new body: the same opening brace is found, and a closing one right after the body, exactly if the scan stays inside. */
  lemma FoundAgainIff(s: string, open: nat, close: nat, body: string, t: string, c: nat)
    requires BraceSpan(s) == Some(Span(open, close))
    requires t == Replaced(s, open, close, body) && c == open + 1 + |body|
    ensures BraceSpan(t) == Some(Span(open, c)) <==> StaysInside(START.Nested(), body)
  {
    ReplacedParts(s, open, close, body);
    FoundIff(s, t, open, close, c, body);
  }

  /** The scan stays inside a balanced body that closes no brace it did not open. */
  lemma {:induction false} BalancedStaysInside(st: Scan, s: string)
    requires st.Valid() && OpensItsBraces(st, s) && Run(st, s) == START
    ensures StaysInside(st.Nested(), s)
    decreases |s|
  {
    if s != [] {
      assert Step(st.Nested(), s[0]) == Step(st, s[0]).Nested();
      BalancedStaysInside(Step(st, s[0]), s[1..]);
    }
  }

  /** So around a balanced body the braces are found again. */
  lemma FoundAgain(s: string, open: nat, close: nat, body: string, t: string, c: nat)
    requires BraceSpan(s) == Some(Span(open, close))
    requires OpensItsBraces(START, body) && Run(START, body) == START
    requires t == Replaced(s, open, close, body) && c == open + 1 + |body|
    ensures BraceSpan(t) == Some(Span(open, c))
  {
    BalancedStaysInside(START, body);
    FoundAgainIff(s, open, close, body, t, c);
  }

  lemma FoundBodyBalanced(s: string, open: nat, close: nat)
    requires BraceSpan(s) == Some(Span(open, close))
    requires OpensItsBraces(START, s[open + 1..close])
    ensures Run(START, s[open + 1..close]) == START
  {
    BraceSpanMeaning(s, open, close);
    InnerBalanced(s, open, close);
  }

  /** Parts that are complete fields: balanced, and closing only braces they opened. */
  predicate Fields(parts: seq<string>) {
    forall i | 0 <= i < |parts| :: Balanced(parts[i]) && OpensItsBraces(START, parts[i])
  }

  lemma PartIsField(piece: string, delimiters: set<char>)
    requires Neutral(delimiters) && NoCut(START, piece, delimiters)
    requires OpensItsBraces(START, piece) && Run(START, piece) == START
    ensures Fields(Part(piece))
  {
    TrimmedIsAtom(piece, delimiters);
    var before, after := TrimParts(piece);
    var p := Trim(piece);
    RunWhite(START, before, delimiters);
    OpensItsBracesAppend(START, before + p, after);
    OpensItsBracesAppend(START, before, p);
  }

  lemma {:induction false} PiecesAreFields(current: string, rest: string, st: Scan, delimiters: set<char>)
    requires Neutral(delimiters)
    requires NoCut(START, current, delimiters) && Run(START, current) == st
    requires OpensItsBraces(START, current) && OpensItsBraces(st, rest) && Run(st, rest) == START
    ensures Fields(TrimmedParts(Pieces(current, rest, st, delimiters)))
    decreases |rest|
  {
    if rest == [] {
      TrimmedPartsCons(current, []);
      PartIsField(current, delimiters);
    } else if Cuts(st, rest[0], delimiters) {
      RunValid(START, current);
      PiecesAreFields([], rest[1..], START, delimiters);
      PartIsField(current, delimiters);
      TrimmedPartsCons(current, Pieces([], rest[1..], START, delimiters));
    } else {
      NoCutAppend(START, current, [rest[0]], delimiters);
      RunAppend(START, current, [rest[0]]);
      OpensItsBracesAppend(START, current, [rest[0]]);
      PiecesAreFields(current + [rest[0]], rest[1..], Step(st, rest[0]), delimiters);
    }
  }

  lemma {:induction false} QuietSeparator(sep: string, delimiters: set<char>)
    requires Neutral(delimiters) && Separator(sep, delimiters) && '}' !in delimiters
    ensures Run(START, sep) == START && OpensItsBraces(START, sep)
  {
    var k :| 0 <= k < |sep| && sep[k] in delimiters && AllWhite(sep[..k]) && AllWhite(sep[k + 1..]);
    assert sep == sep[..k] + [sep[k]] + sep[k + 1..];
    WhiteOpensNothing(sep[..k]);
    WhiteOpensNothing(sep[k + 1..]);
    RunWhite(START, sep[..k], delimiters);
    RunWhite(START, sep[k + 1..], delimiters);
    RunAppend(START, sep[..k] + [sep[k]], sep[k + 1..]);
    RunAppend(START, sep[..k], [sep[k]]);
    OpensItsBracesAppend(START, sep[..k] + [sep[k]], sep[k + 1..]);
    OpensItsBracesAppend(START, sep[..k], [sep[k]]);
  }

  lemma {:induction false} WhiteOpensNothing(s: string)
    requires AllWhite(s)
    ensures OpensItsBraces(START, s)
    decreases |s|
  {
    if s != [] {
      assert Step(START, s[0]) == START;
      WhiteOpensNothing(s[1..]);
    }
  }

  lemma {:induction false} JoinOfFields(parts: seq<string>, sep: string, delimiters: set<char>)
    requires Neutral(delimiters) && Separator(sep, delimiters) && '}' !in delimiters
    requires Fields(parts)
    ensures OpensItsBraces(START, Join(parts, sep)) && Run(START, Join(parts, sep)) == START
    decreases |parts|
  {
    if |parts| > 1 {
      var rest := Join(parts[1..], sep);
      JoinOfFields(parts[1..], sep, delimiters);
      QuietSeparator(sep, delimiters);
      RunAppend(START, parts[0] + sep, rest);
      RunAppend(START, parts[0], sep);
      OpensItsBracesAppend(START, parts[0] + sep, rest);
      OpensItsBracesAppend(START, parts[0], sep);
    }
  }

  lemma {:induction false} SubsequenceFields(kept: seq<string>, parts: seq<string>)
    requires Subsequence(kept, parts) && Fields(parts)
    ensures Fields(kept)
    decreases |parts|
  {
    if kept != [] {
      if kept[0] == parts[0] && Subsequence(kept[1..], parts[1..]) {
        SubsequenceFields(kept[1..], parts[1..]);
        assert forall i | 1 <= i < |kept| :: kept[i] == kept[1..][i - 1];
      } else {
        SubsequenceFields(kept, parts[1..]);
      }
    }
  }
}
