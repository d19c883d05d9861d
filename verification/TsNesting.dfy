/**
  Well-nested texts: characters, string literals, and groups in brackets. The
  scanner passes over each of them and is where it was; it cuts only between
  them.
*/
module TsNesting {
  import opened Wrappers
  import opened Text
  import opened TsScanner
  import opened TsNames
  import opened TsGenerated

  datatype Nest =
    | Mark(c: char)
    | Quote(quote: char, body: string)
    | Group(open: char, inner: seq<Nest>)

  const OPENING: set<char> := {'{', '[', '(', '<'}
  const SPECIAL: set<char> := {'{', '}', '[', ']', '(', ')', '<', '>', '"', '\''}

  function Closing(open: char): char {
    if open == '{' then '}' else if open == '[' then ']' else if open == '(' then ')' else '>'
  }

  /** Plain characters, string literals with their escapes, and brackets of the four kinds around the like. */
  predicate WellFormed(n: Nest) {
    match n
    case Mark(c) => c !in SPECIAL
    case Quote(quote, body) => (quote == '"' || quote == '\'') && Plain(body, quote)
    case Group(open, inner) => open in OPENING && forall i | 0 <= i < |inner| :: WellFormed(inner[i])
  }

  function Written(n: Nest): string
    decreases n, 0
  {
    match n
    case Mark(c) => [c]
    case Quote(quote, body) => [quote] + body + [quote]
    case Group(open, inner) => [open] + AllWritten(inner) + [Closing(open)]
  }

  function AllWritten(nests: seq<Nest>): string
    decreases nests, 0
  {
    if nests == [] then [] else Written(nests[0]) + AllWritten(nests[1..])
  }

  // --- Scanning ------------------------------------------------------------------------------------------

  /** The scan passes over the text, closing nothing that it did not open. */
  predicate Passes(st: Scan, s: string) {
    Run(st, s) == st && OpensItsBraces(st, s)
  }

  lemma PassesAppend(st: Scan, a: string, b: string)
    requires Passes(st, a) && Passes(st, b)
    ensures Passes(st, a + b)
  {
    RunAppend(st, a, b);
    OpensItsBracesAppend(st, a, b);
  }

  lemma {:induction false} PlainStaysInside(st: Scan, s: string, delimiters: set<char>)
    requires st.Valid() && st.InString() && !st.escape && Plain(s, st.stringDelim.value)
    ensures Passes(st, s) && NoCut(st, s, delimiters)
    decreases |s|
  {
    if s != [] {
      if s[0] == '\\' {
        var escaped := Step(st, s[0]);
        assert Step(escaped, s[1]) == st;
        assert s[1..][1..] == s[2..];
        PlainStaysInside(st, s[2..], delimiters);
      } else {
        assert Step(st, s[0]) == st;
        PlainStaysInside(st, s[1..], delimiters);
      }
    }
  }

  lemma QuotePasses(st: Scan, quote: char, body: string, delimiters: set<char>)
    requires st.Valid() && !st.InString() && (quote == '"' || quote == '\'') && Plain(body, quote) && quote !in delimiters
    ensures Passes(st, [quote] + body + [quote]) && NoCut(st, [quote] + body + [quote], delimiters)
  {
    var q: string := [quote];
    var inside := Step(st, quote);
    OneCharacter(st, quote);
    OneCharacter(inside, quote);
    PlainStaysInside(inside, body, delimiters);
    RunAppend(st, q + body, q);
    RunAppend(st, q, body);
    OpensItsBracesAppend(st, q + body, q);
    OpensItsBracesAppend(st, q, body);
    NoCutAppend(st, q + body, q, delimiters);
    NoCutAppend(st, q, body, delimiters);
  }

  lemma {:induction false} NestPasses(st: Scan, n: Nest)
    requires st.Valid() && !st.InString() && WellFormed(n)
    ensures Passes(st, Written(n))
    decreases n, 0
  {
    match n
    case Mark(c) =>
      OneCharacter(st, c);
      assert Step(st, c) == st;
    case Quote(quote, body) => QuotePasses(st, quote, body, {});
    case Group(open, inner) =>
      var below := Step(st, open);
      assert forall i | 0 <= i < |inner| :: WellFormed(inner[i]);
      NestsPass(below, inner);
      OneCharacter(st, open);
      OneCharacter(below, Closing(open));
      RunAppend(st, [open] + AllWritten(inner), [Closing(open)]);
      RunAppend(st, [open], AllWritten(inner));
      OpensItsBracesAppend(st, [open] + AllWritten(inner), [Closing(open)]);
      OpensItsBracesAppend(st, [open], AllWritten(inner));
  }

  /** A well-nested text leaves the scanner where it was. */
  lemma {:induction false} NestsPass(st: Scan, nests: seq<Nest>)
    requires st.Valid() && !st.InString() && forall i | 0 <= i < |nests| :: WellFormed(nests[i])
    ensures Passes(st, AllWritten(nests))
    decreases nests, 1
  {
    if nests != [] {
      var rest := nests[1..];
      assert forall i | 0 <= i < |rest| :: rest[i] == nests[i + 1];
      NestPasses(st, nests[0]);
      NestsPass(st, rest);
      PassesAppend(st, Written(nests[0]), AllWritten(rest));
    }
  }

  /** So well-nested texts may stand wherever the filters ask for complete ones. */
  lemma NestsAreComplete(nests: seq<Nest>)
    requires forall i | 0 <= i < |nests| :: WellFormed(nests[i])
    ensures Complete(AllWritten(nests))
  {
    NestsPass(START, nests);
  }

  // --- Cutting -----------------------------------------------------------------------------------------------

  /** Below the top level nothing is cut. */
  lemma {:induction false} NothingCutBelow(st: Scan, nests: seq<Nest>, delimiters: set<char>)
    requires st.Valid() && !st.InString() && !st.TopLevel() && delimiters !! SPECIAL
    requires forall i | 0 <= i < |nests| :: WellFormed(nests[i])
    ensures NoCut(st, AllWritten(nests), delimiters)
    decreases nests, 1
  {
    if nests != [] {
      var rest := nests[1..];
      assert forall i | 0 <= i < |rest| :: rest[i] == nests[i + 1];
      NothingCutInside(st, nests[0], delimiters);
      NothingCutBelow(st, rest, delimiters);
      NestPasses(st, nests[0]);
      NoCutAppend(st, Written(nests[0]), AllWritten(rest), delimiters);
    }
  }

  /** A delimiter that stands by itself at top level is the only thing that is cut at. */
  lemma {:induction false} NothingCutInside(st: Scan, n: Nest, delimiters: set<char>)
    requires st.Valid() && !st.InString() && delimiters !! SPECIAL && WellFormed(n)
    requires st.TopLevel() ==> !(n.Mark? && n.c in delimiters)
    ensures NoCut(st, Written(n), delimiters)
    decreases n, 0
  {
    match n
    case Mark(c) => OneCharacter(st, c);
    case Quote(quote, body) => QuotePasses(st, quote, body, delimiters);
    case Group(open, inner) =>
      var below := Step(st, open);
      assert forall i | 0 <= i < |inner| :: WellFormed(inner[i]);
      NothingCutBelow(below, inner, delimiters);
      NestsPass(below, inner);
      OneCharacter(st, open);
      OneCharacter(below, Closing(open));
      RunAppend(st, [open], AllWritten(inner));
      NoCutAppend(st, [open] + AllWritten(inner), [Closing(open)], delimiters);
      NoCutAppend(st, [open], AllWritten(inner), delimiters);
  }

  /** No delimiter stands by itself at the top level of this part. */
  predicate Uncuttable(nests: seq<Nest>, delimiters: set<char>) {
    forall i | 0 <= i < |nests| :: WellFormed(nests[i]) && !(nests[i].Mark? && nests[i].c in delimiters)
  }

  lemma {:induction false} UncuttablePart(nests: seq<Nest>, delimiters: set<char>)
    requires delimiters !! SPECIAL && Uncuttable(nests, delimiters)
    ensures NoCut(START, AllWritten(nests), delimiters)
  {
    if nests != [] {
      var rest := nests[1..];
      assert forall i | 0 <= i < |rest| :: rest[i] == nests[i + 1];
      NothingCutInside(START, nests[0], delimiters);
      NestPasses(START, nests[0]);
      UncuttablePart(rest, delimiters);
      NoCutAppend(START, Written(nests[0]), AllWritten(rest), delimiters);
    }
  }

  function PartTexts(parts: seq<seq<Nest>>): seq<string> {
    seq(|parts|, i requires 0 <= i < |parts| => AllWritten(parts[i]))
  }

  /**
    A text of well-nested parts with delimiters between them is cut exactly at
    those: delimiters in literals and in brackets cut nothing.
  */
  lemma CutAtTopLevel(parts: seq<seq<Nest>>, cuts: string, delimiters: set<char>)
    requires Neutral(delimiters) && delimiters !! SPECIAL && |parts| == |cuts| + 1
    requires (forall i | 0 <= i < |parts| :: Uncuttable(parts[i], delimiters)) && forall i | 0 <= i < |cuts| :: cuts[i] in delimiters
    ensures Split(Woven(PartTexts(parts), cuts), delimiters) == TrimmedParts(PartTexts(parts))
  {
    var pieces := PartTexts(parts);
    forall i | 0 <= i < |parts| ensures NoCut(START, pieces[i], delimiters) && Run(START, pieces[i]) == START {
      assert Uncuttable(parts[i], delimiters);
      UncuttablePart(parts[i], delimiters);
      NestsPass(START, parts[i]);
    }
    OnlyPieces(pieces, cuts, delimiters);
  }
}
