/**
  What the four passes of the search take for equal lines, told from the lines
  alone.
*/
module SeekLevels {
  import opened Wrappers
  import opened Text
  import opened SeekSequence

  const DASHES: set<char> :=
    {'-', '\U{2010}', '\U{2011}', '\U{2012}', '\U{2013}', '\U{2014}', '\U{2015}', '\U{2212}'}
  const SINGLE_QUOTES: set<char> := {'\'', '\U{2018}', '\U{2019}', '\U{201A}', '\U{201B}'}
  const DOUBLE_QUOTES: set<char> := {'"', '\U{201C}', '\U{201D}', '\U{201E}', '\U{201F}'}
  const SPACES: set<char> :=
    {' ', '\U{00A0}', '\U{2002}', '\U{2003}', '\U{2004}', '\U{2005}', '\U{2006}', '\U{2007}', '\U{2008}', '\U{2009}',
     '\U{200A}', '\U{202F}', '\U{205F}', '\U{3000}'}

  /** The same character, or two that stand for the same dash, quote or space. */
  predicate SameMark(c: char, d: char) {
    || c == d || (c in DASHES && d in DASHES) || (c in SPACES && d in SPACES)
    || (c in SINGLE_QUOTES && d in SINGLE_QUOTES) || (c in DOUBLE_QUOTES && d in DOUBLE_QUOTES)
  }

  predicate SameMarks(a: string, b: string) {
    |a| == |b| && forall i | 0 <= i < |a| :: SameMark(a[i], b[i])
  }

  /** The text with white space behind it. */
  ghost predicate EndPadded(line: string, core: string) {
    (core != [] ==> !IsWhite(core[|core| - 1])) && exists after :: AllWhite(after) && line == core + after
  }

  /** The text with white space around it. */
  ghost predicate Padded(line: string, core: string) {
    Trimmed(core) && exists before, after :: AllWhite(before) && AllWhite(after) && line == before + core + after
  }

  /** Equal; up to white space at the end; up to white space around; and up to the shapes of dashes, quotes and spaces as well. */
  ghost predicate Alike(k: Level, a: string, b: string) {
    match k
    case 0 => a == b
    case 1 => exists core :: EndPadded(a, core) && EndPadded(b, core)
    case 2 => exists core :: Padded(a, core) && Padded(b, core)
    case _ => exists p, q :: Padded(a, p) && Padded(b, q) && SameMarks(p, q)
  }

  lemma PlainIsClass(c: char)
    ensures Plain(c) == '-' <==> c in DASHES
    ensures Plain(c) == '\'' <==> c in SINGLE_QUOTES
    ensures Plain(c) == '"' <==> c in DOUBLE_QUOTES
    ensures Plain(c) == ' ' <==> c in SPACES
    ensures c !in DASHES && c !in SINGLE_QUOTES && c !in DOUBLE_QUOTES && c !in SPACES ==> Plain(c) == c
  {
  }

  lemma PlainIff(c: char, d: char)
    ensures Plain(c) == Plain(d) <==> SameMark(c, d)
  {
    PlainIsClass(c);
    PlainIsClass(d);
  }

  lemma PlainTextIff(a: string, b: string)
    ensures PlainText(a) == PlainText(b) <==> SameMarks(a, b)
  {
    if PlainText(a) == PlainText(b) {
      assert |a| == |PlainText(a)| == |PlainText(b)| == |b|;
      forall i | 0 <= i < |a| ensures SameMark(a[i], b[i]) {
        assert Plain(a[i]) == PlainText(a)[i] == PlainText(b)[i] == Plain(b[i]);
        PlainIff(a[i], b[i]);
      }
    }
    if SameMarks(a, b) {
      forall i | 0 <= i < |a| ensures PlainText(a)[i] == PlainText(b)[i] {
        PlainIff(a[i], b[i]);
      }
    }
  }

  lemma EndPaddedIff(line: string, core: string)
    ensures EndPadded(line, core) <==> core == TrimEnd(line)
  {
    var after := TrimEndParts(line);
    if EndPadded(line, core) {
      var a :| AllWhite(a) && line == core + a;
      TrimEndOfWhite(core, a);
    }
  }

  lemma PaddedIff(line: string, core: string)
    ensures Padded(line, core) <==> core == Trim(line)
  {
    var before, after := TrimParts(line);
    if Padded(line, core) {
      var b, a :| AllWhite(b) && AllWhite(a) && line == b + core + a;
      TrimOfPadded(b, core, a);
    }
  }

  /** A pass sees two lines as equal exactly if they are alike at its level. */
  lemma SeenIff(k: Level, a: string, b: string)
    ensures Seen(k, a) == Seen(k, b) <==> Alike(k, a, b)
  {
    forall core ensures EndPadded(a, core) <==> core == TrimEnd(a) { EndPaddedIff(a, core); }
    forall core ensures EndPadded(b, core) <==> core == TrimEnd(b) { EndPaddedIff(b, core); }
    forall core ensures Padded(a, core) <==> core == Trim(a) { PaddedIff(a, core); }
    forall core ensures Padded(b, core) <==> core == Trim(b) { PaddedIff(b, core); }
    PlainTextIff(Trim(a), Trim(b));
    assert EndPadded(a, TrimEnd(a)) && EndPadded(b, TrimEnd(b)) && Padded(a, Trim(a)) && Padded(b, Trim(b));
    assert k == 1 && Seen(1, a) == Seen(1, b) ==> EndPadded(b, TrimEnd(a));
    assert k == 2 && Seen(2, a) == Seen(2, b) ==> Padded(b, Trim(a));
  }

  /** So a pass matches at a line exactly if each line of the pattern is alike to the one in its place. */
  lemma MatchesIff(lines: seq<string>, pattern: seq<string>, i: nat, k: Level)
    ensures MatchesAt(lines, pattern, i, k) <==>
      i + |pattern| <= |lines| && forall j | 0 <= j < |pattern| :: Alike(k, lines[i + j], pattern[j])
  {
    if i + |pattern| <= |lines| {
      var window, needle := Keys(k, lines)[i..i + |pattern|], Keys(k, pattern);
      forall j | 0 <= j < |pattern| ensures window[j] == needle[j] <==> Alike(k, lines[i + j], pattern[j]) {
        SeenIff(k, lines[i + j], pattern[j]);
      }
      if forall j | 0 <= j < |pattern| :: Alike(k, lines[i + j], pattern[j]) {
        assert window == needle;
      }
    }
  }
}
