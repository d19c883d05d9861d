/**
  A type body in which a brace closes one that the body did not open: there
  the property filter, run on its own output, changes it again.
*/
module TsUnopened {
  import opened Wrappers
  import opened Text
  import opened TsScanner
  import opened TsFilters

  function Open(brace: nat, angle: nat): Scan {
    Scan(brace, 0, 0, angle, None, false)
  }

  // --- The two scans -------------------------------------------------------------------------------

  /** The brace inside the angle brackets closes the body's own, and the next one stands for it. */
  lemma FirstSpan(t: string)
    requires t == "{e:<}>,<{>} }"
    ensures BraceSpan(t) == Some(Span(0, 10))
  {
    var open: Option<nat> := Some(0);
    assert SpanFrom(t, 10, Open(1, 0), open) == Some(Span(0, 10));
    assert SpanFrom(t, 9, Open(1, 1), open) == SpanFrom(t, 10, Open(1, 0), open);
    assert SpanFrom(t, 8, Open(0, 1), open) == SpanFrom(t, 9, Open(1, 1), open);
    assert SpanFrom(t, 7, Open(0, 0), open) == SpanFrom(t, 8, Open(0, 1), open);
    assert SpanFrom(t, 6, Open(0, 0), open) == SpanFrom(t, 7, Open(0, 0), open);
    assert SpanFrom(t, 5, Open(0, 1), open) == SpanFrom(t, 6, Open(0, 0), open);
    assert SpanFrom(t, 4, Open(1, 1), open) == SpanFrom(t, 5, Open(0, 1), open);
    assert SpanFrom(t, 3, Open(1, 0), open) == SpanFrom(t, 4, Open(1, 1), open);
    assert SpanFrom(t, 2, Open(1, 0), open) == SpanFrom(t, 3, Open(1, 0), open);
    assert SpanFrom(t, 1, Open(1, 0), open) == SpanFrom(t, 2, Open(1, 0), open);
    assert SpanFrom(t, 0, START, None) == SpanFrom(t, 1, Open(1, 0), open);
  }

  /** Without that brace the body ends one brace later. */
  lemma SecondSpan(t: string)
    requires t == "{<{>} }"
    ensures BraceSpan(t) == Some(Span(0, 6))
  {
    var open: Option<nat> := Some(0);
    assert SpanFrom(t, 6, Open(1, 0), open) == Some(Span(0, 6));
    assert SpanFrom(t, 5, Open(1, 0), open) == SpanFrom(t, 6, Open(1, 0), open);
    assert SpanFrom(t, 4, Open(2, 0), open) == SpanFrom(t, 5, Open(1, 0), open);
    assert SpanFrom(t, 3, Open(2, 1), open) == SpanFrom(t, 4, Open(2, 0), open);
    assert SpanFrom(t, 2, Open(1, 1), open) == SpanFrom(t, 3, Open(2, 1), open);
    assert SpanFrom(t, 1, Open(1, 0), open) == SpanFrom(t, 2, Open(1, 1), open);
    assert SpanFrom(t, 0, START, None) == SpanFrom(t, 1, Open(1, 0), open);
  }

  lemma BodyAfterEquals(content: string, span: Span)
    requires content != [] && content[0] == '=' && BraceSpan(content[1..]) == Some(span)
    ensures TypeBodySpan(content) == Some(Span(span.open + 1, span.close + 1))
  {
    assert FindChar(content, '=') == Some(0);
    assert BodyStart(content) == Some(1);
  }

  // --- The properties ----------------------------------------------------------------------------------

  lemma {:induction false} NoDelimiterNoCut(st: Scan, s: string, delimiters: set<char>)
    requires forall i | 0 <= i < |s| :: s[i] !in delimiters
    ensures NoCut(st, s, delimiters)
    decreases |s|
  {
    if s != [] {
      assert forall i | 0 <= i < |s[1..]| :: s[1..][i] == s[i + 1];
      NoDelimiterNoCut(Step(st, s[0]), s[1..], delimiters);
    }
  }

  lemma PartOf(piece: string, part: string, after: string)
    requires piece == part + after && part != [] && Trimmed(part) && AllWhite(after)
    ensures Part(piece) == [part]
  {
    TrimOfPadded([], part, after);
    assert [] + part + after == piece;
  }

  /** A piece without delimiters is split into itself. */
  lemma SplitWhole(piece: string, part: string, after: string, delimiters: set<char>)
    requires forall i | 0 <= i < |piece| :: piece[i] !in delimiters
    requires piece == part + after && part != [] && Trimmed(part) && AllWhite(after)
    ensures Split(piece, delimiters) == [part]
  {
    NoDelimiterNoCut(START, piece, delimiters);
    assert piece + [] == piece && [] + piece == piece;
    PiecesSkip([], piece, [], START, delimiters);
    TrimmedPartsCons(piece, []);
    PartOf(piece, part, after);
  }

  lemma SplitPair(a: string, b: string, delimiter: char, delimiters: set<char>)
    requires Neutral(delimiters) && delimiter in delimiters
    requires (forall i | 0 <= i < |a| :: a[i] !in delimiters) && forall i | 0 <= i < |b| :: b[i] !in delimiters
    requires a != [] && b != [] && Trimmed(a) && Trimmed(b) && Run(START, a) == START
    ensures Split(a + [delimiter] + b, delimiters) == [a, b]
  {
    NoDelimiterNoCut(START, a, delimiters);
    NoDelimiterNoCut(START, b, delimiters);
    var pieces, cuts := [a, b], [delimiter];
    assert pieces[1..] == [b] && cuts[1..] == [];
    OnlyPieces(pieces, cuts, delimiters);
    assert Woven(pieces, cuts) == a + [delimiter] + b;
    PartOf(a, a, []);
    PartOf(b, b, []);
    TrimmedPartsCons(a, [b]);
    TrimmedPartsCons(b, []);
    assert [a] + [b] == pieces;
  }

  lemma NamedE(field: string)
    requires |field| > 1 && field[0] == 'e' && field[1] == ':'
    ensures ParsePropertyName(StripLeadingBlockComments(field)) == Some("e")
  {
    assert !StartsWith(field, "/*") by {
      assert "/*"[0] == '/';
    }
    assert StripLeadingBlockComments(field) == field;
    assert field[1..] != [] && field[1..][0] == ':' && !IsIdentChar(':');
    assert IdentLength(field[1..]) == 0;
    assert IdentLength(field) == 1;
    assert !StartsWith(field[1..], "?") by {
      assert "?"[0] == '?';
    }
    assert StartsWith(field[1..], ":");
    assert field[..1] == "e";
  }

  lemma Unnamed(field: string)
    requires field != [] && field[0] == '<'
    ensures ParsePropertyName(StripLeadingBlockComments(field)) == None
  {
    assert !StartsWith(field, "/*") by {
      assert "/*"[0] == '/';
    }
    assert StripLeadingBlockComments(field) == field;
    assert IdentLength(field) == 0;
  }

  /** The first run drops the property that closes the body's brace. */
  lemma FirstKept(inner: string, experimentalFields: set<string>)
    requires inner == "e:<}>,<{>" && "e" in experimentalFields
    ensures KeptFields(inner, experimentalFields) == ["<{>"]
  {
    var a, b := "e:<}>", "<{>";
    assert inner == a + [','] + b;
    DelimitersAreNeutral();
    BalancedE(a);
    SplitPair(a, b, ',', FIELD_DELIMITERS);
    NamedE(a);
    Unnamed(b);
    FilterSecond(FieldKeeper(experimentalFields), a, b);
  }

  lemma FilterSecond(keep: string -> bool, a: string, b: string)
    requires !keep(a) && keep(b)
    ensures Filter(keep, [a, b]) == [b]
  {
    FilterFirst(keep, b);
    assert [a, b][1..] == [b];
  }

  lemma BalancedE(a: string)
    requires a == "e:<}>"
    ensures Run(START, a) == START
  {
    assert Run(Open(0, 1), a[4..]) == START;
    assert Run(Open(0, 1), a[3..]) == Run(Open(0, 1), a[4..]);
    assert Run(START, a[2..]) == Run(Open(0, 1), a[3..]);
    assert Run(START, a[1..]) == Run(START, a[2..]);
    assert Run(START, a) == Run(START, a[1..]);
  }

  lemma FilterFirst(keep: string -> bool, b: string)
    requires keep(b)
    ensures Filter(keep, [b]) == [b]
  {
    assert [b][1..] == [];
  }

  lemma SecondKept(inner: string, experimentalFields: set<string>)
    requires inner == "<{>} "
    ensures KeptFields(inner, experimentalFields) == ["<{>}"]
  {
    var b, blank := "<{>}", " ";
    assert inner == b + blank;
    SplitWhole(inner, b, blank, FIELD_DELIMITERS);
    Unnamed(b);
    FilterFirst(FieldKeeper(experimentalFields), b);
  }

  lemma JoinOne(part: string, sep: string)
    ensures Join([part], sep) == part
  {
  }

  lemma FirstRun(content: string, experimentalFields: set<string>)
    requires content == "={e:<}>,<{>} }" && "e" in experimentalFields
    ensures TypeBodySpan(content).Some? && FilteredFields(content, experimentalFields) == "={<{>} }"
  {
    assert content[1..] == "{e:<}>,<{>} }";
    FirstSpan(content[1..]);
    BodyAfterEquals(content, Span(0, 10));
    assert content[2..11] == "e:<}>,<{>";
    FirstKept(content[2..11], experimentalFields);
    JoinOne("<{>", FIELD_SEPARATOR);
    assert content[..2] + "<{>" + content[11..] == "={<{>} }";
  }

  lemma SecondRun(content: string, experimentalFields: set<string>)
    requires content == "={<{>} }"
    ensures FilteredFields(content, experimentalFields) == "={<{>}}"
  {
    assert content[1..] == "{<{>} }";
    SecondSpan(content[1..]);
    BodyAfterEquals(content, Span(0, 6));
    assert content[2..7] == "<{>} ";
    SecondKept(content[2..7], experimentalFields);
    JoinOne("<{>}", FIELD_SEPARATOR);
    assert content[..2] + "<{>}" + content[7..] == "={<{>}}";
  }

  /** If filtering again changes the output, the scan does not stay inside its body. */
  lemma ChangedNotInside(content: string, again: string, span: Span, body: string, experimentalFields: set<string>)
    requires TypeBodySpan(content) == Some(span) && body == NewBody(content[span.open + 1..span.close], experimentalFields)
    requires again == FilteredFields(content, experimentalFields) && FilteredFields(again, experimentalFields) != again
    ensures !StaysInside(START.Nested(), body)
  {
    FieldFilterIdempotent(content, experimentalFields, span.open, span.close, body, again);
  }

  /**
    A body whose first property has a closing brace in angle brackets: the
    scan does not stay inside what is left of it, and filtering the output
    takes a blank from it.
  */
  lemma UnopenedBraceChangesAgain(experimentalFields: set<string>) returns (content: string, span: Span, body: string)
    requires "e" in experimentalFields
    ensures TypeBodySpan(content) == Some(span) && body == NewBody(content[span.open + 1..span.close], experimentalFields)
    ensures !StaysInside(START.Nested(), body)
    ensures FilteredFields(FilteredFields(content, experimentalFields), experimentalFields)
         != FilteredFields(content, experimentalFields)
  {
    content := "={e:<}>,<{>} }";
    var first, second := "={<{>} }", "={<{>}}";
    FirstRun(content, experimentalFields);
    SecondRun(first, experimentalFields);
    assert |first| == 8 && |second| == 7;
    span := TypeBodySpan(content).value;
    body := NewBody(content[span.open + 1..span.close], experimentalFields);
    ChangedNotInside(content, first, span, body, experimentalFields);
  }
}
