/**
  Which arms and which properties the filters drop, told from the text alone:
  how a property is written, where its name and its value are, and which
  property of an arm names its method.
*/
module TsNames {
  import opened Wrappers
  import opened Text
  import opened TsScanner
  import opened TsFilters

  // --- How literals and properties are written -------------------------------------------------------

  /** No quote in it that no backslash stands before, and no backslash left over at the end. */
  predicate Plain(s: string, quote: char) {
    s == [] || if s[0] == '\\' then |s| >= 2 && Plain(s[2..], quote) else s[0] != quote && Plain(s[1..], quote)
  }

  /** The text between two equal quotes. */
  predicate IsLiteral(literal: string, text: string) {
    && |literal| == |text| + 2
    && (literal[0] == '"' || literal[0] == '\'') && literal[|text| + 1] == literal[0]
    && literal[1..|text| + 1] == text && Plain(text, literal[0])
  }

  const SMALL: set<char> :=
    {'a', 'b', 'c', 'd', 'e', 'f', 'g', 'h', 'i', 'j', 'k', 'l', 'm',
     'n', 'o', 'p', 'q', 'r', 's', 't', 'u', 'v', 'w', 'x', 'y', 'z'}
  const CAPITAL: set<char> :=
    {'A', 'B', 'C', 'D', 'E', 'F', 'G', 'H', 'I', 'J', 'K', 'L', 'M',
     'N', 'O', 'P', 'Q', 'R', 'S', 'T', 'U', 'V', 'W', 'X', 'Y', 'Z'}
  const DIGITS: set<char> := {'0', '1', '2', '3', '4', '5', '6', '7', '8', '9'}

  lemma SmallIs(c: char)
    ensures c in SMALL <==> 'a' <= c <= 'z'
  {
  }

  lemma CapitalIs(c: char)
    ensures c in CAPITAL <==> 'A' <= c <= 'Z'
  {
  }

  /** Letters, digits and the underscore. */
  lemma IdentCharIs(c: char)
    ensures IsIdentChar(c) <==> c in SMALL || c in CAPITAL || c in DIGITS || c == '_'
  {
    SmallIs(c);
    CapitalIs(c);
  }

  predicate IsIdent(s: string) {
    s != [] && forall i | 0 <= i < |s| :: IsIdentChar(s[i])
  }

  /** White space, with at most one question mark in it. */
  predicate OptionalMark(s: string) {
    AllWhite(s) || exists k | 0 <= k < |s| :: s[k] == '?' && AllWhite(s[..k]) && AllWhite(s[k + 1..])
  }

  /** A quoted name, or a bare one that may be marked optional. */
  predicate WritesName(written: string, after: string, name: string) {
    || (IsLiteral(written, name) && AllWhite(after))
    || (IsIdent(written) && written == name && OptionalMark(after))
  }

  /** White space, the name, white space, a colon, and the value. */
  ghost predicate Declares(field: string, name: string, value: string) {
    exists before, written, after ::
      AllWhite(before) && WritesName(written, after, name) && field == before + written + after + ":" + value
  }

  ghost predicate DeclaresName(field: string, name: string) {
    exists value :: Declares(field, name, value)
  }

  // --- Reading them -------------------------------------------------------------------------------------

  lemma {:induction false} TrimStartSkips(before: string, s: string)
    requires AllWhite(before)
    ensures TrimStart(before + s) == TrimStart(s)
    decreases |before|
  {
    if before == [] {
      assert before + s == s;
    } else {
      assert (before + s)[1..] == before[1..] + s;
      TrimStartSkips(before[1..], s);
    }
  }

  lemma {:induction false} ClosingQuoteIff(s: string, quote: char, i: nat, j: nat)
    requires i <= |s| && quote != '\\'
    ensures ClosingQuote(s, quote, i, false) == Some(j) <==> i <= j < |s| && s[j] == quote && Plain(s[i..j], quote)
    decreases |s| - i
  {
    if i < |s| {
      if s[i] == '\\' {
        if i + 2 <= |s| {
          ClosingQuoteIff(s, quote, i + 2, j);
          if i + 2 <= j < |s| {
            assert s[i..j][2..] == s[i + 2..j];
          }
        }
      } else if s[i] != quote {
        ClosingQuoteIff(s, quote, i + 1, j);
        if i < j < |s| {
          assert s[i..j][1..] == s[i + 1..j];
        }
      } else if i < j < |s| {
        assert s[i..j][0] == quote;
      }
    }
  }

  lemma LiteralIff(s: string, text: string, n: nat)
    ensures ParseStringLiteral(s) == Some((text, n)) <==> n <= |s| && IsLiteral(s[..n], text)
  {
    if s != [] && (s[0] == '"' || s[0] == '\'') {
      if n >= 2 {
        ClosingQuoteIff(s, s[0], 1, n - 1);
        if n <= |s| {
          assert s[..n][1..n - 1] == s[1..n - 1];
        }
      }
      var closing := ClosingQuote(s, s[0], 1, false);
      assert closing.Some? ==> closing.value >= 1;
    }
  }

  lemma {:induction false} IdentLengthIs(s: string, n: nat)
    ensures IdentLength(s) == n <==>
      n <= |s| && (forall i | 0 <= i < n :: IsIdentChar(s[i])) && (n < |s| ==> !IsIdentChar(s[n]))
  {
    if s != [] && IsIdentChar(s[0]) {
      if n > 0 {
        IdentLengthIs(s[1..], n - 1);
        assert forall i | 1 <= i < |s| :: s[i] == s[1..][i - 1];
      }
    }
  }

  /** White space, and then the colon. */
  lemma ColonBehind(rest: string, after: string, value: string)
    requires AllWhite(after) && rest == after + ":" + value
    ensures TrimStart(rest) == ":" + value && StartsWith(TrimStart(rest), ":") && !StartsWith(TrimStart(rest), "?")
  {
    assert rest == after + (":" + value);
    TrimStartOfWhite(after, ":" + value);
    assert (":" + value)[0] == ':' && "?"[0] == '?';
  }

  /** A question mark between, with white space around it. */
  lemma MarkBehind(rest: string, after: string, k: nat, value: string)
    requires k < |after| && after[k] == '?' && AllWhite(after[..k]) && AllWhite(after[k + 1..])
    requires rest == after + ":" + value
    ensures StartsWith(TrimStart(rest), "?") && TrimStart(TrimStart(rest)[1..]) == ":" + value
  {
    var tail := after[k + 1..] + ":" + value;
    assert rest == after[..k] + (["?"[0]] + tail);
    TrimStartOfWhite(after[..k], ["?"[0]] + tail);
    ColonBehind(tail, after[k + 1..], value);
    assert (["?"[0]] + tail)[1..] == tail;
  }

  lemma FirstBehind(after: string, value: string)
    requires OptionalMark(after)
    ensures (after + ":" + value) != [] && !IsIdentChar((after + ":" + value)[0])
  {
    var rest := after + ":" + value;
    if after == [] {
      assert rest[0] == ':';
    } else {
      assert rest[0] == after[0];
    }
  }

  /** A property written this way is read as one of this name. */
  lemma NameIsRead(field: string, name: string, value: string, before: string, written: string, after: string)
    requires AllWhite(before) && WritesName(written, after, name) && field == before + written + after + ":" + value
    ensures ParsePropertyName(field) == Some(name)
  {
    var rest := after + ":" + value;
    var trimmed := written + rest;
    assert field == before + trimmed;
    assert trimmed[0] == written[0] && !IsWhite(written[0]);
    TrimStartOfWhite(before, trimmed);
    assert trimmed[..|written|] == written && trimmed[|written|..] == rest;
    if IsLiteral(written, name) && AllWhite(after) {
      LiteralIff(trimmed, name, |written|);
      ColonBehind(rest, after, value);
    } else {
      assert ParseStringLiteral(trimmed).None?;
      FirstBehind(after, value);
      assert forall i | 0 <= i < |written| :: trimmed[i] == written[i];
      assert trimmed[|written|] == rest[0];
      IdentLengthIs(trimmed, |written|);
      IdentRead(rest, after, value);
    }
  }

  lemma IdentRead(rest: string, after: string, value: string)
    requires OptionalMark(after) && rest == after + ":" + value
    ensures var trimmed := TrimStart(rest);
      (if StartsWith(trimmed, "?") then TrimStart(trimmed[1..]) else trimmed) == ":" + value
  {
    if AllWhite(after) {
      ColonBehind(rest, after, value);
    } else {
      var k :| 0 <= k < |after| && after[k] == '?' && AllWhite(after[..k]) && AllWhite(after[k + 1..]);
      MarkBehind(rest, after, k, value);
    }
  }

  lemma MarkIsOptional(white: string, more: string)
    requires AllWhite(white) && AllWhite(more)
    ensures OptionalMark(white + "?" + more)
  {
    var after := white + "?" + more;
    assert after[|white|] == '?' && after[..|white|] == white && after[|white| + 1..] == more;
  }

  lemma FirstAndRest(s: string, c: string)
    requires |c| == 1 && StartsWith(s, c)
    ensures s == c + s[1..]
  {
  }

  lemma UnmarkedRead(rest: string, white: string, trimmed: string)
    requires rest == white + trimmed && AllWhite(white) && StartsWith(trimmed, ":")
    ensures OptionalMark(white) && rest == white + ":" + trimmed[1..]
  {
    FirstAndRest(trimmed, ":");
  }

  lemma MarkedRead(rest: string, white: string, trimmed: string, more: string, last: string)
    requires rest == white + trimmed && AllWhite(white) && StartsWith(trimmed, "?")
    requires trimmed[1..] == more + last && AllWhite(more) && StartsWith(last, ":")
    ensures OptionalMark(white + "?" + more) && rest == white + "?" + more + ":" + last[1..]
  {
    FirstAndRest(trimmed, "?");
    FirstAndRest(last, ":");
    MarkIsOptional(white, more);
  }

  /** What stands between a bare name and the value, if a colon is found there. */
  lemma MarkRead(rest: string, trimmed: string) returns (after: string, value: string)
    requires trimmed == TrimStart(rest)
    requires StartsWith(if StartsWith(trimmed, "?") then TrimStart(trimmed[1..]) else trimmed, ":")
    ensures OptionalMark(after) && rest == after + ":" + value
  {
    var white := TrimStartParts(rest);
    if StartsWith(trimmed, "?") {
      var tail := trimmed[1..];
      var more := TrimStartParts(tail);
      var last := TrimStart(tail);
      MarkedRead(rest, white, trimmed, more, last);
      after, value := white + "?" + more, last[1..];
    } else {
      UnmarkedRead(rest, white, trimmed);
      after, value := white, trimmed[1..];
    }
  }

  lemma Written(field: string, before: string, trimmed: string, n: nat, after: string, name: string, value: string)
    requires field == before + trimmed && n <= |trimmed| && trimmed[n..] == after + ":" + value
    requires AllWhite(before) && WritesName(trimmed[..n], after, name)
    ensures DeclaresName(field, name)
  {
    assert field == before + trimmed[..n] + after + ":" + value;
    assert Declares(field, name, value);
  }

  /** And what is read as one of this name is written this way. */
  lemma NameWasWritten(field: string, name: string)
    requires ParsePropertyName(field) == Some(name)
    ensures DeclaresName(field, name)
  {
    var before := TrimStartParts(field);
    var trimmed := TrimStart(field);
    match ParseStringLiteral(trimmed) {
      case Some((literal, n)) =>
        LiteralIff(trimmed, literal, n);
        var after := TrimStartParts(trimmed[n..]);
        var rest := TrimStart(trimmed[n..]);
        assert rest == ":" + rest[1..];
        assert trimmed[n..] == after + ":" + rest[1..];
        Written(field, before, trimmed, n, after, name, rest[1..]);
      case None =>
        var n := IdentLength(trimmed);
        IdentLengthIs(trimmed, n);
        var after, value := MarkRead(trimmed[n..], TrimStart(trimmed[n..]));
        Written(field, before, trimmed, n, after, name, value);
    }
  }

  /** The name that is read is the one that is written. */
  lemma NameMeaning(field: string, name: string)
    ensures ParsePropertyName(field) == Some(name) <==> DeclaresName(field, name)
  {
    if ParsePropertyName(field) == Some(name) {
      NameWasWritten(field, name);
    }
    if DeclaresName(field, name) {
      var value :| Declares(field, name, value);
      var before, written, after :|
        AllWhite(before) && WritesName(written, after, name) && field == before + written + after + ":" + value;
      NameIsRead(field, name, value, before, written, after);
    }
  }

  // --- The method of an arm ---------------------------------------------------------------------------------

  /** The value is a literal of this text, with anything behind it. */
  ghost predicate StartsWithLiteral(value: string, text: string) {
    exists before, literal, rest :: AllWhite(before) && IsLiteral(literal, text) && value == before + literal + rest
  }

  ghost predicate SaysMethod(field: string, m: string) {
    exists value :: Declares(field, "method", value) && StartsWithLiteral(value, m)
  }

  /** The first property called `method` says this one. */
  ghost predicate ListSays(fields: seq<string>, m: string) {
    exists i | 0 <= i < |fields| :: SaysAt(fields, m, i)
  }

  ghost predicate SaysAt(fields: seq<string>, m: string, i: nat)
    requires i < |fields|
  {
    SaysMethod(fields[i], m) && forall j | 0 <= j < i :: !DeclaresName(fields[j], "method")
  }

  /** Between the arm's top-level braces, cut at its top-level commas. */
  ghost predicate ArmSays(arm: string, m: string) {
    exists open: nat, close: nat ::
      IsBraceSpan(arm, open, close) && ListSays(Split(arm[open + 1..close], {','}), m)
  }

  lemma LiteralStarts(value: string, text: string)
    requires ParseStringLiteral(TrimStart(value)).Some? && ParseStringLiteral(TrimStart(value)).value.0 == text
    ensures StartsWithLiteral(value, text)
  {
    var trimmed := TrimStart(value);
    var white := TrimStartParts(value);
    var n := ParseStringLiteral(trimmed).value.1;
    LiteralIff(trimmed, text, n);
    assert value == white + trimmed[..n] + trimmed[n..];
  }

  lemma StartIsParsed(value: string, text: string, before: string, literal: string, rest: string)
    requires AllWhite(before) && IsLiteral(literal, text) && value == before + literal + rest
    ensures ParseStringLiteral(TrimStart(value)) == Some((text, |literal|))
  {
    assert value == before + (literal + rest);
    assert (literal + rest)[0] == literal[0];
    TrimStartOfWhite(before, literal + rest);
    assert (literal + rest)[..|literal|] == literal;
    LiteralIff(literal + rest, text, |literal|);
  }

  lemma StartsWithLiteralIff(value: string, text: string)
    ensures StartsWithLiteral(value, text) <==>
      ParseStringLiteral(TrimStart(value)).Some? && ParseStringLiteral(TrimStart(value)).value.0 == text
  {
    var parsed := ParseStringLiteral(TrimStart(value));
    if parsed.Some? && parsed.value.0 == text {
      LiteralStarts(value, text);
    }
    if before, literal, rest :| AllWhite(before) && IsLiteral(literal, text) && value == before + literal + rest {
      StartIsParsed(value, text, before, literal, rest);
    }
  }

  lemma NoColonInMark(after: string)
    requires OptionalMark(after)
    ensures ':' !in after
  {
    if !AllWhite(after) {
      var k :| 0 <= k < |after| && after[k] == '?' && AllWhite(after[..k]) && AllWhite(after[k + 1..]);
      forall i | 0 <= i < |after| ensures after[i] != ':' {
        assert i < k ==> after[i] == after[..k][i];
        assert i > k ==> after[i] == after[k + 1..][i - k - 1];
      }
    }
  }

  lemma NoColonInName(written: string, after: string)
    requires WritesName(written, after, "method")
    ensures ':' !in written && ':' !in after
  {
    NoColonInMark(after);
    assert forall i | 0 <= i < |"method"| :: "method"[i] != ':';
    if IsLiteral(written, "method") {
      forall i | 0 <= i < |written| ensures written[i] != ':' {
        assert 0 < i < |written| - 1 ==> written[i] == written[1..|written| - 1][i - 1];
      }
    }
  }

  /** The value of a property called `method` is behind its first colon. */
  lemma MethodProperty(field: string, value: string)
    requires Declares(field, "method", value)
    ensures ParseProperty(field) == Some(("method", TrimStart(value)))
  {
    var before, written, after :|
      AllWhite(before) && WritesName(written, after, "method") && field == before + written + after + ":" + value;
    NameIsRead(field, "method", value, before, written, after);
    NoColonInName(written, after);
    var front := before + written + after;
    assert field == front + ":" + value && field[..|front|] == front && field[|front|] == ':';
    FindCharIs(field, ':', |front|);
    assert field[|front| + 1..] == value;
  }

  lemma {:induction false} TrimStartTwice(s: string)
    ensures TrimStart(TrimStart(s)) == TrimStart(s)
  {
    if s != [] && IsWhite(s[0]) {
      TrimStartTwice(s[1..]);
    }
  }

  lemma PropertyNamed(field: string)
    ensures ParsePropertyName(field).Some? ==> ParseProperty(field).Some? && ParseProperty(field).value.0 == ParsePropertyName(field).value
    ensures ParsePropertyName(field).None? ==> ParseProperty(field).None?
  {
    if ParsePropertyName(field).Some? {
      var name := ParsePropertyName(field).value;
      NameMeaning(field, name);
      var value :| Declares(field, name, value);
      var before, written, after :|
        AllWhite(before) && WritesName(written, after, name) && field == before + written + after + ":" + value;
      FindCharMeaning(field, ':');
      assert field[|before + written + after|] == ':';
    }
  }

  lemma {:induction false} MethodMeaning(fields: seq<string>, m: string)
    ensures MethodOfFields(fields) == Some(m) <==> ListSays(fields, m)
  {
    if fields != [] {
      var first, rest := fields[0], fields[1..];
      MethodMeaning(rest, m);
      NameMeaning(first, "method");
      PropertyNamed(first);
      if DeclaresName(first, "method") {
        var value :| Declares(first, "method", value);
        MethodProperty(first, value);
        TrimStartTwice(value);
        StartsWithLiteralIff(value, m);
        FirstSays(fields, m, value);
      } else {
        LaterSays(fields, m);
      }
    }
  }

  lemma FirstSays(fields: seq<string>, m: string, value: string)
    requires fields != [] && Declares(fields[0], "method", value)
    ensures ListSays(fields, m) <==> StartsWithLiteral(value, m)
  {
    if StartsWithLiteral(value, m) {
      assert SaysAt(fields, m, 0);
    }
    if ListSays(fields, m) {
      var i :| 0 <= i < |fields| && SaysAt(fields, m, i);
      assert DeclaresName(fields[0], "method");
      assert i == 0;
      var other :| Declares(fields[0], "method", other) && StartsWithLiteral(other, m);
      MethodProperty(fields[0], value);
      MethodProperty(fields[0], other);
      StartsWithLiteralIff(value, m);
      StartsWithLiteralIff(other, m);
    }
  }

  lemma LaterSays(fields: seq<string>, m: string)
    requires fields != [] && !DeclaresName(fields[0], "method")
    ensures ListSays(fields, m) <==> ListSays(fields[1..], m)
  {
    var rest := fields[1..];
    if i :| 0 <= i < |fields| && SaysAt(fields, m, i) {
      assert i > 0;
      assert SaysAt(rest, m, i - 1) by {
        assert forall j | 0 <= j < i - 1 :: rest[j] == fields[j + 1];
      }
    }
    if i :| 0 <= i < |rest| && SaysAt(rest, m, i) {
      assert SaysAt(fields, m, i + 1) by {
        assert forall j | 0 < j <= i :: fields[j] == rest[j - 1];
      }
    }
  }

  /** An arm is dropped exactly if the first property called `method` between its braces says a listed one. */
  lemma ArmIsDroppedIff(arm: string, listed: set<string>)
    ensures !KeepsArm(arm, listed) <==> exists m :: m in listed && ArmSays(arm, m)
  {
    var span := BraceSpan(arm);
    if span.Some? {
      var open, close := span.value.open, span.value.close;
      BraceSpanMeaning(arm, open, close);
      var fields := Split(arm[open + 1..close], {','});
      forall m ensures ArmSays(arm, m) <==> MethodOfFields(fields) == Some(m) {
        MethodMeaning(fields, m);
        if ArmSays(arm, m) {
          var o: nat, c: nat :| IsBraceSpan(arm, o, c) && ListSays(Split(arm[o + 1..c], {','}), m);
          BraceSpanUnique(arm, o, c, open, close);
        }
      }
    } else {
      forall m ensures !ArmSays(arm, m) {
        if ArmSays(arm, m) {
          var o: nat, c: nat :| IsBraceSpan(arm, o, c) && ListSays(Split(arm[o + 1..c], {','}), m);
          BraceSpanMeaning(arm, o, c);
        }
      }
    }
  }

  // --- The name of a property ---------------------------------------------------------------------------------

  /** From `/*` to the first `*/` behind it. */
  predicate IsComment(c: string) {
    && |c| >= 4 && StartsWith(c, "/*") && OccursAt(c, "*/", |c| - 2)
    && forall j: nat | 2 <= j < |c| - 2 :: !OccursAt(c, "*/", j)
  }

  predicate CommentAtFront(s: string, k: int) {
    4 <= k <= |s| && IsComment(s[..k])
  }

  /** White space and block comments. */
  ghost predicate IsLead(s: string)
    decreases |s|
  {
    || s == []
    || (IsWhite(s[0]) && IsLead(s[1..]))
    || exists k {:trigger CommentAtFront(s, k)} :: CommentAtFront(s, k) && IsLead(s[k..])
  }

  lemma StripByTrim(s: string, t: string)
    requires TrimStart(s) == TrimStart(t)
    ensures StripLeadingBlockComments(s) == StripLeadingBlockComments(t)
  {
  }

  lemma OccursBehind(s: string, pattern: string, k: nat, j: nat)
    requires 2 <= k <= |s| && j + |pattern| <= k - 2
    ensures OccursAt(s[2..], pattern, j) == OccursAt(s[..k], pattern, j + 2)
  {
    assert s[2..][j..j + |pattern|] == s[j + 2..j + 2 + |pattern|] == s[..k][j + 2..j + 2 + |pattern|];
  }

  lemma CommentFront(s: string, k: nat)
    requires 4 <= k <= |s|
    ensures StartsWith(s[..k], "/*") <==> StartsWith(s, "/*")
    ensures StartsWith(s, "/*") ==> s[0] == '/'
  {
    assert |"/*"| == 2 && "/*"[0] == '/';
    assert s[..k][..2] == s[..2];
  }

  /** The comment that is cut off is what is found first. */
  lemma CommentIff(s: string, k: nat)
    requires 4 <= k <= |s| && StartsWith(s, "/*")
    ensures CommentAtFront(s, k) <==> FindText(s[2..], "*/") == Some(k - 4)
  {
    CommentFront(s, k);
    assert |"*/"| == 2;
    FindTextFromMeaning(s[2..], "*/", 0);
    forall j: nat | j <= k - 4 ensures OccursAt(s[2..], "*/", j) == OccursAt(s[..k], "*/", j + 2) {
      OccursBehind(s, "*/", k, j);
    }
    if CommentAtFront(s, k) {
      forall j: nat | j < k - 4 ensures !OccursAt(s[2..], "*/", j) {
        assert !OccursAt(s[..k], "*/", j + 2);
      }
      assert OccursAt(s[2..], "*/", k - 4);
    } else if FindText(s[2..], "*/") == Some(k - 4) {
      forall j: nat | 2 <= j < k - 2 ensures !OccursAt(s[..k], "*/", j) {
        assert !OccursAt(s[2..], "*/", j - 2);
      }
    }
  }

  /** A comment in front is stripped. */
  lemma StripComment(s: string, k: int)
    requires CommentAtFront(s, k)
    ensures StripLeadingBlockComments(s) == StripLeadingBlockComments(s[k..])
  {
    CommentFront(s, k);
    CommentIff(s, k);
    assert s[2..][k - 2..] == s[k..];
  }

  lemma {:induction false} StripSkips(lead: string, s: string)
    requires IsLead(lead)
    ensures StripLeadingBlockComments(lead + s) == StripLeadingBlockComments(s)
    decreases |lead|
  {
    if lead == [] {
      assert lead + s == s;
    } else if IsWhite(lead[0]) && IsLead(lead[1..]) {
      assert (lead + s)[1..] == lead[1..] + s;
      StripByTrim(lead + s, lead[1..] + s);
      StripSkips(lead[1..], s);
    } else {
      var k :| CommentAtFront(lead, k) && IsLead(lead[k..]);
      assert (lead + s)[..k] == lead[..k] && (lead + s)[k..] == lead[k..] + s;
      StripComment(lead + s, k);
      StripSkips(lead[k..], s);
    }
  }

  lemma {:induction false} WhiteIsLead(white: string, lead: string)
    requires AllWhite(white) && IsLead(lead)
    ensures IsLead(white + lead)
    decreases |white|
  {
    if white == [] {
      assert white + lead == lead;
    } else {
      WhiteIsLead(white[1..], lead);
      assert (white + lead)[1..] == white[1..] + lead;
    }
  }

  lemma {:induction false} StripParts(s: string) returns (lead: string)
    ensures IsLead(lead) && s == lead + StripLeadingBlockComments(s)
    decreases |s|
  {
    var white := TrimStartParts(s);
    var rest := TrimStart(s);
    WhiteIsLead(white, []);
    assert white + [] == white;
    lead := white;
    if StartsWith(rest, "/*") && FindText(rest[2..], "*/").Some? {
      var k := FindText(rest[2..], "*/").value + 4;
      CommentIff(rest, k);
      StripComment(rest, k);
      assert StripLeadingBlockComments(s) == StripLeadingBlockComments(rest) by {
        TrimStartTwice(s);
        StripByTrim(s, rest);
      }
      var more := StripParts(rest[k..]);
      CommentThenLead(rest[..k], more);
      WhiteIsLead(white, rest[..k] + more);
      lead := white + (rest[..k] + more);
      Regrouped(s, white, rest, k, more, StripLeadingBlockComments(s));
    }
  }

  lemma Regrouped(s: string, white: string, rest: string, k: nat, more: string, last: string)
    requires s == white + rest && k <= |rest| && rest[k..] == more + last
    ensures s == white + (rest[..k] + more) + last
  {
    assert rest == rest[..k] + rest[k..];
  }

  lemma CommentThenLead(c: string, lead: string)
    requires IsComment(c) && IsLead(lead)
    ensures IsLead(c + lead)
  {
    assert (c + lead)[..|c|] == c && (c + lead)[|c|..] == lead;
    assert CommentAtFront(c + lead, |c|);
  }

  /** A property has no comment in front of its name. */
  lemma NothingToStrip(declared: string, name: string)
    requires DeclaresName(declared, name)
    ensures ParsePropertyName(StripLeadingBlockComments(declared)) == Some(name)
  {
    var value :| Declares(declared, name, value);
    var before, written, after :|
      AllWhite(before) && WritesName(written, after, name) && declared == before + written + after + ":" + value;
    NameIsRead(declared, name, value, before, written, after);
    var trimmed := written + after + ":" + value;
    assert declared == before + trimmed && trimmed[0] == written[0] && !IsWhite(written[0]);
    TrimStartOfWhite(before, trimmed);
    assert "/*"[0] == '/';
    TrimStartTwice(declared);
  }

  /** Behind white space and comments, a property of this name. */
  ghost predicate DeclaresBehind(field: string, lead: string, name: string) {
    IsLead(lead) && lead <= field && DeclaresName(field[|lead|..], name)
  }

  /** A property is dropped exactly if its name, behind any comments, is a listed one. */
  lemma FieldIsDroppedIff(field: string, listed: set<string>)
    ensures !KeepsField(field, listed) <==> exists lead, name :: name in listed && DeclaresBehind(field, lead, name)
  {
    var stripped := StripLeadingBlockComments(field);
    if !KeepsField(field, listed) {
      var lead := StripParts(field);
      var name := ParsePropertyName(stripped).value;
      NameMeaning(stripped, name);
      assert field[|lead|..] == stripped;
      assert DeclaresBehind(field, lead, name);
    }
    if lead, name :| name in listed && DeclaresBehind(field, lead, name) {
      assert field == lead + field[|lead|..];
      StripSkips(lead, field[|lead|..]);
      NothingToStrip(field[|lead|..], name);
    }
  }
}
