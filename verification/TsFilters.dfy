/**
  The filters that take experimental union arms and experimental properties
  out of generated TypeScript, and what re-parsing their output gives.
*/
module TsFilters {
  import opened Wrappers
  import opened Text
  import opened TsScanner

  const ARM_DELIMITERS := {'|'}
  const FIELD_DELIMITERS := {',', ';'}
  const ARM_SEPARATOR := " | "
  const FIELD_SEPARATOR := ", "
  const INTERFACE_MARKER := "export interface"

  function Filter<T>(keep: T -> bool, s: seq<T>): seq<T> {
    if s == [] then []
    else if keep(s[0]) then [s[0]] + Filter(keep, s[1..])
    else Filter(keep, s[1..])
  }

  // --- Reading one arm or one property ---------------------------------------------------------

  predicate IsIdentChar(c: char) {
    'a' <= c <= 'z' || 'A' <= c <= 'Z' || '0' <= c <= '9' || c == '_'
  }

  function IdentLength(s: string): (n: nat)
    ensures n <= |s|
  {
    if s != [] && IsIdentChar(s[0]) then 1 + IdentLength(s[1..]) else 0
  }

  /** The index of the quote that ends a string literal, scanning from `i`. */
  function ClosingQuote(s: string, quote: char, i: nat, escape: bool): (r: Option<nat>)
    requires i <= |s|
    ensures r.Some? ==> i <= r.value < |s|
    decreases |s| - i
  {
    if i == |s| then None
    else if escape then ClosingQuote(s, quote, i + 1, false)
    else if s[i] == '\\' then ClosingQuote(s, quote, i + 1, true)
    else if s[i] == quote then Some(i)
    else ClosingQuote(s, quote, i + 1, false)
  }

  /** The raw text between the quotes, and the length of the literal with them. */
  function ParseStringLiteral(s: string): (r: Option<(string, nat)>)
    ensures r.Some? ==> r.value.1 <= |s|
  {
    if s == [] || (s[0] != '"' && s[0] != '\'') then None
    else
      match ClosingQuote(s, s[0], 1, false)
      case None => None
      case Some(i) => Some((s[1..i], i + 1))
  }

  function ParsePropertyName(input: string): Option<string> {
    var trimmed := TrimStart(input);
    if trimmed == [] then None
    else
      match ParseStringLiteral(trimmed)
      case Some((literal, consumed)) =>
        if StartsWith(TrimStart(trimmed[consumed..]), ":") then Some(literal) else None
      case None =>
        var end := IdentLength(trimmed);
        if end == 0 then None
        else
          var rest := TrimStart(trimmed[end..]);
          var rest' := if StartsWith(rest, "?") then TrimStart(rest[1..]) else rest;
          if StartsWith(rest', ":") then Some(trimmed[..end]) else None
  }

  function ParseProperty(input: string): Option<(string, string)> {
    match ParsePropertyName(input)
    case None => None
    case Some(name) =>
      match FindChar(input, ':')
      case None => None
      case Some(colon) => Some((name, TrimStart(input[colon + 1..])))
  }

  /** The value of the first property called `method`, if that value starts with a string literal. */
  function MethodOfFields(fields: seq<string>): Option<string> {
    if fields == [] then None
    else
      match ParseProperty(fields[0])
      case None => MethodOfFields(fields[1..])
      case Some((name, value)) =>
        if name != "method" then MethodOfFields(fields[1..])
        else
          match ParseStringLiteral(TrimStart(value))
          case None => None
          case Some((literal, _)) => Some(literal)
  }

  function ExtractMethodFromArm(arm: string): Option<string> {
    match BraceSpan(arm)
    case None => None
    case Some(Span(open, close)) =>
      MethodOfFields(Split(arm[open + 1..close], {','}))
  }

  function StripLeadingBlockComments(input: string): string
    decreases |input|
  {
    var rest := TrimStart(input);
    if !StartsWith(rest, "/*") then rest
    else
      match FindText(rest[2..], "*/")
      case None => rest
      case Some(end) =>
        TrimStartShorter(input);
        StripLeadingBlockComments(rest[2..][end + 2..])
  }

  lemma TrimStartShorter(s: string)
    ensures |TrimStart(s)| <= |s|
  {
  }

  predicate KeepsArm(arm: string, experimentalMethods: set<string>) {
    var m := ExtractMethodFromArm(arm);
    m.None? || m.value !in experimentalMethods
  }

  predicate KeepsField(field: string, experimentalFields: set<string>) {
    var name := ParsePropertyName(StripLeadingBlockComments(field));
    name.None? || name.value !in experimentalFields
  }

  // --- The union filter ------------------------------------------------------------------------

  /** The text up to the first `=`, the text up to the last `;`, and the rest. */
  function SplitTypeAlias(content: string): Option<(string, string, string)> {
    match (FindChar(content, '='), FindLastChar(content, ';'))
    case (Some(eq), Some(semi)) =>
      if semi <= eq then None
      else Some((content[..eq + 1], content[eq + 1..semi], content[semi..]))
    case _ => None
  }

  function KeptArms(body: string, experimentalMethods: set<string>): seq<string> {
    Filter((arm: string) => KeepsArm(arm, experimentalMethods), Split(body, ARM_DELIMITERS))
  }

  function FilteredUnion(content: string, experimentalMethods: set<string>): string {
    match SplitTypeAlias(content)
    case None => content
    case Some((prefix, body, suffix)) =>
      prefix + Join(KeptArms(body, experimentalMethods), ARM_SEPARATOR) + suffix
  }

  /** The empty method name is never experimental. */
  function FilteredClientRequest(content: string, experimentalMethods: set<string>): string {
    FilteredUnion(content, experimentalMethods - {""})
  }

  /** `filter_client_request_ts`, from the file's text to the text written back. */
  method FilterClientRequestTs(content: string, experimentalMethods: set<string>) returns (r: string)
    ensures r == FilteredClientRequest(content, experimentalMethods)
  {
    var methods := experimentalMethods - {""};
    match SplitTypeAlias(content) {
      case None => r := content;
      case Some((prefix, body, suffix)) =>
        var arms := SplitTopLevelMulti(body, ARM_DELIMITERS);
        var filtered := Filter((arm: string) => KeepsArm(arm, methods), arms);
        r := prefix + Join(filtered, ARM_SEPARATOR) + suffix;
    }
  }

  lemma {:induction false} FilterIsSubsequence<T>(keep: T -> bool, s: seq<T>)
    ensures Subsequence(Filter(keep, s), s)
  {
    if s != [] {
      FilterIsSubsequence(keep, s[1..]);
      if keep(s[0]) {
        assert Filter(keep, s)[1..] == Filter(keep, s[1..]);
      }
    }
  }

  lemma {:induction false} FilterTwice<T>(keep: T -> bool, s: seq<T>)
    ensures Filter(keep, Filter(keep, s)) == Filter(keep, s)
    ensures forall x | x in Filter(keep, s) :: keep(x)
  {
    if s != [] {
      FilterTwice(keep, s[1..]);
      if keep(s[0]) {
        assert Filter(keep, s)[1..] == Filter(keep, s[1..]);
      }
    }
  }

  lemma DelimitersAreNeutral()
    ensures Neutral(ARM_DELIMITERS) && Separator(ARM_SEPARATOR, ARM_DELIMITERS)
    ensures Neutral(FIELD_DELIMITERS) && Separator(FIELD_SEPARATOR, FIELD_DELIMITERS)
  {
    assert ARM_SEPARATOR[1] in ARM_DELIMITERS && AllWhite(ARM_SEPARATOR[..1]) && AllWhite(ARM_SEPARATOR[2..]);
    assert FIELD_SEPARATOR[0] in FIELD_DELIMITERS && AllWhite(FIELD_SEPARATOR[..0]) && AllWhite(FIELD_SEPARATOR[1..]);
  }

  /** Putting another body between prefix and suffix leaves both where they are found again. */
  lemma SplitTypeAliasOfReplaced(content: string, body: string)
    requires SplitTypeAlias(content).Some?
    ensures var (prefix, _, suffix) := SplitTypeAlias(content).value;
      SplitTypeAlias(prefix + body + suffix) == Some((prefix, body, suffix))
  {
    var (prefix, _, suffix) := SplitTypeAlias(content).value;
    var eq := FindChar(content, '=').value;
    var t := prefix + body + suffix;
    FindCharMeaning(content, '=');
    FindLastCharMeaning(content, ';');
    assert prefix[..eq] == content[..eq] == t[..eq];
    FindCharIs(t, '=', eq);
    var semi := |prefix| + |body|;
    assert suffix[0] == ';' == t[semi];
    assert t[semi + 1..] == suffix[1..];
    FindLastCharIs(t, ';', semi);
    assert t[..eq + 1] == prefix && t[eq + 1..semi] == body && t[semi..] == suffix;
  }

  /**
    Re-parsing the filtered union gives the same prefix and suffix and exactly
    the arms that were kept, none of them experimental; so filtering twice is
    filtering once.
  */
  lemma UnionFilterReparses(content: string, experimentalMethods: set<string>)
    requires SplitTypeAlias(content).Some?
    ensures var (prefix, body, suffix) := SplitTypeAlias(content).value;
      var again := SplitTypeAlias(FilteredUnion(content, experimentalMethods));
      && again.Some? && again.value.0 == prefix && again.value.2 == suffix
      && Split(again.value.1, ARM_DELIMITERS) == KeptArms(body, experimentalMethods)
    ensures var again := SplitTypeAlias(FilteredUnion(content, experimentalMethods)).value;
      forall arm | arm in Split(again.1, ARM_DELIMITERS) :: KeepsArm(arm, experimentalMethods)
    ensures FilteredUnion(FilteredUnion(content, experimentalMethods), experimentalMethods)
         == FilteredUnion(content, experimentalMethods)
  {
    var (prefix, body, suffix) := SplitTypeAlias(content).value;
    var keep := (arm: string) => KeepsArm(arm, experimentalMethods);
    var arms := Split(body, ARM_DELIMITERS);
    var kept := KeptArms(body, experimentalMethods);
    SplitTypeAliasOfReplaced(content, Join(kept, ARM_SEPARATOR));
    FilterIsSubsequence(keep, arms);
    FilterTwice(keep, arms);
    DelimitersAreNeutral();
    SplitKeepJoinSplit(body, kept, ARM_SEPARATOR, ARM_DELIMITERS);
    assert KeptArms(Join(kept, ARM_SEPARATOR), experimentalMethods) == Filter(keep, kept);
  }

  // --- The property filter -----------------------------------------------------------------------

  /** The offset from which the body's braces are looked for. */
  function BodyStart(content: string): (r: Option<nat>)
    ensures r.Some? ==> r.value <= |content|
  {
    match FindChar(content, '=')
    case Some(eq) => Some(eq + 1)
    case None =>
      match FindText(content, INTERFACE_MARKER)
      case Some(i) => Some(i + |INTERFACE_MARKER|)
      case None => None
  }

  /** A span found in the text from `start` on, in terms of the whole text. */
  function Shifted(start: nat, span: Option<Span>): (r: Option<Span>)
    ensures r.Some? <==> span.Some?
    ensures r.Some? ==> r.value.open == start + span.value.open && r.value.close == start + span.value.close
  {
    if span.None? then None else Some(Span(start + span.value.open, start + span.value.close))
  }

  function TypeBodySpan(content: string): (r: Option<Span>)
    ensures r.Some? ==> r.value.open < r.value.close < |content|
  {
    var start := BodyStart(content);
    if start.None? then None else Shifted(start.value, BraceSpan(content[start.value..]))
  }

  function FieldKeeper(experimentalFields: set<string>): string -> bool {
    (field: string) => KeepsField(field, experimentalFields)
  }

  function KeptFields(inner: string, experimentalFields: set<string>): seq<string> {
    Filter(FieldKeeper(experimentalFields), Split(inner, FIELD_DELIMITERS))
  }

  function NewBody(inner: string, experimentalFields: set<string>): string {
    Join(KeptFields(inner, experimentalFields), FIELD_SEPARATOR)
  }

  function FilteredFields(content: string, experimentalFields: set<string>): string {
    match TypeBodySpan(content)
    case None => content
    case Some(Span(open, close)) => Replaced(content, open, close, NewBody(content[open + 1..close], experimentalFields))
  }

  method TypeBodyBraceSpan(content: string) returns (span: Option<Span>)
    ensures span == TypeBodySpan(content)
  {
    var start := BodyStart(content);
    if start.None? {
      return None;
    }
    var relative := FindTopLevelBraceSpan(content[start.value..]);
    span := Shifted(start.value, relative);
  }

  /** `filter_experimental_fields_in_ts_file`, from the file's text to the text written back. */
  method FilterExperimentalFieldsInTsFile(content: string, experimentalFields: set<string>) returns (r: string)
    ensures r == FilteredFields(content, experimentalFields)
  {
    var span := TypeBodyBraceSpan(content);
    match span {
      case None => r := content;
      case Some(Span(open, close)) =>
        var inner := FilterFields(content[open + 1..close], experimentalFields);
        r := Replaced(content, open, close, inner);
    }
  }

  method FilterFields(inner: string, experimentalFields: set<string>) returns (r: string)
    ensures r == NewBody(inner, experimentalFields)
  {
    var fields := SplitTopLevelMulti(inner, FIELD_DELIMITERS);
    r := Join(Filter(FieldKeeper(experimentalFields), fields), FIELD_SEPARATOR);
  }

  /** Texts with a common beginning have the marker in the same places there. */
  lemma OccursInCommon(s: string, t: string, n: nat, pattern: string, j: nat)
    requires n <= |s| && n <= |t| && s[..n] == t[..n] && j + |pattern| <= n
    ensures OccursAt(s, pattern, j) == OccursAt(t, pattern, j)
  {
    var e := j + |pattern|;
    assert t[j..e] == t[..n][j..e] == s[..n][j..e] == s[j..e];
  }

  lemma FindTextInCommon(s: string, t: string, n: nat, pattern: string)
    requires n <= |s| && n <= |t| && s[..n] == t[..n]
    requires FindText(s, pattern).Some? && FindText(s, pattern).value + |pattern| <= n
    ensures FindText(t, pattern) == FindText(s, pattern)
  {
    var i := FindText(s, pattern).value;
    FindTextFromMeaning(s, pattern, 0);
    FindTextFromMeaning(t, pattern, 0);
    forall j: nat | j <= i ensures OccursAt(t, pattern, j) == OccursAt(s, pattern, j) {
      OccursInCommon(s, t, n, pattern, j);
    }
  }

  lemma FindCharInCommon(s: string, t: string, n: nat, c: char)
    requires n <= |s| && n <= |t| && s[..n] == t[..n]
    requires FindChar(s, c).Some? && FindChar(s, c).value < n
    ensures FindChar(t, c) == FindChar(s, c)
  {
    var i := FindChar(s, c).value;
    FindCharMeaning(s, c);
    assert t[..i] == t[..n][..i] == s[..n][..i] == s[..i];
    assert t[i] == t[..n][i] == s[..n][i] == s[i];
    FindCharIs(t, c, i);
  }

  /** A change behind the opening brace that brings in no new `=` leaves the start of the body where it was. */
  lemma BodyStartOfReplaced(s: string, t: string, open: nat)
    requires BodyStart(s).Some? && BodyStart(s).value <= open < |s|
    requires open < |t| && t[..open + 1] == s[..open + 1]
    requires '=' !in s ==> '=' !in t
    ensures BodyStart(t) == BodyStart(s)
  {
    if FindChar(s, '=').Some? {
      FindCharInCommon(s, t, open + 1, '=');
    } else {
      FindCharMeaning(s, '=');
      FindCharMeaning(t, '=');
      FindTextInCommon(s, t, open + 1, INTERFACE_MARKER);
    }
  }

  lemma {:induction false} SplitKeepsChars(current: string, rest: string, st: Scan, delimiters: set<char>, p: string, c: char)
    requires p in TrimmedParts(Pieces(current, rest, st, delimiters)) && c in p
    ensures c in current || c in rest
    decreases |rest|
  {
    if rest == [] {
      TrimmedPartsCons(current, []);
      var _, _ := TrimParts(current);
    } else if Cuts(st, rest[0], delimiters) {
      var pieces := Pieces([], rest[1..], Step(st, rest[0]), delimiters);
      TrimmedPartsCons(current, pieces);
      if p in TrimmedParts(pieces) {
        SplitKeepsChars([], rest[1..], Step(st, rest[0]), delimiters, p, c);
      } else {
        var _, _ := TrimParts(current);
      }
    } else {
      SplitKeepsChars(current + [rest[0]], rest[1..], Step(st, rest[0]), delimiters, p, c);
    }
  }

  lemma {:induction false} FilterMembers<T>(keep: T -> bool, s: seq<T>, x: T)
    requires x in Filter(keep, s)
    ensures x in s
  {
    if s != [] && !(keep(s[0]) && x == s[0]) {
      FilterMembers(keep, s[1..], x);
    }
  }

  /** The new body has no `=` that the old one did not have. */
  lemma NoNewEquals(inner: string, experimentalFields: set<string>)
    requires '=' !in inner
    ensures '=' !in Join(KeptFields(inner, experimentalFields), FIELD_SEPARATOR)
  {
    var kept := KeptFields(inner, experimentalFields);
    if '=' in Join(kept, FIELD_SEPARATOR) {
      JoinChars(kept, FIELD_SEPARATOR, '=');
      var i :| 0 <= i < |kept| && '=' in kept[i];
      FilterMembers(FieldKeeper(experimentalFields), Split(inner, FIELD_DELIMITERS), kept[i]);
      SplitKeepsChars([], inner, START, FIELD_DELIMITERS, kept[i], '=');
    }
  }

  /** The properties that were kept come back from the new body. */
  lemma KeptFieldsAgain(inner: string, experimentalFields: set<string>)
    ensures Split(NewBody(inner, experimentalFields), FIELD_DELIMITERS) == KeptFields(inner, experimentalFields)
  {
    var fields := Split(inner, FIELD_DELIMITERS);
    DelimitersAreNeutral();
    FilterIsSubsequence(FieldKeeper(experimentalFields), fields);
    SplitKeepJoinSplit(inner, KeptFields(inner, experimentalFields), FIELD_SEPARATOR, FIELD_DELIMITERS);
  }

  lemma KeptFieldsBalanced(inner: string, experimentalFields: set<string>)
    requires OpensItsBraces(START, inner) && Run(START, inner) == START
    ensures var body := NewBody(inner, experimentalFields);
      OpensItsBraces(START, body) && Run(START, body) == START
  {
    var fields, kept := Split(inner, FIELD_DELIMITERS), KeptFields(inner, experimentalFields);
    DelimitersAreNeutral();
    PiecesAreFields([], inner, START, FIELD_DELIMITERS);
    FilterIsSubsequence(FieldKeeper(experimentalFields), fields);
    SubsequenceFields(kept, fields);
    JoinOfFields(kept, FIELD_SEPARATOR, FIELD_DELIMITERS);
  }

  lemma ShiftedIff(start: nat, span: Option<Span>, open: nat, close: nat)
    requires start <= open && start <= close
    ensures Shifted(start, span) == Some(Span(open, close)) <==> span == Some(Span(open - start, close - start))
  {
  }

  lemma BodyStartAgain(content: string, start: nat, open: nat, close: nat, body: string)
    requires BodyStart(content) == Some(start) && start <= open < close < |content|
    requires '=' !in Replaced(content, open, close, body) || '=' in content
    ensures BodyStart(Replaced(content, open, close, body)) == Some(start)
  {
    ReplacedParts(content, open, close, body);
    BodyStartOfReplaced(content, Replaced(content, open, close, body), open);
  }

  /** What is found in the text from `start` on, in terms of the whole text. */
  lemma FoundShifted(before: string, after: string, start: nat, open: nat, close: nat, body: string, c: nat)
    requires start <= open < close < start + |before| && c == open + 1 + |body| && c < start + |after|
    requires after[..open - start + 1] == before[..open - start + 1]
    requires after[open - start + 1..c - start] == body && after[c - start] == before[close - start]
    requires Shifted(start, BraceSpan(before)) == Some(Span(open, close))
    ensures Shifted(start, BraceSpan(after)) == Some(Span(open, c)) <==> StaysInside(START.Nested(), body)
  {
    ShiftedIff(start, BraceSpan(before), open, close);
    FoundIff(before, after, open - start, close - start, c - start, body);
    ShiftedIff(start, BraceSpan(after), open, c);
  }

  lemma TypeBodyFrom(content: string, start: nat)
    requires BodyStart(content) == Some(start)
    ensures start <= |content| && TypeBodySpan(content) == Shifted(start, BraceSpan(content[start..]))
  {
  }

  lemma TailParts(content: string, start: nat, open: nat, close: nat, body: string, again: string, c: nat)
    requires start <= open < close < |content| && again == Replaced(content, open, close, body) && c == open + 1 + |body|
    ensures start <= open < c < |again|
    ensures again[start..][..open - start + 1] == content[start..][..open - start + 1]
    ensures again[start..][open - start + 1..c - start] == body && again[start..][c - start] == content[start..][close - start]
  {
    ReplacedParts(content, open, close, body);
    SliceOfRest(again, start, 0, open - start + 1);
    SliceOfRest(content, start, 0, open - start + 1);
    assert again[start..open + 1] == again[..open + 1][start..] && content[start..open + 1] == content[..open + 1][start..];
    SliceOfRest(again, start, open - start + 1, c - start);
  }

  /** A body without new `=` is located between the same opening brace and its own closing one exactly if the scan stays inside. */
  lemma TypeBodySpanOfReplaced(content: string, open: nat, close: nat, body: string, again: string, c: nat)
    requires TypeBodySpan(content) == Some(Span(open, close))
    requires again == Replaced(content, open, close, body) && c == open + 1 + |body|
    requires '=' !in again || '=' in content
    ensures TypeBodySpan(again) == Some(Span(open, c)) <==> StaysInside(START.Nested(), body)
  {
    var start := BodyStart(content).value;
    BodyStartAgain(content, start, open, close, body);
    TypeBodyFrom(content, start);
    TypeBodyFrom(again, start);
    TailParts(content, start, open, close, body, again, c);
    FoundShifted(content[start..], again[start..], start, open, close, body, c);
  }

  lemma SliceOfRest(s: string, start: nat, from: nat, end: nat)
    requires from <= end && start + end <= |s|
    ensures s[start..][from..end] == s[start + from..start + end]
  {
  }

  lemma InnerIsBalanced(content: string, open: nat, close: nat)
    requires TypeBodySpan(content) == Some(Span(open, close))
    requires OpensItsBraces(START, content[open + 1..close])
    ensures Run(START, content[open + 1..close]) == START
  {
    var start := BodyStart(content).value;
    SliceOfRest(content, start, open - start + 1, close - start);
    FoundBodyBalanced(content[start..], open - start, close - start);
  }

  lemma KeptFieldsTwice(inner: string, body: string, experimentalFields: set<string>)
    requires Split(body, FIELD_DELIMITERS) == KeptFields(inner, experimentalFields)
    ensures KeptFields(body, experimentalFields) == KeptFields(inner, experimentalFields)
    ensures forall field | field in KeptFields(inner, experimentalFields) :: KeepsField(field, experimentalFields)
  {
    var keep := FieldKeeper(experimentalFields);
    FilterTwice(keep, Split(inner, FIELD_DELIMITERS));
    assert KeptFields(body, experimentalFields) == Filter(keep, KeptFields(inner, experimentalFields));
  }

  /**
    The filter's output re-parses to exactly the properties that were kept;
    its braces are found again, the closing one right after the new body,
    exactly if the scan of the new body stays inside.
  */
  lemma FieldFilterReparses(content: string, experimentalFields: set<string>, open: nat, close: nat, body: string, again: string, c: nat)
    requires TypeBodySpan(content) == Some(Span(open, close))
    requires body == NewBody(content[open + 1..close], experimentalFields)
    requires again == FilteredFields(content, experimentalFields) && c == open + 1 + |body|
    ensures again == Replaced(content, open, close, body)
    ensures Split(body, FIELD_DELIMITERS) == KeptFields(content[open + 1..close], experimentalFields)
    ensures TypeBodySpan(again) == Some(Span(open, c)) <==> StaysInside(START.Nested(), body)
  {
    KeptFieldsAgain(content[open + 1..close], experimentalFields);
    NoNewEqualsInFile(content, open, close, body, experimentalFields);
    TypeBodySpanOfReplaced(content, open, close, body, again, c);
  }

  /** The scan stays inside if no brace in the old body closes one that it did not open. */
  lemma BalancedFieldsStayInside(content: string, experimentalFields: set<string>, open: nat, close: nat)
    requires TypeBodySpan(content) == Some(Span(open, close))
    requires OpensItsBraces(START, content[open + 1..close])
    ensures var body := NewBody(content[open + 1..close], experimentalFields);
      StaysInside(START.Nested(), body) && OpensItsBraces(START, body)
  {
    InnerIsBalanced(content, open, close);
    KeptFieldsBalanced(content[open + 1..close], experimentalFields);
    BalancedStaysInside(START, NewBody(content[open + 1..close], experimentalFields));
  }

  lemma NoNewEqualsInFile(content: string, open: nat, close: nat, body: string, experimentalFields: set<string>)
    requires open < close < |content|
    requires body == NewBody(content[open + 1..close], experimentalFields)
    ensures '=' !in Replaced(content, open, close, body) || '=' in content
  {
    if '=' !in content {
      NoNewEquals(content[open + 1..close], experimentalFields);
    }
  }

  /** No experimental property is left in the new body; and if the scan stays inside it, filtering again changes nothing. */
  lemma FieldFilterIdempotent(content: string, experimentalFields: set<string>, open: nat, close: nat, body: string, again: string)
    requires TypeBodySpan(content) == Some(Span(open, close))
    requires body == NewBody(content[open + 1..close], experimentalFields)
    requires again == FilteredFields(content, experimentalFields)
    ensures open + 1 + |body| <= |again| && again[open + 1..open + 1 + |body|] == body
    ensures forall field | field in Split(body, FIELD_DELIMITERS) :: KeepsField(field, experimentalFields)
    ensures StaysInside(START.Nested(), body) ==> FilteredFields(again, experimentalFields) == again
  {
    FieldFilterReparses(content, experimentalFields, open, close, body, again, open + 1 + |body|);
    KeptFieldsTwice(content[open + 1..close], body, experimentalFields);
    ReplacedParts(content, open, close, body);
    ReplacedTwice(content, open, close, body);
  }

  // --- The texts that the property filter leaves alone --------------------------------------------

  /** Trimmed properties, none of them experimental, with a comma and a blank between neighbours. */
  ghost predicate IsFieldList(inner: string, experimentalFields: set<string>) {
    exists parts :: WellSplit(parts, FIELD_DELIMITERS) && AllKept(parts, experimentalFields) && inner == Join(parts, FIELD_SEPARATOR)
  }

  predicate AllKept(parts: seq<string>, experimentalFields: set<string>) {
    forall i | 0 <= i < |parts| :: KeepsField(parts[i], experimentalFields)
  }

  lemma {:induction false} FilterAll<T>(keep: T -> bool, s: seq<T>)
    requires forall i | 0 <= i < |s| :: keep(s[i])
    ensures Filter(keep, s) == s
  {
    if s != [] {
      FilterAll(keep, s[1..]);
      assert s == [s[0]] + s[1..];
    }
  }

  lemma KeptList(inner: string, experimentalFields: set<string>)
    ensures WellSplit(KeptFields(inner, experimentalFields), FIELD_DELIMITERS)
    ensures AllKept(KeptFields(inner, experimentalFields), experimentalFields)
  {
    var keep, fields := FieldKeeper(experimentalFields), Split(inner, FIELD_DELIMITERS);
    DelimitersAreNeutral();
    SplitIsWellSplit(inner, FIELD_DELIMITERS);
    FilterIsSubsequence(keep, fields);
    SubsequenceWellSplit(Filter(keep, fields), fields, FIELD_DELIMITERS);
    FilterTwice(keep, fields);
    assert forall i | 0 <= i < |Filter(keep, fields)| :: keep(Filter(keep, fields)[i]);
  }

  lemma ListIsFixed(parts: seq<string>, experimentalFields: set<string>)
    requires WellSplit(parts, FIELD_DELIMITERS) && AllKept(parts, experimentalFields)
    ensures NewBody(Join(parts, FIELD_SEPARATOR), experimentalFields) == Join(parts, FIELD_SEPARATOR)
  {
    DelimitersAreNeutral();
    JoinThenSplit(parts, FIELD_SEPARATOR, FIELD_DELIMITERS);
    FilterAll(FieldKeeper(experimentalFields), parts);
  }

  lemma BodyFixedIff(inner: string, experimentalFields: set<string>)
    ensures NewBody(inner, experimentalFields) == inner <==> IsFieldList(inner, experimentalFields)
  {
    if NewBody(inner, experimentalFields) == inner {
      KeptList(inner, experimentalFields);
    } else if parts :| WellSplit(parts, FIELD_DELIMITERS) && AllKept(parts, experimentalFields) && inner == Join(parts, FIELD_SEPARATOR) {
      ListIsFixed(parts, experimentalFields);
    }
  }

  lemma ReplacedSame(content: string, open: nat, close: nat, body: string)
    requires open < close < |content|
    ensures Replaced(content, open, close, body) == content <==> body == content[open + 1..close]
  {
    var inner := content[open + 1..close];
    assert content[..open + 1] + inner + content[close..] == content;
    if Replaced(content, open, close, body) == content {
      assert |Replaced(content, open, close, body)| == |content|;
      assert Replaced(content, open, close, body)[open + 1..open + 1 + |body|] == body;
    }
  }

  /** The filter leaves a text alone exactly if it has no body or its body is such a list. So it is for its own output. */
  lemma FieldFilterFixedIff(content: string, experimentalFields: set<string>)
    ensures FilteredFields(content, experimentalFields) == content <==>
      match TypeBodySpan(content)
      case None => true
      case Some(Span(open, close)) => IsFieldList(content[open + 1..close], experimentalFields)
  {
    match TypeBodySpan(content) {
      case None =>
      case Some(Span(open, close)) =>
        BodyFixedIff(content[open + 1..close], experimentalFields);
        ReplacedSame(content, open, close, NewBody(content[open + 1..close], experimentalFields));
    }
  }

  lemma ReplacedTwice(content: string, open: nat, close: nat, body: string)
    requires open < close < |content|
    ensures var close' := open + 1 + |body|;
      && close' < |Replaced(content, open, close, body)|
      && Replaced(Replaced(content, open, close, body), open, close', body) == Replaced(content, open, close, body)
  {
    ReplacedParts(content, open, close, body);
  }
}
