/**
  The filters on the texts the generator writes: unions whose arms give the
  method first, and bodies that list named properties.
*/
module TsGenerated {
  import opened Wrappers
  import opened Text
  import opened TsScanner
  import opened TsFilters
  import opened TsNames

  /** Scanned on its own it ends where it started, and it closes no brace that it did not open. */
  predicate Complete(s: string) {
    Run(START, s) == START && OpensItsBraces(START, s)
  }

  lemma CompleteAppend(a: string, b: string)
    requires Complete(a) && Complete(b)
    ensures Complete(a + b)
  {
    RunAppend(START, a, b);
    OpensItsBracesAppend(START, a, b);
  }

  // --- Quoted words ------------------------------------------------------------------------------------

  /** Neither quotes nor backslashes. */
  predicate Simple(s: string) {
    forall i | 0 <= i < |s| :: s[i] != '"' && s[i] != '\\'
  }

  function Quoted(s: string): string {
    "\"" + s + "\""
  }

  const IN_QUOTES := Scan(0, 0, 0, 0, Some('"'), false)

  lemma {:induction false} SimpleInQuotes(s: string, delimiters: set<char>)
    requires Simple(s)
    ensures Run(IN_QUOTES, s) == IN_QUOTES && OpensItsBraces(IN_QUOTES, s) && NoCut(IN_QUOTES, s, delimiters)
    decreases |s|
  {
    if s != [] {
      assert Step(IN_QUOTES, s[0]) == IN_QUOTES;
      SimpleInQuotes(s[1..], delimiters);
    }
  }

  lemma {:induction false} SimpleIsPlain(s: string)
    requires Simple(s)
    ensures Plain(s, '"')
    decreases |s|
  {
    if s != [] {
      SimpleIsPlain(s[1..]);
    }
  }

  lemma OneCharacter(st: Scan, c: char)
    ensures Run(st, [c]) == Step(st, c)
    ensures OpensItsBraces(st, [c]) <==> !(!st.InString() && c == '}' && st.brace == 0)
    ensures forall delimiters :: NoCut(st, [c], delimiters) <==> !Cuts(st, c, delimiters)
  {
    assert [c][1..] == [];
    assert Run(Step(st, c), []) == Step(st, c);
    assert OpensItsBraces(Step(st, c), []);
    assert forall delimiters :: NoCut(Step(st, c), [], delimiters);
  }

  lemma QuotedIsLiteral(s: string)
    requires Simple(s)
    ensures IsLiteral(Quoted(s), s)
  {
    SimpleIsPlain(s);
    assert Quoted(s)[0] == '"' && Quoted(s)[|s| + 1] == '"';
    assert Quoted(s)[1..|s| + 1] == s;
  }

  lemma QuotedIsComplete(s: string, delimiters: set<char>)
    requires Simple(s) && '"' !in delimiters
    ensures Complete(Quoted(s)) && NoCut(START, Quoted(s), delimiters)
  {
    var q: string := ['"'];
    assert Quoted(s) == q + s + q;
    OneCharacter(START, '"');
    OneCharacter(IN_QUOTES, '"');
    SimpleInQuotes(s, delimiters);
    RunAppend(START, q + s, q);
    RunAppend(START, q, s);
    OpensItsBracesAppend(START, q + s, q);
    OpensItsBracesAppend(START, q, s);
    NoCutAppend(START, q + s, q, delimiters);
    NoCutAppend(START, q, s, delimiters);
  }

  lemma {:induction false} UnscannedIsComplete(s: string, delimiters: set<char>)
    requires forall i | 0 <= i < |s| :: s[i] in {' ', ':', ','} && s[i] !in delimiters
    ensures Complete(s) && NoCut(START, s, delimiters)
    decreases |s|
  {
    if s != [] {
      assert Step(START, s[0]) == START;
      UnscannedIsComplete(s[1..], delimiters);
    }
  }

  // --- Arms that give the method first ---------------------------------------------------------------------

  function MethodProperty(m: string): string {
    Quoted("method") + ": " + Quoted(m)
  }

  function ArmBody(m: string, rest: string): string {
    " " + MethodProperty(m) + ", " + rest
  }

  /** The arm of a method with anything behind the method: `{ "method": "…", … }`. */
  function GeneratedArm(m: string, rest: string): string {
    "{" + ArmBody(m, rest) + "}"
  }

  lemma MethodIsSimple()
    ensures Simple("method")
  {
  }

  lemma MethodPropertyIsAtom(m: string)
    requires Simple(m)
    ensures Complete(MethodProperty(m)) && Atom(MethodProperty(m), {','})
  {
    var key, value := Quoted("method"), Quoted(m);
    MethodIsSimple();
    QuotedIsComplete("method", {','});
    QuotedIsComplete(m, {','});
    UnscannedIsComplete(": ", {','});
    CompleteAppend(key, ": ");
    CompleteAppend(key + ": ", value);
    NoCutAppend(START, key + ": ", value, {','});
    NoCutAppend(START, key, ": ", {','});
    assert MethodProperty(m)[0] == '"' && MethodProperty(m)[|MethodProperty(m)| - 1] == '"';
  }

  lemma QuotedValue(m: string, value: string)
    requires Simple(m) && value == " " + Quoted(m)
    ensures StartsWithLiteral(value, m)
  {
    QuotedIsLiteral(m);
    assert value == " " + Quoted(m) + [];
  }

  lemma QuotedKey(field: string, name: string, value: string)
    requires Simple(name) && field == Quoted(name) + ":" + value
    ensures Declares(field, name, value)
  {
    QuotedIsLiteral(name);
    assert field == [] + Quoted(name) + [] + ":" + value;
    assert WritesName(Quoted(name), [], name);
  }

  lemma MethodPropertySays(m: string)
    requires Simple(m)
    ensures SaysMethod(MethodProperty(m), m)
  {
    MethodIsSimple();
    var value := " " + Quoted(m);
    QuotedValue(m, value);
    assert MethodProperty(m) == Quoted("method") + ":" + value;
    QuotedKey(MethodProperty(m), "method", value);
  }

  lemma ArmBodyIsComplete(m: string, rest: string)
    requires Simple(m) && Complete(rest)
    ensures Complete(ArmBody(m, rest))
  {
    MethodPropertyIsAtom(m);
    UnscannedIsComplete(" ", {});
    UnscannedIsComplete(", ", {});
    CompleteAppend(" ", MethodProperty(m));
    CompleteAppend(" " + MethodProperty(m), ", ");
    CompleteAppend(" " + MethodProperty(m) + ", ", rest);
  }

  /** The method is the first part of the arm's body. */
  lemma MethodIsFirstPart(m: string, rest: string)
    requires Simple(m)
    ensures Split(ArmBody(m, rest), {','}) != [] && Split(ArmBody(m, rest), {','})[0] == MethodProperty(m)
  {
    var p := MethodProperty(m);
    MethodPropertyIsAtom(m);
    UnscannedIsComplete(" ", {','});
    assert ", "[0] == ',' && AllWhite(", "[..0]) && AllWhite(", "[1..]);
    assert Separator(", ", {','});
    assert ArmBody(m, rest) == " " + (p + ", " + rest) && [] + " " == " ";
    PiecesSkip([], " ", p + ", " + rest, START, {','});
    var b := SplitFirst(" ", p, ", ", rest, {','});
  }

  lemma {:induction false} NestedNoCut(st: Scan, s: string, delimiters: set<char>)
    requires OpensItsBraces(st, s)
    ensures NoCut(st.Nested(), s, delimiters)
    decreases |s|
  {
    if s != [] {
      assert Step(st.Nested(), s[0]) == Step(st, s[0]).Nested();
      NestedNoCut(Step(st, s[0]), s[1..], delimiters);
    }
  }

  /** Braces around a complete text are found, and nothing is cut inside. */
  lemma BracesAround(body: string, delimiters: set<char>)
    requires Complete(body) && '{' !in delimiters
    ensures IsBraceSpan("{" + body + "}", 0, |body| + 1)
    ensures Complete("{" + body + "}") && Atom("{" + body + "}", delimiters)
  {
    var t := "{" + body + "}";
    var open, close: string := ['{'], ['}'];
    assert t == open + body + close;
    OneCharacter(START, '{');
    OneCharacter(START.Nested(), '}');
    assert Step(START, '{') == START.Nested() && Step(START.Nested(), '}') == START;
    RunNested(START, body);
    RunAppend(START, open + body, close);
    RunAppend(START, open, body);
    NestedOpens(START, body);
    OpensItsBracesAppend(START, open + body, close);
    OpensItsBracesAppend(START, open, body);
    NestedNoCut(START, body, delimiters);
    NoCutAppend(START, open + body, close, delimiters);
    NoCutAppend(START, open, body, delimiters);
    EmptyBraces("{}");
    assert Replaced("{}", 0, 1, body) == t;
    FoundAgain("{}", 0, 1, body, t, |body| + 1);
    BraceSpanMeaning(t, 0, |body| + 1);
  }

  lemma {:induction false} NestedOpens(st: Scan, s: string)
    requires OpensItsBraces(st, s)
    ensures OpensItsBraces(st.Nested(), s)
    decreases |s|
  {
    if s != [] {
      assert Step(st.Nested(), s[0]) == Step(st, s[0]).Nested();
      NestedOpens(Step(st, s[0]), s[1..]);
    }
  }

  lemma EmptyBraces(t: string)
    requires t == "{}"
    ensures BraceSpan(t) == Some(Span(0, 1))
  {
    assert t[0] == '{' && t[1] == '}';
    assert SpanFrom(t, 1, START.Nested(), Some(0)) == Some(Span(0, 1));
  }

  /** Such an arm says its method and no other. */
  lemma GeneratedArmSays(m: string, rest: string, other: string)
    requires Simple(m) && Complete(rest)
    ensures ArmSays(GeneratedArm(m, rest), other) <==> other == m
  {
    var arm, body := GeneratedArm(m, rest), ArmBody(m, rest);
    ArmBodyIsComplete(m, rest);
    BracesAround(body, {'|'});
    MethodIsFirstPart(m, rest);
    MethodPropertySays(m);
    var fields := Split(body, {','});
    assert arm[1..|body| + 1] == body;
    assert SaysAt(fields, m, 0);
    assert ListSays(fields, m);
    assert ArmSays(arm, m);
    if ArmSays(arm, other) {
      var o: nat, c: nat :| IsBraceSpan(arm, o, c) && ListSays(Split(arm[o + 1..c], {','}), other);
      BraceSpanUnique(arm, o, c, 0, |body| + 1);
      MethodMeaning(fields, m);
      MethodMeaning(fields, other);
    }
  }

  /** The arm of a method is kept exactly if the method is not listed. */
  lemma GeneratedArmIsKeptIff(m: string, rest: string, listed: set<string>)
    requires Simple(m) && Complete(rest)
    ensures KeepsArm(GeneratedArm(m, rest), listed) <==> m !in listed
  {
    ArmIsDroppedIff(GeneratedArm(m, rest), listed);
    GeneratedArmSays(m, rest, m);
    forall other | ArmSays(GeneratedArm(m, rest), other) ensures other == m {
      GeneratedArmSays(m, rest, other);
    }
  }

  /** An arm none of whose properties is called `method` is kept. */
  lemma ArmWithoutMethodIsKept(arm: string, open: nat, close: nat, listed: set<string>)
    requires IsBraceSpan(arm, open, close)
    requires forall field | field in Split(arm[open + 1..close], {','}) :: !DeclaresName(field, "method")
    ensures KeepsArm(arm, listed)
  {
    ArmIsDroppedIff(arm, listed);
    if m :| m in listed && ArmSays(arm, m) {
      var o: nat, c: nat :| IsBraceSpan(arm, o, c) && ListSays(Split(arm[o + 1..c], {','}), m);
      BraceSpanUnique(arm, o, c, open, close);
      var fields := Split(arm[open + 1..close], {','});
      var i :| 0 <= i < |fields| && SaysAt(fields, m, i);
      assert fields[i] in fields && DeclaresName(fields[i], "method");
    }
  }

  // --- Whole unions and whole bodies ---------------------------------------------------------------------------

  /** The parts whose name is not listed. */
  function Unlisted(parts: seq<string>, names: seq<string>, listed: set<string>): seq<string>
    requires |parts| == |names|
  {
    if parts == [] then []
    else (if names[0] in listed then [] else [parts[0]]) + Unlisted(parts[1..], names[1..], listed)
  }

  lemma {:induction false} FilterIsUnlisted(keep: string -> bool, parts: seq<string>, names: seq<string>, listed: set<string>)
    requires |parts| == |names| && forall i | 0 <= i < |parts| :: keep(parts[i]) <==> names[i] !in listed
    ensures Filter(keep, parts) == Unlisted(parts, names, listed)
  {
    if parts != [] {
      assert forall i | 0 <= i < |parts[1..]| :: parts[1..][i] == parts[i + 1] && names[1..][i] == names[i + 1];
      FilterIsUnlisted(keep, parts[1..], names[1..], listed);
    }
  }

  lemma SplitBehindWhite(lead: string, parts: seq<string>, sep: string, delimiters: set<char>)
    requires Neutral(delimiters) && Separator(sep, delimiters) && AllWhite(lead) && WellSplit(parts, delimiters)
    ensures Split(lead + Join(parts, sep), delimiters) == parts
  {
    RunWhite(START, lead, delimiters);
    assert [] + lead == lead;
    PiecesSkip([], lead, Join(parts, sep), START, delimiters);
    SplitOfJoinFrom(lead, parts, sep, delimiters);
  }

  /**
    A generated union keeps exactly the arms whose method is not listed, in
    order: the text up to the first equals sign, those arms, and the text from
    the last semicolon on.
  */
  lemma GeneratedUnionFiltered(content: string, prefix: string, suffix: string, lead: string, arms: seq<string>,
                               methods: seq<string>, rests: seq<string>, listed: set<string>)
    requires |arms| == |methods| == |rests| && AllWhite(lead)
    requires forall i | 0 <= i < |arms| :: Simple(methods[i]) && Complete(rests[i]) && arms[i] == GeneratedArm(methods[i], rests[i])
    requires prefix != [] && '=' !in prefix[..|prefix| - 1] && prefix[|prefix| - 1] == '='
    requires suffix != [] && suffix[0] == ';' && ';' !in suffix[1..]
    requires content == prefix + (lead + Join(arms, " | ")) + suffix
    ensures FilteredUnion(content, listed) == prefix + Join(Unlisted(arms, methods, listed), " | ") + suffix
  {
    forall i | 0 <= i < |arms| ensures Atom(arms[i], ARM_DELIMITERS) && Balanced(arms[i]) {
      ArmBodyIsComplete(methods[i], rests[i]);
      BracesAround(ArmBody(methods[i], rests[i]), ARM_DELIMITERS);
    }
    var body := lead + Join(arms, ARM_SEPARATOR);
    DelimitersAreNeutral();
    SplitBehindWhite(lead, arms, ARM_SEPARATOR, ARM_DELIMITERS);
    AliasParts(content, prefix, body, suffix);
    var keep := (arm: string) => KeepsArm(arm, listed);
    forall i | 0 <= i < |arms| ensures keep(arms[i]) <==> methods[i] !in listed {
      GeneratedArmIsKeptIff(methods[i], rests[i], listed);
    }
    FilterIsUnlisted(keep, arms, methods, listed);
    assert KeptArms(body, listed) == Filter(keep, arms);
  }

  /** The arms whose method is empty or not listed. */
  function KeptByMethod(arms: seq<string>, methods: seq<string>, listed: set<string>): seq<string>
    requires |arms| == |methods|
  {
    if arms == [] then []
    else (if methods[0] == "" || methods[0] !in listed then [arms[0]] else []) + KeptByMethod(arms[1..], methods[1..], listed)
  }

  lemma {:induction false} KeptIsUnlisted(arms: seq<string>, methods: seq<string>, listed: set<string>)
    requires |arms| == |methods|
    ensures KeptByMethod(arms, methods, listed) == Unlisted(arms, methods, listed - {""})
  {
    if arms != [] {
      KeptIsUnlisted(arms[1..], methods[1..], listed);
    }
  }

  /** So the filter of the client requests keeps an arm exactly if its method is empty or not listed. */
  lemma ClientRequestFiltered(content: string, prefix: string, suffix: string, lead: string, arms: seq<string>,
                              methods: seq<string>, rests: seq<string>, listed: set<string>)
    requires |arms| == |methods| == |rests| && AllWhite(lead)
    requires forall i | 0 <= i < |arms| :: Simple(methods[i]) && Complete(rests[i]) && arms[i] == GeneratedArm(methods[i], rests[i])
    requires prefix != [] && '=' !in prefix[..|prefix| - 1] && prefix[|prefix| - 1] == '='
    requires suffix != [] && suffix[0] == ';' && ';' !in suffix[1..]
    requires content == prefix + (lead + Join(arms, " | ")) + suffix
    ensures FilteredClientRequest(content, listed) == prefix + Join(KeptByMethod(arms, methods, listed), " | ") + suffix
  {
    GeneratedUnionFiltered(content, prefix, suffix, lead, arms, methods, rests, listed - {""});
    KeptIsUnlisted(arms, methods, listed);
  }

  lemma AliasParts(content: string, prefix: string, body: string, suffix: string)
    requires prefix != [] && '=' !in prefix[..|prefix| - 1] && prefix[|prefix| - 1] == '='
    requires suffix != [] && suffix[0] == ';' && ';' !in suffix[1..]
    requires content == prefix + body + suffix
    ensures SplitTypeAlias(content) == Some((prefix, body, suffix))
  {
    var eq, semi := |prefix| - 1, |prefix| + |body|;
    assert content[..eq] == prefix[..eq];
    FindCharIs(content, '=', eq);
    assert content[semi] == ';' && content[semi + 1..] == suffix[1..];
    FindLastCharIs(content, ';', semi);
    assert content[..eq + 1] == prefix && content[eq + 1..semi] == body && content[semi..] == suffix;
  }

  /** A property under its name: comments, then the name, and then the value. */
  ghost predicate NamedField(field: string, name: string) {
    exists lead :: DeclaresBehind(field, lead, name)
  }

  lemma NamedFieldIsKeptIff(field: string, name: string, listed: set<string>)
    requires NamedField(field, name)
    ensures KeepsField(field, listed) <==> name !in listed
  {
    var lead :| DeclaresBehind(field, lead, name);
    assert field == lead + field[|lead|..];
    StripSkips(lead, field[|lead|..]);
    NothingToStrip(field[|lead|..], name);
  }

  /** Every property with its comma or semicolon and a blank behind it. */
  function Terminated(fields: seq<string>, ends: string): string
    requires |fields| == |ends|
  {
    if fields == [] then [] else fields[0] + [ends[0], ' '] + Terminated(fields[1..], ends[1..])
  }

  predicate Ends(ends: string) {
    forall i | 0 <= i < |ends| :: ends[i] == ',' || ends[i] == ';'
  }

  lemma EndIsSeparator(e: char)
    requires e == ',' || e == ';'
    ensures Separator([e, ' '], FIELD_DELIMITERS) && Complete([e, ' '])
  {
    var sep: string := [e, ' '];
    assert sep[0] in FIELD_DELIMITERS && AllWhite(sep[..0]) && AllWhite(sep[1..]);
    DelimitersAreNeutral();
    QuietSeparator(sep, FIELD_DELIMITERS);
  }

  predicate CompleteAtoms(fields: seq<string>) {
    forall i | 0 <= i < |fields| :: Atom(fields[i], FIELD_DELIMITERS) && Complete(fields[i])
  }

  lemma {:induction false} SplitTerminated(lead: string, fields: seq<string>, ends: string)
    requires AllWhite(lead) && CompleteAtoms(fields) && |fields| == |ends| && Ends(ends)
    ensures TrimmedParts(Pieces(lead, Terminated(fields, ends), START, FIELD_DELIMITERS)) == fields
    decreases |fields|
  {
    if fields == [] {
      assert lead + [] + [] == lead;
      TrimOfPadded(lead, [], []);
      TrimmedPartsCons(lead, []);
    } else {
      DelimitersAreNeutral();
      EndIsSeparator(ends[0]);
      var rest := Terminated(fields[1..], ends[1..]);
      var b := SplitFirst(lead, fields[0], [ends[0], ' '], rest, FIELD_DELIMITERS);
      SplitTerminated(b, fields[1..], ends[1..]);
      assert Terminated(fields, ends) == fields[0] + [ends[0], ' '] + rest;
    }
  }

  lemma SplitBody(lead: string, fields: seq<string>, ends: string)
    requires AllWhite(lead) && CompleteAtoms(fields) && |fields| == |ends| && Ends(ends)
    ensures Split(lead + Terminated(fields, ends), FIELD_DELIMITERS) == fields
  {
    RunWhite(START, lead, FIELD_DELIMITERS);
    assert [] + lead == lead;
    PiecesSkip([], lead, Terminated(fields, ends), START, FIELD_DELIMITERS);
    SplitTerminated(lead, fields, ends);
  }

  lemma {:induction false} TerminatedIsComplete(fields: seq<string>, ends: string)
    requires CompleteAtoms(fields) && |fields| == |ends| && Ends(ends)
    ensures Complete(Terminated(fields, ends))
  {
    if fields != [] {
      TerminatedIsComplete(fields[1..], ends[1..]);
      EndIsSeparator(ends[0]);
      CompleteAppend(fields[0], [ends[0], ' ']);
      CompleteAppend(fields[0] + [ends[0], ' '], Terminated(fields[1..], ends[1..]));
    }
  }

  /** None of the scanner's characters is in it. */
  predicate Unscanned(s: string) {
    forall i | 0 <= i < |s| :: s[i] !in {'{', '}', '[', ']', '(', ')', '<', '>', '"', '\''}
  }

  lemma {:induction false} UnscannedRun(s: string)
    requires Unscanned(s)
    ensures Run(START, s) == START
    decreases |s|
  {
    if s != [] {
      assert Step(START, s[0]) == START;
      UnscannedRun(s[1..]);
    }
  }

  /** Braces around a complete text are found behind such a text, whatever follows. */
  lemma BracesBehind(t: string, front: string, body: string, suffix: string, c: nat)
    requires Unscanned(front) && Complete(body) && t == front + "{" + body + "}" + suffix && c == |front| + 1 + |body|
    ensures c < |t| && t[|front| + 1..c] == body && BraceSpan(t) == Some(Span(|front|, c))
  {
    var o := |front|;
    assert t[..o] == front && t[o] == '{' && t[o + 1..c] == body && t[c] == '}';
    UnscannedRun(front);
    BehindOpening(t, o);
    BalancedStaysInside(START, body);
    StaysInsideMeaning(t, o + 1, c);
    forall i | 0 <= i < o ensures !OpenAt(t, i) {
      assert t[i] == front[i];
    }
    BraceSpanMeaning(t, o, c);
  }

  /** Where the generator's files begin: an alias up to its first equals sign, or an interface in a file without one. */
  predicate Begins(prefix: string, start: nat, content: string) {
    && start <= |prefix| && Unscanned(prefix[start..])
    && ((start > 0 && prefix[start - 1] == '=' && '=' !in prefix[..start - 1])
        || (prefix[..start] == "export interface" && '=' !in content))
  }

  /**
    The body of a generated type or interface keeps exactly the properties
    whose name is not listed, in order, and everything outside the braces stays
    as it is.
  */
  lemma GeneratedTypeFiltered(content: string, prefix: string, suffix: string, start: nat, lead: string,
                              fields: seq<string>, ends: string, names: seq<string>, listed: set<string>)
    requires |fields| == |ends| == |names| && AllWhite(lead) && CompleteAtoms(fields) && Ends(ends)
    requires forall i | 0 <= i < |fields| :: NamedField(fields[i], names[i])
    requires content == prefix + "{" + (lead + Terminated(fields, ends)) + "}" + suffix && Begins(prefix, start, content)
    ensures FilteredFields(content, listed) == prefix + "{" + Join(Unlisted(fields, names, listed), ", ") + "}" + suffix
  {
    var body := lead + Terminated(fields, ends);
    NamedFieldsFiltered(lead, fields, ends, names, listed);
    TerminatedIsComplete(fields, ends);
    WhiteIsComplete(lead);
    CompleteAppend(lead, Terminated(fields, ends));
    TypeParts(content, prefix, suffix, start, body);
    FilteredBetween(content, prefix, body, suffix, listed);
  }

  lemma WhiteIsComplete(white: string)
    requires AllWhite(white)
    ensures Complete(white)
  {
    RunWhite(START, white, {});
    WhiteOpensNothing(white);
  }

  lemma ReplacedBetween(content: string, front: string, body: string, back: string, other: string)
    requires content == front + body + back && front != [] && back != []
    ensures content[|front|..|front| + |body|] == body
    ensures Replaced(content, |front| - 1, |front| + |body|, other) == front + other + back
  {
    assert content[..|front|] == front && content[|front| + |body|..] == back;
  }

  lemma FilteredBetween(content: string, prefix: string, body: string, suffix: string, listed: set<string>)
    requires content == prefix + "{" + body + "}" + suffix
    requires TypeBodySpan(content) == Some(Span(|prefix|, |prefix| + 1 + |body|))
    ensures FilteredFields(content, listed) == prefix + "{" + NewBody(body, listed) + "}" + suffix
  {
    var front, back, other := prefix + "{", "}" + suffix, NewBody(body, listed);
    assert content == front + body + back;
    ReplacedBetween(content, front, body, back, other);
    assert FilteredFields(content, listed) == front + other + back;
  }

  lemma BodyStartIs(content: string, prefix: string, rest: string, start: nat)
    requires content == prefix + rest && Begins(prefix, start, content)
    ensures BodyStart(content) == Some(start)
  {
    assert content[..start] == prefix[..start];
    FindCharMeaning(content, '=');
    if start > 0 && prefix[start - 1] == '=' && '=' !in prefix[..start - 1] {
      assert content[..start - 1] == prefix[..start - 1];
      FindCharIs(content, '=', start - 1);
    } else {
      assert |"export interface"| == 16 && content[0..16] == content[..16];
      assert OccursAt(content, INTERFACE_MARKER, 0);
    }
  }

  lemma TypeParts(content: string, prefix: string, suffix: string, start: nat, body: string)
    requires Complete(body) && content == prefix + "{" + body + "}" + suffix && Begins(prefix, start, content)
    ensures TypeBodySpan(content) == Some(Span(|prefix|, |prefix| + 1 + |body|))
  {
    var front := prefix[start..];
    assert content == prefix + ("{" + body + "}" + suffix);
    BodyStartIs(content, prefix, "{" + body + "}" + suffix, start);
    assert content[start..] == front + "{" + body + "}" + suffix;
    BracesBehind(content[start..], front, body, suffix, |front| + 1 + |body|);
    TypeBodyFrom(content, start);
  }

  lemma NamedFieldsFiltered(lead: string, fields: seq<string>, ends: string, names: seq<string>, listed: set<string>)
    requires |fields| == |ends| == |names| && AllWhite(lead) && CompleteAtoms(fields) && Ends(ends)
    requires forall i | 0 <= i < |fields| :: NamedField(fields[i], names[i])
    ensures KeptFields(lead + Terminated(fields, ends), listed) == Unlisted(fields, names, listed)
  {
    SplitBody(lead, fields, ends);
    var keep := FieldKeeper(listed);
    forall i | 0 <= i < |fields| ensures keep(fields[i]) <==> names[i] !in listed {
      NamedFieldIsKeptIff(fields[i], names[i], listed);
    }
    FilterIsUnlisted(keep, fields, names, listed);
  }
}
