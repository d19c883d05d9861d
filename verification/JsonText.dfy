/**
  The compact text of a JSON document, as `serde_json::to_string` writes it,
  and that different documents have different texts.
*/
module JsonText {
  import opened JsonValues

  const HEX := "0123456789abcdef"

  function Escaped(c: char): string {
    if c == '"' then "\\\""
    else if c == '\\' then "\\\\"
    else if c == '\U{0008}' then "\\b"
    else if c == '\U{000C}' then "\\f"
    else if c == '\n' then "\\n"
    else if c == '\r' then "\\r"
    else if c == '\t' then "\\t"
    else if c < ' ' then "\\u00" + [HEX[c as int / 16], HEX[c as int % 16]]
    else [c]
  }

  predicate IsControl(c: char) {
    c < ' ' && c != '\U{0008}' && c != '\U{000C}' && c != '\n' && c != '\r' && c != '\t'
  }

  /** The character that stands behind a backslash for another one (section 7 of RFC 8259). */
  predicate ShortEscape(letter: char, c: char) {
    (letter, c) in {('"', '"'), ('\\', '\\'), ('b', '\U{0008}'), ('f', '\U{000C}'), ('n', '\U{000A}'), ('r', '\U{000D}'), ('t', '\U{0009}')}
  }

  /** The text stands for the character inside a JSON string. */
  predicate StandsFor(e: string, c: char) {
    || (e == [c] && c >= ' ' && c != '"' && c != '\\')
    || (|e| == 2 && e[0] == '\\' && ShortEscape(e[1], c))
    || (|e| == 6 && e[..2] == "\\u" && exists i, j | 0 <= i < 16 && 0 <= j < 16 ::
          e[2..] == "00" + [HEX[i]] + [HEX[j]] && c as int == 16 * i + j)
  }

  lemma EscapedStandsFor(c: char)
    ensures StandsFor(Escaped(c), c)
  {
    var e := Escaped(c);
    if IsControl(c) {
      var i, j := c as int / 16, c as int % 16;
      assert e == "\\u00" + [HEX[i], HEX[j]];
      assert e[..2] == "\\u" && e[2..] == "00" + [HEX[i]] + [HEX[j]];
    }
  }

  // Each writer takes the text that comes after what it writes.

  function EscapedText(s: string, after: string): string {
    if s == [] then ['"'] + after else Escaped(s[0]) + EscapedText(s[1..], after)
  }

  function Quoted(s: string, after: string): string {
    ['"'] + EscapedText(s, after)
  }

  function Write(v: Json, after: string): string
    decreases v, 1
  {
    match v
    case Null => "null" + after
    case Bool(b) => (if b then "true" else "false") + after
    case Num(text) => text + after
    case Str(s) => Quoted(s, after)
    case Arr(items) => ['['] + WriteItems(items, true, after)
    case Obj(fields) => ['{'] + WriteFields(fields, true, after)
  }

  /** The rest of an array from some element on, with the closing bracket. */
  function WriteItems(items: seq<Json>, first: bool, after: string): string
    decreases items, 0
  {
    if items == [] then [']'] + after
    else Separated(first, Write(items[0], WriteItems(items[1..], false, after)))
  }

  function WriteFields(fields: seq<Field>, first: bool, after: string): string
    decreases fields, 0
  {
    if fields == [] then ['}'] + after
    else Separated(first, WriteField(fields[0], WriteFields(fields[1..], false, after)))
  }

  function WriteField(f: Field, after: string): string
    decreases f, 2
  {
    Quoted(f.key, [':'] + Write(f.value, after))
  }

  function Separated(first: bool, s: string): string {
    if first then s else [','] + s
  }

  function ToText(v: Json): string {
    Write(v, [])
  }

  // --- Reading back is unambiguous ----------------------------------------------------------------

  lemma HexInjective(a: nat, b: nat)
    requires a < 16 && b < 16 && HEX[a] == HEX[b]
    ensures a == b
  {
    assert HEX[0] == '0' && HEX[1] == '1' && HEX[2] == '2' && HEX[3] == '3' && HEX[4] == '4' && HEX[5] == '5' && HEX[6] == '6' && HEX[7] == '7';
    assert HEX[8] == '8' && HEX[9] == '9' && HEX[10] == 'a' && HEX[11] == 'b' && HEX[12] == 'c' && HEX[13] == 'd' && HEX[14] == 'e' && HEX[15] == 'f';
  }

  lemma ControlUnambiguous(c: char, d: char, x: string, y: string)
    requires IsControl(c) && IsControl(d) && Escaped(c) + x == Escaped(d) + y
    ensures c == d
  {
    var s, t := Escaped(c) + x, Escaped(d) + y;
    assert s[4] == Escaped(c)[4] && t[4] == Escaped(d)[4];
    assert s[5] == Escaped(c)[5] && t[5] == Escaped(d)[5];
    HexInjective(c as int / 16, d as int / 16);
    HexInjective(c as int % 16, d as int % 16);
    assert c as int == d as int;
  }

  /** No escape is the beginning of another, and none begins with a quote. */
  lemma EscapedUnambiguous(c: char, d: char, x: string, y: string)
    requires Escaped(c) + x == Escaped(d) + y
    ensures c == d && x == y
  {
    var s, t := Escaped(c) + x, Escaped(d) + y;
    assert s[0] == Escaped(c)[0] && t[0] == Escaped(d)[0];
    if IsControl(c) && IsControl(d) {
      ControlUnambiguous(c, d, x, y);
    } else if |Escaped(c)| > 1 && |Escaped(d)| > 1 {
      assert s[1] == Escaped(c)[1] && t[1] == Escaped(d)[1];
    }
    assert x == s[|Escaped(c)|..] && y == t[|Escaped(d)|..];
  }

  lemma CutFirst(c: char, x: string, d: char, y: string)
    requires [c] + x == [d] + y
    ensures c == d && x == y
  {
    assert ([c] + x)[0] == ([d] + y)[0];
    assert x == ([c] + x)[1..] && y == ([d] + y)[1..];
  }

  lemma CutFront(a: string, x: string, b: string, y: string)
    requires a + x == b + y && |a| == |b|
    ensures a == b && x == y
  {
    assert a == (a + x)[..|a|] && b == (b + y)[..|a|];
    assert x == (a + x)[|a|..] && y == (b + y)[|a|..];
  }

  lemma {:induction false} EscapedTextUnambiguous(s: string, t: string, x: string, y: string)
    requires EscapedText(s, x) == EscapedText(t, y)
    ensures s == t && x == y
    decreases |s|
  {
    if s != [] && t != [] {
      EscapedUnambiguous(s[0], t[0], EscapedText(s[1..], x), EscapedText(t[1..], y));
      EscapedTextUnambiguous(s[1..], t[1..], x, y);
      assert s == [s[0]] + s[1..] && t == [t[0]] + t[1..];
    } else if s != [] {
      EscapedNotQuote(s[0], EscapedText(s[1..], x), y);
    } else if t != [] {
      EscapedNotQuote(t[0], EscapedText(t[1..], y), x);
    } else {
      CutFirst('"', x, '"', y);
    }
  }

  lemma EscapedNotQuote(c: char, x: string, y: string)
    ensures Escaped(c) + x != ['"'] + y
  {
    assert (Escaped(c) + x)[0] == Escaped(c)[0];
    assert (['"'] + y)[0] == '"';
  }

  lemma QuotedUnambiguous(s: string, t: string, x: string, y: string)
    requires Quoted(s, x) == Quoted(t, y)
    ensures s == t && x == y
  {
    CutFirst('"', EscapedText(s, x), '"', EscapedText(t, y));
    EscapedTextUnambiguous(s, t, x, y);
  }

  /** What may follow a value: the end, or a character no number goes on with. */
  predicate Ends(x: string) {
    x == [] || x[0] == ',' || x[0] == ']' || x[0] == '}'
  }

  lemma NumberNotLonger(a: NumberText, b: NumberText, x: string, y: string)
    requires a + x == b + y && Ends(x)
    ensures |b| <= |a|
  {
    assert x != [] ==> (a + x)[|a|] == x[0];
    assert forall i | 0 <= i < |b| :: (b + y)[i] == b[i];
  }

  /** The first character tells the kinds of value apart, and from what closes or separates. */
  function FirstChar(v: Json): char {
    match v
    case Null => 'n'
    case Bool(b) => if b then 't' else 'f'
    case Num(text) => text[0]
    case Str(_) => '"'
    case Arr(_) => '['
    case Obj(_) => '{'
  }

  lemma WritesFirstChar(v: Json, x: string)
    ensures Write(v, x) != [] && Write(v, x)[0] == FirstChar(v)
    ensures FirstChar(v) != ',' && FirstChar(v) != ']' && FirstChar(v) != '}'
  {
    if v.Num? {
      assert IsNumberChar(v.text[0]);
    }
  }

  /** Two documents whose texts agree, whatever may follow them, are the same. */
  lemma {:induction false} WriteUnambiguous(v: Json, w: Json, x: string, y: string)
    requires Write(v, x) == Write(w, y) && Ends(x) && Ends(y)
    ensures v == w && x == y
    decreases v, 1
  {
    WritesFirstChar(v, x);
    WritesFirstChar(w, y);
    match v {
      case Null => CutFront("null", x, "null", y);
      case Bool(b) => CutFront(if b then "true" else "false", x, if b then "true" else "false", y);
      case Num(a) =>
        assert IsNumberChar(a[0]) && w.Num?;
        NumberNotLonger(a, w.text, x, y);
        NumberNotLonger(w.text, a, y, x);
        CutFront(a, x, w.text, y);
      case Str(a) => QuotedUnambiguous(a, w.s, x, y);
      case Arr(a) =>
        CutFirst('[', WriteItems(a, true, x), '[', WriteItems(w.items, true, y));
        ItemsUnambiguous(a, w.items, true, x, y);
      case Obj(a) =>
        CutFirst('{', WriteFields(a, true, x), '{', WriteFields(w.fields, true, y));
        FieldsUnambiguous(a, w.fields, true, x, y);
    }
  }

  lemma CutSeparator(first: bool, s: string, t: string)
    requires Separated(first, s) == Separated(first, t)
    ensures s == t
  {
    if !first {
      CutFirst(',', s, ',', t);
    }
  }

  lemma SeparatedNotClosing(first: bool, s: string, close: char, x: string)
    requires close == ']' || close == '}'
    requires s != [] && s[0] != close
    ensures Separated(first, s) != [close] + x
  {
    assert ([close] + x)[0] == close;
    assert Separated(first, s)[0] == if first then s[0] else ',';
  }

  lemma {:induction false} ItemsUnambiguous(a: seq<Json>, b: seq<Json>, first: bool, x: string, y: string)
    requires WriteItems(a, first, x) == WriteItems(b, first, y)
    ensures a == b && x == y
    decreases a, 0
  {
    if a == [] && b == [] {
      CutFirst(']', x, ']', y);
    } else if a == [] {
      WritesFirstChar(b[0], WriteItems(b[1..], false, y));
      SeparatedNotClosing(first, Write(b[0], WriteItems(b[1..], false, y)), ']', x);
    } else if b == [] {
      WritesFirstChar(a[0], WriteItems(a[1..], false, x));
      SeparatedNotClosing(first, Write(a[0], WriteItems(a[1..], false, x)), ']', y);
    } else {
      var p, q := WriteItems(a[1..], false, x), WriteItems(b[1..], false, y);
      CutSeparator(first, Write(a[0], p), Write(b[0], q));
      WriteUnambiguous(a[0], b[0], p, q);
      ItemsUnambiguous(a[1..], b[1..], false, x, y);
      assert a == [a[0]] + a[1..] && b == [b[0]] + b[1..];
    }
  }

  lemma {:induction false} FieldsUnambiguous(a: seq<Field>, b: seq<Field>, first: bool, x: string, y: string)
    requires WriteFields(a, first, x) == WriteFields(b, first, y)
    ensures a == b && x == y
    decreases a, 0
  {
    if a == [] && b == [] {
      CutFirst('}', x, '}', y);
    } else if a == [] {
      SeparatedNotClosing(first, WriteField(b[0], WriteFields(b[1..], false, y)), '}', x);
    } else if b == [] {
      SeparatedNotClosing(first, WriteField(a[0], WriteFields(a[1..], false, x)), '}', y);
    } else {
      var p, q := WriteFields(a[1..], false, x), WriteFields(b[1..], false, y);
      var i, j := [':'] + Write(a[0].value, p), [':'] + Write(b[0].value, q);
      CutSeparator(first, Quoted(a[0].key, i), Quoted(b[0].key, j));
      QuotedUnambiguous(a[0].key, b[0].key, i, j);
      CutFirst(':', Write(a[0].value, p), ':', Write(b[0].value, q));
      WriteUnambiguous(a[0].value, b[0].value, p, q);
      FieldsUnambiguous(a[1..], b[1..], false, x, y);
      assert a == [a[0]] + a[1..] && b == [b[0]] + b[1..];
    }
  }

  /** Serialization is injective. */
  lemma TextInjective(v: Json, w: Json)
    requires ToText(v) == ToText(w)
    ensures v == w
  {
    WriteUnambiguous(v, w, [], []);
  }
}
