/**
  Strings as the Rust code sees them: sequences of Unicode scalar values with
  the standard library's trimming, searching and ordering.
*/
module Text {
  import opened Wrappers

  /** The characters with the Unicode property White_Space, which `str::trim` removes. */
  predicate IsWhite(c: char) {
    || '\t' <= c <= '\r'
    || c == ' '
    || c == '\U{0085}'
    || c == '\U{00A0}'
    || c == '\U{1680}'
    || '\U{2000}' <= c <= '\U{200A}'
    || c == '\U{2028}'
    || c == '\U{2029}'
    || c == '\U{202F}'
    || c == '\U{205F}'
    || c == '\U{3000}'
  }

  /** The same, one by one. */
  const WHITE_SPACE: set<char> :=
    {'\U{0009}', '\U{000A}', '\U{000B}', '\U{000C}', '\U{000D}', '\U{0020}', '\U{0085}', '\U{00A0}', '\U{1680}', '\U{2000}',
     '\U{2001}', '\U{2002}', '\U{2003}', '\U{2004}', '\U{2005}', '\U{2006}', '\U{2007}', '\U{2008}', '\U{2009}', '\U{200A}',
     '\U{2028}', '\U{2029}', '\U{202F}', '\U{205F}', '\U{3000}'}

  lemma WhiteIs(c: char)
    ensures IsWhite(c) <==> c in WHITE_SPACE
  {
  }

  predicate AllWhite(s: string) {
    forall i | 0 <= i < |s| :: IsWhite(s[i])
  }

  function TrimStart(s: string): string {
    if s != [] && IsWhite(s[0]) then TrimStart(s[1..]) else s
  }

  function TrimEnd(s: string): string {
    if s != [] && IsWhite(s[|s| - 1]) then TrimEnd(s[..|s| - 1]) else s
  }

  function Trim(s: string): string {
    TrimStart(TrimEnd(s))
  }

  /** Trimmed, in other words `Trim` has nothing to remove. */
  predicate Trimmed(s: string) {
    s != [] ==> !IsWhite(s[0]) && !IsWhite(s[|s| - 1])
  }

  lemma {:induction false} TrimStartParts(s: string) returns (before: string)
    ensures s == before + TrimStart(s) && AllWhite(before)
    ensures TrimStart(s) != [] ==> !IsWhite(TrimStart(s)[0])
  {
    before := [];
    if s != [] && IsWhite(s[0]) {
      var b := TrimStartParts(s[1..]);
      before := [s[0]] + b;
      assert s == [s[0]] + s[1..];
    }
  }

  lemma {:induction false} TrimEndParts(s: string) returns (after: string)
    ensures s == TrimEnd(s) + after && AllWhite(after)
    ensures TrimEnd(s) != [] ==> !IsWhite(TrimEnd(s)[|TrimEnd(s)| - 1])
  {
    after := [];
    if s != [] && IsWhite(s[|s| - 1]) {
      var a := TrimEndParts(s[..|s| - 1]);
      after := a + [s[|s| - 1]];
      assert s == s[..|s| - 1] + [s[|s| - 1]];
    }
  }

  /** What trimming cuts off: white space before and white space after. */
  lemma TrimParts(s: string) returns (before: string, after: string)
    ensures s == before + Trim(s) + after
    ensures AllWhite(before) && AllWhite(after)
    ensures Trimmed(Trim(s))
  {
    after := TrimEndParts(s);
    before := TrimStartParts(TrimEnd(s));
    if Trim(s) != [] {
      assert Trim(s)[|Trim(s)| - 1] == TrimEnd(s)[|TrimEnd(s)| - 1];
    }
  }

  lemma TrimStartOfWhite(before: string, s: string)
    requires AllWhite(before)
    requires s != [] ==> !IsWhite(s[0])
    ensures TrimStart(before + s) == s
    decreases |before|
  {
    if before == [] {
      assert before + s == s;
    } else {
      assert (before + s)[1..] == before[1..] + s;
      TrimStartOfWhite(before[1..], s);
    }
  }

  lemma TrimEndOfWhite(s: string, after: string)
    requires AllWhite(after)
    requires s != [] ==> !IsWhite(s[|s| - 1])
    ensures TrimEnd(s + after) == s
    decreases |after|
  {
    if after == [] {
      assert s + after == s;
    } else {
      assert (s + after)[..|s + after| - 1] == s + after[..|after| - 1];
      TrimEndOfWhite(s, after[..|after| - 1]);
    }
  }

  /** Trimming removes exactly the white space around a trimmed text. */
  lemma TrimOfPadded(before: string, s: string, after: string)
    requires AllWhite(before) && AllWhite(after) && Trimmed(s)
    ensures Trim(before + s + after) == s
  {
    if s == [] {
      var all := before + s + after;
      assert AllWhite(all);
      TrimEndOfWhite([], all);
      assert [] + all == all;
    } else {
      TrimEndOfWhite(before + s, after);
      TrimStartOfWhite(before, s);
    }
  }

  /** `str::find` with a character. */
  function FindChar(s: string, c: char): (r: Option<nat>)
    ensures r.Some? ==> r.value < |s|
  {
    if s == [] then None
    else if s[0] == c then Some(0)
    else
      match FindChar(s[1..], c)
      case None => None
      case Some(i) => Some(i + 1)
  }

  /** The least index that holds the character. */
  lemma {:induction false} FindCharMeaning(s: string, c: char)
    ensures FindChar(s, c).None? ==> c !in s
    ensures FindChar(s, c).Some? ==> s[FindChar(s, c).value] == c && c !in s[..FindChar(s, c).value]
  {
    if s != [] && s[0] != c {
      FindCharMeaning(s[1..], c);
      assert s == [s[0]] + s[1..];
      if FindChar(s, c).Some? {
        var i := FindChar(s[1..], c).value;
        assert s[..i + 1] == [s[0]] + s[1..][..i];
      }
    }
  }

  lemma FindCharIs(s: string, c: char, i: nat)
    requires i < |s| && s[i] == c && c !in s[..i]
    ensures FindChar(s, c) == Some(i)
  {
    FindCharMeaning(s, c);
    var j := FindChar(s, c).value;
    assert forall k | 0 <= k < i :: s[..i][k] == s[k];
    assert forall k | 0 <= k < j :: s[..j][k] == s[k];
  }

  /** `str::rfind` with a character. */
  function FindLastChar(s: string, c: char): (r: Option<nat>)
    ensures r.Some? ==> r.value < |s|
  {
    if s == [] then None
    else if s[|s| - 1] == c then Some(|s| - 1)
    else FindLastChar(s[..|s| - 1], c)
  }

  /** The greatest index that holds the character. */
  lemma {:induction false} FindLastCharMeaning(s: string, c: char)
    ensures FindLastChar(s, c).None? ==> c !in s
    ensures FindLastChar(s, c).Some? ==> s[FindLastChar(s, c).value] == c && c !in s[FindLastChar(s, c).value + 1..]
  {
    if s != [] && s[|s| - 1] != c {
      FindLastCharMeaning(s[..|s| - 1], c);
      assert s == s[..|s| - 1] + [s[|s| - 1]];
      if FindLastChar(s, c).Some? {
        var i := FindLastChar(s, c).value;
        assert s[i + 1..] == s[..|s| - 1][i + 1..] + [s[|s| - 1]];
      }
    }
  }

  lemma FindLastCharIs(s: string, c: char, i: nat)
    requires i < |s| && s[i] == c && c !in s[i + 1..]
    ensures FindLastChar(s, c) == Some(i)
  {
    FindLastCharMeaning(s, c);
    var j := FindLastChar(s, c).value;
    assert forall k | i < k < |s| :: s[i + 1..][k - i - 1] == s[k];
    assert forall k | j < k < |s| :: s[j + 1..][k - j - 1] == s[k];
  }

  predicate StartsWith(s: string, prefix: string) {
    prefix <= s
  }

  predicate OccursAt(s: string, pattern: string, i: nat) {
    i + |pattern| <= |s| && s[i..i + |pattern|] == pattern
  }

  /** `str::find` with a string. */
  function FindText(s: string, pattern: string): (r: Option<nat>)
    ensures r.Some? ==> r.value + |pattern| <= |s|
  {
    FindTextFrom(s, pattern, 0)
  }

  function FindTextFrom(s: string, pattern: string, i: nat): (r: Option<nat>)
    requires i <= |s|
    ensures r.Some? ==> r.value + |pattern| <= |s|
    decreases |s| - i
  {
    if OccursAt(s, pattern, i) then Some(i)
    else if i == |s| then None
    else FindTextFrom(s, pattern, i + 1)
  }

  /** The least index at which the pattern occurs. */
  lemma {:induction false} FindTextFromMeaning(s: string, pattern: string, i: nat)
    requires i <= |s|
    ensures var r := FindTextFrom(s, pattern, i);
      && (r.Some? ==> i <= r.value && OccursAt(s, pattern, r.value) && forall j | i <= j < r.value :: !OccursAt(s, pattern, j))
      && (r.None? ==> forall j: nat | i <= j :: !OccursAt(s, pattern, j))
    decreases |s| - i
  {
    if !OccursAt(s, pattern, i) && i < |s| {
      FindTextFromMeaning(s, pattern, i + 1);
    }
  }

  /** `slice::join`: the parts with the separator between neighbours. */
  function Join(parts: seq<string>, sep: string): string {
    if parts == [] then []
    else if |parts| == 1 then parts[0]
    else parts[0] + sep + Join(parts[1..], sep)
  }

  lemma JoinChars(parts: seq<string>, sep: string, c: char)
    requires c in Join(parts, sep)
    ensures c in sep || exists i | 0 <= i < |parts| :: c in parts[i]
  {
    if |parts| > 1 && c !in sep && c !in parts[0] {
      assert c in Join(parts[1..], sep);
      JoinChars(parts[1..], sep, c);
      var i :| 0 <= i < |parts[1..]| && c in parts[1..][i];
      assert parts[1..][i] == parts[i + 1];
    }
  }

  // --- Decimal numerals ------------------------------------------------------------------------

  function Digit(n: nat): char
    requires n < 10
  {
    ['0', '1', '2', '3', '4', '5', '6', '7', '8', '9'][n]
  }

  /** `to_string` of a natural number. */
  function Decimal(n: nat): string {
    if n < 10 then [Digit(n)] else Decimal(n / 10) + [Digit(n % 10)]
  }

  lemma {:induction false} DecimalInjective(m: nat, n: nat)
    requires Decimal(m) == Decimal(n)
    ensures m == n
  {
    DecimalNotEmpty(m / 10);
    DecimalNotEmpty(n / 10);
    var s := Decimal(m);
    if m >= 10 && n >= 10 {
      assert Decimal(m / 10) == s[..|s| - 1] == Decimal(n / 10);
      DecimalInjective(m / 10, n / 10);
      assert Digit(m % 10) == s[|s| - 1] == Digit(n % 10);
    }
  }

  lemma DecimalNotEmpty(n: nat)
    ensures Decimal(n) != []
  {
  }
}
