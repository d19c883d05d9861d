/**
  The order that canonicalization gives the elements of arrays and the entries
  of objects, told by what the elements are: which arrays are sorted at all,
  in which order, and which stay as they are.
*/
module SchemaOrder {
  import opened Wrappers
  import opened Text
  import opened JsonValues
  import opened JsonText
  import opened Ordering
  import opened SchemaCanonical

  // --- Elements by what they are --------------------------------------------------------------------------

  ghost predicate TextAt(v: Json, key: string, text: string) {
    v.Obj? && exists i | 0 <= i < |v.fields| :: v.fields[i] == Field(key, Str(text))
  }

  ghost predicate HasText(v: Json, key: string) {
    exists text :: TextAt(v, key, text)
  }

  /** Null, a boolean, a number, a string, or an object whose `$ref` or `title` is text. */
  ghost predicate Sortable(v: Json) {
    v.Null? || v.Bool? || v.Num? || v.Str? || HasText(v, "$ref") || HasText(v, "title")
  }

  ghost predicate AllSortable(items: seq<Json>) {
    forall i | 0 <= i < |items| :: Sortable(items[i])
  }

  /** Booleans, numbers, null, references, strings, and titled objects, in this order. */
  ghost function Rank(v: Json): nat {
    if v.Bool? then 0
    else if v.Num? then 1
    else if v.Null? then 2
    else if HasText(v, "$ref") then 3
    else if v.Str? then 4
    else 5
  }

  /** The text that decides within a rank: a reference goes before a title. */
  ghost predicate DecidedBy(v: Json, text: string) {
    match v
    case Bool(b) => text == if b then "true" else "false"
    case Num(n) => text == n
    case Null => text == ""
    case Str(s) => text == s
    case Obj(_) => if HasText(v, "$ref") then TextAt(v, "$ref", text) else TextAt(v, "title", text)
    case Arr(_) => false
  }

  /** The order of two elements: by rank, then by the deciding text, then by the serialized text. */
  ghost predicate Before(v: Json, w: Json) {
    || Rank(v) < Rank(w)
    || (Rank(v) == Rank(w) && exists a, b ::
          DecidedBy(v, a) && DecidedBy(w, b) && if a == b then StringLe(ToText(v), ToText(w)) else StringLe(a, b))
  }

  // --- Sort keys ----------------------------------------------------------------------------------------------

  lemma TextIsFound(v: Json, key: string, text: string)
    requires DistinctKeys(v)
    ensures TextAt(v, key, text) <==> v.Obj? && AsString(Get(v.fields, key)) == Some(text)
  {
    if v.Obj? {
      GetMeaning(v.fields, key);
      if TextAt(v, key, text) {
        var i :| 0 <= i < |v.fields| && v.fields[i] == Field(key, Str(text));
        GetAt(v.fields, i);
      }
    }
  }

  lemma HasTextIff(v: Json, key: string)
    requires DistinctKeys(v)
    ensures HasText(v, key) <==> v.Obj? && AsString(Get(v.fields, key)).Some?
  {
    if v.Obj? && AsString(Get(v.fields, key)).Some? {
      TextIsFound(v, key, AsString(Get(v.fields, key)).value);
    }
    if text :| TextAt(v, key, text) {
      TextIsFound(v, key, text);
    }
  }

  const PREFIXES := ["b:", "n:", "null", "ref:", "s:", "title:"]

  /** The key is the text of the rank, and then the deciding text. */
  lemma SortKeyIs(v: Json) returns (text: string)
    requires DistinctKeys(v)
    ensures SortKey(v).Some? <==> Sortable(v)
    ensures Sortable(v) ==> DecidedBy(v, text) && SortKey(v) == Some(PREFIXES[Rank(v)] + text)
    ensures Sortable(v) ==> forall other :: DecidedBy(v, other) ==> other == text
  {
    HasTextIff(v, "$ref");
    HasTextIff(v, "title");
    match v {
      case Bool(b) => text := if b then "true" else "false";
      case Num(n) => text := n;
      case Null =>
        text := "";
        assert "null" + "" == "null";
      case Str(s) => text := s;
      case Arr(_) => text := "";
      case Obj(fields) =>
        text := "";
        if HasText(v, "$ref") {
          text := AsString(Get(fields, "$ref")).value;
          TextIsFound(v, "$ref", text);
        } else if HasText(v, "title") {
          text := AsString(Get(fields, "title")).value;
          TextIsFound(v, "title", text);
        }
        forall other | DecidedBy(v, other) ensures Sortable(v) ==> other == text {
          TextIsFound(v, "$ref", other);
          TextIsFound(v, "title", other);
        }
    }
  }

  lemma {:induction false} CommonPrefix(p: string, a: string, b: string)
    ensures StringLe(p + a, p + b) <==> StringLe(a, b)
  {
    if p == [] {
      assert p + a == a && p + b == b;
    } else {
      assert (p + a)[1..] == p[1..] + a && (p + b)[1..] == p[1..] + b;
      CommonPrefix(p[1..], a, b);
    }
  }

  lemma FirstDecides(s: string, t: string)
    requires s != [] && t != [] && s[0] < t[0]
    ensures StringLe(s, t) && !StringLe(t, s) && s != t
  {
  }

  lemma SecondDecides(s: string, t: string)
    requires |s| > 1 && |t| > 1 && s[0] == t[0] && s[1] < t[1]
    ensures StringLe(s, t) && !StringLe(t, s) && s != t
  {
    FirstDecides(s[1..], t[1..]);
  }

  /** Keys of different ranks are ordered by rank. */
  lemma RanksDecide(i: nat, j: nat, a: string, b: string)
    requires i < j < 6
    ensures var s, t := PREFIXES[i] + a, PREFIXES[j] + b;
      StringLe(s, t) && !StringLe(t, s) && s != t
  {
    var s, t := PREFIXES[i] + a, PREFIXES[j] + b;
    assert s[0] == PREFIXES[i][0] && t[0] == PREFIXES[j][0] && s[1] == PREFIXES[i][1] && t[1] == PREFIXES[j][1];
    if i == 1 && j == 2 {
      SecondDecides(s, t);
    } else {
      FirstDecides(s, t);
    }
  }

  /** The order the elements are sorted by. */
  lemma OrderIs(v: Json, w: Json)
    requires DistinctKeys(v) && DistinctKeys(w) && Sortable(v) && Sortable(w)
    ensures ItemLe(v, w) <==> Before(v, w)
  {
    var a := SortKeyIs(v);
    var b := SortKeyIs(w);
    if Rank(v) < Rank(w) {
      RanksDecide(Rank(v), Rank(w), a, b);
    } else if Rank(w) < Rank(v) {
      RanksDecide(Rank(w), Rank(v), b, a);
    } else {
      var p := PREFIXES[Rank(v)];
      CommonPrefix(p, a, b);
      assert (p + a)[|p|..] == a && (p + b)[|p|..] == b;
    }
  }

  lemma AllSortableIff(items: seq<Json>)
    requires DistinctKeys(Arr(items))
    ensures AllKeyed(items) <==> AllSortable(items)
  {
    forall i | 0 <= i < |items| ensures SortKey(items[i]).Some? <==> Sortable(items[i]) {
      var _ := SortKeyIs(items[i]);
    }
  }

  // --- Arrays -----------------------------------------------------------------------------------------------------

  /** The canonical form of an array of sortable elements does not depend on their order. */
  lemma OrderIsForgotten(a: seq<Json>, b: seq<Json>)
    requires DistinctKeys(Arr(a)) && multiset(a) == multiset(b) && AllSortable(a)
    ensures Canonical(Arr(a)) == Canonical(Arr(b))
  {
    var p := FindPermutation(a, b);
    var q := FindPermutation(b, a);
    AllSortableIff(a);
    assert AllKeyed(b);
    PermutedArrays(a, b, p);
  }

  /** An array with any other element keeps its order; each element is canonicalized where it stands. */
  lemma OtherArraysKeepOrder(items: seq<Json>, k: nat)
    requires DistinctKeys(Arr(items)) && k < |items| && !Sortable(items[k])
    ensures Canonical(Arr(items)).Arr? && |Canonical(Arr(items)).items| == |items|
    ensures forall i | 0 <= i < |items| :: Canonical(Arr(items)).items[i] == Canonical(items[i])
  {
    AllSortableIff(items);
    AllKeyedKept(items);
  }

  /** The elements of a sorted array are those of the array, canonicalized, in the order of `Before`. */
  lemma SortedArray(items: seq<Json>) returns (p: seq<nat>)
    requires DistinctKeys(Arr(items)) && AllSortable(items)
    ensures Canonical(Arr(items)).Arr? && Permutation(p, |items|) && |Canonical(Arr(items)).items| == |items|
    ensures forall i | 0 <= i < |items| :: Canonical(Arr(items)).items[i] == Canonical(items[p[i]])
    ensures forall i, j | 0 <= i < j < |items| :: Before(Canonical(Arr(items)).items[i], Canonical(Arr(items)).items[j])
  {
    var out := CanonicalItems(items);
    AllSortableIff(items);
    AllKeyedKept(items);
    SortContents(ItemLe, out);
    ItemOrder();
    SortSorts(ItemLe, out);
    var sorted := Sort(ItemLe, out);
    p := FindPermutation(sorted, out);
    CanonicalIsEquivalent(Arr(items));
    SortedKeyed(out);
    AllSortableIff(sorted);
    forall i, j | 0 <= i < j < |sorted| ensures Before(sorted[i], sorted[j]) {
      OrderIs(sorted[i], sorted[j]);
    }
  }

  lemma OneText(v: Json, key: string, a: string, b: string)
    requires DistinctKeys(v) && TextAt(v, key, a) && TextAt(v, key, b)
    ensures a == b
  {
    TextIsFound(v, key, a);
    TextIsFound(v, key, b);
  }

  lemma BeforeByReference(v: Json, w: Json, r: string, t: string)
    requires DistinctKeys(v) && DistinctKeys(w) && Before(v, w) && TextAt(v, "$ref", r) && TextAt(w, "$ref", t)
    ensures StringLe(r, t)
  {
    assert HasText(v, "$ref") && HasText(w, "$ref");
    var a, b :| DecidedBy(v, a) && DecidedBy(w, b) && if a == b then StringLe(ToText(v), ToText(w)) else StringLe(a, b);
    OneText(v, "$ref", a, r);
    OneText(w, "$ref", b, t);
    StringLeTotal(r, r);
  }

  /** Objects with text references come in the order of the references, whatever their titles. */
  lemma ReferencesInOrder(items: seq<Json>, i: nat, j: nat, r: string, t: string)
    requires DistinctKeys(Arr(items)) && AllSortable(items) && i < j < |items|
    ensures Canonical(Arr(items)).Arr? && |Canonical(Arr(items)).items| == |items|
    ensures var out := Canonical(Arr(items)).items;
      TextAt(out[i], "$ref", r) && TextAt(out[j], "$ref", t) ==> StringLe(r, t)
  {
    var p := SortedArray(items);
    CanonicalIsEquivalent(Arr(items));
    var out := Canonical(Arr(items)).items;
    if TextAt(out[i], "$ref", r) && TextAt(out[j], "$ref", t) {
      BeforeByReference(out[i], out[j], r, t);
    }
  }

  // --- Objects and strings ---------------------------------------------------------------------------------------

  /** The entries of a canonical object come in the order of their keys, with the canonical form of each value. */
  lemma ObjectsInKeyOrder(fields: seq<Field>) returns (p: seq<nat>)
    requires DistinctKeys(Obj(fields))
    ensures Canonical(Obj(fields)).Obj? && Permutation(p, |fields|) && |Canonical(Obj(fields)).fields| == |fields|
    ensures forall i | 0 <= i < |fields| ::
      Canonical(Obj(fields)).fields[i] == Field(fields[p[i]].key, Canonical(fields[p[i]].value))
    ensures forall i, j | 0 <= i < j < |fields| ::
      StringLe(Canonical(Obj(fields)).fields[i].key, Canonical(Obj(fields)).fields[j].key)
  {
    var out := CanonicalFields(fields);
    p := SortedFieldsUnique(out);
    FieldOrder();
    SortSorts(FieldLe, out);
    assert Sorted(FieldLe, Sort(FieldLe, out));
  }

  /** One string comes before another if it is a beginning of it, or smaller where they first differ. */
  lemma {:induction false} StringLeIff(a: string, b: string)
    ensures StringLe(a, b) <==> exists k: nat :: SmallerAt(a, b, k)
  {
    if a == [] {
      assert SmallerAt(a, b, 0);
    } else if b != [] {
      if a[0] == b[0] {
        StringLeIff(a[1..], b[1..]);
        if k: nat :| SmallerAt(a, b, k) {
          assert k > 0 && SmallerAt(a[1..], b[1..], k - 1) by {
            assert a[..k][1..] == a[1..][..k - 1] && b[..k][1..] == b[1..][..k - 1];
          }
        }
        if k: nat :| SmallerAt(a[1..], b[1..], k) {
          assert a[..k + 1] == [a[0]] + a[1..][..k] && b[..k + 1] == [b[0]] + b[1..][..k];
          assert SmallerAt(a, b, k + 1);
        }
      } else {
        assert SmallerAt(a, b, 0) <==> a[0] < b[0];
        forall k: nat | k > 0 ensures !SmallerAt(a, b, k) {
          if k <= |a| && k <= |b| {
            assert a[..k][0] == a[0] && b[..k][0] == b[0];
          }
        }
      }
    }
  }

  predicate SmallerAt(a: string, b: string, k: nat) {
    k <= |a| && k <= |b| && a[..k] == b[..k] && (k == |a| || (k < |b| && a[k] < b[k]))
  }
}
