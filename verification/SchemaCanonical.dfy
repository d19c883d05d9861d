/**
  The canonical form under which vendored and generated schema files are
  compared: object entries sorted by key, and an array sorted when every one
  of its elements has a sort key.
*/
module SchemaCanonical {
  import opened Wrappers
  import opened Text
  import opened JsonValues
  import opened JsonText
  import opened Ordering

  function SortKey(item: Json): Option<string> {
    match item
    case Null => Some("null")
    case Bool(b) => Some("b:" + if b then "true" else "false")
    case Num(n) => Some("n:" + n)
    case Str(s) => Some("s:" + s)
    case Obj(fields) =>
      var reference := AsString(Get(fields, "$ref"));
      var title := AsString(Get(fields, "title"));
      if reference.Some? then Some("ref:" + reference.value)
      else if title.Some? then Some("title:" + title.value)
      else None
    case Arr(_) => None
  }

  predicate AllKeyed(items: seq<Json>) {
    forall i | 0 <= i < |items| :: SortKey(items[i]).Some?
  }

  function KeyOf(item: Json): string {
    var key := SortKey(item);
    if key.Some? then key.value else []
  }

  /** By sort key, and by serialized text where the keys are equal. */
  predicate ItemLe(a: Json, b: Json) {
    if KeyOf(a) == KeyOf(b) then StringLe(ToText(a), ToText(b)) else StringLe(KeyOf(a), KeyOf(b))
  }

  predicate FieldLe(a: Field, b: Field) {
    StringLe(a.key, b.key)
  }

  function CanonicalItems(items: seq<Json>): seq<Json> {
    seq(|items|, i requires 0 <= i < |items| => Canonical(items[i]))
  }

  function CanonicalFields(fields: seq<Field>): seq<Field> {
    seq(|fields|, i requires 0 <= i < |fields| => Field(fields[i].key, Canonical(fields[i].value)))
  }

  function Canonical(v: Json): Json {
    match v
    case Arr(items) =>
      var out := CanonicalItems(items);
      Arr(if AllKeyed(out) then Sort(ItemLe, out) else out)
    case Obj(fields) => Obj(Sort(FieldLe, CanonicalFields(fields)))
    case _ => v
  }

  /**
    Documents that differ only in the order of object entries and in the order
    of arrays in which every element has a sort key.
  */
  ghost predicate Equivalent(v: Json, w: Json) {
    match (v, w)
    case (Arr(a), Arr(b)) =>
      && |a| == |b|
      && ((forall i | 0 <= i < |a| :: Equivalent(a[i], b[i]))
          || (AllKeyed(a) && AllKeyed(b)
              && exists p :: Permutation(p, |a|) && forall i | 0 <= i < |a| :: Equivalent(a[i], b[p[i]])))
    case (Obj(a), Obj(b)) =>
      && |a| == |b|
      && exists p :: Permutation(p, |a|) && forall i | 0 <= i < |a| :: a[i].key == b[p[i]].key && Equivalent(a[i].value, b[p[i]].value)
    case _ => v == w
  }

  // --- The two orders --------------------------------------------------------------------------------

  lemma ItemOrder()
    ensures TotalOrder(ItemLe)
  {
    forall a, b ensures ItemLe(a, b) || ItemLe(b, a) {
      StringLeTotal(KeyOf(a), KeyOf(b));
      StringLeTotal(ToText(a), ToText(b));
    }
    forall a, b, c | ItemLe(a, b) && ItemLe(b, c) ensures ItemLe(a, c) {
      if KeyOf(a) == KeyOf(c) && KeyOf(a) != KeyOf(b) {
        StringLeAntisymmetric(KeyOf(a), KeyOf(b));
      } else if KeyOf(a) == KeyOf(c) {
        StringLeTransitive(ToText(a), ToText(b), ToText(c));
      } else if KeyOf(a) != KeyOf(b) && KeyOf(b) != KeyOf(c) {
        StringLeTransitive(KeyOf(a), KeyOf(b), KeyOf(c));
      }
    }
  }

  lemma ItemOrderStrict(s: seq<Json>)
    ensures Strict(ItemLe, s)
  {
    forall a, b | a in s && b in s && ItemLe(a, b) && ItemLe(b, a) ensures a == b {
      if KeyOf(a) == KeyOf(b) {
        StringLeAntisymmetric(ToText(a), ToText(b));
        TextInjective(a, b);
      } else {
        StringLeAntisymmetric(KeyOf(a), KeyOf(b));
      }
    }
  }

  lemma FieldOrder()
    ensures TotalOrder(FieldLe)
  {
    forall a, b ensures FieldLe(a, b) || FieldLe(b, a) {
      StringLeTotal(a.key, b.key);
    }
    forall a, b, c | FieldLe(a, b) && FieldLe(b, c) ensures FieldLe(a, c) {
      StringLeTransitive(a.key, b.key, c.key);
    }
  }

  lemma FieldOrderStrict(s: seq<Field>)
    requires UniqueKeys(s)
    ensures Strict(FieldLe, s)
  {
    forall a, b | a in s && b in s && FieldLe(a, b) && FieldLe(b, a) ensures a == b {
      StringLeAntisymmetric(a.key, b.key);
      var i :| 0 <= i < |s| && s[i] == a;
      var j :| 0 <= j < |s| && s[j] == b;
      assert i == j;
    }
  }

  /** Sorting elements told apart by the order depends only on which elements there are. */
  lemma SortSameContents<T(!new)>(le: (T, T) -> bool, a: seq<T>, b: seq<T>)
    requires TotalOrder(le) && Strict(le, a)
    ensures multiset(a) == multiset(b) <==> Sort(le, a) == Sort(le, b)
  {
    SortContents(le, a);
    SortContents(le, b);
    if multiset(a) == multiset(b) {
      SortSorts(le, a);
      SortSorts(le, b);
      forall x, y | x in Sort(le, a) && y in Sort(le, a) && le(x, y) && le(y, x) ensures x == y {
        assert x in multiset(Sort(le, a)) && y in multiset(Sort(le, a));
      }
      SortedUnique(le, Sort(le, a), Sort(le, b));
    }
  }

  // --- What canonicalization keeps ---------------------------------------------------------------

  lemma SortedFieldsUnique(fields: seq<Field>) returns (p: seq<nat>)
    requires UniqueKeys(fields)
    ensures var s := Sort(FieldLe, fields);
      |s| == |fields| && UniqueKeys(s) && Permutation(p, |s|) && forall i | 0 <= i < |s| :: s[i] == fields[p[i]]
  {
    var s := Sort(FieldLe, fields);
    SortContents(FieldLe, fields);
    p := FindPermutation(s, fields);
    forall i, j | 0 <= i < j < |s| ensures s[i].key != s[j].key {
      assert p[i] != p[j];
    }
  }

  lemma SomeEntry(a: seq<Field>, b: seq<Field>, key: string)
    requires multiset(a) == multiset(b) && HasKey(a, key)
    ensures Field(key, Get(a, key).value) in b
  {
    GetMeaning(a, key);
    assert Field(key, Get(a, key).value) in multiset(a);
  }

  /** With distinct keys, lookups see which entries there are and not their order. */
  lemma GetOfSameEntries(a: seq<Field>, b: seq<Field>, key: string)
    requires UniqueKeys(b) && multiset(a) == multiset(b)
    ensures Get(a, key) == Get(b, key)
  {
    GetMeaning(a, key);
    if HasKey(a, key) {
      SomeEntry(a, b, key);
      var j :| 0 <= j < |b| && b[j] == Field(key, Get(a, key).value);
      GetAt(b, j);
    } else if HasKey(b, key) {
      SomeEntry(b, a, key);
    }
  }

  lemma {:induction false} GetOfCanonical(fields: seq<Field>, key: string)
    ensures Get(CanonicalFields(fields), key) ==
      if HasKey(fields, key) then Some(Canonical(Get(fields, key).value)) else None
  {
    if fields != [] {
      assert CanonicalFields(fields)[1..] == CanonicalFields(fields[1..]);
      GetOfCanonical(fields[1..], key);
    }
  }

  /** A sorted, canonical object holds at each key the canonical form of what was there. */
  lemma GetCanonical(fields: seq<Field>, key: string)
    requires UniqueKeys(fields)
    ensures Get(Sort(FieldLe, CanonicalFields(fields)), key) ==
      if HasKey(fields, key) then Some(Canonical(Get(fields, key).value)) else None
  {
    SortContents(FieldLe, CanonicalFields(fields));
    GetOfSameEntries(Sort(FieldLe, CanonicalFields(fields)), CanonicalFields(fields), key);
    GetOfCanonical(fields, key);
  }

  lemma SortKeyKept(v: Json)
    requires DistinctKeys(v)
    ensures SortKey(Canonical(v)) == SortKey(v)
  {
    if v.Obj? {
      GetCanonical(v.fields, "$ref");
      GetCanonical(v.fields, "title");
    }
  }

  lemma AllKeyedKept(items: seq<Json>)
    requires DistinctKeys(Arr(items))
    ensures AllKeyed(CanonicalItems(items)) <==> AllKeyed(items)
  {
    assert forall i | 0 <= i < |items| :: CanonicalItems(items)[i] == Canonical(items[i]);
    forall i | 0 <= i < |items| ensures SortKey(Canonical(items[i])) == SortKey(items[i]) {
      SortKeyKept(items[i]);
    }
  }

  // --- Equal canonical forms ---------------------------------------------------------------------

  lemma SameItems(a: seq<Json>, b: seq<Json>)
    requires |a| == |b| && forall i | 0 <= i < |a| :: Canonical(a[i]) == Canonical(b[i])
    ensures Canonical(Arr(a)) == Canonical(Arr(b))
  {
    assert CanonicalItems(a) == CanonicalItems(b);
  }

  lemma PermutedItems(a: seq<Json>, b: seq<Json>, p: seq<nat>)
    requires |a| == |b| && Permutation(p, |a|)
    requires forall i | 0 <= i < |a| :: Canonical(a[i]) == Canonical(b[p[i]])
    ensures Sort(ItemLe, CanonicalItems(a)) == Sort(ItemLe, CanonicalItems(b))
  {
    var ca, cb := CanonicalItems(a), CanonicalItems(b);
    PermutedContents(ca, cb, p);
    ItemOrder();
    ItemOrderStrict(ca);
    SortSameContents(ItemLe, ca, cb);
  }

  lemma PermutedArrays(a: seq<Json>, b: seq<Json>, p: seq<nat>)
    requires DistinctKeys(Arr(a)) && DistinctKeys(Arr(b)) && AllKeyed(a) && AllKeyed(b)
    requires |a| == |b| && Permutation(p, |a|)
    requires forall i | 0 <= i < |a| :: Canonical(a[i]) == Canonical(b[p[i]])
    ensures Canonical(Arr(a)) == Canonical(Arr(b))
  {
    AllKeyedKept(a);
    AllKeyedKept(b);
    PermutedItems(a, b, p);
  }

  lemma PermutedObjects(a: seq<Field>, b: seq<Field>, p: seq<nat>)
    requires |a| == |b| && Permutation(p, |a|) && UniqueKeys(a)
    requires forall i | 0 <= i < |a| :: a[i].key == b[p[i]].key && Canonical(a[i].value) == Canonical(b[p[i]].value)
    ensures Canonical(Obj(a)) == Canonical(Obj(b))
  {
    var ca, cb := CanonicalFields(a), CanonicalFields(b);
    PermutedContents(ca, cb, p);
    FieldOrder();
    FieldOrderStrict(ca);
    SortSameContents(FieldLe, ca, cb);
  }

  lemma {:induction false} EquivalentToCanonical(v: Json, w: Json)
    requires DistinctKeys(v) && DistinctKeys(w) && Equivalent(v, w)
    ensures Canonical(v) == Canonical(w)
    decreases v, 0
  {
    match v {
      case Arr(a) => EquivalentArrays(a, w.items);
      case Obj(a) => EquivalentObjects(a, w.fields);
      case _ =>
    }
  }

  lemma {:induction false} EquivalentArrays(a: seq<Json>, b: seq<Json>)
    requires DistinctKeys(Arr(a)) && DistinctKeys(Arr(b)) && Equivalent(Arr(a), Arr(b))
    ensures Canonical(Arr(a)) == Canonical(Arr(b))
    decreases a, 1
  {
    if forall i | 0 <= i < |a| :: Equivalent(a[i], b[i]) {
      forall i | 0 <= i < |a| ensures Canonical(a[i]) == Canonical(b[i]) {
        EquivalentToCanonical(a[i], b[i]);
      }
      SameItems(a, b);
    } else {
      var p :| Permutation(p, |a|) && forall i | 0 <= i < |a| :: Equivalent(a[i], b[p[i]]);
      forall i | 0 <= i < |a| ensures Canonical(a[i]) == Canonical(b[p[i]]) {
        EquivalentToCanonical(a[i], b[p[i]]);
      }
      PermutedArrays(a, b, p);
    }
  }

  lemma {:induction false} EquivalentObjects(a: seq<Field>, b: seq<Field>)
    requires DistinctKeys(Obj(a)) && DistinctKeys(Obj(b)) && Equivalent(Obj(a), Obj(b))
    ensures Canonical(Obj(a)) == Canonical(Obj(b))
    decreases a, 1
  {
    var p :| Permutation(p, |a|) && forall i | 0 <= i < |a| :: a[i].key == b[p[i]].key && Equivalent(a[i].value, b[p[i]].value);
    forall i | 0 <= i < |a| ensures Canonical(a[i].value) == Canonical(b[p[i]].value) {
      EquivalentToCanonical(a[i].value, b[p[i]].value);
    }
    PermutedObjects(a, b, p);
  }

  lemma {:induction false} CanonicalToEquivalent(v: Json, w: Json)
    requires DistinctKeys(v) && DistinctKeys(w) && Canonical(v) == Canonical(w)
    ensures Equivalent(v, w)
    decreases v
  {
    match v {
      case Arr(a) =>
        var b := w.items;
        var ca, cb := CanonicalItems(a), CanonicalItems(b);
        SortContents(ItemLe, ca);
        SortContents(ItemLe, cb);
        AllKeyedKept(a);
        AllKeyedKept(b);
        if AllKeyed(ca) && AllKeyed(cb) {
          var p := FindPermutation(ca, cb);
          forall i | 0 <= i < |a| ensures Equivalent(a[i], b[p[i]]) {
            CanonicalToEquivalent(a[i], b[p[i]]);
          }
        } else {
          SortedKeyed(ca);
          SortedKeyed(cb);
          forall i | 0 <= i < |a| ensures |a| == |b| && Equivalent(a[i], b[i]) {
            assert ca[i] == cb[i];
            CanonicalToEquivalent(a[i], b[i]);
          }
        }
      case Obj(a) =>
        var b := w.fields;
        var ca, cb := CanonicalFields(a), CanonicalFields(b);
        SortContents(FieldLe, ca);
        SortContents(FieldLe, cb);
        var p := FindPermutation(ca, cb);
        forall i | 0 <= i < |a| ensures a[i].key == b[p[i]].key && Equivalent(a[i].value, b[p[i]].value) {
          assert ca[i] == cb[p[i]];
          CanonicalToEquivalent(a[i].value, b[p[i]].value);
        }
      case _ =>
    }
  }

  /** Sorting neither adds nor takes away sort keys. */
  lemma SortedKeyed(items: seq<Json>)
    ensures |Sort(ItemLe, items)| == |items|
    ensures AllKeyed(Sort(ItemLe, items)) <==> AllKeyed(items)
  {
    SortContents(ItemLe, items);
    assert |Sort(ItemLe, items)| == |multiset(Sort(ItemLe, items))| == |multiset(items)|;
    var p := FindPermutation(Sort(ItemLe, items), items);
    var q := FindPermutation(items, Sort(ItemLe, items));
  }

  /** Two documents have the same canonical form exactly when they are equivalent. */
  lemma SameCanonicalForm(v: Json, w: Json)
    requires DistinctKeys(v) && DistinctKeys(w)
    ensures Canonical(v) == Canonical(w) <==> Equivalent(v, w)
  {
    if Equivalent(v, w) {
      EquivalentToCanonical(v, w);
    }
    if Canonical(v) == Canonical(w) {
      CanonicalToEquivalent(v, w);
    }
  }

  // --- The canonical form is one of the equivalent documents ------------------------------------------

  lemma {:induction false} CanonicalIsEquivalent(v: Json)
    requires DistinctKeys(v)
    ensures Equivalent(Canonical(v), v) && DistinctKeys(Canonical(v))
    decreases v
  {
    match v {
      case Arr(a) =>
        var ca := CanonicalItems(a);
        forall i | 0 <= i < |a| ensures Equivalent(ca[i], a[i]) && DistinctKeys(ca[i]) {
          CanonicalIsEquivalent(a[i]);
        }
        AllKeyedKept(a);
        if AllKeyed(ca) {
          SortContents(ItemLe, ca);
          SortedKeyed(ca);
          var p := FindPermutation(Sort(ItemLe, ca), ca);
          assert forall i | 0 <= i < |ca| :: Equivalent(Sort(ItemLe, ca)[i], a[p[i]]);
        }
      case Obj(a) =>
        var ca := CanonicalFields(a);
        forall i | 0 <= i < |a| ensures Equivalent(ca[i].value, a[i].value) && DistinctKeys(ca[i].value) {
          CanonicalIsEquivalent(a[i].value);
        }
        var p := SortedFieldsUnique(ca);
        var s := Sort(FieldLe, ca);
        assert forall i | 0 <= i < |s| :: s[i].key == a[p[i]].key && Equivalent(s[i].value, a[p[i]].value);
      case _ =>
    }
  }

  /** Canonicalizing twice is canonicalizing once. */
  lemma CanonicalTwice(v: Json)
    requires DistinctKeys(v)
    ensures Canonical(Canonical(v)) == Canonical(v)
  {
    CanonicalIsEquivalent(v);
    SameCanonicalForm(Canonical(v), v);
  }

  // --- The canonicalizer as it runs -----------------------------------------------------------------

  /** Sorting the entries first and canonicalizing their values afterwards comes to the same. */
  lemma SortFirst(fields: seq<Field>)
    requires UniqueKeys(fields)
    ensures |Sort(FieldLe, fields)| == |fields|
    ensures Sort(FieldLe, CanonicalFields(fields)) == CanonicalFields(Sort(FieldLe, fields))
  {
    var middle, sorted := CanonicalFields(fields), Sort(FieldLe, fields);
    var after := CanonicalFields(sorted);
    var p := SortedFieldsUnique(fields);
    SortContents(FieldLe, fields);
    assert |sorted| == |multiset(sorted)| == |multiset(fields)|;
    PermutedContents(after, middle, p);
    FieldOrder();
    SortSorts(FieldLe, fields);
    assert Sorted(FieldLe, after);
    FieldOrderStrict(after);
    SortSameContents(FieldLe, after, middle);
    SortContents(FieldLe, after);
    SortSorts(FieldLe, after);
    SortedUnique(FieldLe, after, Sort(FieldLe, after));
  }

  /** `canonicalize_json` */
  method CanonicalizeJson(value: Json) returns (r: Json)
    requires DistinctKeys(value)
    ensures r == Canonical(value)
  {
    match value {
      case Arr(items) =>
        var out: seq<Json> := [];
        for n := 0 to |items|
          invariant |out| == n && forall i | 0 <= i < n :: out[i] == Canonical(items[i])
        {
          var item := CanonicalizeJson(items[n]);
          out := out + [item];
        }
        assert out == CanonicalItems(items);
        for n := 0 to |out|
          invariant forall i | 0 <= i < n :: SortKey(out[i]).Some?
        {
          if SortKey(out[n]).None? {
            return Arr(out);
          }
        }
        r := Arr(Sort(ItemLe, out));
      case Obj(fields) =>
        var entries := Sort(FieldLe, fields);
        var p := SortedFieldsUnique(fields);
        SortFirst(fields);
        var sorted: seq<Field> := [];
        for n := 0 to |entries|
          invariant |sorted| == n && forall i | 0 <= i < n :: sorted[i] == Field(entries[i].key, Canonical(entries[i].value))
        {
          assert entries[n] == fields[p[n]];
          var child := CanonicalizeJson(entries[n].value);
          sorted := sorted + [Field(entries[n].key, child)];
        }
        assert sorted == CanonicalFields(entries);
        r := Obj(sorted);
      case _ => r := value;
    }
  }
}
