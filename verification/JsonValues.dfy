/**
  JSON documents as `serde_json` holds them. An object is the list of its
  entries in order; its keys are distinct. Trees are owned, so an update in
  place is a new value.
*/
module JsonValues {
  import opened Wrappers

  type NumberText = s: string | s != [] && forall i | 0 <= i < |s| :: IsNumberChar(s[i]) witness "0"

  predicate IsNumberChar(c: char) {
    '0' <= c <= '9' || c == '+' || c == '-' || c == '.' || c == 'e' || c == 'E'
  }

  datatype Json =
    | Null
    | Bool(b: bool)
    | Num(text: NumberText)
    | Str(s: string)
    | Arr(items: seq<Json>)
    | Obj(fields: seq<Field>)

  datatype Field = Field(key: string, value: Json)

  function Get(fields: seq<Field>, key: string): Option<Json> {
    if fields == [] then None
    else if fields[0].key == key then Some(fields[0].value)
    else Get(fields[1..], key)
  }

  predicate HasKey(fields: seq<Field>, key: string) {
    Get(fields, key).Some?
  }

  /** `Map::insert`: replace the entry in place, or append one. */
  function Put(fields: seq<Field>, key: string, value: Json): seq<Field> {
    if fields == [] then [Field(key, value)]
    else if fields[0].key == key then [Field(key, value)] + fields[1..]
    else [fields[0]] + Put(fields[1..], key, value)
  }

  predicate UniqueKeys(fields: seq<Field>) {
    forall i, j | 0 <= i < j < |fields| :: fields[i].key != fields[j].key
  }

  /** `Value::get` with a string: only objects have members. */
  function Member(v: Json, key: string): Option<Json> {
    if v.Obj? then Get(v.fields, key) else None
  }

  function AsString(v: Option<Json>): Option<string> {
    if v.Some? && v.value.Str? then Some(v.value.s) else None
  }

  lemma {:induction false} GetMeaning(fields: seq<Field>, key: string)
    ensures Get(fields, key).None? ==> forall i | 0 <= i < |fields| :: fields[i].key != key
    ensures Get(fields, key).Some? ==> exists i | 0 <= i < |fields| ::
      fields[i] == Field(key, Get(fields, key).value) && forall j | 0 <= j < i :: fields[j].key != key
  {
    if fields != [] {
      GetMeaning(fields[1..], key);
      if fields[0].key == key {
        assert fields[0] == Field(key, Get(fields, key).value);
      } else if Get(fields, key).Some? {
        var i :| 0 <= i < |fields[1..]| && fields[1..][i] == Field(key, Get(fields, key).value)
          && forall j | 0 <= j < i :: fields[1..][j].key != key;
        assert fields[i + 1] == Field(key, Get(fields, key).value);
        assert forall j | 0 < j < i + 1 :: fields[j] == fields[1..][j - 1];
      }
    }
  }

  /** Distinct keys: a lookup finds exactly the entries that are there. */
  lemma {:induction false} GetAt(fields: seq<Field>, i: nat)
    requires i < |fields| && UniqueKeys(fields)
    ensures Get(fields, fields[i].key) == Some(fields[i].value)
  {
    if i > 0 {
      assert fields[1..][i - 1] == fields[i];
      GetAt(fields[1..], i - 1);
    }
  }

  lemma {:induction false} GetPut(fields: seq<Field>, key: string, value: Json, other: string)
    ensures Get(Put(fields, key, value), other) == if other == key then Some(value) else Get(fields, other)
  {
    if fields != [] && fields[0].key != key {
      GetPut(fields[1..], key, value, other);
    }
  }

  /** In every object of the document the keys are distinct, as in a `Map`. */
  predicate DistinctKeys(v: Json) {
    match v
    case Arr(items) => forall i | 0 <= i < |items| :: DistinctKeys(items[i])
    case Obj(fields) => UniqueKeys(fields) && forall i | 0 <= i < |fields| :: DistinctKeys(fields[i].value)
    case _ => true
  }

  /** The entries after an insertion. */
  lemma {:induction false} PutElements(fields: seq<Field>, key: string, value: Json)
    requires UniqueKeys(fields)
    ensures UniqueKeys(Put(fields, key, value))
    ensures forall f | f in Put(fields, key, value) :: f == Field(key, value) || (f in fields && f.key != key)
  {
    if fields != [] {
      var rest, put := fields[1..], Put(fields, key, value);
      assert forall i | 0 <= i < |rest| :: rest[i] == fields[i + 1];
      if fields[0].key == key {
        assert put[1..] == rest;
        forall f | f in put ensures f == Field(key, value) || (f in fields && f.key != key) {
          if f != put[0] {
            assert f in rest;
            var i :| 0 <= i < |rest| && rest[i] == f;
            assert fields[i + 1] == f && fields[0].key != f.key;
          }
        }
      } else {
        PutElements(rest, key, value);
        assert put == [fields[0]] + Put(rest, key, value);
        forall f | f in Put(rest, key, value) ensures f.key != fields[0].key {
          if f.key != key {
            var i :| 0 <= i < |rest| && rest[i] == f;
            assert fields[i + 1] == f;
          }
        }
        assert forall i | 0 < i < |put| :: put[i] in Put(rest, key, value);
      }
    }
  }

  lemma PutDistinct(fields: seq<Field>, key: string, value: Json)
    requires UniqueKeys(fields)
    requires DistinctKeys(value) && forall i | 0 <= i < |fields| :: DistinctKeys(fields[i].value)
    ensures DistinctKeys(Obj(Put(fields, key, value)))
  {
    var put := Put(fields, key, value);
    PutElements(fields, key, value);
    forall i | 0 <= i < |put| ensures DistinctKeys(put[i].value) {
      assert put[i] in put;
      if put[i] != Field(key, value) {
        var j :| 0 <= j < |fields| && fields[j] == put[i];
      }
    }
  }

  // --- Nesting ---------------------------------------------------------------------------------

  function Max(a: nat, b: nat): nat {
    if a < b then b else a
  }

  /** The nesting depth of arrays and objects. */
  function Height(v: Json): nat {
    match v
    case Arr(items) => 1 + MaxHeight(items)
    case Obj(fields) => 1 + MaxFieldHeight(fields)
    case _ => 0
  }

  function MaxHeight(items: seq<Json>): nat {
    if items == [] then 0 else Max(Height(items[0]), MaxHeight(items[1..]))
  }

  function MaxFieldHeight(fields: seq<Field>): nat {
    if fields == [] then 0 else Max(Height(fields[0].value), MaxFieldHeight(fields[1..]))
  }

  lemma {:induction false} ItemHeight(items: seq<Json>, i: nat)
    requires i < |items|
    ensures Height(items[i]) <= MaxHeight(items)
  {
    if i > 0 {
      ItemHeight(items[1..], i - 1);
    }
  }

  lemma {:induction false} FieldHeight(fields: seq<Field>, i: nat)
    requires i < |fields|
    ensures Height(fields[i].value) <= MaxFieldHeight(fields)
  {
    if i > 0 {
      FieldHeight(fields[1..], i - 1);
    }
  }

  /** A bound on every entry bounds the object. */
  lemma {:induction false} FieldsBound(fields: seq<Field>, bound: nat)
    requires forall i | 0 <= i < |fields| :: Height(fields[i].value) <= bound
    ensures MaxFieldHeight(fields) <= bound
  {
    if fields != [] {
      assert forall i | 0 <= i < |fields[1..]| :: fields[1..][i] == fields[i + 1];
      FieldsBound(fields[1..], bound);
    }
  }

  /** Putting a string into an object does not deepen it. */
  lemma {:induction false} PutStringHeight(fields: seq<Field>, key: string, s: string)
    ensures MaxFieldHeight(Put(fields, key, Str(s))) <= MaxFieldHeight(fields)
  {
    if fields == [] {
      assert Put(fields, key, Str(s))[1..] == [];
    } else if fields[0].key != key {
      PutStringHeight(fields[1..], key, s);
      assert Put(fields, key, Str(s))[1..] == Put(fields[1..], key, Str(s));
    } else {
      assert Put(fields, key, Str(s))[1..] == fields[1..];
    }
  }
}
