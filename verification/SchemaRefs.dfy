/**
  References inside JSON schemas, and moving them into a namespace.
*/
module SchemaRefs {
  import opened Wrappers
  import opened JsonValues
  import opened SchemaAnnotate

  const DEFINITIONS := "#/definitions/"

  predicate IsDefinitionRef(r: string) {
    DEFINITIONS <= r
  }

  /** The reference to this definition. */
  function Ref(name: string): string {
    DEFINITIONS + name
  }

  /** What `rewrite_refs_to_namespace` makes of a reference: definitions move into the namespace, unless they are there. */
  function MovedRef(r: string, ns: string): string {
    if IsDefinitionRef(r) && !(Ref(ns + "/") <= r) then Ref(ns + "/" + r[|DEFINITIONS|..]) else r
  }

  /** The document with every reference rewritten. */
  function Rewritten(v: Json, rewrite: string -> string): Json {
    match v
    case Arr(items) => Arr(seq(|items|, i requires 0 <= i < |items| => Rewritten(items[i], rewrite)))
    case Obj(fields) => Obj(seq(|fields|, i requires 0 <= i < |fields| => RewrittenEntry(fields[i], rewrite)))
    case _ => v
  }

  function RewrittenEntry(f: Field, rewrite: string -> string): Field {
    if f.key == "$ref" && f.value.Str? then Field("$ref", Str(rewrite(f.value.s)))
    else Field(f.key, Rewritten(f.value, rewrite))
  }

  function Mover(ns: string): string -> string {
    (r: string) => MovedRef(r, ns)
  }

  function Moved(v: Json, ns: string): Json {
    Rewritten(v, Mover(ns))
  }

  /** Some object in the document, at any depth, has this reference. */
  predicate Refers(v: Json, r: string) {
    match v
    case Arr(items) => exists i | 0 <= i < |items| :: Refers(items[i], r)
    case Obj(fields) => exists i | 0 <= i < |fields| :: IsRefEntry(fields[i], r) || Refers(fields[i].value, r)
    case _ => false
  }

  predicate IsRefEntry(f: Field, r: string) {
    f == Field("$ref", Str(r))
  }

  /** A reference in the entry of an object. */
  predicate EntryRefers(f: Field, r: string) {
    IsRefEntry(f, r) || Refers(f.value, r)
  }

  lemma RefersField(fields: seq<Field>, i: nat, r: string)
    requires i < |fields| && EntryRefers(fields[i], r)
    ensures Refers(Obj(fields), r)
  {
  }

  lemma FieldOfRef(fields: seq<Field>, r: string) returns (i: nat)
    requires Refers(Obj(fields), r)
    ensures i < |fields| && EntryRefers(fields[i], r)
  {
    i :| 0 <= i < |fields| && (IsRefEntry(fields[i], r) || Refers(fields[i].value, r));
  }

  // --- Rewriting and references -----------------------------------------------------------------------------

  /** Rewriting makes no references of its own. */
  lemma {:induction false} RewrittenFrom(v: Json, rewrite: string -> string, r: string) returns (source: string)
    requires Refers(Rewritten(v, rewrite), r)
    ensures Refers(v, source) && r == rewrite(source)
    decreases v, 0
  {
    var after := Rewritten(v, rewrite);
    match v
    case Arr(items) =>
      var i :| 0 <= i < |after.items| && Refers(after.items[i], r);
      source := RewrittenFrom(items[i], rewrite, r);
    case Obj(fields) =>
      var i := FieldOfRef(after.fields, r);
      source := EntryRewrittenFrom(fields[i], rewrite, r);
      RefersField(fields, i, source);
  }

  lemma {:induction false} EntryRewrittenFrom(f: Field, rewrite: string -> string, r: string) returns (source: string)
    requires EntryRefers(RewrittenEntry(f, rewrite), r)
    ensures EntryRefers(f, source) && r == rewrite(source)
    decreases f, 1
  {
    if f.key == "$ref" && f.value.Str? {
      source := f.value.s;
    } else {
      assert Rewritten(f.value, rewrite).Str? ==> f.value.Str?;
      source := RewrittenFrom(f.value, rewrite, r);
    }
  }

  /** Rewriting loses no reference. */
  lemma {:induction false} RewrittenKeeps(v: Json, rewrite: string -> string, r: string)
    requires Refers(v, r)
    ensures Refers(Rewritten(v, rewrite), rewrite(r))
    decreases v, 0
  {
    var after := Rewritten(v, rewrite);
    match v
    case Arr(items) =>
      var i :| 0 <= i < |items| && Refers(items[i], r);
      RewrittenKeeps(items[i], rewrite, r);
      assert Refers(after.items[i], rewrite(r));
    case Obj(fields) =>
      var i := FieldOfRef(fields, r);
      EntryRewrittenKeeps(fields[i], rewrite, r);
      RefersField(after.fields, i, rewrite(r));
  }

  lemma {:induction false} EntryRewrittenKeeps(f: Field, rewrite: string -> string, r: string)
    requires EntryRefers(f, r)
    ensures EntryRefers(RewrittenEntry(f, rewrite), rewrite(r))
    decreases f, 1
  {
    if !(f.key == "$ref" && f.value.Str?) {
      RewrittenKeeps(f.value, rewrite, r);
    }
  }

  /** The documents that rewriting does not change are those whose references it leaves alone. */
  lemma {:induction false} FixedIffKept(v: Json, rewrite: string -> string)
    ensures Rewritten(v, rewrite) == v <==> forall r | Refers(v, r) :: rewrite(r) == r
    decreases v, 0
  {
    if forall r | Refers(v, r) :: rewrite(r) == r {
      match v {
        case Arr(items) =>
          forall i | 0 <= i < |items| ensures Rewritten(items[i], rewrite) == items[i] {
            assert forall r | Refers(items[i], r) :: Refers(v, r);
            FixedIffKept(items[i], rewrite);
          }
          assert Rewritten(v, rewrite).items == items;
        case Obj(fields) =>
          forall i | 0 <= i < |fields| ensures RewrittenEntry(fields[i], rewrite) == fields[i] {
            forall r | EntryRefers(fields[i], r) ensures rewrite(r) == r {
              RefersField(fields, i, r);
            }
            EntryFixedIffKept(fields[i], rewrite);
          }
          assert Rewritten(v, rewrite).fields == fields;
        case _ =>
      }
    } else {
      var r :| Refers(v, r) && rewrite(r) != r;
      match v {
        case Arr(items) =>
          var i :| 0 <= i < |items| && Refers(items[i], r);
          FixedIffKept(items[i], rewrite);
          assert Rewritten(v, rewrite).items[i] != items[i];
        case Obj(fields) =>
          var i := FieldOfRef(fields, r);
          EntryFixedIffKept(fields[i], rewrite);
          assert Rewritten(v, rewrite).fields[i] != fields[i];
      }
    }
  }

  lemma {:induction false} EntryFixedIffKept(f: Field, rewrite: string -> string)
    ensures RewrittenEntry(f, rewrite) == f <==> forall r | EntryRefers(f, r) :: rewrite(r) == r
    decreases f, 1
  {
    if f.key == "$ref" && f.value.Str? {
      assert EntryRefers(f, f.value.s);
    } else {
      FixedIffKept(f.value, rewrite);
      assert forall r :: EntryRefers(f, r) <==> Refers(f.value, r);
    }
  }

  // --- Moving into a namespace --------------------------------------------------------------------------------

  /** A reference that moving leaves alone. */
  predicate InPlace(r: string, ns: string) {
    IsDefinitionRef(r) ==> Ref(ns + "/") <= r
  }

  lemma MovedRefInPlace(r: string, ns: string)
    ensures InPlace(MovedRef(r, ns), ns)
    ensures MovedRef(r, ns) == r <==> InPlace(r, ns)
  {
    var moved := MovedRef(r, ns);
    if moved != r {
      assert moved == Ref(ns + "/") + r[|DEFINITIONS|..];
      assert |moved| > |r|;
    }
  }

  /** Moving changes each reference, loses none and makes no others. */
  lemma MovedRefers(v: Json, ns: string, r: string)
    ensures Refers(Moved(v, ns), r) <==> exists source :: Refers(v, source) && r == MovedRef(source, ns)
  {
    if Refers(Moved(v, ns), r) {
      var source := RewrittenFrom(v, Mover(ns), r);
    }
    if source :| Refers(v, source) && r == MovedRef(source, ns) {
      RewrittenKeeps(v, Mover(ns), source);
    }
  }

  /** The documents that moving does not change are those whose definition references are all in the namespace. */
  lemma FixedIffInPlace(v: Json, ns: string)
    ensures Moved(v, ns) == v <==> forall r | Refers(v, r) :: InPlace(r, ns)
  {
    FixedIffKept(v, Mover(ns));
    forall r ensures Mover(ns)(r) == r <==> InPlace(r, ns) {
      MovedRefInPlace(r, ns);
    }
  }

  /** Moving references into a namespace twice is the same as once. */
  lemma MovingTwice(v: Json, ns: string)
    ensures Moved(Moved(v, ns), ns) == Moved(v, ns)
  {
    FixedIffInPlace(Moved(v, ns), ns);
    forall r | Refers(Moved(v, ns), r) ensures InPlace(r, ns) {
      MovedRefers(v, ns, r);
      var source :| Refers(v, source) && r == MovedRef(source, ns);
      MovedRefInPlace(source, ns);
    }
  }
}
