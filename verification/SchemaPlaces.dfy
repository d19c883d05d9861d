/**
  Where the definitions of a schema end up in the bundle: in the namespace of
  the schema, at the root, or left to the namespace that their name belongs to.
*/
module SchemaPlaces {
  import opened Wrappers
  import opened JsonValues
  import opened SchemaAnnotate
  import opened SchemaRefs
  import opened SchemaBundle
  import opened SchemaPieces
  import opened SchemaBundleClosed
  import opened SchemaBundleExact

  // --- Whose a name is -----------------------------------------------------------------------------------

  /** The first schema that claims the name is in this namespace. */
  ghost predicate ClaimedBy(schemas: seq<GeneratedSchema>, name: string, ns: string) {
    exists i: nat :: FirstClaim(schemas, i, name) && schemas[i].namespace == Some(ns)
  }

  /** The other name with a number behind it. */
  predicate NumberedFrom(name: string, base: string) {
    && |base| < |name| && base <= name
    && (forall i | |base| <= i < |name| :: '0' <= name[i] <= '9')
    && (base != [] ==> !('0' <= base[|base| - 1] <= '9'))
  }

  /** A name belongs to the namespace that claims it, or else to the one that claims it without its number. */
  ghost predicate BelongsTo(schemas: seq<GeneratedSchema>, name: string, ns: string) {
    || ClaimedBy(schemas, name, ns)
    || ((forall other :: !ClaimedBy(schemas, name, other))
        && exists base :: NumberedFrom(name, base) && ClaimedBy(schemas, base, ns))
  }

  lemma ClaimedIff(schemas: seq<GeneratedSchema>, name: string, ns: string)
    ensures ClaimedBy(schemas, name, ns) <==> name in NamespacedTypes(schemas) && NamespacedTypes(schemas)[name] == ns
  {
    FirstClaimWins(schemas, name);
  }

  lemma {:induction false} DigitsTrimmed(s: string)
    ensures var t := TrimEndDigits(s);
      && t <= s && (forall i | |t| <= i < |s| :: IsDigit(s[i])) && (t != [] ==> !IsDigit(t[|t| - 1]))
  {
    if s != [] && IsDigit(s[|s| - 1]) {
      DigitsTrimmed(s[..|s| - 1]);
    }
  }

  lemma OneBase(name: string, base: string)
    ensures NumberedFrom(name, base) <==> base == TrimEndDigits(name) && base != name
  {
    DigitsTrimmed(name);
    var t := TrimEndDigits(name);
    assert t == name[..|t|] && (t != [] ==> t[|t| - 1] == name[|t| - 1]);
    if base <= name {
      assert base == name[..|base|] && (base != [] ==> base[|base| - 1] == name[|base| - 1]);
    }
  }

  lemma BelongsIff(schemas: seq<GeneratedSchema>, name: string, ns: string)
    ensures BelongsTo(schemas, name, ns) <==> NamespaceFor(name, NamespacedTypes(schemas)) == Some(ns)
  {
    var types, trimmed := NamespacedTypes(schemas), TrimEndDigits(name);
    forall other ensures ClaimedBy(schemas, name, other) <==> name in types && types[name] == other {
      ClaimedIff(schemas, name, other);
    }
    forall base ensures NumberedFrom(name, base) <==> base == trimmed && base != name {
      OneBase(name, base);
    }
    ClaimedIff(schemas, trimmed, ns);
    if name in types {
      assert ClaimedBy(schemas, name, types[name]);
    }
  }

  /**
    A definition is meant for the namespace of its schema; one of a schema
    without namespace is left to the namespace its name belongs to, unless the
    schema is one of version 1.
  */
  lemma TargetIs(schemas: seq<GeneratedSchema>, s: GeneratedSchema, name: string, ns: string)
    ensures Target(name, s, NamespacedTypes(schemas)) == Some(ns) <==>
      s.namespace == Some(ns) || (s.namespace.None? && !s.inV1Dir && BelongsTo(schemas, name, ns))
  {
    BelongsIff(schemas, name, ns);
  }

  // --- References by path ------------------------------------------------------------------------------------

  /** The reference to a definition that is left to a namespace, and every path inside it, lead into the namespace. */
  lemma NamedPathsMove(ns: string, name: string, rest: string)
    ensures MovedNamedRef("#/definitions/" + name, ns, name) == "#/definitions/" + ns + "/" + name
    ensures MovedNamedRef("#/definitions/" + name + "/" + rest, ns, name) == "#/definitions/" + ns + "/" + name + "/" + rest
  {
    var target := ns + "/" + name;
    assert "#/definitions/" + target == "#/definitions/" + ns + "/" + name;
    var r := Ref(name) + "/" + rest;
    assert |r| > |Ref(name)| && Ref(name) + "/" <= r;
    assert r[|Ref(name)| + 1..] == rest;
  }

  /** Every other reference stays. */
  lemma OtherPathsStay(r: string, ns: string, name: string)
    ensures MovedNamedRef(r, ns, name) == r || r == "#/definitions/" + name || exists rest :: r == "#/definitions/" + name + "/" + rest
  {
    if Ref(name) + "/" <= r {
      assert r == "#/definitions/" + name + "/" + r[|Ref(name)| + 1..];
    }
  }

  /** In a schema of a namespace every path to a definition leads into the namespace. */
  lemma PathsMove(ns: string, path: string)
    ensures !(ns + "/" <= path) ==> MovedRef("#/definitions/" + path, ns) == "#/definitions/" + ns + "/" + path
  {
    var r := "#/definitions/" + path;
    assert r[|DEFINITIONS|..] == path;
    if Ref(ns + "/") <= r {
      assert ns + "/" == Ref(ns + "/")[|DEFINITIONS|..] == r[|DEFINITIONS|..][..|ns| + 1];
    }
    assert "#/definitions/" + (ns + "/" + path) == "#/definitions/" + ns + "/" + path;
  }

  // --- What is found in the bundle ---------------------------------------------------------------------------

  ghost predicate GoesWithSchema(schemas: seq<GeneratedSchema>, s: GeneratedSchema, name: string) {
    s.namespace.Some? || s.inV1Dir || forall ns :: !BelongsTo(schemas, name, ns)
  }

  lemma StaysIff(schemas: seq<GeneratedSchema>, s: GeneratedSchema, name: string)
    ensures Stays(name, s, NamespacedTypes(schemas)) <==> !Skips(name) && GoesWithSchema(schemas, s, name)
  {
    var target := Target(name, s, NamespacedTypes(schemas));
    forall ns ensures target == Some(ns) <==>
      s.namespace == Some(ns) || (s.namespace.None? && !s.inV1Dir && BelongsTo(schemas, name, ns))
    {
      TargetIs(schemas, s, name, ns);
    }
    if target.Some? {
      TargetIs(schemas, s, name, target.value);
    }
  }

  /** No later schema of the same namespace has this name, or a definition with it. */
  predicate NotReplaced(schemas: seq<GeneratedSchema>, i: nat, name: string)
    requires i < |schemas|
  {
    && name != schemas[i].logicalName
    && forall j | i < j < |schemas| && schemas[j].namespace == schemas[i].namespace ::
         name != schemas[j].logicalName && name !in Names(Definitions(schemas[j]))
  }

  lemma FoundAtRoot(definitions: seq<Field>, ps: seq<Piece>, spaces: set<string>, name: string)
    requires Shaped(definitions, ps, spaces) && name !in spaces
    ensures Get(definitions, name) == LastValue(ps, None, name)
  {
  }

  lemma FoundInSpace(definitions: seq<Field>, ps: seq<Piece>, spaces: set<string>, ns: string, name: string)
    requires Shaped(definitions, ps, spaces) && ns in spaces
    ensures Get(EntriesUnder(Obj(definitions), ns), name) == LastValue(ps, Some(ns), name)
  {
    assert SpaceShaped(definitions, ps, ns);
  }

  /** It is put into the bundle with its schema, and under that place something is found. */
  lemma PutThere(schemas: seq<GeneratedSchema>, s: GeneratedSchema, name: string)
    requires s in schemas && Bundled(s)
    requires name == s.logicalName || (name in Names(Definitions(s)) && !Skips(name) && GoesWithSchema(schemas, s, name))
    ensures LastValue(BundlePieces(schemas), s.namespace, name).Some?
  {
    StaysIff(schemas, s, name);
    PutUnderItsName(schemas, s, name);
  }

  lemma LastingValue(schemas: seq<GeneratedSchema>, i: nat, def: Field)
    requires DistinctDefinitions(schemas) && i < |schemas| && Bundled(schemas[i]) && def in Definitions(schemas[i])
    requires !Skips(def.key) && GoesWithSchema(schemas, schemas[i], def.key) && NotReplaced(schemas, i, def.key)
    ensures LastValue(BundlePieces(schemas), schemas[i].namespace, def.key) == Some(PlacedValue(Piece(schemas[i].namespace, def, Definition)))
  {
    var types := NamespacedTypes(schemas);
    StaysIff(schemas, schemas[i], def.key);
    assert !PutAgain(schemas, types, i, schemas[i].namespace, def.key);
    var p := DefinitionPieceLasts(schemas, i, def);
  }

  /** The definitions of the bundle. */
  lemma BundledDefinitions(schemas: seq<GeneratedSchema>) returns (definitions: seq<Field>)
    requires SchemasOk(schemas)
    ensures BundleOf(schemas) == Bundle(definitions) && Shaped(definitions, BundlePieces(schemas), SpacesOf(schemas))
  {
    definitions := BundleShape(schemas);
  }

  /** A definition of a schema without namespace that goes with it is in the bundle at the root, annotated under its name. */
  lemma RootDefinitionIsFound(schemas: seq<GeneratedSchema>, i: nat, def: Field) returns (definitions: seq<Field>)
    requires SchemasOk(schemas) && DistinctDefinitions(schemas)
    requires i < |schemas| && Bundled(schemas[i]) && schemas[i].namespace.None? && def in Definitions(schemas[i])
    requires !Skips(def.key) && GoesWithSchema(schemas, schemas[i], def.key)
    ensures BundleOf(schemas) == Bundle(definitions) && HasKey(definitions, def.key)
    ensures NotReplaced(schemas, i, def.key) ==> Get(definitions, def.key) == Some(Annotate(def.value, Some(def.key)))
  {
    definitions := BundledDefinitions(schemas);
    PutThere(schemas, schemas[i], def.key);
    assert def.key !in SpacesOf(schemas);
    FoundAtRoot(definitions, BundlePieces(schemas), SpacesOf(schemas), def.key);
    if NotReplaced(schemas, i, def.key) {
      LastingValue(schemas, i, def);
    }
  }

  /** In a namespace every definition of its schemas is found under that namespace. */
  lemma NamespacedDefinitionIsFound(schemas: seq<GeneratedSchema>, i: nat, name: string) returns (definitions: seq<Field>)
    requires SchemasOk(schemas) && i < |schemas| && Bundled(schemas[i]) && schemas[i].namespace.Some?
    requires name == schemas[i].logicalName || (name in Names(Definitions(schemas[i])) && !Skips(name))
    ensures BundleOf(schemas) == Bundle(definitions)
    ensures HasKey(EntriesUnder(Obj(definitions), schemas[i].namespace.value), name)
  {
    definitions := BundledDefinitions(schemas);
    PutThere(schemas, schemas[i], name);
    FoundInSpace(definitions, BundlePieces(schemas), SpacesOf(schemas), schemas[i].namespace.value, name);
  }

  /** These are never taken from the definitions of a schema. */
  lemma SpecialIsNotTaken(schemas: seq<GeneratedSchema>, name: string) returns (definitions: seq<Field>)
    requires SchemasOk(schemas) && name !in SpacesOf(schemas)
    requires name in {"Option<()>", "ClientNotification", "ClientRequest", "EventMsg", "ServerNotification", "ServerRequest"}
    ensures BundleOf(schemas) == Bundle(definitions)
    ensures HasKey(definitions, name) ==>
      exists i | 0 <= i < |schemas| :: Bundled(schemas[i]) && schemas[i].logicalName == name && schemas[i].namespace.None?
  {
    var ps := BundlePieces(schemas);
    definitions := BundledDefinitions(schemas);
    LastPieceMeaning(ps, None, name);
    FoundAtRoot(definitions, ps, SpacesOf(schemas), name);
    if HasKey(definitions, name) {
      var p := LastPiece(ps, None, name).value;
      var s := SchemaOfPiece(schemas, p);
      assert Skips(name);
      assert p.role.Rest?;
    }
  }
}
