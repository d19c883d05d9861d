/**
  When the bundle is closed, in terms of the schemas alone: what each of them
  puts where, which of it lasts, and what that refers to.
*/
module SchemaBundleExact {
  import opened Wrappers
  import opened JsonValues
  import opened SchemaAnnotate
  import opened SchemaRefs
  import opened SchemaSurvivors
  import opened SchemaBundle
  import opened SchemaPieces
  import opened SchemaBundleClosed

  /** The schema puts something there: itself, or a definition that stays with it. */
  predicate Puts(s: GeneratedSchema, types: map<string, string>, space: Option<string>, name: string) {
    && Bundled(s) && s.namespace == space
    && (name == s.logicalName || (name in Names(Definitions(s)) && Stays(name, s, types)))
  }

  predicate PutAgain(schemas: seq<GeneratedSchema>, types: map<string, string>, i: nat, space: Option<string>, name: string) {
    exists j | i < j < |schemas| :: Puts(schemas[j], types, space, name)
  }

  /** Some schema puts something there, or at the root is in a namespace of that name. */
  predicate Found(schemas: seq<GeneratedSchema>, types: map<string, string>, space: Option<string>, name: string) {
    exists i | 0 <= i < |schemas| ::
      Puts(schemas[i], types, space, name) || (space.None? && Bundled(schemas[i]) && schemas[i].namespace == Some(name))
  }

  /** Where the schema without its definitions looks for a name. */
  function LooksIn(s: GeneratedSchema, types: map<string, string>, name: string): Option<string> {
    if s.namespace.Some? || name !in Kept(s) then s.namespace else Target(name, s, types)
  }

  predicate DefinitionAsks(def: Field, name: string) {
    IsRefEntry(def, Ref(name)) || Survives(def.value, Some(def.key), Ref(name))
  }

  /** The definition goes into the bundle with the schema and is not replaced there. */
  predicate DefinitionLasts(schemas: seq<GeneratedSchema>, types: map<string, string>, i: nat, def: Field)
    requires i < |schemas|
  {
    var s := schemas[i];
    && Bundled(s) && def in Definitions(s) && Stays(def.key, s, types)
    && def.key != s.logicalName && !PutAgain(schemas, types, i, s.namespace, def.key)
  }

  predicate SchemaLasts(schemas: seq<GeneratedSchema>, types: map<string, string>, i: nat)
    requires i < |schemas|
  {
    Bundled(schemas[i]) && !PutAgain(schemas, types, i, schemas[i].namespace, schemas[i].logicalName)
  }

  /** What lasting definitions refer to is found in the namespace of their schema, or at the root. */
  ghost predicate DefinitionsFindAll(schemas: seq<GeneratedSchema>) {
    var types := NamespacedTypes(schemas);
    forall i, def, name | 0 <= i < |schemas| && DefinitionLasts(schemas, types, i, def) && DefinitionAsks(def, name) ::
      Found(schemas, types, schemas[i].namespace, name)
  }

  /** What lasting schemas refer to outside their definitions is found where they look for it. */
  ghost predicate SchemasFindAll(schemas: seq<GeneratedSchema>) {
    var types := NamespacedTypes(schemas);
    forall i, name | 0 <= i < |schemas| && SchemaLasts(schemas, types, i) && Refers(WithoutDefinitions(schemas[i].value), Ref(name)) ::
      Found(schemas, types, LooksIn(schemas[i], types, name), name)
  }

  predicate DistinctDefinitions(schemas: seq<GeneratedSchema>) {
    forall i | 0 <= i < |schemas| :: UniqueKeys(Definitions(schemas[i]))
  }

  // --- The pieces of one schema ----------------------------------------------------------------------------

  lemma {:induction false} LastOfBoth(a: seq<Piece>, b: seq<Piece>, space: Option<string>, name: string)
    ensures LastPiece(a + b, space, name) ==
      if LastPiece(b, space, name).Some? then LastPiece(b, space, name) else LastPiece(a, space, name)
  {
    if b == [] {
      assert a + b == a;
    } else {
      assert (a + b)[..|a + b| - 1] == a + b[..|b| - 1];
      LastOfBoth(a, b[..|b| - 1], space, name);
    }
  }

  lemma DefinitionPut(s: GeneratedSchema, types: map<string, string>, def: Field)
    requires UniqueKeys(Definitions(s)) && def in Definitions(s) && Stays(def.key, s, types)
    ensures LastPiece(DefinitionPieces(Definitions(s), s, types), s.namespace, def.key) == Some(Piece(s.namespace, def, Definition))
  {
    var ps, p := DefinitionPieces(Definitions(s), s, types), Piece(s.namespace, def, Definition);
    DefinitionPiece(Definitions(s), s, types, p);
    LastPieceMeaning(ps, s.namespace, def.key);
    var last := LastPiece(ps, s.namespace, def.key).value;
    DefinitionPiece(Definitions(s), s, types, last);
    KeyOfEntry(Definitions(s), def);
    KeyOfEntry(Definitions(s), last.entry);
  }

  /** What a schema puts there last: itself under its name, else its definition. */
  lemma PutBySchema(s: GeneratedSchema, types: map<string, string>, space: Option<string>, name: string)
    requires UniqueKeys(Definitions(s))
    ensures LastPiece(Pieces(s, types), space, name).Some? <==> Puts(s, types, space, name)
    ensures Puts(s, types, space, name) && name == s.logicalName ==> LastPiece(Pieces(s, types), space, name) == Some(RestPiece(s, types))
    ensures forall def | def in Definitions(s) && Puts(s, types, space, name) && name == def.key != s.logicalName ::
      LastPiece(Pieces(s, types), space, name) == Some(Piece(space, def, Definition))
  {
    if Bundled(s) {
      var ps := DefinitionPieces(Definitions(s), s, types);
      LastOfMore(ps, RestPiece(s, types), space, name);
      LastPieceMeaning(ps, space, name);
      if LastPiece(ps, space, name).Some? {
        DefinitionPiece(Definitions(s), s, types, LastPiece(ps, space, name).value);
      }
      forall def | def in Definitions(s) && Stays(def.key, s, types)
        ensures LastPiece(ps, s.namespace, def.key) == Some(Piece(s.namespace, def, Definition))
      {
        DefinitionPut(s, types, def);
      }
    }
  }

  // --- The pieces of all schemas ------------------------------------------------------------------------------

  /** The last schema that puts something there decides what is there. */
  lemma {:induction false} LastToPut(schemas: seq<GeneratedSchema>, types: map<string, string>, i: nat, space: Option<string>, name: string)
    requires DistinctDefinitions(schemas) && i < |schemas|
    requires Puts(schemas[i], types, space, name) && !PutAgain(schemas, types, i, space, name)
    ensures LastPiece(AllPieces(schemas, types), space, name) == LastPiece(Pieces(schemas[i], types), space, name)
    ensures LastPiece(AllPieces(schemas, types), space, name).Some?
    decreases |schemas|
  {
    var init, last := schemas[..|schemas| - 1], schemas[|schemas| - 1];
    LastOfBoth(AllPieces(init, types), Pieces(last, types), space, name);
    PutBySchema(last, types, space, name);
    if i < |init| {
      assert forall j | i < j < |init| :: init[j] == schemas[j];
      assert !Puts(last, types, space, name);
      LastToPut(init, types, i, space, name);
    }
  }

  lemma {:induction false} SomeLast(schemas: seq<GeneratedSchema>, types: map<string, string>, i: nat, space: Option<string>, name: string) returns (k: nat)
    requires i < |schemas| && Puts(schemas[i], types, space, name)
    ensures k < |schemas| && Puts(schemas[k], types, space, name) && !PutAgain(schemas, types, k, space, name)
    decreases |schemas| - i
  {
    k := i;
    if j :| i < j < |schemas| && Puts(schemas[j], types, space, name) {
      k := SomeLast(schemas, types, j, space, name);
    }
  }

  lemma PutByPiece(schemas: seq<GeneratedSchema>, p: Piece) returns (i: nat)
    requires p in BundlePieces(schemas)
    ensures i < |schemas| && p in Pieces(schemas[i], NamespacedTypes(schemas))
    ensures Puts(schemas[i], NamespacedTypes(schemas), p.space, p.entry.key)
  {
    var types := NamespacedTypes(schemas);
    PieceOfSchema(schemas, types, p);
    var s :| s in schemas && p in Pieces(s, types);
    i :| 0 <= i < |schemas| && schemas[i] == s;
    if p != RestPiece(s, types) {
      DefinitionPiece(Definitions(s), s, types, p);
    }
  }

  lemma PieceOfPut(schemas: seq<GeneratedSchema>, i: nat, p: Piece)
    requires i < |schemas| && p in Pieces(schemas[i], NamespacedTypes(schemas))
    ensures p in BundlePieces(schemas)
  {
    assert schemas[i] in schemas;
    PieceOfSchema(schemas, NamespacedTypes(schemas), p);
  }

  lemma ProvidedIffFound(schemas: seq<GeneratedSchema>, space: Option<string>, name: string)
    requires DistinctDefinitions(schemas)
    ensures Provided(BundlePieces(schemas), space, name) <==> Found(schemas, NamespacedTypes(schemas), space, name)
  {
    var ps, types := BundlePieces(schemas), NamespacedTypes(schemas);
    LastPieceMeaning(ps, space, name);
    if LastPiece(ps, space, name).Some? {
      var i := PutByPiece(schemas, LastPiece(ps, space, name).value);
    } else if space.None? && name in UsedSpaces(ps) {
      var p :| p in ps && p.space == Some(name);
      var i := PutByPiece(schemas, p);
    }
    if i :| 0 <= i < |schemas| && Puts(schemas[i], types, space, name) {
      var k := SomeLast(schemas, types, i, space, name);
      LastToPut(schemas, types, k, space, name);
    } else if i :| 0 <= i < |schemas| && space.None? && Bundled(schemas[i]) && schemas[i].namespace == Some(name) {
      var p := RestPiece(schemas[i], types);
      assert p in Pieces(schemas[i], types);
      PieceOfPut(schemas, i, p);
    }
  }

  /** A piece that lasts is a lasting schema without its definitions, or a lasting definition. */
  lemma WhatLasts(schemas: seq<GeneratedSchema>, p: Piece) returns (i: nat)
    requires DistinctDefinitions(schemas) && p in BundlePieces(schemas) && Lasting(BundlePieces(schemas), p)
    ensures i < |schemas| && p.space == schemas[i].namespace
    ensures var types := NamespacedTypes(schemas);
      if p.role.Definition? then DefinitionLasts(schemas, types, i, p.entry)
      else SchemaLasts(schemas, types, i) && p == RestPiece(schemas[i], types)
  {
    var types := NamespacedTypes(schemas);
    var first := PutByPiece(schemas, p);
    i := SomeLast(schemas, types, first, p.space, p.entry.key);
    LastToPut(schemas, types, i, p.space, p.entry.key);
    PutBySchema(schemas[i], types, p.space, p.entry.key);
    LastPieceMeaning(Pieces(schemas[i], types), p.space, p.entry.key);
    if p != RestPiece(schemas[i], types) {
      DefinitionPiece(Definitions(schemas[i]), schemas[i], types, p);
    }
  }

  lemma DefinitionPieceLasts(schemas: seq<GeneratedSchema>, i: nat, def: Field) returns (p: Piece)
    requires DistinctDefinitions(schemas) && i < |schemas| && DefinitionLasts(schemas, NamespacedTypes(schemas), i, def)
    ensures p == Piece(schemas[i].namespace, def, Definition)
    ensures p in BundlePieces(schemas) && Lasting(BundlePieces(schemas), p)
  {
    var types, s := NamespacedTypes(schemas), schemas[i];
    p := Piece(s.namespace, def, Definition);
    LastToPut(schemas, types, i, s.namespace, def.key);
    PutBySchema(s, types, s.namespace, def.key);
    LastPieceMeaning(BundlePieces(schemas), s.namespace, def.key);
  }

  lemma SchemaPieceLasts(schemas: seq<GeneratedSchema>, i: nat) returns (p: Piece)
    requires DistinctDefinitions(schemas) && i < |schemas| && SchemaLasts(schemas, NamespacedTypes(schemas), i)
    ensures p == RestPiece(schemas[i], NamespacedTypes(schemas))
    ensures p in BundlePieces(schemas) && Lasting(BundlePieces(schemas), p)
  {
    var types, s := NamespacedTypes(schemas), schemas[i];
    p := RestPiece(s, types);
    LastToPut(schemas, types, i, s.namespace, s.logicalName);
    PutBySchema(s, types, s.namespace, s.logicalName);
    LastPieceMeaning(BundlePieces(schemas), s.namespace, s.logicalName);
  }

  // --- The main result -------------------------------------------------------------------------------------------

  lemma RestLooks(schemas: seq<GeneratedSchema>, i: nat, name: string)
    requires SchemasOk(schemas) && i < |schemas| && Bundled(schemas[i]) && PlainName(name)
    ensures Destination(RestPiece(schemas[i], NamespacedTypes(schemas)), name) == LooksIn(schemas[i], NamespacedTypes(schemas), name)
  {
    assert schemas[i] in schemas;
    if schemas[i].namespace.None? {
      RestDestination(schemas, schemas[i], name);
    }
  }

  lemma FindAllFromProvided(schemas: seq<GeneratedSchema>)
    requires SchemasOk(schemas) && DistinctDefinitions(schemas) && AllProvided(BundlePieces(schemas))
    ensures DefinitionsFindAll(schemas) && SchemasFindAll(schemas)
  {
    var ps, types := BundlePieces(schemas), NamespacedTypes(schemas);
    forall i, def, name | 0 <= i < |schemas| && DefinitionLasts(schemas, types, i, def) && DefinitionAsks(def, name)
      ensures Found(schemas, types, schemas[i].namespace, name)
    {
      var p := DefinitionPieceLasts(schemas, i, def);
      assert Asks(p, name);
      ProvidedIffFound(schemas, schemas[i].namespace, name);
    }
    forall i, name | 0 <= i < |schemas| && SchemaLasts(schemas, types, i) && Refers(WithoutDefinitions(schemas[i].value), Ref(name))
      ensures Found(schemas, types, LooksIn(schemas[i], types, name), name)
    {
      var p := SchemaPieceLasts(schemas, i);
      PiecesAreOk(schemas, p);
      assert Asks(p, name);
      AskedIsPlain(p, SpacesOf(schemas), name);
      RestLooks(schemas, i, name);
      ProvidedIffFound(schemas, LooksIn(schemas[i], types, name), name);
    }
  }

  lemma ProvidedFromFindAll(schemas: seq<GeneratedSchema>)
    requires SchemasOk(schemas) && DistinctDefinitions(schemas) && DefinitionsFindAll(schemas) && SchemasFindAll(schemas)
    ensures AllProvided(BundlePieces(schemas))
  {
    var ps, types := BundlePieces(schemas), NamespacedTypes(schemas);
    forall p, name | p in ps && Lasting(ps, p) && Asks(p, name) ensures Provided(ps, Destination(p, name), name) {
      var i := WhatLasts(schemas, p);
      PiecesAreOk(schemas, p);
      AskedIsPlain(p, SpacesOf(schemas), name);
      if p.role.Rest? {
        RestLooks(schemas, i, name);
        assert !IsRefEntry(p.entry, Ref(name));
      } else {
        assert DefinitionAsks(p.entry, name);
      }
      ProvidedIffFound(schemas, Destination(p, name), name);
    }
  }

  /**
    The bundle is built, and it is closed if and only if all references of
    what lasts are found: those of a definition in the namespace of its schema
    or at the root, those of a schema outside its definitions there too, or,
    for a definition it left to a namespace, in that one.
  */
  lemma BundleClosedIff(schemas: seq<GeneratedSchema>)
    requires SchemasOk(schemas) && DistinctDefinitions(schemas)
    ensures AddSchemas(schemas, NamespacedTypes(schemas)).Some?
    ensures IsClosed(BundleOf(schemas)) <==> DefinitionsFindAll(schemas) && SchemasFindAll(schemas)
  {
    ClosedIffProvided(schemas);
    if AllProvided(BundlePieces(schemas)) {
      FindAllFromProvided(schemas);
    } else if DefinitionsFindAll(schemas) && SchemasFindAll(schemas) {
      ProvidedFromFindAll(schemas);
    }
  }
}
