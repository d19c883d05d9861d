/**
  When every reference in the bundle leads to one of its definitions.
*/
module SchemaBundleClosed {
  import opened Wrappers
  import opened JsonValues
  import opened SchemaAnnotate
  import opened SchemaRefs
  import opened SchemaSurvivors
  import opened SchemaBundle
  import opened SchemaPieces

  // --- Following a reference -------------------------------------------------------------------------------

  function SegmentLength(path: string): nat {
    if path == [] || path[0] == '/' then 0 else 1 + SegmentLength(path[1..])
  }

  /** Section 4 of RFC 6901 over objects, for paths without escapes. */
  function Lookup(v: Json, path: string): Option<Json>
    decreases |path|
  {
    if path == [] then Some(v)
    else if path[0] != '/' then None
    else
      var n := SegmentLength(path[1..]);
      assert n <= |path[1..]| by { SegmentFits(path[1..]); }
      match Member(v, path[1..][..n])
      case None => None
      case Some(inner) => Lookup(inner, path[1..][n..])
  }

  lemma {:induction false} SegmentFits(path: string)
    ensures SegmentLength(path) <= |path|
  {
    if path != [] && path[0] != '/' {
      SegmentFits(path[1..]);
    }
  }

  lemma {:induction false} SegmentOfName(name: string, rest: string)
    requires PlainName(name) && (rest == [] || rest[0] == '/')
    ensures SegmentLength(name + rest) == |name|
    decreases |name|
  {
    if name == [] {
      assert name + rest == rest;
    } else {
      assert (name + rest)[1..] == name[1..] + rest;
      SegmentOfName(name[1..], rest);
    }
  }

  lemma LookupSegment(v: Json, name: string, rest: string)
    requires PlainName(name) && (rest == [] || rest[0] == '/') && Member(v, name).Some?
    ensures Lookup(v, "/" + name + rest) == Lookup(Member(v, name).value, rest)
  {
    var path := "/" + name + rest;
    SegmentOfName(name, rest);
    assert path[1..] == name + rest;
    assert (name + rest)[..|name|] == name && (name + rest)[|name|..] == rest;
  }

  /** The reference is the fragment of a URI that leads to something in the document. */
  predicate Resolves(document: Json, r: string) {
    r != [] && r[0] == '#' && Lookup(document, r[1..]).Some?
  }

  lemma LookupMissing(v: Json, name: string, rest: string)
    requires PlainName(name) && (rest == [] || rest[0] == '/') && Member(v, name).None?
    ensures Lookup(v, "/" + name + rest) == None
  {
    var path := "/" + name + rest;
    SegmentOfName(name, rest);
    assert path[1..] == name + rest;
    assert (name + rest)[..|name|] == name && (name + rest)[|name|..] == rest;
  }

  // --- The references of a placed piece --------------------------------------------------------------------

  lemma MovedBack(source: string, ns: string)
    ensures MovedRef(MovedRef(source, ns), ns) == MovedRef(source, ns)
  {
    MovedRefInPlace(source, ns);
    MovedRefInPlace(MovedRef(source, ns), ns);
  }

  lemma MovedEntryTwice(f: Field, ns: string)
    ensures MovedEntry(MovedEntry(f, ns), ns) == MovedEntry(f, ns)
    ensures Field(f.key, Moved(MovedEntry(f, ns).value, ns)) == MovedEntry(f, ns)
  {
    if f.key == "$ref" && f.value.Str? {
      MovedBack(f.value.s, ns);
    } else {
      MovingTwice(f.value, ns);
      assert Rewritten(f.value, Mover(ns)).Str? ==> f.value.Str?;
    }
  }

  /** A definition in a namespace: annotated, with its references moved; moving them twice makes no difference. */
  lemma PlacedDefinition(p: Piece)
    requires p.role.Definition?
    ensures var annotated := Field(p.entry.key, Annotate(p.entry.value, Some(p.entry.key)));
      PlacedEntry(p) == if p.space.None? then annotated else MovedEntry(annotated, p.space.value)
  {
    if p.space.Some? {
      var ns, annotated := p.space.value, Field(p.entry.key, Annotate(p.entry.value, Some(p.entry.key)));
      AnnotatedEntryRewritten(p.entry, Some(p.entry.key), Mover(ns));
      MovedEntryTwice(annotated, ns);
    }
  }

  /** Where a reference to the name leads once the piece is placed. */
  function Landing(p: Piece, name: string): string {
    RefIn(Destination(p, name), name)
  }

  lemma {:induction false} AllForcedObject(v: Json, forced: seq<Forced>)
    requires v.Obj?
    ensures AllForced(v, forced).Obj?
  {
    if forced != [] {
      AllForcedObject(v, forced[..|forced| - 1]);
    }
  }

  lemma DefinitionFrom(p: Piece, r: string) returns (source: string)
    requires p.role.Definition? && EntryRefers(PlacedEntry(p), r)
    ensures IsRefEntry(p.entry, source) || Survives(p.entry.value, Some(p.entry.key), source)
    ensures r == if p.space.None? then source else MovedRef(source, p.space.value)
  {
    PlacedDefinition(p);
    var annotated := Field(p.entry.key, Annotate(p.entry.value, Some(p.entry.key)));
    source := r;
    if p.space.Some? {
      source := EntryRewrittenFrom(annotated, Mover(p.space.value), r);
    }
    AnnotatedEntryIff(p.entry, Some(p.entry.key), source);
  }

  lemma RestFrom(p: Piece, r: string) returns (source: string)
    requires p.role.Rest? && p.entry.value.Obj? && EntryRefers(PlacedEntry(p), r)
    ensures EntryRefers(p.entry, source)
    ensures r == if p.space.None? then ForcedRef(source, p.role.forced) else MovedRef(source, p.space.value)
  {
    if p.space.None? {
      AllForcedObject(p.entry.value, p.role.forced);
      source := AllForcedFrom(p.entry.value, p.role.forced, r);
    } else {
      source := RewrittenFrom(p.entry.value, Mover(p.space.value), r);
    }
  }

  /** Every definition reference of a placed piece is the landing of one that the piece asks for. */
  lemma PlacedFrom(p: Piece, spaces: set<string>, r: string) returns (name: string)
    requires PieceOk(p, spaces) && EntryRefers(PlacedEntry(p), r) && IsDefinitionRef(r)
    ensures Asks(p, name) && PlainName(name) && r == Landing(p, name)
  {
    var source: string;
    if p.role.Definition? {
      source := DefinitionFrom(p, r);
    } else {
      source := RestFrom(p, r);
      if !IsDefinitionRef(source) && p.space.None? {
        OtherRefKept(source, p.role.forced);
      }
    }
    name := NameOf(source);
    AskIsReference(p, name);
    if p.space.Some? {
      MovedPlainRef(name, p.space.value);
    } else if p.role.Rest? {
      ForcedRefMeaning(name, p.role.forced, spaces);
    }
  }

  lemma AskedIsPlain(p: Piece, spaces: set<string>, name: string)
    requires PieceOk(p, spaces) && Asks(p, name)
    ensures PlainName(name)
  {
    AskIsReference(p, name);
    assert NameOf(Ref(name)) == name;
  }

  /** Every definition reference that the piece asks for is there after it is placed. */
  lemma PlacedKeeps(p: Piece, spaces: set<string>, name: string)
    requires PieceOk(p, spaces) && Asks(p, name)
    ensures PlainName(name) && EntryRefers(PlacedEntry(p), Landing(p, name))
  {
    var r := Ref(name);
    AskedIsPlain(p, spaces, name);
    if p.role.Definition? {
      PlacedDefinition(p);
      AnnotatedEntryIff(p.entry, Some(p.entry.key), r);
      if p.space.Some? {
        EntryRewrittenKeeps(Field(p.entry.key, Annotate(p.entry.value, Some(p.entry.key))), Mover(p.space.value), r);
      }
    } else if p.space.None? {
      AllForcedKeeps(p.entry.value, p.role.forced, r);
      ForcedRefMeaning(name, p.role.forced, spaces);
    } else {
      RewrittenKeeps(p.entry.value, Mover(p.space.value), r);
    }
    if p.space.Some? {
      MovedPlainRef(name, p.space.value);
    }
  }

  // --- The references of the bundle --------------------------------------------------------------------------

  /** A reference in an object is one in an entry of it. */
  lemma EntryOfRef(fields: seq<Field>, r: string) returns (f: Field)
    requires Refers(Obj(fields), r)
    ensures f in fields && (IsRefEntry(f, r) || Refers(f.value, r))
  {
    var i :| 0 <= i < |fields| && (IsRefEntry(fields[i], r) || Refers(fields[i].value, r));
    f := fields[i];
  }

  lemma RefOfEntry(fields: seq<Field>, f: Field, r: string)
    requires f in fields && (IsRefEntry(f, r) || Refers(f.value, r))
    ensures Refers(Obj(fields), r)
  {
    var i :| 0 <= i < |fields| && fields[i] == f;
    RefersField(fields, i, r);
  }

  lemma BundleRefers(definitions: seq<Field>, r: string)
    ensures Refers(Bundle(definitions), r) <==> Refers(Obj(definitions), r)
  {
    var top := Bundle(definitions).fields;
    if Refers(Bundle(definitions), r) {
      var f := EntryOfRef(top, r);
      assert f == Field("definitions", Obj(definitions));
    }
    if Refers(Obj(definitions), r) {
      RefersField(top, 3, r);
    }
  }

  lemma EntryOfKey(fields: seq<Field>, key: string)
    requires Get(fields, key).Some?
    ensures Field(key, Get(fields, key).value) in fields
  {
    GetMeaning(fields, key);
  }

  lemma KeyOfEntry(fields: seq<Field>, f: Field)
    requires UniqueKeys(fields) && f in fields
    ensures Get(fields, f.key) == Some(f.value)
  {
    var i :| 0 <= i < |fields| && fields[i] == f;
    GetAt(fields, i);
  }

  /** A reference in the bundle is one of a piece that lasted. */
  lemma RefOfBundle(definitions: seq<Field>, ps: seq<Piece>, spaces: set<string>, r: string) returns (p: Piece)
    requires Shaped(definitions, ps, spaces) && Refers(Bundle(definitions), r)
    ensures p in ps && Lasting(ps, p) && EntryRefers(PlacedEntry(p), r)
  {
    BundleRefers(definitions, r);
    var f := EntryOfRef(definitions, r);
    KeyOfEntry(definitions, f);
    if f.key !in spaces {
      LastPieceMeaning(ps, None, f.key);
      p := LastPiece(ps, None, f.key).value;
    } else {
      assert SpaceShaped(definitions, ps, f.key);
      var g := EntryOfRef(f.value.fields, r);
      KeyOfEntry(f.value.fields, g);
      LastPieceMeaning(ps, Some(f.key), g.key);
      p := LastPiece(ps, Some(f.key), g.key).value;
    }
  }

  /** The references of a piece that lasted are in the bundle. */
  lemma RefOfLasting(definitions: seq<Field>, ps: seq<Piece>, spaces: set<string>, p: Piece, r: string)
    requires Shaped(definitions, ps, spaces) && Apart(p, spaces)
    requires Lasting(ps, p) && EntryRefers(PlacedEntry(p), r)
    ensures Refers(Bundle(definitions), r)
  {
    var entry := PlacedEntry(p);
    if p.space.None? {
      EntryOfKey(definitions, entry.key);
      RefOfEntry(definitions, entry, r);
    } else {
      var ns := p.space.value;
      assert SpaceShaped(definitions, ps, ns);
      var entries := EntriesUnder(Obj(definitions), ns);
      EntryOfKey(entries, entry.key);
      RefOfEntry(entries, entry, r);
      EntryOfKey(definitions, ns);
      RefOfEntry(definitions, Field(ns, Obj(entries)), r);
    }
    BundleRefers(definitions, r);
  }

  // --- Where references lead ---------------------------------------------------------------------------------

  lemma DefinitionsOfBundle(definitions: seq<Field>)
    ensures Member(Bundle(definitions), "definitions") == Some(Obj(definitions))
  {
    var fields := Bundle(definitions).fields;
    forall i, j | 0 <= i < j < |fields| ensures fields[i].key != fields[j].key {
      assert fields[0].key[0] == '$' && fields[1].key[1] == 'i' && fields[2].key[1] == 'y' && fields[3].key[0] == 'd';
    }
    GetAt(fields, 3);
  }

  lemma ResolvesUnderDefinitions(definitions: seq<Field>, path: string)
    ensures Resolves(Bundle(definitions), Ref(path)) <==> Lookup(Obj(definitions), "/" + path).Some?
  {
    PathOfRef(path);
    DefinitionsOfBundle(definitions);
    DefinitionsIsPlain();
    LookupSegment(Bundle(definitions), "definitions", "/" + path);
  }

  lemma PathOfRef(path: string)
    ensures Ref(path)[0] == '#' && Ref(path)[1..] == "/" + "definitions" + ("/" + path)
  {
    var start := "/" + "definitions";
    assert DEFINITIONS[1..] == start + "/";
    assert Ref(path)[1..] == (start + "/") + path;
    assert (start + "/") + path == start + ("/" + path);
  }

  lemma DefinitionsIsPlain()
    ensures PlainName("definitions")
  {
  }

  lemma LookupName(v: Json, name: string)
    requires PlainName(name)
    ensures Lookup(v, "/" + name).Some? <==> Member(v, name).Some?
  {
    assert "/" + name + [] == "/" + name;
    if Member(v, name).Some? {
      LookupSegment(v, name, []);
    } else {
      LookupMissing(v, name, []);
    }
  }

  /** Something was put under this name, or the name is that of a namespace in use. */
  predicate Provided(ps: seq<Piece>, space: Option<string>, name: string) {
    LastPiece(ps, space, name).Some? || (space.None? && name in UsedSpaces(ps))
  }

  lemma ResolvesIffProvided(definitions: seq<Field>, ps: seq<Piece>, spaces: set<string>, space: Option<string>, name: string)
    requires Shaped(definitions, ps, spaces) && PlainName(name)
    requires forall p | p in ps :: Apart(p, spaces)
    requires space.Some? ==> PlainName(space.value) && space.value in spaces
    ensures Resolves(Bundle(definitions), RefIn(space, name)) <==> Provided(ps, space, name)
  {
    if space.None? {
      ResolvesUnderDefinitions(definitions, name);
      LookupName(Obj(definitions), name);
      LastPieceMeaning(ps, None, name);
      if name in spaces {
        assert SpaceShaped(definitions, ps, name);
      } else {
        assert name !in UsedSpaces(ps);
      }
    } else {
      var ns := space.value;
      assert SpaceShaped(definitions, ps, ns);
      ResolvesUnderDefinitions(definitions, ns + "/" + name);
      assert "/" + (ns + "/" + name) == "/" + ns + ("/" + name);
      assert Get(EntriesUnder(Obj(definitions), ns), name) == LastValue(ps, space, name);
      if Member(Obj(definitions), ns).Some? {
        LookupSegment(Obj(definitions), ns, "/" + name);
        LookupName(Get(definitions, ns).value, name);
      } else {
        LookupMissing(Obj(definitions), ns, "/" + name);
      }
    }
  }

  // --- Schemas that keep to their places -----------------------------------------------------------------------

  function SpacesOf(schemas: seq<GeneratedSchema>): set<string> {
    set s | s in schemas && s.namespace.Some? :: s.namespace.value
  }

  function BundlePieces(schemas: seq<GeneratedSchema>): seq<Piece> {
    AllPieces(schemas, NamespacedTypes(schemas))
  }

  /** The bundle of these schemas; no definitions if it cannot be built. */
  function BundleOf(schemas: seq<GeneratedSchema>): Json {
    var added := AddSchemas(schemas, NamespacedTypes(schemas));
    Bundle(if added.Some? then added.value else [])
  }

  predicate Bundled(s: GeneratedSchema) {
    s.logicalName !in IGNORED_DEFINITIONS
  }

  /** A schema without namespace has neither the name of one nor a definition with such a name. */
  predicate KeepsApart(s: GeneratedSchema, spaces: set<string>) {
    s.namespace.None? ==>
      && s.logicalName !in spaces
      && (forall def | def in Definitions(s) :: PlainName(def.key) && def.key !in spaces)
      && forall ns | ns in spaces :: PlainName(ns)
  }

  ghost predicate SchemaOk(s: GeneratedSchema, spaces: set<string>) {
    && s.value.Obj? && (s.namespace.Some? ==> PlainName(s.namespace.value)) && KeepsApart(s, spaces)
    && forall r | Refers(s.value, r) && IsDefinitionRef(r) :: PlainName(NameOf(r))
  }

  ghost predicate SchemasOk(schemas: seq<GeneratedSchema>) {
    forall s | s in schemas && Bundled(s) :: SchemaOk(s, SpacesOf(schemas))
  }

  lemma RefOfDefinition(s: GeneratedSchema, def: Field, r: string)
    requires def in Definitions(s) && EntryRefers(def, r)
    ensures Refers(s.value, r)
  {
    RefOfEntry(Definitions(s), def, r);
    EntryOfKey(s.value.fields, "definitions");
    RefOfEntry(s.value.fields, Field("definitions", Obj(Definitions(s))), r);
  }

  lemma {:induction false} RemovedEntry(fields: seq<Field>, key: string, f: Field)
    requires f in Removed(fields, key)
    ensures f in fields
  {
    if fields[0].key == key {
      assert f == fields[|fields| - 1] || f in fields[1..|fields| - 1];
    } else if f != fields[0] {
      RemovedEntry(fields[1..], key, f);
    }
  }

  lemma RefOfRest(s: GeneratedSchema, r: string)
    requires s.value.Obj? && Refers(WithoutDefinitions(s.value), r)
    ensures Refers(s.value, r)
  {
    var f := EntryOfRef(Removed(s.value.fields, "definitions"), r);
    RemovedEntry(s.value.fields, "definitions", f);
    RefOfEntry(s.value.fields, f, r);
  }

  /** The schema a piece is from; every reference of the piece is one of the schema. */
  lemma SchemaOfPiece(schemas: seq<GeneratedSchema>, p: Piece) returns (s: GeneratedSchema)
    requires SchemasOk(schemas) && p in BundlePieces(schemas)
    ensures s in schemas && Bundled(s) && SchemaOk(s, SpacesOf(schemas)) && p.space == s.namespace
    ensures p.role.Definition? ==> p.entry in Definitions(s) && Stays(p.entry.key, s, NamespacedTypes(schemas))
    ensures p.role.Rest? ==> p == RestPiece(s, NamespacedTypes(schemas))
    ensures forall r | EntryRefers(p.entry, r) :: Refers(s.value, r)
  {
    var types := NamespacedTypes(schemas);
    PieceOfSchema(schemas, types, p);
    s :| s in schemas && p in Pieces(s, types);
    if p != RestPiece(s, types) {
      DefinitionPiece(Definitions(s), s, types, p);
    }
    forall r | EntryRefers(p.entry, r) ensures Refers(s.value, r) {
      if p.role.Definition? {
        RefOfDefinition(s, p.entry, r);
      } else {
        RefOfRest(s, r);
      }
    }
  }

  lemma TargetIsSpace(schemas: seq<GeneratedSchema>, s: GeneratedSchema, name: string)
    requires s in schemas && Target(name, s, NamespacedTypes(schemas)).Some?
    ensures Target(name, s, NamespacedTypes(schemas)).value in SpacesOf(schemas)
  {
    if s.namespace.None? {
      var types := NamespacedTypes(schemas);
      var claimed := if name in types then name else TrimEndDigits(name);
      FirstClaimWins(schemas, claimed);
      var i: nat :| FirstClaim(schemas, i, claimed);
      assert schemas[i] in schemas;
    }
  }

  lemma PiecesAreOk(schemas: seq<GeneratedSchema>, p: Piece)
    requires SchemasOk(schemas) && p in BundlePieces(schemas)
    ensures PieceOk(p, SpacesOf(schemas))
  {
    var types := NamespacedTypes(schemas);
    var s := SchemaOfPiece(schemas, p);
    if p.role.Rest? {
      forall f | f in p.role.forced
        ensures PlainName(f.name) && PlainName(f.ns) && f.ns in SpacesOf(schemas) && f.name !in SpacesOf(schemas)
      {
        ForcedName(Definitions(s), s, types, f);
        if s.namespace.Some? {
          NothingForced(Definitions(s), s, types);
          assert false;
        }
        TargetIsSpace(schemas, s, f.name);
      }
    }
  }

  /** The schemas all go in. */
  lemma BundleShape(schemas: seq<GeneratedSchema>) returns (definitions: seq<Field>)
    requires SchemasOk(schemas)
    ensures AddSchemas(schemas, NamespacedTypes(schemas)) == Some(definitions) && BundleOf(schemas) == Bundle(definitions)
    ensures Shaped(definitions, BundlePieces(schemas), SpacesOf(schemas))
    ensures forall p | p in BundlePieces(schemas) :: PieceOk(p, SpacesOf(schemas))
  {
    var ps := BundlePieces(schemas);
    forall p | p in ps ensures PieceOk(p, SpacesOf(schemas)) {
      PiecesAreOk(schemas, p);
    }
    PlacedShape(ps, SpacesOf(schemas));
    BundleIsPieces(schemas, NamespacedTypes(schemas));
    definitions := PlaceAll([], ps).value;
  }

  // --- The main results ------------------------------------------------------------------------------------------

  ghost predicate IsClosed(document: Json) {
    forall r | Refers(document, r) && IsDefinitionRef(r) :: Resolves(document, r)
  }

  /** What the pieces that last ask for is put where they look for it. */
  ghost predicate AllProvided(ps: seq<Piece>) {
    forall p, name | p in ps && Lasting(ps, p) && Asks(p, name) :: Provided(ps, Destination(p, name), name)
  }

  /** A piece's reference resolves in the bundle if and only if its name is put where the reference leads. */
  lemma LandingResolves(schemas: seq<GeneratedSchema>, p: Piece, name: string)
    requires SchemasOk(schemas) && p in BundlePieces(schemas) && Asks(p, name)
    ensures Resolves(BundleOf(schemas), Landing(p, name)) <==> Provided(BundlePieces(schemas), Destination(p, name), name)
  {
    var definitions := BundleShape(schemas);
    AskedIsPlain(p, SpacesOf(schemas), name);
    if p.space.None? && p.role.Rest? {
      ForcedRefMeaning(name, p.role.forced, SpacesOf(schemas));
    }
    ResolvesIffProvided(definitions, BundlePieces(schemas), SpacesOf(schemas), Destination(p, name), name);
  }

  /** Provided references make a closed bundle. */
  lemma ClosedIfProvided(schemas: seq<GeneratedSchema>)
    requires SchemasOk(schemas) && AllProvided(BundlePieces(schemas))
    ensures AddSchemas(schemas, NamespacedTypes(schemas)).Some? && IsClosed(BundleOf(schemas))
  {
    var ps := BundlePieces(schemas);
    var definitions := BundleShape(schemas);
    forall r | Refers(BundleOf(schemas), r) && IsDefinitionRef(r) ensures Resolves(BundleOf(schemas), r) {
      var p := RefOfBundle(definitions, ps, SpacesOf(schemas), r);
      var name := PlacedFrom(p, SpacesOf(schemas), r);
      LandingResolves(schemas, p, name);
    }
  }

  /** A lasting piece that asks for what is not put where it looks leaves a reference that leads nowhere. */
  lemma UnprovidedDangles(schemas: seq<GeneratedSchema>, p: Piece, name: string)
    requires SchemasOk(schemas)
    requires p in BundlePieces(schemas) && Lasting(BundlePieces(schemas), p) && Asks(p, name)
    requires !Provided(BundlePieces(schemas), Destination(p, name), name)
    ensures Refers(BundleOf(schemas), Landing(p, name)) && IsDefinitionRef(Landing(p, name))
    ensures !Resolves(BundleOf(schemas), Landing(p, name))
  {
    var definitions := BundleShape(schemas);
    PlacedKeeps(p, SpacesOf(schemas), name);
    RefOfLasting(definitions, BundlePieces(schemas), SpacesOf(schemas), p, Landing(p, name));
    LandingResolves(schemas, p, name);
  }

  /**
    The bundle is built, and every definition reference in it resolves if and
    only if each lasting piece's references are provided: those of a schema in
    a namespace there, those of a definition that stays at the root at the
    root, and those of the rest of a schema without namespace in the namespace
    that its definition of that name was left to, or else at the root.
  */
  lemma ClosedIffProvided(schemas: seq<GeneratedSchema>)
    requires SchemasOk(schemas)
    ensures AddSchemas(schemas, NamespacedTypes(schemas)).Some?
    ensures IsClosed(BundleOf(schemas)) <==> AllProvided(BundlePieces(schemas))
  {
    var ps := BundlePieces(schemas);
    var definitions := BundleShape(schemas);
    if AllProvided(ps) {
      ClosedIfProvided(schemas);
    } else {
      var p, name :| p in ps && Lasting(ps, p) && Asks(p, name) && !Provided(ps, Destination(p, name), name);
      UnprovidedDangles(schemas, p, name);
    }
  }

  // --- Conditions on the schemas ---------------------------------------------------------------------------------

  /** The names of the definitions that go into the bundle. */
  function Kept(s: GeneratedSchema): set<string> {
    set name | name in Names(Definitions(s)) && !Skips(name)
  }

  /** A schema without namespace has this name. */
  predicate IsRootName(schemas: seq<GeneratedSchema>, name: string) {
    exists t | t in schemas :: Bundled(t) && t.namespace.None? && t.logicalName == name
  }

  /** A schema of the namespace has this name, or a definition with it. */
  predicate DefinedIn(schemas: seq<GeneratedSchema>, ns: string, name: string) {
    exists t | t in schemas :: Bundled(t) && t.namespace == Some(ns) && (t.logicalName == name || name in Kept(t))
  }

  /** The schema refers to definitions of its own, or from the root to schemas without namespace. */
  ghost predicate RefersToOwn(s: GeneratedSchema, schemas: seq<GeneratedSchema>) {
    forall r | Refers(s.value, r) && IsDefinitionRef(r) ::
      NameOf(r) in Kept(s) || (s.namespace.None? && IsRootName(schemas, NameOf(r)))
  }

  /** No definition that stays at the root refers to one that a namespace claims. */
  ghost predicate StayersReferToStayers(s: GeneratedSchema, schemas: seq<GeneratedSchema>) {
    var types := NamespacedTypes(schemas);
    s.namespace.None? ==>
      forall def, name | def in Definitions(s) && Stays(def.key, s, types) && EntryRefers(def, Ref(name)) && name in Kept(s) ::
        Target(name, s, types).None? || IsRootName(schemas, name)
  }

  /** Every definition that is left to a namespace is defined there, under the very name. */
  predicate LeftIsDefined(s: GeneratedSchema, schemas: seq<GeneratedSchema>) {
    var types := NamespacedTypes(schemas);
    s.namespace.None? ==>
      forall name | name in Kept(s) && Target(name, s, types).Some? :: DefinedIn(schemas, Target(name, s, types).value, name)
  }

  lemma PutUnderItsName(schemas: seq<GeneratedSchema>, s: GeneratedSchema, name: string)
    requires s in schemas && Bundled(s)
    requires name == s.logicalName || (name in Kept(s) && Stays(name, s, NamespacedTypes(schemas)))
    ensures LastPiece(BundlePieces(schemas), s.namespace, name).Some?
  {
    var types := NamespacedTypes(schemas);
    var p := RestPiece(s, types);
    if name != s.logicalName {
      var def :| def in Definitions(s) && def.key == name;
      p := Piece(s.namespace, def, Definition);
      DefinitionPiece(Definitions(s), s, types, p);
    }
    assert p in Pieces(s, types);
    PieceOfSchema(schemas, types, p);
    LastPieceMeaning(BundlePieces(schemas), s.namespace, name);
  }

  lemma RootNameProvided(schemas: seq<GeneratedSchema>, name: string)
    requires IsRootName(schemas, name)
    ensures Provided(BundlePieces(schemas), None, name)
  {
    var t :| t in schemas && Bundled(t) && t.namespace.None? && t.logicalName == name;
    PutUnderItsName(schemas, t, name);
  }

  lemma DefinedInProvided(schemas: seq<GeneratedSchema>, ns: string, name: string)
    requires DefinedIn(schemas, ns, name)
    ensures Provided(BundlePieces(schemas), Some(ns), name)
  {
    var t :| t in schemas && Bundled(t) && t.namespace == Some(ns) && (t.logicalName == name || name in Kept(t));
    PutUnderItsName(schemas, t, name);
  }

  /** Where the rest of a schema without namespace looks for a name. */
  lemma RestDestination(schemas: seq<GeneratedSchema>, s: GeneratedSchema, name: string)
    requires SchemasOk(schemas) && s in schemas && Bundled(s) && s.namespace.None? && PlainName(name)
    ensures Destination(RestPiece(s, NamespacedTypes(schemas)), name) ==
      if name in Kept(s) then Target(name, s, NamespacedTypes(schemas)) else None
  {
    var types := NamespacedTypes(schemas);
    var forced := ForcedOf(Definitions(s), s, types);
    var p := RestPiece(s, types);
    assert p in Pieces(s, types);
    PieceOfSchema(schemas, types, p);
    PiecesAreOk(schemas, p);
    ForcedRefMeaning(name, forced, SpacesOf(schemas));
    var space := ForcedSpace(forced, name);
    if space.Some? {
      ForcedName(Definitions(s), s, types, Forced(name, space.value));
    } else if name in Kept(s) && Target(name, s, types).Some? {
      ForcedName(Definitions(s), s, types, Forced(name, Target(name, s, types).value));
    }
  }

  /**
    Schemas that refer to their own definitions, where the root's do not cross
    into a namespace and what is left to a namespace is defined there, make a
    closed bundle.
  */
  lemma MixedBundleIsClosed(schemas: seq<GeneratedSchema>)
    requires SchemasOk(schemas)
    requires forall s | s in schemas && Bundled(s) ::
      RefersToOwn(s, schemas) && StayersReferToStayers(s, schemas) && LeftIsDefined(s, schemas)
    ensures AddSchemas(schemas, NamespacedTypes(schemas)).Some? && IsClosed(BundleOf(schemas))
  {
    var ps, types := BundlePieces(schemas), NamespacedTypes(schemas);
    forall p, name | p in ps && Lasting(ps, p) && Asks(p, name) ensures Provided(ps, Destination(p, name), name) {
      var s := SchemaOfPiece(schemas, p);
      AskIsReference(p, name);
      assert Refers(s.value, Ref(name)) && NameOf(Ref(name)) == name;
      if p.role.Rest? && s.namespace.None? {
        RestDestination(schemas, s, name);
      }
      if name !in Kept(s) || (p.role.Definition? && s.namespace.None? && Target(name, s, types).Some?) {
        RootNameProvided(schemas, name);
      } else if s.namespace.None? && Target(name, s, types).Some? {
        DefinedInProvided(schemas, Target(name, s, types).value, name);
      } else {
        PutUnderItsName(schemas, s, name);
      }
    }
    ClosedIfProvided(schemas);
  }

  /** A schema in a namespace whose definition references are all to definitions of its own that the bundle keeps. */
  ghost predicate ClosedSchema(s: GeneratedSchema) {
    && s.namespace.Some? && PlainName(s.namespace.value) && s.value.Obj?
    && forall r | Refers(s.value, r) && IsDefinitionRef(r) :: PlainName(NameOf(r)) && NameOf(r) in Kept(s)
  }

  /** Closed schemas in namespaces make a closed bundle, whatever they claim from each other. */
  lemma BundleIsClosed(schemas: seq<GeneratedSchema>)
    requires forall s | s in schemas && Bundled(s) :: ClosedSchema(s)
    ensures AddSchemas(schemas, NamespacedTypes(schemas)).Some? && IsClosed(BundleOf(schemas))
  {
    forall s | s in schemas && Bundled(s) ensures RefersToOwn(s, schemas) {
      assert ClosedSchema(s);
    }
    MixedBundleIsClosed(schemas);
  }

  // --- A bundle that is not closed ---------------------------------------------------------------------------------

  const ONE_REF := [Field("$ref", Str(Ref("A")))]

  /** A schema without namespace whose definition `B` refers to its definition `A`, and a schema `A` in a namespace. */
  const ROOT_SCHEMA :=
    GeneratedSchema(None, "R", Obj([Field("definitions", Obj([Field("A", Obj([])), Field("B", Obj(ONE_REF))]))]), false)
  const V2_SCHEMA := GeneratedSchema(Some("v2"), "A", Obj([]), false)

  lemma MixedTypes()
    ensures NamespacedTypes([ROOT_SCHEMA, V2_SCHEMA]) == map["A" := "v2"]
  {
    var both := [ROOT_SCHEMA, V2_SCHEMA];
    var none: seq<GeneratedSchema> := [];
    assert both[..1] == [ROOT_SCHEMA] && [ROOT_SCHEMA][..0] == none;
    assert NamespacedTypes(none) == map[];
    var types := NamespacedTypes([ROOT_SCHEMA]);
    assert types == map[];
    assert EntriesUnder(V2_SCHEMA.value, "definitions") == [] && EntriesUnder(V2_SCHEMA.value, "$defs") == [];
    var named := Claimed(types, "A", "v2");
    assert AllClaimed(named, [], "v2") == named == map["A" := "v2"];
    assert NamespacedTypes(both) == named;
  }

  lemma OnlyRefOfRoot(r: string)
    requires Refers(ROOT_SCHEMA.value, r)
    ensures r == Ref("A")
  {
    var definitions := EntryOfRef(ROOT_SCHEMA.value.fields, r);
    var def := EntryOfRef(definitions.value.fields, r);
    var inner := EntryOfRef(def.value.fields, r);
  }

  lemma RootSchemaOk(spaces: set<string>)
    requires spaces == {"v2"}
    ensures SchemaOk(ROOT_SCHEMA, spaces)
  {
    forall r | Refers(ROOT_SCHEMA.value, r) ensures r == Ref("A") {
      OnlyRefOfRoot(r);
    }
    assert NameOf(Ref("A")) == "A";
    var a, b := Field("A", Obj([])), Field("B", Obj(ONE_REF));
    assert Definitions(ROOT_SCHEMA) == [a, b];
    assert |a.key| == |b.key| == |ROOT_SCHEMA.logicalName| == 1;
  }

  lemma MixedSchemasOk(both: seq<GeneratedSchema>)
    requires both == [ROOT_SCHEMA, V2_SCHEMA]
    ensures SchemasOk(both)
  {
    var root, v2 := ROOT_SCHEMA, V2_SCHEMA;
    assert both[1] == v2 && v2 in both;
    assert SpacesOf(both) == {"v2"};
    RootSchemaOk(SpacesOf(both));
    assert SchemaOk(v2, SpacesOf(both));
    assert Definitions(v2) == [];
    assert forall s | s in both :: s == root || s == v2;
  }

  lemma MixedPieces()
    ensures BundlePieces([ROOT_SCHEMA, V2_SCHEMA]) == [
      Piece(None, Field("B", Obj(ONE_REF)), Definition),
      Piece(None, Field("R", Obj([])), Rest([Forced("A", "v2")])),
      Piece(Some("v2"), Field("A", Obj([])), Rest([]))]
  {
    var types, both := NamespacedTypes([ROOT_SCHEMA, V2_SCHEMA]), [ROOT_SCHEMA, V2_SCHEMA];
    MixedTypes();
    var a, b := Field("A", Obj([])), Field("B", Obj(ONE_REF));
    assert Definitions(ROOT_SCHEMA) == [a, b] && [a, b][..1] == [a] && [a][..0] == [];
    NotSkipped("A");
    NotSkipped("B");
    assert TrimEndDigits("B") == "B";
    assert DefinitionPieces([a], ROOT_SCHEMA, types) == [];
    assert DefinitionPieces([a, b], ROOT_SCHEMA, types) == [Piece(None, b, Definition)];
    assert ForcedOf([a], ROOT_SCHEMA, types) == [Forced("A", "v2")];
    assert ForcedOf([a, b], ROOT_SCHEMA, types) == [Forced("A", "v2")];
    assert WithoutDefinitions(ROOT_SCHEMA.value) == Obj([]);
    NotSkipped("R");
    assert Definitions(V2_SCHEMA) == [];
    assert DefinitionPieces([], V2_SCHEMA, types) == [] && ForcedOf([], V2_SCHEMA, types) == [];
    assert WithoutDefinitions(V2_SCHEMA.value) == Obj([]);
    assert both[..1] == [ROOT_SCHEMA] && [ROOT_SCHEMA][..0] == [];
    assert AllPieces([ROOT_SCHEMA], types) == Pieces(ROOT_SCHEMA, types);
    assert AllPieces(both, types) == Pieces(ROOT_SCHEMA, types) + Pieces(V2_SCHEMA, types);
  }

  lemma NotSkipped(name: string)
    requires |name| == 1
    ensures !Skips(name) && name !in IGNORED_DEFINITIONS
  {
    assert forall other | other in IGNORED_DEFINITIONS + SPECIAL_DEFINITIONS :: |other| > 1;
  }

  lemma MissingPiece(ps: seq<Piece>, b: Piece)
    requires |ps| == 3 && ps[0] == b && b.space.None? && b.entry.key == "B" && ps[1].entry.key == "R"
    requires ps[1].space == None && ps[2].space == Some("v2")
    ensures b in ps && Lasting(ps, b) && !Provided(ps, None, "A")
  {
    LastPieceMeaning(ps, None, "A");
    LastPieceMeaning(ps, None, "B");
    assert forall p | p in UsedSpaces(ps) :: |p| == 2 by {
      forall name | name in UsedSpaces(ps) ensures |name| == 2 {
        var p :| p in ps && p.space == Some(name);
      }
    }
  }

  /**
    A bundle that mixes schemas with and without a namespace need not be
    closed: a definition that stays at the root keeps its reference to one that
    went to the namespace.
  */
  lemma MixedBundleMayDangle()
    ensures AddSchemas([ROOT_SCHEMA, V2_SCHEMA], NamespacedTypes([ROOT_SCHEMA, V2_SCHEMA])).Some?
    ensures Refers(BundleOf([ROOT_SCHEMA, V2_SCHEMA]), Ref("A")) && !Resolves(BundleOf([ROOT_SCHEMA, V2_SCHEMA]), Ref("A"))
  {
    var both, b := [ROOT_SCHEMA, V2_SCHEMA], Piece(None, Field("B", Obj(ONE_REF)), Definition);
    MixedSchemasOk(both);
    MixedPieces();
    MissingPiece(BundlePieces(both), b);
    RefersField(ONE_REF, 0, Ref("A"));
    ClosedIffProvided(both);
    UnprovidedDangles(both, b, "A");
  }
}
