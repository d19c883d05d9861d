/**
  The bundle as the pieces that go into it, one insertion each: which
  document is found where when all have gone in, and which references it has.
*/
module SchemaPieces {
  import opened Wrappers
  import opened JsonValues
  import opened SchemaAnnotate
  import opened SchemaRefs
  import opened SchemaSurvivors
  import opened SchemaBundle

  /** A definition taken out of its schema, or what is left of the schema with the names it must look for in a namespace. */
  datatype Role = Definition | Rest(forced: seq<Forced>)

  /** A document as its schema has it, and where it goes: into a namespace or the root. */
  datatype Piece = Piece(space: Option<string>, entry: Field, role: Role)


  function MovedEntry(f: Field, ns: string): Field {
    RewrittenEntry(f, Mover(ns))
  }

  /** The document as it is put into the bundle. */
  function PlacedValue(p: Piece): Json {
    match p.role
    case Definition =>
      if p.space.None? then Annotate(p.entry.value, Some(p.entry.key))
      else Moved(Annotate(MovedEntry(p.entry, p.space.value).value, Some(p.entry.key)), p.space.value)
    case Rest(forced) =>
      if p.space.None? then AllForced(p.entry.value, forced) else Moved(p.entry.value, p.space.value)
  }

  function PlacedEntry(p: Piece): Field {
    Field(p.entry.key, PlacedValue(p))
  }

  function Place(definitions: seq<Field>, p: Piece): Option<seq<Field>> {
    if p.space.None? then Some(Put(definitions, p.entry.key, PlacedValue(p)))
    else InsertIntoNamespace(definitions, p.space.value, p.entry.key, PlacedValue(p))
  }

  function PlaceAll(definitions: seq<Field>, ps: seq<Piece>): Option<seq<Field>> {
    if ps == [] then Some(definitions)
    else
      match PlaceAll(definitions, ps[..|ps| - 1])
      case None => None
      case Some(placed) => Place(placed, ps[|ps| - 1])
  }

  // --- The pieces of a schema ------------------------------------------------------------------------------

  predicate Stays(name: string, s: GeneratedSchema, types: map<string, string>) {
    !Skips(name) && Target(name, s, types) == s.namespace
  }

  predicate IsForced(name: string, s: GeneratedSchema, types: map<string, string>) {
    !Skips(name) && Target(name, s, types) != s.namespace
  }

  function DefinitionPieces(defs: seq<Field>, s: GeneratedSchema, types: map<string, string>): seq<Piece> {
    if defs == [] then []
    else
      var before, last := DefinitionPieces(defs[..|defs| - 1], s, types), defs[|defs| - 1];
      if Stays(last.key, s, types) then before + [Piece(s.namespace, last, Definition)] else before
  }

  function ForcedOf(defs: seq<Field>, s: GeneratedSchema, types: map<string, string>): seq<Forced> {
    if defs == [] then []
    else
      var before, last := ForcedOf(defs[..|defs| - 1], s, types), defs[|defs| - 1];
      if IsForced(last.key, s, types) && Forced(last.key, Target(last.key, s, types).value) !in before
      then before + [Forced(last.key, Target(last.key, s, types).value)]
      else before
  }

  function Definitions(s: GeneratedSchema): seq<Field> {
    EntriesUnder(s.value, "definitions")
  }

  function RestPiece(s: GeneratedSchema, types: map<string, string>): Piece {
    Piece(s.namespace, Field(s.logicalName, WithoutDefinitions(s.value)), Rest(ForcedOf(Definitions(s), s, types)))
  }

  function Pieces(s: GeneratedSchema, types: map<string, string>): seq<Piece> {
    if s.logicalName in IGNORED_DEFINITIONS then []
    else DefinitionPieces(Definitions(s), s, types) + [RestPiece(s, types)]
  }

  function AllPieces(schemas: seq<GeneratedSchema>, types: map<string, string>): seq<Piece> {
    if schemas == [] then []
    else AllPieces(schemas[..|schemas| - 1], types) + Pieces(schemas[|schemas| - 1], types)
  }

  lemma {:induction false} DefinitionPiece(defs: seq<Field>, s: GeneratedSchema, types: map<string, string>, p: Piece)
    ensures p in DefinitionPieces(defs, s, types) <==>
      p.space == s.namespace && p.role == Definition && p.entry in defs && Stays(p.entry.key, s, types)
  {
    if defs != [] {
      DefinitionPiece(defs[..|defs| - 1], s, types, p);
      assert defs == defs[..|defs| - 1] + [defs[|defs| - 1]];
    }
  }

  lemma {:induction false} ForcedName(defs: seq<Field>, s: GeneratedSchema, types: map<string, string>, f: Forced)
    ensures f in ForcedOf(defs, s, types) <==>
      f.name in Names(defs) && IsForced(f.name, s, types) && Target(f.name, s, types) == Some(f.ns)
  {
    if defs != [] {
      var init, last := defs[..|defs| - 1], defs[|defs| - 1];
      ForcedName(init, s, types, f);
      assert defs == init + [last];
      assert Names(defs) == Names(init) + {last.key};
    }
  }

  lemma {:induction false} PieceOfSchema(schemas: seq<GeneratedSchema>, types: map<string, string>, p: Piece)
    ensures p in AllPieces(schemas, types) <==> exists s | s in schemas :: p in Pieces(s, types)
  {
    if schemas != [] {
      var init, last := schemas[..|schemas| - 1], schemas[|schemas| - 1];
      PieceOfSchema(init, types, p);
      assert schemas == init + [last];
    }
  }

  // --- The bundle is made of its pieces ---------------------------------------------------------------------

  lemma {:induction false} PlaceMore(definitions: seq<Field>, a: seq<Piece>, b: seq<Piece>)
    ensures PlaceAll(definitions, a + b) ==
      var placed := PlaceAll(definitions, a); if placed.None? then None else PlaceAll(placed.value, b)
  {
    if b == [] {
      assert a + b == a;
    } else {
      assert (a + b)[..|a + b| - 1] == a + b[..|b| - 1];
      PlaceMore(definitions, a, b[..|b| - 1]);
    }
  }

  lemma {:induction false} RemovedRewritten(fields: seq<Field>, rewrite: string -> string, key: string)
    ensures Removed(RewrittenEntries(fields, rewrite), key) == RewrittenEntries(Removed(fields, key), rewrite)
  {
    if fields != [] && fields[0].key != key {
      assert RewrittenEntries(fields, rewrite)[1..] == RewrittenEntries(fields[1..], rewrite);
      RemovedRewritten(fields[1..], rewrite, key);
    }
  }

  /** Moving a schema's references before taking it apart moves those of its parts. */
  lemma MovedParts(s: GeneratedSchema)
    requires s.namespace.Some?
    ensures EntriesUnder(OwnValue(s), "definitions") == RewrittenEntries(Definitions(s), Mover(s.namespace.value))
    ensures WithoutDefinitions(OwnValue(s)) == Moved(WithoutDefinitions(s.value), s.namespace.value)
  {
    var rewrite := Mover(s.namespace.value);
    if s.value.Obj? {
      var fields := s.value.fields;
      RewrittenObject(fields, rewrite);
      GetRewritten(fields, rewrite, "definitions");
      RemovedRewritten(fields, rewrite, "definitions");
      RewrittenObject(Removed(fields, "definitions"), rewrite);
      if HasKey(fields, "definitions") && Get(fields, "definitions").value.Obj? {
        RewrittenObject(Get(fields, "definitions").value.fields, rewrite);
      }
    }
  }

  /** The definitions of the schema as the loop finds them. */
  function OwnDefinitions(defs: seq<Field>, s: GeneratedSchema): seq<Field> {
    if s.namespace.None? then defs else RewrittenEntries(defs, Mover(s.namespace.value))
  }

  /** What the loop does with a definition that stays. */
  lemma DefinitionIsPlaced(definitions: seq<Field>, forced: seq<Forced>, def: Field, s: GeneratedSchema, types: map<string, string>)
    requires Stays(def.key, s, types)
    ensures AddDefinition(Progress(definitions, forced), OwnDefinitions([def], s)[0], s, types) ==
      var placed := Place(definitions, Piece(s.namespace, def, Definition));
      if placed.None? then Stuck else Progress(placed.value, forced)
  {
    assert OwnDefinitions([def], s)[0] == if s.namespace.None? then def else MovedEntry(def, s.namespace.value);
  }

  /** What the loop does with one that does not: it may note the name. */
  lemma DefinitionIsLeft(p: Progress, def: Field, s: GeneratedSchema, types: map<string, string>)
    requires !Stays(def.key, s, types) && p.Progress?
    ensures AddDefinition(p, OwnDefinitions([def], s)[0], s, types) ==
      if !IsForced(def.key, s, types) || Forced(def.key, Target(def.key, s, types).value) in p.forced then p
      else p.(forced := p.forced + [Forced(def.key, Target(def.key, s, types).value)])
  {
    assert OwnDefinitions([def], s)[0].key == def.key;
  }

  lemma {:induction false} DefinitionsArePieces(definitions: seq<Field>, defs: seq<Field>, s: GeneratedSchema, types: map<string, string>)
    ensures AddDefinitions(Progress(definitions, []), OwnDefinitions(defs, s), s, types) ==
      var placed := PlaceAll(definitions, DefinitionPieces(defs, s, types));
      if placed.None? then Stuck else Progress(placed.value, ForcedOf(defs, s, types))
  {
    if defs != [] {
      var init, last, own := defs[..|defs| - 1], defs[|defs| - 1], OwnDefinitions(defs, s);
      DefinitionsArePieces(definitions, init, s, types);
      assert own[..|own| - 1] == OwnDefinitions(init, s);
      assert own[|own| - 1] == OwnDefinitions([last], s)[0];
      var before := AddDefinitions(Progress(definitions, []), OwnDefinitions(init, s), s, types);
      assert AddDefinitions(Progress(definitions, []), own, s, types) == AddDefinition(before, own[|own| - 1], s, types);
      if Stays(last.key, s, types) {
        PlaceOne(definitions, DefinitionPieces(init, s, types), Piece(s.namespace, last, Definition));
        if before.Progress? {
          DefinitionIsPlaced(before.definitions, before.forced, last, s, types);
        }
      } else if before.Progress? {
        DefinitionIsLeft(before, last, s, types);
      }
    }
  }

  lemma PlaceOne(definitions: seq<Field>, ps: seq<Piece>, p: Piece)
    ensures PlaceAll(definitions, ps + [p]) ==
      var placed := PlaceAll(definitions, ps); if placed.None? then None else Place(placed.value, p)
  {
    assert (ps + [p])[..|ps|] == ps;
  }

  lemma SchemaIsPieces(definitions: seq<Field>, s: GeneratedSchema, types: map<string, string>)
    ensures AddSchema(definitions, s, types) == PlaceAll(definitions, Pieces(s, types))
  {
    if s.logicalName !in IGNORED_DEFINITIONS {
      if s.namespace.Some? {
        MovedParts(s);
      }
      DefinitionsArePieces(definitions, Definitions(s), s, types);
      PlaceOne(definitions, DefinitionPieces(Definitions(s), s, types), RestPiece(s, types));
      if s.namespace.Some? {
        NothingForced(Definitions(s), s, types);
      }
    }
  }

  lemma {:induction false} NothingForced(defs: seq<Field>, s: GeneratedSchema, types: map<string, string>)
    requires s.namespace.Some?
    ensures ForcedOf(defs, s, types) == []
  {
    if defs != [] {
      NothingForced(defs[..|defs| - 1], s, types);
    }
  }

  /** The loop over the schemas places their pieces one after the other. */
  lemma {:induction false} BundleIsPieces(schemas: seq<GeneratedSchema>, types: map<string, string>)
    ensures AddSchemas(schemas, types) == PlaceAll([], AllPieces(schemas, types))
  {
    if schemas != [] {
      var init, last := schemas[..|schemas| - 1], schemas[|schemas| - 1];
      BundleIsPieces(init, types);
      PlaceMore([], AllPieces(init, types), Pieces(last, types));
      if AddSchemas(init, types).Some? {
        SchemaIsPieces(AddSchemas(init, types).value, last, types);
      }
    }
  }

  // --- What is where -----------------------------------------------------------------------------------------

  /** The piece that was put there last. */
  function LastPiece(ps: seq<Piece>, space: Option<string>, name: string): Option<Piece> {
    if ps == [] then None
    else
      var last := ps[|ps| - 1];
      if last.space == space && last.entry.key == name then Some(last) else LastPiece(ps[..|ps| - 1], space, name)
  }

  /** No later piece took its place. */
  predicate Lasting(ps: seq<Piece>, p: Piece) {
    LastPiece(ps, p.space, p.entry.key) == Some(p)
  }

  function LastValue(ps: seq<Piece>, space: Option<string>, name: string): Option<Json> {
    var last := LastPiece(ps, space, name);
    if last.None? then None else Some(PlacedValue(last.value))
  }

  function UsedSpaces(ps: seq<Piece>): set<string> {
    set p | p in ps && p.space.Some? :: p.space.value
  }

  lemma {:induction false} LastPieceMeaning(ps: seq<Piece>, space: Option<string>, name: string)
    ensures LastPiece(ps, space, name).Some? <==> exists p | p in ps :: p.space == space && p.entry.key == name
    ensures LastPiece(ps, space, name).Some? ==>
      var p := LastPiece(ps, space, name).value; p in ps && p.space == space && p.entry.key == name
  {
    if ps != [] {
      LastPieceMeaning(ps[..|ps| - 1], space, name);
      assert ps == ps[..|ps| - 1] + [ps[|ps| - 1]];
    }
  }

  /** The piece goes into one of these namespaces, or to the root under another name. */
  predicate Apart(p: Piece, spaces: set<string>) {
    if p.space.None? then p.entry.key !in spaces else p.space.value in spaces
  }

  ghost predicate SpaceShaped(definitions: seq<Field>, ps: seq<Piece>, ns: string) {
    && (Get(definitions, ns).Some? <==> ns in UsedSpaces(ps))
    && (Get(definitions, ns).Some? ==> Get(definitions, ns).value.Obj?)
    && UniqueKeys(EntriesUnder(Obj(definitions), ns))
    && forall name :: Get(EntriesUnder(Obj(definitions), ns), name) == LastValue(ps, Some(ns), name)
  }

  /** Each place holds what was put there last. */
  ghost predicate Shaped(definitions: seq<Field>, ps: seq<Piece>, spaces: set<string>) {
    && UniqueKeys(definitions)
    && (forall name | name !in spaces :: Get(definitions, name) == LastValue(ps, None, name))
    && forall ns | ns in spaces :: SpaceShaped(definitions, ps, ns)
  }

  lemma LastOfMore(ps: seq<Piece>, p: Piece, space: Option<string>, name: string)
    ensures LastPiece(ps + [p], space, name) ==
      if p.space == space && p.entry.key == name then Some(p) else LastPiece(ps, space, name)
  {
    assert (ps + [p])[..|ps|] == ps;
  }

  lemma SpacesOfMore(ps: seq<Piece>, p: Piece)
    ensures UsedSpaces(ps + [p]) == UsedSpaces(ps) + if p.space.Some? then {p.space.value} else {}
  {
  }

  lemma PlaceAtRoot(definitions: seq<Field>, ps: seq<Piece>, p: Piece, spaces: set<string>)
    requires Shaped(definitions, ps, spaces) && Apart(p, spaces) && p.space.None?
    ensures Shaped(Put(definitions, p.entry.key, PlacedValue(p)), ps + [p], spaces)
  {
    var key, put := p.entry.key, Put(definitions, p.entry.key, PlacedValue(p));
    PutElements(definitions, key, PlacedValue(p));
    SpacesOfMore(ps, p);
    forall name ensures Get(put, name) == if name == key then Some(PlacedValue(p)) else Get(definitions, name) {
      GetPut(definitions, key, PlacedValue(p), name);
    }
    forall space, name ensures LastPiece(ps + [p], space, name) ==
      if p.space == space && key == name then Some(p) else LastPiece(ps, space, name) {
      LastOfMore(ps, p, space, name);
    }
    forall ns | ns in spaces ensures SpaceShaped(put, ps + [p], ns) {
      assert SpaceShaped(definitions, ps, ns);
    }
  }

  lemma PlaceInSpace(definitions: seq<Field>, ps: seq<Piece>, p: Piece, spaces: set<string>)
    requires Shaped(definitions, ps, spaces) && Apart(p, spaces) && p.space.Some?
    ensures Place(definitions, p).Some? && Shaped(Place(definitions, p).value, ps + [p], spaces)
  {
    var home, key := p.space.value, p.entry.key;
    assert SpaceShaped(definitions, ps, home);
    var before := EntriesUnder(Obj(definitions), home);
    var after := Put(before, key, PlacedValue(p));
    var put := Put(definitions, home, Obj(after));
    assert Place(definitions, p) == Some(put);
    PutElements(definitions, home, Obj(after));
    PutElements(before, key, PlacedValue(p));
    SpacesOfMore(ps, p);
    forall name ensures Get(put, name) == if name == home then Some(Obj(after)) else Get(definitions, name) {
      GetPut(definitions, home, Obj(after), name);
    }
    forall space, name ensures LastPiece(ps + [p], space, name) ==
      if p.space == space && key == name then Some(p) else LastPiece(ps, space, name) {
      LastOfMore(ps, p, space, name);
    }
    forall ns | ns in spaces ensures SpaceShaped(put, ps + [p], ns) {
      assert SpaceShaped(definitions, ps, ns);
      if ns == home {
        forall name ensures Get(after, name) == LastValue(ps + [p], Some(ns), name) {
          GetPut(before, key, PlacedValue(p), name);
        }
      }
    }
  }

  /** Pieces that keep apart all go in, and each place holds the last one put there. */
  lemma {:induction false} PlacedShape(ps: seq<Piece>, spaces: set<string>)
    requires forall p | p in ps :: Apart(p, spaces)
    ensures PlaceAll([], ps).Some?
    ensures Shaped(PlaceAll([], ps).value, ps, spaces)
  {
    if ps != [] {
      var init, last := ps[..|ps| - 1], ps[|ps| - 1];
      PlacedShape(init, spaces);
      assert ps == init + [last];
      assert Apart(last, spaces);
      if last.space.None? {
        PlaceAtRoot(PlaceAll([], init).value, init, last, spaces);
      } else {
        PlaceInSpace(PlaceAll([], init).value, init, last, spaces);
      }
    }
  }

  // --- The references of a piece -------------------------------------------------------------------------------

  /** A name that is one segment of a JSON pointer and needs no escape there or in a URI fragment. */
  predicate PlainName(name: string) {
    '/' !in name && '~' !in name && '%' !in name
  }

  /** What a definition reference is to. */
  function NameOf(r: string): string
    requires IsDefinitionRef(r)
    ensures r == Ref(NameOf(r))
  {
    r[|DEFINITIONS|..]
  }

  /** The piece refers to the definition of this name, and, if it is annotated, not only in a title that is written over. */
  predicate Asks(p: Piece, name: string) {
    if p.role.Definition? then IsRefEntry(p.entry, Ref(name)) || Survives(p.entry.value, Some(p.entry.key), Ref(name))
    else EntryRefers(p.entry, Ref(name))
  }

  lemma AskIsReference(p: Piece, name: string)
    requires Asks(p, name)
    ensures EntryRefers(p.entry, Ref(name))
  {
    if p.role.Definition? && !IsRefEntry(p.entry, Ref(name)) {
      SurvivorIsReference(p.entry.value, Some(p.entry.key), Ref(name));
    }
  }

  /** The namespace that the first of these gives the name. */
  function ForcedSpace(forced: seq<Forced>, name: string): Option<string> {
    if forced == [] then None
    else
      var before, last := ForcedSpace(forced[..|forced| - 1], name), forced[|forced| - 1];
      if before.Some? then before else if last.name == name then Some(last.ns) else None
  }

  /** Where the piece's reference to a definition leads from the bundle. */
  function Destination(p: Piece, name: string): Option<string> {
    if p.space.Some? || p.role.Definition? then p.space else ForcedSpace(p.role.forced, name)
  }

  function RefIn(space: Option<string>, name: string): string {
    if space.None? then Ref(name) else Ref(space.value + "/" + name)
  }

  ghost predicate PlainRefs(f: Field) {
    forall r | EntryRefers(f, r) && IsDefinitionRef(r) :: PlainName(NameOf(r))
  }

  predicate ForcedOk(forced: seq<Forced>, spaces: set<string>) {
    forall f | f in forced :: PlainName(f.name) && PlainName(f.ns) && f.ns in spaces && f.name !in spaces
  }

  ghost predicate PieceOk(p: Piece, spaces: set<string>) {
    && Apart(p, spaces) && (p.space.Some? ==> PlainName(p.space.value)) && PlainRefs(p.entry)
    && (p.role.Rest? ==> p.entry.value.Obj? && ForcedOk(p.role.forced, spaces))
  }

  lemma SlashInside(name: string, ns: string)
    requires Ref(ns + "/") <= Ref(name)
    ensures '/' in name
  {
    var at := |DEFINITIONS| + |ns|;
    assert Ref(name)[at] == Ref(ns + "/")[at] == '/';
    assert Ref(name)[at] == name[|ns|];
  }

  lemma MovedPlainRef(name: string, ns: string)
    requires PlainName(name)
    ensures MovedRef(Ref(name), ns) == Ref(ns + "/" + name)
    ensures MovedRef(Ref(ns + "/" + name), ns) == Ref(ns + "/" + name)
  {
    if Ref(ns + "/") <= Ref(name) {
      SlashInside(name, ns);
    }
    assert Ref(name)[|DEFINITIONS|..] == name;
    assert Ref(ns + "/" + name) == Ref(ns + "/") + name;
  }

  lemma RefInjective(a: string, b: string)
    requires Ref(a) == Ref(b)
    ensures a == b
  {
    assert Ref(a)[|DEFINITIONS|..] == a && Ref(b)[|DEFINITIONS|..] == b;
  }

  lemma NoPathInside(name: string, other: string)
    requires PlainName(name)
    ensures !(Ref(other) + "/" <= Ref(name))
  {
    assert Ref(other) + "/" == Ref(other + "/");
    if Ref(other + "/") <= Ref(name) {
      SlashInside(name, other);
    }
  }

  lemma NotOneSegment(ns: string, name: string)
    ensures !PlainName(ns + "/" + name)
  {
    assert (ns + "/" + name)[|ns|] == '/';
  }

  lemma SpaceBeforeSlash(ns: string, name: string, other: string)
    requires PlainName(ns) && PlainName(name) && Ref(other) + "/" <= Ref(ns + "/" + name)
    ensures other == ns
  {
    var path := ns + "/" + name;
    assert Ref(other) + "/" == Ref(other + "/");
    assert Ref(path)[|DEFINITIONS|..] == path && Ref(other + "/")[|DEFINITIONS|..] == other + "/";
    assert other + "/" <= path && path[|other|] == '/';
    assert forall i | 0 <= i < |ns| :: path[i] == ns[i];
    assert forall i | |ns| < i < |path| :: path[i] == name[i - |ns| - 1];
    assert path[..|ns|] == ns && (other + "/")[..|other|] == other;
  }

  /** A forced move takes the reference to its name, and leaves every other plain or moved one. */
  lemma ForcedMove(space: Option<string>, name: string, f: Forced)
    requires PlainName(name) && PlainName(f.name) && (space.Some? ==> PlainName(space.value) && f.name != space.value)
    ensures MovedNamedRef(RefIn(space, name), f.ns, f.name) ==
      if space.None? && f.name == name then RefIn(Some(f.ns), name) else RefIn(space, name)
  {
    var whole := if space.None? then name else space.value + "/" + name;
    if space.None? {
      NoPathInside(name, f.name);
    } else {
      NotOneSegment(space.value, name);
      if Ref(f.name) + "/" <= Ref(whole) {
        SpaceBeforeSlash(space.value, name, f.name);
      }
    }
    if Ref(whole) == Ref(f.name) {
      RefInjective(whole, f.name);
    }
  }

  function ForcedRef(r: string, forced: seq<Forced>): string {
    if forced == [] then r
    else
      var last := forced[|forced| - 1];
      MovedNamedRef(ForcedRef(r, forced[..|forced| - 1]), last.ns, last.name)
  }

  lemma {:induction false} ForcedRefMeaning(name: string, forced: seq<Forced>, spaces: set<string>)
    requires PlainName(name) && ForcedOk(forced, spaces)
    ensures ForcedRef(Ref(name), forced) == RefIn(ForcedSpace(forced, name), name)
    ensures ForcedSpace(forced, name).Some? ==> Forced(name, ForcedSpace(forced, name).value) in forced
    ensures (exists f | f in forced :: f.name == name) ==> ForcedSpace(forced, name).Some?
  {
    if forced != [] {
      var init, last := forced[..|forced| - 1], forced[|forced| - 1];
      assert forced == init + [last];
      ForcedRefMeaning(name, init, spaces);
      ForcedMove(ForcedSpace(init, name), name, last);
    }
  }

  lemma {:induction false} OtherRefKept(r: string, forced: seq<Forced>)
    requires !IsDefinitionRef(r)
    ensures ForcedRef(r, forced) == r
  {
    if forced != [] {
      OtherRefKept(r, forced[..|forced| - 1]);
      var last := forced[|forced| - 1];
      assert Ref(last.name) + "/" <= r ==> IsDefinitionRef(r);
    }
  }

  lemma {:induction false} AllForcedFrom(v: Json, forced: seq<Forced>, r: string) returns (source: string)
    requires Refers(AllForced(v, forced), r)
    ensures Refers(v, source) && r == ForcedRef(source, forced)
  {
    source := r;
    if forced != [] {
      var init, last := forced[..|forced| - 1], forced[|forced| - 1];
      var inner := RewrittenFrom(AllForced(v, init), NamedMover(last.ns, last.name), r);
      source := AllForcedFrom(v, init, inner);
    }
  }

  lemma {:induction false} AllForcedKeeps(v: Json, forced: seq<Forced>, r: string)
    requires Refers(v, r)
    ensures Refers(AllForced(v, forced), ForcedRef(r, forced))
  {
    if forced != [] {
      var init, last := forced[..|forced| - 1], forced[|forced| - 1];
      AllForcedKeeps(v, init, r);
      RewrittenKeeps(AllForced(v, init), NamedMover(last.ns, last.name), ForcedRef(r, init));
    }
  }
}
