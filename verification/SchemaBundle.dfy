/**
  The bundle that collects all generated schemas in one document, with those
  of a namespace under an entry of their own.
*/
module SchemaBundle {
  import opened Wrappers
  import opened Text
  import opened JsonValues
  import opened SchemaAnnotate
  import opened SchemaRefs

  const IGNORED_DEFINITIONS: set<string> := {"Option<()>"}
  const SPECIAL_DEFINITIONS: set<string> :=
    {"ClientNotification", "ClientRequest", "EventMsg", "ServerNotification", "ServerRequest"}

  datatype GeneratedSchema = GeneratedSchema(namespace: Option<string>, logicalName: string, value: Json, inV1Dir: bool)

  // --- Pieces ----------------------------------------------------------------------------------------------

  predicate IsDigit(c: char) {
    '0' <= c <= '9'
  }

  function TrimEndDigits(s: string): string {
    if s != [] && IsDigit(s[|s| - 1]) then TrimEndDigits(s[..|s| - 1]) else s
  }

  /** The object under this key, or no entries. */
  function EntriesUnder(v: Json, key: string): seq<Field> {
    var member := Member(v, key);
    if member.Some? && member.value.Obj? then member.value.fields else []
  }

  function Names(entries: seq<Field>): set<string> {
    set f | f in entries :: f.key
  }

  /** The namespace that claims the names first keeps them. */
  function Claimed(types: map<string, string>, name: string, ns: string): map<string, string> {
    if name in types then types else types[name := ns]
  }

  function AllClaimed(types: map<string, string>, entries: seq<Field>, ns: string): map<string, string> {
    if entries == [] then types
    else Claimed(AllClaimed(types, entries[..|entries| - 1], ns), entries[|entries| - 1].key, ns)
  }

  function NamespacedTypes(schemas: seq<GeneratedSchema>): map<string, string> {
    if schemas == [] then map[]
    else
      var types, schema := NamespacedTypes(schemas[..|schemas| - 1]), schemas[|schemas| - 1];
      if schema.namespace.None? then types
      else
        var ns := schema.namespace.value;
        var named := Claimed(types, schema.logicalName, ns);
        AllClaimed(AllClaimed(named, EntriesUnder(schema.value, "definitions"), ns), EntriesUnder(schema.value, "$defs"), ns)
  }

  /** A schema in a namespace claims its own name and those of its definitions. */
  predicate Claims(schema: GeneratedSchema, name: string) {
    && schema.namespace.Some?
    && (name == schema.logicalName || name in Names(EntriesUnder(schema.value, "definitions"))
        || name in Names(EntriesUnder(schema.value, "$defs")))
  }

  predicate FirstClaim(schemas: seq<GeneratedSchema>, i: nat, name: string) {
    && i < |schemas| && Claims(schemas[i], name)
    && forall j | 0 <= j < i :: !Claims(schemas[j], name)
  }

  lemma {:induction false} AllClaimedKeeps(types: map<string, string>, entries: seq<Field>, ns: string, name: string)
    ensures var r := AllClaimed(types, entries, ns);
      && (name in r <==> name in types || name in Names(entries))
      && (name in r ==> r[name] == if name in types then types[name] else ns)
  {
    if entries != [] {
      var init, last := entries[..|entries| - 1], entries[|entries| - 1];
      AllClaimedKeeps(types, init, ns, name);
      assert entries == init + [last];
      assert Names(entries) == Names(init) + {last.key};
    }
  }

  /** A name belongs to the namespace of the first schema that claims it. */
  lemma {:induction false} FirstClaimWins(schemas: seq<GeneratedSchema>, name: string)
    ensures name in NamespacedTypes(schemas) <==> exists i: nat :: FirstClaim(schemas, i, name)
    ensures forall i: nat | FirstClaim(schemas, i, name) ::
      name in NamespacedTypes(schemas) && NamespacedTypes(schemas)[name] == schemas[i].namespace.value
  {
    if schemas != [] {
      var init, schema := schemas[..|schemas| - 1], schemas[|schemas| - 1];
      FirstClaimWins(init, name);
      forall i: nat | i < |init| ensures FirstClaim(schemas, i, name) <==> FirstClaim(init, i, name) {
        assert forall j | 0 <= j <= i :: schemas[j] == init[j];
      }
      if schema.namespace.Some? {
        var ns, defs := schema.namespace.value, EntriesUnder(schema.value, "definitions");
        var named := Claimed(NamespacedTypes(init), schema.logicalName, ns);
        AllClaimedKeeps(named, defs, ns, name);
        AllClaimedKeeps(AllClaimed(named, defs, ns), EntriesUnder(schema.value, "$defs"), ns, name);
      }
      if name !in NamespacedTypes(init) {
        SomeFirstClaim(init, name);
        assert forall j | 0 <= j < |init| :: schemas[j] == init[j];
        assert Claims(schema, name) <==> FirstClaim(schemas, |init|, name);
      } else {
        var i: nat :| FirstClaim(init, i, name);
        assert FirstClaim(schemas, i, name);
        assert Claims(schemas[i], name);
        assert !FirstClaim(schemas, |init|, name);
      }
    }
  }

  lemma {:induction false} SomeFirstClaim(schemas: seq<GeneratedSchema>, name: string)
    requires forall i: nat :: !FirstClaim(schemas, i, name)
    ensures forall i | 0 <= i < |schemas| :: !Claims(schemas[i], name)
  {
    if schemas != [] {
      var init := schemas[..|schemas| - 1];
      forall i: nat ensures !FirstClaim(init, i, name) {
        if FirstClaim(init, i, name) {
          assert forall j | 0 <= j <= i :: schemas[j] == init[j];
          assert FirstClaim(schemas, i, name);
        }
      }
      SomeFirstClaim(init, name);
      assert forall i | 0 <= i < |init| :: schemas[i] == init[i];
      assert !FirstClaim(schemas, |init|, name);
    }
  }

  /** A numbered name belongs where the name without its digits does. */
  function NamespaceFor(name: string, types: map<string, string>): Option<string> {
    var trimmed := TrimEndDigits(name);
    if name in types then Some(types[name])
    else if trimmed != name && trimmed in types then Some(types[trimmed])
    else None
  }

  /** `Map::remove`: the last entry takes the place of the removed one. */
  function Removed(fields: seq<Field>, key: string): seq<Field> {
    if fields == [] then []
    else if fields[0].key == key then
      if |fields| == 1 then [] else [fields[|fields| - 1]] + fields[1..|fields| - 1]
    else [fields[0]] + Removed(fields[1..], key)
  }

  /** References to one definition, or to something inside it, move into the namespace. */
  function MovedNamedRef(r: string, ns: string, name: string): string {
    if r == Ref(name) then Ref(ns + "/" + name)
    else if Ref(name) + "/" <= r then Ref(ns + "/" + name) + "/" + r[|Ref(name)| + 1..]
    else r
  }

  function NamedMover(ns: string, name: string): string -> string {
    (r: string) => MovedNamedRef(r, ns, name)
  }

  function MovedNamed(v: Json, ns: string, name: string): Json {
    Rewritten(v, NamedMover(ns, name))
  }

  /** `insert_into_namespace`; it fails if something else has the namespace's name. */
  function InsertIntoNamespace(definitions: seq<Field>, ns: string, name: string, schema: Json): Option<seq<Field>> {
    match Get(definitions, ns)
    case None => Some(Put(definitions, ns, Obj([Field(name, schema)])))
    case Some(Obj(entries)) => Some(Put(definitions, ns, Obj(Put(entries, name, schema))))
    case _ => None
  }

  // --- The bundle --------------------------------------------------------------------------------------------

  datatype Forced = Forced(name: string, ns: string)

  /** The definitions collected so far, and references that must be moved by force; or a failure. */
  datatype Progress = Progress(definitions: seq<Field>, forced: seq<Forced>) | Stuck

  predicate Skips(name: string) {
    name in IGNORED_DEFINITIONS || name in SPECIAL_DEFINITIONS
  }

  /** The namespace a definition of the schema belongs to, if any. */
  function Target(name: string, schema: GeneratedSchema, types: map<string, string>): Option<string> {
    if schema.namespace.Some? then schema.namespace
    else if schema.inV1Dir then None
    else NamespaceFor(name, types)
  }

  function AddDefinition(p: Progress, def: Field, schema: GeneratedSchema, types: map<string, string>): Progress {
    if p.Stuck? || Skips(def.key) then p
    else
      var annotated := Annotate(def.value, Some(def.key));
      var target := Target(def.key, schema, types);
      if target.None? then p.(definitions := Put(p.definitions, def.key, annotated))
      else if schema.namespace == target then
        match InsertIntoNamespace(p.definitions, target.value, def.key, Moved(annotated, target.value))
        case None => Stuck
        case Some(definitions) => p.(definitions := definitions)
      else
        var forced := Forced(def.key, target.value);
        if forced in p.forced then p else p.(forced := p.forced + [forced])
  }

  function AddDefinitions(p: Progress, defs: seq<Field>, schema: GeneratedSchema, types: map<string, string>): Progress {
    if defs == [] then p
    else AddDefinition(AddDefinitions(p, defs[..|defs| - 1], schema, types), defs[|defs| - 1], schema, types)
  }

  function AllForced(v: Json, forced: seq<Forced>): Json {
    if forced == [] then v
    else
      var last := forced[|forced| - 1];
      MovedNamed(AllForced(v, forced[..|forced| - 1]), last.ns, last.name)
  }

  /** The schema as it goes into the bundle, its references moved and its definitions taken out. */
  function OwnValue(schema: GeneratedSchema): Json {
    if schema.namespace.Some? then Moved(schema.value, schema.namespace.value) else schema.value
  }

  function WithoutDefinitions(v: Json): Json {
    if v.Obj? then Obj(Removed(v.fields, "definitions")) else v
  }

  function AddSchema(definitions: seq<Field>, schema: GeneratedSchema, types: map<string, string>): Option<seq<Field>> {
    if schema.logicalName in IGNORED_DEFINITIONS then Some(definitions)
    else
      var value := OwnValue(schema);
      match AddDefinitions(Progress(definitions, []), EntriesUnder(value, "definitions"), schema, types)
      case Stuck => None
      case Progress(added, forced) =>
        var rest := AllForced(WithoutDefinitions(value), forced);
        if schema.namespace.Some? then InsertIntoNamespace(added, schema.namespace.value, schema.logicalName, rest)
        else Some(Put(added, schema.logicalName, rest))
  }

  function AddSchemas(schemas: seq<GeneratedSchema>, types: map<string, string>): Option<seq<Field>> {
    if schemas == [] then Some([])
    else
      match AddSchemas(schemas[..|schemas| - 1], types)
      case None => None
      case Some(definitions) => AddSchema(definitions, schemas[|schemas| - 1], types)
  }

  function Bundle(definitions: seq<Field>): Json {
    Obj([
      Field("$schema", Str("http://json-schema.org/draft-07/schema#")),
      Field("title", Str("CodexAppServerProtocol")),
      Field("type", Str("object")),
      Field("definitions", Obj(definitions))
    ])
  }

  /** `build_schema_bundle` */
  method BuildSchemaBundle(schemas: seq<GeneratedSchema>) returns (r: Option<Json>)
    ensures AddSchemas(schemas, NamespacedTypes(schemas)).None? ==> r == None
    ensures AddSchemas(schemas, NamespacedTypes(schemas)).Some? ==> r == Some(Bundle(AddSchemas(schemas, NamespacedTypes(schemas)).value))
  {
    var types := CollectNamespacedTypes(schemas);
    var definitions: seq<Field> := [];
    var failed := false;
    for n := 0 to |schemas|
      invariant AddSchemas(schemas[..n], types) == if failed then None else Some(definitions)
    {
      assert schemas[..n + 1][..n] == schemas[..n];
      if !failed {
        var added := BundleOne(definitions, schemas[n], types);
        if added.None? {
          failed := true;
        } else {
          definitions := added.value;
        }
      }
    }
    assert schemas[..|schemas|] == schemas;
    r := if failed then None else Some(Bundle(definitions));
  }

  method CollectNamespacedTypes(schemas: seq<GeneratedSchema>) returns (types: map<string, string>)
    ensures types == NamespacedTypes(schemas)
  {
    types := map[];
    for n := 0 to |schemas|
      invariant types == NamespacedTypes(schemas[..n])
    {
      var schema := schemas[n];
      assert schemas[..n + 1][..n] == schemas[..n];
      if schema.namespace.Some? {
        var ns := schema.namespace.value;
        types := Claimed(types, schema.logicalName, ns);
        types := ClaimAll(types, EntriesUnder(schema.value, "definitions"), ns);
        types := ClaimAll(types, EntriesUnder(schema.value, "$defs"), ns);
      }
    }
    assert schemas[..|schemas|] == schemas;
  }

  method ClaimAll(types: map<string, string>, entries: seq<Field>, ns: string) returns (claimed: map<string, string>)
    ensures claimed == AllClaimed(types, entries, ns)
  {
    claimed := types;
    for n := 0 to |entries|
      invariant claimed == AllClaimed(types, entries[..n], ns)
    {
      assert entries[..n + 1][..n] == entries[..n];
      claimed := Claimed(claimed, entries[n].key, ns);
    }
    assert entries[..|entries|] == entries;
  }

  /** The body of the loop over the schemas. */
  method BundleOne(definitions: seq<Field>, schema: GeneratedSchema, types: map<string, string>) returns (r: Option<seq<Field>>)
    ensures r == AddSchema(definitions, schema, types)
  {
    if schema.logicalName in IGNORED_DEFINITIONS {
      return Some(definitions);
    }
    var value := OwnValue(schema);
    var defs := EntriesUnder(value, "definitions");
    var progress := Progress(definitions, []);
    for n := 0 to |defs|
      invariant progress == AddDefinitions(Progress(definitions, []), defs[..n], schema, types)
    {
      assert defs[..n + 1][..n] == defs[..n];
      progress := AddDefinition(progress, defs[n], schema, types);
    }
    assert defs[..|defs|] == defs;
    if progress.Stuck? {
      return None;
    }
    value := WithoutDefinitions(value);
    ghost var before := value;
    var forced := progress.forced;
    for n := 0 to |forced|
      invariant value == AllForced(before, forced[..n])
    {
      assert forced[..n + 1][..n] == forced[..n];
      value := MovedNamed(value, forced[n].ns, forced[n].name);
    }
    assert forced[..|forced|] == forced;
    if schema.namespace.Some? {
      r := InsertIntoNamespace(progress.definitions, schema.namespace.value, schema.logicalName, value);
    } else {
      r := Some(Put(progress.definitions, schema.logicalName, value));
    }
  }
}
