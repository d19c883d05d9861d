/**
  Taking the variants of experimental methods out of a schema bundle.
*/
module SchemaPrune {
  import opened Wrappers
  import opened JsonValues
  import opened SchemaAnnotate
  import opened SchemaNames

  /** The object that describes the `method` property of a variant. */
  function MethodSchema(v: Json): Option<Json> {
    var properties := Member(v, "properties");
    if properties.None? || !properties.value.Obj? then None
    else
      var schema := Get(properties.value.fields, "method");
      if schema.Some? && schema.value.Obj? then schema else None
  }

  function EnumItems(schema: Json): Option<seq<Json>> {
    var values := Member(schema, "enum");
    if values.Some? && values.value.Arr? then Some(values.value.items) else None
  }

  predicate IsMethodIn(v: Json, methods: set<string>) {
    v.Str? && v.s in methods
  }

  predicate NamesMethod(schema: Json, methods: set<string>) {
    var literal := AsString(Member(schema, "const"));
    if literal.Some? then literal.value in methods
    else
      var values := EnumItems(schema);
      values.Some? && |values.value| == 1 && IsMethodIn(values.value[0], methods)
  }

  /** `is_experimental_method_variant` */
  predicate Experimental(v: Json, methods: set<string>) {
    var schema := MethodSchema(v);
    schema.Some? && NamesMethod(schema.value, methods)
  }

  function Retained(items: seq<Json>, methods: set<string>): seq<Json> {
    if items == [] then []
    else if Experimental(items[0], methods) then Retained(items[1..], methods)
    else [items[0]] + Retained(items[1..], methods)
  }

  lemma {:induction false} RetainedHeight(items: seq<Json>, methods: set<string>, i: nat)
    requires i < |Retained(items, methods)|
    ensures Height(Retained(items, methods)[i]) <= MaxHeight(items)
  {
    if Experimental(items[0], methods) {
      RetainedHeight(items[1..], methods, i);
    } else if i > 0 {
      RetainedHeight(items[1..], methods, i - 1);
    }
  }

  function Prune(v: Json, methods: set<string>): Json
    decreases Height(v)
  {
    match v
    case Arr(items) =>
      var kept := Retained(items, methods);
      Arr(seq(|kept|, i requires 0 <= i < |kept| => RetainedHeight(items, methods, i); Prune(kept[i], methods)))
    case Obj(fields) => Obj(seq(|fields|, i requires 0 <= i < |fields| =>
      FieldHeight(fields, i);
      Field(fields[i].key, Prune(fields[i].value, methods))))
    case _ => v
  }

  /** The methods of a list of names; an empty name is none. */
  function Listed(names: seq<string>): set<string> {
    set name | name in names && name != ""
  }

  /** The method property is an object that is limited to this name: by `const`, or else by an `enum` of one value. */
  ghost predicate SaysMethod(v: Json, m: string) {
    exists props, schema :: HasEntry(v, "properties", Obj(props)) && Field("method", Obj(schema)) in props && LimitedToOne(Obj(schema), m)
  }

  ghost predicate LimitedToOne(schema: Json, m: string) {
    || HasEntry(schema, "const", Str(m))
    || ((forall s :: !HasEntry(schema, "const", Str(s))) && HasEntry(schema, "enum", Arr([Str(m)])))
  }

  lemma LimitedIff(schema: Json, methods: set<string>)
    requires DistinctKeys(schema)
    ensures NamesMethod(schema, methods) <==> exists m :: m in methods && LimitedToOne(schema, m)
  {
    forall s ensures HasEntry(schema, "const", Str(s)) <==> Member(schema, "const") == Some(Str(s)) {
      EntryIff(schema, "const", Str(s));
    }
    forall m ensures HasEntry(schema, "enum", Arr([Str(m)])) <==> Member(schema, "enum") == Some(Arr([Str(m)])) {
      EntryIff(schema, "enum", Arr([Str(m)]));
    }
    var literal, values := AsString(Member(schema, "const")), EnumItems(schema);
    if literal.Some? {
      assert LimitedToOne(schema, literal.value);
    } else if values.Some? && |values.value| == 1 && values.value[0].Str? {
      assert values.value == [Str(values.value[0].s)];
      assert LimitedToOne(schema, values.value[0].s);
    }
  }

  lemma SaysMethodIff(v: Json, m: string)
    requires DistinctKeys(v)
    ensures SaysMethod(v, m) <==> MethodSchema(v).Some? && LimitedToOne(MethodSchema(v).value, m)
  {
    var schema := MethodSchema(v);
    if schema.Some? && LimitedToOne(schema.value, m) {
      var props := Member(v, "properties").value.fields;
      DistinctMember(v, "properties");
      EntryIff(v, "properties", Obj(props));
      EntryIff(Obj(props), "method", schema.value);
    }
    if props, entries :| HasEntry(v, "properties", Obj(props)) && Field("method", Obj(entries)) in props && LimitedToOne(Obj(entries), m) {
      EntryIff(v, "properties", Obj(props));
      DistinctMember(v, "properties");
      EntryIff(Obj(props), "method", Obj(entries));
    }
  }

  lemma MethodSchemaDistinct(v: Json)
    requires DistinctKeys(v) && MethodSchema(v).Some?
    ensures DistinctKeys(MethodSchema(v).value)
  {
    DistinctMember(v, "properties");
    DistinctMember(Member(v, "properties").value, "method");
  }

  /** A variant goes exactly if its method is one of the listed names, and not the empty one. */
  lemma ListedVariantGoes(v: Json, names: seq<string>)
    requires DistinctKeys(v)
    ensures Experimental(v, Listed(names)) <==> exists m :: m in names && m != "" && SaysMethod(v, m)
  {
    forall m ensures SaysMethod(v, m) <==> MethodSchema(v).Some? && LimitedToOne(MethodSchema(v).value, m) {
      SaysMethodIff(v, m);
    }
    if MethodSchema(v).Some? {
      var schema := MethodSchema(v).value;
      MethodSchemaDistinct(v);
      LimitedIff(schema, Listed(names));
      if m :| m in names && m != "" && SaysMethod(v, m) {
        assert m in Listed(names);
      }
    }
  }

  /** A variant whose method is the empty name stays, whatever is listed. */
  lemma EmptyMethodStays(items: seq<Json>, i: nat, names: seq<string>)
    requires i < |items| && Experimental(items[i], {""})
    ensures !Experimental(items[i], Listed(names)) && i in Places(items, Listed(names), 0)
  {
    PlacesAreTheOthers(items, Listed(names), 0);
  }

  // --- The loops -------------------------------------------------------------------------------------------

  method RetainItems(items: seq<Json>, methods: set<string>) returns (kept: seq<Json>)
    ensures kept == Retained(items, methods)
  {
    kept := [];
    for n := 0 to |items|
      invariant kept + Retained(items[n..], methods) == Retained(items, methods)
    {
      assert items[n..][1..] == items[n + 1..];
      if !Experimental(items[n], methods) {
        kept := kept + [items[n]];
      }
    }
    assert Retained(items[|items|..], methods) == [];
  }

  /** `prune_experimental_methods` */
  method PruneExperimentalMethods(v: Json, names: seq<string>) returns (r: Json)
    ensures r == Prune(v, Listed(names))
  {
    var methods: set<string> := {};
    for n := 0 to |names|
      invariant methods == Listed(names[..n])
    {
      assert names[..n + 1] == names[..n] + [names[n]];
      if names[n] != "" {
        methods := methods + {names[n]};
      }
    }
    assert names[..|names|] == names;
    r := PruneInner(v, methods);
  }

  /** `prune_experimental_methods_inner` */
  method PruneInner(v: Json, methods: set<string>) returns (r: Json)
    ensures r == Prune(v, methods)
    decreases Height(v)
  {
    match v
    case Arr(items) =>
      var kept := RetainItems(items, methods);
      var pruned: seq<Json> := [];
      for n := 0 to |kept|
        invariant |pruned| == n && forall i | 0 <= i < n :: pruned[i] == Prune(kept[i], methods)
      {
        RetainedHeight(items, methods, n);
        var item := PruneInner(kept[n], methods);
        pruned := pruned + [item];
      }
      r := Arr(pruned);
      assert pruned == Prune(v, methods).items;
    case Obj(fields) =>
      var pruned := fields;
      for n := 0 to |fields|
        invariant |pruned| == |fields|
        invariant forall i | 0 <= i < n :: pruned[i] == Field(fields[i].key, Prune(fields[i].value, methods))
        invariant forall i | n <= i < |fields| :: pruned[i] == fields[i]
      {
        FieldHeight(fields, n);
        var value := PruneInner(fields[n].value, methods);
        pruned := pruned[n := Field(fields[n].key, value)];
      }
      r := Obj(pruned);
      assert pruned == Prune(v, methods).fields;
    case _ => r := v;
  }

  // --- What stays ------------------------------------------------------------------------------------------------

  /** The places of the items that stay. */
  function Places(items: seq<Json>, methods: set<string>, from: nat): seq<nat>
    requires from <= |items|
    decreases |items| - from
  {
    if from == |items| then []
    else if Experimental(items[from], methods) then Places(items, methods, from + 1)
    else [from] + Places(items, methods, from + 1)
  }

  lemma OnePlaceMore(items: seq<Json>, methods: set<string>, from: nat)
    requires from < |items| && !Experimental(items[from], methods)
    requires var rest := Places(items, methods, from + 1);
      && (forall i :: i in rest <==> from + 1 <= i < |items| && !Experimental(items[i], methods))
      && (forall a, b | 0 <= a < b < |rest| :: rest[a] < rest[b])
    ensures var places := Places(items, methods, from);
      && (forall i :: i in places <==> from <= i < |items| && !Experimental(items[i], methods))
      && (forall a, b | 0 <= a < b < |places| :: places[a] < places[b])
  {
    var rest := Places(items, methods, from + 1);
    assert Places(items, methods, from) == [from] + rest;
    assert forall b | 0 <= b < |rest| :: rest[b] in rest;
  }

  lemma {:induction false} PlacesAreTheOthers(items: seq<Json>, methods: set<string>, from: nat)
    requires from <= |items|
    ensures var places := Places(items, methods, from);
      && (forall i :: i in places <==> from <= i < |items| && !Experimental(items[i], methods))
      && (forall a, b | 0 <= a < b < |places| :: places[a] < places[b])
      && |Retained(items[from..], methods)| == |places|
      && forall k | 0 <= k < |places| :: places[k] in places && Retained(items[from..], methods)[k] == items[places[k]]
    decreases |items| - from
  {
    if from < |items| {
      PlacesAreTheOthers(items, methods, from + 1);
      assert items[from..][1..] == items[from + 1..];
      if !Experimental(items[from], methods) {
        OnePlaceMore(items, methods, from);
      }
    }
  }

  /** Every item that is no experimental variant stays, pruned itself, and in order. */
  lemma PruningKeepsOrder(items: seq<Json>, methods: set<string>)
    ensures var places := Places(items, methods, 0);
      && (forall i :: i in places <==> 0 <= i < |items| && !Experimental(items[i], methods))
      && (forall a, b | 0 <= a < b < |places| :: places[a] < places[b])
      && |Prune(Arr(items), methods).items| == |places|
      && forall k | 0 <= k < |places| :: places[k] in places && Prune(Arr(items), methods).items[k] == Prune(items[places[k]], methods)
  {
    PlacesAreTheOthers(items, methods, 0);
    assert items[0..] == items;
  }

  // --- What pruning achieves -----------------------------------------------------------------------------------------

  /** No array at any depth holds an experimental variant. */
  predicate Clean(v: Json, methods: set<string>) {
    match v
    case Arr(items) => forall i | 0 <= i < |items| :: !Experimental(items[i], methods) && Clean(items[i], methods)
    case Obj(fields) => forall i | 0 <= i < |fields| :: Clean(fields[i].value, methods)
    case _ => true
  }

  /**
    Not a variant of an experimental method yet, but it will be: its method's
    `enum` lists one such method and otherwise only what pruning drops.
  */
  predicate Latent(v: Json, methods: set<string>) {
    var schema := MethodSchema(v);
    schema.Some? && AsString(Member(schema.value, "const")).None? &&
    var values := EnumItems(schema.value);
    values.Some? && |values.value| != 1 &&
    var kept := Retained(values.value, methods);
    |kept| == 1 && IsMethodIn(kept[0], methods)
  }

  /** No array that pruning leaves holds such a latent variant among the items it keeps. */
  predicate NoLatent(v: Json, methods: set<string>)
    decreases Height(v)
  {
    match v
    case Arr(items) =>
      var kept := Retained(items, methods);
      forall i | 0 <= i < |kept| :: RetainedHeight(items, methods, i); !Latent(kept[i], methods) && NoLatent(kept[i], methods)
    case Obj(fields) =>
      forall i | 0 <= i < |fields| :: FieldHeight(fields, i); NoLatent(fields[i].value, methods)
    case _ => true
  }

  lemma {:induction false} RetainedNotExperimental(items: seq<Json>, methods: set<string>, i: nat)
    requires i < |Retained(items, methods)|
    ensures !Experimental(Retained(items, methods)[i], methods)
  {
    if Experimental(items[0], methods) {
      RetainedNotExperimental(items[1..], methods, i);
    } else if i > 0 {
      RetainedNotExperimental(items[1..], methods, i - 1);
    }
  }

  lemma {:induction false} RetainedAll(items: seq<Json>, methods: set<string>)
    ensures |Retained(items, methods)| <= |items|
    ensures |Retained(items, methods)| == |items| <==> forall i | 0 <= i < |items| :: !Experimental(items[i], methods)
    ensures |Retained(items, methods)| == |items| ==> Retained(items, methods) == items
  {
    if items != [] {
      RetainedAll(items[1..], methods);
      assert forall i | 0 <= i < |items[1..]| :: items[1..][i] == items[i + 1];
      if |Retained(items, methods)| == |items| {
        assert items == [items[0]] + items[1..];
      }
    }
  }

  /** The documents that pruning leaves alone are the clean ones. */
  lemma {:induction false} FixedIffClean(v: Json, methods: set<string>)
    ensures Prune(v, methods) == v <==> Clean(v, methods)
    decreases Height(v)
  {
    match v
    case Arr(items) =>
      RetainedAll(items, methods);
      var pruned := Prune(v, methods).items;
      if |Retained(items, methods)| == |items| {
        forall i | 0 <= i < |items| ensures pruned[i] == items[i] <==> Clean(items[i], methods) {
          ItemHeight(items, i);
          FixedIffClean(items[i], methods);
        }
        assert pruned == items <==> forall i | 0 <= i < |items| :: pruned[i] == items[i];
      } else {
        assert |pruned| != |items|;
      }
    case Obj(fields) =>
      var pruned := Prune(v, methods).fields;
      forall i | 0 <= i < |fields| ensures pruned[i] == fields[i] <==> Clean(fields[i].value, methods) {
        FieldHeight(fields, i);
        FixedIffClean(fields[i].value, methods);
      }
      assert pruned == fields <==> forall i | 0 <= i < |fields| :: pruned[i] == fields[i];
    case _ =>
  }

  /** A member of a pruned object is the pruned member. */
  lemma PrunedMember(v: Json, key: string, methods: set<string>)
    ensures Member(Prune(v, methods), key).Some? <==> Member(v, key).Some?
    ensures Member(v, key).Some? ==> Member(Prune(v, methods), key) == Some(Prune(Member(v, key).value, methods))
  {
    if v.Obj? {
      var i := GetOfSameKeys(v.fields, Prune(v, methods).fields, key);
    }
  }

  lemma PrunedMethodSchema(v: Json, methods: set<string>)
    ensures MethodSchema(Prune(v, methods)).Some? <==> MethodSchema(v).Some?
    ensures MethodSchema(v).Some? ==> MethodSchema(Prune(v, methods)) == Some(Prune(MethodSchema(v).value, methods))
  {
    PrunedMember(v, "properties", methods);
    var properties := Member(v, "properties");
    if properties.Some? && properties.value.Obj? {
      PrunedMember(properties.value, "method", methods);
    }
  }

  /** A kept item becomes an experimental variant exactly if it was a latent one. */
  lemma LatentBecomesExperimental(v: Json, methods: set<string>)
    requires !Experimental(v, methods)
    ensures Experimental(Prune(v, methods), methods) <==> Latent(v, methods)
  {
    PrunedMethodSchema(v, methods);
    var schema := MethodSchema(v);
    if schema.Some? {
      PrunedMember(schema.value, "const", methods);
      PrunedMember(schema.value, "enum", methods);
      var values := EnumItems(schema.value);
      if values.Some? {
        RetainedAll(values.value, methods);
        PrunedEnum(values.value, methods);
      }
    }
  }

  lemma PrunedEnum(values: seq<Json>, methods: set<string>)
    ensures var pruned, kept := Prune(Arr(values), methods).items, Retained(values, methods);
      |pruned| == |kept| && forall i | 0 <= i < |kept| :: IsMethodIn(pruned[i], methods) <==> IsMethodIn(kept[i], methods)
  {
    var pruned, kept := Prune(Arr(values), methods).items, Retained(values, methods);
    forall i | 0 <= i < |kept| ensures IsMethodIn(pruned[i], methods) <==> IsMethodIn(kept[i], methods) {
      assert pruned[i] == Prune(kept[i], methods);
    }
  }

  /** Pruning leaves no experimental variant in any array exactly if it meets no latent one. */
  lemma {:induction false} PrunedIsClean(v: Json, methods: set<string>)
    ensures Clean(Prune(v, methods), methods) <==> NoLatent(v, methods)
    decreases Height(v)
  {
    match v
    case Arr(items) =>
      var kept, pruned := Retained(items, methods), Prune(v, methods).items;
      forall i | 0 <= i < |kept|
        ensures !Experimental(pruned[i], methods) && Clean(pruned[i], methods) <==> !Latent(kept[i], methods) && NoLatent(kept[i], methods)
      {
        RetainedHeight(items, methods, i);
        RetainedNotExperimental(items, methods, i);
        LatentBecomesExperimental(kept[i], methods);
        PrunedIsClean(kept[i], methods);
      }
    case Obj(fields) =>
      var pruned := Prune(v, methods).fields;
      forall i | 0 <= i < |fields| ensures Clean(pruned[i].value, methods) <==> NoLatent(fields[i].value, methods) {
        FieldHeight(fields, i);
        PrunedIsClean(fields[i].value, methods);
      }
    case _ =>
  }

  /** And exactly then pruning twice is the same as once. */
  lemma PruneTwice(v: Json, methods: set<string>)
    ensures Prune(Prune(v, methods), methods) == Prune(v, methods) <==> NoLatent(v, methods)
  {
    FixedIffClean(Prune(v, methods), methods);
    PrunedIsClean(v, methods);
  }

  // --- Plain enums ---------------------------------------------------------------------------------------------------

  predicate PlainEnum(f: Field) {
    f.key == "enum" && f.value.Arr? ==> forall i | 0 <= i < |f.value.items| :: !f.value.items[i].Obj?
  }

  /** `enum` arrays hold no objects, as in every schema that is generated. */
  predicate PlainEnums(v: Json) {
    match v
    case Arr(items) => forall i | 0 <= i < |items| :: PlainEnums(items[i])
    case Obj(fields) => forall i | 0 <= i < |fields| :: PlainEnum(fields[i]) && PlainEnums(fields[i].value)
    case _ => true
  }

  lemma PlainMember(v: Json, key: string)
    requires PlainEnums(v) && Member(v, key).Some?
    ensures PlainEnums(Member(v, key).value) && PlainEnum(Field(key, Member(v, key).value))
  {
    GetMeaning(v.fields, key);
  }

  lemma PlainIsNotLatent(v: Json, methods: set<string>)
    requires PlainEnums(v)
    ensures !Latent(v, methods)
  {
    var schema := MethodSchema(v);
    if schema.Some? && EnumItems(schema.value).Some? {
      PlainMember(v, "properties");
      PlainMember(Member(v, "properties").value, "method");
      PlainMember(schema.value, "enum");
      RetainedAll(EnumItems(schema.value).value, methods);
    }
  }

  lemma {:induction false} RetainedIsItem(items: seq<Json>, methods: set<string>, i: nat) returns (j: nat)
    requires i < |Retained(items, methods)|
    ensures j < |items| && Retained(items, methods)[i] == items[j]
  {
    j := 0;
    if Experimental(items[0], methods) {
      j := RetainedIsItem(items[1..], methods, i);
      j := j + 1;
    } else if i > 0 {
      j := RetainedIsItem(items[1..], methods, i - 1);
      j := j + 1;
    }
  }

  lemma {:induction false} PlainHasNoLatent(v: Json, methods: set<string>)
    requires PlainEnums(v)
    ensures NoLatent(v, methods)
    decreases Height(v)
  {
    match v
    case Arr(items) =>
      var kept := Retained(items, methods);
      forall i | 0 <= i < |kept| ensures !Latent(kept[i], methods) && NoLatent(kept[i], methods) {
        RetainedHeight(items, methods, i);
        var j := RetainedIsItem(items, methods, i);
        PlainIsNotLatent(items[j], methods);
        PlainHasNoLatent(items[j], methods);
      }
    case Obj(fields) =>
      forall i | 0 <= i < |fields| ensures NoLatent(fields[i].value, methods) {
        FieldHeight(fields, i);
        PlainHasNoLatent(fields[i].value, methods);
      }
    case _ =>
  }

  /** On such schemas pruning always does all it should, at once. */
  lemma PruningPlainSchemas(v: Json, methods: set<string>)
    requires PlainEnums(v)
    ensures Clean(Prune(v, methods), methods)
    ensures Prune(Prune(v, methods), methods) == Prune(v, methods)
  {
    PlainHasNoLatent(v, methods);
    PrunedIsClean(v, methods);
    PruneTwice(v, methods);
  }

  // --- A latent variant ------------------------------------------------------------------------------------------------

  /** A variant whose method has this description. */
  function Variant(schema: Json): Json {
    Obj([Field("properties", Obj([Field("method", schema)]))])
  }

  function LatentVariant(m: string): Json {
    Variant(Obj([Field("enum", Arr([Variant(Obj([Field("const", Str(m))])), Str(m)]))]))
  }

  /** An `enum` that lists an experimental variant beside its method: pruning makes a new one of it. */
  lemma LatentVariantStays(m: string)
    ensures !Clean(Prune(Arr([LatentVariant(m)]), {m}), {m})
    ensures Prune(Prune(Arr([LatentVariant(m)]), {m}), {m}) != Prune(Arr([LatentVariant(m)]), {m})
  {
    var methods, inner := {m}, Variant(Obj([Field("const", Str(m))]));
    var values := [inner, Str(m)];
    var v := LatentVariant(m);
    assert MethodSchema(inner) == Some(Obj([Field("const", Str(m))]));
    assert Experimental(inner, methods);
    assert values[1..] == [Str(m)];
    assert Retained([Str(m)], methods) == [Str(m)] + Retained([Str(m)][1..], methods) == [Str(m)];
    assert Retained(values, methods) == [Str(m)];
    var schema := Obj([Field("enum", Arr(values))]);
    assert MethodSchema(v) == Some(schema);
    assert Get(schema.fields[1..], "const") == None;
    assert EnumItems(schema) == Some(values);
    assert Latent(v, methods) && !Experimental(v, methods);
    assert Retained([v], methods) == [v] + Retained([v][1..], methods) == [v];
    assert Retained([v], methods)[0] == v;
    assert !NoLatent(Arr([v]), methods);
    PrunedIsClean(Arr([v]), methods);
    PruneTwice(Arr([v]), methods);
  }
}
