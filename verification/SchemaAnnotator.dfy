/**
  The annotator as the program runs it: loops that put titles into a document
  piece by piece, proved to compute the annotation that `SchemaAnnotate` defines.
*/
module SchemaAnnotator {
  import opened Wrappers
  import opened Text
  import opened JsonValues
  import opened SchemaAnnotate

  /** The search loop; it ends because `seen` holds only finitely many of the distinct candidates. */
  method ChooseTitle(name: string, seen: set<string>) returns (candidate: string)
    ensures candidate == FreshTitle(name, seen)
  {
    candidate := name;
    var index := 2;
    ghost var tried: set<string> := {};
    while candidate in seen
      invariant index >= 2 && candidate == Candidate(name, index - 1)
      invariant forall j | 1 <= j < index - 1 :: Candidate(name, j) in seen
      invariant tried <= seen && forall c | c in tried :: exists j | 1 <= j < index - 1 :: c == Candidate(name, j)
      decreases |seen - tried|
    {
      if candidate in tried {
        var j :| 1 <= j < index - 1 && candidate == Candidate(name, j);
        CandidateInjective(name, j, index - 1);
      }
      FewerTaken(seen - tried, candidate);
      assert seen - (tried + {candidate}) == (seen - tried) - {candidate};
      tried := tried + {candidate};
      candidate := name + Decimal(index);
      index := index + 1;
    }
    LeastUnique(name, seen, index - 1);
  }

  /** `set_discriminator_titles`: one pass over the discriminator keys, each looked up in the properties. */
  method SetDiscriminatorTitles(props: seq<Field>, owner: string) returns (r: seq<Field>)
    requires UniqueKeys(props)
    ensures r == TitledProperties(props, owner)
  {
    r := props;
    for n := 0 to |DISCRIMINATOR_KEYS|
      invariant |r| == |props|
      invariant forall i | 0 <= i < |props| && props[i].key in DISCRIMINATOR_KEYS[..n] :: r[i] == TitledProperty(props[i], owner)
      invariant forall i | 0 <= i < |props| && props[i].key !in DISCRIMINATOR_KEYS[..n] :: r[i] == props[i]
    {
      var key := DISCRIMINATOR_KEYS[n];
      assert key !in DISCRIMINATOR_KEYS[..n];
      assert DISCRIMINATOR_KEYS[..n + 1] == DISCRIMINATOR_KEYS[..n] + [key];
      assert forall i | 0 <= i < |props| :: r[i].key == props[i].key;
      var at := IndexOf(r, key);
      if at.Some? {
        var i := at.value;
        var prop := r[i];
        assert prop == props[i];
        assert forall j | 0 <= j < |props| && j != i :: props[j].key != key;
        if LacksTitle(prop) {
          r := r[i := Field(key, Obj(prop.value.fields + [Field("title", Str(owner + ToPascalCase(key)))]))];
        }
        assert r[i] == TitledProperty(prop, owner);
      } else {
        assert forall j | 0 <= j < |props| :: props[j].key != key;
      }
    }
    assert DISCRIMINATOR_KEYS[..|DISCRIMINATOR_KEYS|] == DISCRIMINATOR_KEYS;
  }

  function IndexOf(fields: seq<Field>, key: string): (r: Option<nat>)
    ensures r.Some? ==> r.value < |fields| && fields[r.value].key == key
    ensures r.None? ==> forall i | 0 <= i < |fields| :: fields[i].key != key
  {
    if fields == [] then None
    else if fields[0].key == key then Some(0)
    else
      match IndexOf(fields[1..], key)
      case None => None
      case Some(i) => Some(i + 1)
  }

  const NAMED_KEYS := ["oneOf", "anyOf", "definitions", "$defs", "properties", "items", "additionalProperties"]

  lemma TitledPropertyDistinct(prop: Field, owner: string)
    requires DistinctKeys(prop.value)
    ensures DistinctKeys(TitledProperty(prop, owner).value)
  {
    if LacksTitle(prop) {
      GetMeaning(prop.value.fields, "title");
    }
  }

  lemma TitledMemberDistinct(f: Field, owner: string)
    requires DistinctKeys(f.value)
    ensures DistinctKeys(TitledMember(f, owner).value)
  {
    if f.key == "properties" && f.value.Obj? {
      var props := f.value.fields;
      forall i | 0 <= i < |props| ensures DistinctKeys(TitledProperties(props, owner)[i].value) {
        TitledPropertyDistinct(props[i], owner);
      }
    }
  }

  lemma WithDiscriminatorsDistinct(fields: seq<Field>, owner: Option<string>)
    requires DistinctKeys(Obj(fields))
    ensures DistinctKeys(Obj(WithDiscriminators(fields, owner)))
  {
    if owner.Some? {
      forall i | 0 <= i < |fields| ensures DistinctKeys(TitledMember(fields[i], owner.value).value) {
        TitledMemberDistinct(fields[i], owner.value);
      }
    }
  }

  lemma WithTitleDistinct(variant: Json, title: string)
    requires DistinctKeys(variant)
    ensures DistinctKeys(WithTitle(variant, title))
  {
    if variant.Obj? {
      PutDistinct(variant.fields, "title", Str(title));
    }
  }

  /** Giving the discriminators their titles before the recursion gives them again makes no difference. */
  lemma DiscriminatorsFirst(fields: seq<Field>, base: Option<string>)
    ensures Annotate(Obj(WithDiscriminators(fields, VariantTitle(Obj(fields)))), base) == Annotate(Obj(fields), base)
  {
    var owner := VariantTitle(Obj(fields));
    var once := WithDiscriminators(fields, owner);
    AnnotateObject(fields, base);
    AnnotateObject(once, base);
    AnnotatedKeys(fields, owner, base);
    var i := GetOfSameKeys(fields, once, "title");
    assert VariantTitle(Obj(once)) == owner;
    if owner.Some? {
      forall i | 0 <= i < |once| ensures SettledProperties(once[i]) {
        if fields[i].key == "properties" && fields[i].value.Obj? {
          forall j | 0 <= j < |fields[i].value.fields| ensures !LacksTitle(once[i].value.fields[j]) {
            TitledPropertyHasTitle(fields[i].value.fields[j], owner.value);
          }
        }
      }
    }
    SettledDiscriminators(once, owner);
  }

  method SetDiscriminatorsOfObject(fields: seq<Field>, owner: string) returns (r: seq<Field>)
    requires DistinctKeys(Obj(fields))
    ensures r == WithDiscriminators(fields, Some(owner))
  {
    r := fields;
    var at := IndexOf(r, "properties");
    if at.Some? && r[at.value].value.Obj? {
      var props := SetDiscriminatorTitles(r[at.value].value.fields, owner);
      r := r[at.value := Field("properties", Obj(props))];
    }
    forall i | 0 <= i < |fields| ensures r[i] == TitledMember(fields[i], owner) {
      if at.Some? && i != at.value {
        assert fields[i].key != fields[at.value].key;
      }
    }
    assert r == WithDiscriminators(fields, Some(owner));
  }

  /** `annotate_schema` */
  method AnnotateSchema(value: Json, base: Option<string>) returns (r: Json)
    requires DistinctKeys(value)
    ensures r == Annotate(value, base)
    decreases Height(value), 2
  {
    match value {
      case Obj(fields) =>
        var annotated := AnnotateObjectInPlace(fields, base);
        r := Obj(annotated);
      case Arr(items) =>
        var out := items;
        for n := 0 to |items|
          invariant |out| == |items|
          invariant forall i | 0 <= i < n :: out[i] == Annotate(items[i], base)
          invariant forall i | n <= i < |items| :: out[i] == items[i]
        {
          ItemHeight(items, n);
          var item := AnnotateSchema(out[n], base);
          out := out[n := item];
        }
        assert out == Annotate(value, base).items;
        r := Arr(out);
      case _ => r := value;
    }
  }

  /** Titles on discriminators neither deepen an object nor repeat a key. */
  lemma PreparedFields(fields: seq<Field>, owner: Option<string>)
    requires DistinctKeys(Obj(fields))
    ensures var prepared := Obj(WithDiscriminators(fields, owner));
      DistinctKeys(prepared) && Height(prepared) <= Height(Obj(fields))
  {
    WithDiscriminatorsDistinct(fields, owner);
    forall i | 0 <= i < |fields| ensures Height(WithDiscriminators(fields, owner)[i].value) <= MaxFieldHeight(fields) {
      WithDiscriminatorsHeight(fields, owner, i);
    }
    FieldsBound(WithDiscriminators(fields, owner), MaxFieldHeight(fields));
  }

  /** `annotate_variant_list`: titles first seen are collected, then each variant is titled and annotated in turn. */
  method AnnotateVariantList(variants: seq<Json>, base: Option<string>) returns (r: seq<Json>)
    requires DistinctKeys(Arr(variants))
    ensures Arr(r) == AnnotateMember("oneOf", Arr(variants), base)
    decreases Height(Arr(variants)), 0
  {
    var seen := Titles(variants);
    ghost var titled := TitledVariants(variants, seen, base);
    r := variants;
    assert variants[0..] == variants && titled[0..] == titled;
    for n := 0 to |variants|
      invariant |r| == |variants|
      invariant forall i | 0 <= i < n :: r[i] == Annotate(titled[i], base)
      invariant forall i | n <= i < |variants| :: r[i] == variants[i]
      invariant TitledVariants(variants[n..], seen, base) == titled[n..]
    {
      var variant := variants[n];
      assert variants[n..][0] == variant && variants[n..][1..] == variants[n + 1..];
      assert titled[n..][0] == titled[n] && titled[n..][1..] == titled[n + 1..];
      TitledVariantsHeight(variants, Titles(variants), base, n);
      var name := DerivedName(variant, base);
      if name.Some? {
        var candidate := ChooseTitle(name.value, seen);
        WithTitleDistinct(variant, candidate);
        variant := WithTitle(variant, candidate);
        seen := seen + {candidate};
      }
      assert variant == titled[n];
      if VariantTitle(variant).Some? {
        DiscriminatorsFirst(variant.fields, base);
        PreparedFields(variant.fields, VariantTitle(variant));
        var fields := SetDiscriminatorsOfObject(variant.fields, VariantTitle(variant).value);
        variant := Obj(fields);
      }
      variant := AnnotateSchema(variant, base);
      r := r[n := variant];
    }
    assert r == AnnotateMember("oneOf", Arr(variants), base).items;
  }

  /** The entries of an object annotated one by one, each under its own key or under the given base. */
  method AnnotateEntries(fields: seq<Field>, base: Option<string>, underOwnKey: bool) returns (r: seq<Field>)
    requires DistinctKeys(Obj(fields))
    ensures |r| == |fields|
    ensures forall i | 0 <= i < |fields| ::
      r[i] == Field(fields[i].key, Annotate(fields[i].value, if underOwnKey then Some(fields[i].key) else base))
    decreases Height(Obj(fields)), 0
  {
    r := fields;
    for n := 0 to |fields|
      invariant |r| == |fields|
      invariant forall i | 0 <= i < n :: r[i] == Field(fields[i].key, Annotate(fields[i].value, if underOwnKey then Some(fields[i].key) else base))
      invariant forall i | n <= i < |fields| :: r[i] == fields[i]
    {
      FieldHeight(fields, n);
      var value := AnnotateSchema(r[n].value, if underOwnKey then Some(r[n].key) else base);
      r := r[n := Field(r[n].key, value)];
    }
  }

  /** What is done to the value found under one of the keys the annotator looks up. */
  method AnnotateUnderKey(key: string, v: Json, base: Option<string>) returns (r: Json)
    requires DistinctKeys(v)
    ensures r == AnnotateMember(key, v, base)
    decreases Height(v), 3
  {
    r := v;
    if HoldsVariants(key) {
      if v.Arr? {
        var variants := AnnotateVariantList(v.items, base);
        r := Arr(variants);
      }
    } else if HoldsDefinitions(key) {
      if v.Obj? {
        var fields := AnnotateEntries(v.fields, base, true);
        r := Obj(fields);
        assert fields == AnnotateMember(key, v, base).fields;
      }
    } else if key == "properties" {
      if v.Obj? {
        var fields := AnnotateEntries(v.fields, base, false);
        r := Obj(fields);
        assert fields == AnnotateMember(key, v, base).fields;
      }
    } else {
      r := AnnotateSchema(v, base);
    }
  }

  /** The lookups of `annotate_object`: each of the named keys in turn, its entry annotated where it is found. */
  method AnnotateNamedEntries(fields: seq<Field>, base: Option<string>) returns (r: seq<Field>)
    requires DistinctKeys(Obj(fields))
    ensures |r| == |fields|
    ensures forall i | 0 <= i < |fields| ::
      r[i] == if fields[i].key in NAMED_KEYS then Field(fields[i].key, AnnotateMember(fields[i].key, fields[i].value, base)) else fields[i]
    decreases Height(Obj(fields)), 0
  {
    r := fields;
    for k := 0 to |NAMED_KEYS|
      invariant |r| == |fields|
      invariant forall i | 0 <= i < |fields| && fields[i].key in NAMED_KEYS[..k] ::
        r[i] == Field(fields[i].key, AnnotateMember(fields[i].key, fields[i].value, base))
      invariant forall i | 0 <= i < |fields| && fields[i].key !in NAMED_KEYS[..k] :: r[i] == fields[i]
    {
      var key := NAMED_KEYS[k];
      assert key !in NAMED_KEYS[..k];
      assert NAMED_KEYS[..k + 1] == NAMED_KEYS[..k] + [key];
      assert forall i | 0 <= i < |fields| :: r[i].key == fields[i].key;
      var at := IndexOf(r, key);
      if at.Some? {
        assert r[at.value] == fields[at.value];
        assert forall i | 0 <= i < |fields| && i != at.value :: fields[i].key != key;
        FieldHeight(fields, at.value);
        var value := AnnotateUnderKey(key, r[at.value].value, base);
        r := r[at.value := Field(key, value)];
      }
    }
    assert NAMED_KEYS[..|NAMED_KEYS|] == NAMED_KEYS;
  }

  /** The last loop of `annotate_object`: every entry whose key has no treatment of its own. */
  method AnnotateOtherEntries(fields: seq<Field>, base: Option<string>) returns (r: seq<Field>)
    requires forall i | 0 <= i < |fields| && fields[i].key !in NAMED_KEYS :: DistinctKeys(fields[i].value)
    ensures |r| == |fields|
    ensures forall i | 0 <= i < |fields| ::
      r[i] == if fields[i].key in NAMED_KEYS then fields[i] else Field(fields[i].key, Annotate(fields[i].value, base))
    decreases OtherHeight(fields), 3
  {
    r := fields;
    for n := 0 to |fields|
      invariant |r| == |fields|
      invariant forall i | 0 <= i < n ::
        r[i] == if fields[i].key in NAMED_KEYS then fields[i] else Field(fields[i].key, Annotate(fields[i].value, base))
      invariant forall i | n <= i < |fields| :: r[i] == fields[i]
    {
      if r[n].key !in NAMED_KEYS {
        OtherHeightAt(fields, n);
        var value := AnnotateSchema(r[n].value, base);
        r := r[n := Field(r[n].key, value)];
      }
    }
  }

  /** The height of the entries the last loop descends into. */
  ghost function OtherHeight(fields: seq<Field>): nat {
    if fields == [] then 0
    else if fields[0].key in NAMED_KEYS then OtherHeight(fields[1..])
    else Max(Height(fields[0].value), OtherHeight(fields[1..]))
  }

  lemma {:induction false} OtherHeightAt(fields: seq<Field>, n: nat)
    requires n < |fields| && fields[n].key !in NAMED_KEYS
    ensures Height(fields[n].value) <= OtherHeight(fields)
  {
    if n > 0 {
      OtherHeightAt(fields[1..], n - 1);
    }
  }

  lemma {:induction false} OtherHeightBound(fields: seq<Field>, bound: nat)
    requires forall i | 0 <= i < |fields| && fields[i].key !in NAMED_KEYS :: Height(fields[i].value) <= bound
    ensures OtherHeight(fields) <= bound
  {
    if fields != [] {
      assert forall i | 0 <= i < |fields[1..]| :: fields[1..][i] == fields[i + 1];
      OtherHeightBound(fields[1..], bound);
    }
  }

  lemma UnnamedKeyIsPlain(key: string, v: Json, base: Option<string>)
    requires key !in NAMED_KEYS
    ensures AnnotateMember(key, v, base) == Annotate(v, base)
  {
    assert NAMED_KEYS[0] == "oneOf" && NAMED_KEYS[1] == "anyOf" && NAMED_KEYS[2] == "definitions"
        && NAMED_KEYS[3] == "$defs" && NAMED_KEYS[4] == "properties";
  }

  /** `annotate_object`: discriminators, then the keys with a treatment of their own, then all other entries. */
  method AnnotateObjectInPlace(fields: seq<Field>, base: Option<string>) returns (r: seq<Field>)
    requires DistinctKeys(Obj(fields))
    ensures Obj(r) == Annotate(Obj(fields), base)
    decreases Height(Obj(fields)), 1
  {
    var owner := VariantTitle(Obj(fields));
    var prepared := fields;
    if owner.Some? {
      prepared := SetDiscriminatorsOfObject(fields, owner.value);
    }
    assert prepared == WithDiscriminators(fields, owner);
    WithDiscriminatorsDistinct(fields, owner);
    forall i | 0 <= i < |prepared| ensures Height(prepared[i].value) <= MaxFieldHeight(fields) {
      WithDiscriminatorsHeight(fields, owner, i);
    }
    FieldsBound(prepared, MaxFieldHeight(fields));
    var named := AnnotateNamedEntries(prepared, base);
    OtherHeightBound(named, MaxFieldHeight(fields));
    r := AnnotateOtherEntries(named, base);
    AnnotateObject(fields, base);
    forall i | 0 <= i < |prepared| ensures r[i] == AnnotatedFields(fields, owner, base)[i] {
      if prepared[i].key !in NAMED_KEYS {
        UnnamedKeyIsPlain(prepared[i].key, prepared[i].value, base);
      }
    }
    assert r == AnnotatedFields(fields, owner, base);
  }
}
