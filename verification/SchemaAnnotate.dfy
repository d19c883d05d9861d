/**
  The annotator that gives titles to the variants of union schemas and to
  their discriminator properties.
*/
module SchemaAnnotate {
  import opened Wrappers
  import opened Text
  import opened JsonValues

  const DISCRIMINATOR_KEYS := ["type", "method", "mode", "status", "role", "reason"]

  // --- Naming a variant --------------------------------------------------------------------------

  /** `const` if it is a string, else the first element of `enum` if that is one. */
  function StringLiteral(v: Json): Option<string> {
    var constant := AsString(Member(v, "const"));
    if constant.Some? then constant
    else
      match Member(v, "enum")
      case Some(Arr(items)) => if items != [] && items[0].Str? then Some(items[0].s) else None
      case _ => None
  }

  function LiteralFromProperty(props: seq<Field>, key: string): Option<string> {
    match Get(props, key)
    case None => None
    case Some(v) => StringLiteral(v)
  }

  function Upper(c: char): char {
    if 'a' <= c <= 'z' then c - 'a' + 'A' else c
  }

  function PascalFrom(s: string, capitalizeNext: bool): string {
    if s == [] then []
    else if s[0] == '_' || s[0] == '-' then PascalFrom(s[1..], true)
    else [if capitalizeNext then Upper(s[0]) else s[0]] + PascalFrom(s[1..], false)
  }

  function ToPascalCase(s: string): string {
    PascalFrom(s, true)
  }

  function MethodVariantName(base: string, literal: string): string {
    if base == "ClientRequest" || base == "ServerRequest" then ToPascalCase(literal) + "Request"
    else if base == "ClientNotification" || base == "ServerNotification" then ToPascalCase(literal) + "Notification"
    else ToPascalCase(literal) + base
  }

  function TypeVariantName(base: string, literal: string): string {
    if base == "EventMsg" then ToPascalCase(literal) + "EventMsg" else ToPascalCase(literal) + base
  }

  function NameFromProperties(base: string, variant: Json): Option<string> {
    match Member(variant, "properties")
    case Some(Obj(props)) =>
      var m := LiteralFromProperty(props, "method");
      var t := LiteralFromProperty(props, "type");
      if m.Some? then Some(MethodVariantName(base, m.value))
      else if t.Some? then Some(TypeVariantName(base, t.value))
      else if |props| == 1 then Some(ToPascalCase(props[0].key) + base)
      else None
    case _ => None
  }

  function NameFromRequired(base: string, variant: Json): Option<string> {
    match Member(variant, "required")
    case Some(Arr(required)) =>
      if |required| == 1 && required[0].Str? then Some(ToPascalCase(required[0].s) + base) else None
    case _ => None
  }

  function VariantDefinitionName(base: string, variant: Json): Option<string> {
    var name := NameFromProperties(base, variant);
    if name.Some? then name else NameFromRequired(base, variant)
  }

  function VariantTitle(v: Json): Option<string> {
    AsString(Member(v, "title"))
  }

  // --- A title no sibling has --------------------------------------------------------------------

  function Candidate(name: string, index: nat): string {
    if index < 2 then name else name + Decimal(index)
  }

  lemma CandidateInjective(name: string, i: nat, j: nat)
    requires 1 <= i && 1 <= j && Candidate(name, i) == Candidate(name, j)
    ensures i == j
  {
    if i >= 2 && j >= 2 {
      assert Candidate(name, i)[|name|..] == Decimal(i);
      assert Candidate(name, j)[|name|..] == Decimal(j);
      DecimalInjective(i, j);
    } else if i >= 2 {
      DecimalNotEmpty(i);
    } else if j >= 2 {
      DecimalNotEmpty(j);
    }
  }

  /** The candidates tried one after the other; a candidate that is taken need not be looked for again. */
  function FirstFree(name: string, index: nat, taken: set<string>): nat
    decreases |taken|
  {
    if Candidate(name, index) in taken then
      FewerTaken(taken, Candidate(name, index));
      FirstFree(name, index + 1, taken - {Candidate(name, index)})
    else index
  }

  lemma FewerTaken(taken: set<string>, x: string)
    requires x in taken
    ensures |taken - {x}| < |taken|
  {
    assert taken == (taken - {x}) + {x};
  }

  lemma {:induction false} FirstFreeIsLeast(name: string, index: nat, taken: set<string>)
    requires index >= 1
    ensures var k := FirstFree(name, index, taken);
      && k >= index && Candidate(name, k) !in taken
      && forall j | index <= j < k :: Candidate(name, j) in taken
    decreases |taken|
  {
    var c := Candidate(name, index);
    if c in taken {
      FewerTaken(taken, c);
      FirstFreeIsLeast(name, index + 1, taken - {c});
      var k := FirstFree(name, index, taken);
      if Candidate(name, k) == c {
        CandidateInjective(name, index, k);
      }
    }
  }

  function FreshTitle(name: string, seen: set<string>): string {
    Candidate(name, FirstFree(name, 1, seen))
  }

  /** The title is new, and it is the first of `name`, `name2`, `name3`, ... that is. */
  lemma FreshTitleMeaning(name: string, seen: set<string>)
    ensures FreshTitle(name, seen) !in seen
    ensures exists k: nat | 1 <= k ::
      (FreshTitle(name, seen) == Candidate(name, k) && forall j | 1 <= j < k :: Candidate(name, j) in seen)
  {
    FirstFreeIsLeast(name, 1, seen);
  }

  lemma LeastUnique(name: string, seen: set<string>, k: nat)
    requires k >= 1 && Candidate(name, k) !in seen && forall j | 1 <= j < k :: Candidate(name, j) in seen
    ensures FreshTitle(name, seen) == Candidate(name, k)
  {
    FirstFreeIsLeast(name, 1, seen);
  }

  // --- Discriminator titles ------------------------------------------------------------------------

  /** A discriminator property that is due a title: it holds a literal, is an object, and has no title yet. */
  predicate LacksTitle(prop: Field) {
    prop.key in DISCRIMINATOR_KEYS && StringLiteral(prop.value).Some? && prop.value.Obj? && !HasKey(prop.value.fields, "title")
  }

  function TitledProperty(prop: Field, owner: string): Field {
    if LacksTitle(prop) then
      Field(prop.key, Obj(prop.value.fields + [Field("title", Str(owner + ToPascalCase(prop.key)))]))
    else prop
  }

  function TitledProperties(props: seq<Field>, owner: string): seq<Field> {
    seq(|props|, i requires 0 <= i < |props| => TitledProperty(props[i], owner))
  }

  function TitledMember(f: Field, owner: string): Field {
    if f.key == "properties" && f.value.Obj? then Field(f.key, Obj(TitledProperties(f.value.fields, owner))) else f
  }

  /** The object with titles on the discriminators among its properties, if it has an owner's title to build them from. */
  function WithDiscriminators(fields: seq<Field>, owner: Option<string>): seq<Field> {
    if owner.None? then fields
    else seq(|fields|, i requires 0 <= i < |fields| => TitledMember(fields[i], owner.value))
  }

  lemma TitledPropertyHeight(prop: Field, owner: string)
    ensures Height(TitledProperty(prop, owner).value) <= Height(prop.value)
  {
    if LacksTitle(prop) {
      var title := Field("title", Str(owner + ToPascalCase(prop.key)));
      var fields := prop.value.fields + [title];
      forall i | 0 <= i < |fields| ensures Height(fields[i].value) <= MaxFieldHeight(prop.value.fields) {
        if i < |prop.value.fields| {
          FieldHeight(prop.value.fields, i);
        }
      }
      FieldsBound(fields, MaxFieldHeight(prop.value.fields));
    }
  }

  lemma TitledMemberHeight(f: Field, owner: string)
    ensures Height(TitledMember(f, owner).value) <= Height(f.value)
  {
    if f.key == "properties" && f.value.Obj? {
      var props := f.value.fields;
      forall i | 0 <= i < |props| ensures Height(TitledProperties(props, owner)[i].value) <= MaxFieldHeight(props) {
        TitledPropertyHeight(props[i], owner);
        FieldHeight(props, i);
      }
      FieldsBound(TitledProperties(props, owner), MaxFieldHeight(props));
    }
  }

  lemma WithDiscriminatorsHeight(fields: seq<Field>, owner: Option<string>, i: nat)
    requires i < |fields|
    ensures |WithDiscriminators(fields, owner)| == |fields|
    ensures Height(WithDiscriminators(fields, owner)[i].value) <= MaxFieldHeight(fields)
  {
    FieldHeight(fields, i);
    if owner.Some? {
      TitledMemberHeight(fields[i], owner.value);
    }
  }

  // --- Titles for the variants of a union --------------------------------------------------------

  function Titles(variants: seq<Json>): set<string> {
    set i | 0 <= i < |variants| && VariantTitle(variants[i]).Some? :: VariantTitle(variants[i]).value
  }

  /** The name an untitled variant gets its title from. */
  function DerivedName(variant: Json, base: Option<string>): Option<string> {
    if VariantTitle(variant).None? && base.Some? then VariantDefinitionName(base.value, variant) else None
  }

  function WithTitle(variant: Json, title: string): Json {
    if variant.Obj? then Obj(Put(variant.fields, "title", Str(title))) else variant
  }

  /** The variants with titles, given the titles seen so far. */
  function TitledVariants(variants: seq<Json>, seen: set<string>, base: Option<string>): (r: seq<Json>)
    ensures |r| == |variants|
  {
    if variants == [] then []
    else
      var name := DerivedName(variants[0], base);
      if name.None? then [variants[0]] + TitledVariants(variants[1..], seen, base)
      else
        var title := FreshTitle(name.value, seen);
        [WithTitle(variants[0], title)] + TitledVariants(variants[1..], seen + {title}, base)
  }

  lemma WithTitleHeight(variant: Json, title: string)
    ensures Height(WithTitle(variant, title)) <= Height(variant)
  {
    if variant.Obj? {
      PutStringHeight(variant.fields, "title", title);
    }
  }

  lemma {:induction false} TitledVariantsHeight(variants: seq<Json>, seen: set<string>, base: Option<string>, i: nat)
    requires i < |variants|
    ensures Height(TitledVariants(variants, seen, base)[i]) <= MaxHeight(variants)
    decreases |variants|
  {
    var name := DerivedName(variants[0], base);
    if i > 0 {
      TitledVariantsHeight(variants[1..], if name.None? then seen else seen + {FreshTitle(name.value, seen)}, base, i - 1);
    } else if name.Some? {
      WithTitleHeight(variants[0], FreshTitle(name.value, seen));
    }
  }

  // --- The recursion -------------------------------------------------------------------------------

  predicate HoldsVariants(key: string) {
    key == "oneOf" || key == "anyOf"
  }

  predicate HoldsDefinitions(key: string) {
    key == "definitions" || key == "$defs"
  }

  function Annotate(v: Json, base: Option<string>): Json
    decreases Height(v), 1
  {
    match v
    case Arr(items) => Arr(seq(|items|, i requires 0 <= i < |items| => ItemHeight(items, i); Annotate(items[i], base)))
    case Obj(fields) =>
      var prepared := WithDiscriminators(fields, VariantTitle(v));
      Obj(seq(|prepared|, i requires 0 <= i < |prepared| =>
        WithDiscriminatorsHeight(fields, VariantTitle(v), i);
        Field(prepared[i].key, AnnotateMember(prepared[i].key, prepared[i].value, base))))
    case _ => v
  }

  /** What annotating an object does to one of its members. */
  function AnnotateMember(key: string, v: Json, base: Option<string>): Json
    decreases Height(v), 2
  {
    if HoldsVariants(key) then
      if v.Arr? then
        var titled := TitledVariants(v.items, Titles(v.items), base);
        Arr(seq(|titled|, i requires 0 <= i < |titled| =>
          TitledVariantsHeight(v.items, Titles(v.items), base, i);
          Annotate(titled[i], base)))
      else v
    else if HoldsDefinitions(key) then
      if v.Obj? then
        Obj(seq(|v.fields|, i requires 0 <= i < |v.fields| =>
          FieldHeight(v.fields, i);
          Field(v.fields[i].key, Annotate(v.fields[i].value, Some(v.fields[i].key)))))
      else v
    else if key == "properties" then
      if v.Obj? then
        Obj(seq(|v.fields|, i requires 0 <= i < |v.fields| =>
          FieldHeight(v.fields, i);
          Field(v.fields[i].key, Annotate(v.fields[i].value, base))))
      else v
    else Annotate(v, base)
  }

  // --- What annotation keeps -----------------------------------------------------------------------

  function AnnotatedFields(fields: seq<Field>, owner: Option<string>, base: Option<string>): seq<Field> {
    var prepared := WithDiscriminators(fields, owner);
    seq(|prepared|, i requires 0 <= i < |prepared| => Field(prepared[i].key, AnnotateMember(prepared[i].key, prepared[i].value, base)))
  }

  lemma AnnotateObject(fields: seq<Field>, base: Option<string>)
    ensures Annotate(Obj(fields), base) == Obj(AnnotatedFields(fields, VariantTitle(Obj(fields)), base))
  {
    var r := Annotate(Obj(fields), base).fields;
    assert r == AnnotatedFields(fields, VariantTitle(Obj(fields)), base);
  }

  /** Two lists of entries with the same keys in the same places. */
  predicate SameKeys(a: seq<Field>, b: seq<Field>) {
    |a| == |b| && forall i | 0 <= i < |a| :: a[i].key == b[i].key
  }

  lemma {:induction false} GetOfSameKeys(a: seq<Field>, b: seq<Field>, key: string) returns (i: nat)
    requires SameKeys(a, b)
    ensures HasKey(a, key) <==> HasKey(b, key)
    ensures HasKey(a, key) ==> i < |a| && a[i].key == key && Get(a, key).value == a[i].value && Get(b, key).value == b[i].value
  {
    i := 0;
    if a != [] && a[0].key != key {
      var j := GetOfSameKeys(a[1..], b[1..], key);
      i := j + 1;
    }
  }

  lemma AnnotatedKeys(fields: seq<Field>, owner: Option<string>, base: Option<string>)
    ensures SameKeys(fields, WithDiscriminators(fields, owner))
    ensures SameKeys(fields, AnnotatedFields(fields, owner, base))
  {
  }

  /** A member that is a string stays what it is, and nothing becomes a string. */
  lemma AnnotateKeepsString(key: string, v: Json, base: Option<string>)
    ensures AnnotateMember(key, v, base).Str? <==> v.Str?
    ensures v.Str? ==> AnnotateMember(key, v, base) == v
    ensures AnnotateMember(key, v, base).Obj? <==> v.Obj?
    ensures AnnotateMember(key, v, base).Arr? <==> v.Arr?
  {
  }

  /** String members, such as titles and `const` literals, survive annotation under any key but `properties`. */
  lemma StringMemberKept(v: Json, base: Option<string>, key: string)
    requires key != "properties"
    ensures AsString(Member(Annotate(v, base), key)) == AsString(Member(v, key))
  {
    if v.Obj? {
      AnnotateObject(v.fields, base);
      AnnotatedKeys(v.fields, VariantTitle(v), base);
      var after := AnnotatedFields(v.fields, VariantTitle(v), base);
      var i := GetOfSameKeys(v.fields, after, key);
      if HasKey(v.fields, key) {
        AnnotateKeepsString(key, v.fields[i].value, base);
      }
    }
  }

  /** An array member under a plain key keeps its length, and its first element if that is a string. */
  lemma ArrayMemberKept(v: Json, base: Option<string>, key: string)
    requires key == "enum" || key == "required"
    ensures Member(Annotate(v, base), key).Some? <==> Member(v, key).Some?
    ensures Member(v, key).Some? ==>
      var before, after := Member(v, key).value, Member(Annotate(v, base), key).value;
      && (after.Arr? <==> before.Arr?)
      && (before.Arr? ==> |after.items| == |before.items|)
      && (before.Arr? && |before.items| > 0 ==>
           (after.items[0].Str? <==> before.items[0].Str?) && (before.items[0].Str? ==> after.items[0] == before.items[0]))
  {
    if v.Obj? {
      AnnotateObject(v.fields, base);
      AnnotatedKeys(v.fields, VariantTitle(v), base);
      var after := AnnotatedFields(v.fields, VariantTitle(v), base);
      var i := GetOfSameKeys(v.fields, after, key);
      if HasKey(v.fields, key) {
        var before := v.fields[i].value;
        assert after[i].value == Annotate(before, base);
        if before.Arr? && |before.items| > 0 {
          assert Annotate(before, base).items[0] == Annotate(before.items[0], base);
        }
      }
    }
  }

  lemma LiteralKept(v: Json, base: Option<string>)
    ensures StringLiteral(Annotate(v, base)) == StringLiteral(v)
  {
    StringMemberKept(v, base, "const");
    ArrayMemberKept(v, base, "enum");
  }

  lemma TitledLiteral(prop: Field, owner: string)
    ensures StringLiteral(TitledProperty(prop, owner).value) == StringLiteral(prop.value)
  {
    if LacksTitle(prop) {
      var fields := prop.value.fields;
      var more := fields + [Field("title", Str(owner + ToPascalCase(prop.key)))];
      GetAppend(fields, Field("title", Str(owner + ToPascalCase(prop.key))), "const");
      GetAppend(fields, Field("title", Str(owner + ToPascalCase(prop.key))), "enum");
    }
  }

  lemma {:induction false} GetAppend(fields: seq<Field>, f: Field, key: string)
    ensures Get(fields + [f], key) == if HasKey(fields, key) then Get(fields, key) else if f.key == key then Some(f.value) else None
  {
    if fields == [] {
      assert fields + [f] == [f];
    } else {
      assert (fields + [f])[1..] == fields[1..] + [f];
      GetAppend(fields[1..], f, key);
    }
  }

  /** What annotation leaves of the member `properties`: the same keys, literals kept, objects kept. */
  lemma PropertiesKept(v: Json, base: Option<string>)
    ensures Member(Annotate(v, base), "properties").Some? <==> Member(v, "properties").Some?
    ensures Member(v, "properties").Some? ==>
      var before, after := Member(v, "properties").value, Member(Annotate(v, base), "properties").value;
      && (after.Obj? <==> before.Obj?)
      && (before.Obj? ==> SameKeys(before.fields, after.fields))
      && (before.Obj? ==> forall i | 0 <= i < |before.fields| ::
           StringLiteral(after.fields[i].value) == StringLiteral(before.fields[i].value))
  {
    if v.Obj? {
      var owner := VariantTitle(v);
      AnnotateObject(v.fields, base);
      AnnotatedKeys(v.fields, owner, base);
      var i := GetOfSameKeys(v.fields, AnnotatedFields(v.fields, owner, base), "properties");
      if HasKey(v.fields, "properties") && v.fields[i].value.Obj? {
        var props := v.fields[i].value.fields;
        var titled := WithDiscriminators(v.fields, owner)[i].value.fields;
        forall j | 0 <= j < |props| ensures StringLiteral(Annotate(titled[j].value, base)) == StringLiteral(props[j].value) {
          LiteralKept(titled[j].value, base);
          if owner.Some? {
            TitledLiteral(props[j], owner.value);
          }
        }
      }
    }
  }

  /** Whether a variant has a name to derive a title from does not depend on the base. */
  predicate Nameable(variant: Json) {
    VariantDefinitionName("", variant).Some?
  }

  lemma NameableUnderAnyBase(variant: Json, base: string)
    ensures VariantDefinitionName(base, variant).Some? <==> Nameable(variant)
  {
  }

  /** Annotation changes neither the title of a variant nor whether one can be derived. */
  lemma NameabilityKept(v: Json, base: Option<string>)
    ensures VariantTitle(Annotate(v, base)) == VariantTitle(v)
    ensures Nameable(Annotate(v, base)) <==> Nameable(v)
  {
    StringMemberKept(v, base, "title");
    PropertiesKept(v, base);
    ArrayMemberKept(v, base, "required");
    var before, after := Member(v, "properties"), Member(Annotate(v, base), "properties");
    if before.Some? && before.value.Obj? {
      var m := GetOfSameKeys(before.value.fields, after.value.fields, "method");
      var t := GetOfSameKeys(before.value.fields, after.value.fields, "type");
    }
  }

  // --- The normal form -----------------------------------------------------------------------------

  /**
    Nothing is left to annotate: titled objects have titles on their
    discriminators, and, where names can be derived (`named`), every union
    variant that could have a title has one.
  */
  ghost predicate Settled(v: Json, named: bool)
    decreases v, 0
  {
    match v
    case Arr(items) => forall i | 0 <= i < |items| :: Settled(items[i], named)
    case Obj(fields) =>
      && (VariantTitle(v).Some? ==> forall i | 0 <= i < |fields| :: SettledProperties(fields[i]))
      && forall i | 0 <= i < |fields| :: SettledMember(fields[i].key, fields[i].value, named)
    case _ => true
  }

  ghost predicate SettledMember(key: string, v: Json, named: bool)
    decreases v, 1
  {
    if HoldsVariants(key) then
      v.Arr? ==> forall i | 0 <= i < |v.items| :: SettledVariant(v.items[i], named) && Settled(v.items[i], named)
    else if HoldsDefinitions(key) then
      v.Obj? ==> forall i | 0 <= i < |v.fields| :: Settled(v.fields[i].value, true)
    else if key == "properties" then
      v.Obj? ==> forall i | 0 <= i < |v.fields| :: Settled(v.fields[i].value, named)
    else Settled(v, named)
  }

  ghost predicate SettledProperties(f: Field) {
    f.key == "properties" && f.value.Obj? ==> forall i | 0 <= i < |f.value.fields| :: !LacksTitle(f.value.fields[i])
  }

  ghost predicate SettledVariant(variant: Json, named: bool) {
    named ==> VariantTitle(variant).Some? || !Nameable(variant)
  }

  lemma {:induction false} SettledVariantsKeepTitles(variants: seq<Json>, seen: set<string>, base: Option<string>)
    requires forall i | 0 <= i < |variants| :: SettledVariant(variants[i], base.Some?)
    ensures TitledVariants(variants, seen, base) == variants
  {
    if variants != [] {
      if base.Some? {
        NameableUnderAnyBase(variants[0], base.value);
      }
      assert SettledVariant(variants[0], base.Some?);
      assert forall i | 0 <= i < |variants[1..]| :: variants[1..][i] == variants[i + 1];
      SettledVariantsKeepTitles(variants[1..], seen, base);
    }
  }

  lemma SettledDiscriminators(fields: seq<Field>, owner: Option<string>)
    requires owner.Some? ==> forall i | 0 <= i < |fields| :: SettledProperties(fields[i])
    ensures WithDiscriminators(fields, owner) == fields
  {
    if owner.Some? {
      forall i | 0 <= i < |fields| ensures TitledMember(fields[i], owner.value) == fields[i] {
        assert SettledProperties(fields[i]);
        if fields[i].key == "properties" && fields[i].value.Obj? {
          assert TitledProperties(fields[i].value.fields, owner.value) == fields[i].value.fields;
        }
      }
    }
  }

  /** A settled document is not changed by annotation. */
  lemma {:induction false} SettledIsFixed(v: Json, named: bool, base: Option<string>)
    requires Settled(v, named) && (base.Some? ==> named)
    ensures Annotate(v, base) == v
    decreases v, 0
  {
    match v {
      case Arr(items) =>
        forall i | 0 <= i < |items| ensures Annotate(items[i], base) == items[i] {
          SettledIsFixed(items[i], named, base);
        }
        assert Annotate(v, base).items == items;
      case Obj(fields) =>
        AnnotateObject(fields, base);
        SettledDiscriminators(fields, VariantTitle(v));
        forall i | 0 <= i < |fields| ensures AnnotateMember(fields[i].key, fields[i].value, base) == fields[i].value {
          SettledMemberIsFixed(fields[i].key, fields[i].value, named, base);
        }
        assert AnnotatedFields(fields, VariantTitle(v), base) == fields;
      case _ =>
    }
  }

  lemma {:induction false} SettledMemberIsFixed(key: string, v: Json, named: bool, base: Option<string>)
    requires SettledMember(key, v, named) && (base.Some? ==> named)
    ensures AnnotateMember(key, v, base) == v
    decreases v, 1
  {
    if HoldsVariants(key) {
      if v.Arr? {
        SettledVariantsKeepTitles(v.items, Titles(v.items), base);
        forall i | 0 <= i < |v.items| ensures Annotate(v.items[i], base) == v.items[i] {
          SettledIsFixed(v.items[i], named, base);
        }
        assert AnnotateMember(key, v, base).items == v.items;
      }
    } else if HoldsDefinitions(key) {
      if v.Obj? {
        forall i | 0 <= i < |v.fields| ensures Annotate(v.fields[i].value, Some(v.fields[i].key)) == v.fields[i].value {
          SettledIsFixed(v.fields[i].value, true, Some(v.fields[i].key));
        }
        assert AnnotateMember(key, v, base).fields == v.fields;
      }
    } else if key == "properties" {
      if v.Obj? {
        forall i | 0 <= i < |v.fields| ensures Annotate(v.fields[i].value, base) == v.fields[i].value {
          SettledIsFixed(v.fields[i].value, named, base);
        }
        assert AnnotateMember(key, v, base).fields == v.fields;
      }
    } else {
      SettledIsFixed(v, named, base);
    }
  }

  lemma {:induction false} TitledVariantsAreSettled(variants: seq<Json>, seen: set<string>, base: Option<string>, i: nat)
    requires i < |variants|
    ensures SettledVariant(TitledVariants(variants, seen, base)[i], base.Some?)
    decreases |variants|
  {
    var name := DerivedName(variants[0], base);
    if i > 0 {
      TitledVariantsAreSettled(variants[1..], if name.None? then seen else seen + {FreshTitle(name.value, seen)}, base, i - 1);
    } else if name.None? {
      if base.Some? {
        NameableUnderAnyBase(variants[0], base.value);
      }
    } else {
      TitleOfTitled(variants[0], FreshTitle(name.value, seen), base.value);
    }
  }

  lemma TitleOfTitled(variant: Json, title: string, base: string)
    requires VariantDefinitionName(base, variant).Some?
    ensures VariantTitle(WithTitle(variant, title)) == Some(title)
  {
    GetPut(variant.fields, "title", Str(title), "title");
  }

  /** In a titled object no discriminator lacks a title after annotation. */
  lemma AnnotatedPropertiesSettled(f: Field, owner: string, base: Option<string>)
    ensures SettledProperties(Field(f.key, AnnotateMember(f.key, TitledMember(f, owner).value, base)))
  {
    if f.key == "properties" && f.value.Obj? {
      var titled := TitledProperties(f.value.fields, owner);
      forall i | 0 <= i < |titled| ensures !LacksTitle(Field(titled[i].key, Annotate(titled[i].value, base))) {
        LiteralKept(titled[i].value, base);
        TitledPropertyHasTitle(f.value.fields[i], owner);
        if titled[i].value.Obj? {
          AnnotateObject(titled[i].value.fields, base);
          AnnotatedKeys(titled[i].value.fields, VariantTitle(titled[i].value), base);
          var j := GetOfSameKeys(titled[i].value.fields, Annotate(titled[i].value, base).fields, "title");
        }
      }
    }
  }

  lemma TitledPropertyHasTitle(prop: Field, owner: string)
    ensures !LacksTitle(TitledProperty(prop, owner))
  {
    if LacksTitle(prop) {
      GetAppend(prop.value.fields, Field("title", Str(owner + ToPascalCase(prop.key))), "title");
    }
  }

  /** Annotation under a base settles a document. */
  lemma {:induction false} AnnotateSettles(v: Json, base: Option<string>)
    ensures Settled(Annotate(v, base), base.Some?)
    decreases Height(v), 1
  {
    match v {
      case Arr(items) =>
        forall i | 0 <= i < |items| ensures Settled(Annotate(items[i], base), base.Some?) {
          ItemHeight(items, i);
          AnnotateSettles(items[i], base);
        }
      case Obj(fields) =>
        var owner := VariantTitle(v);
        var prepared := WithDiscriminators(fields, owner);
        var after := AnnotatedFields(fields, owner, base);
        AnnotateObject(fields, base);
        StringMemberKept(v, base, "title");
        forall i | 0 <= i < |fields| ensures SettledMember(after[i].key, after[i].value, base.Some?) {
          WithDiscriminatorsHeight(fields, owner, i);
          AnnotateMemberSettles(prepared[i].key, prepared[i].value, base);
        }
        if owner.Some? {
          forall i | 0 <= i < |fields| ensures SettledProperties(after[i]) {
            AnnotatedPropertiesSettled(fields[i], owner.value, base);
          }
        }
      case _ =>
    }
  }

  lemma {:induction false} AnnotateMemberSettles(key: string, v: Json, base: Option<string>)
    ensures SettledMember(key, AnnotateMember(key, v, base), base.Some?)
    decreases Height(v), 2
  {
    if HoldsVariants(key) {
      if v.Arr? {
        var titled := TitledVariants(v.items, Titles(v.items), base);
        forall i | 0 <= i < |titled|
          ensures SettledVariant(Annotate(titled[i], base), base.Some?) && Settled(Annotate(titled[i], base), base.Some?)
        {
          TitledVariantsHeight(v.items, Titles(v.items), base, i);
          AnnotateSettles(titled[i], base);
          TitledVariantsAreSettled(v.items, Titles(v.items), base, i);
          NameabilityKept(titled[i], base);
        }
      }
    } else if HoldsDefinitions(key) {
      if v.Obj? {
        forall i | 0 <= i < |v.fields| ensures Settled(Annotate(v.fields[i].value, Some(v.fields[i].key)), true) {
          FieldHeight(v.fields, i);
          AnnotateSettles(v.fields[i].value, Some(v.fields[i].key));
        }
      }
    } else if key == "properties" {
      if v.Obj? {
        forall i | 0 <= i < |v.fields| ensures Settled(Annotate(v.fields[i].value, base), base.Some?) {
          FieldHeight(v.fields, i);
          AnnotateSettles(v.fields[i].value, base);
        }
      }
    } else {
      AnnotateSettles(v, base);
    }
  }

  /** Annotation leaves a document alone exactly when it is settled. */
  lemma FixedIffSettled(v: Json, base: Option<string>)
    ensures Annotate(v, base) == v <==> Settled(v, base.Some?)
  {
    AnnotateSettles(v, base);
    if Settled(v, base.Some?) {
      SettledIsFixed(v, base.Some?, base);
    }
  }

  /** A union with one variant that has a name but no title. */
  function UntitledUnion(): Json {
    Obj([Field("oneOf", Arr([UnnamedVariant()]))])
  }

  /**
    Annotating twice is annotating once, for every document and whatever the
    two bases, exactly when the first annotation had a base to name variants
    with or the second has none either.
  */
  lemma AnnotateTwice(first: Option<string>, second: Option<string>)
    ensures (forall v :: Annotate(Annotate(v, first), second) == Annotate(v, first)) <==> first.Some? || second.None?
  {
    if first.Some? || second.None? {
      forall v ensures Annotate(Annotate(v, first), second) == Annotate(v, first) {
        AnnotateSettles(v, first);
        SettledIsFixed(Annotate(v, first), first.Some?, second);
      }
    } else {
      BaseNeeded(second.value);
    }
  }

  function UnnamedVariant(): Json {
    Obj([Field("required", Arr([Str("x")]))])
  }

  lemma UnnamedVariantFacts()
    ensures Settled(UnnamedVariant(), false)
    ensures VariantTitle(UnnamedVariant()).None? && Nameable(UnnamedVariant())
  {
    assert Settled(Str("x"), false);
    assert Settled(Arr([Str("x")]), false);
  }

  lemma BaseNeeded(base: string)
    ensures Annotate(Annotate(UntitledUnion(), None), Some(base)) != Annotate(UntitledUnion(), None)
  {
    UnnamedVariantFacts();
    var variants := Arr([UnnamedVariant()]);
    assert variants.items[0] == UnnamedVariant();
    assert SettledMember("oneOf", variants, false);
    assert !SettledMember("oneOf", variants, true);
    var v := UntitledUnion();
    assert v.fields[0] == Field("oneOf", variants);
    SettledIsFixed(v, false, None);
    FixedIffSettled(v, Some(base));
  }

  // --- Titles are unique ---------------------------------------------------------------------------

  predicate NewlyTitled(before: Json, after: Json) {
    VariantTitle(before).None? && VariantTitle(after).Some?
  }

  function SeenAfter(variant: Json, seen: set<string>, base: Option<string>): set<string> {
    var name := DerivedName(variant, base);
    if name.None? then seen else seen + {FreshTitle(name.value, seen)}
  }

  lemma TitlesOfRest(variants: seq<Json>, seen: set<string>, base: Option<string>)
    requires variants != [] && Titles(variants) <= seen
    ensures Titles(variants[1..]) <= SeenAfter(variants[0], seen, base)
  {
    forall t | t in Titles(variants[1..]) ensures t in Titles(variants) {
      var i :| 0 <= i < |variants[1..]| && VariantTitle(variants[1..][i]).Some? && VariantTitle(variants[1..][i]).value == t;
      assert variants[i + 1] == variants[1..][i];
    }
  }

  lemma {:induction false} NewTitleAvoidsSeen(variants: seq<Json>, seen: set<string>, base: Option<string>, i: nat)
    requires Titles(variants) <= seen && i < |variants|
    ensures var after := TitledVariants(variants, seen, base)[i];
      && (VariantTitle(variants[i]).Some? ==> VariantTitle(after) == VariantTitle(variants[i]))
      && (VariantTitle(variants[i]).None? ==> (VariantTitle(after).Some? <==> base.Some? && Nameable(variants[i])))
      && (NewlyTitled(variants[i], after) ==> VariantTitle(after).value !in seen)
    decreases |variants|
  {
    if i > 0 {
      TitlesOfRest(variants, seen, base);
      NewTitleAvoidsSeen(variants[1..], SeenAfter(variants[0], seen, base), base, i - 1);
    } else {
      if base.Some? {
        NameableUnderAnyBase(variants[0], base.value);
      }
      var name := DerivedName(variants[0], base);
      if name.Some? {
        FirstFreeIsLeast(name.value, 1, seen);
        TitleOfTitled(variants[0], FreshTitle(name.value, seen), base.value);
      }
    }
  }

  lemma {:induction false} NewTitlesDiffer(variants: seq<Json>, seen: set<string>, base: Option<string>, i: nat, j: nat)
    requires Titles(variants) <= seen && i < j < |variants|
    ensures var out := TitledVariants(variants, seen, base);
      NewlyTitled(variants[i], out[i]) || NewlyTitled(variants[j], out[j]) ==> VariantTitle(out[i]) != VariantTitle(out[j])
    decreases |variants|
  {
    var rest, seen' := variants[1..], SeenAfter(variants[0], seen, base);
    TitlesOfRest(variants, seen, base);
    if i > 0 {
      NewTitlesDiffer(rest, seen', base, i - 1, j - 1);
    } else {
      NewTitleAvoidsSeen(variants, seen, base, 0);
      NewTitleAvoidsSeen(variants, seen, base, j);
      NewTitleAvoidsSeen(rest, seen', base, j - 1);
      assert rest[j - 1] == variants[j];
      HeadTitleSeen(variants, seen, base);
    }
  }

  /** The first variant's final title is among the titles the rest must avoid. */
  lemma HeadTitleSeen(variants: seq<Json>, seen: set<string>, base: Option<string>)
    requires Titles(variants) <= seen && variants != []
    ensures var t := VariantTitle(TitledVariants(variants, seen, base)[0]); t.Some? ==> t.value in SeenAfter(variants[0], seen, base)
  {
    var name := DerivedName(variants[0], base);
    if name.Some? {
      TitleOfTitled(variants[0], FreshTitle(name.value, seen), base.value);
    } else if VariantTitle(variants[0]).Some? {
      assert VariantTitle(variants[0]).value in Titles(variants);
    }
  }

  function AnnotatedVariants(variants: seq<Json>, base: Option<string>): (r: seq<Json>)
    ensures |r| == |variants|
  {
    AnnotateMember("oneOf", Arr(variants), base).items
  }

  /**
    In an annotated union every variant keeps a title it had; one without a
    title gets one exactly when there is a base and a name can be derived; and
    a title newly given differs from the final titles of all other variants.
    The recursion below the variants changes none of this.
  */
  lemma NewTitlesAreUnique(variants: seq<Json>, base: Option<string>, i: nat, j: nat)
    requires i < |variants| && j < |variants| && i != j
    ensures var out := AnnotatedVariants(variants, base);
      && (VariantTitle(variants[i]).Some? ==> VariantTitle(out[i]) == VariantTitle(variants[i]))
      && (VariantTitle(variants[i]).None? ==> (VariantTitle(out[i]).Some? <==> base.Some? && Nameable(variants[i])))
      && (NewlyTitled(variants[i], out[i]) ==> VariantTitle(out[j]) != VariantTitle(out[i]))
  {
    var seen := Titles(variants);
    var titled := TitledVariants(variants, seen, base);
    NewTitleAvoidsSeen(variants, seen, base, i);
    NewTitlesDiffer(variants, seen, base, if i < j then i else j, if i < j then j else i);
    NameabilityKept(titled[i], base);
    NameabilityKept(titled[j], base);
  }
}
