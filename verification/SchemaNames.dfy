/**
  Which names the annotator gives: how a word becomes part of one, which
  member of a variant decides, and where in a document titles appear.
*/
module SchemaNames {
  import opened Wrappers
  import opened Text
  import opened JsonValues
  import opened SchemaAnnotate

  // --- Words --------------------------------------------------------------------------------------------

  const SMALL := "abcdefghijklmnopqrstuvwxyz"
  const CAPITAL := "ABCDEFGHIJKLMNOPQRSTUVWXYZ"

  lemma UpperIs(c: char)
    ensures c !in SMALL ==> Upper(c) == c
    ensures forall i | 0 <= i < 26 && SMALL[i] == c :: Upper(c) == CAPITAL[i]
  {
    forall i | 0 <= i < 26 ensures SMALL[i] == 'a' + (i as char) && CAPITAL[i] == 'A' + (i as char) {}
    if 'a' <= c <= 'z' {
      assert SMALL[c as int - 'a' as int] == c;
    }
  }

  /** No underscore and no hyphen in it. */
  predicate IsWord(s: string) {
    '_' !in s && '-' !in s
  }

  function Capitalized(word: string): string {
    if word == [] then [] else [Upper(word[0])] + word[1..]
  }

  /** The words with an underscore or a hyphen between neighbours. */
  function Hyphenated(words: seq<string>, cuts: string): string
    requires |words| == |cuts| + 1
  {
    if cuts == [] then words[0] else words[0] + [cuts[0]] + Hyphenated(words[1..], cuts[1..])
  }

  function AllCapitalized(words: seq<string>): string {
    if words == [] then [] else Capitalized(words[0]) + AllCapitalized(words[1..])
  }

  lemma {:induction false} PascalWord(word: string, rest: string, capitalizeNext: bool)
    requires IsWord(word)
    ensures PascalFrom(word + rest, capitalizeNext) ==
      (if capitalizeNext then Capitalized(word) else word) + PascalFrom(rest, capitalizeNext && word == [])
  {
    if word == [] {
      assert word + rest == rest;
    } else {
      assert (word + rest)[1..] == word[1..] + rest;
      PascalWord(word[1..], rest, false);
      assert word == [word[0]] + word[1..];
    }
  }

  /** Underscores and hyphens go, and every word begins with a capital. */
  lemma {:induction false} PascalOfWords(words: seq<string>, cuts: string)
    requires |words| == |cuts| + 1 && (forall i | 0 <= i < |words| :: IsWord(words[i]))
    requires forall i | 0 <= i < |cuts| :: cuts[i] == '_' || cuts[i] == '-'
    ensures ToPascalCase(Hyphenated(words, cuts)) == AllCapitalized(words)
    decreases |cuts|
  {
    if cuts == [] {
      PascalWord(words[0], [], true);
      assert words[0] + [] == words[0];
      assert words[1..] == [];
    } else {
      var rest := Hyphenated(words[1..], cuts[1..]);
      assert Hyphenated(words, cuts) == words[0] + ([cuts[0]] + rest);
      PascalWord(words[0], [cuts[0]] + rest, true);
      assert ([cuts[0]] + rest)[1..] == rest;
      PascalOfWords(words[1..], cuts[1..]);
    }
  }

  // --- The name of a variant -----------------------------------------------------------------------------

  ghost predicate HasEntry(v: Json, key: string, value: Json) {
    v.Obj? && Field(key, value) in v.fields
  }

  /** The literal a property is limited to: its `const`, or else the first value of its `enum`. */
  ghost predicate LimitedTo(v: Json, text: string) {
    || HasEntry(v, "const", Str(text))
    || ((forall s :: !HasEntry(v, "const", Str(s))) && exists items :: HasEntry(v, "enum", Arr(items)) && items != [] && items[0] == Str(text))
  }

  ghost predicate PropertySays(variant: Json, key: string, text: string) {
    exists props, prop :: HasEntry(variant, "properties", Obj(props)) && Field(key, prop) in props && LimitedTo(prop, text)
  }

  ghost predicate OnlyProperty(variant: Json, key: string) {
    exists prop :: HasEntry(variant, "properties", Obj([Field(key, prop)]))
  }

  ghost predicate OnlyRequired(variant: Json, key: string) {
    HasEntry(variant, "required", Arr([Str(key)]))
  }

  /** What follows the method in a name. */
  function AfterMethod(base: string): string {
    if base in {"ClientRequest", "ServerRequest"} then "Request"
    else if base in {"ClientNotification", "ServerNotification"} then "Notification"
    else base
  }

  /**
    The name of a variant: from the method it is limited to, or else from its
    type, or else from its only property, or else from its only required one.
  */
  ghost predicate IsNamed(base: string, variant: Json, name: string) {
    if exists m :: PropertySays(variant, "method", m) then
      exists m :: PropertySays(variant, "method", m) && name == ToPascalCase(m) + AfterMethod(base)
    else if exists t :: PropertySays(variant, "type", t) then
      exists t :: PropertySays(variant, "type", t) && name == ToPascalCase(t) + base
    else if exists key :: OnlyProperty(variant, key) then
      exists key :: OnlyProperty(variant, key) && name == ToPascalCase(key) + base
    else
      exists key :: OnlyRequired(variant, key) && name == ToPascalCase(key) + base
  }

  lemma EntryIff(v: Json, key: string, value: Json)
    requires DistinctKeys(v)
    ensures HasEntry(v, key, value) <==> Member(v, key) == Some(value)
  {
    if v.Obj? {
      GetMeaning(v.fields, key);
      if HasEntry(v, key, value) {
        var i :| 0 <= i < |v.fields| && v.fields[i] == Field(key, value);
        GetAt(v.fields, i);
      }
    }
  }

  lemma LiteralIff(v: Json, text: string)
    requires DistinctKeys(v)
    ensures LimitedTo(v, text) <==> StringLiteral(v) == Some(text)
  {
    forall s ensures HasEntry(v, "const", Str(s)) <==> Member(v, "const") == Some(Str(s)) {
      EntryIff(v, "const", Str(s));
    }
    forall items ensures HasEntry(v, "enum", Arr(items)) <==> Member(v, "enum") == Some(Arr(items)) {
      EntryIff(v, "enum", Arr(items));
    }
  }

  lemma DistinctMember(v: Json, key: string)
    requires DistinctKeys(v) && Member(v, key).Some?
    ensures DistinctKeys(Member(v, key).value)
  {
    GetMeaning(v.fields, key);
  }

  /** What the properties of a variant, if it has any, say. */
  function PropertyLiteral(variant: Json, key: string): Option<string> {
    match Member(variant, "properties")
    case Some(Obj(props)) => LiteralFromProperty(props, key)
    case _ => None
  }

  lemma PropertySaysIff(variant: Json, key: string, text: string)
    requires DistinctKeys(variant)
    ensures PropertySays(variant, key, text) <==> PropertyLiteral(variant, key) == Some(text)
  {
    match Member(variant, "properties") {
      case Some(Obj(props)) =>
        DistinctMember(variant, "properties");
        EntryIff(variant, "properties", Obj(props));
        GetMeaning(props, key);
        if HasKey(props, key) {
          var prop := Get(props, key).value;
          DistinctMember(Obj(props), key);
          LiteralIff(prop, text);
          assert Field(key, prop) in props;
        }
        if PropertySays(variant, key, text) {
          var others, prop :| HasEntry(variant, "properties", Obj(others)) && Field(key, prop) in others && LimitedTo(prop, text);
          EntryIff(variant, "properties", Obj(others));
          EntryIff(Obj(props), key, prop);
        }
      case _ =>
        forall props ensures !HasEntry(variant, "properties", Obj(props)) {
          EntryIff(variant, "properties", Obj(props));
        }
    }
  }

  lemma SaysIff(variant: Json, key: string)
    requires DistinctKeys(variant)
    ensures (exists text :: PropertySays(variant, key, text)) <==> PropertyLiteral(variant, key).Some?
  {
    var literal := PropertyLiteral(variant, key);
    if literal.Some? {
      PropertySaysIff(variant, key, literal.value);
    }
    if text :| PropertySays(variant, key, text) {
      PropertySaysIff(variant, key, text);
    }
  }

  lemma OnlyIff(variant: Json, key: string)
    requires DistinctKeys(variant)
    ensures OnlyProperty(variant, key) <==> exists prop :: Member(variant, "properties") == Some(Obj([Field(key, prop)]))
    ensures OnlyRequired(variant, key) <==> Member(variant, "required") == Some(Arr([Str(key)]))
  {
    forall prop ensures HasEntry(variant, "properties", Obj([Field(key, prop)])) <==> Member(variant, "properties") == Some(Obj([Field(key, prop)])) {
      EntryIff(variant, "properties", Obj([Field(key, prop)]));
    }
    EntryIff(variant, "required", Arr([Str(key)]));
  }

  lemma NamedByLiteral(base: string, variant: Json, name: string)
    requires DistinctKeys(variant)
    requires PropertyLiteral(variant, "method").Some? || PropertyLiteral(variant, "type").Some?
    ensures VariantDefinitionName(base, variant) == Some(name) <==> IsNamed(base, variant, name)
  {
    SaysIff(variant, "method");
    SaysIff(variant, "type");
    var key := if PropertyLiteral(variant, "method").Some? then "method" else "type";
    forall text ensures PropertySays(variant, key, text) <==> PropertyLiteral(variant, key) == Some(text) {
      PropertySaysIff(variant, key, text);
    }
  }

  lemma NamedByKey(base: string, variant: Json, name: string)
    requires DistinctKeys(variant)
    requires PropertyLiteral(variant, "method").None? && PropertyLiteral(variant, "type").None?
    ensures VariantDefinitionName(base, variant) == Some(name) <==> IsNamed(base, variant, name)
  {
    SaysIff(variant, "method");
    SaysIff(variant, "type");
    forall key
      ensures OnlyProperty(variant, key) <==> exists prop :: Member(variant, "properties") == Some(Obj([Field(key, prop)]))
      ensures OnlyRequired(variant, key) <==> Member(variant, "required") == Some(Arr([Str(key)]))
    {
      OnlyIff(variant, key);
    }
    match Member(variant, "properties") {
      case Some(Obj(props)) =>
        if |props| == 1 {
          assert props == [Field(props[0].key, props[0].value)];
          assert OnlyProperty(variant, props[0].key);
        } else {
          ByRequired(variant);
        }
      case _ => ByRequired(variant);
    }
  }

  lemma ByRequired(variant: Json)
    ensures match Member(variant, "required")
      case Some(Arr(required)) => |required| == 1 && required[0].Str? ==> required == [Str(required[0].s)]
      case _ => true
  {
  }

  /** The name that is derived is the one described, and there is none exactly if none is described. */
  lemma NameIs(base: string, variant: Json, name: string)
    requires DistinctKeys(variant)
    ensures VariantDefinitionName(base, variant) == Some(name) <==> IsNamed(base, variant, name)
  {
    if PropertyLiteral(variant, "method").Some? || PropertyLiteral(variant, "type").Some? {
      NamedByLiteral(base, variant, name);
    } else {
      NamedByKey(base, variant, name);
    }
  }

  // --- Titles in a document ---------------------------------------------------------------------------------

  /** The name, or the name with the first number from 2 on that makes it new. */
  ghost predicate NumberedName(title: string, name: string, taken: set<string>) {
    && title !in taken
    && (title == name || (name in taken && exists k: nat :: IsNumbered(title, name, k, taken)))
  }

  ghost predicate IsNumbered(title: string, name: string, k: nat, taken: set<string>) {
    k >= 2 && title == name + Decimal(k) && forall j: nat | 2 <= j < k :: name + Decimal(j) in taken
  }

  lemma FreshIsNumbered(name: string, taken: set<string>)
    ensures NumberedName(FreshTitle(name, taken), name, taken)
  {
    FreshTitleMeaning(name, taken);
    var k: nat :| 1 <= k && FreshTitle(name, taken) == Candidate(name, k) && forall j | 1 <= j < k :: Candidate(name, j) in taken;
    if k >= 2 {
      assert Candidate(name, 1) == name;
      forall j: nat | 2 <= j < k ensures name + Decimal(j) in taken {
        assert Candidate(name, j) == name + Decimal(j);
      }
      assert IsNumbered(FreshTitle(name, taken), name, k, taken);
    }
  }

  /** The titles of a list after those before `i` were given. */
  function TakenBefore(variants: seq<Json>, seen: set<string>, base: Option<string>, i: nat): set<string>
    requires i <= |variants|
  {
    if i == 0 then seen else TakenBefore(variants[1..], SeenAfter(variants[0], seen, base), base, i - 1)
  }

  lemma {:induction false} TitledAt(variants: seq<Json>, seen: set<string>, base: Option<string>, i: nat)
    requires i < |variants|
    ensures TitledVariants(variants, seen, base)[i] ==
      var name := DerivedName(variants[i], base);
      if name.None? then variants[i] else WithTitle(variants[i], FreshTitle(name.value, TakenBefore(variants, seen, base, i)))
  {
    if i > 0 {
      TitledAt(variants[1..], SeenAfter(variants[0], seen, base), base, i - 1);
    }
  }

  /** What is taken when a variant is titled: the titles of the list, and those given to variants before it. */
  lemma {:induction false} TakenIs(variants: seq<Json>, seen: set<string>, base: Option<string>, i: nat, t: string)
    requires i <= |variants|
    ensures t in TakenBefore(variants, seen, base, i) <==>
      t in seen || exists j | 0 <= j < i :: GivenAt(variants, seen, base, j, t)
  {
    if i > 0 {
      var rest, seen' := variants[1..], SeenAfter(variants[0], seen, base);
      TakenIs(rest, seen', base, i - 1, t);
      assert GivenAt(variants, seen, base, 0, t) <==> DerivedName(variants[0], base).Some? && t == FreshTitle(DerivedName(variants[0], base).value, seen) by {
        if DerivedName(variants[0], base).Some? {
          TitleOfTitled(variants[0], FreshTitle(DerivedName(variants[0], base).value, seen), base.value);
        }
      }
      forall j | 1 <= j < i ensures GivenAt(variants, seen, base, j, t) <==> GivenAt(rest, seen', base, j - 1, t) {
        TitledAt(variants, seen, base, j);
        TitledAt(rest, seen', base, j - 1);
      }
      if j :| 0 <= j < i - 1 && GivenAt(rest, seen', base, j, t) {
        assert GivenAt(variants, seen, base, j + 1, t);
      }
    }
  }

  predicate GivenAt(variants: seq<Json>, seen: set<string>, base: Option<string>, j: nat, t: string)
    requires j < |variants|
  {
    DerivedName(variants[j], base).Some? && VariantTitle(TitledVariants(variants, seen, base)[j]) == Some(t)
  }

  /** After annotating a list, the titles taken when a variant had its turn are those of the list and of the variants before. */
  lemma TakenInAnnotated(variants: seq<Json>, base: Option<string>, j: nat)
    requires j <= |variants|
    ensures TakenBefore(variants, Titles(variants), base, j) == Titles(variants) + Titles(AnnotatedVariants(variants, base)[..j])
  {
    var seen, out := Titles(variants), AnnotatedVariants(variants, base);
    var titled := TitledVariants(variants, seen, base);
    forall l | 0 <= l < j ensures VariantTitle(out[l]) == VariantTitle(titled[l]) {
      NameabilityKept(titled[l], base);
      TitledAt(variants, seen, base, l);
    }
    forall t ensures t in TakenBefore(variants, seen, base, j) <==> t in seen + Titles(out[..j]) {
      TakenIs(variants, seen, base, j, t);
      TitlesOfFront(variants, base, j, t);
    }
  }

  lemma TitlesOfFront(variants: seq<Json>, base: Option<string>, j: nat, t: string)
    requires j <= |variants|
    ensures t in Titles(variants) || t in Titles(AnnotatedVariants(variants, base)[..j]) <==>
      t in Titles(variants) || exists l | 0 <= l < j :: GivenAt(variants, Titles(variants), base, l, t)
  {
    var seen, out := Titles(variants), AnnotatedVariants(variants, base);
    var titled := TitledVariants(variants, seen, base);
    forall l | 0 <= l < j ensures out[..j][l] == out[l] && VariantTitle(out[l]) == VariantTitle(titled[l]) {
      NameabilityKept(titled[l], base);
    }
    if l :| 0 <= l < j && GivenAt(variants, seen, base, l, t) {
      assert VariantTitle(out[..j][l]) == Some(t);
    }
    if t in Titles(out[..j]) {
      var l :| 0 <= l < |out[..j]| && VariantTitle(out[..j][l]).Some? && VariantTitle(out[..j][l]).value == t;
      TitledAt(variants, seen, base, l);
      if !GivenAt(variants, seen, base, l, t) {
        assert VariantTitle(variants[l]) == Some(t);
      }
    }
  }

  /**
    In an annotated document, under `oneOf` and `anyOf` alike, a variant
    without a title is titled with the name described above, or with the first
    number behind it that no title of the list and no title given before has.
  */
  lemma VariantIsTitled(fields: seq<Field>, base: string, i: nat, variants: seq<Json>, j: nat, name: string)
    requires DistinctKeys(Obj(fields)) && i < |fields| && j < |variants|
    requires fields[i] == Field("oneOf", Arr(variants)) || fields[i] == Field("anyOf", Arr(variants))
    requires VariantTitle(variants[j]).None? && IsNamed(base, variants[j], name)
    ensures var out := AnnotatedVariants(variants, Some(base));
      && Annotate(Obj(fields), Some(base)).Obj? && i < |Annotate(Obj(fields), Some(base)).fields|
      && Annotate(Obj(fields), Some(base)).fields[i] == Field(fields[i].key, Arr(out))
      && VariantTitle(out[j]).Some?
      && NumberedName(VariantTitle(out[j]).value, name, Titles(variants) + Titles(out[..j]))
  {
    var seen := Titles(variants);
    AnnotateObject(fields, Some(base));
    assert fields[i].value == Arr(variants) && DistinctKeys(fields[i].value);
    NameIs(base, variants[j], name);
    TitledAt(variants, seen, Some(base), j);
    var title := FreshTitle(name, TakenBefore(variants, seen, Some(base), j));
    TitleOfTitled(variants[j], title, base);
    NameabilityKept(TitledVariants(variants, seen, Some(base))[j], Some(base));
    TakenInAnnotated(variants, Some(base), j);
    FreshIsNumbered(name, TakenBefore(variants, seen, Some(base), j));
  }

  /** Definitions are annotated each under its own name, everything else but unions and properties under the name it is in. */
  lemma OwnNamesForDefinitions(fields: seq<Field>, base: Option<string>, i: nat)
    requires i < |fields|
    ensures Annotate(Obj(fields), base).Obj? && |Annotate(Obj(fields), base).fields| == |fields|
    ensures var after := Annotate(Obj(fields), base).fields[i];
      && after.key == fields[i].key
      && (fields[i].key in {"definitions", "$defs"} && fields[i].value.Obj? ==>
            && after.value.Obj? && |after.value.fields| == |fields[i].value.fields|
            && forall j | 0 <= j < |fields[i].value.fields| ::
                 var d := fields[i].value.fields[j];
                 after.value.fields[j] == Field(d.key, Annotate(d.value, Some(d.key))))
      && (fields[i].key !in {"definitions", "$defs", "oneOf", "anyOf", "properties"} ==> after.value == Annotate(fields[i].value, base))
  {
    AnnotateObject(fields, base);
    assert AnnotatedFields(fields, VariantTitle(Obj(fields)), base)[i]
        == Field(fields[i].key, AnnotateMember(fields[i].key, WithDiscriminators(fields, VariantTitle(Obj(fields)))[i].value, base));
  }

  // --- Titles of discriminators -----------------------------------------------------------------------------------

  /** The property tells variants apart, by a literal, and has no title. */
  ghost predicate TellsApart(prop: Field) {
    && prop.key in {"type", "method", "mode", "status", "role", "reason"}
    && prop.value.Obj? && (exists text :: LimitedTo(prop.value, text)) && forall v :: !HasEntry(prop.value, "title", v)
  }

  lemma LacksTitleIff(prop: Field)
    requires DistinctKeys(prop.value)
    ensures LacksTitle(prop) <==> TellsApart(prop)
  {
    var literal := StringLiteral(prop.value);
    if literal.Some? {
      LiteralIff(prop.value, literal.value);
    }
    if text :| LimitedTo(prop.value, text) {
      LiteralIff(prop.value, text);
    }
    forall v ensures HasEntry(prop.value, "title", v) <==> Member(prop.value, "title") == Some(v) {
      EntryIff(prop.value, "title", v);
    }
  }

  /**
    In an annotated object with a title, a property that tells variants apart
    is titled with that title and the name of the property; every other keeps
    the title it has.
  */
  lemma DiscriminatorIsTitled(fields: seq<Field>, base: Option<string>, owner: string, i: nat, props: seq<Field>, j: nat)
    requires DistinctKeys(Obj(fields)) && HasEntry(Obj(fields), "title", Str(owner))
    requires i < |fields| && fields[i] == Field("properties", Obj(props)) && j < |props|
    ensures Annotate(Obj(fields), base).Obj? && |Annotate(Obj(fields), base).fields| == |fields|
    ensures var after := Annotate(Obj(fields), base).fields[i];
      && after.key == "properties" && after.value.Obj? && |after.value.fields| == |props| && after.value.fields[j].key == props[j].key
      && VariantTitle(after.value.fields[j].value) ==
           if TellsApart(props[j]) then Some(owner + ToPascalCase(props[j].key)) else VariantTitle(props[j].value)
  {
    EntryIff(Obj(fields), "title", Str(owner));
    assert VariantTitle(Obj(fields)) == Some(owner);
    AnnotateObject(fields, base);
    var titled := TitledProperties(props, owner);
    assert fields[i].value == Obj(props) && DistinctKeys(fields[i].value);
    LacksTitleIff(props[j]);
    StringMemberKept(titled[j].value, base, "title");
    if LacksTitle(props[j]) {
      GetAppend(props[j].value.fields, Field("title", Str(owner + ToPascalCase(props[j].key))), "title");
    }
    assert AnnotatedFields(fields, Some(owner), base)[i].value == AnnotateMember("properties", Obj(titled), base);
  }
}
