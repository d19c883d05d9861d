/**
  Annotating schemas and the references in them: which references an
  annotated document has, and that moving references may be done before or
  after.
*/
module SchemaSurvivors {
  import opened Wrappers
  import opened JsonValues
  import opened SchemaAnnotate
  import opened SchemaRefs

  // --- The references that survive ----------------------------------------------------------------------

  predicate FirstTitle(fields: seq<Field>, i: nat)
    requires i < |fields|
  {
    fields[i].key == "title" && forall j | 0 <= j < i :: fields[j].key != "title"
  }

  /** This title of a union variant is no text, and a derived one is written over it. */
  predicate WrittenOver(variant: Json, base: Option<string>, i: nat)
    requires variant.Obj? && i < |variant.fields|
  {
    DerivedName(variant, base).Some? && FirstTitle(variant.fields, i)
  }

  /** The document refers to this outside of titles that are written over. */
  predicate Survives(v: Json, base: Option<string>, r: string)
    decreases v, 0
  {
    match v
    case Arr(items) => exists i | 0 <= i < |items| :: Survives(items[i], base, r)
    case Obj(fields) => exists i | 0 <= i < |fields| :: EntrySurvives(fields[i], base, r)
    case _ => false
  }

  predicate EntrySurvives(f: Field, base: Option<string>, r: string)
    decreases f, 0
  {
    IsRefEntry(f, r) || MemberSurvives(f.key, f.value, base, r)
  }

  /** Annotation goes into members by their keys, and leaves some as they are. */
  predicate MemberSurvives(key: string, v: Json, base: Option<string>, r: string)
    decreases v, 1
  {
    if HoldsVariants(key) then
      if v.Arr? then exists i | 0 <= i < |v.items| :: VariantSurvives(v.items[i], base, r) else Refers(v, r)
    else if HoldsDefinitions(key) || key == "properties" then
      if v.Obj? then exists i | 0 <= i < |v.fields| ::
        IsRefEntry(v.fields[i], r) || Survives(v.fields[i].value, BaseUnder(key, v.fields[i].key, base), r)
      else Refers(v, r)
    else Survives(v, base, r)
  }

  predicate VariantSurvives(variant: Json, base: Option<string>, r: string)
    decreases variant, 1
  {
    if variant.Obj? then exists i | 0 <= i < |variant.fields| ::
      !WrittenOver(variant, base, i) && EntrySurvives(variant.fields[i], base, r)
    else Survives(variant, base, r)
  }

  /** Definitions have names derived from their own. */
  function BaseUnder(key: string, name: string, base: Option<string>): Option<string> {
    if HoldsDefinitions(key) then Some(name) else base
  }

  // --- They are those of the annotated document -----------------------------------------------------------

  lemma TextRefersToNothing(key: string, text: string, base: Option<string>, r: string)
    ensures !MemberSurvives(key, Str(text), base, r)
    ensures !EntrySurvives(Field("title", Str(text)), base, r)
  {
    var title := Field("title", Str(text));
    assert |"title"| == 5 && |"$ref"| == 4;
    assert !MemberSurvives(title.key, title.value, base, r);
  }

  lemma TitleAppendedSurvives(fields: seq<Field>, title: string, base: Option<string>, r: string)
    ensures Survives(Obj(fields + [Field("title", Str(title))]), base, r) <==> Survives(Obj(fields), base, r)
  {
    var more := fields + [Field("title", Str(title))];
    TextRefersToNothing("title", title, base, r);
    assert !EntrySurvives(more[|fields|], base, r);
    assert forall i | 0 <= i < |fields| :: more[i] == fields[i];
    if Survives(Obj(fields), base, r) {
      var i :| 0 <= i < |fields| && EntrySurvives(fields[i], base, r);
      assert EntrySurvives(more[i], base, r);
    }
  }

  /** Titles on discriminators neither add nor cover references. */
  lemma TitledMemberSurvives(f: Field, owner: string, base: Option<string>, r: string)
    ensures MemberSurvives(f.key, TitledMember(f, owner).value, base, r) <==> MemberSurvives(f.key, f.value, base, r)
  {
    if f.key == "properties" && f.value.Obj? {
      var props := f.value.fields;
      var titled := TitledProperties(props, owner);
      forall i | 0 <= i < |props|
        ensures IsRefEntry(titled[i], r) || Survives(titled[i].value, base, r)
          <==> IsRefEntry(props[i], r) || Survives(props[i].value, base, r)
      {
        if LacksTitle(props[i]) {
          TitleAppendedSurvives(props[i].value.fields, owner + ToPascalCase(props[i].key), base, r);
        }
      }
    }
  }

  predicate OthersSurvive(fields: seq<Field>, base: Option<string>, r: string) {
    exists i | 0 <= i < |fields| :: !FirstTitle(fields, i) && EntrySurvives(fields[i], base, r)
  }

  lemma SurvivesCons(f: Field, rest: seq<Field>, base: Option<string>, r: string)
    ensures Survives(Obj([f] + rest), base, r) <==> EntrySurvives(f, base, r) || Survives(Obj(rest), base, r)
  {
    var all := [f] + rest;
    assert all[0] == f && forall i | 0 <= i < |rest| :: all[i + 1] == rest[i];
  }

  lemma OthersCons(fields: seq<Field>, base: Option<string>, r: string)
    requires fields != []
    ensures OthersSurvive(fields, base, r) <==>
      if fields[0].key == "title" then Survives(Obj(fields[1..]), base, r)
      else EntrySurvives(fields[0], base, r) || OthersSurvive(fields[1..], base, r)
  {
    var rest := fields[1..];
    assert forall i | 0 <= i < |rest| :: rest[i] == fields[i + 1];
    if fields[0].key != "title" {
      assert !FirstTitle(fields, 0);
      assert forall i | 0 <= i < |rest| :: FirstTitle(fields, i + 1) <==> FirstTitle(rest, i);
    }
  }

  lemma {:induction false} PutTitleSurvives(fields: seq<Field>, title: string, base: Option<string>, r: string)
    ensures Survives(Obj(Put(fields, "title", Str(title))), base, r) <==> OthersSurvive(fields, base, r)
  {
    var text := Field("title", Str(title));
    TextRefersToNothing("title", title, base, r);
    if fields == [] {
      SurvivesCons(text, [], base, r);
    } else {
      OthersCons(fields, base, r);
      if fields[0].key == "title" {
        SurvivesCons(text, fields[1..], base, r);
      } else {
        PutTitleSurvives(fields[1..], title, base, r);
        SurvivesCons(fields[0], Put(fields[1..], "title", Str(title)), base, r);
      }
    }
  }

  lemma {:induction false} TitledVariantSurvives(variants: seq<Json>, seen: set<string>, base: Option<string>, i: nat, r: string)
    requires i < |variants|
    ensures Survives(TitledVariants(variants, seen, base)[i], base, r) <==> VariantSurvives(variants[i], base, r)
    decreases |variants|
  {
    var name := DerivedName(variants[0], base);
    if i > 0 {
      TitledVariantSurvives(variants[1..], if name.None? then seen else seen + {FreshTitle(name.value, seen)}, base, i - 1, r);
    } else if name.Some? && variants[0].Obj? {
      PutTitleSurvives(variants[0].fields, FreshTitle(name.value, seen), base, r);
    }
  }

  /** The references of an annotated document are exactly those that survive. */
  lemma {:induction false} AnnotateRefersIff(v: Json, base: Option<string>, r: string)
    ensures Refers(Annotate(v, base), r) <==> Survives(v, base, r)
    decreases Height(v), 1
  {
    match v {
      case Arr(items) =>
        forall i | 0 <= i < |items| ensures Refers(Annotate(v, base).items[i], r) <==> Survives(items[i], base, r) {
          ItemHeight(items, i);
          AnnotateRefersIff(items[i], base, r);
        }
      case Obj(fields) =>
        var owner := VariantTitle(v);
        var annotated := AnnotatedFields(fields, owner, base);
        AnnotateObject(fields, base);
        forall i | 0 <= i < |fields| ensures EntryRefers(annotated[i], r) <==> EntrySurvives(fields[i], base, r) {
          var prepared := WithDiscriminators(fields, owner)[i];
          WithDiscriminatorsHeight(fields, owner, i);
          AnnotateKeepsString(prepared.key, prepared.value, base);
          AnnotateMemberIff(prepared.key, prepared.value, base, r);
          if owner.Some? {
            TitledMemberSurvives(fields[i], owner.value, base, r);
          }
        }
        ObjectIff(fields, annotated, base, r);
      case _ =>
    }
  }

  lemma ObjectIff(fields: seq<Field>, annotated: seq<Field>, base: Option<string>, r: string)
    requires |fields| == |annotated|
    requires forall i | 0 <= i < |fields| :: EntryRefers(annotated[i], r) <==> EntrySurvives(fields[i], base, r)
    ensures Refers(Obj(annotated), r) <==> Survives(Obj(fields), base, r)
  {
    if Refers(Obj(annotated), r) {
      var i := FieldOfRef(annotated, r);
    }
    if i :| 0 <= i < |fields| && EntrySurvives(fields[i], base, r) {
      RefersField(annotated, i, r);
    }
  }

  lemma {:induction false} AnnotateMemberIff(key: string, v: Json, base: Option<string>, r: string)
    ensures Refers(AnnotateMember(key, v, base), r) <==> MemberSurvives(key, v, base, r)
    decreases Height(v), 2
  {
    var annotated := AnnotateMember(key, v, base);
    if HoldsVariants(key) {
      if v.Arr? {
        var titled := TitledVariants(v.items, Titles(v.items), base);
        forall i | 0 <= i < |v.items| ensures Refers(annotated.items[i], r) <==> VariantSurvives(v.items[i], base, r) {
          TitledVariantsHeight(v.items, Titles(v.items), base, i);
          AnnotateRefersIff(titled[i], base, r);
          TitledVariantSurvives(v.items, Titles(v.items), base, i, r);
        }
      }
    } else if HoldsDefinitions(key) || key == "properties" {
      if v.Obj? {
        forall i | 0 <= i < |v.fields|
          ensures EntryRefers(annotated.fields[i], r)
            <==> IsRefEntry(v.fields[i], r) || Survives(v.fields[i].value, BaseUnder(key, v.fields[i].key, base), r)
        {
          FieldHeight(v.fields, i);
          AnnotatedEntryIff(v.fields[i], BaseUnder(key, v.fields[i].key, base), r);
        }
        EntriesIff(key, v.fields, annotated.fields, base, r);
      }
    } else {
      AnnotateRefersIff(v, base, r);
    }
  }

  /** The same of a definition or property with its name. */
  lemma {:induction false} AnnotatedEntryIff(f: Field, base: Option<string>, r: string)
    ensures EntryRefers(Field(f.key, Annotate(f.value, base)), r) <==> IsRefEntry(f, r) || Survives(f.value, base, r)
    decreases Height(f.value), 2
  {
    AnnotateRefersIff(f.value, base, r);
  }

  lemma EntriesIff(key: string, fields: seq<Field>, annotated: seq<Field>, base: Option<string>, r: string)
    requires |fields| == |annotated| && (HoldsDefinitions(key) || key == "properties") && !HoldsVariants(key)
    requires forall i | 0 <= i < |fields| ::
      (EntryRefers(annotated[i], r) <==> IsRefEntry(fields[i], r) || Survives(fields[i].value, BaseUnder(key, fields[i].key, base), r))
    ensures Refers(Obj(annotated), r) <==> MemberSurvives(key, Obj(fields), base, r)
  {
    if Refers(Obj(annotated), r) {
      var i := FieldOfRef(annotated, r);
    }
    if i :| 0 <= i < |fields| && (IsRefEntry(fields[i], r) || Survives(fields[i].value, BaseUnder(key, fields[i].key, base), r)) {
      RefersField(annotated, i, r);
    }
  }

  // --- When nothing is lost ---------------------------------------------------------------------------------

  lemma {:induction false} SurvivorIsReference(v: Json, base: Option<string>, r: string)
    requires Survives(v, base, r)
    ensures Refers(v, r)
    decreases v, 0
  {
    match v
    case Arr(items) =>
      var i :| 0 <= i < |items| && Survives(items[i], base, r);
      SurvivorIsReference(items[i], base, r);
    case Obj(fields) =>
      var i :| 0 <= i < |fields| && EntrySurvives(fields[i], base, r);
      EntrySurvivorIsReference(fields[i], base, r);
      RefersField(fields, i, r);
  }

  lemma {:induction false} EntrySurvivorIsReference(f: Field, base: Option<string>, r: string)
    requires EntrySurvives(f, base, r)
    ensures EntryRefers(f, r)
    decreases f, 0
  {
    var v := f.value;
    if !IsRefEntry(f, r) {
      if HoldsVariants(f.key) {
        if v.Arr? {
          var i :| 0 <= i < |v.items| && VariantSurvives(v.items[i], base, r);
          VariantSurvivorIsReference(v.items[i], base, r);
        }
      } else if HoldsDefinitions(f.key) || f.key == "properties" {
        if v.Obj? {
          var i :| 0 <= i < |v.fields|
            && (IsRefEntry(v.fields[i], r) || Survives(v.fields[i].value, BaseUnder(f.key, v.fields[i].key, base), r));
          if !IsRefEntry(v.fields[i], r) {
            SurvivorIsReference(v.fields[i].value, BaseUnder(f.key, v.fields[i].key, base), r);
          }
          RefersField(v.fields, i, r);
        }
      } else {
        SurvivorIsReference(v, base, r);
      }
    }
  }

  lemma {:induction false} VariantSurvivorIsReference(variant: Json, base: Option<string>, r: string)
    requires VariantSurvives(variant, base, r)
    ensures Refers(variant, r)
    decreases variant, 1
  {
    if variant.Obj? {
      var i :| 0 <= i < |variant.fields| && !WrittenOver(variant, base, i) && EntrySurvives(variant.fields[i], base, r);
      EntrySurvivorIsReference(variant.fields[i], base, r);
      RefersField(variant.fields, i, r);
    } else {
      SurvivorIsReference(variant, base, r);
    }
  }

  /** Annotating a document makes no references. */
  lemma AnnotateRefers(v: Json, base: Option<string>, r: string)
    requires Refers(Annotate(v, base), r)
    ensures Refers(v, r)
  {
    AnnotateRefersIff(v, base, r);
    SurvivorIsReference(v, base, r);
  }

  /** A variant whose title, if it has one, is text. */
  predicate TitleIsText(variant: Json) {
    Member(variant, "title").Some? ==> VariantTitle(variant).Some?
  }

  predicate VariantTitlesAreText(f: Field) {
    HoldsVariants(f.key) && f.value.Arr? ==> forall j | 0 <= j < |f.value.items| :: TitleIsText(f.value.items[j])
  }

  /** The same for all variants of unions in the document. */
  predicate TitlesAreText(v: Json)
    decreases v, 0
  {
    match v
    case Arr(items) => forall i | 0 <= i < |items| :: TitlesAreText(items[i])
    case Obj(fields) => forall i | 0 <= i < |fields| :: VariantTitlesAreText(fields[i]) && TitlesAreText(fields[i].value)
    case _ => true
  }

  lemma NothingWrittenOver(variant: Json, base: Option<string>, i: nat)
    requires TitleIsText(variant) && variant.Obj? && i < |variant.fields|
    ensures !WrittenOver(variant, base, i)
  {
    GetMeaning(variant.fields, "title");
  }

  lemma {:induction false} ReferenceSurvives(v: Json, base: Option<string>, r: string)
    requires TitlesAreText(v) && Refers(v, r)
    ensures Survives(v, base, r)
    decreases v, 0
  {
    match v
    case Arr(items) =>
      var i :| 0 <= i < |items| && Refers(items[i], r);
      ReferenceSurvives(items[i], base, r);
    case Obj(fields) =>
      var i := FieldOfRef(fields, r);
      EntryReferenceSurvives(fields[i], base, r);
  }

  lemma {:induction false} EntryReferenceSurvives(f: Field, base: Option<string>, r: string)
    requires VariantTitlesAreText(f) && TitlesAreText(f.value) && EntryRefers(f, r)
    ensures EntrySurvives(f, base, r)
    decreases f, 0
  {
    var v := f.value;
    if !IsRefEntry(f, r) {
      if HoldsVariants(f.key) && v.Arr? {
        var i :| 0 <= i < |v.items| && Refers(v.items[i], r);
        if v.items[i].Obj? {
          var j := FieldOfRef(v.items[i].fields, r);
          NothingWrittenOver(v.items[i], base, j);
          EntryReferenceSurvives(v.items[i].fields[j], base, r);
        } else {
          ReferenceSurvives(v.items[i], base, r);
        }
        assert VariantSurvives(v.items[i], base, r);
      } else if (HoldsDefinitions(f.key) || f.key == "properties") && v.Obj? {
        var i := FieldOfRef(v.fields, r);
        if !IsRefEntry(v.fields[i], r) {
          ReferenceSurvives(v.fields[i].value, BaseUnder(f.key, v.fields[i].key, base), r);
        }
      } else if !HoldsVariants(f.key) && !HoldsDefinitions(f.key) && f.key != "properties" {
        ReferenceSurvives(v, base, r);
      }
    }
  }

  /** With text for titles, annotating a document loses no references. */
  lemma AnnotateKeeps(v: Json, base: Option<string>, r: string)
    requires TitlesAreText(v) && Refers(v, r)
    ensures Refers(Annotate(v, base), r)
  {
    ReferenceSurvives(v, base, r);
    AnnotateRefersIff(v, base, r);
  }

  lemma NamedByRequired(variant: Json, base: string, r: string)
    requires variant == Obj([Field("title", Obj([Field("$ref", Str(r))])), Field("required", Arr([Str("a")]))])
    ensures DerivedName(variant, Some(base)).Some?
  {
    var fields := variant.fields;
    var title, required := fields[0], fields[1];
    assert |"title"| == 5 && |"required"| == 8 && |"properties"| == 10;
    GetAt(fields, 0);
    GetAt(fields, 1);
    GetMeaning(fields, "properties");
    assert Member(variant, "title") == Some(title.value);
    assert Member(variant, "properties") == None && Member(variant, "required") == Some(required.value);
  }

  lemma OnlyTitleRefers(variant: Json, base: string, r: string)
    requires variant == Obj([Field("title", Obj([Field("$ref", Str(r))])), Field("required", Arr([Str("a")]))])
    ensures !VariantSurvives(variant, Some(base), r)
  {
    var title, required := variant.fields[0], variant.fields[1];
    NamedByRequired(variant, base, r);
    assert FirstTitle(variant.fields, 0);
    assert |"required"| == 8 && |"$ref"| == 4 && |"properties"| == 10 && |"definitions"| == 11;
    assert |"oneOf"| == 5 && |"anyOf"| == 5 && |"$defs"| == 5;
    assert !Survives(required.value, Some(base), r);
    assert !EntrySurvives(required, Some(base), r);
  }

  /** A title that is no text is written over, and with it goes what it refers to. */
  lemma OtherTitleIsLost(variant: Json, base: string, r: string)
    requires variant == Obj([Field("title", Obj([Field("$ref", Str(r))])), Field("required", Arr([Str("a")]))])
    ensures var v := Obj([Field("oneOf", Arr([variant]))]);
      Refers(v, r) && !Refers(Annotate(v, Some(base)), r)
  {
    var union, reference := Field("oneOf", Arr([variant])), Field("$ref", Str(r));
    assert IsRefEntry([reference][0], r);
    RefersField([reference], 0, r);
    RefersField(variant.fields, 0, r);
    assert Refers([variant][0], r);
    RefersField([union], 0, r);
    OnlyTitleRefers(variant, base, r);
    assert |"oneOf"| == 5 && |"$ref"| == 4;
    assert !EntrySurvives(union, Some(base), r);
    AnnotateRefersIff(Obj([union]), Some(base), r);
  }

  // --- Moving and annotating commute ---------------------------------------------------------------------------

  function RewrittenEntries(fields: seq<Field>, rewrite: string -> string): seq<Field> {
    seq(|fields|, i requires 0 <= i < |fields| => RewrittenEntry(fields[i], rewrite))
  }

  lemma {:induction false} GetRewritten(fields: seq<Field>, rewrite: string -> string, key: string)
    requires key != "$ref"
    ensures Get(RewrittenEntries(fields, rewrite), key) ==
      var found := Get(fields, key); if found.None? then None else Some(Rewritten(found.value, rewrite))
  {
    if fields != [] {
      assert RewrittenEntries(fields, rewrite)[1..] == RewrittenEntries(fields[1..], rewrite);
      GetRewritten(fields[1..], rewrite, key);
    }
  }

  lemma RewrittenObject(fields: seq<Field>, rewrite: string -> string)
    ensures Rewritten(Obj(fields), rewrite) == Obj(RewrittenEntries(fields, rewrite))
  {
    assert Rewritten(Obj(fields), rewrite).fields == RewrittenEntries(fields, rewrite);
  }

  function RewrittenItems(items: seq<Json>, rewrite: string -> string): seq<Json> {
    seq(|items|, i requires 0 <= i < |items| => Rewritten(items[i], rewrite))
  }

  lemma RewrittenArray(items: seq<Json>, rewrite: string -> string)
    ensures Rewritten(Arr(items), rewrite) == Arr(RewrittenItems(items, rewrite))
  {
    assert Rewritten(Arr(items), rewrite).items == RewrittenItems(items, rewrite);
  }

  lemma MemberRewritten(v: Json, rewrite: string -> string, key: string)
    requires key != "$ref"
    ensures Member(Rewritten(v, rewrite), key) ==
      var found := Member(v, key); if found.None? then None else Some(Rewritten(found.value, rewrite))
  {
    if v.Obj? {
      RewrittenObject(v.fields, rewrite);
      GetRewritten(v.fields, rewrite, key);
    }
  }

  lemma TextRewritten(v: Json, rewrite: string -> string, key: string)
    requires key != "$ref"
    ensures AsString(Member(Rewritten(v, rewrite), key)) == AsString(Member(v, key))
  {
    MemberRewritten(v, rewrite, key);
  }

  lemma LiteralRewritten(v: Json, rewrite: string -> string)
    ensures StringLiteral(Rewritten(v, rewrite)) == StringLiteral(v)
  {
    assert |"const"| == 5 && |"enum"| == 4 && "enum"[0] == 'e' && |"$ref"| == 4 && "$ref"[0] == '$';
    TextRewritten(v, rewrite, "const");
    MemberRewritten(v, rewrite, "enum");
    var values := Member(v, "enum");
    if values.Some? && values.value.Arr? && values.value.items != [] {
      RewrittenArray(values.value.items, rewrite);
      assert RewrittenItems(values.value.items, rewrite)[0].Str? <==> values.value.items[0].Str?;
    }
  }

  lemma PropertyLiteralRewritten(props: seq<Field>, rewrite: string -> string, key: string)
    requires key != "$ref"
    ensures LiteralFromProperty(RewrittenEntries(props, rewrite), key) == LiteralFromProperty(props, key)
  {
    GetRewritten(props, rewrite, key);
    if HasKey(props, key) {
      LiteralRewritten(Get(props, key).value, rewrite);
    }
  }

  lemma PropertyNameRewritten(base: string, variant: Json, rewrite: string -> string)
    ensures NameFromProperties(base, Rewritten(variant, rewrite)) == NameFromProperties(base, variant)
  {
    assert |"properties"| == 10 && |"method"| == 6 && |"type"| == 4 && "type"[0] == 't' && |"$ref"| == 4 && "$ref"[0] == '$';
    MemberRewritten(variant, rewrite, "properties");
    var props := Member(variant, "properties");
    if props.Some? && props.value.Obj? {
      RewrittenObject(props.value.fields, rewrite);
      PropertyLiteralRewritten(props.value.fields, rewrite, "method");
      PropertyLiteralRewritten(props.value.fields, rewrite, "type");
    }
  }

  lemma RequiredNameRewritten(base: string, variant: Json, rewrite: string -> string)
    ensures NameFromRequired(base, Rewritten(variant, rewrite)) == NameFromRequired(base, variant)
  {
    assert |"required"| == 8 && |"$ref"| == 4;
    MemberRewritten(variant, rewrite, "required");
    var required := Member(variant, "required");
    if required.Some? && required.value.Arr? {
      RewrittenArray(required.value.items, rewrite);
    }
  }

  /** Names are derived from what moving does not touch. */
  lemma NameRewritten(variant: Json, base: Option<string>, rewrite: string -> string)
    ensures VariantTitle(Rewritten(variant, rewrite)) == VariantTitle(variant)
    ensures DerivedName(Rewritten(variant, rewrite), base) == DerivedName(variant, base)
  {
    assert |"title"| == 5 && |"$ref"| == 4;
    TextRewritten(variant, rewrite, "title");
    if base.Some? {
      PropertyNameRewritten(base.value, variant, rewrite);
      RequiredNameRewritten(base.value, variant, rewrite);
    }
  }

  lemma {:induction false} PutRewritten(fields: seq<Field>, title: string, rewrite: string -> string)
    ensures Put(RewrittenEntries(fields, rewrite), "title", Str(title)) == RewrittenEntries(Put(fields, "title", Str(title)), rewrite)
  {
    var text := Field("title", Str(title));
    assert |"title"| == 5 && |"$ref"| == 4;
    assert RewrittenEntry(text, rewrite) == text;
    if fields == [] {
      RewrittenCons(text, [], rewrite);
    } else {
      var rest := fields[1..];
      assert fields == [fields[0]] + rest;
      RewrittenCons(fields[0], rest, rewrite);
      if fields[0].key == "title" {
        RewrittenCons(text, rest, rewrite);
      } else {
        PutRewritten(rest, title, rewrite);
        RewrittenCons(fields[0], Put(rest, "title", Str(title)), rewrite);
      }
    }
  }

  lemma RewrittenCons(f: Field, rest: seq<Field>, rewrite: string -> string)
    ensures RewrittenEntries([f] + rest, rewrite) == [RewrittenEntry(f, rewrite)] + RewrittenEntries(rest, rewrite)
    ensures ([RewrittenEntry(f, rewrite)] + RewrittenEntries(rest, rewrite))[1..] == RewrittenEntries(rest, rewrite)
  {
  }

  lemma ItemsCons(item: Json, rest: seq<Json>, rewrite: string -> string)
    ensures RewrittenItems([item] + rest, rewrite) == [Rewritten(item, rewrite)] + RewrittenItems(rest, rewrite)
    ensures ([Rewritten(item, rewrite)] + RewrittenItems(rest, rewrite))[1..] == RewrittenItems(rest, rewrite)
  {
  }

  lemma {:induction false} TitledVariantsRewritten(variants: seq<Json>, seen: set<string>, base: Option<string>, rewrite: string -> string)
    ensures TitledVariants(RewrittenItems(variants, rewrite), seen, base) == RewrittenItems(TitledVariants(variants, seen, base), rewrite)
    decreases |variants|
  {
    if variants != [] {
      var first, rest, name := variants[0], variants[1..], DerivedName(variants[0], base);
      NameRewritten(first, base, rewrite);
      assert variants == [first] + rest;
      ItemsCons(first, rest, rewrite);
      if name.None? {
        TitledVariantsRewritten(rest, seen, base, rewrite);
        ItemsCons(first, TitledVariants(rest, seen, base), rewrite);
      } else {
        var title := FreshTitle(name.value, seen);
        TitledVariantsRewritten(rest, seen + {title}, base, rewrite);
        WithTitleRewritten(first, title, rewrite);
        ItemsCons(WithTitle(first, title), TitledVariants(rest, seen + {title}, base), rewrite);
      }
    }
  }

  lemma WithTitleRewritten(variant: Json, title: string, rewrite: string -> string)
    ensures WithTitle(Rewritten(variant, rewrite), title) == Rewritten(WithTitle(variant, title), rewrite)
  {
    if variant.Obj? {
      RewrittenObject(variant.fields, rewrite);
      PutRewritten(variant.fields, title, rewrite);
      RewrittenObject(Put(variant.fields, "title", Str(title)), rewrite);
    }
  }

  lemma TitlesRewritten(variants: seq<Json>, rewrite: string -> string)
    ensures Titles(RewrittenItems(variants, rewrite)) == Titles(variants)
  {
    forall i | 0 <= i < |variants| ensures VariantTitle(RewrittenItems(variants, rewrite)[i]) == VariantTitle(variants[i]) {
      NameRewritten(variants[i], None, rewrite);
    }
  }

  lemma NoDiscriminatorIsRef()
    ensures "$ref" !in DISCRIMINATOR_KEYS
  {
    assert DISCRIMINATOR_KEYS[0][0] == 't' && DISCRIMINATOR_KEYS[1][0] == 'm' && DISCRIMINATOR_KEYS[2][0] == 'm';
    assert DISCRIMINATOR_KEYS[3][0] == 's' && DISCRIMINATOR_KEYS[4][0] == 'r' && DISCRIMINATOR_KEYS[5][0] == 'r';
    assert "$ref"[0] == '$';
  }

  lemma AppendTitleRewritten(fields: seq<Field>, text: string, rewrite: string -> string)
    ensures Rewritten(Obj(fields + [Field("title", Str(text))]), rewrite) == Obj(RewrittenEntries(fields, rewrite) + [Field("title", Str(text))])
  {
    var title := Field("title", Str(text));
    assert |"title"| == 5 && |"$ref"| == 4;
    assert RewrittenEntry(title, rewrite) == title;
    RewrittenObject(fields + [title], rewrite);
    assert RewrittenEntries(fields + [title], rewrite) == RewrittenEntries(fields, rewrite) + [title];
  }

  lemma LacksTitleRewritten(prop: Field, rewrite: string -> string)
    requires prop.key in DISCRIMINATOR_KEYS
    ensures RewrittenEntry(prop, rewrite) == Field(prop.key, Rewritten(prop.value, rewrite))
    ensures LacksTitle(RewrittenEntry(prop, rewrite)) <==> LacksTitle(prop)
  {
    NoDiscriminatorIsRef();
    assert |"title"| == 5 && |"$ref"| == 4;
    LiteralRewritten(prop.value, rewrite);
    if prop.value.Obj? {
      RewrittenObject(prop.value.fields, rewrite);
      GetRewritten(prop.value.fields, rewrite, "title");
    }
  }

  lemma TitledPropertyRewritten(prop: Field, owner: string, rewrite: string -> string)
    ensures TitledProperty(RewrittenEntry(prop, rewrite), owner) == RewrittenEntry(TitledProperty(prop, owner), rewrite)
  {
    if prop.key in DISCRIMINATOR_KEYS {
      LacksTitleRewritten(prop, rewrite);
      if LacksTitle(prop) {
        NoDiscriminatorIsRef();
        RewrittenObject(prop.value.fields, rewrite);
        AppendTitleRewritten(prop.value.fields, owner + ToPascalCase(prop.key), rewrite);
      }
    }
  }

  lemma TitledMemberRewritten(f: Field, owner: string, rewrite: string -> string)
    ensures TitledMember(RewrittenEntry(f, rewrite), owner) == RewrittenEntry(TitledMember(f, owner), rewrite)
  {
    assert |"properties"| == 10 && |"$ref"| == 4;
    if f.key == "properties" && f.value.Obj? {
      var props := f.value.fields;
      RewrittenObject(props, rewrite);
      RewrittenObject(TitledProperties(props, owner), rewrite);
      forall i | 0 <= i < |props|
        ensures TitledProperty(RewrittenEntry(props[i], rewrite), owner) == RewrittenEntry(TitledProperty(props[i], owner), rewrite)
      {
        TitledPropertyRewritten(props[i], owner, rewrite);
      }
      assert TitledProperties(RewrittenEntries(props, rewrite), owner) == RewrittenEntries(TitledProperties(props, owner), rewrite);
    }
  }

  /** Annotating after rewriting the references is rewriting them after annotating. */
  lemma {:induction false} AnnotateRewritten(v: Json, base: Option<string>, rewrite: string -> string)
    ensures Annotate(Rewritten(v, rewrite), base) == Rewritten(Annotate(v, base), rewrite)
    decreases Height(v), 1
  {
    match v {
      case Arr(items) =>
        RewrittenArray(items, rewrite);
        forall i | 0 <= i < |items| ensures Annotate(Rewritten(items[i], rewrite), base) == Rewritten(Annotate(items[i], base), rewrite) {
          ItemHeight(items, i);
          AnnotateRewritten(items[i], base, rewrite);
        }
        assert Annotate(Rewritten(v, rewrite), base).items == Rewritten(Annotate(v, base), rewrite).items;
      case Obj(fields) =>
        var owner := VariantTitle(v);
        var moved := RewrittenEntries(fields, rewrite);
        RewrittenObject(fields, rewrite);
        NameRewritten(v, base, rewrite);
        AnnotateObject(fields, base);
        AnnotateObject(moved, base);
        var annotated := AnnotatedFields(fields, owner, base);
        RewrittenObject(annotated, rewrite);
        forall i | 0 <= i < |fields| ensures AnnotatedFields(moved, owner, base)[i] == RewrittenEntry(annotated[i], rewrite) {
          var prepared := WithDiscriminators(fields, owner)[i];
          WithDiscriminatorsHeight(fields, owner, i);
          if owner.Some? {
            TitledMemberRewritten(fields[i], owner.value, rewrite);
          }
          assert WithDiscriminators(moved, owner)[i] == RewrittenEntry(prepared, rewrite);
          AnnotateEntryRewritten(prepared, base, rewrite);
        }
        assert AnnotatedFields(moved, owner, base) == RewrittenEntries(annotated, rewrite);
      case _ =>
    }
  }

  lemma {:induction false} AnnotateEntryRewritten(f: Field, base: Option<string>, rewrite: string -> string)
    ensures var moved, annotated := RewrittenEntry(f, rewrite), Field(f.key, AnnotateMember(f.key, f.value, base));
      Field(moved.key, AnnotateMember(moved.key, moved.value, base)) == RewrittenEntry(annotated, rewrite)
    decreases Height(f.value), 3
  {
    AnnotateKeepsString(f.key, f.value, base);
    if f.key == "$ref" && f.value.Str? {
      AnnotateKeepsString(f.key, Str(rewrite(f.value.s)), base);
    } else {
      AnnotateMemberRewritten(f.key, f.value, base, rewrite);
    }
  }

  lemma {:induction false} AnnotateMemberRewritten(key: string, v: Json, base: Option<string>, rewrite: string -> string)
    ensures AnnotateMember(key, Rewritten(v, rewrite), base) == Rewritten(AnnotateMember(key, v, base), rewrite)
    decreases Height(v), 2
  {
    if HoldsVariants(key) {
      if v.Arr? {
        var titled := TitledVariants(v.items, Titles(v.items), base);
        RewrittenArray(v.items, rewrite);
        TitlesRewritten(v.items, rewrite);
        TitledVariantsRewritten(v.items, Titles(v.items), base, rewrite);
        forall i | 0 <= i < |titled| ensures Annotate(Rewritten(titled[i], rewrite), base) == Rewritten(Annotate(titled[i], base), rewrite) {
          TitledVariantsHeight(v.items, Titles(v.items), base, i);
          AnnotateRewritten(titled[i], base, rewrite);
        }
        UnionRewritten(v.items, titled, base, rewrite);
      }
    } else if HoldsDefinitions(key) || key == "properties" {
      if v.Obj? {
        RewrittenObject(v.fields, rewrite);
        var annotated := AnnotateMember(key, v, base).fields;
        RewrittenObject(annotated, rewrite);
        forall i | 0 <= i < |v.fields|
          ensures AnnotateMember(key, Obj(RewrittenEntries(v.fields, rewrite)), base).fields[i] == RewrittenEntry(annotated[i], rewrite)
        {
          FieldHeight(v.fields, i);
          AnnotatedEntryRewritten(v.fields[i], BaseUnder(key, v.fields[i].key, base), rewrite);
        }
        assert AnnotateMember(key, Obj(RewrittenEntries(v.fields, rewrite)), base).fields == RewrittenEntries(annotated, rewrite);
      }
    } else {
      AnnotateRewritten(v, base, rewrite);
    }
  }

  lemma UnionRewritten(variants: seq<Json>, titled: seq<Json>, base: Option<string>, rewrite: string -> string)
    requires titled == TitledVariants(variants, Titles(variants), base)
    requires TitledVariants(RewrittenItems(variants, rewrite), Titles(RewrittenItems(variants, rewrite)), base) == RewrittenItems(titled, rewrite)
    requires forall i | 0 <= i < |titled| :: Annotate(Rewritten(titled[i], rewrite), base) == Rewritten(Annotate(titled[i], base), rewrite)
    ensures forall key | HoldsVariants(key) ::
      AnnotateMember(key, Arr(RewrittenItems(variants, rewrite)), base) == Rewritten(AnnotateMember(key, Arr(variants), base), rewrite)
  {
    forall key | HoldsVariants(key)
      ensures AnnotateMember(key, Arr(RewrittenItems(variants, rewrite)), base) == Rewritten(AnnotateMember(key, Arr(variants), base), rewrite)
    {
      var annotated := AnnotateMember(key, Arr(variants), base).items;
      RewrittenArray(annotated, rewrite);
      assert AnnotateMember(key, Arr(RewrittenItems(variants, rewrite)), base).items == RewrittenItems(annotated, rewrite);
    }
  }

  /** The same of a definition or property with its name. */
  lemma {:induction false} AnnotatedEntryRewritten(f: Field, base: Option<string>, rewrite: string -> string)
    ensures Field(f.key, Annotate(RewrittenEntry(f, rewrite).value, base)) == RewrittenEntry(Field(f.key, Annotate(f.value, base)), rewrite)
    decreases Height(f.value), 2
  {
    if !(f.key == "$ref" && f.value.Str?) {
      AnnotateRewritten(f.value, base, rewrite);
      assert Annotate(f.value, base).Str? <==> f.value.Str?;
    }
  }
}
