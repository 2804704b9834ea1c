/** What an instantiated intent says, field by field, of the template, the form and the schema. */
module IntentTheorems {
  import opened JsText
  import opened Utf8
  import opened JsonValues
  import opened StableSort
  import opened CanonicalJson
  import opened CanonicalJsonTheorems
  import opened IntentTemplate
  import opened IntentTemplateProofs
  import opened TemplateHoles
  import ArtifactUri

  // ----- defaults come from the schema -----

  /** The schema has this property under this key; in an array of properties the key is an index. */
  ghost predicate IsProperty(schema: seq<Member>, key: Text, prop: Json) {
    match Lookup(schema, PROPERTIES)
    case Some(Obj(ms)) => Lookup(ms, key) == Some(prop)
    case Some(Arr(xs)) => exists i :: 0 <= i < |xs| && Decimal(i) == key && xs[i] == prop
    case _ => false
  }

  ghost predicate DeclaresDefault(schema: seq<Member>, key: Text, d: Json) {
    exists prop :: IsProperty(schema, key, prop) && prop.Obj? && Lookup(prop.members, DEFAULT) == Some(d)
  }

  lemma EntriesAreProperties(schema: seq<Member>, key: Text)
    requires WellFormed(Obj(schema))
    ensures WellFormed(Obj(PropertyEntries(schema)))
    ensures forall prop :: IsProperty(schema, key, prop) <==> Lookup(PropertyEntries(schema), key) == Some(prop)
  {
    PropertyEntriesAgree(schema, schema);
    var entries := PropertyEntries(schema);
    LookupIsField(entries, key);
    match Lookup(schema, PROPERTIES) {
      case Some(Arr(xs)) =>
        IndexEntriesAt(xs, 0);
        forall prop ensures IsProperty(schema, key, prop) <==> Lookup(entries, key) == Some(prop) {
          LookupIsListed(entries, key, prop);
          if Member(key, prop) in entries {
            var i :| 0 <= i < |entries| && entries[i] == Member(key, prop);
            assert Decimal(i) == key && xs[i] == prop;
          }
          if IsProperty(schema, key, prop) {
            var i :| 0 <= i < |xs| && Decimal(i) == key && xs[i] == prop;
            assert entries[i] == Member(key, prop);
          }
        }
      case _ =>
    }
  }

  /** Under a key: what the form has, or else the declared default. */
  ghost predicate Supplies(schema: seq<Member>, form: seq<Member>, key: Text, v: Json) {
    Lookup(form, key) == Some(v) || (Lookup(form, key).None? && DeclaresDefault(schema, key, v))
  }

  lemma FilledSupplies(schema: seq<Member>, form: seq<Member>, key: Text)
    requires WellFormed(Obj(schema)) && WellFormed(Obj(form))
    ensures
      var found := Lookup(FillDefaults(PropertyEntries(schema), form), key);
      && (forall v :: Supplies(schema, form, key, v) ==> found.Some? && Meaning(found.value) == Meaning(v))
      && (found.Some? ==> exists v :: Supplies(schema, form, key, v))
  {
    var entries := PropertyEntries(schema);
    EntriesAreProperties(schema, key);
    FillDefaultsMeans(entries, form);
    LookupIsField(FillDefaults(entries, form), key);
    LookupIsField(form, key);
    LookupIsField(entries, key);
    if Lookup(form, key).Some? {
      assert Supplies(schema, form, key, Lookup(form, key).value);
    } else if Lookup(entries, key).Some? {
      var prop := Lookup(entries, key).value;
      DefaultOfMeaning(prop);
      if DefaultOf(prop).Some? {
        assert IsProperty(schema, key, prop) && prop.Obj? && Lookup(prop.members, DEFAULT) == DefaultOf(prop);
        assert DeclaresDefault(schema, key, DefaultOf(prop).value);
        assert Supplies(schema, form, key, DefaultOf(prop).value);
      }
    }
  }

  /** Instantiating with a schema is instantiating without one, the form completed: any form that says what
      filling in means will do. */
  lemma SchemaIsFilledIn(le: Collation, valid: Value -> bool, r: Recipe, form: seq<Member>, full: seq<Member>)
    requires WellFormed(Obj(r.formSchema)) && WellFormed(r.intentTmpl) && WellFormed(Obj(form)) && WellFormed(Obj(full))
    requires Fields(full) == FillMap(Fields(PropertyEntries(r.formSchema)), Fields(form))
    ensures SameIfAny(InstantiateIntent(le, valid, r, Obj(form)), InstantiateIntent(le, valid, Recipe([], r.intentTmpl), Obj(full)))
  {
    FilledIsForm(le, valid, r, form);
    FullIsFilled(r.formSchema, form, full);
    BareAgrees(le, valid, r.intentTmpl, Obj(FillDefaults(PropertyEntries(r.formSchema), form)), Obj(full));
  }

  lemma BareAgrees(le: Collation, valid: Value -> bool, tmpl: Json, form: Json, form': Json)
    requires WellFormed(tmpl) && Same(form, form')
    ensures SameIfAny(InstantiateIntent(le, valid, Recipe([], tmpl), form), InstantiateIntent(le, valid, Recipe([], tmpl), form'))
  {
    InstantiateAgrees(le, valid, Recipe([], tmpl), Recipe([], tmpl), form, form');
  }

  lemma FullIsFilled(schema: seq<Member>, form: seq<Member>, full: seq<Member>)
    requires WellFormed(Obj(schema)) && WellFormed(Obj(form)) && WellFormed(Obj(full))
    requires Fields(full) == FillMap(Fields(PropertyEntries(schema)), Fields(form))
    ensures Same(Obj(FillDefaults(PropertyEntries(schema), form)), Obj(full))
  {
    PropertyEntriesAgree(schema, schema);
    FillDefaultsMeans(PropertyEntries(schema), form);
  }

  lemma FilledIsForm(le: Collation, valid: Value -> bool, r: Recipe, form: seq<Member>)
    ensures
      var filled := FillDefaults(PropertyEntries(r.formSchema), form);
      InstantiateIntent(le, valid, Recipe([], r.intentTmpl), Obj(filled)) == InstantiateIntent(le, valid, r, Obj(form))
  {
    assert PropertyEntries([]) == [];
  }

  // ----- rendering, field by field -----

  lemma {:induction false} RenderedMember(le: Collation, ms: seq<Member>, scope: Json, key: Text)
    requires RenderMembers(le, ms, scope).Some? && Lookup(ms, key).Some?
    ensures RenderValue(le, Lookup(ms, key).value, scope).Some?
    ensures Lookup(RenderMembers(le, ms, scope).value, key) == RenderValue(le, Lookup(ms, key).value, scope)
  {
    if ms[0].key != key { RenderedMember(le, ms[1..], scope, key); }
  }

  /** What the template has at a path of keys, the rendered template has there, rendered. */
  lemma {:induction false} RenderedAt(le: Collation, tmpl: Json, scope: Json, path: seq<Text>)
    requires RenderValue(le, tmpl, scope).Some? && Follow(tmpl, path).Some?
    ensures RenderValue(le, Follow(tmpl, path).value, scope).Some?
    ensures Follow(RenderValue(le, tmpl, scope).value, path) == RenderValue(le, Follow(tmpl, path).value, scope)
    decreases |path|
  {
    if path != [] {
      RenderedMember(le, tmpl.members, scope, path[0]);
      RenderedAt(le, Lookup(tmpl.members, path[0]).value, scope, path[1..]);
    }
  }

  ghost predicate IsWholeHole(s: Text) { exists path :: IsHole(s, path) }

  /** A template's rendering: arrays and objects part by part, a whole hole as what its path finds, any other
      string with its holes replaced, and everything else as it is. */
  ghost predicate RendersTo(v: Json, scope: Json, r: Json)
    decreases v
  {
    match v
    case Str(s) =>
      if IsWholeHole(s) then exists path :: IsHole(s, path) && FindsMeaning(scope, path, r)
      else r.Str? && RenderText(s, scope) == Some(r.s)
    case Arr(xs) => r.Arr? && |r.items| == |xs| && forall i :: 0 <= i < |xs| ==> RendersTo(xs[i], scope, r.items[i])
    case Obj(ms) =>
      r.Obj? && |r.members| == |ms| && forall i :: 0 <= i < |ms| ==> r.members[i].key == ms[i].key && RendersTo(ms[i].val, scope, r.members[i].val)
    case _ => r == v
  }

  predicate FindsMeaning(scope: Json, path: Text, r: Json) {
    Follow(scope, Segments(path)).Some? && Meaning(r) == Meaning(Follow(scope, Segments(path)).value)
  }

  lemma {:induction false} RendersExactly(le: Collation, v: Json, scope: Json)
    requires WellFormed(scope)
    ensures RenderValue(le, v, scope).Some? ==> RendersTo(v, scope, RenderValue(le, v, scope).value)
    decreases v
  {
    match v {
      case Str(s) => StringRenders(le, s, scope);
      case Arr(xs) =>
        RenderItemsAt(le, xs, scope);
        forall i | 0 <= i < |xs|
          ensures RenderValue(le, xs[i], scope).Some? ==> RendersTo(xs[i], scope, RenderValue(le, xs[i], scope).value)
        {
          RendersExactly(le, xs[i], scope);
        }
      case Obj(ms) =>
        RenderMembersAt(le, ms, scope);
        forall i | 0 <= i < |ms|
          ensures RenderValue(le, ms[i].val, scope).Some? ==> RendersTo(ms[i].val, scope, RenderValue(le, ms[i].val, scope).value)
        {
          RendersExactly(le, ms[i].val, scope);
        }
      case _ =>
    }
  }

  lemma StringRenders(le: Collation, s: Text, scope: Json)
    requires WellFormed(scope)
    ensures RenderValue(le, Str(s), scope).Some? ==> RendersTo(Str(s), scope, RenderValue(le, Str(s), scope).value)
  {
    assert s + [] == s;
    if HoleAt(s).Some? && HoleAt(s).value.1 == [] {
      var path := HoleAt(s).value.0;
      HoleAtExactly(s, path, []);
      var hole :| IsHole(hole, path) && s == hole + [];
      assert hole + [] == hole;
      WholeHoleIsValue(le, s, path, scope);
    } else {
      forall path ensures !IsHole(s, path) { HoleAtExactly(s, path, []); }
    }
  }

  lemma WholeHoleRead(s: Text)
    requires HoleAt(s).Some? && HoleAt(s).value.1 == []
    ensures IsWholeHole(s)
  {
    HoleAtExactly(s, HoleAt(s).value.0, []);
    var hole :| IsHole(hole, HoleAt(s).value.0) && s == hole + [];
    assert hole + [] == hole;
  }

  /** And it does render whenever there is anything it could render to. */
  lemma {:induction false} RendersIfAnything(le: Collation, v: Json, scope: Json, r: Json)
    requires WellFormed(scope) && RendersTo(v, scope, r)
    ensures RenderValue(le, v, scope).Some?
    decreases v
  {
    match v {
      case Str(s) =>
        if IsWholeHole(s) {
          var path :| IsHole(s, path) && FindsMeaning(scope, path, r);
          WholeHoleIsValue(le, s, path, scope);
        } else {
          if HoleAt(s).Some? && HoleAt(s).value.1 == [] { WholeHoleRead(s); }
        }
      case Arr(xs) =>
        RenderItemsAt(le, xs, scope);
        forall i | 0 <= i < |xs| ensures RenderValue(le, xs[i], scope).Some? { RendersIfAnything(le, xs[i], scope, r.items[i]); }
      case Obj(ms) =>
        RenderMembersAt(le, ms, scope);
        forall i | 0 <= i < |ms| ensures RenderValue(le, ms[i].val, scope).Some? {
          RendersIfAnything(le, ms[i].val, scope, r.members[i].val);
        }
      case _ =>
    }
  }

  lemma {:induction false} SetMemberLookup(ms: seq<Member>, key: Text, val: Json, k: Text)
    ensures Lookup(SetMember(ms, key, val), k) == if k == key then Some(val) else Lookup(ms, k)
  {
    if ms != [] && ms[0].key != key { SetMemberLookup(ms[1..], key, val, k); }
  }

  /** A path that does not pass through the intent's step library. */
  predicate OutsideLibrary(path: seq<Text>) {
    path != [] && (path[0] == CONSTRAINTS ==> |path| > 1 && path[1] != STEP_LIBRARY)
  }

  lemma LibraryLeavesOthers(intent: Json, path: seq<Text>)
    requires WithStepLibrary(intent).Some? && OutsideLibrary(path)
    ensures Follow(WithStepLibrary(intent).value, path) == Follow(intent, path)
  {
    var constraints := Lookup(intent.members, CONSTRAINTS).value.members;
    var library := Obj([Member(PRIMITIVES, Arr(ResolveStepLibrary(constraints).value))]);
    var rewritten := SetMember(constraints, STEP_LIBRARY, library);
    SetMemberLookup(intent.members, CONSTRAINTS, Obj(rewritten), path[0]);
    if path[0] == CONSTRAINTS {
      SetMemberLookup(constraints, STEP_LIBRARY, library, path[1]);
      assert path[1..][0] == path[1];
    }
  }

  // "formData."
  function FormPath(key: Text): Text { FORM_DATA + [DOT] + key }

  lemma FormPathIsRead(filled: seq<Member>, key: Text)
    requires DOT !in key
    ensures Follow(ScopeOf(filled), Segments(FormPath(key))) == Lookup(filled, key)
  {
    ArtifactUri.SplitFirst(FORM_DATA, key, DOT);
    OnePart(key);
    assert Segments(FormPath(key)) == [FORM_DATA] + [key];
    assert [FORM_DATA, key][1..] == [key] && [key][1..] == [];
    assert Follow(Obj(filled), [key]) == Lookup(filled, key) by {
      if Lookup(filled, key).Some? { assert Follow(Lookup(filled, key).value, []) == Lookup(filled, key); }
    }
  }

  lemma {:induction false} OnePart(t: Text)
    requires DOT !in t
    ensures Split(t, DOT) == [t]
  {
    if t != [] {
      OnePart(t[1..]);
      assert [t[0]] + t[1..] == t;
    }
  }

  /** A field of the template that is one hole on a form key: in the intent it means what the form has under
      the key, or else the key's declared default; where neither is there is no intent. */
  lemma FieldSaysFormOrDefault(le: Collation, valid: Value -> bool, r: Recipe, form: seq<Member>, path: seq<Text>, hole: Text, key: Text)
    requires WellFormed(Obj(r.formSchema)) && WellFormed(r.intentTmpl) && WellFormed(Obj(form))
    requires Follow(r.intentTmpl, path) == Some(Str(hole)) && OutsideLibrary(path)
    requires IsHole(hole, FormPath(key)) && DOT !in key
    ensures
      var intent := InstantiateIntent(le, valid, r, Obj(form));
      intent.Some? ==>
        && (exists v :: Supplies(r.formSchema, form, key, v))
        && Follow(intent.value, path).Some?
        && forall v :: Supplies(r.formSchema, form, key, v) ==> Meaning(Follow(intent.value, path).value) == Meaning(v)
  {
    if InstantiateIntent(le, valid, r, Obj(form)).Some? {
      var filled := FillDefaults(PropertyEntries(r.formSchema), form);
      PropertyEntriesAgree(r.formSchema, r.formSchema);
      FillDefaultsMeans(PropertyEntries(r.formSchema), form);
      FilledSupplies(r.formSchema, form, key);
      FormPathIsRead(filled, key);
      WholeHoleIsValue(le, hole, FormPath(key), ScopeOf(filled));
      IntentFollows(le, valid, r, form, path);
    }
  }

  /** At a path outside the step library the intent means what the rendered template has there. */
  lemma IntentFollows(le: Collation, valid: Value -> bool, r: Recipe, form: seq<Member>, path: seq<Text>)
    requires WellFormed(Obj(r.formSchema)) && WellFormed(r.intentTmpl) && WellFormed(Obj(form))
    requires Follow(r.intentTmpl, path).Some? && OutsideLibrary(path) && InstantiateIntent(le, valid, r, Obj(form)).Some?
    ensures
      var intent := InstantiateIntent(le, valid, r, Obj(form)).value;
      var rendered := RenderValue(le, Follow(r.intentTmpl, path).value, ScopeOf(FillDefaults(PropertyEntries(r.formSchema), form)));
      rendered.Some? && Follow(intent, path).Some? && Meaning(Follow(intent, path).value) == Meaning(rendered.value)
  {
    var scope := ScopeOf(FillDefaults(PropertyEntries(r.formSchema), form));
    RendersWell(le, r, form);
    var rendered := RenderValue(le, r.intentTmpl, scope).value;
    RenderedAt(le, r.intentTmpl, scope, path);
    var intent := Parse(Canonicalize(le, rendered)).value;
    FollowAgrees(intent, rendered, path);
    LibraryLeavesOthers(intent, path);
  }

  // ----- the step library -----

  /** The eight primitives, as values. */
  function AllPrimitives(): (r: seq<Value>)
    ensures |r| == 8 && forall i :: 0 <= i < 8 ==> r[i] == VStr(STEP_LIBRARY_PRIMITIVES[i])
  {
    seq(8, i requires 0 <= i < 8 => VStr(STEP_LIBRARY_PRIMITIVES[i]))
  }

  predicate IsPrimitive(v: Value) { v.VStr? && v.s in STEP_LIBRARY_PRIMITIVES }

  /** The constraints ask for this list: their own if they have a step library, all eight if not. */
  predicate AsksFor(constraints: map<Text, Value>, list: seq<Value>) {
    if STEP_LIBRARY in constraints && constraints[STEP_LIBRARY].VObj? then
      var library := constraints[STEP_LIBRARY].fields;
      && PRIMITIVES in library && library[PRIMITIVES] == VArr(list)
      && list != [] && forall i :: 0 <= i < |list| ==> IsPrimitive(list[i])
    else list == AllPrimitives()
  }

  lemma {:induction false} StringsMean(texts: seq<Text>)
    ensures |Meanings(Strings(texts))| == |texts| && forall i :: 0 <= i < |texts| ==> Meanings(Strings(texts))[i] == VStr(texts[i])
  {
    if texts != [] { StringsMean(texts[1..]); }
  }

  lemma AllAreStrings()
    ensures Meanings(Strings(STEP_LIBRARY_PRIMITIVES)) == AllPrimitives()
  {
    StringsMean(STEP_LIBRARY_PRIMITIVES);
  }

  lemma NamesPrimitives(xs: seq<Json>)
    ensures |Meanings(xs)| == |xs|
    ensures AreCanonicalPrimitives(xs) <==> forall i :: 0 <= i < |xs| ==> IsPrimitive(Meanings(xs)[i])
  {
    MeaningsAt(xs);
    forall i | 0 <= i < |xs| ensures IsPrimitive(Meanings(xs)[i]) <==> xs[i].Str? && xs[i].s in STEP_LIBRARY_PRIMITIVES {
      assert Meanings(xs)[i] == Meaning(xs[i]);
    }
  }

  ghost predicate IsAsAsked(constraints: seq<Member>) {
    var list := ResolveStepLibrary(constraints);
    && (list.Some? ==> WellFormed(Arr(list.value)) && AsksFor(Fields(constraints), Meanings(list.value)))
    && (list.None? ==> forall asked :: !AsksFor(Fields(constraints), asked))
  }

  lemma NamedAsAsked(constraints: seq<Member>, ms: seq<Member>)
    requires WellFormed(Obj(constraints)) && Lookup(constraints, STEP_LIBRARY) == Some(Obj(ms))
    ensures IsAsAsked(constraints)
  {
    LookupIsField(constraints, STEP_LIBRARY);
    LookupIsField(ms, PRIMITIVES);
    match Lookup(ms, PRIMITIVES) {
      case Some(Arr(xs)) => NamesPrimitives(xs);
      case _ =>
    }
  }

  lemma UnnamedAsAsked(constraints: seq<Member>)
    requires WellFormed(Obj(constraints)) && (Lookup(constraints, STEP_LIBRARY).Some? ==> !Lookup(constraints, STEP_LIBRARY).value.Obj?)
    ensures IsAsAsked(constraints)
  {
    LookupIsField(constraints, STEP_LIBRARY);
    StringsAreStrings(STEP_LIBRARY_PRIMITIVES);
    AllAreStrings();
  }

  lemma ResolvesAsAsked(constraints: seq<Member>)
    requires WellFormed(Obj(constraints))
    ensures IsAsAsked(constraints)
  {
    match Lookup(constraints, STEP_LIBRARY) {
      case Some(Obj(ms)) => NamedAsAsked(constraints, ms);
      case _ => UnnamedAsAsked(constraints);
    }
  }

  function GivenLibrary(intent: map<Text, Value>, list: seq<Value>): Value
    requires CONSTRAINTS in intent && intent[CONSTRAINTS].VObj?
  {
    var constraints := intent[CONSTRAINTS].fields[STEP_LIBRARY := VObj(map[PRIMITIVES := VArr(list)])];
    VObj(intent[CONSTRAINTS := VObj(constraints)])
  }

  /** The second is the first with the step library its constraints ask for in place of theirs. */
  ghost predicate IsGiven(before: Value, after: Value) {
    && before.VObj? && CONSTRAINTS in before.fields && before.fields[CONSTRAINTS].VObj?
    && exists list :: AsksFor(before.fields[CONSTRAINTS].fields, list) && after == GivenLibrary(before.fields, list)
  }

  lemma LibraryAsAsked(intent: Json)
    requires WellFormed(intent)
    ensures
      match WithStepLibrary(intent)
      case Some(r) => IsGiven(Meaning(intent), Meaning(r))
      case None => forall v :: !IsGiven(Meaning(intent), v)
  {
    if intent.Obj? {
      LookupIsField(intent.members, CONSTRAINTS);
      match Lookup(intent.members, CONSTRAINTS) {
        case Some(Obj(constraints)) =>
          ResolvesAsAsked(constraints);
          if ResolveStepLibrary(constraints).Some? { AskedIsGiven(intent.members, constraints, ResolveStepLibrary(constraints).value); }
        case _ =>
      }
    }
  }

  lemma AskedIsGiven(intent: seq<Member>, constraints: seq<Member>, list: seq<Json>)
    requires WellFormed(Obj(intent)) && Lookup(intent, CONSTRAINTS) == Some(Obj(constraints)) && WellFormed(Obj(constraints))
    requires WellFormed(Arr(list)) && AsksFor(Fields(constraints), Meanings(list))
    ensures IsGiven(Meaning(Obj(intent)), Meaning(WithLibrary(intent, constraints, list)))
  {
    LookupIsField(intent, CONSTRAINTS);
    LibraryMeans(intent, constraints, list);
  }

  /** Whatever the template renders to is well formed, and printing and parsing keep what it means. */
  lemma RendersWell(le: Collation, r: Recipe, form: seq<Member>)
    requires WellFormed(Obj(r.formSchema)) && WellFormed(r.intentTmpl) && WellFormed(Obj(form))
    ensures
      var rendered := RenderValue(le, r.intentTmpl, ScopeOf(FillDefaults(PropertyEntries(r.formSchema), form)));
      rendered.Some? ==>
        && WellFormed(rendered.value) && Parse(Canonicalize(le, rendered.value)).Some?
        && Same(Parse(Canonicalize(le, rendered.value)).value, rendered.value)
  {
    var scope := ScopeOf(FillDefaults(PropertyEntries(r.formSchema), form));
    FilledAgree(r.formSchema, r.formSchema, form, form);
    RenderAgrees(le, r.intentTmpl, r.intentTmpl, scope, scope);
    if RenderValue(le, r.intentTmpl, scope).Some? { ReparseMeansSame(le, RenderValue(le, r.intentTmpl, scope).value); }
  }

  /** There is an intent exactly when the template renders, the contract accepts what it renders to, and the
      constraints ask for a list of primitives; it is the rendered template with that list put in. */
  lemma InstantiatesExactly(le: Collation, valid: Value -> bool, r: Recipe, form: seq<Member>)
    requires WellFormed(Obj(r.formSchema)) && WellFormed(r.intentTmpl) && WellFormed(Obj(form))
    ensures
      var rendered := RenderValue(le, r.intentTmpl, ScopeOf(FillDefaults(PropertyEntries(r.formSchema), form)));
      match InstantiateIntent(le, valid, r, Obj(form))
      case Some(intent) => rendered.Some? && valid(Meaning(rendered.value)) && IsGiven(Meaning(rendered.value), Meaning(intent))
      case None => rendered.Some? && valid(Meaning(rendered.value)) ==> forall v :: !IsGiven(Meaning(rendered.value), v)
  {
    var rendered := RenderValue(le, r.intentTmpl, ScopeOf(FillDefaults(PropertyEntries(r.formSchema), form)));
    RendersWell(le, r, form);
    if rendered.Some? { LibraryAsAsked(Parse(Canonicalize(le, rendered.value)).value); }
  }

  // ----- the text of a value -----

  /** What a hole in a longer text becomes: a string is itself, another scalar its JSON text, an array its
      items' texts with commas between, a null item nothing, and any object "[object Object]". */
  lemma {:induction false} TextOfValue(le: Collation, j: Json)
    ensures j.Str? ==> StringOf(j) == j.s
    ensures j.Null? || j.Bool? || j.Num? ==> StringOf(j) == Canonicalize(le, j)
    ensures j.Obj? ==> StringOf(j) == OBJECT_TEXT
    ensures j.Arr? ==> exists texts :: StringOf(j) == Join(texts, COMMA) && AreItemTexts(j.items, texts)
  {
    if j.Arr? { var texts := ItemTexts(j.items); }
  }

  predicate AreItemTexts(xs: seq<Json>, texts: seq<Text>) {
    |texts| == |xs| && forall i :: 0 <= i < |xs| ==> texts[i] == if xs[i].Null? then [] else StringOf(xs[i])
  }

  lemma {:induction false} ItemTexts(xs: seq<Json>) returns (texts: seq<Text>)
    ensures JoinItems(xs) == Join(texts, COMMA) && AreItemTexts(xs, texts)
  {
    texts := [];
    if xs != [] {
      var rest := ItemTexts(xs[1..]);
      texts := [if xs[0].Null? then [] else StringOf(xs[0])] + rest;
      assert texts[1..] == rest;
    }
  }

  // ----- the intent hash -----

  lemma IntentIsWellFormed(le: Collation, valid: Value -> bool, r: Recipe, form: seq<Member>)
    requires WellFormed(Obj(r.formSchema)) && WellFormed(r.intentTmpl) && WellFormed(Obj(form))
    ensures InstantiateIntent(le, valid, r, Obj(form)).Some? ==> WellFormed(InstantiateIntent(le, valid, r, Obj(form)).value)
  {
    InstantiateAgrees(le, valid, r, r, Obj(form), Obj(form));
  }

  /** Two requests get one intent hash exactly when their intents are equal up to member order. */
  lemma IntentHashTells(sha: Hash, le: Collation, valid: Value -> bool, r: Recipe, form: seq<Member>, r': Recipe, form': seq<Member>)
    requires Injective(sha) && IsCollation(le) && Separates(le)
    requires WellFormed(Obj(r.formSchema)) && WellFormed(r.intentTmpl) && WellFormed(Obj(form))
    requires WellFormed(Obj(r'.formSchema)) && WellFormed(r'.intentTmpl) && WellFormed(Obj(form'))
    ensures
      var x, y := InstantiateIntent(le, valid, r, Obj(form)), InstantiateIntent(le, valid, r', Obj(form'));
      && (IntentHash(sha, le, valid, r, Obj(form)).Some? <==> x.Some?)
      && (x.Some? && y.Some? ==>
          (IntentHash(sha, le, valid, r, Obj(form)) == IntentHash(sha, le, valid, r', Obj(form')) <==> Meaning(x.value) == Meaning(y.value)))
  {
    var x, y := InstantiateIntent(le, valid, r, Obj(form)), InstantiateIntent(le, valid, r', Obj(form'));
    IntentIsWellFormed(le, valid, r, form);
    IntentIsWellFormed(le, valid, r', form');
    if x.Some? && y.Some? { CanonicalHashTells(sha, le, x.value, y.value); }
  }

  lemma CanonicalHashTells(sha: Hash, le: Collation, x: Json, y: Json)
    requires Injective(sha) && IsCollation(le) && Separates(le) && WellFormed(x) && WellFormed(y)
    ensures HashText(sha, Canonicalize(le, x)) == HashText(sha, Canonicalize(le, y)) <==> Meaning(x) == Meaning(y)
  {
    CanonicalIsUnicode(le, x);
    CanonicalIsUnicode(le, y);
    UnicodeHashesTell(sha, Canonicalize(le, x), Canonicalize(le, y));
    SeparatingIsTieFree(le, x);
    if Meaning(x) == Meaning(y) { SameMeaningSameText(le, x, y); }
    if Canonicalize(le, x) == Canonicalize(le, y) { SameTextSameMeaning(le, x, y); }
  }
}
