/** Instantiating an intent respects member order: equal values in, equal intents out. */
module IntentTemplateProofs {
  import opened JsText
  import opened Utf8
  import opened JsonValues
  import opened StableSort
  import opened CanonicalJson
  import opened CanonicalJsonProofs
  import opened CanonicalJsonTheorems
  import opened IntentTemplate

  // ----- defaults -----

  function DefaultMeaning(prop: Value): Option<Value> {
    if prop.VObj? && DEFAULT in prop.fields then Some(prop.fields[DEFAULT]) else None
  }

  lemma DefaultOfMeaning(prop: Json)
    ensures DefaultOf(prop).Some? <==> DefaultMeaning(Meaning(prop)).Some?
    ensures DefaultOf(prop).Some? ==> Meaning(DefaultOf(prop).value) == DefaultMeaning(Meaning(prop)).value
    ensures DefaultOf(prop).Some? && WellFormed(prop) ==> WellFormed(DefaultOf(prop).value)
  {
    if prop.Obj? { LookupIsField(prop.members, DEFAULT); }
  }

  /** What filling in defaults means with order forgotten. */
  function FillMap(entries: map<Text, Value>, form: map<Text, Value>): map<Text, Value> {
    (map k | k in entries && DefaultMeaning(entries[k]).Some? :: DefaultMeaning(entries[k]).value) + form
  }

  lemma {:induction false} FieldsOfAppend(ms: seq<Member>, key: Text, val: Json)
    requires Lookup(ms, key).None?
    ensures Fields(ms + [Member(key, val)]) == Fields(ms)[key := Meaning(val)]
  {
    if ms == [] {
      assert [Member(key, val)][1..] == [];
    } else {
      assert (ms + [Member(key, val)])[1..] == ms[1..] + [Member(key, val)];
      FieldsOfAppend(ms[1..], key, val);
    }
  }

  lemma AppendKeepsWellFormed(ms: seq<Member>, key: Text, val: Json)
    requires WellFormed(Obj(ms)) && WellFormed(val) && Lookup(ms, key).None?
    ensures WellFormed(Obj(ms + [Member(key, val)]))
  {
    LookupIsField(ms, key);
    FieldsOf(ms);
  }

  lemma {:induction false} FillDefaultsMeans(entries: seq<Member>, form: seq<Member>)
    requires WellFormed(Obj(entries)) && WellFormed(Obj(form))
    ensures Fields(FillDefaults(entries, form)) == FillMap(Fields(entries), Fields(form))
    ensures WellFormed(Obj(FillDefaults(entries, form)))
  {
    if entries != [] {
      var e := entries[0];
      LookupIsField(form, e.key);
      DefaultOfMeaning(e.val);
      HeadNotInTail(entries);
      var fills := Lookup(form, e.key).None? && DefaultOf(e.val).Some?;
      var next := if fills then form + [Member(e.key, DefaultOf(e.val).value)] else form;
      if fills {
        FieldsOfAppend(form, e.key, DefaultOf(e.val).value);
        AppendKeepsWellFormed(form, e.key, DefaultOf(e.val).value);
      }
      assert WellFormed(Obj(entries[1..])) by { TailWellFormed(entries); }
      FillDefaultsMeans(entries[1..], next);
      FillMapStep(Fields(entries[1..]), e.key, Meaning(e.val), Fields(form));
    }
  }

  lemma TailWellFormed(ms: seq<Member>)
    requires ms != [] && WellFormed(Obj(ms))
    ensures WellFormed(Obj(ms[1..]))
  {}

  lemma FillMapStep(rest: map<Text, Value>, key: Text, prop: Value, form: map<Text, Value>)
    requires key !in rest
    ensures
      var next := if key !in form && DefaultMeaning(prop).Some? then form[key := DefaultMeaning(prop).value] else form;
      FillMap(rest, next) == FillMap(rest[key := prop], form)
  {}

  // ----- property entries -----

  lemma {:induction false} DecimalInjective(a: nat, b: nat)
    requires Decimal(a) == Decimal(b)
    ensures a == b
  {
    var x, y := Decimal(a), Decimal(b);
    assert x[|x| - 1] == 0x30 + (a % 10) as CodeUnit && y[|y| - 1] == 0x30 + (b % 10) as CodeUnit;
    assert x[..|x| - 1] == if a < 10 then [] else Decimal(a / 10);
    assert y[..|y| - 1] == if b < 10 then [] else Decimal(b / 10);
    if a >= 10 && b >= 10 { DecimalInjective(a / 10, b / 10); }
  }

  lemma {:induction false} IndexEntriesAt(xs: seq<Json>, from: nat)
    ensures |IndexEntries(xs, from)| == |xs|
    ensures forall i :: 0 <= i < |xs| ==> IndexEntries(xs, from)[i] == Member(Decimal(from + i), xs[i])
  {
    if xs != [] { IndexEntriesAt(xs[1..], from + 1); }
  }

  lemma IndexEntriesWellFormed(xs: seq<Json>)
    requires WellFormed(Arr(xs))
    ensures WellFormed(Obj(IndexEntries(xs, 0)))
  {
    IndexEntriesAt(xs, 0);
    var es := IndexEntries(xs, 0);
    forall i, j | 0 <= i < j < |es|
      ensures es[i].key != es[j].key
    {
      if es[i].key == es[j].key { DecimalInjective(i, j); }
    }
  }

  lemma {:induction false} IndexEntriesAgree(xs: seq<Json>, ys: seq<Json>, from: nat)
    requires Meanings(xs) == Meanings(ys)
    ensures Fields(IndexEntries(xs, from)) == Fields(IndexEntries(ys, from))
  {
    MeaningsAt(xs);
    MeaningsAt(ys);
    if xs != [] {
      assert Meanings(xs)[1..] == Meanings(xs[1..]) && Meanings(ys)[1..] == Meanings(ys[1..]);
      IndexEntriesAgree(xs[1..], ys[1..], from + 1);
    }
  }

  lemma PropertyEntriesAgree(ms: seq<Member>, ns: seq<Member>)
    requires Same(Obj(ms), Obj(ns))
    ensures Same(Obj(PropertyEntries(ms)), Obj(PropertyEntries(ns)))
  {
    LookupAgrees(ms, ns, PROPERTIES);
    match (Lookup(ms, PROPERTIES), Lookup(ns, PROPERTIES)) {
      case (Some(Arr(xs)), Some(Arr(ys))) =>
        IndexEntriesWellFormed(xs);
        IndexEntriesWellFormed(ys);
        IndexEntriesAgree(xs, ys, 0);
      case _ =>
    }
  }

  // ----- paths and text -----

  lemma {:induction false} FollowAgrees(x: Json, y: Json, segments: seq<Text>)
    requires Same(x, y)
    ensures SameIfAny(Follow(x, segments), Follow(y, segments))
    decreases |segments|
  {
    if segments != [] && x.Obj? {
      LookupAgrees(x.members, y.members, segments[0]);
      if Lookup(x.members, segments[0]).Some? {
        FollowAgrees(Lookup(x.members, segments[0]).value, Lookup(y.members, segments[0]).value, segments[1..]);
      }
    }
  }

  lemma {:induction false} TextAgrees(x: Json, y: Json)
    requires Meaning(x) == Meaning(y)
    ensures StringOf(x) == StringOf(y)
  {
    if x.Arr? { JoinAgrees(x.items, y.items); }
  }

  lemma {:induction false} JoinAgrees(xs: seq<Json>, ys: seq<Json>)
    requires Meanings(xs) == Meanings(ys)
    ensures JoinItems(xs) == JoinItems(ys)
  {
    MeaningsAt(xs);
    MeaningsAt(ys);
    if xs != [] {
      assert Meanings(xs)[0] == Meanings(ys)[0];
      TextAgrees(xs[0], ys[0]);
      assert Meanings(xs)[1..] == Meanings(xs[1..]) && Meanings(ys)[1..] == Meanings(ys[1..]);
      JoinAgrees(xs[1..], ys[1..]);
    }
  }

  lemma {:induction false} RenderTextAgrees(t: Text, scope: Json, scope': Json)
    requires Same(scope, scope')
    ensures RenderText(t, scope) == RenderText(t, scope')
    decreases |t|
  {
    if t != [] {
      match HoleAt(t) {
        case None => RenderTextAgrees(t[1..], scope, scope');
        case Some((path, after)) =>
          FollowAgrees(scope, scope', Segments(path));
          if Follow(scope, Segments(path)).Some? {
            TextAgrees(Follow(scope, Segments(path)).value, Follow(scope', Segments(path)).value);
            RenderTextAgrees(after, scope, scope');
          }
      }
    }
  }

  // ----- the sorted tree is well formed -----

  lemma {:induction false} SortedWellFormed(le: Collation, j: Json)
    requires WellFormed(j)
    ensures WellFormed(Sorted(le, j))
    decreases Size(j), 0
  {
    match j {
      case Arr(xs) => SortedItemsWellFormed(le, xs);
      case Obj(ms) =>
        SortKeepsSize(le, ms);
        SortKeepsDistinct(le, ms);
        SortedMembersWellFormed(le, ms);
        SortedMembersAllWellFormed(le, SortMembers(le, ms));
      case _ =>
    }
  }

  lemma {:induction false} SortedItemsWellFormed(le: Collation, xs: seq<Json>)
    requires forall i :: 0 <= i < |xs| ==> WellFormed(xs[i])
    ensures forall i :: 0 <= i < |xs| ==> WellFormed(SortedItems(le, xs)[i])
    decreases SizeItems(xs), |xs|
  {
    if xs != [] {
      SortedWellFormed(le, xs[0]);
      SortedItemsWellFormed(le, xs[1..]);
    }
  }

  lemma {:induction false} SortedMembersAllWellFormed(le: Collation, ms: seq<Member>)
    requires AllWellFormed(ms)
    ensures forall i :: 0 <= i < |ms| ==> SortedMembers(le, ms)[i].key == ms[i].key && WellFormed(SortedMembers(le, ms)[i].val)
    decreases SizeMembers(ms), |ms|
  {
    if ms != [] {
      SortedWellFormed(le, ms[0].val);
      SortedMembersAllWellFormed(le, ms[1..]);
    }
  }

  /** Printing a value and parsing it back, as the source does to clone one, keeps its meaning. */
  lemma ReparseMeansSame(le: Collation, j: Json)
    requires WellFormed(j)
    ensures Parse(Canonicalize(le, j)).Some? && Same(Parse(Canonicalize(le, j)).value, j)
  {
    ParseUndoesCanonicalize(le, j);
    SortedMeansSame(le, j);
    SortedWellFormed(le, j);
  }

  // ----- rendering -----

  lemma {:induction false} RenderItemsAt(le: Collation, xs: seq<Json>, scope: Json)
    ensures RenderItems(le, xs, scope).Some? <==> forall i :: 0 <= i < |xs| ==> RenderValue(le, xs[i], scope).Some?
    ensures RenderItems(le, xs, scope).Some? ==>
      var ys := RenderItems(le, xs, scope).value;
      |ys| == |xs| && forall i :: 0 <= i < |xs| ==> RenderValue(le, xs[i], scope) == Some(ys[i])
  {
    if xs != [] {
      RenderItemsAt(le, xs[1..], scope);
      forall i | 0 < i < |xs| ensures xs[i] == xs[1..][i - 1] {}
      forall i | 0 <= i < |xs[1..]| ensures xs[1..][i] == xs[i + 1] {}
    }
  }

  lemma {:induction false} RenderMembersAt(le: Collation, ms: seq<Member>, scope: Json)
    ensures RenderMembers(le, ms, scope).Some? <==> forall i :: 0 <= i < |ms| ==> RenderValue(le, ms[i].val, scope).Some?
    ensures RenderMembers(le, ms, scope).Some? ==>
      var ns := RenderMembers(le, ms, scope).value;
      |ns| == |ms| && forall i :: 0 <= i < |ms| ==> ns[i].key == ms[i].key && RenderValue(le, ms[i].val, scope) == Some(ns[i].val)
  {
    if ms != [] {
      RenderMembersAt(le, ms[1..], scope);
      forall i | 0 < i < |ms| ensures ms[i] == ms[1..][i - 1] {}
      forall i | 0 <= i < |ms[1..]| ensures ms[1..][i] == ms[i + 1] {}
    }
  }

  lemma RenderStringAgrees(le: Collation, s: Text, scope: Json, scope': Json)
    requires Same(scope, scope')
    ensures SameIfAny(RenderValue(le, Str(s), scope), RenderValue(le, Str(s), scope'))
  {
    if HoleAt(s).Some? && HoleAt(s).value.1 == [] {
      var segments := Segments(HoleAt(s).value.0);
      FollowAgrees(scope, scope', segments);
      if Follow(scope, segments).Some? {
        ReparseMeansSame(le, Follow(scope, segments).value);
        ReparseMeansSame(le, Follow(scope', segments).value);
      }
    } else {
      RenderTextAgrees(s, scope, scope');
    }
  }

  /** Equal templates over equal scopes both fail to render, or render to equal values. */
  lemma {:induction false} RenderAgrees(le: Collation, x: Json, y: Json, scope: Json, scope': Json)
    requires Same(x, y) && Same(scope, scope')
    ensures SameIfAny(RenderValue(le, x, scope), RenderValue(le, y, scope'))
    decreases x
  {
    match x {
      case Str(s) => RenderStringAgrees(le, s, scope, scope');
      case Arr(xs) =>
        MeaningsAt(xs);
        MeaningsAt(y.items);
        forall i | 0 <= i < |xs|
          ensures SameIfAny(RenderValue(le, xs[i], scope), RenderValue(le, y.items[i], scope'))
        {
          assert Meanings(xs)[i] == Meanings(y.items)[i];
          RenderAgrees(le, xs[i], y.items[i], scope, scope');
        }
        ItemsAgree(le, xs, y.items, scope, scope');
      case Obj(ms) =>
        forall i, j | 0 <= i < |ms| && 0 <= j < |y.members| && ms[i].key == y.members[j].key
          ensures SameIfAny(RenderValue(le, ms[i].val, scope), RenderValue(le, y.members[j].val, scope'))
        {
          FieldsOf(ms);
          FieldsOf(y.members);
          RenderAgrees(le, ms[i].val, y.members[j].val, scope, scope');
        }
        MembersAgree(le, ms, y.members, scope, scope');
      case _ =>
    }
  }

  lemma ItemsAgree(le: Collation, xs: seq<Json>, ys: seq<Json>, scope: Json, scope': Json)
    requires |xs| == |ys|
    requires forall i :: 0 <= i < |xs| ==> SameIfAny(RenderValue(le, xs[i], scope), RenderValue(le, ys[i], scope'))
    ensures
      var r, r' := RenderItems(le, xs, scope), RenderItems(le, ys, scope');
      (r.Some? <==> r'.Some?) && (r.Some? ==> Same(Arr(r.value), Arr(r'.value)))
  {
    RenderItemsAt(le, xs, scope);
    RenderItemsAt(le, ys, scope');
    var r, r' := RenderItems(le, xs, scope), RenderItems(le, ys, scope');
    if r.Some? && r'.Some? { SameArrays(r.value, r'.value); }
  }

  lemma SameArrays(xs: seq<Json>, ys: seq<Json>)
    requires |xs| == |ys| && forall i :: 0 <= i < |xs| ==> Same(xs[i], ys[i])
    ensures Same(Arr(xs), Arr(ys))
  {
    MeaningsAt(xs);
    MeaningsAt(ys);
  }

  /** Members under one key, in either list, render alike. */
  ghost predicate RenderAlike(le: Collation, ms: seq<Member>, ns: seq<Member>, scope: Json, scope': Json) {
    forall i, j :: 0 <= i < |ms| && 0 <= j < |ns| && ms[i].key == ns[j].key ==>
      SameIfAny(RenderValue(le, ms[i].val, scope), RenderValue(le, ns[j].val, scope'))
  }

  lemma RendersToo(le: Collation, ms: seq<Member>, ns: seq<Member>, scope: Json, scope': Json)
    requires RenderAlike(le, ms, ns, scope, scope') && Keys(ms) == Keys(ns)
    ensures RenderMembers(le, ms, scope).Some? <==> RenderMembers(le, ns, scope').Some?
  {
    RenderMembersAt(le, ms, scope);
    RenderMembersAt(le, ns, scope');
    if RenderMembers(le, ms, scope).Some? {
      forall j | 0 <= j < |ns| ensures RenderValue(le, ns[j].val, scope').Some? {
        assert ns[j].key in Keys(ms);
        var i :| 0 <= i < |ms| && ms[i].key == ns[j].key;
      }
    } else {
      var i :| 0 <= i < |ms| && RenderValue(le, ms[i].val, scope).None?;
      assert ms[i].key in Keys(ns);
      var j :| 0 <= j < |ns| && ns[j].key == ms[i].key;
    }
  }

  lemma RenderedAlike(le: Collation, ms: seq<Member>, ns: seq<Member>, scope: Json, scope': Json, rs: seq<Member>, rs': seq<Member>)
    requires RenderAlike(le, ms, ns, scope, scope') && DistinctKeys(ms) && DistinctKeys(ns) && Keys(ms) == Keys(ns)
    requires RenderMembers(le, ms, scope) == Some(rs) && RenderMembers(le, ns, scope') == Some(rs')
    ensures Same(Obj(rs), Obj(rs'))
  {
    RenderMembersAt(le, ms, scope);
    RenderMembersAt(le, ns, scope');
    SameKeys(ms, rs);
    SameKeys(ns, rs');
    forall i, j | 0 <= i < |rs| && 0 <= j < |rs'| && rs[i].key == rs'[j].key
      ensures Same(rs[i].val, rs'[j].val)
    {
      assert SameIfAny(RenderValue(le, ms[i].val, scope), RenderValue(le, ns[j].val, scope'));
    }
    SameObjects(rs, rs');
  }

  lemma SameObjects(ms: seq<Member>, ns: seq<Member>)
    requires DistinctKeys(ms) && DistinctKeys(ns) && Keys(ms) == Keys(ns)
    requires forall i, j :: 0 <= i < |ms| && 0 <= j < |ns| && ms[i].key == ns[j].key ==> Same(ms[i].val, ns[j].val)
    ensures Same(Obj(ms), Obj(ns))
  {
    forall i | 0 <= i < |ms| ensures WellFormed(ms[i].val) {
      assert ms[i].key in Keys(ns);
      var j :| 0 <= j < |ns| && ns[j].key == ms[i].key;
    }
    forall j | 0 <= j < |ns| ensures WellFormed(ns[j].val) {
      assert ns[j].key in Keys(ms);
      var i :| 0 <= i < |ms| && ms[i].key == ns[j].key;
    }
    SameFields(ms, ns);
  }

  lemma MembersAgree(le: Collation, ms: seq<Member>, ns: seq<Member>, scope: Json, scope': Json)
    requires Same(Obj(ms), Obj(ns)) && RenderAlike(le, ms, ns, scope, scope')
    ensures
      var r, r' := RenderMembers(le, ms, scope), RenderMembers(le, ns, scope');
      (r.Some? <==> r'.Some?) && (r.Some? ==> Same(Obj(r.value), Obj(r'.value)))
  {
    FieldsOf(ms);
    FieldsOf(ns);
    RendersToo(le, ms, ns, scope, scope');
    var r, r' := RenderMembers(le, ms, scope), RenderMembers(le, ns, scope');
    if r.Some? { RenderedAlike(le, ms, ns, scope, scope', r.value, r'.value); }
  }

  lemma {:induction false} SameKeys(ms: seq<Member>, ns: seq<Member>)
    requires |ms| == |ns| && forall i :: 0 <= i < |ms| ==> ns[i].key == ms[i].key
    ensures Keys(ms) == Keys(ns)
  {
    forall k
      ensures k in Keys(ms) <==> k in Keys(ns)
    {
      if k in Keys(ms) {
        var i :| 0 <= i < |ms| && ms[i].key == k;
        assert ns[i].key == k;
      }
      if k in Keys(ns) {
        var i :| 0 <= i < |ns| && ns[i].key == k;
        assert ms[i].key == k;
      }
    }
  }

  lemma SameFields(ms: seq<Member>, ns: seq<Member>)
    requires DistinctKeys(ms) && DistinctKeys(ns) && Keys(ms) == Keys(ns)
    requires forall i, j :: 0 <= i < |ms| && 0 <= j < |ns| && ms[i].key == ns[j].key ==> Meaning(ms[i].val) == Meaning(ns[j].val)
    ensures Fields(ms) == Fields(ns)
  {
    FieldsOf(ms);
    FieldsOf(ns);
    forall k | k in Fields(ms)
      ensures Fields(ns)[k] == Fields(ms)[k]
    {
      var i :| 0 <= i < |ms| && ms[i].key == k;
      var j :| 0 <= j < |ns| && ns[j].key == k;
    }
  }

  // ----- the step library -----

  lemma {:induction false} ConsWellFormed(m: Member, ms: seq<Member>)
    requires WellFormed(m.val) && WellFormed(Obj(ms)) && m.key !in Fields(ms)
    ensures WellFormed(Obj([m] + ms)) && Fields([m] + ms) == Fields(ms)[m.key := Meaning(m.val)]
  {
    FieldsOf(ms);
    assert ([m] + ms)[1..] == ms;
    forall i | 0 <= i < |ms| ensures ms[i].key != m.key { assert ms[i].key in Keys(ms); }
  }

  lemma {:induction false} SetMemberMeans(ms: seq<Member>, key: Text, val: Json)
    requires WellFormed(Obj(ms)) && WellFormed(val)
    ensures Fields(SetMember(ms, key, val)) == Fields(ms)[key := Meaning(val)]
    ensures WellFormed(Obj(SetMember(ms, key, val)))
  {
    if ms == [] {
      ConsWellFormed(Member(key, val), []);
      assert [Member(key, val)] + [] == [Member(key, val)];
    } else {
      TailWellFormed(ms);
      HeadNotInTail(ms);
      if ms[0].key == key {
        ConsWellFormed(Member(key, val), ms[1..]);
      } else {
        SetMemberMeans(ms[1..], key, val);
        ConsWellFormed(ms[0], SetMember(ms[1..], key, val));
      }
    }
  }

  lemma {:induction false} StringsAreStrings(texts: seq<Text>)
    ensures forall i :: 0 <= i < |Strings(texts)| ==> WellFormed(Strings(texts)[i])
  {
    if texts != [] { StringsAreStrings(texts[1..]); }
  }

  lemma StepLibraryAgrees(ms: seq<Member>, ns: seq<Member>)
    requires Same(Obj(ms), Obj(ns))
    ensures
      var r, r' := ResolveStepLibrary(ms), ResolveStepLibrary(ns);
      (r.Some? <==> r'.Some?) && (r.Some? ==> Same(Arr(r.value), Arr(r'.value)))
  {
    LookupAgrees(ms, ns, STEP_LIBRARY);
    StringsAreStrings(STEP_LIBRARY_PRIMITIVES);
    match (Lookup(ms, STEP_LIBRARY), Lookup(ns, STEP_LIBRARY)) {
      case (Some(Obj(a)), Some(Obj(b))) =>
        LookupAgrees(a, b, PRIMITIVES);
        match (Lookup(a, PRIMITIVES), Lookup(b, PRIMITIVES)) {
          case (Some(Arr(xs)), Some(Arr(ys))) => PrimitivesAgree(xs, ys);
          case _ =>
        }
      case _ =>
    }
  }

  lemma PrimitivesAgree(xs: seq<Json>, ys: seq<Json>)
    requires Meanings(xs) == Meanings(ys)
    ensures xs == [] <==> ys == []
    ensures AreCanonicalPrimitives(xs) <==> AreCanonicalPrimitives(ys)
  {
    MeaningsAt(xs);
    MeaningsAt(ys);
    forall i | 0 <= i < |xs|
      ensures Meaning(xs[i]) == Meaning(ys[i])
    {
      assert Meanings(xs)[i] == Meanings(ys)[i];
    }
  }

  lemma WithStepLibraryAgrees(x: Json, y: Json)
    requires Same(x, y)
    ensures SameIfAny(WithStepLibrary(x), WithStepLibrary(y))
  {
    if x.Obj? {
      LookupAgrees(x.members, y.members, CONSTRAINTS);
      match (Lookup(x.members, CONSTRAINTS), Lookup(y.members, CONSTRAINTS)) {
        case (Some(Obj(a)), Some(Obj(b))) =>
          StepLibraryAgrees(a, b);
          if ResolveStepLibrary(a).Some? {
            LibrariesAgree(x.members, y.members, a, b, ResolveStepLibrary(a).value, ResolveStepLibrary(b).value);
          }
        case _ =>
      }
    }
  }

  function WithLibrary(intent: seq<Member>, constraints: seq<Member>, primitives: seq<Json>): Json {
    Obj(SetMember(intent, CONSTRAINTS, Obj(SetMember(constraints, STEP_LIBRARY, Obj([Member(PRIMITIVES, Arr(primitives))])))))
  }

  lemma LibrariesAgree(ms: seq<Member>, ns: seq<Member>, a: seq<Member>, b: seq<Member>, xs: seq<Json>, ys: seq<Json>)
    requires Same(Obj(ms), Obj(ns)) && Same(Obj(a), Obj(b)) && Same(Arr(xs), Arr(ys))
    ensures Same(WithLibrary(ms, a, xs), WithLibrary(ns, b, ys))
  {
    LibraryMeans(ms, a, xs);
    LibraryMeans(ns, b, ys);
  }

  lemma LibraryMeans(intent: seq<Member>, constraints: seq<Member>, primitives: seq<Json>)
    requires WellFormed(Obj(intent)) && WellFormed(Obj(constraints)) && WellFormed(Arr(primitives))
    ensures WellFormed(WithLibrary(intent, constraints, primitives))
    ensures Meaning(WithLibrary(intent, constraints, primitives)) ==
      VObj(Fields(intent)[CONSTRAINTS := VObj(Fields(constraints)[STEP_LIBRARY := VObj(map[PRIMITIVES := VArr(Meanings(primitives))])])])
  {
    var ms := [Member(PRIMITIVES, Arr(primitives))];
    assert ms[1..] == [];
    assert Fields(ms) == map[PRIMITIVES := VArr(Meanings(primitives))];
    SetMemberMeans(constraints, STEP_LIBRARY, Obj(ms));
    SetMemberMeans(intent, CONSTRAINTS, Obj(SetMember(constraints, STEP_LIBRARY, Obj(ms))));
  }

  // ----- the theorem -----

  /** Requests whose form data and stored recipe agree up to member order both fail to instantiate,
      or give equal intents. */
  lemma InstantiateAgrees(le: Collation, valid: Value -> bool, r: Recipe, r': Recipe, form: Json, form': Json)
    requires Same(Obj(r.formSchema), Obj(r'.formSchema)) && Same(r.intentTmpl, r'.intentTmpl) && Same(form, form')
    ensures SameIfAny(InstantiateIntent(le, valid, r, form), InstantiateIntent(le, valid, r', form'))
  {
    if form.Obj? {
      FilledAgree(r.formSchema, r'.formSchema, form.members, form'.members);
      var scope := ScopeOf(FillDefaults(PropertyEntries(r.formSchema), form.members));
      var scope' := ScopeOf(FillDefaults(PropertyEntries(r'.formSchema), form'.members));
      RenderAgrees(le, r.intentTmpl, r'.intentTmpl, scope, scope');
      var x, y := RenderValue(le, r.intentTmpl, scope), RenderValue(le, r'.intentTmpl, scope');
      if x.Some? {
        ReparseMeansSame(le, x.value);
        ReparseMeansSame(le, y.value);
        WithStepLibraryAgrees(Parse(Canonicalize(le, x.value)).value, Parse(Canonicalize(le, y.value)).value);
      }
    }
  }

  lemma FilledAgree(schema: seq<Member>, schema': seq<Member>, form: seq<Member>, form': seq<Member>)
    requires Same(Obj(schema), Obj(schema')) && Same(Obj(form), Obj(form'))
    ensures Same(ScopeOf(FillDefaults(PropertyEntries(schema), form)), ScopeOf(FillDefaults(PropertyEntries(schema'), form')))
  {
    PropertyEntriesAgree(schema, schema');
    FillDefaultsMeans(PropertyEntries(schema), form);
    FillDefaultsMeans(PropertyEntries(schema'), form');
    ScopeAgrees(FillDefaults(PropertyEntries(schema), form), FillDefaults(PropertyEntries(schema'), form'));
  }

  function ScopeOf(filled: seq<Member>): Json { Obj([Member(FORM_DATA, Obj(filled))]) }

  lemma ScopeAgrees(a: seq<Member>, b: seq<Member>)
    requires Same(Obj(a), Obj(b))
    ensures Same(ScopeOf(a), ScopeOf(b))
  {
    assert [Member(FORM_DATA, Obj(a))][1..] == [] && [Member(FORM_DATA, Obj(b))][1..] == [];
  }

  /** The intent hash, and so the run's identity, does not depend on member order anywhere in the
      request or in the stored recipe. */
  lemma IntentHashIgnoresOrder(sha: Hash, le: Collation, valid: Value -> bool,
                               r: Recipe, r': Recipe, form: Json, form': Json)
    requires IsCollation(le) && Separates(le)
    requires Same(Obj(r.formSchema), Obj(r'.formSchema)) && Same(r.intentTmpl, r'.intentTmpl) && Same(form, form')
    ensures IntentHash(sha, le, valid, r, form) == IntentHash(sha, le, valid, r', form')
  {
    InstantiateAgrees(le, valid, r, r', form, form');
    var x, y := InstantiateIntent(le, valid, r, form), InstantiateIntent(le, valid, r', form');
    if x.Some? {
      SeparatingIsTieFree(le, x.value);
      SameMeaningSameText(le, x.value, y.value);
    }
  }
}
