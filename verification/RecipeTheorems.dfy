/** What each operation on recipes leaves in the tables, and which version is active after any of them. */
module RecipeTheorems {
  import opened JsText
  import opened JsonValues
  import opened RecipeStore
  import opened RecipeStoreProofs

  // ----- one operation -----

  /** `findStable`: the join of the recipe with its active version, where that is stable. */
  predicate FindsStable(t: Tables, id: Text, row: VersionRow) {
    && id in t.recipes && (id, t.recipes[id].activeV) in t.versions
    && row == t.versions[(id, t.recipes[id].activeV)] && row.status.Stable?
  }

  /** Only this version's row may differ. */
  ghost predicate OnlyVersion(t: Tables, t': Tables, key: (Text, Text)) {
    && (forall k :: k != key ==> (k in t'.versions <==> k in t.versions))
    && (forall k :: k in t.versions && k != key ==> t'.versions[k] == t.versions[k])
    && t'.fixtures == t.fixtures
  }

  /** Only this recipe's row may differ. */
  ghost predicate OnlyRecipe(t: Tables, t': Tables, id: Text) {
    && (forall r :: r != id ==> (r in t'.recipes <==> r in t.recipes))
    && (forall r :: r in t.recipes && r != id ==> t'.recipes[r] == t.recipes[r])
  }

  /** After a promotion the recipe's stable version is the one promoted, with its spec; a recipe's name and
      table version are as they were, or the spec's name and 1; nothing else has changed. */
  lemma PromotedExactly(t: Tables, id: Text, v: Text)
    requires Promote(t, id, v).Promoted?
    ensures
      var t' := Promote(t, id, v).tables;
      && (id, v) in t.versions && FindsStable(t', id, t.versions[(id, v)].(status := Stable))
      && t'.recipes[id].activeV == v && t'.recipes[id].spec == t.versions[(id, v)].json
      && (if id in t.recipes then t'.recipes[id].name == t.recipes[id].name && t'.recipes[id].version == t.recipes[id].version
          else t'.recipes[id].name == t.versions[(id, v)].json.name && t'.recipes[id].version == 1)
      && OnlyVersion(t, t', (id, v)) && OnlyRecipe(t, t', id)
  {}

  /** A draft becomes a candidate; nothing else does, and nothing else changes. */
  lemma MarkedExactly(t: Tables, id: Text, v: Text)
    ensures
      var t' := SetCandidate(t, id, v);
      && OnlyVersion(t, t', (id, v)) && t'.recipes == t.recipes
      && ((id, v) in t'.versions <==> (id, v) in t.versions)
      && ((id, v) in t.versions ==>
          t'.versions[(id, v)] == if t.versions[(id, v)].status.Draft? then t.versions[(id, v)].(status := Candidate) else t.versions[(id, v)])
  {}

  predicate IsNewDraft(digest: Digest, specs: seq<Spec>, k: (Text, Text), row: VersionRow) {
    row.json in specs && k == (row.json.id, row.json.v) && row.status.Draft? && row.hash == digest(row.json)
  }

  predicate IsStored(t: Tables, s: Spec) { (s.id, s.v) in t.versions && t.versions[(s.id, s.v)].json == s }

  /** Every version is there with its spec, those that were not there before as drafts under their digests;
      versions there before and recipes are as they were. */
  ghost predicate Imports(digest: Digest, t: Tables, specs: seq<Spec>, t': Tables) {
    && t'.recipes == t.recipes
    && (forall k :: k in t.versions ==> k in t'.versions && t'.versions[k] == t.versions[k])
    && (forall k :: k in t'.versions && k !in t.versions ==> IsNewDraft(digest, specs, k, t'.versions[k]))
    && (forall i :: 0 <= i < |specs| ==> IsStored(t', specs[i]))
  }

  lemma ImportsFirst(digest: Digest, legacy: Versions, t: Tables, specs: seq<Spec>)
    requires Injective(digest) && Inv(digest, legacy, t) && specs != [] && InsertVersion(digest, t, specs[0], Draft).Some?
    ensures Imports(digest, t, [specs[0]], InsertVersion(digest, t, specs[0], Draft).value)
  {
    InsertVersionAdds(digest, legacy, t, specs[0]);
  }

  lemma ImportsMore(digest: Digest, t: Tables, specs: seq<Spec>, next: Tables, t': Tables)
    requires specs != [] && Imports(digest, t, [specs[0]], next) && Imports(digest, next, specs[1..], t')
    ensures Imports(digest, t, specs, t')
  {
    assert IsStored(next, [specs[0]][0]);
    forall i | 0 <= i < |specs| ensures IsStored(t', specs[i]) {
      if i > 0 { assert specs[1..][i - 1] == specs[i]; }
    }
    forall k | k in t'.versions && k !in t.versions ensures IsNewDraft(digest, specs, k, t'.versions[k]) {
      if k in next.versions { assert IsNewDraft(digest, [specs[0]], k, next.versions[k]); }
      else { assert IsNewDraft(digest, specs[1..], k, t'.versions[k]); }
    }
  }

  /** A bundle is imported whole, as drafts. */
  lemma {:induction false} ImportedAsDrafts(digest: Digest, legacy: Versions, t: Tables, specs: seq<Spec>)
    requires Injective(digest) && Inv(digest, legacy, t) && InsertAll(digest, t, specs).Some?
    ensures Imports(digest, t, specs, InsertAll(digest, t, specs).value)
    decreases |specs|
  {
    if specs != [] {
      var next := InsertVersion(digest, t, specs[0], Draft).value;
      ImportsFirst(digest, legacy, t, specs);
      InsertVersionKeepsInv(digest, legacy, t, specs[0]);
      ImportedAsDrafts(digest, legacy, next, specs[1..]);
      ImportsMore(digest, t, specs, next, InsertAll(digest, t, specs).value);
    }
  }

  /** Fixtures of one id are one fixture. */
  predicate OneFixtureEach(fs: seq<Fixture>) {
    forall i, j :: 0 <= i < |fs| && 0 <= j < |fs| && fs[i].id == fs[j].id ==> fs[i] == fs[j]
  }

  /** What is stored under a fixture's id is that fixture. */
  predicate NoneDiffers(fixtures: Fixtures, id: Text, v: Text, fs: seq<Fixture>) {
    forall i :: 0 <= i < |fs| && (id, v, fs[i].id) in fixtures ==> fixtures[(id, v, fs[i].id)] == fs[i]
  }

  lemma {:induction false} FixturesGoInExactly(fixtures: Fixtures, id: Text, v: Text, fs: seq<Fixture>)
    ensures InsertFixtures(fixtures, id, v, fs).Some? <==> OneFixtureEach(fs) && NoneDiffers(fixtures, id, v, fs)
    decreases |fs|
  {
    if fs != [] {
      assert forall i :: 0 <= i < |fs[1..]| ==> fs[1..][i] == fs[i + 1];
      assert forall i :: 1 <= i < |fs| ==> fs[i] == fs[1..][i - 1];
      if InsertFixture(fixtures, id, v, fs[0]).Some? {
        var next := InsertFixture(fixtures, id, v, fs[0]).value;
        FixturesGoInExactly(next, id, v, fs[1..]);
        NextFixtures(fixtures, id, v, fs, next);
      }
    }
  }

  lemma NextFixtures(fixtures: Fixtures, id: Text, v: Text, fs: seq<Fixture>, next: Fixtures)
    requires fs != [] && InsertFixture(fixtures, id, v, fs[0]) == Some(next)
    ensures OneFixtureEach(fs) && NoneDiffers(fixtures, id, v, fs) <==> OneFixtureEach(fs[1..]) && NoneDiffers(next, id, v, fs[1..])
  {
    assert forall i :: 0 <= i < |fs[1..]| ==> fs[1..][i] == fs[i + 1];
    assert forall i :: 1 <= i < |fs| ==> fs[i] == fs[1..][i - 1];
    assert next[(id, v, fs[0].id)] == fs[0];
    if OneFixtureEach(fs[1..]) && NoneDiffers(next, id, v, fs[1..]) {
      forall i | 1 <= i < |fs| && fs[i].id == fs[0].id ensures fs[i] == fs[0] {
        assert (id, v, fs[1..][i - 1].id) in next;
      }
    }
  }

  /** A version can be imported exactly when it is new and lists no id twice with different forms, or it is
      there with the same spec and not yet stable. */
  lemma ImportsExactly(digest: Digest, legacy: Versions, t: Tables, s: Spec)
    requires Injective(digest) && Inv(digest, legacy, t)
    ensures InsertVersion(digest, t, s, Draft).Some? <==>
      if (s.id, s.v) in t.versions then !t.versions[(s.id, s.v)].status.Stable? && t.versions[(s.id, s.v)].json == s
      else OneFixtureEach(s.fixtures)
  {
    HashNeverTaken(digest, legacy, t, s);
    FixturesGoInExactly(t.fixtures, s.id, s.v, s.fixtures);
    if (s.id, s.v) in t.versions {
      StoredFixturesAgree(digest, legacy, t, s);
    } else {
      forall k | k in t.fixtures ensures (k.0, k.1) in t.versions { assert FixtureListed(t.versions, k, t.fixtures[k]); }
    }
  }

  lemma StoredFixturesAgree(digest: Digest, legacy: Versions, t: Tables, s: Spec)
    requires Injective(digest) && Inv(digest, legacy, t) && (s.id, s.v) in t.versions
    ensures t.versions[(s.id, s.v)].json == s ==> OneFixtureEach(s.fixtures) && NoneDiffers(t.fixtures, s.id, s.v, s.fixtures)
    ensures !t.versions[(s.id, s.v)].status.Stable? ==> (t.versions[(s.id, s.v)].hash == digest(s) <==> t.versions[(s.id, s.v)].json == s)
  {
    var row := t.versions[(s.id, s.v)];
    assert VersionOk(digest, legacy, (s.id, s.v), row) && FixturesStored(t.fixtures, row.json);
  }

  // ----- any sequence of operations -----

  /** This operation promotes a version of the recipe. */
  predicate Promotes(t: Tables, op: Op, id: Text) {
    op.MarkStable? && op.id == id && CanPromoteStable(t, id, op.v) && !NameTaken(t, id, t.versions[(id, op.v)].json.name)
  }

  /** The version of the recipe that was promoted last, if any was. */
  function LastPromoted(digest: Digest, t: Tables, ops: seq<Op>, id: Text): Option<Text>
    decreases |ops|
  {
    if ops == [] then None
    else
      match LastPromoted(digest, Step(digest, t, ops[0]), ops[1..], id)
      case Some(v) => Some(v)
      case None => if Promotes(t, ops[0], id) then Some(ops[0].v) else None
  }

  lemma StepRecipe(digest: Digest, legacy: Versions, t: Tables, op: Op, id: Text)
    requires Injective(digest) && Inv(digest, legacy, t)
    ensures
      var t' := Step(digest, t, op);
      if Promotes(t, op, id) then
        id in t'.recipes && t'.recipes[id].activeV == op.v && (id, op.v) in t.versions && t'.recipes[id].spec == t.versions[(id, op.v)].json
      else (id in t'.recipes <==> id in t.recipes) && (id in t.recipes ==> t'.recipes[id] == t.recipes[id])
  {
    match op {
      case Import(specs) => if InsertAll(digest, t, specs).Some? { ImportedAsDrafts(digest, legacy, t, specs); }
      case MarkCandidate(_, _) =>
      case MarkStable(other, v) => PromotesExactly(t, other, v);
    }
  }

  /** Over any sequence of imports, candidate marks and promotions: a recipe's active version is the one
      promoted last, stable and with its spec, and as it was before if none was. */
  lemma {:induction false} ActiveIsLastPromoted(digest: Digest, legacy: Versions, t: Tables, ops: seq<Op>, id: Text)
    requires Injective(digest) && Inv(digest, legacy, t)
    ensures
      var end := Run(digest, t, ops);
      match LastPromoted(digest, t, ops, id)
      case Some(v) =>
        && (id, v) in end.versions && FindsStable(end, id, end.versions[(id, v)])
        && end.recipes[id].activeV == v && end.recipes[id].spec == end.versions[(id, v)].json
      case None => (id in end.recipes <==> id in t.recipes) && (id in t.recipes ==> end.recipes[id] == t.recipes[id])
    decreases |ops|
  {
    if ops != [] {
      var next := Step(digest, t, ops[0]);
      StepRecipe(digest, legacy, t, ops[0], id);
      StepKeepsInv(digest, legacy, t, ops[0]);
      ActiveIsLastPromoted(digest, legacy, next, ops[1..], id);
      RunKeepsInv(digest, legacy, next, ops[1..]);
      var end := Run(digest, t, ops);
      if LastPromoted(digest, next, ops[1..], id).None? && Promotes(t, ops[0], id) {
        assert Grows(t.versions[(id, ops[0].v)], next.versions[(id, ops[0].v)]);
        assert Grows(next.versions[(id, ops[0].v)], end.versions[(id, ops[0].v)]);
        assert ActiveOk(legacy, next.versions, id, next.recipes[id]);
      }
    }
  }
}
