/** What any sequence of imports, candidate marks and promotions keeps. */
module RecipeStoreProofs {
  import opened JsText
  import opened JsonValues
  import opened RecipeStore

  // ----- the invariant -----

  /** A version the tables held before any import: stable, with no eval or fixture asked of it, and under
      a hash of another kind, which no digest equals. */
  ghost predicate IsLegacy(digest: Digest, k: (Text, Text), row: VersionRow) {
    row.json.id == k.0 && row.json.v == k.1 && row.status.Stable? && row.json.fixtures == [] && forall s :: digest(s) != row.hash
  }

  ghost predicate VersionOk(digest: Digest, legacy: Versions, k: (Text, Text), row: VersionRow) {
    if k in legacy then row == legacy[k] && IsLegacy(digest, k, row)
    else row.json.id == k.0 && row.json.v == k.1 && row.hash == digest(row.json)
  }

  /** A version's fixtures are in the table, as the version lists them. */
  predicate FixturesStored(fixtures: Fixtures, s: Spec) {
    forall i :: 0 <= i < |s.fixtures| ==>
      (s.id, s.v, s.fixtures[i].id) in fixtures && fixtures[(s.id, s.v, s.fixtures[i].id)] == s.fixtures[i]
  }

  /** A stored fixture is one its version lists. */
  predicate FixtureListed(versions: Versions, k: (Text, Text, Text), f: Fixture) {
    (k.0, k.1) in versions && f.id == k.2 && f in versions[(k.0, k.1)].json.fixtures
  }

  predicate Covered(row: VersionRow) { |row.json.evals| >= 1 && |row.json.fixtures| >= 1 }

  /** A recipe's active version is stable and, unless it is a legacy one, has the stored spec. */
  predicate ActiveOk(legacy: Versions, versions: Versions, id: Text, row: RecipeRow) {
    && HasStatus(Tables(versions, map[], map[]), id, row.activeV, Stable)
    && ((id, row.activeV) in legacy || versions[(id, row.activeV)].json == row.spec)
  }

  /** What holds of tables that started with the legacy versions and nothing else imported. */
  ghost predicate Inv(digest: Digest, legacy: Versions, t: Tables) {
    && legacy.Keys <= t.versions.Keys
    && (forall k :: k in t.versions ==> VersionOk(digest, legacy, k, t.versions[k]) && FixturesStored(t.fixtures, t.versions[k].json))
    && (forall k :: k in t.versions && k !in legacy && t.versions[k].status.Stable? ==> Covered(t.versions[k]))
    && (forall k :: k in t.fixtures ==> FixtureListed(t.versions, k, t.fixtures[k]))
    && (forall id :: id in t.recipes ==> ActiveOk(legacy, t.versions, id, t.recipes[id]))
  }

  function Rank(s: Status): nat { match s case Draft => 0 case Candidate => 1 case Stable => 2 }

  /** Versions are never dropped or rewritten, and only move up; recipes never disappear. */
  ghost predicate Evolves(t: Tables, t': Tables) {
    && (forall k :: k in t.versions ==> k in t'.versions && Grows(t.versions[k], t'.versions[k]))
    && (forall k :: k in t.fixtures ==> k in t'.fixtures && t'.fixtures[k] == t.fixtures[k])
    && (forall id :: id in t.recipes ==> id in t'.recipes)
  }

  predicate Grows(a: VersionRow, b: VersionRow) { a.json == b.json && a.hash == b.hash && Rank(a.status) <= Rank(b.status) }

  // ----- imports -----

  lemma {:induction false} InsertFixturesStores(fixtures: Fixtures, id: Text, v: Text, fs: seq<Fixture>)
    requires InsertFixtures(fixtures, id, v, fs).Some?
    ensures
      var after := InsertFixtures(fixtures, id, v, fs).value;
      && (forall k :: k in fixtures ==> k in after && after[k] == fixtures[k])
      && (forall i :: 0 <= i < |fs| ==> (id, v, fs[i].id) in after && after[(id, v, fs[i].id)] == fs[i])
      && (forall k :: k in after && k !in fixtures ==> k.0 == id && k.1 == v && after[k] in fs && after[k].id == k.2)
    decreases |fs|
  {
    if fs != [] {
      var next := InsertFixture(fixtures, id, v, fs[0]).value;
      InsertFixturesStores(next, id, v, fs[1..]);
      var after := InsertFixtures(fixtures, id, v, fs).value;
      forall i | 0 <= i < |fs|
        ensures (id, v, fs[i].id) in after && after[(id, v, fs[i].id)] == fs[i]
      {
        if i > 0 { assert fs[1..][i - 1] == fs[i]; }
      }
    }
  }

  /** The `UNIQUE (id, hash)` constraint never fires: equal digests are equal specs. */
  lemma HashNeverTaken(digest: Digest, legacy: Versions, t: Tables, s: Spec)
    requires Injective(digest) && Inv(digest, legacy, t)
    ensures !HashTaken(t.versions, s.id, s.v, digest(s))
  {}

  /** What a version's import adds: its row if there was none, and its fixtures. */
  lemma InsertVersionAdds(digest: Digest, legacy: Versions, t: Tables, s: Spec)
    requires Injective(digest) && Inv(digest, legacy, t) && InsertVersion(digest, t, s, Draft).Some?
    ensures
      var t' := InsertVersion(digest, t, s, Draft).value;
      && t'.recipes == t.recipes && InsertFixtures(t.fixtures, s.id, s.v, s.fixtures) == Some(t'.fixtures)
      && (if (s.id, s.v) in t.versions then t'.versions == t.versions && t.versions[(s.id, s.v)].json == s
          else t'.versions == t.versions[(s.id, s.v) := VersionRow(digest(s), Draft, s)])
  {}

  lemma FixturesStayListed(digest: Digest, legacy: Versions, t: Tables, s: Spec)
    requires Injective(digest) && Inv(digest, legacy, t) && InsertVersion(digest, t, s, Draft).Some?
    ensures
      var t' := InsertVersion(digest, t, s, Draft).value;
      forall k :: k in t'.fixtures ==> FixtureListed(t'.versions, k, t'.fixtures[k])
  {
    InsertVersionAdds(digest, legacy, t, s);
    InsertFixturesStores(t.fixtures, s.id, s.v, s.fixtures);
    var t' := InsertVersion(digest, t, s, Draft).value;
    forall k | k in t'.fixtures
      ensures FixtureListed(t'.versions, k, t'.fixtures[k])
    {
      if k in t.fixtures { assert FixtureListed(t.versions, k, t.fixtures[k]); }
    }
  }

  lemma VersionsStayOk(digest: Digest, legacy: Versions, t: Tables, s: Spec)
    requires Injective(digest) && Inv(digest, legacy, t) && InsertVersion(digest, t, s, Draft).Some?
    ensures
      var t' := InsertVersion(digest, t, s, Draft).value;
      forall k :: k in t'.versions ==> VersionOk(digest, legacy, k, t'.versions[k]) && FixturesStored(t'.fixtures, t'.versions[k].json)
  {
    InsertVersionAdds(digest, legacy, t, s);
    InsertFixturesStores(t.fixtures, s.id, s.v, s.fixtures);
    var t' := InsertVersion(digest, t, s, Draft).value;
    forall k | k in t'.versions
      ensures VersionOk(digest, legacy, k, t'.versions[k]) && FixturesStored(t'.fixtures, t'.versions[k].json)
    {
      if k in t.versions { assert VersionOk(digest, legacy, k, t.versions[k]) && FixturesStored(t.fixtures, t.versions[k].json); }
    }
  }

  lemma InsertVersionEvolves(digest: Digest, legacy: Versions, t: Tables, s: Spec)
    requires Injective(digest) && Inv(digest, legacy, t) && InsertVersion(digest, t, s, Draft).Some?
    ensures
      var t' := InsertVersion(digest, t, s, Draft).value;
      Evolves(t, t') && t'.recipes == t.recipes && (s.id, s.v) in t'.versions && t'.versions[(s.id, s.v)].json == s
  {
    InsertVersionAdds(digest, legacy, t, s);
    InsertFixturesStores(t.fixtures, s.id, s.v, s.fixtures);
  }

  lemma InsertVersionKeepsInv(digest: Digest, legacy: Versions, t: Tables, s: Spec)
    requires Injective(digest) && Inv(digest, legacy, t) && InsertVersion(digest, t, s, Draft).Some?
    ensures Inv(digest, legacy, InsertVersion(digest, t, s, Draft).value)
  {
    InsertVersionEvolves(digest, legacy, t, s);
    VersionsStayOk(digest, legacy, t, s);
    FixturesStayListed(digest, legacy, t, s);
    ActivesStayOk(digest, legacy, t, s);
  }

  lemma ActivesStayOk(digest: Digest, legacy: Versions, t: Tables, s: Spec)
    requires Injective(digest) && Inv(digest, legacy, t) && InsertVersion(digest, t, s, Draft).Some?
    ensures var t' := InsertVersion(digest, t, s, Draft).value; forall id :: id in t'.recipes ==> ActiveOk(legacy, t'.versions, id, t'.recipes[id])
  {
    InsertVersionEvolves(digest, legacy, t, s);
    var t' := InsertVersion(digest, t, s, Draft).value;
    forall id | id in t'.recipes ensures ActiveOk(legacy, t'.versions, id, t'.recipes[id]) { assert ActiveOk(legacy, t.versions, id, t.recipes[id]); }
  }

  lemma EvolvesTrans(a: Tables, b: Tables, c: Tables)
    requires Evolves(a, b) && Evolves(b, c)
    ensures Evolves(a, c)
  {}

  lemma {:induction false} InsertAllKeepsInv(digest: Digest, legacy: Versions, t: Tables, specs: seq<Spec>)
    requires Injective(digest) && Inv(digest, legacy, t) && InsertAll(digest, t, specs).Some?
    ensures
      var t' := InsertAll(digest, t, specs).value;
      Inv(digest, legacy, t') && Evolves(t, t') && t'.recipes == t.recipes
    ensures forall i :: 0 <= i < |specs| ==>
      var t' := InsertAll(digest, t, specs).value;
      (specs[i].id, specs[i].v) in t'.versions && t'.versions[(specs[i].id, specs[i].v)].json == specs[i]
    decreases |specs|
  {
    if specs != [] {
      InsertVersionKeepsInv(digest, legacy, t, specs[0]);
      InsertVersionEvolves(digest, legacy, t, specs[0]);
      var next := InsertVersion(digest, t, specs[0], Draft).value;
      InsertAllKeepsInv(digest, legacy, next, specs[1..]);
      var t' := InsertAll(digest, t, specs).value;
      EvolvesTrans(t, next, t');
      assert Grows(next.versions[(specs[0].id, specs[0].v)], t'.versions[(specs[0].id, specs[0].v)]);
      forall i | 0 < i < |specs|
        ensures (specs[i].id, specs[i].v) in t'.versions && t'.versions[(specs[i].id, specs[i].v)].json == specs[i]
      {
        assert specs[1..][i - 1] == specs[i];
      }
    }
  }

  // ----- status changes -----

  lemma StatusKeepsInv(digest: Digest, legacy: Versions, t: Tables, id: Text, v: Text, status: Status)
    requires Inv(digest, legacy, t) && (id, v) in t.versions && Rank(t.versions[(id, v)].status) < Rank(status)
    requires status.Stable? ==> Covered(t.versions[(id, v)])
    ensures Inv(digest, legacy, WithStatus(t, id, v, status))
  {
    assert VersionOk(digest, legacy, (id, v), t.versions[(id, v)]);
    StatusKeepsVersions(digest, legacy, t, id, v, status);
    StatusKeepsRest(digest, legacy, t, id, v, status);
  }

  lemma StatusKeepsRest(digest: Digest, legacy: Versions, t: Tables, id: Text, v: Text, status: Status)
    requires Inv(digest, legacy, t) && (id, v) in t.versions && !t.versions[(id, v)].status.Stable?
    ensures
      var t' := WithStatus(t, id, v, status);
      && (forall k :: k in t'.fixtures ==> FixtureListed(t'.versions, k, t'.fixtures[k]))
      && forall r :: r in t'.recipes ==> ActiveOk(legacy, t'.versions, r, t'.recipes[r])
  {
    var t' := WithStatus(t, id, v, status);
    forall k | k in t'.fixtures ensures FixtureListed(t'.versions, k, t'.fixtures[k]) { assert FixtureListed(t.versions, k, t.fixtures[k]); }
    forall r | r in t'.recipes ensures ActiveOk(legacy, t'.versions, r, t'.recipes[r]) { assert ActiveOk(legacy, t.versions, r, t.recipes[r]); }
  }

  lemma StatusEvolves(t: Tables, id: Text, v: Text, status: Status)
    requires (id, v) in t.versions && Rank(t.versions[(id, v)].status) <= Rank(status)
    ensures Evolves(t, WithStatus(t, id, v, status))
  {}

  lemma StatusKeepsVersions(digest: Digest, legacy: Versions, t: Tables, id: Text, v: Text, status: Status)
    requires Inv(digest, legacy, t) && (id, v) in t.versions && (id, v) !in legacy
    ensures
      var t' := WithStatus(t, id, v, status);
      forall k :: k in t'.versions ==> VersionOk(digest, legacy, k, t'.versions[k]) && FixturesStored(t'.fixtures, t'.versions[k].json)
  {
    var t' := WithStatus(t, id, v, status);
    forall k | k in t'.versions
      ensures VersionOk(digest, legacy, k, t'.versions[k]) && FixturesStored(t'.fixtures, t'.versions[k].json)
    {
      assert VersionOk(digest, legacy, k, t.versions[k]) && FixturesStored(t.fixtures, t.versions[k].json);
    }
  }

  /** The fixture count in the table and in the version's own list say the same. */
  lemma FixturesCounted(digest: Digest, legacy: Versions, t: Tables, id: Text, v: Text)
    requires Inv(digest, legacy, t) && (id, v) in t.versions
    ensures HasFixture(t.fixtures, id, v) <==> |t.versions[(id, v)].json.fixtures| >= 1
  {
    var s := t.versions[(id, v)].json;
    assert VersionOk(digest, legacy, (id, v), t.versions[(id, v)]) && FixturesStored(t.fixtures, s);
    if HasFixture(t.fixtures, id, v) {
      var k :| k in t.fixtures && k.0 == id && k.1 == v;
      assert FixtureListed(t.versions, k, t.fixtures[k]);
    }
    if |s.fixtures| >= 1 {
      assert (s.id, s.v, s.fixtures[0].id) in t.fixtures;
    }
  }

  lemma PromoteKeepsInv(digest: Digest, legacy: Versions, t: Tables, id: Text, v: Text)
    requires Inv(digest, legacy, t)
    ensures Inv(digest, legacy, PromoteStable(t, id, v)) && Evolves(t, PromoteStable(t, id, v))
  {
    if Promote(t, id, v).Promoted? {
      FixturesCounted(digest, legacy, t, id, v);
      StatusKeepsInv(digest, legacy, t, id, v, Stable);
      StatusEvolves(t, id, v, Stable);
      ActivatedKeepsInv(digest, legacy, WithStatus(t, id, v, Stable), id, v);
    }
  }

  lemma ActivatedKeepsInv(digest: Digest, legacy: Versions, t: Tables, id: Text, v: Text)
    requires Inv(digest, legacy, t) && HasStatus(t, id, v, Stable)
    ensures Inv(digest, legacy, Activated(t, id, v, t.versions[(id, v)].json))
  {
    var t' := Activated(t, id, v, t.versions[(id, v)].json);
    forall r | r in t'.recipes ensures ActiveOk(legacy, t'.versions, r, t'.recipes[r]) {
      if r != id { assert ActiveOk(legacy, t.versions, r, t.recipes[r]); }
    }
  }

  // ----- every sequence of operations -----

  lemma StepKeepsInv(digest: Digest, legacy: Versions, t: Tables, op: Op)
    requires Injective(digest) && Inv(digest, legacy, t)
    ensures Inv(digest, legacy, Step(digest, t, op)) && Evolves(t, Step(digest, t, op))
  {
    match op {
      case Import(specs) => if InsertAll(digest, t, specs).Some? { InsertAllKeepsInv(digest, legacy, t, specs); }
      case MarkCandidate(id, v) => if HasStatus(t, id, v, Draft) {
        StatusKeepsInv(digest, legacy, t, id, v, Candidate);
        StatusEvolves(t, id, v, Candidate);
      }
      case MarkStable(id, v) => PromoteKeepsInv(digest, legacy, t, id, v);
    }
  }

  /** Over any sequence of imports, candidate marks and promotions: stored versions keep their spec
      and hash and only move draft, candidate, stable; stable ones have an eval and a fixture; an
      active version is a stable one, with its spec. */
  lemma {:induction false} RunKeepsInv(digest: Digest, legacy: Versions, t: Tables, ops: seq<Op>)
    requires Injective(digest) && Inv(digest, legacy, t)
    ensures Inv(digest, legacy, Run(digest, t, ops)) && Evolves(t, Run(digest, t, ops))
    decreases |ops|
  {
    if ops != [] {
      StepKeepsInv(digest, legacy, t, ops[0]);
      RunKeepsInv(digest, legacy, Step(digest, t, ops[0]), ops[1..]);
      EvolvesTrans(t, Step(digest, t, ops[0]), Run(digest, t, ops));
    }
  }

  /** A migrated database is a starting point, and so is an empty one. */
  lemma MigratedIsFine(digest: Digest, legacy: Versions, recipes: map<Text, RecipeRow>)
    requires forall k :: k in legacy ==> IsLegacy(digest, k, legacy[k])
    requires forall id :: id in recipes ==> (id, recipes[id].activeV) in legacy
    ensures Inv(digest, legacy, Tables(legacy, map[], recipes))
  {}

  // ----- when promotion succeeds -----

  /** `promoteStable` returns true exactly when `canPromoteStable` holds and the name is free. */
  lemma PromotesExactly(t: Tables, id: Text, v: Text)
    ensures Promote(t, id, v).Promoted? <==> CanPromoteStable(t, id, v) && !NameTaken(t, id, t.versions[(id, v)].json.name)
    ensures Promote(t, id, v).Refused? <==> !CanPromoteStable(t, id, v)
  {}

  /** So the two disagree: after two recipes of one name have been imported and marked, promoting
      the first leaves the second promotable by `canPromoteStable`, and `promoteStable` throws. */
  lemma SecondOfOneNameThrows(digest: Digest, a: Spec, b: Spec)
    requires Injective(digest) && a.id != b.id && a.name == b.name
    requires |a.evals| >= 1 && |b.evals| >= 1 && |a.fixtures| == 1 && |b.fixtures| == 1
    ensures
      var t := Run(digest, Tables(map[], map[], map[]),
                   [Import([a]), Import([b]), MarkCandidate(a.id, a.v), MarkCandidate(b.id, b.v), MarkStable(a.id, a.v)]);
      CanPromoteStable(t, b.id, b.v) && Promote(t, b.id, b.v).Threw?
  {
    var t0 := Tables(map[], map[], map[]);
    var fa, fb := (a.id, a.v, a.fixtures[0].id), (b.id, b.v, b.fixtures[0].id);
    InsertOnly(digest, t0, a);
    var t1 := Step(digest, t0, Import([a]));
    InsertOnly(digest, t1, b);
    var t2 := Step(digest, t1, Import([b]));
    var t3 := Step(digest, t2, MarkCandidate(a.id, a.v));
    var t4 := Step(digest, t3, MarkCandidate(b.id, b.v));
    assert fa in t4.fixtures && fb in t4.fixtures;
    var t5 := Step(digest, t4, MarkStable(a.id, a.v));
    assert a.id in t5.recipes && t5.recipes[a.id].name == b.name;
    RunFive(digest, t0, Import([a]), Import([b]), MarkCandidate(a.id, a.v), MarkCandidate(b.id, b.v), MarkStable(a.id, a.v));
  }

  lemma InsertOnly(digest: Digest, t: Tables, s: Spec)
    requires |s.fixtures| == 1 && (s.id, s.v) !in t.versions && (s.id, s.v, s.fixtures[0].id) !in t.fixtures
    requires forall k :: k in t.versions ==> k.0 != s.id
    ensures Step(digest, t, Import([s])) ==
      Tables(t.versions[(s.id, s.v) := VersionRow(digest(s), Draft, s)], t.fixtures[(s.id, s.v, s.fixtures[0].id) := s.fixtures[0]], t.recipes)
  {
    assert s.fixtures[1..] == [] && [s][1..] == [];
    var fixtures := t.fixtures[(s.id, s.v, s.fixtures[0].id) := s.fixtures[0]];
    assert InsertFixtures(fixtures, s.id, s.v, []) == Some(fixtures);
    assert InsertFixtures(t.fixtures, s.id, s.v, s.fixtures) == Some(fixtures);
    var t' := Tables(t.versions[(s.id, s.v) := VersionRow(digest(s), Draft, s)], fixtures, t.recipes);
    assert !HashTaken(t.versions, s.id, s.v, digest(s));
    assert InsertVersion(digest, t, s, Draft) == Some(t');
    assert InsertAll(digest, t', []) == Some(t');
  }

  lemma RunFive(digest: Digest, t: Tables, a: Op, b: Op, c: Op, d: Op, e: Op)
    ensures Run(digest, t, [a, b, c, d, e]) == Step(digest, Step(digest, Step(digest, Step(digest, Step(digest, t, a), b), c), d), e)
  {
    assert [a, b, c, d, e][1..] == [b, c, d, e] && [b, c, d, e][1..] == [c, d, e];
    assert [c, d, e][1..] == [d, e] && [d, e][1..] == [e] && [e][1..] == [];
    var t4 := Step(digest, Step(digest, Step(digest, Step(digest, t, a), b), c), d);
    assert Run(digest, t4, [e]) == Step(digest, t4, e);
    var t3 := Step(digest, Step(digest, Step(digest, t, a), b), c);
    assert Run(digest, t3, [d, e]) == Run(digest, t4, [e]);
    var t2 := Step(digest, Step(digest, t, a), b);
    assert Run(digest, t2, [c, d, e]) == Run(digest, t3, [d, e]);
  }
}
