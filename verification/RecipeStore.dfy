/** Recipe versions and their life from draft to candidate to stable. */
module RecipeStore {
  import opened JsText
  import opened JsonValues

  datatype Status = Draft | Candidate | Stable

  datatype Fixture = Fixture(id: Text, form: Value)

  /** A recipe as `jsonb` holds it, member order forgotten; `rest` is what promotion copies or ignores. */
  datatype Spec = Spec(id: Text, v: Text, name: Text, evals: seq<Value>, fixtures: seq<Fixture>, rest: Value)

  datatype VersionRow = VersionRow(hash: Text, status: Status, json: Spec)

  datatype RecipeRow = RecipeRow(name: Text, version: nat, activeV: Text, spec: Spec)

  type Versions = map<(Text, Text), VersionRow>

  type Fixtures = map<(Text, Text, Text), Fixture>

  datatype Tables = Tables(versions: Versions, fixtures: Fixtures, recipes: map<Text, RecipeRow>)

  /** A recipe's digest: equal exactly for specs equal up to member order. */
  type Digest = Spec -> Text

  ghost predicate Injective(digest: Digest) { forall s, t :: digest(s) == digest(t) ==> s == t }

  // ----- imports -----

  /** One fixture: insert if absent, then compare; `None` where the source throws. */
  function InsertFixture(fixtures: Fixtures, id: Text, v: Text, f: Fixture): Option<Fixtures> {
    var stored := if (id, v, f.id) in fixtures then fixtures else fixtures[(id, v, f.id) := f];
    if stored[(id, v, f.id)] == f then Some(stored) else None
  }

  function InsertFixtures(fixtures: Fixtures, id: Text, v: Text, fs: seq<Fixture>): Option<Fixtures>
    decreases |fs|
  {
    if fs == [] then Some(fixtures)
    else
      match InsertFixture(fixtures, id, v, fs[0])
      case None => None
      case Some(next) => InsertFixtures(next, id, v, fs[1..])
  }

  /** The table's `UNIQUE (id, hash)` besides its key. */
  predicate HashTaken(versions: Versions, id: Text, v: Text, hash: Text) {
    exists k :: k in versions && k.0 == id && k.1 != v && versions[k].hash == hash
  }

  function InsertVersion(digest: Digest, t: Tables, s: Spec, status: Status): Option<Tables> {
    var key, hash := (s.id, s.v), digest(s);
    if key in t.versions && t.versions[key].status.Stable? then None
    else if key !in t.versions && HashTaken(t.versions, s.id, s.v, hash) then None
    else
      var versions := if key in t.versions then t.versions else t.versions[key := VersionRow(hash, status, s)];
      match InsertFixtures(t.fixtures, s.id, s.v, s.fixtures)
      case None => None
      case Some(fixtures) => if versions[key].hash == hash then Some(Tables(versions, fixtures, t.recipes)) else None
  }

  function InsertAll(digest: Digest, t: Tables, specs: seq<Spec>): Option<Tables>
    decreases |specs|
  {
    if specs == [] then Some(t)
    else
      match InsertVersion(digest, t, specs[0], Draft)
      case None => None
      case Some(next) => InsertAll(digest, next, specs[1..])
  }

  /** One transaction: all the bundle's versions, or nothing. */
  function ImportBundle(digest: Digest, t: Tables, specs: seq<Spec>): Tables {
    match InsertAll(digest, t, specs) case Some(t') => t' case None => t
  }

  // ----- candidates and promotion -----

  function WithStatus(t: Tables, id: Text, v: Text, status: Status): Tables
    requires (id, v) in t.versions
  {
    t.(versions := t.versions[(id, v) := t.versions[(id, v)].(status := status)])
  }

  predicate HasStatus(t: Tables, id: Text, v: Text, status: Status) {
    (id, v) in t.versions && t.versions[(id, v)].status == status
  }

  function SetCandidate(t: Tables, id: Text, v: Text): Tables {
    if HasStatus(t, id, v, Draft) then WithStatus(t, id, v, Candidate) else t
  }

  predicate HasFixture(fixtures: Fixtures, id: Text, v: Text) {
    exists k :: k in fixtures && k.0 == id && k.1 == v
  }

  /** `INSERT ... ON CONFLICT (id) DO UPDATE` always offers version 1; on a fresh id it meets the
      table's other constraint, `UNIQUE (name, version)`. */
  predicate NameTaken(t: Tables, id: Text, name: Text) {
    id !in t.recipes && exists other :: other in t.recipes && t.recipes[other].name == name && t.recipes[other].version == 1
  }

  function Activated(t: Tables, id: Text, v: Text, s: Spec): Tables {
    var row := if id in t.recipes then t.recipes[id].(activeV := v, spec := s) else RecipeRow(s.name, 1, v, s);
    t.(recipes := t.recipes[id := row])
  }

  datatype Promotion = Promoted(tables: Tables) | Refused | Threw

  function Promote(t: Tables, id: Text, v: Text): Promotion {
    if !HasStatus(t, id, v, Candidate) then Refused
    else
      var s := t.versions[(id, v)].json;
      if |s.evals| < 1 || !HasFixture(t.fixtures, id, v) then Refused
      else if NameTaken(t, id, s.name) then Threw
      else Promoted(Activated(WithStatus(t, id, v, Stable), id, v, s))
  }

  function PromoteStable(t: Tables, id: Text, v: Text): Tables {
    match Promote(t, id, v) case Promoted(t') => t' case _ => t
  }

  predicate CanPromoteStable(t: Tables, id: Text, v: Text) {
    HasStatus(t, id, v, Candidate) && |t.versions[(id, v)].json.evals| >= 1 && HasFixture(t.fixtures, id, v)
  }

  // ----- sequences of operations -----

  datatype Op = Import(specs: seq<Spec>) | MarkCandidate(id: Text, v: Text) | MarkStable(id: Text, v: Text)

  function Step(digest: Digest, t: Tables, op: Op): Tables {
    match op
    case Import(specs) => ImportBundle(digest, t, specs)
    case MarkCandidate(id, v) => SetCandidate(t, id, v)
    case MarkStable(id, v) => PromoteStable(t, id, v)
  }

  function Run(digest: Digest, t: Tables, ops: seq<Op>): Tables
    decreases |ops|
  {
    if ops == [] then t else Run(digest, Step(digest, t, ops[0]), ops[1..])
  }

  // ----- the same, as statements in transactions -----

  class Store {
    const digest: Digest
    var versions: Versions
    var fixtures: Fixtures
    var recipes: map<Text, RecipeRow>

    ghost function Snapshot(): Tables
      reads this
    {
      Tables(versions, fixtures, recipes)
    }

    constructor (digest: Digest)
      ensures this.digest == digest && Snapshot() == Tables(map[], map[], map[])
    {
      this.digest := digest;
      versions, fixtures, recipes := map[], map[], map[];
    }

    method InsertRecipeFixtures(id: Text, v: Text, fs: seq<Fixture>) returns (ok: bool)
      modifies this`fixtures
      ensures ok <==> InsertFixtures(old(fixtures), id, v, fs).Some?
      ensures ok ==> fixtures == InsertFixtures(old(fixtures), id, v, fs).value
    {
      for k := 0 to |fs|
        invariant InsertFixtures(fixtures, id, v, fs[k..]) == InsertFixtures(old(fixtures), id, v, fs)
      {
        assert fs[k..][1..] == fs[k + 1..];
        if (id, v, fs[k].id) !in fixtures { fixtures := fixtures[(id, v, fs[k].id) := fs[k]]; }
        if fixtures[(id, v, fs[k].id)] != fs[k] { return false; }
      }
      ok := true;
    }

    /** Leaves partial writes behind when it fails; the enclosing transaction undoes them. */
    method InsertOne(s: Spec, status: Status) returns (ok: bool)
      modifies this`versions, this`fixtures
      ensures ok <==> InsertVersion(digest, old(Snapshot()), s, status).Some?
      ensures ok ==> Snapshot() == InsertVersion(digest, old(Snapshot()), s, status).value
    {
      var key, hash := (s.id, s.v), digest(s);
      if key in versions && versions[key].status.Stable? { return false; }
      if key !in versions {
        if HashTaken(versions, s.id, s.v, hash) { return false; }
        versions := versions[key := VersionRow(hash, status, s)];
      }
      ok := InsertRecipeFixtures(s.id, s.v, s.fixtures);
      if !ok { return; }
      ok := versions[key].hash == hash;
    }

    method ImportAll(specs: seq<Spec>) returns (ok: bool)
      modifies this`versions, this`fixtures
      ensures ok <==> InsertAll(digest, old(Snapshot()), specs).Some?
      ensures Snapshot() == ImportBundle(digest, old(Snapshot()), specs)
      ensures !ok ==> Snapshot() == old(Snapshot())
    {
      var begunVersions, begunFixtures := versions, fixtures;
      for k := 0 to |specs|
        invariant InsertAll(digest, Snapshot(), specs[k..]) == InsertAll(digest, old(Snapshot()), specs)
        invariant recipes == old(recipes)
      {
        assert specs[k..][1..] == specs[k + 1..];
        var inserted := InsertOne(specs[k], Draft);
        if !inserted {
          versions, fixtures := begunVersions, begunFixtures;
          return false;
        }
      }
      ok := true;
    }

    method MarkAsCandidate(id: Text, v: Text) returns (marked: bool)
      modifies this`versions
      ensures marked <==> HasStatus(old(Snapshot()), id, v, Draft)
      ensures Snapshot() == SetCandidate(old(Snapshot()), id, v)
    {
      marked := (id, v) in versions && versions[(id, v)].status == Draft;
      if marked { versions := versions[(id, v) := versions[(id, v)].(status := Candidate)]; }
    }

    /** `threw` is the unique violation the upsert can meet. */
    method PromoteToStable(id: Text, v: Text) returns (promoted: bool, threw: bool)
      modifies this`versions, this`recipes
      ensures promoted <==> Promote(old(Snapshot()), id, v).Promoted?
      ensures threw <==> Promote(old(Snapshot()), id, v).Threw?
      ensures Snapshot() == PromoteStable(old(Snapshot()), id, v)
      ensures !promoted ==> Snapshot() == old(Snapshot())
      ensures promoted ==>
        && (id, v) in versions && versions[(id, v)].status.Stable?
        && id in recipes && recipes[id].activeV == v && recipes[id].spec == versions[(id, v)].json
    {
      promoted, threw := false, false;
      var begun := versions;
      if (id, v) !in versions || versions[(id, v)].status != Candidate { return; }
      versions := versions[(id, v) := versions[(id, v)].(status := Stable)];
      var spec := versions[(id, v)].json;
      if |spec.evals| < 1 || !HasFixture(fixtures, id, v) {
        versions := begun;
        return;
      }
      if id in recipes {
        recipes := recipes[id := recipes[id].(activeV := v, spec := spec)];
      } else if exists other :: other in recipes && recipes[other].name == spec.name && recipes[other].version == 1 {
        versions, threw := begun, true;
        return;
      } else {
        recipes := recipes[id := RecipeRow(spec.name, 1, v, spec)];
      }
      promoted := true;
    }
  }
}
