/** Saving a result's artifacts: an index at row 0 and the artifacts after it, each insert first
    writer wins and then compared. */
module SaveArtifacts {
  import opened JsText
  import opened Utf8
  import opened JsonValues
  import opened StableSort
  import opened CanonicalJson
  import opened DecisionPayload
  import opened ArtifactStore
  import ArtifactUri

  // kinds, names and keys, in code units
  const STDOUT: Text := [0x73, 0x74, 0x64, 0x6F, 0x75, 0x74] // stdout
  const STDERR: Text := [0x73, 0x74, 0x64, 0x65, 0x72, 0x72] // stderr
  const FILE: Text := [0x66, 0x69, 0x6C, 0x65] // file
  const RAW: Text := [0x72, 0x61, 0x77] // raw
  const TIMINGS: Text := [0x74, 0x69, 0x6D, 0x69, 0x6E, 0x67, 0x73] // timings
  const JSON_DIAGNOSTIC: Text :=
    [0x6A, 0x73, 0x6F, 0x6E, 0x5F, 0x64, 0x69, 0x61, 0x67, 0x6E, 0x6F, 0x73, 0x74, 0x69, 0x63] // json_diagnostic
  const ARTIFACT_INDEX: Text := [0x61, 0x72, 0x74, 0x69, 0x66, 0x61, 0x63, 0x74, 0x5F, 0x69, 0x6E, 0x64, 0x65, 0x78] // artifact_index
  const STDOUT_LOG: Text := [0x73, 0x74, 0x64, 0x6F, 0x75, 0x74, 0x2E, 0x6C, 0x6F, 0x67] // stdout.log
  const STDERR_LOG: Text := [0x73, 0x74, 0x64, 0x65, 0x72, 0x72, 0x2E, 0x6C, 0x6F, 0x67] // stderr.log
  const FILES: Text := [0x66, 0x69, 0x6C, 0x65, 0x73, 0x2F] // files/
  const RAW_JSON: Text := [0x72, 0x61, 0x77, 0x2E, 0x6A, 0x73, 0x6F, 0x6E] // raw.json
  const METRICS_JSON: Text := [0x6D, 0x65, 0x74, 0x72, 0x69, 0x63, 0x73, 0x2E, 0x6A, 0x73, 0x6F, 0x6E] // metrics.json
  const SBX_BOOT_JSON: Text := [0x73, 0x62, 0x78, 0x2D, 0x62, 0x6F, 0x6F, 0x74, 0x2E, 0x6A, 0x73, 0x6F, 0x6E] // sbx-boot.json
  const INDEX_JSON: Text := [0x69, 0x6E, 0x64, 0x65, 0x78, 0x2E, 0x6A, 0x73, 0x6F, 0x6E] // index.json
  const TEXT: Text := [0x74, 0x65, 0x78, 0x74] // text
  const JSON: Text := [0x6A, 0x73, 0x6F, 0x6E] // json
  const PROVIDER: Text := [0x70, 0x72, 0x6F, 0x76, 0x69, 0x64, 0x65, 0x72] // provider
  const TEMPLATE: Text := [0x74, 0x65, 0x6D, 0x70, 0x6C, 0x61, 0x74, 0x65] // template
  const BOOT_MS: Text := [0x62, 0x6F, 0x6F, 0x74, 0x4D, 0x73] // bootMs
  const TASK_KEY: Text := [0x74, 0x61, 0x73, 0x6B, 0x4B, 0x65, 0x79] // taskKey
  const ITEMS: Text := [0x69, 0x74, 0x65, 0x6D, 0x73] // items
  const RAW_REF: Text := [0x72, 0x61, 0x77, 0x52, 0x65, 0x66] // rawRef
  const CREATED_AT: Text := [0x63, 0x72, 0x65, 0x61, 0x74, 0x65, 0x64, 0x41, 0x74] // createdAt
  const KIND: Text := [0x6B, 0x69, 0x6E, 0x64] // kind
  const URI: Text := [0x75, 0x72, 0x69] // uri
  const SHA256: Text := [0x73, 0x68, 0x61, 0x32, 0x35, 0x36] // sha256
  const SOURCE: Text := [0x73, 0x6F, 0x75, 0x72, 0x63, 0x65] // source
  const TEMPLATE_ID: Text := [0x74, 0x65, 0x6D, 0x70, 0x6C, 0x61, 0x74, 0x65, 0x49, 0x64] // templateId
  const TEMPLATE_KEY: Text := [0x74, 0x65, 0x6D, 0x70, 0x6C, 0x61, 0x74, 0x65, 0x4B, 0x65, 0x79] // templateKey
  const DEPS_HASH: Text := [0x64, 0x65, 0x70, 0x73, 0x48, 0x61, 0x73, 0x68] // depsHash
  const ENV_REF: Text := [0x65, 0x6E, 0x76, 0x52, 0x65, 0x66] // envRef
  const EPOCH: Text :=
    [0x31, 0x39, 0x37, 0x30, 0x2D, 0x30, 0x31, 0x2D, 0x30, 0x31, 0x54, 0x30, 0x30, 0x3A, 0x30, 0x30, 0x3A, 0x30, 0x30, 0x2E, 0x30, 0x30, 0x30, 0x5A] // 1970-01-01T00:00:00.000Z

  datatype File = File(path: Text, sha256: Text, inlineText: Option<Text>)

  /** `raw` is `Null` where the source has `null` or `undefined`. */
  datatype Result = Result(taskKey: Text, stdout: Text, stderr: Text, filesOut: seq<File>, raw: Json, metrics: Json)

  /** Whose step it is, and what its environment fixes: hash, collation, configured provider. */
  datatype Step = Step(runId: Text, stepId: Text, attempt: nat, sha: Hash, le: Collation, provider: Text)

  // ----- what is saved -----

  function Uri(step: Step, taskKey: Text, name: Text): Text {
    ArtifactUri.Build(ArtifactUri.Parts(step.runId, step.stepId, taskKey, name))
  }

  function Digest(step: Step, j: Json): Text {
    Sha256(step.sha, step.le, if j.Str? then Raw(j.s) else Tree(j))
  }

  function Inline(key: Text, j: Json): Option<Json> { Some(Obj([Member(key, j)])) }

  function FilePath(f: File): Text { f.path }

  function EntryUri(e: Entry): Text { e.uri }

  function FileEntry(step: Step, taskKey: Text, f: File): Entry {
    Entry(FILE, Uri(step, taskKey, FILES + f.path), f.sha256,
          if f.inlineText.Some? && f.inlineText.value != [] then Inline(TEXT, Str(f.inlineText.value)) else None)
  }

  function FileEntries(step: Step, taskKey: Text, files: seq<File>): (r: seq<Entry>)
    ensures |r| == |files| && forall i :: 0 <= i < |r| ==> r[i] == FileEntry(step, taskKey, files[i])
  {
    if files == [] then [] else [FileEntry(step, taskKey, files[0])] + FileEntries(step, taskKey, files[1..])
  }

  function RawPayload(result: Result): Json { if result.raw.Null? then Obj([]) else result.raw }

  /** The strings of the template's description, under the given keys. */
  function CopyStrings(template: seq<Member>, keys: seq<Text>): seq<Member> {
    if keys == [] then []
    else
      (match Lookup(template, keys[0]) case Some(Str(s)) => [Member(keys[0], Str(s))] case _ => [])
      + CopyStrings(template, keys[1..])
  }

  /** The sandbox's boot diagnostics, if the raw payload has any. */
  function BootDiagnostics(payload: Json): Option<Json> {
    var ms := AsRecord(payload);
    var boot := match Lookup(ms, BOOT_MS) case Some(Num(n)) => [Member(BOOT_MS, Num(n))] case _ => [];
    match Lookup(ms, TEMPLATE)
    case Some(Obj(template)) => Some(Obj(boot + CopyStrings(template, [SOURCE, TEMPLATE_ID, TEMPLATE_KEY, DEPS_HASH, ENV_REF])))
    case _ => if boot != [] then Some(Obj(boot)) else None
  }

  function Before(step: Step, r: Result): seq<Entry> {
    [Entry(STDOUT, Uri(step, r.taskKey, STDOUT_LOG), Digest(step, Str(r.stdout)), Inline(TEXT, Str(r.stdout))),
     Entry(STDERR, Uri(step, r.taskKey, STDERR_LOG), Digest(step, Str(r.stderr)), Inline(TEXT, Str(r.stderr)))]
  }

  function After(step: Step, r: Result): seq<Entry> {
    var payload := RawPayload(r);
    [Entry(RAW, Uri(step, r.taskKey, RAW_JSON), Digest(step, payload), Inline(JSON, payload)),
     Entry(TIMINGS, Uri(step, r.taskKey, METRICS_JSON), Digest(step, r.metrics), Inline(JSON, r.metrics))]
    + match BootDiagnostics(payload)
      case Some(boot) => [Entry(JSON_DIAGNOSTIC, Uri(step, r.taskKey, SBX_BOOT_JSON), Digest(step, boot), Inline(JSON, boot))]
      case None => []
  }

  function Entries(step: Step, r: Result): seq<Entry> {
    Before(step, r) + FileEntries(step, r.taskKey, Sort(step.le, FilePath, r.filesOut)) + After(step, r)
  }

  function OrderedEntries(step: Step, r: Result): seq<Entry> { Sort(step.le, EntryUri, Entries(step, r)) }

  function Provider(step: Step, r: Result): Text {
    match ReadText(AsRecord(r.raw), PROVIDER) case Some(p) => p case None => step.provider
  }

  function Item(e: Entry): Json { Obj([Member(KIND, Str(e.kind)), Member(URI, Str(e.uri)), Member(SHA256, Str(e.sha256))]) }

  function Items(es: seq<Entry>): (r: seq<Json>)
    ensures |r| == |es| && forall i :: 0 <= i < |r| ==> r[i] == Item(es[i])
  {
    if es == [] then [] else [Item(es[0])] + Items(es[1..])
  }

  function IndexOf(taskKey: Text, provider: Text, rawRef: Text, es: seq<Entry>): Json {
    Obj([Member(TASK_KEY, Str(taskKey)), Member(PROVIDER, Str(provider)), Member(ITEMS, Arr(Items(es))),
         Member(RAW_REF, Str(rawRef)), Member(CREATED_AT, Str(EPOCH))])
  }

  function Index(step: Step, r: Result): Json {
    IndexOf(r.taskKey, Provider(step, r), Uri(step, r.taskKey, RAW_JSON), OrderedEntries(step, r))
  }

  function IndexUri(step: Step, r: Result): Text { Uri(step, r.taskKey, INDEX_JSON) }

  function IndexEntry(step: Step, r: Result, index: Json): Entry {
    Entry(ARTIFACT_INDEX, IndexUri(step, r), Digest(step, index), Inline(JSON, index))
  }

  /** Everything one call stores, in order. */
  function Rows(step: Step, r: Result): seq<Entry> {
    [IndexEntry(step, r, Index(step, r))] + OrderedEntries(step, r)
  }

  // ----- the table -----

  function KeyAt(step: Step, taskKey: Text, idx: nat): Key { Key(step.runId, step.stepId, taskKey, idx, step.attempt) }

  /** The table after the first `n` inserts. */
  function Filled(table: Table, step: Step, taskKey: Text, rows: seq<Entry>, n: nat): Table
    requires n <= |rows|
  {
    if n == 0 then table else Put(Filled(table, step, taskKey, rows, n - 1), KeyAt(step, taskKey, n - 1), rows[n - 1])
  }

  predicate ClashesAt(table: Table, step: Step, taskKey: Text, rows: seq<Entry>, i: nat)
    requires i < |rows|
  {
    Clashes(table, KeyAt(step, taskKey, i), rows[i])
  }

  /** The first `n` inserts took effect, and none of them found another row in its place. */
  predicate Stored(step: Step, taskKey: Text, rows: seq<Entry>, table0: Table, table: Table, n: nat)
    requires n <= |rows|
  {
    && table == Filled(table0, step, taskKey, rows, n)
    && forall i :: 0 <= i < n ==> !ClashesAt(table0, step, taskKey, rows, i)
  }

  datatype Outcome<+T> = Done(value: T) | Crashed | Diverged(key: Key)

  // ----- the saving step -----

  lemma TakeNext<T>(before: seq<T>, all: seq<T>, k: nat)
    requires k < |all|
    ensures before + all[..k] + [all[k]] == before + all[..k + 1]
  {}

  class Saver {
    const step: Step
    var table: Table
    /** When the process dies: one flag per statement still to come, none once exhausted. */
    var kills: seq<bool>

    constructor (step: Step, table: Table, kills: seq<bool>)
      ensures this.step == step && this.table == table && this.kills == kills
    {
      this.step, this.table, this.kills := step, table, kills;
    }

    method Dies() returns (dies: bool)
      modifies this`kills
      ensures |kills| <= |old(kills)| && (dies ==> |kills| < |old(kills)|)
      ensures old(kills) == [] ==> !dies && kills == []
    {
      if kills == [] { return false; }
      dies, kills := kills[0], kills[1..];
    }

    method InsertArtifact(key: Key, e: Entry) returns (outcome: Outcome<Entry>)
      modifies this`table, this`kills
      ensures |kills| <= |old(kills)| && (outcome.Crashed? ==> |kills| < |old(kills)|)
      ensures old(kills) == [] ==> !outcome.Crashed? && kills == []
      ensures outcome.Done? ==> !Clashes(old(table), key, e) && table == Put(old(table), key, e) && outcome.value == table[key]
      ensures outcome.Crashed? ==> table == old(table) || table == Put(old(table), key, e)
      ensures outcome.Diverged? ==> outcome.key == key && Clashes(old(table), key, e) && table == old(table)
      ensures outcome.Diverged? ==> key in table && (table[key].sha256 != e.sha256 || table[key].uri != e.uri)
      ensures outcome.Done? ==> key in table && table[key].sha256 == e.sha256 && table[key].uri == e.uri
      ensures outcome.Done? && key !in old(table) ==> table[key] == e
      ensures forall k :: k in old(table) ==> k in table && table[k] == old(table)[k]
    {
      var dies := Dies();
      if dies { return Crashed; }
      var inserted := key !in table;
      if inserted { table := table[key := e]; }
      dies := Dies();
      if dies { return Crashed; }
      if !inserted && (table[key].sha256 != e.sha256 || table[key].uri != e.uri) { return Diverged(key); }
      return Done(table[key]);
    }

    method CollectFiles(before: seq<Entry>, taskKey: Text, files: seq<File>) returns (entries: seq<Entry>)
      ensures entries == before + FileEntries(step, taskKey, Sort(step.le, FilePath, files))
    {
      entries := before;
      var sortedFiles := Sort(step.le, FilePath, files);
      ghost var all := FileEntries(step, taskKey, sortedFiles);
      for k := 0 to |sortedFiles|
        invariant entries == before + all[..k]
      {
        var entry := FileEntry(step, taskKey, sortedFiles[k]);
        assert entry == all[k];
        TakeNext(before, all, k);
        entries := entries + [entry];
      }
      assert all[..|all|] == all;
    }

    /** The index first, then the artifacts under 1, 2, …; `n` is how many inserts took effect. */
    method InsertRows(taskKey: Text, index: Entry, orderedEntries: seq<Entry>) returns (outcome: Outcome<()>, ghost n: nat)
      modifies this`table, this`kills
      ensures |kills| <= |old(kills)| && (outcome.Crashed? ==> |kills| < |old(kills)|)
      ensures old(kills) == [] ==> !outcome.Crashed? && kills == []
      ensures n <= 1 + |orderedEntries|
      ensures Stored(step, taskKey, [index] + orderedEntries, old(table), table, n)
      ensures outcome.Done? ==> n == 1 + |orderedEntries|
      ensures outcome.Diverged? ==> n <= |orderedEntries| && outcome.key == KeyAt(step, taskKey, n)
      ensures outcome.Diverged? ==> ClashesAt(old(table), step, taskKey, [index] + orderedEntries, n)
    {
      ghost var rows := [index] + orderedEntries;
      n := 0;
      var stored := InsertRow(taskKey, 0, index, old(table), rows);
      if stored.Crashed? {
        n := if Stored(step, taskKey, rows, old(table), table, 0) then 0 else 1;
        return Crashed, n;
      }
      if stored.Diverged? { return Diverged(stored.key), n; }
      n := 1;
      var idx := 1;
      for k := 0 to |orderedEntries|
        invariant idx == k + 1 == n && Stored(step, taskKey, rows, old(table), table, n)
        invariant |kills| <= |old(kills)| && (old(kills) == [] ==> kills == [])
      {
        stored := InsertRow(taskKey, idx, orderedEntries[k], old(table), rows);
        if stored.Diverged? { return Diverged(stored.key), n; }
        if stored.Crashed? {
          n := if Stored(step, taskKey, rows, old(table), table, n) then n else n + 1;
          return Crashed, n;
        }
        idx := idx + 1;
        n := n + 1;
      }
      return Done(()), n;
    }

    method InsertRow(taskKey: Text, idx: nat, e: Entry, ghost table0: Table, ghost rows: seq<Entry>) returns (outcome: Outcome<Entry>)
      requires idx < |rows| && e == rows[idx] && Stored(step, taskKey, rows, table0, table, idx)
      modifies this`table, this`kills
      ensures |kills| <= |old(kills)| && (outcome.Crashed? ==> |kills| < |old(kills)|)
      ensures old(kills) == [] ==> !outcome.Crashed? && kills == []
      ensures outcome.Done? ==> Stored(step, taskKey, rows, table0, table, idx + 1)
      ensures outcome.Crashed? ==>
        Stored(step, taskKey, rows, table0, table, idx) || Stored(step, taskKey, rows, table0, table, idx + 1)
      ensures outcome.Diverged? ==> outcome.key == KeyAt(step, taskKey, idx) && ClashesAt(table0, step, taskKey, rows, idx)
      ensures outcome.Diverged? ==> Stored(step, taskKey, rows, table0, table, idx)
    {
      FilledLeaves(table0, step, taskKey, rows, idx);
      outcome := InsertArtifact(KeyAt(step, taskKey, idx), e);
    }

    /** One run of the step. `n` is how many inserts took effect. */
    method Execute(r: Result) returns (outcome: Outcome<Text>, ghost n: nat)
      modifies this`table, this`kills
      ensures |kills| <= |old(kills)| && (outcome.Crashed? ==> |kills| < |old(kills)|)
      ensures old(kills) == [] ==> !outcome.Crashed? && kills == []
      ensures n <= |Rows(step, r)| && Stored(step, r.taskKey, Rows(step, r), old(table), table, n)
      ensures outcome.Done? ==> n == |Rows(step, r)| && outcome.value == IndexUri(step, r)
      ensures outcome.Diverged? ==>
        n < |Rows(step, r)| && outcome.key == KeyAt(step, r.taskKey, n) && ClashesAt(old(table), step, r.taskKey, Rows(step, r), n)
    {
      var entries := CollectFiles(Before(step, r), r.taskKey, r.filesOut);
      entries := entries + After(step, r);
      var orderedEntries := Sort(step.le, EntryUri, entries);
      var index := Index(step, r);
      var stored;
      stored, n := InsertRows(r.taskKey, IndexEntry(step, r, index), orderedEntries);
      match stored {
        case Done(_) => outcome := Done(IndexUri(step, r));
        case Crashed => outcome := Crashed;
        case Diverged(key) => outcome := Diverged(key);
      }
    }

    /** Run again as often as the process dies. Whatever the schedule, the end is that of one
        undisturbed run: every row stored, or the rows below the first that clashed to begin with. */
    method SaveUntilItEnds(results: nat -> Result) returns (outcome: Outcome<Text>, ghost n: nat)
      requires forall i :: SameRows(step, results(i), results(0))
      modifies this`table, this`kills
      ensures !outcome.Crashed?
      ensures n <= |Rows(step, results(0))| && Stored(step, results(0).taskKey, Rows(step, results(0)), old(table), table, n)
      ensures outcome.Done? <==> n == |Rows(step, results(0))|
      ensures outcome.Done? ==> outcome.value == IndexUri(step, results(0))
      ensures outcome.Diverged? ==> outcome.key == KeyAt(step, results(0).taskKey, n)
      ensures outcome.Diverged? ==> ClashesAt(old(table), step, results(0).taskKey, Rows(step, results(0)), n)
    {
      ghost var rows := Rows(step, results(0));
      var attempt := 0;
      outcome, n := Execute(results(0));
      while outcome.Crashed?
        invariant EndsAs(results(0).taskKey, rows, IndexUri(step, results(0)), old(table), outcome, n)
        decreases |kills|, outcome.Crashed?
      {
        attempt := attempt + 1;
        assert SameRows(step, results(attempt), results(0));
        outcome, n := ExecuteAgain(results(attempt), rows, old(table), n);
      }
    }

    /** How a run, or several after one another, may end. */
    ghost predicate EndsAs(taskKey: Text, rows: seq<Entry>, uri: Text, table0: Table, outcome: Outcome<Text>, n: nat)
      reads this`table
    {
      && n <= |rows| && Stored(step, taskKey, rows, table0, table, n)
      && (outcome.Done? ==> n == |rows| && outcome.value == uri)
      && (outcome.Diverged? ==> n < |rows| && outcome.key == KeyAt(step, taskKey, n) && ClashesAt(table0, step, taskKey, rows, n))
    }

    /** A run on what earlier ones stored. */
    method ExecuteAgain(r: Result, ghost rows: seq<Entry>, ghost table0: Table, ghost m: nat) returns (outcome: Outcome<Text>, ghost n: nat)
      requires rows == Rows(step, r) && m <= |rows| && Stored(step, r.taskKey, rows, table0, table, m)
      modifies this`table, this`kills
      ensures |kills| <= |old(kills)| && (outcome.Crashed? ==> |kills| < |old(kills)|)
      ensures EndsAs(r.taskKey, rows, IndexUri(step, r), table0, outcome, n)
    {
      ghost var before := table;
      outcome, n := Execute(r);
      StoredAgain(step, r.taskKey, rows, table0, before, m, table, n);
      if outcome.Diverged? { RerunClashes(step, r.taskKey, rows, table0, before, m, n); }
      n := if n < m then m else n;
    }
  }

  /** Two results that store the same rows in the same places. */
  ghost predicate SameRows(step: Step, a: Result, b: Result) {
    a.taskKey == b.taskKey && Rows(step, a) == Rows(step, b)
  }

  /** Inserts below `n` leave every other key as it was. */
  lemma {:induction false} FilledLeaves(table: Table, step: Step, taskKey: Text, rows: seq<Entry>, n: nat)
    requires n <= |rows|
    ensures forall key ::
      var mine := exists i :: 0 <= i < n && key == KeyAt(step, taskKey, i);
      && (!mine ==> (key in Filled(table, step, taskKey, rows, n) <==> key in table))
      && (key in table ==> key in Filled(table, step, taskKey, rows, n) && Filled(table, step, taskKey, rows, n)[key] == table[key])
  {
    if n > 0 { FilledLeaves(table, step, taskKey, rows, n - 1); }
  }

  /** A place the first `n` inserts have seen holds what it held before, or else the row meant for it. */
  lemma FilledAt(step: Step, taskKey: Text, rows: seq<Entry>, table: Table, n: nat, i: nat)
    requires i < n <= |rows|
    ensures
      var key, after := KeyAt(step, taskKey, i), Filled(table, step, taskKey, rows, n);
      key in after && after[key] == if key in table then table[key] else rows[i]
  {
    FilledLeaves(table, step, taskKey, rows, i);
    if i + 1 < n { FilledAt(step, taskKey, rows, table, n - 1, i); }
  }

  /** What a run has stored does not change which rows clash. */
  lemma RerunClashes(step: Step, taskKey: Text, rows: seq<Entry>, table0: Table, table: Table, n: nat, i: nat)
    requires n <= |rows| && i < |rows| && Stored(step, taskKey, rows, table0, table, n)
    ensures ClashesAt(table, step, taskKey, rows, i) <==> ClashesAt(table0, step, taskKey, rows, i)
  {
    FilledLeaves(table0, step, taskKey, rows, n);
    if i < n { FilledAt(step, taskKey, rows, table0, n, i); }
  }

  lemma {:induction false} FilledAgain(step: Step, taskKey: Text, rows: seq<Entry>, table: Table, m: nat, n: nat)
    requires m <= |rows| && n <= |rows|
    ensures Filled(Filled(table, step, taskKey, rows, m), step, taskKey, rows, n)
         == Filled(table, step, taskKey, rows, if m < n then n else m)
  {
    if n > 0 {
      FilledAgain(step, taskKey, rows, table, m, n - 1);
      if n <= m { FilledAt(step, taskKey, rows, table, m, n - 1); }
    }
  }

  /** Two runs one after the other store what the one that got further stores. */
  lemma StoredAgain(step: Step, taskKey: Text, rows: seq<Entry>, table0: Table, table1: Table, m: nat, table2: Table, n: nat)
    requires m <= |rows| && n <= |rows|
    requires Stored(step, taskKey, rows, table0, table1, m) && Stored(step, taskKey, rows, table1, table2, n)
    ensures Stored(step, taskKey, rows, table0, table2, if m < n then n else m)
  {
    FilledAgain(step, taskKey, rows, table0, m, n);
    forall i | 0 <= i < n ensures !ClashesAt(table0, step, taskKey, rows, i) {
      RerunClashes(step, taskKey, rows, table0, table1, m, i);
    }
  }
}
