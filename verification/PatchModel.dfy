/** Reversible patches: a plan applied to files with a history row per patch, and rolled back in
    reverse, each killed between any two statements and run again from the top. */
module PatchModel {
  import opened JsText
  import opened Utf8
  import opened JsonValues
  import opened StableSort
  import opened CanonicalJson
  import ArtifactStore
  import ArtifactUri

  /** Files by path, as reading them as UTF-8 shows them. */
  type Files = map<Text, Unicode>

  /** A missing file reads as empty. */
  function Read(files: Files, path: Text): Unicode { if path in files then files[path] else [] }

  ghost predicate SameView(a: Files, b: Files) { forall p :: Read(a, p) == Read(b, p) }

  /** One patch of the plan; `target` is `None` where the path leaves the workspace's `.tmp`. */
  datatype Item = Item(target: Option<Text>, postimage: Text, diffText: Text)

  /** A row of `app.patch_history`; indexes are handed out in order, so the table is a sequence. */
  datatype Row = Row(path: Text, preHash: Text, postHash: Text, diffHash: Text, pre: Unicode, post: Unicode,
                     applied: bool, rolledBack: bool)

  datatype Hashes = Hashes(pre: Text, post: Text, diff: Text)

  /** Whose step this is, which attempt, and what it hashes and records with: an artifact's entry is
      whatever function of index, path and hashes it may be; `StepContext` gives the program's. */
  datatype Context = Context(runId: Text, attempt: nat, sha: Hash, entry: (nat, Text, Hashes) -> ArtifactStore.Entry)

  datatype Fault =
    | PatchPathNotAllowed(index: nat)
    | PreimageMismatch(index: nat)
    | PostimageMismatch(index: nat)
    | ArtifactDivergence(key: ArtifactStore.Key)
    | StatementThrew(index: nat)

  datatype Outcome<+T> = Done(value: T) | Crashed | Failed(fault: Fault)

  // ----- what a plan does -----

  /** The files after the rows' patches have been written in order. */
  function AfterRows(files: Files, rows: seq<Row>): Files {
    if rows == [] then files
    else
      var last := rows[|rows| - 1];
      AfterRows(files, rows[..|rows| - 1])[last.path := last.post]
  }

  /** The row a patch offers; the column holds the postimage without lone surrogates. */
  function FreshRow(hash: Text -> Text, files: Files, path: Text, item: Item): Row {
    var pre := Read(files, path);
    Row(path, hash(pre), hash(item.postimage), hash(item.diffText),
        pre, ReplaceLone(item.postimage), false, false)
  }

  /** How many patches run before the first path that is not allowed. */
  function AllowedPrefix(plan: seq<Item>): (n: nat)
    ensures n <= |plan|
    ensures forall i :: 0 <= i < n ==> plan[i].target.Some?
    ensures n < |plan| ==> plan[n].target.None?
  {
    if plan == [] || plan[0].target.None? then 0 else 1 + AllowedPrefix(plan[1..])
  }

  /** The first `n` rows an uninterrupted run records: each preimage is what the patches before it
      left on its path. */
  function ExpectedRows(hash: Text -> Text, files: Files, plan: seq<Item>, n: nat): (rows: seq<Row>)
    requires n <= AllowedPrefix(plan)
    ensures |rows| == n
  {
    if n == 0 then []
    else
      var rows := ExpectedRows(hash, files, plan, n - 1);
      var item := plan[n - 1];
      rows + [FreshRow(hash, AfterRows(files, rows), item.target.value, item).(applied := true)]
  }

  // ----- which states runs can be in -----

  function Hashed(row: Row): Hashes { Hashes(row.preHash, row.postHash, row.diffHash) }

  predicate IsLive(row: Row) { row.applied && !row.rolledBack }

  /** Applied or not, it is the same record. */
  predicate SameRecord(a: Row, b: Row) { a.(applied := true) == b.(applied := true) }

  /** Between any two statements of the apply phase: the first of the expected rows are there, all
      but the last surely marked applied, and every file is as some prefix of the plan leaves it. */
  ghost predicate Applying(files0: Files, expected: seq<Row>, files: Files, history: seq<Row>) {
    && |history| <= |expected|
    && (forall i :: 0 <= i < |history| ==> SameRecord(history[i], expected[i]))
    && (forall i :: 0 <= i < |history| - 1 ==> history[i].applied)
    && (forall p {:trigger LeftByPrefix(files0, expected[..|history|], p, Read(files, p))} ::
        LeftByPrefix(files0, expected[..|history|], p, Read(files, p)))
  }

  ghost predicate LeftByPrefix(files0: Files, rows: seq<Row>, path: Text, content: Text) {
    exists i {:trigger LeavesAt(files0, rows, i, path, content)} :: 0 <= i <= |rows| && LeavesAt(files0, rows, i, path, content)
  }

  predicate LeavesAt(files0: Files, rows: seq<Row>, i: nat, path: Text, content: Text)
    requires i <= |rows|
  {
    Read(AfterRows(files0, rows[..i]), path) == content
  }

  /** The current run has been through the first `done` patches: on their paths the files are as
      those patches leave them. */
  ghost predicate Reached(files0: Files, expected: seq<Row>, done: nat, files: Files) {
    done <= |expected| &&
    forall i {:trigger ReachedAt(files0, expected, done, files, i)} :: 0 <= i < done ==> ReachedAt(files0, expected, done, files, i)
  }

  predicate ReachedAt(files0: Files, expected: seq<Row>, done: nat, files: Files, i: nat)
    requires i < done <= |expected|
  {
    Read(files, expected[i].path) == Read(AfterRows(files0, expected[..done]), expected[i].path)
  }

  predicate FirstOnPath(rows: seq<Row>, i: nat)
    requires i < |rows|
  {
    forall j :: 0 <= j < i ==> rows[j].path != rows[i].path
  }

  /** A file that the first patch on it can neither apply to nor recognise as applied. */
  ghost predicate Stuck(files: Files, history: seq<Row>) {
    exists i :: 0 <= i < |history| && StuckAt(files, history, i)
  }

  predicate StuckAt(files: Files, history: seq<Row>, i: nat)
    requires i < |history|
  {
    && FirstOnPath(history, i)
    && Read(files, history[i].path) != history[i].pre && Read(files, history[i].path) != history[i].post
  }

  /** Every image a path gets is its original content or what its first patch writes. Plans with
      pairwise distinct paths are of this kind. */
  ghost predicate Settles(rows: seq<Row>) {
    forall i, j :: 0 <= i <= j < |rows| && FirstOnPath(rows, i) && rows[i].path == rows[j].path ==>
      rows[j].post == rows[i].pre || rows[j].post == rows[i].post
  }

  ghost predicate DistinctPaths(rows: seq<Row>) { forall i, j :: 0 <= i < j < |rows| ==> rows[i].path != rows[j].path }

  /** The last live row on a path, if any. */
  function LatestLive(history: seq<Row>, path: Text): (r: Option<nat>)
    ensures r.Some? ==> r.value < |history| && history[r.value].path == path && IsLive(history[r.value])
    ensures r.Some? ==> forall j :: r.value < j < |history| && history[j].path == path ==> !IsLive(history[j])
    ensures r.None? ==> forall j :: 0 <= j < |history| && history[j].path == path ==> !IsLive(history[j])
  {
    if history == [] then None
    else
      var last := history[|history| - 1];
      if last.path == path && IsLive(last) then Some(|history| - 1) else LatestLive(history[..|history| - 1], path)
  }

  /** Each file holds either image of its last live patch, or is as it was if it has none. This is
      what a caller can check before rolling back, and exactly what rolling back needs. */
  ghost predicate Ready(files0: Files, files: Files, history: seq<Row>) {
    forall p :: ReadyAt(files0, files, history, p)
  }

  predicate ReadyAt(files0: Files, files: Files, history: seq<Row>, path: Text) {
    match LatestLive(history, path)
    case None => Read(files, path) == Read(files0, path)
    case Some(i) => Read(files, path) == history[i].pre || Read(files, path) == history[i].post
  }

  /** Preimages chain back to the original files, and no live row sits on a dead one. */
  ghost predicate Chained(hash: Text -> Text, files0: Files, history: seq<Row>) {
    && (forall i {:trigger ChainedAt(hash, files0, history, i)} :: 0 <= i < |history| ==> ChainedAt(hash, files0, history, i))
    && (forall i, j :: 0 <= i < j < |history| && history[i].path == history[j].path && IsLive(history[j]) ==> IsLive(history[i]))
  }

  predicate ChainedAt(hash: Text -> Text, files0: Files, history: seq<Row>, i: nat)
    requires i < |history|
  {
    && history[i].pre == Read(AfterRows(files0, history[..i]), history[i].path)
    && history[i].preHash == hash(history[i].pre) && history[i].postHash == hash(history[i].post)
  }

  // ----- one patch -----

  function Put(history: seq<Row>, index: nat, row: Row): (r: seq<Row>)
    requires index <= |history|
    ensures index < |r| && |history| <= |r|
  {
    if index < |history| then history[index := row] else history + [row]
  }

  /** The row was stored for this item of the plan. */
  predicate RecordsItem(hash: Text -> Text, row: Row, item: Item) {
    && row.preHash == hash(row.pre)
    && row.post == ReplaceLone(item.postimage) && row.postHash == hash(row.post)
  }

  /** The row patch `index` works from: the stored one, or the one it stores. */
  function RowFor(hash: Text -> Text, files: Files, history: seq<Row>, index: nat, path: Text, item: Item): Row {
    if index < |history| then history[index] else FreshRow(hash, files, path, item)
  }

  /** What a call cut short may leave behind. */
  predicate CutShort(row: Row, index: nat, content: Text, files: Files, history: seq<Row>, files': Files, history': seq<Row>, path: Text)
    requires index <= |history|
  {
    || (files' == files && (history' == history || history' == Put(history, index, row)))
    || (files' == files[path := row.post] && history' == Put(history, index, row) && content == row.pre && content != row.post)
  }

  /** What one call may leave behind, from `files` and `history`, on a path reading `content`. */
  predicate PatchStep(row: Row, diffHash: Text, index: nat, content: Text, files: Files, history: seq<Row>,
                      outcome: Outcome<Hashes>, files': Files, history': seq<Row>, path: Text)
    requires index <= |history|
  {
    match outcome
    case Crashed => CutShort(row, index, content, files, history, files', history', path)
    case Failed(StatementThrew(k)) => k == index && CutShort(row, index, content, files, history, files', history', path)
    case Failed(fault) =>
      && fault == PreimageMismatch(index) && content != row.pre && content != row.post
      && history' == Put(history, index, row) && files' == files
    case Done(hashes) =>
      && (content == row.pre || content == row.post)
      && history' == Put(history, index, row.(applied := true))
      && files' == (if content == row.post then files else files[path := row.post])
      && hashes == Hashes(row.preHash, row.postHash, diffHash)
  }

  // ----- runs, statement by statement -----

  /** What becomes of the next statement: it is reached, the process dies before it, or it throws and
      has no effect. A statement that takes effect and then throws is one whose successor throws. */
  datatype Fate = Lives | Dies | Throws

  /** What outlives the process, and the fates still to come; all live once they are used up. */
  datatype Disk = Disk(files: Files, history: seq<Row>, artifacts: ArtifactStore.Table, fates: seq<Fate>)

  function Fated(d: Disk): Fate { if d.fates == [] then Lives else d.fates[0] }

  function Spend(d: Disk): Disk { if d.fates == [] then d else d.(fates := d.fates[1..]) }

  /** A run uses up fates, and one it died of if it died. */
  predicate Spends(d: Disk, d': Disk, crashed: bool) { |d'.fates| <= |d.fates| && (crashed ==> |d'.fates| < |d.fates|) }

  predicate NoThrows(fates: seq<Fate>) { Throws !in fates }

  /** The end of a run whose next statement does not live. */
  function Stop<T>(fate: Fate, index: nat): Outcome<T> { if fate.Throws? then Failed(StatementThrew(index)) else Crashed }

  function MarkRun(d: Disk, index: nat, hashes: Hashes): (r: (Outcome<Hashes>, Disk))
    requires index < |d.history|
    ensures Spends(d, r.1, r.0.Crashed?) && |r.1.history| == |d.history|
  {
    if !Fated(d).Lives? then (Stop(Fated(d), index), Spend(d))
    else (Done(hashes), Spend(d).(history := d.history[index := d.history[index].(applied := true)]))
  }

  function CompareRun(hash: Text -> Text, d: Disk, index: nat, path: Text, offered: Row): (r: (Outcome<Hashes>, Disk))
    requires index < |d.history|
    ensures Spends(d, r.1, r.0.Crashed?) && |r.1.history| == |d.history|
  {
    var row, currentHash := d.history[index], hash(Read(d.files, path));
    if currentHash == row.postHash then MarkRun(d, index, Hashes(row.preHash, row.postHash, offered.diffHash))
    else if currentHash != row.preHash then (Failed(PreimageMismatch(index)), d)
    else if !Fated(d).Lives? then (Stop(Fated(d), index), Spend(d))
    else MarkRun(Spend(d).(files := d.files[path := row.post]), index, Hashes(offered.preHash, offered.postHash, offered.diffHash))
  }

  /** `applyReversiblePatch`. */
  function PatchRun(hash: Text -> Text, d: Disk, index: nat, path: Text, item: Item): (r: (Outcome<Hashes>, Disk))
    requires index <= |d.history|
    ensures Spends(d, r.1, r.0.Crashed?) && (r.0.Done? ==> index < |r.1.history|)
  {
    var offered := FreshRow(hash, d.files, path, item);
    if !Fated(d).Lives? then (Stop(Fated(d), index), Spend(d)) else StoredRun(hash, StoreRow(Spend(d), index, offered), index, path, offered)
  }

  function StoreRow(d: Disk, index: nat, offered: Row): (r: Disk)
    requires index <= |d.history|
    ensures r.fates == d.fates && index < |r.history|
  {
    d.(history := if index < |d.history| then d.history else d.history + [offered])
  }

  function StoredRun(hash: Text -> Text, d: Disk, index: nat, path: Text, offered: Row): (r: (Outcome<Hashes>, Disk))
    requires index < |d.history|
    ensures Spends(d, r.1, r.0.Crashed?) && |r.1.history| == |d.history|
  {
    if !Fated(d).Lives? then (Stop(Fated(d), index), Spend(d)) else CompareRun(hash, Spend(d), index, path, offered)
  }

  // "ApplyPatchST", "patch_apply", "patch-", ".json"
  const APPLY_PATCH: Text := [0x41, 0x70, 0x70, 0x6C, 0x79, 0x50, 0x61, 0x74, 0x63, 0x68, 0x53, 0x54]
  const PATCH_APPLY: Text := [0x70, 0x61, 0x74, 0x63, 0x68, 0x5F, 0x61, 0x70, 0x70, 0x6C, 0x79]
  const PATCH_NAME: Text := [0x70, 0x61, 0x74, 0x63, 0x68, 0x2D]
  const DOT_JSON: Text := [0x2E, 0x6A, 0x73, 0x6F, 0x6E]
  // "patchIndex", "targetPath", "preimageHash", "postimageHash", "diffHash"
  const PATCH_INDEX: Text := [0x70, 0x61, 0x74, 0x63, 0x68, 0x49, 0x6E, 0x64, 0x65, 0x78]
  const TARGET_PATH: Text := [0x74, 0x61, 0x72, 0x67, 0x65, 0x74, 0x50, 0x61, 0x74, 0x68]
  const PREIMAGE_HASH: Text := [0x70, 0x72, 0x65, 0x69, 0x6D, 0x61, 0x67, 0x65, 0x48, 0x61, 0x73, 0x68]
  const POSTIMAGE_HASH: Text := [0x70, 0x6F, 0x73, 0x74, 0x69, 0x6D, 0x61, 0x67, 0x65, 0x48, 0x61, 0x73, 0x68]
  const DIFF_HASH: Text := [0x64, 0x69, 0x66, 0x66, 0x48, 0x61, 0x73, 0x68]

  function PatchInline(index: nat, path: Text, hashes: Hashes): Json {
    Obj([Member(PATCH_INDEX, Num(Decimal(index))), Member(TARGET_PATH, Str(path)), Member(PREIMAGE_HASH, Str(hashes.pre)),
         Member(POSTIMAGE_HASH, Str(hashes.post)), Member(DIFF_HASH, Str(hashes.diff))])
  }

  /** The artifact that records one patch. */
  function PatchEntry(runId: Text, sha: Hash, le: Collation, index: nat, path: Text, hashes: Hashes): ArtifactStore.Entry {
    var inline := PatchInline(index, path, hashes);
    ArtifactStore.Entry(PATCH_APPLY,
      ArtifactUri.Build(ArtifactUri.Parts(runId, APPLY_PATCH, [], PATCH_NAME + Decimal(index) + DOT_JSON)),
      Sha256(sha, le, Tree(inline)), Some(inline))
  }

  function StepContext(runId: Text, attempt: nat, sha: Hash, le: Collation): Context {
    Context(runId, attempt, sha, (index: nat, path: Text, hashes: Hashes) => PatchEntry(runId, sha, le, index, path, hashes))
  }

  function PatchKey(ctx: Context, index: nat): ArtifactStore.Key {
    ArtifactStore.Key(ctx.runId, APPLY_PATCH, [], index, ctx.attempt)
  }

  function ArtifactRun(ctx: Context, d: Disk, index: nat, entry: ArtifactStore.Entry): (r: (Outcome<()>, Disk))
    ensures Spends(d, r.1, r.0.Crashed?) && r.1.history == d.history && r.1.files == d.files
  {
    var key := PatchKey(ctx, index);
    if !Fated(d).Lives? then (Stop(Fated(d), index), Spend(d))
    else if ArtifactStore.Clashes(d.artifacts, key, entry) then (Failed(ArtifactDivergence(key)), Spend(d))
    else (Done(()), Spend(d).(artifacts := ArtifactStore.Put(d.artifacts, key, entry)))
  }

  /** One round of the loop: the path check, the patch, its artifact. */
  function RoundRun(ctx: Context, d: Disk, plan: seq<Item>, i: nat): (r: (Outcome<()>, Disk))
    requires i < |plan| && i <= |d.history|
    ensures Spends(d, r.1, r.0.Crashed?) && (r.0.Done? ==> i < |r.1.history|)
  {
    if plan[i].target.None? then (Failed(PatchPathNotAllowed(i)), d)
    else
      var (patched, d') := PatchRun(TextHash(ctx.sha), d, i, plan[i].target.value, plan[i]);
      match patched
      case Done(hashes) => ArtifactRun(ctx, d', i, ctx.entry(i, plan[i].target.value, hashes))
      case Crashed => (Crashed, d')
      case Failed(fault) => (Failed(fault), d')
  }

  /** The patch loop from patch `i` on. */
  function LoopRun(ctx: Context, d: Disk, plan: seq<Item>, i: nat): (r: (Outcome<()>, Disk))
    requires i <= |plan| && i <= |d.history|
    ensures Spends(d, r.1, r.0.Crashed?)
    decreases |plan| - i
  {
    if i == |plan| then (Done(()), d)
    else
      var (round, d') := RoundRun(ctx, d, plan, i);
      if round.Done? then LoopRun(ctx, d', plan, i + 1) else (round, d')
  }

  /** The apply phase: from patch 0 again as often as the process dies. */
  function ApplyRuns(ctx: Context, d: Disk, plan: seq<Item>): (Outcome<()>, Disk)
    decreases |d.fates|
  {
    var (run, d') := LoopRun(ctx, d, plan, 0);
    if run.Crashed? then ApplyRuns(ctx, d', plan) else (run, d')
  }

  // ----- rolling back, statement by statement; one that throws ends the run as a death does -----

  function MarkUndone(history: seq<Row>, i: nat): seq<Row>
    requires i < |history|
  {
    history[i := history[i].(rolledBack := true)]
  }

  /** `rollbackReversiblePatch`. */
  function UndoRun(hash: Text -> Text, d: Disk, index: nat): (r: (Outcome<()>, Disk))
    requires index < |d.history|
    ensures |r.1.history| == |d.history|
    ensures Spends(d, r.1, r.0.Crashed?)
  {
    var row := d.history[index];
    if !Fated(d).Lives? then (Crashed, Spend(d))
    else
      var currentHash, d1 := hash(Read(d.files, row.path)), Spend(d);
      if currentHash == row.preHash then (Done(()), d1.(history := MarkUndone(d.history, index)))
      else if currentHash != row.postHash then (Failed(PostimageMismatch(index)), d1)
      else
        var d2 := d1.(files := d.files[row.path := row.pre]);
        if !Fated(d2).Lives? then (Crashed, Spend(d2)) else (Done(()), Spend(d2).(history := MarkUndone(d.history, index)))
  }

  /** The reverse loop over the live rows below `i`, `rolledBack` of those above undone. */
  function UndoFrom(hash: Text -> Text, d: Disk, i: nat, rolledBack: nat): (r: (Outcome<nat>, Disk))
    requires i <= |d.history|
    ensures Spends(d, r.1, r.0.Crashed?)
    decreases i
  {
    if i == 0 then (Done(rolledBack), d)
    else if !IsLive(d.history[i - 1]) then UndoFrom(hash, d, i - 1, rolledBack)
    else
      var (undone, d') := UndoRun(hash, d, i - 1);
      match undone
      case Done(_) => UndoFrom(hash, d', i - 1, rolledBack + 1)
      case Crashed => (Crashed, d')
      case Failed(fault) => (Failed(fault), d')
  }

  /** The rollback phase: run again as often as the process dies. */
  function UndoRuns(hash: Text -> Text, d: Disk): (Outcome<nat>, Disk)
    decreases |d.fates|
  {
    var (run, d') := UndoFrom(hash, d, |d.history|, 0);
    if run.Crashed? then UndoRuns(hash, d') else (run, d')
  }

  // ----- the promise -----

  /** Every target file is back at its content before the plan. */
  ghost predicate Restored(files0: Files, undone: (Outcome<nat>, Disk)) {
    undone.0.Done? && SameView(undone.1.files, files0)
  }

  /** One apply phase, then one rollback phase, under the given fates. */
  function ApplyThenUndo(ctx: Context, files: Files, plan: seq<Item>, fates: seq<Fate>): (Outcome<nat>, Disk) {
    UndoRuns(TextHash(ctx.sha), ApplyRuns(ctx, Disk(files, [], map[], fates), plan).1)
  }
}
