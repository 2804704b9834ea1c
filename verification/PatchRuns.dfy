/** Whole runs of the patch step and its rollback, under every list of fates. */
module PatchRuns {
  import opened JsText
  import opened Utf8
  import opened PatchModel
  import opened PatchProofs

  // ----- one call -----

  lemma HashTells(hash: Text -> Text, s: Unicode, t: Unicode)
    requires Tells(hash)
    ensures hash(s) == hash(t) <==> s == t
  {}

  /** A run meets a throwing statement only if the fates hold one. */
  ghost predicate Faithful<T>(d: Disk, o: Outcome<T>, d': Disk) {
    NoThrows(d.fates) ==> NoThrows(d'.fates) && !(o.Failed? && o.fault.StatementThrew?)
  }

  lemma SpendIsFaithful(d: Disk)
    ensures NoThrows(d.fates) ==> NoThrows(Spend(d).fates) && !Fated(d).Throws?
  {}

  /** One call leaves what the step relation allows, whatever its statements' fates. */
  lemma PatchRunSteps(hash: Text -> Text, d: Disk, index: nat, path: Text, item: Item)
    requires Tells(hash) && index <= |d.history| && (index < |d.history| ==> RecordsItem(hash, d.history[index], item))
    ensures
      var (o, d') := PatchRun(hash, d, index, path, item);
      && PatchStep(RowFor(hash, d.files, d.history, index, path, item), hash(item.diffText), index,
                   Read(d.files, path), d.files, d.history, o, d'.files, d'.history, path)
      && d'.artifacts == d.artifacts && Faithful(d, o, d')
  {
    SpendIsFaithful(d);
    if Fated(d).Lives? {
      var offered := FreshRow(hash, d.files, path, item);
      var row := RowFor(hash, d.files, d.history, index, path, item);
      StoredSteps(hash, d, index, path, item);
      var (o, d') := StoredRun(hash, StoreRow(Spend(d), index, offered), index, path, offered);
      StoredFirst(row, hash(item.diffText), index, Read(d.files, path), d.files, d.history, o, d'.files, d'.history, path);
    }
  }

  lemma StoredSteps(hash: Text -> Text, d: Disk, index: nat, path: Text, item: Item)
    requires Tells(hash) && index <= |d.history| && (index < |d.history| ==> RecordsItem(hash, d.history[index], item)) && Fated(d).Lives?
    ensures
      var offered, row := FreshRow(hash, d.files, path, item), RowFor(hash, d.files, d.history, index, path, item);
      var (o, d') := StoredRun(hash, StoreRow(Spend(d), index, offered), index, path, offered);
      && PatchStep(row, hash(item.diffText), index, Read(d.files, path), d.files, Put(d.history, index, row), o, d'.files, d'.history, path)
      && (index < |d.history| ==> row == d.history[index])
      && d'.artifacts == d.artifacts && Faithful(d, o, d')
  {
    SpendIsFaithful(d);
    FreshRowHashes(hash, d.files, path, item);
    StoredRunSteps(hash, StoreRow(Spend(d), index, FreshRow(hash, d.files, path, item)), index, path, item, FreshRow(hash, d.files, path, item));
  }

  /** Steps from the table with the row in it are steps from the table it was put in. */
  lemma StoredFirst(row: Row, diffHash: Text, index: nat, content: Text, files: Files, history: seq<Row>,
                    o: Outcome<Hashes>, files': Files, history': seq<Row>, path: Text)
    requires index <= |history| && (index < |history| ==> row == history[index])
    requires PatchStep(row, diffHash, index, content, files, Put(history, index, row), o, files', history', path)
    ensures PatchStep(row, diffHash, index, content, files, history, o, files', history', path)
  {
    assert forall r :: Put(Put(history, index, row), index, r) == Put(history, index, r);
  }

  lemma StoredRunSteps(hash: Text -> Text, d: Disk, index: nat, path: Text, item: Item, offered: Row)
    requires Tells(hash) && index < |d.history| && RecordsItem(hash, d.history[index], item)
    requires offered == FreshRow(hash, d.files, path, item)
    ensures
      var (o, d') := StoredRun(hash, d, index, path, offered);
      && PatchStep(d.history[index], offered.diffHash, index, Read(d.files, path), d.files, d.history, o, d'.files, d'.history, path)
      && d'.artifacts == d.artifacts && Faithful(d, o, d')
  {
    SpendIsFaithful(d);
    if Fated(d).Lives? { CompareRunSteps(hash, Spend(d), index, path, item, offered); }
  }

  /** The comparison decides on the contents, since hashes tell them apart. */
  lemma CompareRunSteps(hash: Text -> Text, d: Disk, index: nat, path: Text, item: Item, offered: Row)
    requires Tells(hash) && index < |d.history| && RecordsItem(hash, d.history[index], item)
    requires offered == FreshRow(hash, d.files, path, item)
    ensures
      var (o, d') := CompareRun(hash, d, index, path, offered);
      && PatchStep(d.history[index], offered.diffHash, index, Read(d.files, path), d.files, d.history, o, d'.files, d'.history, path)
      && d'.artifacts == d.artifacts && Faithful(d, o, d')
  {
    var row, content := d.history[index], Read(d.files, path);
    HashTells(hash, content, row.pre);
    HashTells(hash, content, row.post);
    FreshRowHashes(hash, d.files, path, item);
    SpendIsFaithful(d);
    if content == row.post {
      MarkRunSteps(d, index, Hashes(row.preHash, row.postHash, offered.diffHash));
    } else if content == row.pre && Fated(d).Lives? {
      MarkRunSteps(Spend(d).(files := d.files[path := row.post]), index, Hashes(row.preHash, row.postHash, offered.diffHash));
      assert offered.preHash == row.preHash && offered.postHash == row.postHash;
    }
  }

  lemma MarkRunSteps(d: Disk, index: nat, hashes: Hashes)
    requires index < |d.history|
    ensures
      var (o, d') := MarkRun(d, index, hashes);
      && d'.files == d.files && d'.artifacts == d.artifacts && Faithful(d, o, d')
      && match o
         case Done(h) => h == hashes && d'.history == d.history[index := d.history[index].(applied := true)]
         case Crashed => d'.history == d.history
         case Failed(fault) => d'.history == d.history && fault == StatementThrew(index)
  {
    SpendIsFaithful(d);
  }

  // ----- the loop -----

  /** Artifacts on record are those of the expected rows. */
  ghost predicate ArtifactsMatch(ctx: Context, expected: seq<Row>, table: ArtifactStore.Table) {
    forall i: nat {:trigger PatchKey(ctx, i)} :: PatchKey(ctx, i) in table ==>
      i < |expected| && table[PatchKey(ctx, i)] == ctx.entry(i, expected[i].path, Hashed(expected[i]))
  }

  lemma ArtifactRunKeeps(ctx: Context, expected: seq<Row>, d: Disk, i: nat, entry: ArtifactStore.Entry)
    requires ArtifactsMatch(ctx, expected, d.artifacts) && i < |expected|
    requires entry == ctx.entry(i, expected[i].path, Hashed(expected[i]))
    ensures
      var (o, d') := ArtifactRun(ctx, d, i, entry);
      && ArtifactsMatch(ctx, expected, d'.artifacts) && Faithful(d, o, d')
      && (o.Failed? ==> o.fault == StatementThrew(i))
  {
    SpendIsFaithful(d);
    assert PatchKey(ctx, i) in d.artifacts ==> d.artifacts[PatchKey(ctx, i)] == entry;
  }

  /** Where the loop may end. It stops with a mismatch only at a patch that was stuck when the run
      began, and never with a diverging artifact. */
  ghost predicate Ended(files0: Files, plan: seq<Item>, expected: seq<Row>, files1: Files, history1: seq<Row>, o: Outcome<()>, d: Disk) {
    match o
    case Done(_) => |plan| == |expected| && Finished(files0, expected, files1, history1, d)
    case Crashed => true
    case Failed(PatchPathNotAllowed(k)) => k == |expected| < |plan| && Finished(files0, expected, files1, history1, d)
    case Failed(PreimageMismatch(k)) =>
      k < |history1| && StuckAt(files1, history1, k) && LoopAt(files0, expected, files1, history1, k, d.files, d.history)
    case Failed(StatementThrew(_)) => true
    case Failed(_) => false
  }

  /** Every allowed patch is written and marked: the uninterrupted run's files and history. */
  ghost predicate Finished(files0: Files, expected: seq<Row>, files1: Files, history1: seq<Row>, d: Disk) {
    && d.history == expected && SameView(d.files, AfterRows(files0, expected)) && Ready(files0, d.files, d.history)
    && !Stuck(files1, history1)
  }

  lemma ReachedEnd(hash: Text -> Text, files0: Files, plan: seq<Item>, expected: seq<Row>, files1: Files, history1: seq<Row>, d: Disk)
    requires IsExpected(hash, files0, plan, expected) && |history1| <= |expected|
    requires LoopAt(files0, expected, files1, history1, |expected|, d.files, d.history)
    ensures Finished(files0, expected, files1, history1, d)
  {
    assert expected[..|expected|] == expected;
    forall i | 0 <= i < |expected|
      ensures d.history[i] == expected[i] && d.history[i].applied && !expected[i].rolledBack
    {
      assert SameRecord(d.history[i], expected[i]) && IsExpectedAt(hash, files0, plan, expected, i);
    }
    CompletedIsReady(files0, expected, d.files, d.history);
  }

  /** One round from patch `i`: on to the next, or out with the phase's invariant. */
  lemma RoundRunKeeps(ctx: Context, files0: Files, plan: seq<Item>, expected: seq<Row>, files1: Files, history1: seq<Row>, d: Disk, i: nat)
    requires Tells(TextHash(ctx.sha)) && IsExpected(TextHash(ctx.sha), files0, plan, expected) && ArtifactsMatch(ctx, expected, d.artifacts)
    requires i < |plan| && i <= |expected| && |history1| <= |expected| && LoopAt(files0, expected, files1, history1, i, d.files, d.history)
    ensures
      var (o, d') := RoundRun(ctx, d, plan, i);
      && Applying(files0, expected, d'.files, d'.history) && ArtifactsMatch(ctx, expected, d'.artifacts) && Faithful(d, o, d')
      && if o.Done? then i < |expected| && LoopAt(files0, expected, files1, history1, i + 1, d'.files, d'.history)
         else Ended(files0, plan, expected, files1, history1, o, d')
  {
    if plan[i].target.None? {
      ReachedEnd(TextHash(ctx.sha), files0, plan, expected, files1, history1, d);
    } else {
      PatchKeeps(TextHash(ctx.sha), files0, plan, expected, files1, history1, d, i);
      var (patched, d') := PatchRun(TextHash(ctx.sha), d, i, plan[i].target.value, plan[i]);
      if patched.Done? { ArtifactRunKeeps(ctx, expected, d', i, ctx.entry(i, expected[i].path, patched.value)); }
    }
  }

  lemma PatchKeeps(hash: Text -> Text, files0: Files, plan: seq<Item>, expected: seq<Row>, files1: Files, history1: seq<Row>, d: Disk, i: nat)
    requires Tells(hash) && IsExpected(hash, files0, plan, expected) && |history1| <= |expected|
    requires i < |plan| && i <= |expected| && LoopAt(files0, expected, files1, history1, i, d.files, d.history) && plan[i].target.Some?
    ensures i < |expected| && plan[i].target.value == expected[i].path
    ensures
      var (o, d') := PatchRun(hash, d, i, plan[i].target.value, plan[i]);
      && Applying(files0, expected, d'.files, d'.history) && d'.artifacts == d.artifacts && Faithful(d, o, d')
      && match o
         case Done(hashes) => hashes == Hashed(expected[i]) && LoopAt(files0, expected, files1, history1, i + 1, d'.files, d'.history)
         case Crashed => true
         case Failed(fault) => Ended(files0, plan, expected, files1, history1, Failed(fault), d')
  {
    var path := plan[i].target.value;
    NextRowIsExpected(hash, files0, plan, expected, files1, history1, i, d.files, d.history);
    assert IsExpectedAt(hash, files0, plan, expected, i);
    PatchRunSteps(hash, d, i, path, plan[i]);
    var (patched, d') := PatchRun(hash, d, i, path, plan[i]);
    LoopStep(hash, files0, plan, expected, files1, history1, i, d.files, d.history, patched, d'.files, d'.history);
  }

  lemma LoopUnrolls(ctx: Context, d: Disk, plan: seq<Item>, i: nat)
    requires i < |plan| && i <= |d.history|
    ensures
      var (round, d') := RoundRun(ctx, d, plan, i);
      LoopRun(ctx, d, plan, i) == if round.Done? then LoopRun(ctx, d', plan, i + 1) else (round, d')
  {}

  /** The round from patch `k` keeps the one, or ends in the other. */
  ghost predicate RoundOk(ctx: Context, plan: seq<Item>, inv: (Disk, nat) -> bool, post: (Outcome<()>, Disk) -> bool, d: Disk, k: nat) {
    inv(d, k) && k < |plan| && k <= |d.history| ==>
      var (round, d') := RoundRun(ctx, d, plan, k);
      if round.Done? then inv(d', k + 1) else post(round, d')
  }

  lemma {:induction false} LoopHolds(ctx: Context, d: Disk, plan: seq<Item>, i: nat, inv: (Disk, nat) -> bool, post: (Outcome<()>, Disk) -> bool)
    requires i <= |plan| && i <= |d.history| && inv(d, i)
    requires forall e :: inv(e, |plan|) ==> post(Done(()), e)
    requires forall e, k: nat :: RoundOk(ctx, plan, inv, post, e, k)
    ensures post(LoopRun(ctx, d, plan, i).0, LoopRun(ctx, d, plan, i).1)
    decreases |plan| - i
  {
    if i < |plan| {
      assert RoundOk(ctx, plan, inv, post, d, i);
      var (round, d') := RoundRun(ctx, d, plan, i);
      if round.Done? { LoopHolds(ctx, d', plan, i + 1, inv, post); }
    }
  }

  /** What a run that began on `d` keeps from round to round. */
  ghost predicate RunInv(ctx: Context, files0: Files, plan: seq<Item>, expected: seq<Row>, d: Disk, e: Disk, i: nat) {
    && i <= |plan| && i <= |expected| && LoopAt(files0, expected, d.files, d.history, i, e.files, e.history)
    && ArtifactsMatch(ctx, expected, e.artifacts) && (NoThrows(d.fates) ==> NoThrows(e.fates))
  }

  ghost predicate RunPost(ctx: Context, files0: Files, plan: seq<Item>, expected: seq<Row>, d: Disk, o: Outcome<()>, e: Disk) {
    && Applying(files0, expected, e.files, e.history) && ArtifactsMatch(ctx, expected, e.artifacts) && Faithful(d, o, e)
    && Ended(files0, plan, expected, d.files, d.history, o, e)
  }

  lemma RunStep(ctx: Context, files0: Files, plan: seq<Item>, expected: seq<Row>, d: Disk, e: Disk, i: nat)
    requires Tells(TextHash(ctx.sha)) && IsExpected(TextHash(ctx.sha), files0, plan, expected) && |d.history| <= |expected|
    requires RunInv(ctx, files0, plan, expected, d, e, i)
    ensures
      if i == |plan| then RunPost(ctx, files0, plan, expected, d, Done(()), e)
      else i <= |e.history| ==>
        var (round, e') := RoundRun(ctx, e, plan, i);
        if round.Done? then RunInv(ctx, files0, plan, expected, d, e', i + 1) else RunPost(ctx, files0, plan, expected, d, round, e')
  {
    if i == |plan| { ReachedEnd(TextHash(ctx.sha), files0, plan, expected, d.files, d.history, e); }
    else { RoundRunKeeps(ctx, files0, plan, expected, d.files, d.history, e, i); }
  }

  ghost function RunInvOf(ctx: Context, files0: Files, plan: seq<Item>, expected: seq<Row>, d: Disk): (Disk, nat) -> bool {
    (e: Disk, i: nat) => RunInv(ctx, files0, plan, expected, d, e, i)
  }

  ghost function RunPostOf(ctx: Context, files0: Files, plan: seq<Item>, expected: seq<Row>, d: Disk): (Outcome<()>, Disk) -> bool {
    (o: Outcome<()>, e: Disk) => RunPost(ctx, files0, plan, expected, d, o, e)
  }

  lemma RoundsOk(ctx: Context, files0: Files, plan: seq<Item>, expected: seq<Row>, d: Disk, e: Disk, k: nat)
    requires Tells(TextHash(ctx.sha)) && IsExpected(TextHash(ctx.sha), files0, plan, expected) && |d.history| <= |expected|
    ensures RoundOk(ctx, plan, RunInvOf(ctx, files0, plan, expected, d), RunPostOf(ctx, files0, plan, expected, d), e, k)
  {
    if RunInv(ctx, files0, plan, expected, d, e, k) && k < |plan| { RunStep(ctx, files0, plan, expected, d, e, k); }
  }

  lemma RunEnds(ctx: Context, files0: Files, plan: seq<Item>, expected: seq<Row>, d: Disk, e: Disk)
    requires Tells(TextHash(ctx.sha)) && IsExpected(TextHash(ctx.sha), files0, plan, expected) && |d.history| <= |expected|
    requires RunInv(ctx, files0, plan, expected, d, e, |plan|)
    ensures RunPost(ctx, files0, plan, expected, d, Done(()), e)
  {
    RunStep(ctx, files0, plan, expected, d, e, |plan|);
  }

  /** A whole run of the loop, on whatever an earlier run left behind. */
  lemma WholeRunKeeps(ctx: Context, files0: Files, plan: seq<Item>, expected: seq<Row>, d: Disk)
    requires Tells(TextHash(ctx.sha)) && IsExpected(TextHash(ctx.sha), files0, plan, expected) && ArtifactsMatch(ctx, expected, d.artifacts)
    requires Applying(files0, expected, d.files, d.history)
    ensures RunPost(ctx, files0, plan, expected, d, LoopRun(ctx, d, plan, 0).0, LoopRun(ctx, d, plan, 0).1)
  {
    var inv, post := RunInvOf(ctx, files0, plan, expected, d), RunPostOf(ctx, files0, plan, expected, d);
    forall e | inv(e, |plan|) ensures post(Done(()), e) { RunEnds(ctx, files0, plan, expected, d, e); }
    forall e, k: nat ensures RoundOk(ctx, plan, inv, post, e, k) { RoundsOk(ctx, files0, plan, expected, d, e, k); }
    RunStarts(ctx, files0, plan, expected, d);
    LoopHolds(ctx, d, plan, 0, inv, post);
  }

  lemma RunStarts(ctx: Context, files0: Files, plan: seq<Item>, expected: seq<Row>, d: Disk)
    requires ArtifactsMatch(ctx, expected, d.artifacts) && Applying(files0, expected, d.files, d.history)
    ensures RunInvOf(ctx, files0, plan, expected, d)(d, 0) && |d.history| <= |expected|
  {}

  // ----- the apply phase -----

  /** How the apply phase may end, and in which state. */
  ghost predicate Applied(files0: Files, plan: seq<Item>, expected: seq<Row>, o: Outcome<()>, d: Disk) {
    && Applying(files0, expected, d.files, d.history) && !o.Crashed?
    && (Completes(plan, expected, o) ==>
        d.history == expected && SameView(d.files, AfterRows(files0, expected)) && Ready(files0, d.files, d.history))
    && (!Completes(plan, expected, o) ==> o.Failed? && (o.fault.StatementThrew? || o.fault.PreimageMismatch?))
    && (o.Failed? && o.fault.PreimageMismatch? ==> !Settles(expected))
  }

  /** It got through every patch up to the first path that is not allowed. */
  predicate Completes(plan: seq<Item>, expected: seq<Row>, o: Outcome<()>) {
    if |plan| == |expected| then o.Done? else o == Failed(PatchPathNotAllowed(|expected|))
  }

  ghost predicate ApplyInv(ctx: Context, files0: Files, expected: seq<Row>, d: Disk, e: Disk) {
    && Applying(files0, expected, e.files, e.history) && ArtifactsMatch(ctx, expected, e.artifacts)
    && (NoThrows(d.fates) ==> NoThrows(e.fates))
  }

  lemma {:induction false} ApplyRunsKeep(ctx: Context, files0: Files, plan: seq<Item>, expected: seq<Row>, d: Disk, e: Disk)
    requires Tells(TextHash(ctx.sha)) && IsExpected(TextHash(ctx.sha), files0, plan, expected) && ApplyInv(ctx, files0, expected, d, e)
    ensures Applied(files0, plan, expected, ApplyRuns(ctx, e, plan).0, ApplyRuns(ctx, e, plan).1)
    ensures Faithful(d, ApplyRuns(ctx, e, plan).0, ApplyRuns(ctx, e, plan).1)
    decreases |e.fates|
  {
    WholeRunKeeps(ctx, files0, plan, expected, e);
    var (run, e') := LoopRun(ctx, e, plan, 0);
    if run.Crashed? {
      ApplyRunsKeep(ctx, files0, plan, expected, d, e');
    } else {
      EndedIsApplied(TextHash(ctx.sha), files0, plan, expected, e, run, e');
    }
  }

  lemma EndedIsApplied(hash: Text -> Text, files0: Files, plan: seq<Item>, expected: seq<Row>, e: Disk, run: Outcome<()>, e': Disk)
    requires IsExpected(hash, files0, plan, expected) && Applying(files0, expected, e.files, e.history)
    requires Applying(files0, expected, e'.files, e'.history) && Ended(files0, plan, expected, e.files, e.history, run, e')
    ensures run.Crashed? || Applied(files0, plan, expected, run, e')
  {
    if Settles(expected) { SettlingNeverSticks(hash, files0, plan, expected, e.files, e.history); }
  }

  // ----- the rollback phase -----

  lemma UndoRunKeeps(hash: Text -> Text, files0: Files, d: Disk, index: nat)
    requires Tells(hash) && Chained(hash, files0, d.history)
    requires index < |d.history| && IsLive(d.history[index]) && forall j :: index < j < |d.history| ==> !IsLive(d.history[j])
    ensures
      var (o, d') := UndoRun(hash, d, index);
      && Chained(hash, files0, d'.history)
      && d'.history == (if o.Done? then MarkUndone(d.history, index) else d.history)
      && if o.Failed? then !Ready(files0, d.files, d.history) else Ready(files0, d'.files, d'.history) <==> Ready(files0, d.files, d.history)
  {
    var row, content := d.history[index], Read(d.files, d.history[index].path);
    assert ChainedAt(hash, files0, d.history, index);
    HashTells(hash, content, row.pre);
    HashTells(hash, content, row.post);
    UndoRunIs(hash, d, index);
    if content == row.pre {
      UndoKeepsReadiness(hash, files0, d.files, d.history, index, d.files);
    } else if content == row.post {
      UndoKeepsReadiness(hash, files0, d.files, d.history, index, d.files[row.path := row.pre]);
    } else {
      LatestLiveIs(d.history, row.path, index);
      assert !ReadyAt(files0, d.files, d.history, row.path);
    }
  }

  /** What undoing one patch leaves, by what its file holds. */
  lemma UndoRunIs(hash: Text -> Text, d: Disk, index: nat)
    requires index < |d.history|
    ensures
      var row, h := d.history[index], hash(Read(d.files, d.history[index].path));
      var (o, d') := UndoRun(hash, d, index);
      match o
      case Done(_) =>
        && d'.history == MarkUndone(d.history, index)
        && d'.files == (if h == row.preHash then d.files else d.files[row.path := row.pre]) && (h == row.preHash || h == row.postHash)
      case Crashed => d'.history == d.history && (d'.files == d.files || (h == row.postHash && d'.files == d.files[row.path := row.pre]))
      case Failed(fault) =>
        fault == PostimageMismatch(index) && d'.history == d.history && d'.files == d.files && h != row.preHash && h != row.postHash
  {}

  lemma AllDead(files0: Files, d: Disk)
    requires forall i :: 0 <= i < |d.history| ==> !IsLive(d.history[i])
    ensures Ready(files0, d.files, d.history) <==> SameView(d.files, files0)
  {
    assert forall p :: ReadyAt(files0, d.files, d.history, p) <==> Read(d.files, p) == Read(files0, p);
  }

  function LiveCount(history: seq<Row>): nat {
    if history == [] then 0
    else LiveCount(history[..|history| - 1]) + if IsLive(history[|history| - 1]) then 1 else 0
  }

  /** Where the reverse loop stands above row `i`: what is above is dead, and the files are as ready, or
      as unready, as when it began. */
  ghost predicate Undoing(hash: Text -> Text, files0: Files, d0: Disk, d: Disk, i: nat, rolledBack: nat) {
    && |d.history| == |d0.history| && i <= |d.history| && Chained(hash, files0, d.history)
    && (forall j :: i <= j < |d.history| ==> !IsLive(d.history[j]))
    && d.history[..i] == d0.history[..i]
    && (Ready(files0, d.files, d.history) <==> Ready(files0, d0.files, d0.history))
    && rolledBack + LiveCount(d0.history[..i]) == LiveCount(d0.history)
  }

  ghost predicate Undone(hash: Text -> Text, files0: Files, d0: Disk, o: Outcome<nat>, d: Disk) {
    && Chained(hash, files0, d.history)
    && match o
       case Done(count) => (SameView(d.files, files0) <==> Ready(files0, d0.files, d0.history)) && count == LiveCount(d0.history)
       case Crashed => Ready(files0, d.files, d.history) <==> Ready(files0, d0.files, d0.history)
       case Failed(_) => !Ready(files0, d0.files, d0.history)
  }

  /** The step from above row `k` keeps the one, or ends in the other. */
  ghost predicate UndoOk(hash: Text -> Text, inv: (Disk, nat, nat) -> bool, post: (Outcome<nat>, Disk) -> bool, d: Disk, k: nat, n: nat) {
    inv(d, k, n) && 0 < k <= |d.history| ==>
      if !IsLive(d.history[k - 1]) then inv(d, k - 1, n)
      else
        var (undone, d') := UndoRun(hash, d, k - 1);
        match undone
        case Done(_) => inv(d', k - 1, n + 1)
        case Crashed => post(Crashed, d')
        case Failed(fault) => post(Failed(fault), d')
  }

  lemma {:induction false} UndoHolds(hash: Text -> Text, d: Disk, i: nat, rolledBack: nat,
                                     inv: (Disk, nat, nat) -> bool, post: (Outcome<nat>, Disk) -> bool)
    requires i <= |d.history| && inv(d, i, rolledBack)
    requires forall e, n: nat :: inv(e, 0, n) ==> post(Done(n), e)
    requires forall e, k: nat, n: nat :: UndoOk(hash, inv, post, e, k, n)
    ensures post(UndoFrom(hash, d, i, rolledBack).0, UndoFrom(hash, d, i, rolledBack).1)
    decreases i
  {
    if i > 0 {
      assert UndoOk(hash, inv, post, d, i, rolledBack);
      if !IsLive(d.history[i - 1]) {
        UndoHolds(hash, d, i - 1, rolledBack, inv, post);
      } else {
        var (undone, d') := UndoRun(hash, d, i - 1);
        if undone.Done? { UndoHolds(hash, d', i - 1, rolledBack + 1, inv, post); }
      }
    }
  }

  lemma LiveBelow(history: seq<Row>, i: nat)
    requires 0 < i <= |history|
    ensures LiveCount(history[..i]) == LiveCount(history[..i - 1]) + if IsLive(history[i - 1]) then 1 else 0
  {
    assert history[..i][..i - 1] == history[..i - 1];
  }

  lemma UndoStep(hash: Text -> Text, files0: Files, d0: Disk, d: Disk, i: nat, rolledBack: nat)
    requires Tells(hash) && Undoing(hash, files0, d0, d, i, rolledBack) && i > 0
    ensures
      if !IsLive(d.history[i - 1]) then Undoing(hash, files0, d0, d, i - 1, rolledBack)
      else
        var (undone, d') := UndoRun(hash, d, i - 1);
        match undone
        case Done(_) => Undoing(hash, files0, d0, d', i - 1, rolledBack + 1)
        case Crashed => Undone(hash, files0, d0, Crashed, d')
        case Failed(fault) => Undone(hash, files0, d0, Failed(fault), d')
  {
    LiveBelow(d0.history, i);
    assert d.history[..i][..i - 1] == d.history[..i - 1] && d0.history[..i][..i - 1] == d0.history[..i - 1];
    assert d.history[i - 1] == d.history[..i][i - 1] == d0.history[i - 1];
    if IsLive(d.history[i - 1]) {
      UndoRunKeeps(hash, files0, d, i - 1);
      assert MarkUndone(d.history, i - 1)[..i - 1] == d.history[..i - 1];
    }
  }

  ghost function UndoingOf(hash: Text -> Text, files0: Files, d: Disk): (Disk, nat, nat) -> bool {
    (e: Disk, i: nat, n: nat) => Undoing(hash, files0, d, e, i, n)
  }

  ghost function UndoneOf(hash: Text -> Text, files0: Files, d: Disk): (Outcome<nat>, Disk) -> bool {
    (o: Outcome<nat>, e: Disk) => Undone(hash, files0, d, o, e)
  }

  lemma UndosOk(hash: Text -> Text, files0: Files, d: Disk, e: Disk, k: nat, n: nat)
    requires Tells(hash)
    ensures UndoOk(hash, UndoingOf(hash, files0, d), UndoneOf(hash, files0, d), e, k, n)
  {
    if Undoing(hash, files0, d, e, k, n) && 0 < k <= |e.history| { UndoStep(hash, files0, d, e, k, n); }
  }

  lemma UndoEnds(hash: Text -> Text, files0: Files, d: Disk, e: Disk, n: nat)
    requires Undoing(hash, files0, d, e, 0, n)
    ensures Undone(hash, files0, d, Done(n), e)
  {
    AllDead(files0, e);
  }

  /** One rollback run: a death keeps the files as ready as they were, a finished one counts the live
      rows it undid. */
  lemma UndoFromKeeps(hash: Text -> Text, files0: Files, d: Disk)
    requires Tells(hash) && Chained(hash, files0, d.history)
    ensures Undone(hash, files0, d, UndoFrom(hash, d, |d.history|, 0).0, UndoFrom(hash, d, |d.history|, 0).1)
  {
    var inv, post := UndoingOf(hash, files0, d), UndoneOf(hash, files0, d);
    forall e, n: nat | inv(e, 0, n) ensures post(Done(n), e) { UndoEnds(hash, files0, d, e, n); }
    forall e, k: nat, n: nat ensures UndoOk(hash, inv, post, e, k, n) { UndosOk(hash, files0, d, e, k, n); }
    assert d.history[..|d.history|] == d.history;
    assert Undoing(hash, files0, d, d, |d.history|, 0);
    UndoHolds(hash, d, |d.history|, 0, inv, post);
  }

  /** Rollback, dying anywhere any number of times, restores every file exactly when the files were
      ready when it began. */
  lemma {:induction false} RollbackRestoresExactly(hash: Text -> Text, files0: Files, d: Disk)
    requires Tells(hash) && Chained(hash, files0, d.history)
    ensures Restored(files0, UndoRuns(hash, d)) <==> Ready(files0, d.files, d.history)
    ensures !UndoRuns(hash, d).0.Crashed?
    decreases |d.fates|
  {
    UndoFromKeeps(hash, files0, d);
    var (run, d') := UndoFrom(hash, d, |d.history|, 0);
    if run.Crashed? { RollbackRestoresExactly(hash, files0, d'); }
  }

  // ----- what rollback leaves in the history -----

  /** The row with its mark set, if it was to be undone. */
  function Retired(row: Row): Row { if IsLive(row) then row.(rolledBack := true) else row }

  /** The rows below `i` are retired, all of them when the run completed; those above are untouched. */
  ghost predicate Retires(before: seq<Row>, after: seq<Row>, i: nat, all: bool) {
    && |after| == |before|
    && (forall j :: 0 <= j < |before| ==> after[j] == before[j] || (j < i && after[j] == Retired(before[j])))
    && (all ==> forall j :: 0 <= j < i && j < |before| ==> after[j] == Retired(before[j]))
  }

  lemma UndoRunRetires(hash: Text -> Text, d: Disk, index: nat)
    requires index < |d.history| && IsLive(d.history[index])
    ensures var (undone, d') := UndoRun(hash, d, index);
      d'.history == if undone.Done? then d.history[index := Retired(d.history[index])] else d.history
  {}

  lemma RetiresOneMore(before: seq<Row>, after: seq<Row>, i: nat, all: bool)
    requires 0 < i <= |before|
    requires Retires(before[i - 1 := Retired(before[i - 1])], after, i - 1, all)
    ensures Retires(before, after, i, all)
  {
    assert after[i - 1] == Retired(before[i - 1]);
  }

  lemma {:induction false} UndoFromRetires(hash: Text -> Text, d: Disk, i: nat, rolledBack: nat)
    requires i <= |d.history|
    ensures var (run, d') := UndoFrom(hash, d, i, rolledBack);
      Retires(d.history, d'.history, i, run.Done?)
    decreases i
  {
    if i > 0 {
      if !IsLive(d.history[i - 1]) {
        UndoFromRetires(hash, d, i - 1, rolledBack);
      } else {
        UndoRunRetires(hash, d, i - 1);
        var (undone, d') := UndoRun(hash, d, i - 1);
        if undone.Done? {
          UndoFromRetires(hash, d', i - 1, rolledBack + 1);
          RetiresOneMore(d.history, UndoFrom(hash, d', i - 1, rolledBack + 1).1.history, i, UndoFrom(hash, d', i - 1, rolledBack + 1).0.Done?);
        }
      }
    }
  }

  /** Rollback, dying anywhere any number of times, that completes has set the mark of exactly the live
      rows and changed nothing else in the history. One stopped by a mismatch has done so for some. */
  lemma {:induction false} RollbackMarksExactly(hash: Text -> Text, d: Disk)
    ensures var (undone, d') := UndoRuns(hash, d);
      && |d'.history| == |d.history|
      && (forall j :: 0 <= j < |d.history| ==> d'.history[j] == Retired(d.history[j]) || (!undone.Done? && d'.history[j] == d.history[j]))
    decreases |d.fates|
  {
    UndoFromRetires(hash, d, |d.history|, 0);
    var (run, d') := UndoFrom(hash, d, |d.history|, 0);
    if run.Crashed? { RollbackMarksExactly(hash, d'); }
  }
}
