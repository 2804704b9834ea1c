/** What the artifacts of the patch step record, under every list of deaths. */
module PatchArtifacts {
  import opened JsText
  import opened Utf8
  import opened JsonValues
  import opened StableSort
  import opened CanonicalJson
  import opened PatchModel
  import opened PatchProofs
  import opened PatchRuns
  import opened PatchTheorems

  /** The artifact of patch `i`: under the run, the apply step, no task, the patch's index and the attempt. */
  function ArtifactAt(ctx: Context, table: ArtifactStore.Table, i: nat): Option<ArtifactStore.Entry> {
    var key := ArtifactStore.Key(ctx.runId, APPLY_PATCH, [], i, ctx.attempt);
    if key in table then Some(table[key]) else None
  }

  /** No patch below `n` is without its artifact. */
  ghost predicate RecordsBelow(ctx: Context, table: ArtifactStore.Table, n: nat) {
    forall i: nat :: i < n ==> ArtifactAt(ctx, table, i).Some?
  }

  /** Reading, comparing, writing and marking leave the artifacts alone, and say nothing of paths. */
  predicate LeavesArtifacts<T>(d: Disk, r: (Outcome<T>, Disk)) {
    r.1.artifacts == d.artifacts && !(r.0.Failed? && r.0.fault.PatchPathNotAllowed?)
  }

  lemma MarkLeavesArtifacts(d: Disk, index: nat, hashes: Hashes)
    requires index < |d.history|
    ensures LeavesArtifacts(d, MarkRun(d, index, hashes))
  {}

  lemma CompareLeavesArtifacts(hash: Text -> Text, d: Disk, index: nat, path: Text, offered: Row)
    requires index < |d.history|
    ensures LeavesArtifacts(d, CompareRun(hash, d, index, path, offered))
  {
    var row, written := d.history[index], Spend(d).(files := d.files[path := d.history[index].post]);
    MarkLeavesArtifacts(d, index, Hashes(row.preHash, row.postHash, offered.diffHash));
    MarkLeavesArtifacts(written, index, Hashes(offered.preHash, offered.postHash, offered.diffHash));
  }

  lemma PatchLeavesArtifacts(hash: Text -> Text, d: Disk, index: nat, path: Text, item: Item)
    requires index <= |d.history|
    ensures LeavesArtifacts(d, PatchRun(hash, d, index, path, item))
  {
    if Fated(d).Lives? {
      var offered := FreshRow(hash, d.files, path, item);
      var stored := StoreRow(Spend(d), index, offered);
      assert stored.artifacts == d.artifacts;
      CompareLeavesArtifacts(hash, Spend(stored), index, path, offered);
      assert LeavesArtifacts(stored, StoredRun(hash, stored, index, path, offered));
    }
  }

  lemma RoundRecords(ctx: Context, d: Disk, plan: seq<Item>, i: nat)
    requires i < |plan| && i <= |d.history| && RecordsBelow(ctx, d.artifacts, i)
    ensures
      var (o, d') := RoundRun(ctx, d, plan, i);
      && (o.Done? ==> RecordsBelow(ctx, d'.artifacts, i + 1))
      && (o.Failed? && o.fault.PatchPathNotAllowed? ==> o.fault.index == i && d'.artifacts == d.artifacts)
  {
    if plan[i].target.Some? {
      PatchLeavesArtifacts(TextHash(ctx.sha), d, i, plan[i].target.value, plan[i]);
      var (o, d') := RoundRun(ctx, d, plan, i);
      forall k: nat | o.Done? && k < i + 1 ensures ArtifactAt(ctx, d'.artifacts, k).Some? {
        if k < i { assert ArtifactAt(ctx, d.artifacts, k).Some?; }
      }
    }
  }

  /** A run records every patch it gets past. */
  lemma {:induction false} LoopRecords(ctx: Context, d: Disk, plan: seq<Item>, i: nat)
    requires i <= |plan| && i <= |d.history| && RecordsBelow(ctx, d.artifacts, i)
    ensures
      var (o, d') := LoopRun(ctx, d, plan, i);
      && (o.Done? ==> RecordsBelow(ctx, d'.artifacts, |plan|))
      && (o.Failed? && o.fault.PatchPathNotAllowed? ==> RecordsBelow(ctx, d'.artifacts, o.fault.index))
    decreases |plan| - i
  {
    if i < |plan| {
      RoundRecords(ctx, d, plan, i);
      LoopUnrolls(ctx, d, plan, i);
      var (round, d') := RoundRun(ctx, d, plan, i);
      if round.Done? { LoopRecords(ctx, d', plan, i + 1); }
    }
  }

  lemma {:induction false} ApplyRecords(ctx: Context, files0: Files, plan: seq<Item>, expected: seq<Row>, e: Disk)
    requires Tells(TextHash(ctx.sha)) && IsExpected(TextHash(ctx.sha), files0, plan, expected) && ApplyInv(ctx, files0, expected, e, e)
    ensures
      var (o, d) := ApplyRuns(ctx, e, plan);
      ArtifactsMatch(ctx, expected, d.artifacts) && (Completes(plan, expected, o) ==> RecordsBelow(ctx, d.artifacts, |expected|))
    decreases |e.fates|
  {
    WholeRunKeeps(ctx, files0, plan, expected, e);
    LoopRecords(ctx, e, plan, 0);
    var (run, e') := LoopRun(ctx, e, plan, 0);
    if run.Crashed? { ApplyRecords(ctx, files0, plan, expected, e'); }
  }

  lemma {:induction false} UndoLeavesArtifacts(hash: Text -> Text, d: Disk, i: nat, rolledBack: nat)
    requires i <= |d.history|
    ensures UndoFrom(hash, d, i, rolledBack).1.artifacts == d.artifacts
    decreases i
  {
    if i > 0 {
      if IsLive(d.history[i - 1]) {
        var (undone, d') := UndoRun(hash, d, i - 1);
        if undone.Done? { UndoLeavesArtifacts(hash, d', i - 1, rolledBack + 1); }
      } else {
        UndoLeavesArtifacts(hash, d, i - 1, rolledBack);
      }
    }
  }

  lemma {:induction false} UndosLeaveArtifacts(hash: Text -> Text, d: Disk)
    ensures UndoRuns(hash, d).1.artifacts == d.artifacts
    decreases |d.fates|
  {
    UndoLeavesArtifacts(hash, d, |d.history|, 0);
    var (run, d') := UndoFrom(hash, d, |d.history|, 0);
    if run.Crashed? { UndosLeaveArtifacts(hash, d'); }
  }

  // ----- what the plan says, without rows -----

  /** What a path reads as after the first `n` patches: the postimage of the last of them on it, or what it
      read as before. */
  function ContentAfter(files: Files, plan: seq<Item>, n: nat, path: Text): Unicode
    requires n <= |plan|
  {
    if n == 0 then Read(files, path)
    else if plan[n - 1].target == Some(path) then ReplaceLone(plan[n - 1].postimage)
    else ContentAfter(files, plan, n - 1, path)
  }

  /** Every path reads as after the first `n` patches. */
  ghost predicate HoldsContent(after: Files, files: Files, plan: seq<Item>, n: nat)
    requires n <= |plan|
  {
    forall path :: Read(after, path) == ContentAfter(files, plan, n, path)
  }

  lemma OneMoreWritten(after: Files, files: Files, plan: seq<Item>, n: nat)
    requires 0 < n <= |plan| && plan[n - 1].target.Some? && HoldsContent(after, files, plan, n - 1)
    ensures HoldsContent(after[plan[n - 1].target.value := ReplaceLone(plan[n - 1].postimage)], files, plan, n)
  {
    var next := after[plan[n - 1].target.value := ReplaceLone(plan[n - 1].postimage)];
    forall path ensures Read(next, path) == ContentAfter(files, plan, n, path) {
      assert Read(after, path) == ContentAfter(files, plan, n - 1, path);
    }
  }

  lemma {:induction false} RowsWriteContent(hash: Text -> Text, files: Files, plan: seq<Item>, n: nat)
    requires n <= AllowedPrefix(plan)
    ensures HoldsContent(AfterRows(files, ExpectedRows(hash, files, plan, n)), files, plan, n)
  {
    if n > 0 {
      RowsWriteContent(hash, files, plan, n - 1);
      LastRowWrites(hash, files, plan, n);
      OneMoreWritten(AfterRows(files, ExpectedRows(hash, files, plan, n - 1)), files, plan, n);
    }
  }

  lemma LastRowWrites(hash: Text -> Text, files: Files, plan: seq<Item>, n: nat)
    requires 0 < n <= AllowedPrefix(plan)
    ensures plan[n - 1].target.Some?
    ensures AfterRows(files, ExpectedRows(hash, files, plan, n)) ==
      AfterRows(files, ExpectedRows(hash, files, plan, n - 1))[plan[n - 1].target.value := ReplaceLone(plan[n - 1].postimage)]
  {
    var before, rows := ExpectedRows(hash, files, plan, n - 1), ExpectedRows(hash, files, plan, n);
    assert rows[..n - 1] == before && rows[n - 1].post == ReplaceLone(plan[n - 1].postimage);
  }

  /** Each row of the history records the patch it is for: its path, what it found there and what it leaves,
      and the hashes of these and of its diff. */
  lemma ExpectedExactly(ctx: Context, files: Files, plan: seq<Item>, i: nat)
    requires i < AllowedPrefix(plan)
    ensures |Expected(ctx, files, plan)| == AllowedPrefix(plan)
    ensures
      var path, item, hash := plan[i].target.value, plan[i], TextHash(ctx.sha);
      Expected(ctx, files, plan)[i] ==
        Row(path, hash(ContentAfter(files, plan, i, path)), hash(item.postimage), hash(item.diffText),
            ContentAfter(files, plan, i, path), ReplaceLone(item.postimage), true, false)
  {
    var hash := TextHash(ctx.sha);
    ExpectedAt(hash, files, plan, AllowedPrefix(plan), i);
    RowsWriteContent(hash, files, plan, i);
    ExpectedBelow(hash, files, plan, AllowedPrefix(plan), i);
  }

  lemma {:induction false} ExpectedBelow(hash: Text -> Text, files: Files, plan: seq<Item>, n: nat, i: nat)
    requires i <= n <= AllowedPrefix(plan)
    ensures ExpectedRows(hash, files, plan, n)[..i] == ExpectedRows(hash, files, plan, i)
  {
    if i < n { ExpectedBelow(hash, files, plan, n - 1, i); }
  }

  /** An apply phase that got through its patches leaves every path as the plan says, whatever died or threw
      on the way. */
  lemma AppliedExactly(ctx: Context, files: Files, plan: seq<Item>, fates: seq<Fate>)
    requires Injective(ctx.sha) && Completes(plan, Expected(ctx, files, plan), ApplyRuns(ctx, Start(files, fates), plan).0)
    ensures forall path :: Read(ApplyRuns(ctx, Start(files, fates), plan).1.files, path) == ContentAfter(files, plan, AllowedPrefix(plan), path)
  {
    var start, expected := Start(files, fates), Expected(ctx, files, plan);
    StartApplies(ctx, files, plan, fates);
    ApplyRunsKeep(ctx, files, plan, expected, start, start);
    RowsWriteContent(TextHash(ctx.sha), files, plan, AllowedPrefix(plan));
  }

  // ----- what stays behind -----

  /** The artifact of patch `i` says which patch it was, on which path, and the hashes of what it found, of
      what it left and of its diff; its own digest is of what it says. */
  predicate IsRecordOf(runId: Text, sha: Hash, le: Collation, files: Files, plan: seq<Item>, i: nat, e: ArtifactStore.Entry)
    requires i < AllowedPrefix(plan)
  {
    var path := plan[i].target.value;
    && e.kind == PATCH_APPLY && e.inline.Some? && e.inline.value.Obj?
    && e.uri == ArtifactUri.Build(ArtifactUri.Parts(runId, APPLY_PATCH, [], PATCH_NAME + Decimal(i) + DOT_JSON))
    && e.sha256 == HashText(sha, Canonicalize(le, e.inline.value))
    && Lookup(e.inline.value.members, PATCH_INDEX) == Some(Num(Decimal(i)))
    && Lookup(e.inline.value.members, TARGET_PATH) == Some(Str(path))
    && Lookup(e.inline.value.members, PREIMAGE_HASH) == Some(Str(HashText(sha, ContentAfter(files, plan, i, path))))
    && Lookup(e.inline.value.members, POSTIMAGE_HASH) == Some(Str(HashText(sha, plan[i].postimage)))
    && Lookup(e.inline.value.members, DIFF_HASH) == Some(Str(HashText(sha, plan[i].diffText)))
  }

  lemma InlineReads(index: nat, path: Text, hashes: Hashes)
    ensures
      var ms := PatchInline(index, path, hashes).members;
      && Lookup(ms, PATCH_INDEX) == Some(Num(Decimal(index))) && Lookup(ms, TARGET_PATH) == Some(Str(path))
      && Lookup(ms, PREIMAGE_HASH) == Some(Str(hashes.pre)) && Lookup(ms, POSTIMAGE_HASH) == Some(Str(hashes.post))
      && Lookup(ms, DIFF_HASH) == Some(Str(hashes.diff))
  {
    var ms := PatchInline(index, path, hashes).members;
    assert |PATCH_INDEX| == 10 && |TARGET_PATH| == 10 && |PREIMAGE_HASH| == 12 && |POSTIMAGE_HASH| == 13 && |DIFF_HASH| == 8;
    assert PATCH_INDEX[0] == 0x70 && TARGET_PATH[0] == 0x74;
    LookupSkips(ms, TARGET_PATH);
    LookupSkips(ms, PREIMAGE_HASH);
    LookupSkips(ms[1..], PREIMAGE_HASH);
    LookupSkips(ms, POSTIMAGE_HASH);
    LookupSkips(ms[1..], POSTIMAGE_HASH);
    LookupSkips(ms[1..][1..], POSTIMAGE_HASH);
    LookupSkips(ms, DIFF_HASH);
    LookupSkips(ms[1..], DIFF_HASH);
    LookupSkips(ms[1..][1..], DIFF_HASH);
    LookupSkips(ms[1..][1..][1..], DIFF_HASH);
  }

  lemma LookupSkips(ms: seq<Member>, key: Text)
    requires ms != []
    ensures Lookup(ms, key) == if ms[0].key == key then Some(ms[0].val) else Lookup(ms[1..], key)
  {}

  lemma EntryRecords(runId: Text, attempt: nat, sha: Hash, le: Collation, files: Files, plan: seq<Item>, i: nat)
    requires i < AllowedPrefix(plan)
    ensures
      var ctx := StepContext(runId, attempt, sha, le);
      && |Expected(ctx, files, plan)| == AllowedPrefix(plan)
      && var row := Expected(ctx, files, plan)[i];
         IsRecordOf(runId, sha, le, files, plan, i, PatchEntry(runId, sha, le, i, row.path, Hashed(row)))
  {
    var ctx := StepContext(runId, attempt, sha, le);
    ExpectedExactly(ctx, files, plan, i);
    var row := Expected(ctx, files, plan)[i];
    InlineReads(i, row.path, Hashed(row));
  }

  /** Whatever died when: a plan that settles is carried out and undone, and what stays behind is one
      artifact for each of its patches, saying what the plan says of it, and no other. */
  lemma TrailIsComplete(runId: Text, attempt: nat, sha: Hash, le: Collation, files: Files, plan: seq<Item>, fates: seq<Fate>)
    requires Injective(sha) && NoThrows(fates) && Settles(Expected(StepContext(runId, attempt, sha, le), files, plan))
    ensures
      var ctx := StepContext(runId, attempt, sha, le);
      var undone := ApplyThenUndo(ctx, files, plan, fates);
      && Restored(files, undone)
      && (forall i: nat :: i >= AllowedPrefix(plan) ==> ArtifactAt(ctx, undone.1.artifacts, i) == None)
      && (forall i: nat :: i < AllowedPrefix(plan) ==> RecordedAt(ctx, undone.1.artifacts, runId, sha, le, files, plan, i))
  {
    var ctx := StepContext(runId, attempt, sha, le);
    var expected, start := Expected(ctx, files, plan), Start(files, fates);
    SettledIsRestored(ctx, files, plan, fates);
    StartApplies(ctx, files, plan, fates);
    ApplyRecords(ctx, files, plan, expected, start);
    var table := ApplyRuns(ctx, start, plan).1.artifacts;
    UndosLeaveArtifacts(TextHash(sha), ApplyRuns(ctx, start, plan).1);
    forall i: nat
      ensures i >= AllowedPrefix(plan) ==> ArtifactAt(ctx, table, i) == None
      ensures i < AllowedPrefix(plan) ==> RecordedAt(ctx, table, runId, sha, le, files, plan, i)
    {
      assert i < |expected| ==> ArtifactAt(ctx, table, i).Some?;
      TrailAt(runId, attempt, sha, le, expected, table, i);
      if i < AllowedPrefix(plan) { EntryRecords(runId, attempt, sha, le, files, plan, i); }
    }
  }

  predicate RecordedAt(ctx: Context, table: ArtifactStore.Table, runId: Text, sha: Hash, le: Collation, files: Files, plan: seq<Item>, i: nat)
    requires i < AllowedPrefix(plan)
  {
    ArtifactAt(ctx, table, i).Some? && IsRecordOf(runId, sha, le, files, plan, i, ArtifactAt(ctx, table, i).value)
  }

  lemma TrailAt(runId: Text, attempt: nat, sha: Hash, le: Collation, expected: seq<Row>, table: ArtifactStore.Table, i: nat)
    requires ArtifactsMatch(StepContext(runId, attempt, sha, le), expected, table)
    ensures
      var found := ArtifactAt(StepContext(runId, attempt, sha, le), table, i);
      found.Some? ==> i < |expected| && found.value == PatchEntry(runId, sha, le, i, expected[i].path, Hashed(expected[i]))
  {
    var ctx := StepContext(runId, attempt, sha, le);
    assert ArtifactAt(ctx, table, i).Some? ==> PatchKey(ctx, i) in table;
  }

  /** Of the whole step: every file is restored under every list of deaths exactly for the plans that settle. */
  lemma StepRestoresExactly(runId: Text, attempt: nat, sha: Hash, le: Collation, files: Files, plan: seq<Item>)
    requires Injective(sha)
    ensures
      var ctx := StepContext(runId, attempt, sha, le);
      (forall fates :: NoThrows(fates) ==> Restored(files, ApplyThenUndo(ctx, files, plan, fates))) <==> Settles(Expected(ctx, files, plan))
  {
    RestoredExactly(StepContext(runId, attempt, sha, le), files, plan);
  }
}
