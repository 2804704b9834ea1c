/** The patch step and its rollback as they run: statements on files and tables, each method the run
    that the functions of `PatchModel` spell out. */
module Patches {
  import opened JsText
  import opened Utf8
  import opened PatchModel
  import opened PatchTheorems

  class Workspace {
    const ctx: Context
    var files: Files
    var history: seq<Row>
    var artifacts: ArtifactStore.Table
    var fates: seq<Fate>

    ghost function Snapshot(): Disk
      reads this
    {
      Disk(files, history, artifacts, fates)
    }

    constructor (ctx: Context, files: Files, fates: seq<Fate>)
      ensures this.ctx == ctx && Snapshot() == Start(files, fates)
    {
      this.ctx, this.files, this.history, this.artifacts, this.fates := ctx, files, [], map[], fates;
    }

    method NextFate() returns (fate: Fate)
      modifies this`fates
      ensures fate == Fated(old(Snapshot())) && Snapshot() == Spend(old(Snapshot()))
    {
      if fates == [] { return Lives; }
      fate, fates := fates[0], fates[1..];
    }

    /** First writer wins: the stored row comes back, whoever stored it. */
    method InsertPatchHistory(index: nat, offered: Row) returns (row: Row)
      requires index <= |history|
      modifies this`history
      ensures Snapshot() == StoreRow(old(Snapshot()), index, offered) && row == history[index]
      ensures row == if index < |old(history)| then old(history)[index] else offered
    {
      if index == |history| { history := history + [offered]; }
      row := history[index];
    }

    method MarkPatchApplied(index: nat)
      requires index < |history|
      modifies this`history
      ensures history == old(history)[index := old(history)[index].(applied := true)]
    {
      history := history[index := history[index].(applied := true)];
    }

    method MarkPatchRolledBack(index: nat)
      requires index < |history|
      modifies this`history
      ensures history == MarkUndone(old(history), index)
    {
      history := history[index := history[index].(rolledBack := true)];
    }

    method ApplyReversiblePatch(index: nat, path: Text, item: Item) returns (outcome: Outcome<Hashes>)
      requires index <= |history|
      modifies this`files, this`history, this`fates
      ensures (outcome, Snapshot()) == PatchRun(TextHash(ctx.sha), old(Snapshot()), index, path, item)
    {
      var preimage := Read(files, path);
      var preHash, postHash, diffHash := HashText(ctx.sha, preimage), HashText(ctx.sha, item.postimage), HashText(ctx.sha, item.diffText);
      var fate := NextFate();
      if !fate.Lives? { return Stop(fate, index); }
      var row := InsertPatchHistory(index, Row(path, preHash, postHash, diffHash, preimage, ReplaceLone(item.postimage), false, false));
      fate := NextFate();
      if !fate.Lives? { return Stop(fate, index); }
      var currentHash := HashText(ctx.sha, Read(files, path));
      if currentHash == row.postHash {
        fate := NextFate();
        if !fate.Lives? { return Stop(fate, index); }
        MarkPatchApplied(index);
        return Done(Hashes(row.preHash, row.postHash, diffHash));
      }
      if currentHash != row.preHash { return Failed(PreimageMismatch(index)); }
      fate := NextFate();
      if !fate.Lives? { return Stop(fate, index); }
      files := files[path := row.post];
      fate := NextFate();
      if !fate.Lives? { return Stop(fate, index); }
      MarkPatchApplied(index);
      return Done(Hashes(preHash, postHash, diffHash));
    }

    method InsertArtifact(index: nat, entry: ArtifactStore.Entry) returns (outcome: Outcome<()>)
      modifies this`artifacts, this`fates
      ensures (outcome, Snapshot()) == ArtifactRun(ctx, old(Snapshot()), index, entry)
      ensures outcome.Done? ==>
        var key := ArtifactStore.Key(ctx.runId, APPLY_PATCH, [], index, ctx.attempt);
        && key in artifacts && artifacts[key].sha256 == entry.sha256 && artifacts[key].uri == entry.uri
        && (key !in old(artifacts) ==> artifacts[key] == entry)
    {
      var key := PatchKey(ctx, index);
      var fate := NextFate();
      if !fate.Lives? { return Stop(fate, index); }
      if key !in artifacts {
        artifacts := artifacts[key := entry];
      } else if artifacts[key].sha256 != entry.sha256 || artifacts[key].uri != entry.uri {
        return Failed(ArtifactDivergence(key));
      }
      return Done(());
    }

    /** One round of the patch loop: the path check, the patch, its artifact. */
    method ExecuteItem(plan: seq<Item>, i: nat) returns (outcome: Outcome<()>)
      requires i < |plan| && i <= |history|
      modifies this`files, this`history, this`artifacts, this`fates
      ensures (outcome, Snapshot()) == RoundRun(ctx, old(Snapshot()), plan, i)
    {
      if plan[i].target.None? { return Failed(PatchPathNotAllowed(i)); }
      var path := plan[i].target.value;
      var patched := ApplyReversiblePatch(i, path, plan[i]);
      match patched {
        case Done(hashes) => outcome := InsertArtifact(i, ctx.entry(i, path, hashes));
        case Crashed => outcome := Crashed;
        case Failed(fault) => outcome := Failed(fault);
      }
    }

    /** The patch loop, from patch 0, on whatever an earlier run left behind. */
    method Execute(plan: seq<Item>) returns (outcome: Outcome<()>)
      modifies this`files, this`history, this`artifacts, this`fates
      ensures (outcome, Snapshot()) == LoopRun(ctx, old(Snapshot()), plan, 0)
    {
      ghost var end := LoopRun(ctx, Snapshot(), plan, 0);
      var i := 0;
      while i < |plan|
        invariant 0 <= i <= |plan| && i <= |history| && EndsIn(plan, i, end)
      {
        ghost var before := Snapshot();
        outcome := ExecuteItem(plan, i);
        PatchRuns.LoopUnrolls(ctx, before, plan, i);
        if !outcome.Done? { return; }
        i := i + 1;
      }
      return Done(());
    }

    /** The rounds still to come end like this. */
    ghost predicate EndsIn(plan: seq<Item>, i: nat, end: (Outcome<()>, Disk))
      requires i <= |plan| && i <= |history|
      reads this
    {
      LoopRun(ctx, Snapshot(), plan, i) == end
    }

    method RollbackReversiblePatch(index: nat) returns (outcome: Outcome<()>)
      requires index < |history|
      modifies this`files, this`history, this`fates
      ensures (outcome, Snapshot()) == UndoRun(TextHash(ctx.sha), old(Snapshot()), index)
    {
      var row := history[index];
      var fate := NextFate();
      if !fate.Lives? { return Crashed; }
      var currentHash := HashText(ctx.sha, Read(files, row.path));
      if currentHash != row.preHash {
        if currentHash != row.postHash { return Failed(PostimageMismatch(index)); }
        files := files[row.path := row.pre];
        fate := NextFate();
        if !fate.Lives? { return Crashed; }
      }
      MarkPatchRolledBack(index);
      return Done(());
    }

    /** The reverse loop over the live rows. */
    method RollbackAppliedPatches() returns (outcome: Outcome<nat>)
      modifies this`files, this`history, this`fates
      ensures (outcome, Snapshot()) == UndoFrom(TextHash(ctx.sha), old(Snapshot()), |old(history)|, 0)
    {
      ghost var end := UndoFrom(TextHash(ctx.sha), Snapshot(), |history|, 0);
      var rolledBack := 0;
      var i := |history|;
      while i > 0
        invariant 0 <= i <= |history| && UndoFrom(TextHash(ctx.sha), Snapshot(), i, rolledBack) == end
      {
        i := i - 1;
        if !history[i].applied || history[i].rolledBack { continue; }
        var step := RollbackReversiblePatch(i);
        if step.Crashed? { return Crashed; }
        if step.Failed? { return Failed(step.fault); }
        rolledBack := rolledBack + 1;
      }
      return Done(rolledBack);
    }

    /** The apply phase: run again from patch 0 as often as the process dies. */
    method ApplyUntilItEnds(plan: seq<Item>) returns (outcome: Outcome<()>)
      modifies this`files, this`history, this`artifacts, this`fates
      ensures (outcome, Snapshot()) == ApplyRuns(ctx, old(Snapshot()), plan)
    {
      ghost var end := ApplyRuns(ctx, Snapshot(), plan);
      outcome := Execute(plan);
      while outcome.Crashed?
        invariant end == if outcome.Crashed? then ApplyRuns(ctx, Snapshot(), plan) else (outcome, Snapshot())
        decreases |fates|, outcome.Crashed?
      {
        outcome := Execute(plan);
      }
    }

    /** The rollback phase: run again as often as the process dies. */
    method RollBackUntilItEnds() returns (outcome: Outcome<nat>)
      modifies this`files, this`history, this`fates
      ensures (outcome, Snapshot()) == UndoRuns(TextHash(ctx.sha), old(Snapshot()))
    {
      ghost var end := UndoRuns(TextHash(ctx.sha), Snapshot());
      outcome := RollbackAppliedPatches();
      while outcome.Crashed?
        invariant end == if outcome.Crashed? then UndoRuns(TextHash(ctx.sha), Snapshot()) else (outcome, Snapshot())
        decreases |fates|, outcome.Crashed?
      {
        outcome := RollbackAppliedPatches();
      }
    }

    /** One apply phase, then one rollback phase, dying or throwing anywhere. Every file is back at its
        content exactly when the files were ready in between; they are for every plan that settles, if
        nothing throws, and for every plan that was carried out to its end. */
    method ApplyThenRollBack(plan: seq<Item>) returns (applied: Outcome<()>, undone: Outcome<nat>, ghost between: Disk)
      requires Injective(ctx.sha) && history == [] && artifacts == map[]
      modifies this`files, this`history, this`artifacts, this`fates
      ensures (applied, between) == ApplyRuns(ctx, old(Snapshot()), plan)
      ensures !applied.Crashed? && !undone.Crashed?
      ensures undone.Done? && SameView(files, old(files)) <==> Ready(old(files), between.files, between.history)
      ensures undone.Done? ==> |history| == |between.history| && forall j :: 0 <= j < |history| ==> history[j] == PatchRuns.Retired(between.history[j])
      ensures
        var expected := Expected(ctx, old(files), plan);
        && (PatchRuns.Completes(plan, expected, applied) ==> undone.Done? && SameView(files, old(files)))
        && (Settles(expected) && NoThrows(old(fates)) ==> PatchRuns.Completes(plan, expected, applied))
        && (!PatchRuns.Completes(plan, expected, applied) ==>
            applied.Failed? && (applied.fault.StatementThrew? || applied.fault.PreimageMismatch?))
    {
      ghost var files0, fates0, expected := files, fates, Expected(ctx, files, plan);
      StartApplies(ctx, files, plan, fates);
      PatchRuns.ApplyRunsKeep(ctx, files, plan, expected, Snapshot(), Snapshot());
      applied := ApplyUntilItEnds(plan);
      between := Snapshot();
      PatchProofs.ApplyingIsChained(TextHash(ctx.sha), files0, plan, expected, files, history);
      PatchRuns.RollbackRestoresExactly(TextHash(ctx.sha), files0, between);
      PatchRuns.RollbackMarksExactly(TextHash(ctx.sha), between);
      undone := RollBackUntilItEnds();
    }
  }
}
