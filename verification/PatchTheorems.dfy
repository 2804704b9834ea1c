/** What apply and rollback promise together: when every file is restored, and when not. */
module PatchTheorems {
  import opened JsText
  import opened Utf8
  import opened JsonValues
  import opened PatchModel
  import opened PatchProofs
  import opened PatchRuns

  function Expected(ctx: Context, files: Files, plan: seq<Item>): seq<Row> {
    ExpectedRows(TextHash(ctx.sha), files, plan, AllowedPrefix(plan))
  }

  function Start(files: Files, fates: seq<Fate>): Disk { Disk(files, [], map[], fates) }

  lemma StartApplies(ctx: Context, files: Files, plan: seq<Item>, fates: seq<Fate>)
    requires Injective(ctx.sha)
    ensures Tells(TextHash(ctx.sha)) && IsExpected(TextHash(ctx.sha), files, plan, Expected(ctx, files, plan))
    ensures ApplyInv(ctx, files, Expected(ctx, files, plan), Start(files, fates), Start(files, fates))
  {
    TextHashTells(ctx.sha);
    ExpectedIsExpected(TextHash(ctx.sha), files, plan);
    var expected := Expected(ctx, files, plan);
    assert expected[..0] == [];
    forall p ensures LeftByPrefix(files, expected[..0], p, Read(files, p)) {
      assert LeavesAt(files, [], 0, p, Read(files, p));
    }
  }

  // ----- between the phases -----

  /** Whatever cut the apply phase short and however it ended, rollback then restores every file
      exactly when the files are ready between the two phases. */
  lemma RestoredWhenReadyExactly(ctx: Context, files: Files, plan: seq<Item>, fates: seq<Fate>)
    requires Injective(ctx.sha)
    ensures
      var between := ApplyRuns(ctx, Start(files, fates), plan).1;
      Restored(files, ApplyThenUndo(ctx, files, plan, fates)) <==> Ready(files, between.files, between.history)
  {
    StartApplies(ctx, files, plan, fates);
    var hash, expected := TextHash(ctx.sha), Expected(ctx, files, plan);
    ApplyRunsKeep(ctx, files, plan, expected, Start(files, fates), Start(files, fates));
    var between := ApplyRuns(ctx, Start(files, fates), plan).1;
    ApplyingIsChained(hash, files, plan, expected, between.files, between.history);
    RollbackRestoresExactly(hash, files, between);
  }

  /** A plan that settles is carried out to its end under any deaths, and then undone. */
  lemma SettledIsRestored(ctx: Context, files: Files, plan: seq<Item>, fates: seq<Fate>)
    requires Injective(ctx.sha) && Settles(Expected(ctx, files, plan)) && NoThrows(fates)
    ensures Completes(plan, Expected(ctx, files, plan), ApplyRuns(ctx, Start(files, fates), plan).0)
    ensures Restored(files, ApplyThenUndo(ctx, files, plan, fates))
  {
    StartApplies(ctx, files, plan, fates);
    ApplyRunsKeep(ctx, files, plan, Expected(ctx, files, plan), Start(files, fates), Start(files, fates));
    RestoredWhenReadyExactly(ctx, files, plan, fates);
  }

  // ----- reaching a state -----

  /** A first run, undisturbed so far, before patch `i`. */
  ghost predicate Clean(ctx: Context, files0: Files, expected: seq<Row>, d: Disk, i: nat) {
    && i <= |expected| && d.history == expected[..i] && SameView(d.files, AfterRows(files0, expected[..i]))
    && ArtifactsMatch(ctx, expected, d.artifacts)
  }

  /** How many statements a patch takes on a clean disk. */
  function Statements(row: Row): nat { if row.pre == row.post then 3 else 4 }

  function Survive(n: nat, rest: seq<Fate>): seq<Fate> { if n == 0 then rest else [Lives] + Survive(n - 1, rest) }

  lemma SpendSurvive(d: Disk, n: nat, rest: seq<Fate>)
    requires n > 0 && d.fates == Survive(n, rest)
    ensures Fated(d) == Lives && Spend(d) == d.(fates := Survive(n - 1, rest))
  {
    assert d.fates[1..] == Survive(n - 1, rest);
  }

  lemma {:induction false} SurviveKeeps(n: nat, rest: seq<Fate>)
    ensures NoThrows(rest) ==> NoThrows(Survive(n, rest))
  {
    if n > 0 { SurviveKeeps(n - 1, rest); }
  }

  /** The row a clean disk's next patch offers is the expected one, unmarked. */
  lemma OffersExpected(hash: Text -> Text, files0: Files, plan: seq<Item>, expected: seq<Row>, files: Files, i: nat)
    requires Tells(hash) && IsExpected(hash, files0, plan, expected) && i < |expected|
    requires SameView(files, AfterRows(files0, expected[..i]))
    ensures FreshRow(hash, files, expected[i].path, plan[i]) == expected[i].(applied := false)
    ensures plan[i].target == Some(expected[i].path) && IsLive(expected[i])
    ensures Read(files, expected[i].path) == expected[i].pre && expected[i].diffHash == hash(plan[i].diffText)
    ensures expected[i].preHash == hash(expected[i].pre) && expected[i].postHash == hash(expected[i].post)
  {
    assert IsExpectedAt(hash, files0, plan, expected, i);
    FreshRowHashes(hash, files, expected[i].path, plan[i]);
  }

  /** A patch whose image is there already writes nothing. */
  function Written(files: Files, row: Row): Files { if row.pre == row.post then files else files[row.path := row.post] }

  lemma ViewAfterWrite(files0: Files, expected: seq<Row>, files: Files, i: nat)
    requires i < |expected| && SameView(files, AfterRows(files0, expected[..i]))
    ensures SameView(files[expected[i].path := expected[i].post], AfterRows(files0, expected[..i + 1]))
    ensures Read(files, expected[i].path) == expected[i].post ==> SameView(files, AfterRows(files0, expected[..i + 1]))
  {
    AfterRowsStep(files0, expected, i);
    var path, before, after := expected[i].path, AfterRows(files0, expected[..i]), AfterRows(files0, expected[..i + 1]);
    forall p
      ensures Read(after, p) == if p == path then expected[i].post else Read(before, p)
      ensures Read(files[path := expected[i].post], p) == if p == path then expected[i].post else Read(files, p)
    {
      assert after == before[path := expected[i].post];
    }
  }

  /** The first two statements on a clean disk: the expected row is stored, unmarked. */
  lemma StoreLives(hash: Text -> Text, files0: Files, plan: seq<Item>, expected: seq<Row>, d: Disk, i: nat, n: nat, rest: seq<Fate>)
    requires Tells(hash) && IsExpected(hash, files0, plan, expected) && i < |expected|
    requires d.history == expected[..i] && SameView(d.files, AfterRows(files0, expected[..i]))
    requires d.fates == Survive(n + 2, rest)
    ensures PatchRun(hash, d, i, expected[i].path, plan[i])
         == CompareRun(hash, Disk(d.files, Unmarked(expected, i + 1), d.artifacts, Survive(n, rest)), i, expected[i].path, expected[i].(applied := false))
  {
    var offered := expected[i].(applied := false);
    OffersExpected(hash, files0, plan, expected, d.files, i);
    StoreStep(hash, d, i, expected[i].path, plan[i], n, rest);
    assert Unmarked(expected, i + 1) == expected[..i] + [offered];
  }

  lemma StoreStep(hash: Text -> Text, d: Disk, index: nat, path: Text, item: Item, n: nat, rest: seq<Fate>)
    requires index <= |d.history| && d.fates == Survive(n + 2, rest)
    ensures
      var offered := FreshRow(hash, d.files, path, item);
      PatchRun(hash, d, index, path, item) == CompareRun(hash, StoreRow(d.(fates := Survive(n, rest)), index, offered), index, path, offered)
  {
    var offered := FreshRow(hash, d.files, path, item);
    SpendSurvive(d, n + 2, rest);
    SpendSurvive(StoreRow(d.(fates := Survive(n + 1, rest)), index, offered), n + 1, rest);
  }

  /** Finding its preimage, a patch goes on to write; finding its image, to mark. */
  lemma CompareFinds(hash: Text -> Text, files0: Files, plan: seq<Item>, expected: seq<Row>, d: Disk, i: nat)
    requires Tells(hash) && IsExpected(hash, files0, plan, expected) && i < |expected|
    requires d.history == Unmarked(expected, i + 1) && SameView(d.files, AfterRows(files0, expected[..i])) && Fated(d).Lives?
    ensures CompareRun(hash, d, i, expected[i].path, expected[i].(applied := false))
         == MarkRun(if expected[i].pre == expected[i].post then d else Spend(d).(files := Written(d.files, expected[i])), i, Hashed(expected[i]))
  {
    OffersExpected(hash, files0, plan, expected, d.files, i);
    HashTells(hash, expected[i].pre, expected[i].post);
  }

  /** A patch whose statements all live, on a clean disk. */
  lemma PatchLives(hash: Text -> Text, files0: Files, plan: seq<Item>, expected: seq<Row>, d: Disk, i: nat, rest: seq<Fate>)
    requires Tells(hash) && IsExpected(hash, files0, plan, expected) && i < |expected|
    requires d.history == expected[..i] && SameView(d.files, AfterRows(files0, expected[..i]))
    requires d.fates == Survive(Statements(expected[i]), rest)
    ensures PatchRun(hash, d, i, expected[i].path, plan[i])
         == (Done(Hashed(expected[i])), Disk(Written(d.files, expected[i]), expected[..i + 1], d.artifacts, rest))
    ensures SameView(Written(d.files, expected[i]), AfterRows(files0, expected[..i + 1]))
  {
    var n := Statements(expected[i]) - 2;
    OffersExpected(hash, files0, plan, expected, d.files, i);
    ViewAfterWrite(files0, expected, d.files, i);
    StoreLives(hash, files0, plan, expected, d, i, n, rest);
    var compared := Disk(d.files, Unmarked(expected, i + 1), d.artifacts, Survive(n, rest));
    SpendSurvive(compared, n, rest);
    CompareFinds(hash, files0, plan, expected, compared, i);
    var written := Disk(Written(d.files, expected[i]), Unmarked(expected, i + 1), d.artifacts, Survive(1, rest));
    SpendSurvive(written, 1, rest);
    MarkingUnmarked(expected, i);
  }

  lemma MarkingUnmarked(expected: seq<Row>, i: nat)
    requires i < |expected| && expected[i].applied
    ensures Unmarked(expected, i + 1)[i := Unmarked(expected, i + 1)[i].(applied := true)] == expected[..i + 1]
  {}

  /** A patch that dies, or throws, between its write and its mark. */
  lemma PatchStopsUnmarked(hash: Text -> Text, files0: Files, plan: seq<Item>, expected: seq<Row>, d: Disk, i: nat, fate: Fate)
    requires Tells(hash) && IsExpected(hash, files0, plan, expected) && i < |expected| && expected[i].pre != expected[i].post
    requires d.history == expected[..i] && SameView(d.files, AfterRows(files0, expected[..i]))
    requires d.fates == Survive(3, [fate]) && !fate.Lives?
    ensures PatchRun(hash, d, i, expected[i].path, plan[i])
         == (Stop(fate, i), Disk(Written(d.files, expected[i]), Unmarked(expected, i + 1), d.artifacts, []))
    ensures SameView(Written(d.files, expected[i]), AfterRows(files0, expected[..i + 1]))
  {
    OffersExpected(hash, files0, plan, expected, d.files, i);
    ViewAfterWrite(files0, expected, d.files, i);
    StoreLives(hash, files0, plan, expected, d, i, 1, [fate]);
    var compared := Disk(d.files, Unmarked(expected, i + 1), d.artifacts, Survive(1, [fate]));
    SpendSurvive(compared, 1, [fate]);
    CompareFinds(hash, files0, plan, expected, compared, i);
  }

  /** The disk after a round whose statements all live, but for the fates. */
  function NextDisk(ctx: Context, expected: seq<Row>, d: Disk, i: nat, rest: seq<Fate>): Disk
    requires i < |expected|
  {
    Disk(Written(d.files, expected[i]), expected[..i + 1],
         ArtifactStore.Put(d.artifacts, PatchKey(ctx, i), ctx.entry(i, expected[i].path, Hashed(expected[i]))), rest)
  }

  lemma RoundLives(ctx: Context, files0: Files, plan: seq<Item>, expected: seq<Row>, d: Disk, i: nat, rest: seq<Fate>)
    requires Tells(TextHash(ctx.sha)) && IsExpected(TextHash(ctx.sha), files0, plan, expected)
    requires i < |expected| && Clean(ctx, files0, expected, d, i) && d.fates == Survive(Statements(expected[i]), [Lives] + rest)
    ensures RoundRun(ctx, d, plan, i) == (Done(()), NextDisk(ctx, expected, d, i, rest))
    ensures Clean(ctx, files0, expected, NextDisk(ctx, expected, d, i, rest), i + 1)
  {
    OffersExpected(TextHash(ctx.sha), files0, plan, expected, d.files, i);
    PatchLives(TextHash(ctx.sha), files0, plan, expected, d, i, [Lives] + rest);
    var patched := Disk(Written(d.files, expected[i]), expected[..i + 1], d.artifacts, [Lives] + rest);
    assert Fated(patched) == Lives && Spend(patched) == patched.(fates := rest);
    ArtifactRunKeeps(ctx, expected, patched, i, ctx.entry(i, expected[i].path, Hashed(expected[i])));
  }

  lemma RoundDies(ctx: Context, files0: Files, plan: seq<Item>, expected: seq<Row>, d: Disk, i: nat, marked: bool) returns (d': Disk)
    requires Tells(TextHash(ctx.sha)) && IsExpected(TextHash(ctx.sha), files0, plan, expected)
    requires i < |expected| && Clean(ctx, files0, expected, d, i) && (!marked ==> expected[i].pre != expected[i].post)
    requires d.fates == if marked then Survive(Statements(expected[i]), [Dies]) else Survive(3, [Dies])
    ensures RoundRun(ctx, d, plan, i) == (Crashed, d') && DeadAfter(ctx, files0, expected, d', i, marked)
  {
    OffersExpected(TextHash(ctx.sha), files0, plan, expected, d.files, i);
    if marked {
      PatchLives(TextHash(ctx.sha), files0, plan, expected, d, i, [Dies]);
      d' := Disk(Written(d.files, expected[i]), expected[..i + 1], d.artifacts, []);
    } else {
      PatchStopsUnmarked(TextHash(ctx.sha), files0, plan, expected, d, i, Dies);
      d' := Disk(Written(d.files, expected[i]), Unmarked(expected, i + 1), d.artifacts, []);
    }
  }

  /** Dead right after patch `i` wrote, marked or not; no fates left. */
  ghost predicate DeadAfter(ctx: Context, files0: Files, expected: seq<Row>, d: Disk, i: nat, marked: bool)
    requires i < |expected|
  {
    && d.history == (if marked then expected[..i + 1] else Unmarked(expected, i + 1))
    && SameView(d.files, AfterRows(files0, expected[..i + 1])) && ArtifactsMatch(ctx, expected, d.artifacts) && d.fates == []
  }

  /** From a clean disk before patch `i`, some fates make the run die right after patch `j` wrote. */
  lemma {:induction false} FatesToDie(ctx: Context, files0: Files, plan: seq<Item>, expected: seq<Row>, d: Disk, i: nat, j: nat, marked: bool)
    returns (fates: seq<Fate>, d': Disk)
    requires Tells(TextHash(ctx.sha)) && IsExpected(TextHash(ctx.sha), files0, plan, expected)
    requires i <= j < |expected| && Clean(ctx, files0, expected, d, i) && (!marked ==> expected[j].pre != expected[j].post)
    ensures LoopRun(ctx, d.(fates := fates), plan, i) == (Crashed, d') && DeadAfter(ctx, files0, expected, d', j, marked)
    ensures NoThrows(fates)
    decreases j - i
  {
    assert |expected| <= |plan|;
    if i == j {
      fates := if marked then Survive(Statements(expected[i]), [Dies]) else Survive(3, [Dies]);
      SurviveKeeps(if marked then Statements(expected[i]) else 3, [Dies]);
      d' := RoundDies(ctx, files0, plan, expected, d.(fates := fates), i, marked);
    } else {
      var next := NextDisk(ctx, expected, d, i, []);
      var lives := Survive(Statements(expected[i]), [Lives] + []);
      RoundLives(ctx, files0, plan, expected, d.(fates := lives), i, []);
      var rest;
      rest, d' := FatesToDie(ctx, files0, plan, expected, next, i + 1, j, marked);
      fates := Survive(Statements(expected[i]), [Lives] + rest);
      SurviveKeeps(Statements(expected[i]), [Lives] + rest);
      RoundLives(ctx, files0, plan, expected, d.(fates := fates), i, rest);
      assert NextDisk(ctx, expected, d, i, rest) == next.(fates := rest);
    }
  }

  lemma StartIsClean(ctx: Context, files: Files, expected: seq<Row>, fates: seq<Fate>)
    ensures Clean(ctx, files, expected, Start(files, fates), 0)
  {
    assert expected[..0] == [];
  }

  // ----- plans that do not settle -----

  predicate Unsettles(rows: seq<Row>, i: nat, j: nat) {
    && i <= j < |rows| && FirstOnPath(rows, i) && rows[i].path == rows[j].path
    && rows[j].post != rows[i].pre && rows[j].post != rows[i].post
  }

  lemma UnsettlesBelow(rows: seq<Row>, n: nat, i: nat, j: nat)
    requires j < n <= |rows|
    ensures Unsettles(rows[..n], i, j) <==> Unsettles(rows, i, j)
  {
    var below := rows[..n];
    assert forall k :: 0 <= k < n ==> below[k] == rows[k];
    if i <= j { assert FirstOnPath(below, i) <==> FirstOnPath(rows, i); }
  }

  lemma SomeUnsettling(rows: seq<Row>) returns (i: nat, j: nat)
    requires !Settles(rows)
    ensures Unsettles(rows, i, j)
  {
    i, j :| 0 <= i <= j < |rows| && FirstOnPath(rows, i) && rows[i].path == rows[j].path
            && rows[j].post != rows[i].pre && rows[j].post != rows[i].post;
  }

  /** The first write that unsettles a plan. */
  lemma {:induction false} FirstUnsettling(rows: seq<Row>) returns (i: nat, j: nat)
    requires !Settles(rows)
    ensures Unsettles(rows, i, j) && Settles(rows[..j])
  {
    i, j := SomeUnsettling(rows);
    if !Settles(rows[..j]) {
      var k, l := FirstUnsettling(rows[..j]);
      UnsettlesBelow(rows, j, k, l);
      assert rows[..j][..l] == rows[..l];
      i, j := k, l;
    }
  }

  /** Below the first unsettling write, a path's rows have only the two images of its first patch. */
  lemma SettledImages(hash: Text -> Text, files0: Files, plan: seq<Item>, rows: seq<Row>, i: nat, j: nat, l: nat)
    requires IsExpected(hash, files0, plan, rows) && Unsettles(rows, i, j) && Settles(rows[..j])
    requires l < j && rows[l].path == rows[j].path
    ensures i <= l
    ensures rows[l].post == rows[i].pre || rows[l].post == rows[i].post
    ensures rows[l].pre == rows[i].pre || rows[l].pre == rows[i].post
  {
    var below := rows[..j];
    assert below[l] == rows[l] && below[i] == rows[i];
    assert FirstOnPath(below, i);
    assert IsExpectedAt(hash, files0, plan, rows, i) && IsExpectedAt(hash, files0, plan, rows, l);
    NotWritten(files0, rows[..i], rows[i].path);
    PrefixContent(files0, rows, i, l);
    if m :| i <= m < l && rows[m].path == rows[i].path && rows[m].post == rows[l].pre {
      assert below[m] == rows[m];
    }
  }

  /** The unsettling write changes its file. */
  lemma UnsettlingWrites(hash: Text -> Text, files0: Files, plan: seq<Item>, rows: seq<Row>, i: nat, j: nat)
    requires IsExpected(hash, files0, plan, rows) && Unsettles(rows, i, j) && Settles(rows[..j])
    ensures i < j && rows[j].pre != rows[j].post
  {
    assert IsExpectedAt(hash, files0, plan, rows, j) && IsExpectedAt(hash, files0, plan, rows, i);
    NotWritten(files0, rows[..i], rows[i].path);
    PrefixContent(files0, rows, i, j);
    if m :| i <= m < j && rows[m].path == rows[i].path && rows[m].post == rows[j].pre {
      SettledImages(hash, files0, plan, rows, i, j, m);
    }
  }

  lemma LatestOf(history: seq<Row>, path: Text) returns (l: nat)
    requires LatestLive(history, path).Some?
    ensures LatestLive(history, path) == Some(l) && l < |history| && history[l].path == path
  {
    l := LatestLive(history, path).value;
  }

  /** A re-run that starts right after the unsettling write, unmarked, stops with a mismatch and leaves
      that file with an image none of its live patches has. */
  lemma MismatchIsNotReady(hash: Text -> Text, files0: Files, plan: seq<Item>, rows: seq<Row>, i: nat, j: nat, d1: Disk, k: nat, d2: Disk)
    requires IsExpected(hash, files0, plan, rows) && Unsettles(rows, i, j) && Settles(rows[..j])
    requires d1.history == Unmarked(rows, j + 1) && SameView(d1.files, AfterRows(files0, rows[..j + 1]))
    requires LoopAt(files0, rows, d1.files, d1.history, k, d2.files, d2.history) && k <= i
    ensures !Ready(files0, d2.files, d2.history)
  {
    var path := rows[i].path;
    AfterRowsStep(files0, rows, j);
    assert IsUntouched(rows, k, path);
    assert Read(d2.files, path) == rows[j].post;
    UnsettlingWrites(hash, files0, plan, rows, i, j);
    assert |d2.history| == j + 1 && d2.history[j] == d1.history[j];
    var m := LatestLive(d2.history, path);
    if m.Some? {
      var l := LatestOf(d2.history, path);
      assert SameRecord(d2.history[l], rows[l]);
      assert l != j;
      SettledImages(hash, files0, plan, rows, i, j, l);
    } else {
      assert d2.history[i] == d1.history[i] == rows[i];
      AllApplied(hash, files0, plan, rows);
    }
    assert !ReadyAt(files0, d2.files, d2.history, path);
  }

  /** A plan that does not settle: there are deaths, and nothing but deaths, after which the next run
      stops with PREIMAGE_MISMATCH in a state rollback cannot restore. */
  lemma UnsettledRerunFails(ctx: Context, files: Files, plan: seq<Item>) returns (fates: seq<Fate>, dead: Disk, index: nat)
    requires Injective(ctx.sha) && !Settles(Expected(ctx, files, plan))
    ensures NoThrows(fates) && LoopRun(ctx, Start(files, fates), plan, 0) == (Crashed, dead) && dead.fates == []
    ensures LoopRun(ctx, dead, plan, 0).0 == Failed(PreimageMismatch(index))
    ensures !Ready(files, LoopRun(ctx, dead, plan, 0).1.files, LoopRun(ctx, dead, plan, 0).1.history)
  {
    var hash, rows := TextHash(ctx.sha), Expected(ctx, files, plan);
    StartApplies(ctx, files, plan, []);
    StartIsClean(ctx, files, rows, []);
    var i, j := FirstUnsettling(rows);
    UnsettlingWrites(hash, files, plan, rows, i, j);
    fates, dead := FatesToDie(ctx, files, plan, rows, Start(files, []), 0, j, false);
    WholeRunKeeps(ctx, files, plan, rows, Start(files, fates));
    WholeRunKeeps(ctx, files, plan, rows, dead);
    var (o, end) := LoopRun(ctx, dead, plan, 0);
    StuckAfterUnsettling(files, rows, i, j, dead);
    index := MismatchAt(ctx, files, plan, rows, dead, o, end, i);
    MismatchIsNotReady(hash, files, plan, rows, i, j, dead, index, end);
  }

  lemma StuckAfterUnsettling(files0: Files, rows: seq<Row>, i: nat, j: nat, d: Disk)
    requires Unsettles(rows, i, j) && d.history == Unmarked(rows, j + 1) && SameView(d.files, AfterRows(files0, rows[..j + 1]))
    ensures i < |d.history| && StuckAt(d.files, d.history, i)
  {
    AfterRowsStep(files0, rows, j);
    assert forall k :: 0 <= k <= j ==> d.history[k].path == rows[k].path && d.history[k].pre == rows[k].pre && d.history[k].post == rows[k].post;
  }

  /** An undisturbed run that begins stuck at patch `i` stops with a mismatch, no later than there. */
  lemma MismatchAt(ctx: Context, files0: Files, plan: seq<Item>, rows: seq<Row>, d: Disk, o: Outcome<()>, end: Disk, i: nat) returns (k: nat)
    requires RunPost(ctx, files0, plan, rows, d, o, end) && !o.Crashed? && NoThrows(d.fates)
    requires i < |d.history| && StuckAt(d.files, d.history, i)
    ensures k <= i && o == Failed(PreimageMismatch(k)) && LoopAt(files0, rows, d.files, d.history, k, end.files, end.history)
  {
    assert Stuck(d.files, d.history);
    k := o.fault.index;
  }

  /** Under every list of deaths every file is restored exactly for the plans that settle. */
  lemma RestoredExactly(ctx: Context, files: Files, plan: seq<Item>)
    requires Injective(ctx.sha)
    ensures (forall fates :: NoThrows(fates) ==> Restored(files, ApplyThenUndo(ctx, files, plan, fates))) <==> Settles(Expected(ctx, files, plan))
  {
    if Settles(Expected(ctx, files, plan)) {
      forall fates | NoThrows(fates) ensures Restored(files, ApplyThenUndo(ctx, files, plan, fates)) {
        SettledIsRestored(ctx, files, plan, fates);
      }
    } else {
      var fates, dead, index := UnsettledRerunFails(ctx, files, plan);
      TwoRuns(ctx, Start(files, fates), plan, dead);
      RestoredWhenReadyExactly(ctx, files, plan, fates);
    }
  }

  lemma TwoRuns(ctx: Context, d: Disk, plan: seq<Item>, dead: Disk)
    requires LoopRun(ctx, d, plan, 0) == (Crashed, dead) && !LoopRun(ctx, dead, plan, 0).0.Crashed?
    ensures ApplyRuns(ctx, d, plan) == LoopRun(ctx, dead, plan, 0)
  {}

  // ----- a first run that throws -----

  lemma ReadyView(files0: Files, a: Files, b: Files, history: seq<Row>)
    requires SameView(a, b)
    ensures Ready(files0, a, history) <==> Ready(files0, b, history)
  {
    assert forall p :: ReadyAt(files0, a, history, p) <==> ReadyAt(files0, b, history, p);
  }

  /** Stopped before the write of patch `n`, its row stored or not, the files are ready. */
  lemma UnwrittenIsReady(hash: Text -> Text, files0: Files, plan: seq<Item>, rows: seq<Row>, n: nat)
    requires IsExpected(hash, files0, plan, rows) && n <= |rows|
    ensures Ready(files0, AfterRows(files0, rows[..n]), rows[..n])
    ensures n < |rows| ==> Ready(files0, AfterRows(files0, rows[..n]), rows[..n] + [rows[n].(applied := false)])
  {
    forall path
      ensures ReadyAt(files0, AfterRows(files0, rows[..n]), rows[..n], path)
      ensures n < |rows| ==> ReadyAt(files0, AfterRows(files0, rows[..n]), rows[..n] + [rows[n].(applied := false)], path)
    {
      PrefixLeaves(hash, files0, plan, rows, n, path);
      if n < |rows| {
        var stored := rows[..n] + [rows[n].(applied := false)];
        assert stored[..n] == rows[..n];
        LatestLiveSkipsDead(stored, path, n);
      }
    }
  }

  /** Patch `k` wrote its file and was not marked. */
  predicate WroteUnmarked(rows: seq<Row>, d: Disk, k: nat)
    requires k < |rows|
  {
    d.history == Unmarked(rows, k + 1) && rows[k].pre != rows[k].post && Read(d.files, rows[k].path) == rows[k].post
  }

  /** Where a first run can be when a statement of patch `k` throws. */
  ghost predicate CutOff(files0: Files, rows: seq<Row>, d: Disk, k: nat) {
    k < |rows| &&
    if WroteUnmarked(rows, d, k) then SameView(d.files, AfterRows(files0, rows[..k + 1]))
    else
      || (SameView(d.files, AfterRows(files0, rows[..k])) && (d.history == rows[..k] || d.history == Unmarked(rows, k + 1)))
      || (SameView(d.files, AfterRows(files0, rows[..k + 1])) && d.history == rows[..k + 1])
  }

  lemma PatchFromClean(hash: Text -> Text, files0: Files, plan: seq<Item>, rows: seq<Row>, d: Disk, i: nat)
    requires Tells(hash) && IsExpected(hash, files0, plan, rows) && i < |rows|
    requires d.history == rows[..i] && SameView(d.files, AfterRows(files0, rows[..i]))
    ensures
      var (o, d') := PatchRun(hash, d, i, rows[i].path, plan[i]);
      && d'.artifacts == d.artifacts
      && match o
         case Done(hashes) => hashes == Hashed(rows[i]) && d'.history == rows[..i + 1] && SameView(d'.files, AfterRows(files0, rows[..i + 1]))
         case Crashed => true
         case Failed(fault) => fault == StatementThrew(i) && CutOff(files0, rows, d', i)
  {
    OffersExpected(hash, files0, plan, rows, d.files, i);
    PatchRunSteps(hash, d, i, rows[i].path, plan[i]);
    var (o, d') := PatchRun(hash, d, i, rows[i].path, plan[i]);
    var row := rows[i].(applied := false);
    assert RowFor(hash, d.files, d.history, i, rows[i].path, plan[i]) == row;
    StepFromClean(files0, rows, d, i, hash(plan[i].diffText), o, d');
  }

  lemma StepFromClean(files0: Files, rows: seq<Row>, d: Disk, i: nat, diffHash: Text, o: Outcome<Hashes>, d': Disk)
    requires i < |rows| && d.history == rows[..i] && SameView(d.files, AfterRows(files0, rows[..i])) && IsLive(rows[i])
    requires Read(d.files, rows[i].path) == rows[i].pre
    requires PatchStep(rows[i].(applied := false), diffHash, i, rows[i].pre, d.files, d.history, o, d'.files, d'.history, rows[i].path)
    ensures o.Done? ==> d'.history == rows[..i + 1] && SameView(d'.files, AfterRows(files0, rows[..i + 1]))
    ensures o.Done? ==> o.value == Hashes(rows[i].preHash, rows[i].postHash, diffHash)
    ensures o.Failed? ==> o.fault == StatementThrew(i) && CutOff(files0, rows, d', i)
  {
    ViewAfterWrite(files0, rows, d.files, i);
    assert Put(rows[..i], i, rows[i].(applied := false)) == Unmarked(rows, i + 1) && Put(rows[..i], i, rows[i]) == rows[..i + 1];
  }

  lemma RoundFromClean(ctx: Context, files0: Files, plan: seq<Item>, rows: seq<Row>, d: Disk, i: nat)
    requires Tells(TextHash(ctx.sha)) && IsExpected(TextHash(ctx.sha), files0, plan, rows)
    requires i < |plan| && Clean(ctx, files0, rows, d, i)
    ensures
      var (o, d') := RoundRun(ctx, d, plan, i);
      match o
      case Done(_) => Clean(ctx, files0, rows, d', i + 1)
      case Failed(StatementThrew(k)) => k == i && CutOff(files0, rows, d', i)
      case _ => true
  {
    if plan[i].target.Some? {
      var hash, path := TextHash(ctx.sha), plan[i].target.value;
      assert i < |rows|;
      assert IsExpectedAt(hash, files0, plan, rows, i);
      PatchFromClean(hash, files0, plan, rows, d, i);
      var (patched, d') := PatchRun(hash, d, i, path, plan[i]);
      if patched.Done? { ArtifactRunKeeps(ctx, rows, d', i, ctx.entry(i, path, patched.value)); }
    }
  }

  lemma {:induction false} FirstRunCutOff(ctx: Context, files0: Files, plan: seq<Item>, rows: seq<Row>, d: Disk, i: nat)
    requires Tells(TextHash(ctx.sha)) && IsExpected(TextHash(ctx.sha), files0, plan, rows)
    requires i <= |plan| && Clean(ctx, files0, rows, d, i)
    ensures
      var (o, d') := LoopRun(ctx, d, plan, i);
      o.Failed? && o.fault.StatementThrew? ==> CutOff(files0, rows, d', o.fault.index)
    decreases |plan| - i
  {
    if i < |plan| {
      RoundFromClean(ctx, files0, plan, rows, d, i);
      var (round, d') := RoundRun(ctx, d, plan, i);
      if round.Done? { FirstRunCutOff(ctx, files0, plan, rows, d', i + 1); }
    }
  }

  lemma CutOffReadyExactly(hash: Text -> Text, files0: Files, plan: seq<Item>, rows: seq<Row>, d: Disk, k: nat)
    requires IsExpected(hash, files0, plan, rows) && CutOff(files0, rows, d, k)
    ensures Ready(files0, d.files, d.history) <==> (WroteUnmarked(rows, d, k) ==> BringsBack(rows[k], d.history))
  {
    if WroteUnmarked(rows, d, k) {
      UnmarkedWriteIsReadyExactly(hash, files0, plan, rows, k + 1);
      ReadyView(files0, d.files, AfterRows(files0, rows[..k + 1]), d.history);
    } else if SameView(d.files, AfterRows(files0, rows[..k])) && (d.history == rows[..k] || d.history == Unmarked(rows, k + 1)) {
      UnwrittenIsReady(hash, files0, plan, rows, k);
      ReadyView(files0, d.files, AfterRows(files0, rows[..k]), d.history);
    } else {
      UnwrittenIsReady(hash, files0, plan, rows, k + 1);
      ReadyView(files0, d.files, AfterRows(files0, rows[..k + 1]), d.history);
    }
  }

  /** The patch's image is the preimage of the last live patch before it on its path. */
  predicate BringsBack(row: Row, history: seq<Row>) {
    LatestLive(history, row.path).Some? && row.post == history[LatestLive(history, row.path).value].pre
  }

  /** A first run in which a statement of patch `k` throws, the file write included, and which is then
      rolled back: every file is restored, except where the throw fell between the write and its mark
      and the write did not bring back what the last live patch on the path replaced. */
  lemma ThrowInFirstRunExactly(ctx: Context, files: Files, plan: seq<Item>, fates: seq<Fate>, k: nat)
    requires Injective(ctx.sha) && LoopRun(ctx, Start(files, fates), plan, 0).0 == Failed(StatementThrew(k))
    ensures
      var rows, thrown := Expected(ctx, files, plan), LoopRun(ctx, Start(files, fates), plan, 0).1;
      && k < |rows|
      && (Restored(files, ApplyThenUndo(ctx, files, plan, fates)) <==>
          (WroteUnmarked(rows, thrown, k) ==> BringsBack(rows[k], thrown.history)))
  {
    var rows, thrown := Expected(ctx, files, plan), LoopRun(ctx, Start(files, fates), plan, 0).1;
    StartApplies(ctx, files, plan, fates);
    StartIsClean(ctx, files, rows, fates);
    FirstRunCutOff(ctx, files, plan, rows, Start(files, fates), 0);
    CutOffReadyExactly(TextHash(ctx.sha), files, plan, rows, thrown, k);
    RestoredWhenReadyExactly(ctx, files, plan, fates);
  }

  // ----- ready before the re-run, and not after it -----

  /** Q: "" to A, P: "" to B, P: B to C, Q: A to D, Q: D to "". */
  function ThereAndBack(p: Text, q: Text, a: Text, b: Text, c: Text, d: Text): seq<Item> {
    [Item(Some(q), a, []), Item(Some(p), b, []), Item(Some(p), c, []), Item(Some(q), d, []), Item(Some(q), [], [])]
  }

  lemma ThereAndBackRows(ctx: Context, p: Text, q: Text, a: Unicode, b: Unicode, c: Unicode, d: Unicode)
    requires Injective(ctx.sha)
    ensures
      var rows := Expected(ctx, map[], ThereAndBack(p, q, a, b, c, d));
      && |rows| == 5
      && rows[0].path == rows[3].path == rows[4].path == q && rows[1].path == rows[2].path == p
      && rows[0].post == a && rows[1].post == b && rows[2].post == c && rows[3].post == d && rows[4].post == []
  {
    var plan := ThereAndBack(p, q, a, b, c, d);
    StartApplies(ctx, map[], plan, []);
    var hash, rows := TextHash(ctx.sha), Expected(ctx, map[], plan);
    forall k | 0 <= k < 5
      ensures rows[k].path == plan[k].target.value && rows[k].post == plan[k].postimage
    {
      assert IsExpectedAt(hash, map[], plan, rows, k);
      UnicodeStays(plan[k].postimage);
    }
  }

  lemma ThereAndBackPreimages(ctx: Context, p: Text, q: Text, a: Unicode, b: Unicode, c: Unicode, d: Unicode)
    requires Injective(ctx.sha) && p != q
    ensures
      var rows := Expected(ctx, map[], ThereAndBack(p, q, a, b, c, d));
      |rows| == 5 && rows[0].pre == [] && rows[1].pre == [] && rows[4].pre == d
  {
    var plan := ThereAndBack(p, q, a, b, c, d);
    StartApplies(ctx, map[], plan, []);
    ThereAndBackRows(ctx, p, q, a, b, c, d);
    var hash, rows := TextHash(ctx.sha), Expected(ctx, map[], plan);
    assert IsExpectedAt(hash, map[], plan, rows, 0) && IsExpectedAt(hash, map[], plan, rows, 1) && IsExpectedAt(hash, map[], plan, rows, 4);
    assert rows[..0] == [];
    AfterRowsStep(map[], rows, 0);
    AfterRowsStep(map[], rows, 3);
  }

  /** Readiness is not enough to run again: this plan, all written and marked, dies before its last
      artifact with the files ready to be rolled back; the next run writes A to Q, stops at patch 1 with
      PREIMAGE_MISMATCH, and leaves Q with an image its last live patch does not have. */
  lemma RerunLosesReadiness(ctx: Context, p: Text, q: Text, a: Unicode, b: Unicode, c: Unicode, d: Unicode)
    returns (fates: seq<Fate>, dead: Disk)
    requires Injective(ctx.sha) && p != q && a != d && a != [] && c != b && c != []
    ensures
      var plan := ThereAndBack(p, q, a, b, c, d);
      var (o, end) := LoopRun(ctx, dead, plan, 0);
      && NoThrows(fates) && LoopRun(ctx, Start(map[], fates), plan, 0) == (Crashed, dead)
      && Ready(map[], dead.files, dead.history)
      && o == Failed(PreimageMismatch(1)) && !Ready(map[], end.files, end.history)
      && !Restored(map[], ApplyThenUndo(ctx, map[], plan, fates))
  {
    var plan := ThereAndBack(p, q, a, b, c, d);
    fates, dead := ThereAndBackDies(ctx, p, q, a, b, c, d);
    var (o, end) := LoopRun(ctx, dead, plan, 0);
    ThereAndBackSticks(ctx, p, q, a, b, c, d, dead, o, end);
    TwoRuns(ctx, Start(map[], fates), plan, dead);
    RestoredWhenReadyExactly(ctx, map[], plan, fates);
  }

  lemma ThereAndBackDies(ctx: Context, p: Text, q: Text, a: Unicode, b: Unicode, c: Unicode, d: Unicode)
    returns (fates: seq<Fate>, dead: Disk)
    requires Injective(ctx.sha)
    ensures
      var plan := ThereAndBack(p, q, a, b, c, d);
      var rows, (o, end) := Expected(ctx, map[], plan), LoopRun(ctx, dead, plan, 0);
      && NoThrows(fates) && LoopRun(ctx, Start(map[], fates), plan, 0) == (Crashed, dead)
      && Ready(map[], dead.files, dead.history)
      && |rows| == 5 && dead.history == rows && SameView(dead.files, AfterRows(map[], rows)) && dead.fates == []
      && RunPost(ctx, map[], plan, rows, dead, o, end) && !o.Crashed?
  {
    var plan := ThereAndBack(p, q, a, b, c, d);
    var hash, rows := TextHash(ctx.sha), Expected(ctx, map[], plan);
    StartApplies(ctx, map[], plan, []);
    StartIsClean(ctx, map[], rows, []);
    ThereAndBackRows(ctx, p, q, a, b, c, d);
    fates, dead := FatesToDie(ctx, map[], plan, rows, Start(map[], []), 0, 4, true);
    assert rows[..5] == rows;
    UnwrittenIsReady(hash, map[], plan, rows, 5);
    ReadyView(map[], dead.files, AfterRows(map[], rows), dead.history);
    WholeRunKeeps(ctx, map[], plan, rows, Start(map[], fates));
    WholeRunKeeps(ctx, map[], plan, rows, dead);
  }

  lemma ThereAndBackSticks(ctx: Context, p: Text, q: Text, a: Unicode, b: Unicode, c: Unicode, d: Unicode, dead: Disk, o: Outcome<()>, end: Disk)
    requires Injective(ctx.sha) && p != q && a != d && a != [] && c != b && c != []
    requires
      var plan := ThereAndBack(p, q, a, b, c, d);
      var rows := Expected(ctx, map[], plan);
      && |rows| == 5 && dead.history == rows && SameView(dead.files, AfterRows(map[], rows)) && dead.fates == []
      && RunPost(ctx, map[], plan, rows, dead, o, end) && !o.Crashed?
    ensures o == Failed(PreimageMismatch(1)) && !Ready(map[], end.files, end.history)
  {
    var plan := ThereAndBack(p, q, a, b, c, d);
    var rows := Expected(ctx, map[], plan);
    ThereAndBackRows(ctx, p, q, a, b, c, d);
    ThereAndBackPreimages(ctx, p, q, a, b, c, d);
    ThereAndBackDead(rows, p, q, dead);
    var k := MismatchAt(ctx, map[], plan, rows, dead, o, end, 1);
    assert k == 1;
    assert rows[..0] == [];
    AfterRowsStep(map[], rows, 0);
    assert ReachedAt(map[], rows, 1, end.files, 0);
    assert Read(end.files, q) == a && end.history[4] == rows[4];
    StartApplies(ctx, map[], plan, []);
    AllApplied(TextHash(ctx.sha), map[], plan, rows);
    LatestLiveIs(end.history, q, 4);
    assert !ReadyAt(map[], end.files, end.history, q);
  }

  /** Q is back at what patch 0 replaced, P is past what patch 1 wrote. */
  lemma ThereAndBackDead(rows: seq<Row>, p: Text, q: Text, dead: Disk)
    requires |rows| == 5 && p != q && dead.history == rows && SameView(dead.files, AfterRows(map[], rows))
    requires rows[0].path == rows[3].path == rows[4].path == q && rows[1].path == rows[2].path == p
    requires rows[0].pre == [] == rows[1].pre == rows[4].post && rows[2].post != rows[1].post && rows[2].post != []
    ensures StuckAt(dead.files, dead.history, 1) && !StuckAt(dead.files, dead.history, 0)
  {
    LastWrite(map[], rows, 4);
    LastWrite(map[], rows, 2);
  }
}
