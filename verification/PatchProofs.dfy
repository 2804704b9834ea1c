/** How one patch moves the apply phase forward, and how one rollback undoes it. */
module PatchProofs {
  import opened JsText
  import opened Utf8
  import opened JsonValues
  import opened PatchModel

  // ----- the expected rows -----

  lemma FreshRowHashes(hash: Text -> Text, files: Files, path: Text, item: Item)
    requires Tells(hash)
    ensures
      var row := FreshRow(hash, files, path, item);
      row.preHash == hash(row.pre) && row.postHash == hash(row.post)
  {}

  lemma {:induction false} ExpectedPrefix(hash: Text -> Text, files0: Files, plan: seq<Item>, n: nat, m: nat)
    requires m <= n <= AllowedPrefix(plan)
    ensures ExpectedRows(hash, files0, plan, n)[..m] == ExpectedRows(hash, files0, plan, m)
  {
    if m < n {
      ExpectedPrefix(hash, files0, plan, n - 1, m);
      assert ExpectedRows(hash, files0, plan, n)[..n - 1] == ExpectedRows(hash, files0, plan, n - 1);
      assert ExpectedRows(hash, files0, plan, n)[..m] == ExpectedRows(hash, files0, plan, n - 1)[..m];
    }
  }

  lemma ExpectedAt(hash: Text -> Text, files0: Files, plan: seq<Item>, n: nat, i: nat)
    requires i < n <= AllowedPrefix(plan)
    ensures
      var rows := ExpectedRows(hash, files0, plan, n);
      rows[i] == FreshRow(hash, AfterRows(files0, rows[..i]), plan[i].target.value, plan[i]).(applied := true)
  {
    ExpectedPrefix(hash, files0, plan, n, i);
    ExpectedPrefix(hash, files0, plan, n, i + 1);
    var rows := ExpectedRows(hash, files0, plan, n);
    assert rows[i] == rows[..i + 1][i] == ExpectedRows(hash, files0, plan, i + 1)[i];
  }

  /** The rows are those of a plan started on `files0`. */
  ghost predicate IsExpected(hash: Text -> Text, files0: Files, plan: seq<Item>, rows: seq<Row>) {
    && |rows| == AllowedPrefix(plan)
    && forall i {:trigger IsExpectedAt(hash, files0, plan, rows, i)} :: 0 <= i < |rows| ==> IsExpectedAt(hash, files0, plan, rows, i)
  }

  predicate IsExpectedAt(hash: Text -> Text, files0: Files, plan: seq<Item>, rows: seq<Row>, i: nat)
    requires i < |rows| <= AllowedPrefix(plan)
  {
    rows[i] == FreshRow(hash, AfterRows(files0, rows[..i]), plan[i].target.value, plan[i]).(applied := true)
  }

  lemma ExpectedIsExpected(hash: Text -> Text, files0: Files, plan: seq<Item>)
    ensures IsExpected(hash, files0, plan, ExpectedRows(hash, files0, plan, AllowedPrefix(plan)))
  {
    forall i | 0 <= i < AllowedPrefix(plan)
      ensures IsExpectedAt(hash, files0, plan, ExpectedRows(hash, files0, plan, AllowedPrefix(plan)), i)
    {
      ExpectedAt(hash, files0, plan, AllowedPrefix(plan), i);
    }
  }

  // ----- what rows leave on a path -----

  lemma AfterRowsStep(files0: Files, rows: seq<Row>, i: nat)
    requires i < |rows|
    ensures AfterRows(files0, rows[..i + 1]) == AfterRows(files0, rows[..i])[rows[i].path := rows[i].post]
  {
    assert rows[..i + 1][..i] == rows[..i];
  }

  lemma {:induction false} NotWritten(files0: Files, rows: seq<Row>, path: Text)
    requires forall i :: 0 <= i < |rows| ==> rows[i].path != path
    ensures Read(AfterRows(files0, rows), path) == Read(files0, path)
  {
    if rows != [] { NotWritten(files0, rows[..|rows| - 1], path); }
  }

  lemma {:induction false} LastWrite(files0: Files, rows: seq<Row>, i: nat)
    requires i < |rows| && forall j :: i < j < |rows| ==> rows[j].path != rows[i].path
    ensures Read(AfterRows(files0, rows), rows[i].path) == rows[i].post
  {
    if i < |rows| - 1 { LastWrite(files0, rows[..|rows| - 1], i); }
  }

  /** A path none of whose patches has run is as it was. */
  lemma UnreachedIsOriginal(files0: Files, expected: seq<Row>, files: Files, history: seq<Row>, path: Text)
    requires Applying(files0, expected, files, history)
    requires forall i :: 0 <= i < |history| ==> expected[i].path != path
    ensures Read(files, path) == Read(files0, path)
  {
    var rows := expected[..|history|];
    assert LeftByPrefix(files0, rows, path, Read(files, path));
    var i :| 0 <= i <= |rows| && LeavesAt(files0, rows, i, path, Read(files, path));
    NotWritten(files0, rows[..i], path);
  }

  // ----- the apply loop -----

  /** Where the loop stands before patch `done`, in a run that started from `files1`, `history1`. */
  ghost predicate LoopAt(files0: Files, expected: seq<Row>, files1: Files, history1: seq<Row>, done: nat, files: Files, history: seq<Row>) {
    && Applying(files0, expected, files, history) && Reached(files0, expected, done, files)
    && SinceStart(expected, files1, history1, done, files, history)
  }

  predicate IsUntouched(rows: seq<Row>, done: nat, path: Text)
    requires done <= |rows|
  {
    forall i :: 0 <= i < done ==> rows[i].path != path
  }

  /** What the run has changed since it began. */
  ghost predicate SinceStart(expected: seq<Row>, files1: Files, history1: seq<Row>, done: nat, files: Files, history: seq<Row>)
    requires done <= |expected|
  {
    && |history| == (if |history1| < done then done else |history1|)
    && (forall i :: 0 <= i < |history1| ==> SameRecord(history[i], history1[i]))
    && (forall i :: done <= i < |history1| ==> history[i] == history1[i])
    && (forall i :: 0 <= i < done ==> history[i].applied)
    && (forall p {:trigger IsUntouched(expected, done, p)} :: IsUntouched(expected, done, p) ==> Read(files, p) == Read(files1, p))
    && (forall i :: 0 <= i < done && i < |history1| ==> !StuckAt(files1, history1, i))
  }

  /** A patch that is not the first on its path, or is new, finds its preimage. */
  lemma FindsPreimage(hash: Text -> Text, files0: Files, plan: seq<Item>, expected: seq<Row>,
                      files1: Files, history1: seq<Row>, done: nat, files: Files, history: seq<Row>)
    requires IsExpected(hash, files0, plan, expected) && done < |expected|
    requires LoopAt(files0, expected, files1, history1, done, files, history)
    requires done == |history| || !FirstOnPath(expected, done)
    ensures Read(files, expected[done].path) == expected[done].pre
  {
    var path := expected[done].path;
    assert IsExpectedAt(hash, files0, plan, expected, done);
    if i :| 0 <= i < done && expected[i].path == path {
      assert ReachedAt(files0, expected, done, files, i);
    } else {
      UnreachedIsOriginal(files0, expected, files, history, path);
      NotWritten(files0, expected[..done], path);
    }
  }

  /** A patch that finds neither image is the first on its path and was stuck when the run began. */
  lemma MismatchWasStuck(hash: Text -> Text, files0: Files, plan: seq<Item>, expected: seq<Row>,
                         files1: Files, history1: seq<Row>, done: nat, files: Files, history: seq<Row>)
    requires IsExpected(hash, files0, plan, expected) && done < |expected|
    requires LoopAt(files0, expected, files1, history1, done, files, history)
    requires Read(files, expected[done].path) != expected[done].pre && Read(files, expected[done].path) != expected[done].post
    ensures done < |history1| && StuckAt(files1, history1, done)
  {
    if done == |history| || !FirstOnPath(expected, done) {
      FindsPreimage(hash, files0, plan, expected, files1, history1, done, files, history);
    }
    assert forall i :: 0 <= i < |history1| ==> history1[i].path == expected[i].path;
    assert IsUntouched(expected, done, expected[done].path);
  }

  lemma LeftByLonger(files0: Files, expected: seq<Row>, m: nat, n: nat, path: Text, content: Text)
    requires m <= n <= |expected| && LeftByPrefix(files0, expected[..m], path, content)
    ensures LeftByPrefix(files0, expected[..n], path, content)
  {
    var i :| 0 <= i <= m && LeavesAt(files0, expected[..m], i, path, content);
    assert expected[..m][..i] == expected[..n][..i];
    assert LeavesAt(files0, expected[..n], i, path, content);
  }

  /** Storing or marking the next row, and writing its image or not, stays within the phase. */
  lemma StoreKeepsApplying(files0: Files, expected: seq<Row>, done: nat, files: Files, history: seq<Row>, row: Row, files': Files)
    requires Applying(files0, expected, files, history) && done < |expected| && done <= |history|
    requires forall i :: 0 <= i < done ==> history[i].applied
    requires SameRecord(row, expected[done]) && (done < |history| && history[done].applied ==> row.applied)
    requires files' == files || files' == files[expected[done].path := expected[done].post]
    ensures Applying(files0, expected, files', Put(history, done, row))
  {
    var history' := Put(history, done, row);
    forall p
      ensures LeftByPrefix(files0, expected[..|history'|], p, Read(files', p))
    {
      if Read(files', p) == Read(files, p) {
        LeftByLonger(files0, expected, |history|, |history'|, p, Read(files, p));
      } else {
        AfterRowsStep(files0, expected, done);
        assert expected[..|history'|][..done + 1] == expected[..done + 1];
        assert LeavesAt(files0, expected[..|history'|], done + 1, p, Read(files', p));
      }
    }
  }

  lemma WriteReaches(files0: Files, expected: seq<Row>, done: nat, files: Files, files': Files)
    requires Reached(files0, expected, done, files) && done < |expected|
    requires Read(files', expected[done].path) == expected[done].post
    requires forall p :: p != expected[done].path ==> Read(files', p) == Read(files, p)
    ensures Reached(files0, expected, done + 1, files')
  {
    AfterRowsStep(files0, expected, done);
    var next := done + 1;
    forall i | 0 <= i < next
      ensures ReachedAt(files0, expected, next, files', i)
    {
      if i < done { assert ReachedAt(files0, expected, done, files, i); }
    }
  }

  /** The row the next patch works from is the expected one. */
  lemma NextRowIsExpected(hash: Text -> Text, files0: Files, plan: seq<Item>, expected: seq<Row>, files1: Files, history1: seq<Row>,
                          done: nat, files: Files, history: seq<Row>)
    requires Tells(hash) && IsExpected(hash, files0, plan, expected) && done < |expected|
    requires LoopAt(files0, expected, files1, history1, done, files, history)
    ensures SameRecord(RowFor(hash, files, history, done, expected[done].path, plan[done]), expected[done])
    ensures done < |history| ==> RecordsItem(hash, history[done], plan[done])
  {
    assert IsExpectedAt(hash, files0, plan, expected, done);
    FreshRowHashes(hash, AfterRows(files0, expected[..done]), expected[done].path, plan[done]);
    if done == |history| {
      FindsPreimage(hash, files0, plan, expected, files1, history1, done, files, history);
    }
  }

  /** A finished call leaves the run at the next patch. */
  lemma LoopAdvances(files0: Files, expected: seq<Row>, files1: Files, history1: seq<Row>,
                     done: nat, files: Files, history: seq<Row>, files': Files, row: Row)
    requires done < |expected|
    requires LoopAt(files0, expected, files1, history1, done, files, history)
    requires SameRecord(row, expected[done]) && row.applied
    requires Read(files, expected[done].path) == expected[done].pre || Read(files, expected[done].path) == expected[done].post
    requires files' == files || files' == files[expected[done].path := expected[done].post]
    requires Read(files', expected[done].path) == expected[done].post
    ensures LoopAt(files0, expected, files1, history1, done + 1, files', Put(history, done, row))
  {
    StoreKeepsApplying(files0, expected, done, files, history, row, files');
    WriteReaches(files0, expected, done, files, files');
    StartAdvances(files0, expected, files1, history1, done, files, history, files', row);
  }

  lemma StartAdvances(files0: Files, expected: seq<Row>, files1: Files, history1: seq<Row>,
                      done: nat, files: Files, history: seq<Row>, files': Files, row: Row)
    requires done < |expected| && |history| <= |expected| && forall i :: 0 <= i < |history| ==> SameRecord(history[i], expected[i])
    requires SinceStart(expected, files1, history1, done, files, history)
    requires SameRecord(row, expected[done]) && row.applied
    requires Read(files, expected[done].path) == expected[done].pre || Read(files, expected[done].path) == expected[done].post
    requires forall p :: p != expected[done].path ==> Read(files', p) == Read(files, p)
    ensures SinceStart(expected, files1, history1, done + 1, files', Put(history, done, row))
  {
    assert forall i :: 0 <= i < |history1| ==> history1[i].path == expected[i].path && history1[i].pre == expected[i].pre && history1[i].post == expected[i].post;
    if done < |history1| && FirstOnPath(history1, done) {
      assert IsUntouched(expected, done, expected[done].path);
    }
    forall p | IsUntouched(expected, done + 1, p)
      ensures Read(files', p) == Read(files1, p)
    {
      assert expected[done].path != p && IsUntouched(expected, done, p);
    }
  }

  /** A call that dies leaves the phase's invariant. */
  lemma LoopDies(files0: Files, expected: seq<Row>, files1: Files, history1: seq<Row>,
                 done: nat, files: Files, history: seq<Row>, files': Files, row: Row)
    requires done < |expected| && LoopAt(files0, expected, files1, history1, done, files, history)
    requires SameRecord(row, expected[done]) && (done < |history| ==> row == history[done])
    requires files' == files || files' == files[expected[done].path := expected[done].post]
    ensures Applying(files0, expected, files', Put(history, done, row))
  {
    StoreKeepsApplying(files0, expected, done, files, history, row, files');
  }

  /** What one call does to the loop: dead with the phase's invariant intact, stuck where the run
      began, or at the next patch with the expected hashes. */
  lemma LoopStep(hash: Text -> Text, files0: Files, plan: seq<Item>, expected: seq<Row>, files1: Files, history1: seq<Row>,
                 done: nat, files: Files, history: seq<Row>, outcome: Outcome<Hashes>, files': Files, history': seq<Row>)
    requires Tells(hash) && IsExpected(hash, files0, plan, expected) && done < |expected|
    requires LoopAt(files0, expected, files1, history1, done, files, history)
    requires
      var path := expected[done].path;
      PatchStep(RowFor(hash, files, history, done, path, plan[done]), hash(plan[done].diffText), done,
                Read(files, path), files, history, outcome, files', history', path)
    ensures match outcome
            case Crashed => Applying(files0, expected, files', history')
            case Failed(StatementThrew(k)) => k == done && Applying(files0, expected, files', history')
            case Failed(fault) =>
              && fault == PreimageMismatch(done) && done < |history1| && StuckAt(files1, history1, done)
              && files' == files && history' == history
            case Done(hashes) =>
              hashes == Hashed(expected[done]) && LoopAt(files0, expected, files1, history1, done + 1, files', history')
  {
    var row := RowFor(hash, files, history, done, expected[done].path, plan[done]);
    NextRowIsExpected(hash, files0, plan, expected, files1, history1, done, files, history);
    assert IsExpectedAt(hash, files0, plan, expected, done);
    match outcome {
      case Crashed => LoopDies(files0, expected, files1, history1, done, files, history, files', row);
      case Failed(StatementThrew(_)) => LoopDies(files0, expected, files1, history1, done, files, history, files', row);
      case Failed(_) => MismatchWasStuck(hash, files0, plan, expected, files1, history1, done, files, history);
      case Done(_) => LoopAdvances(files0, expected, files1, history1, done, files, history, files', row.(applied := true));
    }
  }

  // ----- when a restarted run gets stuck -----

  lemma DistinctPathsSettle(rows: seq<Row>)
    requires DistinctPaths(rows)
    ensures Settles(rows)
  {}

  lemma SettledContent(files0: Files, expected: seq<Row>, n: nat, i: nat, content: Text)
    requires i < n <= |expected| && Settles(expected) && FirstOnPath(expected, i)
    requires expected[i].pre == Read(AfterRows(files0, expected[..i]), expected[i].path)
    requires LeftByPrefix(files0, expected[..n], expected[i].path, content)
    ensures content == expected[i].pre || content == expected[i].post
  {
    var path, rows := expected[i].path, expected[..n];
    var k :| 0 <= k <= |rows| && LeavesAt(files0, rows, k, path, content);
    assert rows[..k] == expected[..k];
    PrefixContent(files0, expected, i, k);
    NotWritten(files0, expected[..i], path);
  }

  /** A plan that settles never leaves a run stuck, wherever it died. */
  lemma SettlingNeverSticks(hash: Text -> Text, files0: Files, plan: seq<Item>, expected: seq<Row>, files: Files, history: seq<Row>)
    requires IsExpected(hash, files0, plan, expected) && Settles(expected) && Applying(files0, expected, files, history)
    ensures !Stuck(files, history)
  {
    assert forall j :: 0 <= j < |history| ==> SameRecord(history[j], expected[j]);
    forall i | 0 <= i < |history| && FirstOnPath(history, i)
      ensures !StuckAt(files, history, i)
    {
      assert forall j :: 0 <= j < i ==> history[j].path == expected[j].path;
      assert IsExpectedAt(hash, files0, plan, expected, i);
      SettledContent(files0, expected, |history|, i, Read(files, expected[i].path));
    }
  }

  /** A prefix of the rows leaves the original content or some image written on the path. */
  lemma {:induction false} PrefixContent(files0: Files, rows: seq<Row>, i: nat, k: nat)
    requires i < |rows| && k <= |rows| && FirstOnPath(rows, i)
    ensures
      var content := Read(AfterRows(files0, rows[..k]), rows[i].path);
      content == Read(files0, rows[i].path) || exists j :: i <= j < k && rows[j].path == rows[i].path && rows[j].post == content
  {
    if k > 0 {
      PrefixContent(files0, rows, i, k - 1);
      AfterRowsStep(files0, rows, k - 1);
    }
  }

  /** The process died right after writing row `n - 1` and before marking it. */
  function Unmarked(expected: seq<Row>, n: nat): seq<Row>
    requires 0 < n <= |expected|
  {
    expected[..n - 1] + [expected[n - 1].(applied := false)]
  }

  // ----- rolling back -----

  lemma {:induction false} SameWrites(files0: Files, a: seq<Row>, b: seq<Row>)
    requires |a| == |b| && forall i :: 0 <= i < |a| ==> SameRecord(a[i], b[i])
    ensures AfterRows(files0, a) == AfterRows(files0, b)
  {
    if a != [] { SameWrites(files0, a[..|a| - 1], b[..|b| - 1]); }
  }

  lemma ApplyingIsChained(hash: Text -> Text, files0: Files, plan: seq<Item>, expected: seq<Row>, files: Files, history: seq<Row>)
    requires Tells(hash) && IsExpected(hash, files0, plan, expected) && Applying(files0, expected, files, history)
    ensures Chained(hash, files0, history)
  {
    forall i | 0 <= i < |history|
      ensures ChainedAt(hash, files0, history, i) && !history[i].rolledBack
    {
      assert IsExpectedAt(hash, files0, plan, expected, i);
      FreshRowHashes(hash, AfterRows(files0, expected[..i]), expected[i].path, plan[i]);
      SameWrites(files0, history[..i], expected[..i]);
    }
  }

  /** A run that completed the rows it has is ready to be rolled back. */
  lemma CompletedIsReady(files0: Files, expected: seq<Row>, files: Files, history: seq<Row>)
    requires Applying(files0, expected, files, history) && Reached(files0, expected, |history|, files)
    requires forall i :: 0 <= i < |history| ==> history[i].applied && !expected[i].rolledBack
    ensures Ready(files0, files, history)
    ensures SameView(files, AfterRows(files0, expected[..|history|]))
  {
    var rows := expected[..|history|];
    forall p
      ensures Read(files, p) == Read(AfterRows(files0, rows), p)
      ensures match LatestLive(history, p)
              case None => Read(files, p) == Read(files0, p)
              case Some(i) => Read(files, p) == history[i].post
    {
      match LatestLive(history, p) {
        case None =>
          assert forall i :: 0 <= i < |history| ==> IsLive(history[i]) && history[i].path == expected[i].path;
          UnreachedIsOriginal(files0, expected, files, history, p);
          NotWritten(files0, rows, p);
        case Some(i) =>
          assert forall j :: 0 <= j < |history| ==> IsLive(history[j]) && history[j].path == rows[j].path;
          LastWrite(files0, rows, i);
          assert ReachedAt(files0, expected, |history|, files, i);
      }
    }
  }

  /** The content a live row's preimage is: that of the live row before it on the path, or the original. */
  lemma PreimageBelow(hash: Text -> Text, files0: Files, history: seq<Row>, i: nat)
    requires Chained(hash, files0, history) && i < |history| && IsLive(history[i])
    ensures match LatestLive(history[..i], history[i].path)
            case None => history[i].pre == Read(files0, history[i].path)
            case Some(k) => history[i].pre == history[k].post
  {
    var path, below := history[i].path, history[..i];
    assert ChainedAt(hash, files0, history, i);
    match LatestLive(below, path) {
      case None =>
        forall j | 0 <= j < i ensures below[j].path != path { assert below[j] == history[j]; }
        NotWritten(files0, below, path);
      case Some(k) =>
        forall j | k < j < i ensures below[j].path != path { assert below[j] == history[j]; }
        LastWrite(files0, below, k);
    }
  }

  lemma LatestLiveIs(history: seq<Row>, path: Text, i: nat)
    requires i < |history| && history[i].path == path && IsLive(history[i])
    requires forall j :: i < j < |history| ==> !IsLive(history[j])
    ensures LatestLive(history, path) == Some(i)
  {}

  lemma {:induction false} LatestLiveSkipsDead(history: seq<Row>, path: Text, i: nat)
    requires i <= |history| && forall j :: i <= j < |history| && history[j].path == path ==> !IsLive(history[j])
    ensures LatestLive(history, path) == LatestLive(history[..i], path)
  {}

  lemma {:induction false} LatestLiveElsewhere(history: seq<Row>, i: nat, row: Row, path: Text)
    requires i < |history| && row.path == history[i].path != path
    ensures LatestLive(history[i := row], path) == LatestLive(history, path)
  {
    if i < |history| - 1 {
      LatestLiveElsewhere(history[..|history| - 1], i, row, path);
      assert history[i := row][..|history| - 1] == history[..|history| - 1][i := row];
    } else {
      assert history[i := row][..i] == history[..i];
    }
  }

  lemma ReadyElsewhere(files0: Files, files: Files, files': Files, history: seq<Row>, i: nat, path: Text)
    requires i < |history| && path != history[i].path && Read(files', path) == Read(files, path)
    ensures ReadyAt(files0, files', history, path) <==> ReadyAt(files0, files, history, path)
    ensures ReadyAt(files0, files', MarkUndone(history, i), path) <==> ReadyAt(files0, files, history, path)
  {
    LatestLiveElsewhere(history, i, MarkUndone(history, i)[i], path);
  }

  /** A file back at its last live row's preimage is ready for the row below. */
  lemma ReadyBelow(hash: Text -> Text, files0: Files, files: Files, history: seq<Row>, i: nat)
    requires Chained(hash, files0, history) && i < |history| && IsLive(history[i])
    requires forall j :: i < j < |history| ==> !IsLive(history[j])
    requires Read(files, history[i].path) == history[i].pre
    ensures ReadyAt(files0, files, history, history[i].path)
    ensures ReadyAt(files0, files, MarkUndone(history, i), history[i].path)
  {
    var path, history' := history[i].path, MarkUndone(history, i);
    LatestLiveIs(history, path, i);
    PreimageBelow(hash, files0, history, i);
    LatestLiveSkipsDead(history', path, i);
    assert history'[..i] == history[..i];
  }

  /** Undoing the last live row, when its file holds either image, keeps the files as ready, or as
      unready, as they were. */
  lemma UndoKeepsReadiness(hash: Text -> Text, files0: Files, files: Files, history: seq<Row>, i: nat, files': Files)
    requires Chained(hash, files0, history) && i < |history| && IsLive(history[i])
    requires forall j :: i < j < |history| ==> !IsLive(history[j])
    requires Read(files, history[i].path) == history[i].pre || Read(files, history[i].path) == history[i].post
    requires Read(files', history[i].path) == history[i].pre && forall p :: p != history[i].path ==> Read(files', p) == Read(files, p)
    ensures Chained(hash, files0, MarkUndone(history, i))
    ensures Ready(files0, files', history) <==> Ready(files0, files, history)
    ensures Ready(files0, files', MarkUndone(history, i)) <==> Ready(files0, files, history)
  {
    LatestLiveIs(history, history[i].path, i);
    MarkKeepsChained(hash, files0, history, i);
    forall p
      ensures ReadyAt(files0, files', history, p) <==> ReadyAt(files0, files, history, p)
      ensures ReadyAt(files0, files', MarkUndone(history, i), p) <==> ReadyAt(files0, files, history, p)
    {
      if p == history[i].path { ReadyBelow(hash, files0, files', history, i); }
      else { ReadyElsewhere(files0, files, files', history, i, p); }
    }
  }

  lemma MarkKeepsChained(hash: Text -> Text, files0: Files, history: seq<Row>, i: nat)
    requires Chained(hash, files0, history) && i < |history|
    requires forall j :: i < j < |history| ==> !IsLive(history[j])
    ensures Chained(hash, files0, MarkUndone(history, i))
  {
    var history' := MarkUndone(history, i);
    forall k | 0 <= k < |history'|
      ensures ChainedAt(hash, files0, history', k)
    {
      assert ChainedAt(hash, files0, history, k);
      SameWritesIgnoringMarks(files0, history'[..k], history[..k]);
    }
  }

  lemma {:induction false} SameWritesIgnoringMarks(files0: Files, a: seq<Row>, b: seq<Row>)
    requires |a| == |b| && forall i :: 0 <= i < |a| ==> a[i].path == b[i].path && a[i].post == b[i].post
    ensures AfterRows(files0, a) == AfterRows(files0, b)
  {
    if a != [] { SameWritesIgnoringMarks(files0, a[..|a| - 1], b[..|b| - 1]); }
  }

  /** The first `k` patches, all marked, leave each file with the image of its last one. */
  lemma PrefixLeaves(hash: Text -> Text, files0: Files, plan: seq<Item>, rows: seq<Row>, k: nat, path: Text)
    requires IsExpected(hash, files0, plan, rows) && k <= |rows|
    ensures match LatestLive(rows[..k], path)
            case None => Read(AfterRows(files0, rows[..k]), path) == Read(files0, path)
            case Some(i) => Read(AfterRows(files0, rows[..k]), path) == rows[..k][i].post
  {
    AllApplied(hash, files0, plan, rows);
    assert forall i :: 0 <= i < k ==> IsLive(rows[..k][i]);
    match LatestLive(rows[..k], path) {
      case None => NotWritten(files0, rows[..k], path);
      case Some(i) => LastWrite(files0, rows[..k], i);
    }
  }

  /** Dead between writing a row's image and marking it, and rolled back without applying again:
      all is restored exactly when the write changed nothing, or brought back the preimage of the
      row before it on the path. */
  lemma UnmarkedWriteIsReadyExactly(hash: Text -> Text, files0: Files, plan: seq<Item>, expected: seq<Row>, n: nat)
    requires IsExpected(hash, files0, plan, expected) && 0 < n <= |expected|
    ensures
      var history, last := Unmarked(expected, n), expected[n - 1];
      Ready(files0, AfterRows(files0, expected[..n]), history) <==>
        || last.post == last.pre
        || (LatestLive(history, last.path).Some? && last.post == history[LatestLive(history, last.path).value].pre)
  {
    var history, last := Unmarked(expected, n), expected[n - 1];
    var files := AfterRows(files0, expected[..n]);
    forall p | p != last.path ensures ReadyAt(files0, files, history, p) { UnmarkedElsewhere(hash, files0, plan, expected, n, p); }
    UnmarkedHere(hash, files0, plan, expected, n);
    assert Ready(files0, files, history) <==> ReadyAt(files0, files, history, last.path);
  }

  lemma UnmarkedElsewhere(hash: Text -> Text, files0: Files, plan: seq<Item>, expected: seq<Row>, n: nat, path: Text)
    requires IsExpected(hash, files0, plan, expected) && 0 < n <= |expected| && path != expected[n - 1].path
    ensures ReadyAt(files0, AfterRows(files0, expected[..n]), Unmarked(expected, n), path)
  {
    assert Unmarked(expected, n)[..n - 1] == expected[..n - 1];
    AfterRowsStep(files0, expected, n - 1);
    LatestLiveSkipsDead(Unmarked(expected, n), path, n - 1);
    PrefixLeaves(hash, files0, plan, expected, n - 1, path);
  }

  lemma UnmarkedHere(hash: Text -> Text, files0: Files, plan: seq<Item>, expected: seq<Row>, n: nat)
    requires IsExpected(hash, files0, plan, expected) && 0 < n <= |expected|
    ensures
      var history, last := Unmarked(expected, n), expected[n - 1];
      ReadyAt(files0, AfterRows(files0, expected[..n]), history, last.path) <==>
        || last.post == last.pre
        || (LatestLive(history, last.path).Some? && last.post == history[LatestLive(history, last.path).value].pre)
  {
    var history, last := Unmarked(expected, n), expected[n - 1];
    assert history[..n - 1] == expected[..n - 1];
    AfterRowsStep(files0, expected, n - 1);
    LatestLiveSkipsDead(history, last.path, n - 1);
    PrefixLeaves(hash, files0, plan, expected, n - 1, last.path);
    assert IsExpectedAt(hash, files0, plan, expected, n - 1);
  }

  lemma AllApplied(hash: Text -> Text, files0: Files, plan: seq<Item>, expected: seq<Row>)
    requires IsExpected(hash, files0, plan, expected)
    ensures forall i :: 0 <= i < |expected| ==> IsLive(expected[i])
  {
    forall i | 0 <= i < |expected| ensures IsLive(expected[i]) { assert IsExpectedAt(hash, files0, plan, expected, i); }
  }
}
