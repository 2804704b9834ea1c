/** Any number of processes saving at once, one SQL statement per step, in any interleaving: an insert that
    does nothing on conflict, and the read and comparison after one that did nothing. */
module SaveSchedules {
  import opened JsText
  import opened Utf8
  import opened JsonValues
  import opened ArtifactStore
  import opened SaveArtifacts
  import opened SaveArtifactsProofs
  import opened Schedules

  /** Where a saver stands among its rows. */
  datatype Pc = Inserting(at: nat) | Comparing(at: nat) | Finished | Refused(place: nat)

  /** What one process saves: an index row and the rows after it, for one task. */
  datatype Job = Job(taskKey: Text, rows: seq<Entry>)

  datatype Writer = Writer(job: Job, pc: Pc)

  datatype State = State(table: Table, writers: seq<Writer>)

  function Next(w: Writer, at: nat): Writer { w.(pc := if at + 1 < |w.job.rows| then Inserting(at + 1) else Finished) }

  /** One statement of one saver: the table after it, and where the saver stands. */
  function Act(step: Step, table: Table, w: Writer): (Table, Writer) {
    match w.pc
    case Inserting(at) =>
      if at >= |w.job.rows| then (table, w)
      else if KeyAt(step, w.job.taskKey, at) in table then (table, w.(pc := Comparing(at)))
      else (Put(table, KeyAt(step, w.job.taskKey, at), w.job.rows[at]), Next(w, at))
    case Comparing(at) =>
      if at >= |w.job.rows| then (table, w)
      else if Clashes(table, KeyAt(step, w.job.taskKey, at), w.job.rows[at]) then (table, w.(pc := Refused(at)))
      else (table, Next(w, at))
    case _ => (table, w)
  }

  function Turn(step: Step, s: State, i: nat): State
    requires i < |s.writers|
  {
    var (table, w) := Act(step, s.table, s.writers[i]);
    State(table, s.writers[i := w])
  }

  function Run(step: Step, s: State, schedule: seq<nat>): State
    decreases |schedule|
  {
    if schedule == [] then s
    else if schedule[0] < |s.writers| then Run(step, Turn(step, s, schedule[0]), schedule[1..])
    else Run(step, s, schedule[1..])
  }

  function Starting(table: Table, jobs: seq<Job>): State {
    State(table, seq(|jobs|, i requires 0 <= i < |jobs| => Writer(jobs[i], Inserting(0))))
  }

  // ----- what the table holds -----

  /** The comparison lets these pass for each other. */
  predicate Like(a: Entry, b: Entry) { a.uri == b.uri && a.sha256 == b.sha256 }

  predicate AllLike(a: seq<Entry>, b: seq<Entry>) { |a| == |b| && forall j :: 0 <= j < |a| ==> Like(a[j], b[j]) }

  /** How many of its rows a saver has found in their places. */
  function Passed(w: Writer): nat {
    match w.pc
    case Inserting(at) => at
    case Comparing(at) => at
    case Finished => |w.job.rows|
    case Refused(place) => place
  }

  /** A row like the job's is in its place. */
  predicate FoundAt(step: Step, table: Table, job: Job, j: nat) {
    && j < |job.rows| && RowAt(table, step, job.taskKey, j).Some?
    && Like(RowAt(table, step, job.taskKey, j).value, job.rows[j])
  }

  ghost predicate WriterOk(step: Step, table: Table, w: Writer) {
    && Passed(w) <= |w.job.rows| && (!w.pc.Finished? ==> Passed(w) < |w.job.rows|)
    && (forall j: nat :: j < Passed(w) ==> FoundAt(step, table, w.job, j))
    && (w.pc.Comparing? || w.pc.Refused? ==> RowAt(table, step, w.job.taskKey, Passed(w)).Some?)
    && (w.pc.Refused? ==> !FoundAt(step, table, w.job, Passed(w)))
  }

  /** The saver put the row at this place. */
  predicate Wrote(step: Step, table: Table, w: Writer, taskKey: Text, j: nat) {
    w.job.taskKey == taskKey && j < Passed(w) <= |w.job.rows| && RowAt(table, step, taskKey, j) == Some(w.job.rows[j])
  }

  ghost predicate IsWritten(step: Step, s: State, taskKey: Text, j: nat) {
    RowAt(s.table, step, taskKey, j).Some? ==> exists i :: 0 <= i < |s.writers| && Wrote(step, s.table, s.writers[i], taskKey, j)
  }

  ghost predicate Inv(step: Step, s: State, taskKey: Text) {
    && (forall i :: 0 <= i < |s.writers| ==> WriterOk(step, s.table, s.writers[i]))
    && (forall j: nat :: IsWritten(step, s, taskKey, j))
  }

  /** Rows are written once, and only where an insert puts them. */
  lemma ActGrows(step: Step, table: Table, w: Writer, taskKey: Text, j: nat)
    ensures
      var (table', w') := Act(step, table, w);
      && (RowAt(table, step, taskKey, j).Some? ==> RowAt(table', step, taskKey, j) == RowAt(table, step, taskKey, j))
      && (RowAt(table, step, taskKey, j).None? && RowAt(table', step, taskKey, j).Some? ==> Wrote(step, table', w', taskKey, j))
      && w'.job == w.job
  {}

  lemma ActKeepsOk(step: Step, table: Table, w: Writer)
    requires WriterOk(step, table, w)
    ensures WriterOk(step, Act(step, table, w).0, Act(step, table, w).1) && Passed(w) <= Passed(Act(step, table, w).1)
  {
    var (table', w') := Act(step, table, w);
    forall j: nat | j < Passed(w) ensures FoundAt(step, table', w'.job, j) {
      assert FoundAt(step, table, w.job, j);
      ActGrows(step, table, w, w.job.taskKey, j);
    }
  }

  lemma OthersStayOk(step: Step, table: Table, w: Writer, other: Writer)
    requires WriterOk(step, table, other)
    ensures WriterOk(step, Act(step, table, w).0, other)
  {
    var table' := Act(step, table, w).0;
    forall j: nat | j < Passed(other) ensures FoundAt(step, table', other.job, j) {
      assert FoundAt(step, table, other.job, j);
      ActGrows(step, table, w, other.job.taskKey, j);
    }
    ActGrows(step, table, w, other.job.taskKey, Passed(other));
  }

  lemma StaysWritten(step: Step, s: State, taskKey: Text, i: nat, j: nat)
    requires Inv(step, s, taskKey) && i < |s.writers|
    ensures IsWritten(step, Turn(step, s, i), taskKey, j)
  {
    var t := Turn(step, s, i);
    ActGrows(step, s.table, s.writers[i], taskKey, j);
    ActKeepsOk(step, s.table, s.writers[i]);
    if RowAt(s.table, step, taskKey, j).Some? {
      assert IsWritten(step, s, taskKey, j);
      var k :| 0 <= k < |s.writers| && Wrote(step, s.table, s.writers[k], taskKey, j);
      assert Wrote(step, t.table, t.writers[k], taskKey, j);
    } else if RowAt(t.table, step, taskKey, j).Some? {
      assert Wrote(step, t.table, t.writers[i], taskKey, j);
    }
  }

  lemma TurnKeepsInv(step: Step, s: State, taskKey: Text, i: nat)
    requires Inv(step, s, taskKey) && i < |s.writers|
    ensures Inv(step, Turn(step, s, i), taskKey)
  {
    var t := Turn(step, s, i);
    ActKeepsOk(step, s.table, s.writers[i]);
    forall k | 0 <= k < |t.writers| ensures WriterOk(step, t.table, t.writers[k]) {
      if k != i { OthersStayOk(step, s.table, s.writers[i], s.writers[k]); }
    }
    forall j: nat ensures IsWritten(step, t, taskKey, j) { StaysWritten(step, s, taskKey, i, j); }
  }

  lemma {:induction false} RunKeepsInv(step: Step, s: State, taskKey: Text, schedule: seq<nat>)
    requires Inv(step, s, taskKey)
    ensures Inv(step, Run(step, s, schedule), taskKey)
    decreases |schedule|
  {
    if schedule != [] {
      if schedule[0] < |s.writers| {
        TurnKeepsInv(step, s, taskKey, schedule[0]);
        RunKeepsInv(step, Turn(step, s, schedule[0]), taskKey, schedule[1..]);
      } else {
        RunKeepsInv(step, s, taskKey, schedule[1..]);
      }
    }
  }

  lemma {:induction false} RunKeepsJobs(step: Step, s: State, schedule: seq<nat>)
    ensures |Run(step, s, schedule).writers| == |s.writers|
    ensures forall i :: 0 <= i < |s.writers| ==> Run(step, s, schedule).writers[i].job == s.writers[i].job
    decreases |schedule|
  {
    if schedule != [] { RunKeepsJobs(step, if schedule[0] < |s.writers| then Turn(step, s, schedule[0]) else s, schedule[1..]); }
  }

  /** Where a run of these jobs may be. */
  ghost predicate Reached(step: Step, jobs: seq<Job>, taskKey: Text, s: State) {
    Inv(step, s, taskKey) && |s.writers| == |jobs| && forall i :: 0 <= i < |jobs| ==> s.writers[i].job == jobs[i]
  }

  ghost predicate HaveRows(jobs: seq<Job>) { forall i :: 0 <= i < |jobs| ==> jobs[i].rows != [] }

  lemma RunReaches(step: Step, table: Table, jobs: seq<Job>, taskKey: Text, schedule: seq<nat>)
    requires Untouched(table, step, taskKey) && HaveRows(jobs)
    ensures Reached(step, jobs, taskKey, Run(step, Starting(table, jobs), schedule))
  {
    RunKeepsInv(step, Starting(table, jobs), taskKey, schedule);
    RunKeepsJobs(step, Starting(table, jobs), schedule);
  }

  // ----- one saver wins -----

  /** A job's first row tells all its others. */
  ghost predicate FirstRowTells(jobs: seq<Job>) {
    forall a, b :: a in jobs && b in jobs && a.taskKey == b.taskKey ==> Tells(a, b)
  }

  predicate LikeFirst(a: Job, b: Job) { a.rows != [] && b.rows != [] && Like(a.rows[0], b.rows[0]) }

  predicate Tells(a: Job, b: Job) {
    a.rows != [] && b.rows != [] && (LikeFirst(a, b) ==> AllLike(a.rows, b.rows))
  }

  /** One of the savers put its first row in its place. */
  predicate Wins(step: Step, table: Table, winner: Job) {
    winner.rows != [] && RowAt(table, step, winner.taskKey, 0) == Some(winner.rows[0])
  }

  /** Places 0 to n - 1 hold rows like the winner's, and no place after them holds any. */
  ghost predicate HoldsPrefix(step: Step, table: Table, winner: Job, n: nat) {
    forall j: nat :: if j < n then FoundAt(step, table, winner, j) else RowAt(table, step, winner.taskKey, j).None?
  }

  /** A saver is refused only at its first row, and only if that differs from the winner's; past it, a saver
      saves what the winner saves. */
  predicate StandsWith(winner: Job, w: Writer, n: nat) {
    match w.pc
    case Refused(place) => place == 0 && !LikeFirst(w.job, winner)
    case Finished => LikeFirst(w.job, winner) && n == |winner.rows|
    case _ => Passed(w) <= n && (Passed(w) > 0 ==> LikeFirst(w.job, winner))
  }

  /** Whoever wrote a row saves what the winner saves. */
  lemma StoredIsWinners(step: Step, s: State, jobs: seq<Job>, winner: Job, j: nat)
    requires FirstRowTells(jobs) && winner in jobs && Reached(step, jobs, winner.taskKey, s) && Wins(step, s.table, winner)
    requires RowAt(s.table, step, winner.taskKey, j).Some?
    ensures forall k: nat :: k <= j ==> FoundAt(step, s.table, winner, k)
  {
    assert IsWritten(step, s, winner.taskKey, j);
    var i :| 0 <= i < |s.writers| && Wrote(step, s.table, s.writers[i], winner.taskKey, j);
    var job := s.writers[i].job;
    assert job == jobs[i] && FoundAt(step, s.table, job, 0) && Tells(job, winner);
    forall k: nat | k <= j ensures FoundAt(step, s.table, winner, k) {
      assert FoundAt(step, s.table, job, k) && Like(job.rows[k], winner.rows[k]);
    }
  }

  lemma NothingAboveWinners(step: Step, s: State, jobs: seq<Job>, winner: Job, j: nat)
    requires FirstRowTells(jobs) && winner in jobs && Reached(step, jobs, winner.taskKey, s) && Wins(step, s.table, winner)
    ensures RowAt(s.table, step, winner.taskKey, j).Some? ==> j < |winner.rows|
  {
    if RowAt(s.table, step, winner.taskKey, j).Some? {
      StoredIsWinners(step, s, jobs, winner, j);
      assert FoundAt(step, s.table, winner, j);
    }
  }

  lemma WinnerJudges(step: Step, s: State, jobs: seq<Job>, winner: Job, i: nat, n: nat)
    requires FirstRowTells(jobs) && winner in jobs && Reached(step, jobs, winner.taskKey, s) && Wins(step, s.table, winner)
    requires HoldsPrefix(step, s.table, winner, n) && i < |jobs| && jobs[i].taskKey == winner.taskKey
    ensures StandsWith(winner, s.writers[i], n)
  {
    var w := s.writers[i];
    assert WriterOk(step, s.table, w) && w.job == jobs[i] && Tells(w.job, winner);
    if Passed(w) > 0 {
      assert FoundAt(step, s.table, w.job, 0);
      assert FoundAt(step, s.table, w.job, Passed(w) - 1);
    }
    if n > 0 { assert FoundAt(step, s.table, winner, n - 1); }
    if w.pc.Refused? && LikeFirst(w.job, winner) { PassesAtWinners(step, s.table, w.job, winner, n, Passed(w)); }
  }

  /** Rows like the winner's are not refused where the winner's are stored. */
  lemma PassesAtWinners(step: Step, table: Table, job: Job, winner: Job, n: nat, j: nat)
    requires AllLike(job.rows, winner.rows) && job.taskKey == winner.taskKey && HoldsPrefix(step, table, winner, n)
    requires j < |job.rows|
    ensures RowAt(table, step, job.taskKey, j).Some? ==> FoundAt(step, table, job, j)
  {
    if RowAt(table, step, job.taskKey, j).Some? {
      assert FoundAt(step, table, winner, j) && Like(job.rows[j], winner.rows[j]);
    }
  }

  /** How many rows of the winner are stored. */
  lemma {:induction false} PrefixLength(step: Step, s: State, jobs: seq<Job>, winner: Job, below: nat) returns (n: nat)
    requires FirstRowTells(jobs) && winner in jobs && Reached(step, jobs, winner.taskKey, s) && Wins(step, s.table, winner)
    requires forall j: nat :: below <= j ==> RowAt(s.table, step, winner.taskKey, j).None?
    ensures HoldsPrefix(step, s.table, winner, n)
  {
    n := below;
    if below > 0 {
      if RowAt(s.table, step, winner.taskKey, below - 1).Some? { StoredIsWinners(step, s, jobs, winner, below - 1); }
      else { n := PrefixLength(step, s, jobs, winner, below - 1); }
    }
  }

  /** The winner's rows are there from place 0 to n - 1, and each saver of its task stands accordingly. */
  ghost predicate Won(step: Step, s: State, jobs: seq<Job>, winner: Job, n: nat) {
    && winner in jobs && 1 <= n <= |winner.rows| && HoldsPrefix(step, s.table, winner, n)
    && forall i :: 0 <= i < |jobs| && i < |s.writers| && jobs[i].taskKey == winner.taskKey ==> StandsWith(winner, s.writers[i], n)
  }

  lemma SomeoneWins(step: Step, s: State, jobs: seq<Job>, taskKey: Text, j: nat) returns (winner: Job, n: nat)
    requires FirstRowTells(jobs) && Reached(step, jobs, taskKey, s) && RowAt(s.table, step, taskKey, j).Some?
    ensures winner.taskKey == taskKey && Won(step, s, jobs, winner, n)
  {
    assert IsWritten(step, s, taskKey, j);
    var i :| 0 <= i < |s.writers| && Wrote(step, s.table, s.writers[i], taskKey, j);
    assert FoundAt(step, s.table, s.writers[i].job, 0);
    assert IsWritten(step, s, taskKey, 0);
    var k :| 0 <= k < |s.writers| && Wrote(step, s.table, s.writers[k], taskKey, 0);
    winner := jobs[k];
    forall l: nat | |winner.rows| <= l ensures RowAt(s.table, step, taskKey, l).None? {
      NothingAboveWinners(step, s, jobs, winner, l);
    }
    n := PrefixLength(step, s, jobs, winner, |winner.rows|);
    assert FoundAt(step, s.table, winner, 0);
    if n > 0 { assert FoundAt(step, s.table, winner, n - 1); }
    forall l | 0 <= l < |jobs| && jobs[l].taskKey == taskKey ensures StandsWith(winner, s.writers[l], n) {
      WinnerJudges(step, s, jobs, winner, l, n);
    }
  }

  // ----- what results save -----

  function JobOf(step: Step, r: Result): Job { Job(r.taskKey, Rows(step, r)) }

  function Jobs(step: Step, results: seq<Result>): (jobs: seq<Job>)
    ensures |jobs| == |results| && forall i :: 0 <= i < |jobs| ==> jobs[i] == JobOf(step, results[i])
  {
    seq(|results|, i requires 0 <= i < |results| => JobOf(step, results[i]))
  }

  /** Under an injective hash an index tells all the rows it lists. */
  lemma IndexTells(step: Step, a: Result, b: Result)
    requires Injective(step.sha) && a.taskKey == b.taskKey
    ensures Tells(JobOf(step, a), JobOf(step, b))
    ensures LikeFirst(JobOf(step, a), JobOf(step, b)) <==> Index(step, a) == Index(step, b)
  {
    IndexEntriesAgree(step, a, b);
    SameIndexSameItems(step, a, b);
    LikeRows(IndexEntry(step, a, Index(step, a)), OrderedEntries(step, a), IndexEntry(step, b, Index(step, b)), OrderedEntries(step, b));
  }

  lemma LikeRows(x: Entry, a: seq<Entry>, y: Entry, b: seq<Entry>)
    requires Like(x, y) ==> Items(a) == Items(b)
    ensures Like(x, y) ==> AllLike([x] + a, [y] + b)
  {
    if Like(x, y) {
      assert |a| == |Items(a)| == |b|;
      forall j | 0 <= j < |[x] + a| ensures Like(([x] + a)[j], ([y] + b)[j]) {
        if j > 0 { SameItem(a, b, j - 1); }
      }
    }
  }

  lemma JobsTell(step: Step, results: seq<Result>, i: nat, j: nat)
    requires Injective(step.sha) && i < |results| && j < |results| && results[i].taskKey == results[j].taskKey
    ensures Tells(Jobs(step, results)[i], Jobs(step, results)[j])
    ensures LikeFirst(Jobs(step, results)[i], Jobs(step, results)[j]) <==> Index(step, results[i]) == Index(step, results[j])
  {
    IndexTells(step, results[i], results[j]);
  }

  lemma IndexesTell(step: Step, results: seq<Result>)
    requires Injective(step.sha)
    ensures FirstRowTells(Jobs(step, results)) && HaveRows(Jobs(step, results))
  {
    var jobs := Jobs(step, results);
    forall i, j | 0 <= i < |jobs| && 0 <= j < |jobs| && jobs[i].taskKey == jobs[j].taskKey
      ensures Tells(jobs[i], jobs[j])
    {
      JobsTell(step, results, i, j);
    }
    TellsAll(jobs);
  }

  lemma TellsAll(jobs: seq<Job>)
    requires forall i, j :: 0 <= i < |jobs| && 0 <= j < |jobs| && jobs[i].taskKey == jobs[j].taskKey ==> Tells(jobs[i], jobs[j])
    ensures FirstRowTells(jobs) && HaveRows(jobs)
  {
    forall i | 0 <= i < |jobs| ensures jobs[i].rows != [] { assert Tells(jobs[i], jobs[i]); }
  }

  /** Savers of these results, about to start. */
  function Savers(step: Step, table: Table, results: seq<Result>): State { Starting(table, Jobs(step, results)) }

  /** A saver is refused only at the index, and only if its own differs from the stored one; past it, it saves
      what is stored, and when it has finished all of that is there. */
  predicate Judged(step: Step, winner: Result, r: Result, pc: Pc, n: nat) {
    match pc
    case Refused(place) => place == 0 && Index(step, r) != Index(step, winner)
    case Finished => Index(step, r) == Index(step, winner) && n == |Rows(step, winner)|
    case Inserting(at) => at <= n && (at > 0 ==> Index(step, r) == Index(step, winner))
    case Comparing(at) => at <= n && (at > 0 ==> Index(step, r) == Index(step, winner))
  }

  /** The rows of one of the results, its index first, are all there is of the task, as far as they go. */
  ghost predicate IndexWon(step: Step, s: State, results: seq<Result>, taskKey: Text, winner: nat, n: nat) {
    && winner < |results| && results[winner].taskKey == taskKey && 1 <= n <= |Rows(step, results[winner])|
    && HoldsPrefix(step, s.table, JobOf(step, results[winner]), n)
    && forall i :: 0 <= i < |results| && i < |s.writers| && results[i].taskKey == taskKey ==>
         Judged(step, results[winner], results[i], s.writers[i].pc, n)
  }

  /** However many processes save one task at once, and however their statements interleave: once any of
      the task's rows is stored, one index has won. What is stored is a prefix of the winner's rows, and
      every saver stands as the winner's index says. */
  lemma OneIndexWins(step: Step, table: Table, results: seq<Result>, taskKey: Text, schedule: seq<nat>, j: nat)
    returns (winner: nat, n: nat)
    requires Injective(step.sha) && Untouched(table, step, taskKey)
    ensures
      var end := Run(step, Savers(step, table, results), schedule);
      && |end.writers| == |results|
      && (RowAt(end.table, step, taskKey, j).Some? ==> IndexWon(step, end, results, taskKey, winner, n))
  {
    var jobs := Jobs(step, results);
    IndexesTell(step, results);
    RunReaches(step, table, jobs, taskKey, schedule);
    var end := Run(step, Starting(table, jobs), schedule);
    winner, n := 0, 0;
    if RowAt(end.table, step, taskKey, j).Some? {
      var job;
      job, n := SomeoneWins(step, end, jobs, taskKey, j);
      winner :| 0 <= winner < |jobs| && jobs[winner] == job;
      forall i | 0 <= i < |results| && results[i].taskKey == taskKey
        ensures Judged(step, results[winner], results[i], end.writers[i].pc, n)
      {
        IndexTells(step, results[i], results[winner]);
        assert StandsWith(job, end.writers[i], n);
      }
    }
  }

  // ----- who is refused -----

  ghost predicate RefusedIn(step: Step, s: State, schedule: seq<nat>, i: nat) {
    i < |Run(step, s, schedule).writers| && Run(step, s, schedule).writers[i].pc.Refused?
  }

  ghost predicate NeverRefused(step: Step, s: State, i: nat) { forall schedule :: !RefusedIn(step, s, schedule, i) }

  /** Everyone saving this task has this index. */
  ghost predicate AllSame(step: Step, results: seq<Result>, r: Result) {
    forall j :: 0 <= j < |results| && results[j].taskKey == r.taskKey ==> Index(step, results[j]) == Index(step, r)
  }

  /** Every job of this task has this first row. */
  ghost predicate AllLikeFirst(jobs: seq<Job>, job: Job) {
    forall j :: 0 <= j < |jobs| && jobs[j].taskKey == job.taskKey ==> LikeFirst(jobs[j], job)
  }

  lemma AllSameAllLike(step: Step, results: seq<Result>, i: nat)
    requires Injective(step.sha) && i < |results|
    ensures AllSame(step, results, results[i]) <==> AllLikeFirst(Jobs(step, results), Jobs(step, results)[i])
  {
    forall j | 0 <= j < |results| && results[j].taskKey == results[i].taskKey
      ensures Index(step, results[j]) == Index(step, results[i]) <==> LikeFirst(Jobs(step, results)[j], Jobs(step, results)[i])
    {
      JobsTell(step, results, j, i);
    }
  }

  /** A saver is refused under no interleaving exactly when everyone saving its task has its index. */
  lemma NeverRefusedExactly(step: Step, table: Table, results: seq<Result>, i: nat)
    requires Injective(step.sha) && i < |results| && Untouched(table, step, results[i].taskKey)
    ensures NeverRefused(step, Savers(step, table, results), i) <==> AllSame(step, results, results[i])
  {
    IndexesTell(step, results);
    AllSameAllLike(step, results, i);
    FirstRowRefusesExactly(step, table, Jobs(step, results), i);
  }

  lemma FirstRowRefusesExactly(step: Step, table: Table, jobs: seq<Job>, i: nat)
    requires FirstRowTells(jobs) && HaveRows(jobs) && i < |jobs| && Untouched(table, step, jobs[i].taskKey)
    ensures NeverRefused(step, Starting(table, jobs), i) <==> AllLikeFirst(jobs, jobs[i])
  {
    if AllLikeFirst(jobs, jobs[i]) {
      forall schedule ensures !RefusedIn(step, Starting(table, jobs), schedule, i) {
        RunReaches(step, table, jobs, jobs[i].taskKey, schedule);
        EqualsAreNotRefused(step, Run(step, Starting(table, jobs), schedule), jobs, i);
      }
    } else {
      var j :| 0 <= j < |jobs| && jobs[j].taskKey == jobs[i].taskKey && !LikeFirst(jobs[j], jobs[i]);
      FirstRefusesOther(step, table, jobs, i, j);
    }
  }

  lemma EqualsAreNotRefused(step: Step, s: State, jobs: seq<Job>, i: nat)
    requires FirstRowTells(jobs) && i < |jobs| && Reached(step, jobs, jobs[i].taskKey, s) && AllLikeFirst(jobs, jobs[i])
    ensures !s.writers[i].pc.Refused?
    ensures s.writers[i].pc.Finished? ==> HoldsPrefix(step, s.table, jobs[i], |jobs[i].rows|)
  {
    var job, at := jobs[i], Passed(s.writers[i]);
    assert WriterOk(step, s.table, s.writers[i]);
    forall j: nat | RowAt(s.table, step, job.taskKey, j).Some? ensures FoundAt(step, s.table, job, j) {
      StoredIsEverybodys(step, s, jobs, i, j);
    }
  }

  /** Where all first rows are alike, every stored row is like everyone's. */
  lemma StoredIsEverybodys(step: Step, s: State, jobs: seq<Job>, i: nat, j: nat)
    requires FirstRowTells(jobs) && i < |jobs| && Reached(step, jobs, jobs[i].taskKey, s) && AllLikeFirst(jobs, jobs[i])
    requires RowAt(s.table, step, jobs[i].taskKey, j).Some?
    ensures FoundAt(step, s.table, jobs[i], j)
  {
    assert IsWritten(step, s, jobs[i].taskKey, j);
    var k :| 0 <= k < |s.writers| && Wrote(step, s.table, s.writers[k], jobs[i].taskKey, j);
    assert s.writers[k].job == jobs[k] && LikeFirst(jobs[k], jobs[i]) && Tells(jobs[k], jobs[i]);
    assert Like(jobs[k].rows[j], jobs[i].rows[j]);
  }

  lemma FirstRefusesOther(step: Step, table: Table, jobs: seq<Job>, i: nat, j: nat)
    requires i < |jobs| && j < |jobs| && jobs[i].taskKey == jobs[j].taskKey && jobs[i].rows != [] && jobs[j].rows != []
    requires Untouched(table, step, jobs[i].taskKey) && !LikeFirst(jobs[j], jobs[i])
    ensures RefusedIn(step, Starting(table, jobs), [j, i, i], i)
  {
    var s := Starting(table, jobs);
    var s1 := Turn(step, s, j);
    var s2 := Turn(step, s1, i);
    assert s1.table == Put(table, KeyAt(step, jobs[i].taskKey, 0), jobs[j].rows[0]);
    assert s2 == State(s1.table, s1.writers[i := Writer(jobs[i], Comparing(0))]);
    var s3 := Turn(step, s2, i);
    assert s3.writers[i].pc == Refused(0);
    assert [j, i, i][1..] == [i, i] && [i, i][1..] == [i] && [i][1..] == [];
    assert Run(step, s2, [i]) == Run(step, s3, []) == s3;
    assert Run(step, s, [j, i, i]) == Run(step, s1, [i, i]) == Run(step, s2, [i]);
  }

  /** A saver undisturbed between its two statements makes one insert: the row is there or put there, or
      another one refuses it. */
  lemma TurnsAreOneInsert(step: Step, table: Table, w: Writer, at: nat)
    requires w.pc == Inserting(at) && at < |w.job.rows|
    ensures
      var key, row, (table', w') := KeyAt(step, w.job.taskKey, at), w.job.rows[at], Act(step, table, w);
      if Clashes(table, key, row) then Act(step, table', w') == (table, w.(pc := Refused(at)))
      else (if key in table then Act(step, table', w') else (table', w')) == (Put(table, key, row), Next(w, at))
  {}

  // ----- progress -----

  function TurnsLeft(w: Writer): nat {
    match w.pc
    case Inserting(at) => if at < |w.job.rows| then 2 * (|w.job.rows| - at) else 0
    case Comparing(at) => if at < |w.job.rows| then 2 * (|w.job.rows| - at) - 1 else 0
    case _ => 0
  }

  lemma ActUsesATurn(step: Step, table: Table, w: Writer)
    ensures TurnsLeft(Act(step, table, w).1) <= if TurnsLeft(w) > 0 then TurnsLeft(w) - 1 else 0
  {}

  lemma {:induction false} TurnsRunOut(step: Step, s: State, schedule: seq<nat>, i: nat)
    requires i < |s.writers|
    ensures |Run(step, s, schedule).writers| == |s.writers|
    ensures
      var (had, took) := (TurnsLeft(s.writers[i]), TurnsOf(schedule, i));
      TurnsLeft(Run(step, s, schedule).writers[i]) <= if took < had then had - took else 0
    decreases |schedule|
  {
    if schedule != [] {
      if schedule[0] < |s.writers| {
        ActUsesATurn(step, s.table, s.writers[schedule[0]]);
        TurnsRunOut(step, Turn(step, s, schedule[0]), schedule[1..], i);
      } else {
        TurnsRunOut(step, s, schedule[1..], i);
      }
    }
  }

  /** Among savers of one index, whoever gets two turns a row finishes, and then every row is in its place. */
  lemma EqualSaversFinish(step: Step, table: Table, results: seq<Result>, schedule: seq<nat>, i: nat)
    requires Injective(step.sha) && i < |results| && Untouched(table, step, results[i].taskKey) && AllSame(step, results, results[i])
    requires TurnsOf(schedule, i) >= 2 * |Rows(step, results[i])|
    ensures
      var end := Run(step, Savers(step, table, results), schedule);
      && |end.writers| == |results| && end.writers[i].pc.Finished?
      && HoldsPrefix(step, end.table, JobOf(step, results[i]), |Rows(step, results[i])|)
  {
    IndexesTell(step, results);
    AllSameAllLike(step, results, i);
    AlikeFinish(step, table, Jobs(step, results), schedule, i);
  }

  lemma AlikeFinish(step: Step, table: Table, jobs: seq<Job>, schedule: seq<nat>, i: nat)
    requires FirstRowTells(jobs) && HaveRows(jobs) && i < |jobs| && Untouched(table, step, jobs[i].taskKey) && AllLikeFirst(jobs, jobs[i])
    requires TurnsOf(schedule, i) >= 2 * |jobs[i].rows|
    ensures
      var end := Run(step, Starting(table, jobs), schedule);
      |end.writers| == |jobs| && end.writers[i].pc.Finished? && HoldsPrefix(step, end.table, jobs[i], |jobs[i].rows|)
  {
    var s := Starting(table, jobs);
    var end := Run(step, s, schedule);
    RunReaches(step, table, jobs, jobs[i].taskKey, schedule);
    TurnsRunOut(step, s, schedule, i);
    EqualsAreNotRefused(step, end, jobs, i);
    assert WriterOk(step, end.table, end.writers[i]);
  }
}
