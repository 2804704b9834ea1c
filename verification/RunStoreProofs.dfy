/** What the run table keeps under any interleaving, and what atomic updates keep besides. */
module RunStoreProofs {
  import opened JsText
  import opened JsonValues
  import opened RunStore

  // ----- any interleaving -----

  ghost predicate KeepsRuns(rows: Table, rows': Table) {
    forall id :: id in rows ==> id in rows' && rows'[id].identity == rows[id].identity
  }

  lemma SetKeepsRuns(rows: Table, id: Text, row: Row)
    requires Keyed(rows) && id in rows && row.identity == rows[id].identity
    ensures Keyed(rows[id := row]) && KeepsRuns(rows, rows[id := row])
  {}

  lemma NewKeepsRuns(rows: Table, row: Row)
    requires Keyed(rows) && row.identity.id !in rows && !WorkflowTaken(rows, row.identity.workflowId)
    ensures Keyed(rows[row.identity.id := row]) && KeepsRuns(rows, rows[row.identity.id := row])
  {}

  lemma TurnKeepsRows(s: State, i: nat)
    requires i < |s.callers| && Keyed(s.rows)
    ensures Keyed(Turn(s, i).rows) && KeepsRuns(s.rows, Turn(s, i).rows)
  {
    var c, rows := s.callers[i], Act(s.rows, s.callers[i]).0;
    match c.call {
      case Insert(run, status) =>
        if rows != s.rows { NewKeepsRuns(s.rows, NewRow(run, status)); }
      case _ =>
        if c.call.id in s.rows { SetKeepsRuns(s.rows, c.call.id, rows[c.call.id]); }
    }
  }

  /** Whatever the interleaving, a run once stored stays, under its id and its workflow, and what it
      is never changes. */
  lemma {:induction false} RunsAreWriteOnce(s: State, schedule: seq<nat>)
    requires Keyed(s.rows)
    ensures Keyed(Run(s, schedule).rows) && KeepsRuns(s.rows, Run(s, schedule).rows)
    decreases |schedule|
  {
    if schedule != [] {
      if schedule[0] < |s.callers| {
        TurnKeepsRows(s, schedule[0]);
        RunsAreWriteOnce(Turn(s, schedule[0]), schedule[1..]);
      } else {
        RunsAreWriteOnce(s, schedule[1..]);
      }
    }
  }

  /** A turn takes a run out of a terminal state exactly when it is the second half of an incrementing
      update that says `repairing`. */
  lemma TurnLeavesExactly(s: State, i: nat, id: Text)
    requires i < |s.callers| && Keyed(s.rows) && id in s.rows && Terminal(s.rows[id].status)
    ensures Leaves(s.rows, Turn(s, i).rows, id) <==>
      var c := s.callers[i];
      c.pc.Half? && c.pc.retryCount.Some? && c.call.SetOps? && c.call.id == id && c.call.ops.status == Some(Repairing)
  {}

  /** Second halves still to come for this run. */
  function Halves(callers: seq<Caller>, id: Text): nat {
    if callers == [] then 0 else HalfOf(callers[0], id) + Halves(callers[1..], id)
  }

  function HalfOf(c: Caller, id: Text): nat {
    if c.pc.Half? && c.pc.retryCount.Some? && c.call.SetOps? && c.call.id == id then 1 else 0
  }

  lemma {:induction false} HalvesUpdate(callers: seq<Caller>, i: nat, c: Caller, id: Text)
    requires i < |callers|
    ensures Halves(callers[i := c], id) == Halves(callers, id) - HalfOf(callers[i], id) + HalfOf(c, id)
  {
    if i == 0 {
      assert callers[0 := c] == [c] + callers[1..];
    } else {
      assert callers[i := c] == [callers[0]] + callers[1..][i - 1 := c];
      HalvesUpdate(callers[1..], i - 1, c, id);
    }
  }

  /** In any interleaving the departures are paid for by increments, counting those half done at the
      start; and the counter grows by the increments less what late second halves take back. */
  lemma {:induction false} CounterBalances(s: State, schedule: seq<nat>, id: Text)
    requires Keyed(s.rows) && id in s.rows
    ensures Departures(s, schedule, id) + Halves(Run(s, schedule).callers, id) <= Increment(s, schedule, id) + Halves(s.callers, id)
    ensures id in Run(s, schedule).rows
    ensures Run(s, schedule).rows[id].retryCount == s.rows[id].retryCount + Increment(s, schedule, id) - Lost(s, schedule, id)
    decreases |schedule|
  {
    if schedule != [] {
      if schedule[0] < |s.callers| {
        TurnKeepsRows(s, schedule[0]);
        TurnPays(s, schedule[0], id);
        TurnCounts(s, schedule[0], id);
        CounterBalances(Turn(s, schedule[0]), schedule[1..], id);
      } else {
        CounterBalances(s, schedule[1..], id);
      }
    }
  }

  lemma TurnPays(s: State, i: nat, id: Text)
    requires i < |s.callers| && Keyed(s.rows) && id in s.rows
    ensures (if Leaves(s.rows, Turn(s, i).rows, id) then 1 else 0) + Halves(Turn(s, i).callers, id)
         <= (if Increments(s, i, id) then 1 else 0) + Halves(s.callers, id)
  {
    var c := s.callers[i];
    HalvesUpdate(s.callers, i, c.(pc := Act(s.rows, c).1), id);
    if Terminal(s.rows[id].status) { TurnLeavesExactly(s, i, id); }
  }

  lemma TurnCounts(s: State, i: nat, id: Text)
    requires i < |s.callers| && Keyed(s.rows) && id in s.rows && id in Turn(s, i).rows
    ensures Turn(s, i).rows[id].retryCount == s.rows[id].retryCount + (if Increments(s, i, id) then 1 else 0) - Loss(s, i, id)
  {}

  // ----- the two halves -----

  /** A caller's two statements in a row are one `updateOps`. */
  lemma TwoTurnsAreOneUpdate(s: State, i: nat)
    requires i < |s.callers| && s.callers[i].pc.Ready? && s.callers[i].call.SetOps?
    ensures
      var c := s.callers[i].call;
      Turn(Turn(s, i), i).rows == OpsUpdated(s.rows, c.id, c.ops, c.increments)
  {}

  lemma {:induction false} NoneHalf(callers: seq<Caller>, id: Text)
    requires forall j :: 0 <= j < |callers| ==> !callers[j].pc.Half?
    ensures Halves(callers, id) == 0
  {
    if callers != [] { NoneHalf(callers[1..], id); }
  }

  /** Atomicity is needed: with the halves of two repairs interleaved, and a failure between, the run
      leaves its terminal state twice while the count ends one higher. */
  lemma InterleavedHalvesLoseAnIncrement(row: Row)
    requires row.status.Failed?
    ensures
      var n, id := row.retryCount, row.identity.id;
      var repair := Caller(SetOps(id, Ops(Some(Repairing), None, None, None), true), Ready);
      var s := State(map[id := row], [repair, repair, Caller(SetStatus(id, Failed), Ready)]);
      && Departures(s, [0, 1, 1, 2, 0], id) == 2
      && Run(s, [0, 1, 1, 2, 0]).rows[id].retryCount == n + 1
  {}
}
