/** The run table: insert-or-compare by identity, status updates that guard terminal states, and the
    retry counter, whose update is two statements. */
module RunStore {
  import opened JsText
  import opened JsonValues
  import opened StableSort
  import opened CanonicalJson
  import opened CanonicalJsonTheorems

  datatype Status = Queued | Running | WaitingInput | Succeeded | Failed | Canceled | RetriesExceeded | Repairing

  /** What a run is; an absent budget and a null one are both `Null`. */
  datatype Identity = Identity(
    id: Text, intentId: Text, intentHash: Option<Text>, recipeId: Option<Text>, recipeV: Option<Text>, recipeHash: Option<Text>,
    workflowId: Text, traceId: Option<Text>, tenantId: Option<Text>, queuePartitionKey: Option<Text>, budget: Json)

  datatype Row = Row(
    identity: Identity, status: Status, lastStep: Option<Text>, error: Option<Text>, retryCount: int, nextAction: Option<Text>)

  /** Keyed by run id. */
  type Table = map<Text, Row>

  datatype Field = Id | IntentId | IntentHash | RecipeId | RecipeV | RecipeHash | TraceId | TenantId | QueuePartitionKey | Budget

  /** `None` is `undefined`, leave it; `Some(None)` sets null. */
  datatype Ops = Ops(status: Option<Status>, lastStep: Option<Text>, error: Option<Option<Text>>, nextAction: Option<Option<Text>>)

  predicate Terminal(s: Status) { s.Succeeded? || s.Failed? || s.Canceled? || s.RetriesExceeded? }

  // ----- statements -----

  predicate WorkflowTaken(rows: Table, workflowId: Text) { exists k :: k in rows && rows[k].identity.workflowId == workflowId }

  /** Both columns are unique: `id`, the key, and `workflow_id`. */
  ghost predicate Keyed(rows: Table) {
    && (forall k :: k in rows ==> rows[k].identity.id == k)
    && (forall k, l :: k in rows && l in rows && rows[k].identity.workflowId == rows[l].identity.workflowId ==> k == l)
  }

  /** `reentry` lets `repairing` out of a terminal state. */
  function NextStatus(current: Status, incoming: Status, reentry: bool): Status {
    if Terminal(current) && !Terminal(incoming) && !reentry then current else incoming
  }

  function StatusSet(rows: Table, id: Text, status: Status): Table {
    if id !in rows then rows else rows[id := rows[id].(status := NextStatus(rows[id].status, status, false))]
  }

  function OpsSet(row: Row, ops: Ops, retryCount: Option<int>): Row {
    row.(
      status := if ops.status.None? then row.status
                else NextStatus(row.status, ops.status.value, ops.status.value.Repairing? && retryCount.Some?),
      lastStep := if ops.lastStep.Some? then ops.lastStep else row.lastStep,
      error := if ops.error.Some? then ops.error.value else row.error,
      retryCount := if retryCount.Some? then retryCount.value else row.retryCount,
      nextAction := if ops.nextAction.Some? then ops.nextAction.value else row.nextAction)
  }

  function Updated(rows: Table, id: Text, ops: Ops, retryCount: Option<int>): Table {
    if id !in rows then rows else rows[id := OpsSet(rows[id], ops, retryCount)]
  }

  function Counted(rows: Table, id: Text): Table {
    if id !in rows then rows else rows[id := rows[id].(retryCount := rows[id].retryCount + 1)]
  }

  function CountedTo(rows: Table, id: Text): Option<int> {
    if id in rows then Some(rows[id].retryCount + 1) else None
  }

  /** `updateOps` when nothing comes between its two statements. */
  function OpsUpdated(rows: Table, id: Text, ops: Ops, increments: bool): Table {
    if increments then Updated(Counted(rows, id), id, ops, CountedTo(rows, id)) else Updated(rows, id, ops, None)
  }

  function NewRow(run: Identity, status: Status): Row { Row(run, status, None, None, 0, None) }

  /** The fields a stored run and a new request differ in. */
  function DriftFields(le: Collation, existing: Identity, incoming: Identity): seq<Field> {
    If(existing.id != incoming.id, Id,
    If(existing.intentId != incoming.intentId, IntentId,
    If(existing.intentHash != incoming.intentHash, IntentHash,
    If(existing.recipeId != incoming.recipeId, RecipeId,
    If(existing.recipeV != incoming.recipeV, RecipeV,
    If(existing.recipeHash != incoming.recipeHash, RecipeHash,
    If(existing.traceId != incoming.traceId, TraceId,
    If(existing.tenantId != incoming.tenantId, TenantId,
    If(existing.queuePartitionKey != incoming.queuePartitionKey, QueuePartitionKey,
    If(Canonicalize(le, existing.budget) != Canonicalize(le, incoming.budget), Budget, []))))))))))
  }

  function If(differs: bool, f: Field, rest: seq<Field>): (r: seq<Field>)
    ensures forall g :: g in r <==> (differs && g == f) || g in rest
  {
    if differs then [f] + rest else rest
  }

  /** Whether a run and a request differ in this field. */
  predicate Differs(le: Collation, f: Field, a: Identity, b: Identity) {
    match f
    case Id => a.id != b.id
    case IntentId => a.intentId != b.intentId
    case IntentHash => a.intentHash != b.intentHash
    case RecipeId => a.recipeId != b.recipeId
    case RecipeV => a.recipeV != b.recipeV
    case RecipeHash => a.recipeHash != b.recipeHash
    case TraceId => a.traceId != b.traceId
    case TenantId => a.tenantId != b.tenantId
    case QueuePartitionKey => a.queuePartitionKey != b.queuePartitionKey
    case Budget => Canonicalize(le, a.budget) != Canonicalize(le, b.budget)
  }

  /** The drift names exactly the fields that differ. */
  lemma DriftNamesExactly(le: Collation, a: Identity, b: Identity, f: Field)
    ensures f in DriftFields(le, a, b) <==> Differs(le, f, a, b)
  {
    match f {
      case Id =>
      case IntentId =>
      case IntentHash =>
      case RecipeId =>
      case RecipeV =>
      case RecipeHash =>
      case TraceId =>
      case TenantId =>
      case QueuePartitionKey =>
      case Budget =>
    }
  }

  /** The same run, budgets compared with member order forgotten. */
  ghost predicate SameIdentity(a: Identity, b: Identity) {
    a.(budget := Null) == b.(budget := Null) && Meaning(a.budget) == Meaning(b.budget)
  }

  /** Runs of one workflow have no drift exactly when they are the same run. */
  lemma NoDriftExactly(le: Collation, a: Identity, b: Identity)
    requires IsCollation(le) && Separates(le) && WellFormed(a.budget) && WellFormed(b.budget)
    requires a.workflowId == b.workflowId
    ensures DriftFields(le, a, b) == [] <==> SameIdentity(a, b)
  {
    if Meaning(a.budget) == Meaning(b.budget) {
      SeparatingIsTieFree(le, a.budget);
      SameMeaningSameText(le, a.budget, b.budget);
    } else if Canonicalize(le, a.budget) == Canonicalize(le, b.budget) {
      SameTextSameMeaning(le, a.budget, b.budget);
    }
  }

  // ----- the repository -----

  datatype InsertOutcome = Inserted(row: Row) | Existing(row: Row) | IdTaken | Drifted(fields: seq<Field>)

  class Runs {
    const le: Collation
    var rows: Table

    constructor (le: Collation, rows: Table)
      ensures this.le == le && this.rows == rows
    {
      this.le, this.rows := le, rows;
    }

    method InsertRun(run: Identity, status: Status) returns (outcome: InsertOutcome)
      requires Keyed(rows)
      modifies this`rows
      ensures Keyed(rows)
      ensures outcome.Inserted? <==> !WorkflowTaken(old(rows), run.workflowId) && run.id !in old(rows)
      ensures outcome.IdTaken? <==> !WorkflowTaken(old(rows), run.workflowId) && run.id in old(rows)
      ensures rows == if outcome.Inserted? then old(rows)[run.id := NewRow(run, status)] else old(rows)
      ensures outcome.Inserted? ==> outcome.row == Row(run, status, None, None, 0, None) && rows[run.id] == outcome.row
      ensures outcome.Existing? ==>
        && outcome.row in rows.Values && outcome.row.identity.workflowId == run.workflowId
        && DriftFields(le, outcome.row.identity, run) == []
      ensures outcome.Drifted? ==> outcome.fields != [] && exists k ::
        k in rows && rows[k].identity.workflowId == run.workflowId && outcome.fields == DriftFields(le, rows[k].identity, run)
    {
      if !WorkflowTaken(rows, run.workflowId) {
        if run.id in rows { return IdTaken; }
        rows := rows[run.id := NewRow(run, status)];
        return Inserted(rows[run.id]);
      }
      var k :| k in rows && rows[k].identity.workflowId == run.workflowId;
      var fields := DriftFields(le, rows[k].identity, run);
      return if fields == [] then Existing(rows[k]) else Drifted(fields);
    }

    method UpdateRunStatus(id: Text, status: Status)
      modifies this`rows
      ensures rows == StatusSet(old(rows), id, status)
      ensures rows.Keys == old(rows).Keys && forall k :: k in rows ==>
        rows[k] == if k == id && (Terminal(status) || !Terminal(old(rows)[k].status)) then old(rows)[k].(status := status) else old(rows)[k]
    {
      if id !in rows { return; }
      var row := rows[id];
      if !(Terminal(row.status) && !Terminal(status)) { row := row.(status := status); }
      rows := rows[id := row];
    }

    method UpdateRunOps(id: Text, ops: Ops, retryCount: Option<int>)
      modifies this`rows
      ensures rows == Updated(old(rows), id, ops, retryCount)
      ensures rows.Keys == old(rows).Keys && forall k :: k in rows && k != id ==> rows[k] == old(rows)[k]
      ensures id in rows ==>
        var was, row := old(rows)[id], rows[id];
        && row.identity == was.identity
        && row.status == (
             if ops.status.None? then was.status
             else if Terminal(was.status) && !Terminal(ops.status.value) && !(ops.status.value.Repairing? && retryCount.Some?) then was.status
             else ops.status.value)
        && (if ops.lastStep.Some? then row.lastStep == ops.lastStep else row.lastStep == was.lastStep)
        && (if ops.error.Some? then row.error == ops.error.value else row.error == was.error)
        && (if retryCount.Some? then row.retryCount == retryCount.value else row.retryCount == was.retryCount)
        && (if ops.nextAction.Some? then row.nextAction == ops.nextAction.value else row.nextAction == was.nextAction)
    {
      if id !in rows { return; }
      var row := rows[id];
      if ops.status.Some? {
        var allowTerminalReentry := ops.status.value.Repairing? && retryCount.Some?;
        if !(Terminal(row.status) && !Terminal(ops.status.value) && !allowTerminalReentry) {
          row := row.(status := ops.status.value);
        }
      }
      if ops.lastStep.Some? { row := row.(lastStep := ops.lastStep); }
      if ops.error.Some? { row := row.(error := ops.error.value); }
      if retryCount.Some? { row := row.(retryCount := retryCount.value); }
      if ops.nextAction.Some? { row := row.(nextAction := ops.nextAction.value); }
      rows := rows[id := row];
    }

    method UpdateOps(id: Text, ops: Ops, retryCountInc: bool)
      modifies this`rows
      ensures rows == OpsUpdated(old(rows), id, ops, retryCountInc)
      ensures id in rows ==>
        && rows[id].retryCount == old(rows)[id].retryCount + (if retryCountInc then 1 else 0)
        && (Terminal(old(rows)[id].status) && !Terminal(rows[id].status) ==> retryCountInc && ops.status == Some(Repairing))
    {
      var retryCount := None;
      if retryCountInc {
        if id in rows {
          retryCount := Some(rows[id].retryCount + 1);
          rows := rows[id := rows[id].(retryCount := rows[id].retryCount + 1)];
        }
      }
      UpdateRunOps(id, ops, retryCount);
    }
  }

  // ----- any number of callers, one statement at a time -----

  datatype Call =
    | Insert(run: Identity, status: Status)
    | SetStatus(id: Text, to: Status)
    | SetOps(id: Text, ops: Ops, increments: bool)

  /** `Half` stands between the statements of `updateOps`, holding what the first returned. */
  datatype Pc = Ready | Half(retryCount: Option<int>) | Finished

  datatype Caller = Caller(call: Call, pc: Pc)

  datatype State = State(rows: Table, callers: seq<Caller>)

  function Act(rows: Table, c: Caller): (Table, Pc) {
    match c.pc
    case Ready =>
      (match c.call
       case Insert(run, status) =>
         (if WorkflowTaken(rows, run.workflowId) || run.id in rows then rows else rows[run.id := NewRow(run, status)], Finished)
       case SetStatus(id, to) => (StatusSet(rows, id, to), Finished)
       case SetOps(id, ops, increments) =>
         if increments then (Counted(rows, id), Half(CountedTo(rows, id))) else (Updated(rows, id, ops, None), Finished))
    case Half(retryCount) => (if c.call.SetOps? then Updated(rows, c.call.id, c.call.ops, retryCount) else rows, Finished)
    case Finished => (rows, Finished)
  }

  function Turn(s: State, i: nat): State
    requires i < |s.callers|
  {
    var (rows, pc) := Act(s.rows, s.callers[i]);
    State(rows, s.callers[i := s.callers[i].(pc := pc)])
  }

  /** A schedule of turns; a number that names no caller is skipped. */
  function Run(s: State, schedule: seq<nat>): State
    decreases |schedule|
  {
    if schedule == [] then s
    else if schedule[0] < |s.callers| then Run(Turn(s, schedule[0]), schedule[1..])
    else Run(s, schedule[1..])
  }

  // ----- what is counted along a schedule, for one run -----

  predicate Leaves(before: Table, after: Table, id: Text) {
    id in before && id in after && Terminal(before[id].status) && !Terminal(after[id].status)
  }

  /** How often the run leaves a terminal state. */
  function Departures(s: State, schedule: seq<nat>, id: Text): nat
    decreases |schedule|
  {
    if schedule == [] then 0
    else if schedule[0] < |s.callers| then
      var next := Turn(s, schedule[0]);
      (if Leaves(s.rows, next.rows, id) then 1 else 0) + Departures(next, schedule[1..], id)
    else Departures(s, schedule[1..], id)
  }

  predicate Increments(s: State, i: nat, id: Text)
    requires i < |s.callers|
  {
    var c := s.callers[i];
    c.pc.Ready? && c.call.SetOps? && c.call.increments && c.call.id == id && id in s.rows
  }

  /** How often its counter is incremented. */
  function Increment(s: State, schedule: seq<nat>, id: Text): nat
    decreases |schedule|
  {
    if schedule == [] then 0
    else if schedule[0] < |s.callers| then
      (if Increments(s, schedule[0], id) then 1 else 0) + Increment(Turn(s, schedule[0]), schedule[1..], id)
    else Increment(s, schedule[1..], id)
  }

  /** What a second statement takes off the counter by writing back a value others have moved past. */
  function Loss(s: State, i: nat, id: Text): int
    requires i < |s.callers|
  {
    var c := s.callers[i];
    if c.pc.Half? && c.pc.retryCount.Some? && c.call.SetOps? && c.call.id == id && id in s.rows
    then s.rows[id].retryCount - c.pc.retryCount.value else 0
  }

  function Lost(s: State, schedule: seq<nat>, id: Text): int
    decreases |schedule|
  {
    if schedule == [] then 0
    else if schedule[0] < |s.callers| then Loss(s, schedule[0], id) + Lost(Turn(s, schedule[0]), schedule[1..], id)
    else Lost(s, schedule[1..], id)
  }
}
