/** What holds of the ledger over every interleaving of any number of callers. */
module LedgerProofs {
  import opened JsonValues
  import opened HitlTopic
  import opened Ledger
  import opened Schedules

  // ----- the starting point -----

  ghost predicate UniqueKeys(rows: seq<Row>) {
    forall i, j :: 0 <= i < j < |rows| ==> rows[i].key != rows[j].key
  }

  /** What the services have checked before they write: a human topic is the gate's own. */
  predicate IsPost(r: Request) { HUMAN <= r.topic ==> ToHumanTopic(r.gateKey) == Some(r.topic) }

  /** `sendMessage` checks nothing. */
  predicate Starts(c: Caller) { c.pc == StartPc(c.request, c.kind) && (c.kind.Posts? ==> IsPost(c.request)) }

  ghost predicate Initial(s: State) {
    UniqueKeys(s.rows) && forall i :: 0 <= i < |s.callers| ==> Starts(s.callers[i])
  }

  // ----- what each caller remembers -----

  /** What the caller's ledger write returned, once it has. */
  function Outcome(pc: Pc): Option<Write> {
    match pc
    case Returned(write) => write
    case Sending(write) => write
    case Checking(pass) => OutcomeOf(pass)
    case Inserting(pass, _) => OutcomeOf(pass)
    case Reading(pass, _) => OutcomeOf(pass)
    case Threw(_, pass) => OutcomeOf(pass)
  }

  function OutcomeOf(pass: Pass): Option<Write> {
    match pass case Service => None case Engine(earlier) => earlier
  }

  predicate IsInserter(c: Caller) { Outcome(c.pc).Some? && Outcome(c.pc).value.inserted }

  /** The passes a caller of each kind makes. */
  predicate Makes(c: Caller, pass: Pass) {
    match c.kind
    case Records => pass.Service?
    case Posts => pass.Service? || (HUMAN <= c.request.topic && pass.earlier.Some?)
    case Sends => HUMAN <= c.request.topic && pass == Engine(None)
  }

  /** It sends, and has a row to write unless it posts past the ledger. */
  predicate MaySend(c: Caller) {
    !c.kind.Records? && (RowKey(c).Some? || (c.kind.Sends? && !(HUMAN <= c.request.topic)))
  }

  /** Before it sends or returns, a caller has its row, if it writes one. */
  predicate HasWritten(c: Caller, write: Option<Write>) {
    (RowKey(c).Some? <==> write.Some?) && (c.kind.Records? ==> write.Some?)
  }

  ghost predicate CallerOk(rows: seq<Row>, c: Caller) {
    && (c.kind.Posts? ==> IsPost(c.request))
    && (Outcome(c.pc).Some? ==>
        var row := Outcome(c.pc).value.row;
        && row in rows && RowKey(c) == Some(row.key) && row.payloadHash == c.request.payloadHash
        && (IsInserter(c) ==> row.payload == c.request.payload))
    && (match c.pc
        case Checking(pass) => Makes(c, pass)
        case Inserting(pass, key) => Makes(c, pass) && RowKey(c) == Some(key)
        case Reading(pass, key) => Makes(c, pass) && RowKey(c) == Some(key) && HasKey(rows, key)
        case Sending(write) => MaySend(c) && HasWritten(c, write)
        case Returned(write) => (c.kind.Records? || MaySend(c)) && HasWritten(c, write)
        case Threw(fault, pass) => !fault.LostRow? && Makes(c, pass))
  }

  /** The whole invariant, relative to the rows the run started with. */
  ghost predicate Inv(rows0: seq<Row>, s: State) {
    && rows0 <= s.rows && UniqueKeys(s.rows)
    && (forall i :: 0 <= i < |s.callers| ==> CallerOk(s.rows, s.callers[i]))
    && (forall i :: 0 <= i < |s.callers| && IsInserter(s.callers[i]) ==> !HasKey(rows0, Outcome(s.callers[i].pc).value.row.key))
    && (forall i, j :: 0 <= i < j < |s.callers| && IsInserter(s.callers[i]) && IsInserter(s.callers[j]) ==>
        Outcome(s.callers[i].pc).value.row.key != Outcome(s.callers[j].pc).value.row.key)
    && (forall k :: |rows0| <= k < |s.rows| ==> Inserted(s.callers, s.rows[k]))
  }

  ghost predicate Inserted(callers: seq<Caller>, row: Row) {
    exists i :: 0 <= i < |callers| && Outcome(callers[i].pc) == Some(Write(true, row))
  }

  // ----- one turn -----

  /** Every pass of a caller addresses one row. */
  lemma PassesAgree(c: Caller, pass: Pass)
    requires Makes(c, pass) && (c.kind.Posts? ==> IsPost(c.request))
    ensures KeyOf(PassRequest(c.request, pass)) == RowKey(c)
  {
    if c.kind.Posts? && pass.Engine? { HumanTopicCarriesGate(c.request.gateKey); }
  }

  lemma HasKeyGrows(rows: seq<Row>, more: seq<Row>, key: Key)
    requires HasKey(rows, key)
    ensures HasKey(rows + more, key)
  {
    var i :| 0 <= i < |rows| && rows[i].key == key;
    assert (rows + more)[i].key == key;
  }

  lemma CallerOkGrows(rows: seq<Row>, more: seq<Row>, c: Caller)
    requires CallerOk(rows, c)
    ensures CallerOk(rows + more, c)
  {
    match c.pc {
      case Reading(_, key) => HasKeyGrows(rows, more, key);
      case _ =>
    }
  }

  /** What one turn of a caller may do: keep the table, or add the row it then remembers. */
  ghost predicate GoodAct(rows: seq<Row>, c: Caller, rows': seq<Row>, pc': Pc) {
    && CallerOk(rows', c.(pc := pc'))
    && (Outcome(c.pc).Some? ==> Outcome(pc') == Outcome(c.pc))
    && if rows' == rows then IsInserter(c.(pc := pc')) ==> IsInserter(c)
       else Outcome(c.pc).None? && Adds(rows, rows', pc')
  }

  ghost predicate Adds(rows: seq<Row>, rows': seq<Row>, pc': Pc) {
    Outcome(pc').Some? && Outcome(pc').value.inserted && !HasKey(rows, Outcome(pc').value.row.key)
    && rows' == rows + [Outcome(pc').value.row]
  }

  lemma ActChecking(rows: seq<Row>, mail: Mail, c: Caller)
    requires CallerOk(rows, c) && c.pc.Checking?
    ensures GoodAct(rows, c, Act(rows, mail, c).0, Act(rows, mail, c).2)
  {
    PassesAgree(c, c.pc.pass);
  }

  lemma ActInserting(rows: seq<Row>, mail: Mail, c: Caller)
    requires CallerOk(rows, c) && c.pc.Inserting?
    ensures GoodAct(rows, c, Act(rows, mail, c).0, Act(rows, mail, c).2)
  {}

  lemma ActReading(rows: seq<Row>, mail: Mail, c: Caller)
    requires CallerOk(rows, c) && c.pc.Reading?
    ensures GoodAct(rows, c, Act(rows, mail, c).0, Act(rows, mail, c).2)
  {}

  lemma ActElse(rows: seq<Row>, mail: Mail, c: Caller)
    requires CallerOk(rows, c) && !c.pc.Inserting? && !c.pc.Reading? && !c.pc.Checking?
    ensures GoodAct(rows, c, Act(rows, mail, c).0, Act(rows, mail, c).2)
  {}

  lemma ActIsGood(rows: seq<Row>, mail: Mail, c: Caller)
    requires CallerOk(rows, c)
    ensures GoodAct(rows, c, Act(rows, mail, c).0, Act(rows, mail, c).2)
  {
    if c.pc.Checking? { ActChecking(rows, mail, c); }
    else if c.pc.Inserting? { ActInserting(rows, mail, c); }
    else if c.pc.Reading? { ActReading(rows, mail, c); }
    else { ActElse(rows, mail, c); }
  }

  lemma TurnKeepsInv(rows0: seq<Row>, s: State, i: nat)
    requires Inv(rows0, s) && i < |s.callers|
    ensures Inv(rows0, Turn(s, i)) && s.rows <= Turn(s, i).rows
  {
    var c := s.callers[i];
    var (rows', mail', pc') := Act(s.rows, s.mail, c);
    ActIsGood(s.rows, s.mail, c);
    var s' := Turn(s, i);
    if rows' != s.rows {
      AddKeepsInv(rows0, s, i, Outcome(pc').value.row);
    } else {
      forall k | |rows0| <= k < |s'.rows|
        ensures Inserted(s'.callers, s'.rows[k])
      {
        var j :| 0 <= j < |s.callers| && Outcome(s.callers[j].pc) == Some(Write(true, s.rows[k]));
        assert Outcome(s'.callers[j].pc) == Some(Write(true, s.rows[k]));
      }
    }
  }

  lemma AddKeepsInserters(rows0: seq<Row>, s: State, i: nat, row: Row)
    requires Inv(rows0, s) && i < |s.callers| && Turn(s, i).rows == s.rows + [row]
    requires Outcome(Act(s.rows, s.mail, s.callers[i]).2) == Some(Write(true, row)) && Outcome(s.callers[i].pc).None?
    ensures forall k :: |rows0| <= k <= |s.rows| ==> Inserted(Turn(s, i).callers, (s.rows + [row])[k])
  {
    var s' := Turn(s, i);
    forall k | |rows0| <= k <= |s.rows|
      ensures Inserted(s'.callers, (s.rows + [row])[k])
    {
      if k < |s.rows| {
        var j :| 0 <= j < |s.callers| && Outcome(s.callers[j].pc) == Some(Write(true, s.rows[k]));
        assert Outcome(s'.callers[j].pc) == Some(Write(true, s.rows[k]));
      } else {
        assert Outcome(s'.callers[i].pc) == Some(Write(true, row));
      }
    }
  }

  lemma AddKeepsInv(rows0: seq<Row>, s: State, i: nat, row: Row)
    requires Inv(rows0, s) && i < |s.callers|
    requires
      var pc' := Act(s.rows, s.mail, s.callers[i]).2;
      && GoodAct(s.rows, s.callers[i], s.rows + [row], pc') && Turn(s, i).rows == s.rows + [row]
      && Outcome(pc') == Some(Write(true, row)) && Outcome(s.callers[i].pc).None? && !HasKey(s.rows, row.key)
    ensures Inv(rows0, Turn(s, i))
  {
    var s' := Turn(s, i);
    forall j | 0 <= j < |s'.callers|
      ensures CallerOk(s'.rows, s'.callers[j])
    {
      if j != i { CallerOkGrows(s.rows, [row], s.callers[j]); }
    }
    forall j | 0 <= j < |s'.callers| && j != i && IsInserter(s'.callers[j])
      ensures Outcome(s'.callers[j].pc).value.row.key != row.key
    {
      assert s'.callers[j] == s.callers[j];
    }
    AddKeepsInserters(rows0, s, i, row);
    assert s.rows == rows0 + s.rows[|rows0|..];
    if HasKey(rows0, row.key) {
      HasKeyGrows(rows0, s.rows[|rows0|..], row.key);
    }
  }

  // ----- every run -----

  lemma {:induction false} RunKeepsInv(rows0: seq<Row>, s: State, schedule: seq<nat>)
    requires Inv(rows0, s)
    ensures Inv(rows0, Run(s, schedule)) && s.rows <= Run(s, schedule).rows
    decreases |schedule|
  {
    if schedule != [] {
      if schedule[0] < |s.callers| {
        TurnKeepsInv(rows0, s, schedule[0]);
        RunKeepsInv(rows0, Turn(s, schedule[0]), schedule[1..]);
      } else {
        RunKeepsInv(rows0, s, schedule[1..]);
      }
    }
  }

  lemma InitialInv(s: State)
    requires Initial(s)
    ensures Inv(s.rows, s)
  {}

  lemma {:induction false} RunKeepsRequests(s: State, schedule: seq<nat>)
    ensures |Run(s, schedule).callers| == |s.callers|
    ensures forall i :: 0 <= i < |s.callers| ==>
      Run(s, schedule).callers[i].request == s.callers[i].request && Run(s, schedule).callers[i].kind == s.callers[i].kind
    decreases |schedule|
  {
    if schedule != [] {
      RunKeepsRequests(if schedule[0] < |s.callers| then Turn(s, schedule[0]) else s, schedule[1..]);
    }
  }

  /** Rows are written once: a later table extends an earlier one, and keys stay unique. */
  lemma RowsAreWriteOnce(s: State, early: seq<nat>, late: seq<nat>)
    requires Initial(s)
    ensures Run(s, early).rows <= Run(Run(s, early), late).rows
    ensures UniqueKeys(Run(Run(s, early), late).rows)
  {
    InitialInv(s);
    RunKeepsInv(s.rows, s, early);
    RunKeepsInv(s.rows, Run(s, early), late);
  }

  /** The row is filed under the request's workflow, dedupe key and topic, a human topic in its gate's normal form. */
  predicate IsKeyOf(key: Key, r: Request) {
    && key.workflowId == r.workflowId && key.dedupeKey == r.dedupeKey
    && key.topic == if HUMAN <= r.topic then HUMAN + key.gateKey else r.topic
  }

  /** Whoever returns holds the stored row of its own key, with its own topic and payload hash;
      nobody loses the row between insert and read. */
  lemma ReturnsOwnRow(s: State, schedule: seq<nat>, i: nat)
    requires Initial(s) && i < |s.callers|
    ensures
      var end := Run(s, schedule);
      var c := s.callers[i];
      |end.callers| == |s.callers| &&
      match end.callers[i].pc
      case Returned(write) =>
        && (write.Some? <==> RowKey(c).Some?) && (write.None? ==> c.kind.Sends? && !(HUMAN <= c.request.topic))
        && (write.Some? ==>
            && write.value.row in end.rows && RowKey(c) == Some(write.value.row.key) && IsKeyOf(write.value.row.key, c.request)
            && write.value.row.payloadHash == c.request.payloadHash)
      case Threw(fault, _) => !fault.LostRow?
      case _ => true
  {
    InitialInv(s);
    RunKeepsInv(s.rows, s, schedule);
    RunKeepsRequests(s, schedule);
    assert CallerOk(Run(s, schedule).rows, Run(s, schedule).callers[i]);
  }

  /** Each row the run added was added by exactly one caller, and no caller claims to have added a
      row that was there before. */
  lemma OneInserterPerNewRow(s: State, schedule: seq<nat>)
    requires Initial(s)
    ensures
      var end := Run(s, schedule);
      && s.rows <= end.rows
      && (forall k :: |s.rows| <= k < |end.rows| ==> Inserted(end.callers, end.rows[k]))
      && (forall i, j :: 0 <= i < j < |end.callers| && IsInserter(end.callers[i]) && IsInserter(end.callers[j]) ==>
          Outcome(end.callers[i].pc).value.row.key != Outcome(end.callers[j].pc).value.row.key)
      && (forall i :: 0 <= i < |end.callers| && IsInserter(end.callers[i]) ==> !HasKey(s.rows, Outcome(end.callers[i].pc).value.row.key))
      && (forall i :: 0 <= i < |end.callers| && IsInserter(end.callers[i]) ==> Outcome(end.callers[i].pc).value.row.payload == end.callers[i].request.payload)
  {
    InitialInv(s);
    RunKeepsInv(s.rows, s, schedule);
  }

  lemma InserterOf(rows0: seq<Row>, end: State, k: nat) returns (i: nat)
    requires Inv(rows0, end) && |rows0| <= k < |end.rows|
    ensures i < |end.callers| && RowKey(end.callers[i]) == Some(end.rows[k].key)
  {
    assert Inserted(end.callers, end.rows[k]);
    i :| 0 <= i < |end.callers| && Outcome(end.callers[i].pc) == Some(Write(true, end.rows[k]));
    assert CallerOk(end.rows, end.callers[i]);
  }

  // ----- human topics: one row per workflow, gate and dedupe key -----

  ghost predicate HumanRows(rows: seq<Row>) {
    forall row :: row in rows && HUMAN <= row.key.topic ==> row.key.topic == HUMAN + row.key.gateKey
  }

  /** Among rows with human topics, workflow, gate and dedupe key alone identify the row. */
  lemma HumanSlotHasOneRow(s: State, schedule: seq<nat>, a: Row, b: Row)
    requires Initial(s) && HumanRows(s.rows)
    requires a in Run(s, schedule).rows && b in Run(s, schedule).rows
    requires HUMAN <= a.key.topic && HUMAN <= b.key.topic && SameSlot(a.key, b.key)
    ensures a == b
  {
    HumanRowsStay(s, schedule);
    InitialInv(s);
    RunKeepsInv(s.rows, s, schedule);
  }

  lemma HumanKey(c: Caller)
    requires RowKey(c).Some? && HUMAN <= RowKey(c).value.topic
    ensures RowKey(c).value.topic == HUMAN + RowKey(c).value.gateKey
  {}

  lemma HumanRowsStay(s: State, schedule: seq<nat>)
    requires Initial(s) && HumanRows(s.rows)
    ensures HumanRows(Run(s, schedule).rows)
  {
    InitialInv(s);
    RunKeepsInv(s.rows, s, schedule);
    var end := Run(s, schedule);
    forall row | row in end.rows && HUMAN <= row.key.topic
      ensures row.key.topic == HUMAN + row.key.gateKey
    {
      var k :| 0 <= k < |end.rows| && end.rows[k] == row;
      if k < |s.rows| {
        assert s.rows[k] == row;
      } else {
        var i := InserterOf(s.rows, end, k);
        HumanKey(end.callers[i]);
      }
    }
  }

  /** Two callers that only write to the ledger, about to start on an empty table. */
  function TwoWriters(a: Request, b: Request): State {
    State([], map[], [Caller(a, Records, Checking(Service)), Caller(b, Records, Checking(Service))])
  }

  lemma RacedBothStore(a: Request, b: Request)
    requires KeyOf(a).Some? && KeyOf(b).Some? && KeyOf(a) != KeyOf(b)
    ensures
      var raced := Run(TwoWriters(a, b), [0, 1, 0, 1]);
      && raced.callers[0].pc.Returned? && raced.callers[1].pc.Returned?
      && |raced.rows| == 2 && raced.rows[0].key == KeyOf(a).value && raced.rows[1].key == KeyOf(b).value
  {}

  /** Where one writer is done and the other about to start. */
  function FirstWrote(a: Request, b: Request): State
    requires KeyOf(a).Some?
  {
    var row := Row(KeyOf(a).value, a.payloadHash, a.payload);
    State([row], map[], [Caller(a, Records, Returned(Some(Write(true, row)))), Caller(b, Records, Checking(Service))])
  }

  lemma FirstWrites(a: Request, b: Request)
    requires KeyOf(a).Some?
    ensures Run(TwoWriters(a, b), [0, 0, 1, 1]) == Run(FirstWrote(a, b), [1, 1])
  {
    var s := TwoWriters(a, b);
    assert Latest([], KeyOf(a).value) == None;
    assert Turn(Turn(s, 0), 0) == FirstWrote(a, b);
    assert [0, 0, 1, 1][1..] == [0, 1, 1] && [0, 1, 1][1..] == [1, 1];
  }

  lemma OrderedConflicts(a: Request, b: Request)
    requires KeyOf(a).Some? && KeyOf(b).Some? && SameSlot(KeyOf(a).value, KeyOf(b).value) && KeyOf(a) != KeyOf(b)
    ensures
      var ordered := Run(TwoWriters(a, b), [0, 0, 1, 1]);
      |ordered.rows| == 1 && ordered.callers[1].pc == Threw(DedupeConflict, Service)
  {
    FirstWrites(a, b);
    SecondConflicts(FirstWrote(a, b), b);
    var t := Turn(FirstWrote(a, b), 1);
    assert Turn(t, 1) == t;
    assert [1, 1][1..] == [1] && [1][1..] == [];
  }

  lemma SecondConflicts(s: State, b: Request)
    requires |s.rows| == 1 && |s.callers| == 2 && s.callers[1] == Caller(b, Records, Checking(Service))
    requires KeyOf(b).Some? && SameSlot(s.rows[0].key, KeyOf(b).value) && s.rows[0].key != KeyOf(b).value
    ensures Turn(s, 1) == s.(callers := s.callers[1 := Caller(b, Records, Threw(DedupeConflict, Service))])
  {
    assert Latest(s.rows, KeyOf(b).value) == Some(s.rows[0]);
  }

  /** Off human topics the drift check can be raced: two callers that differ only in topic conflict
      when one follows the other, and both record a row when their statements interleave. */
  lemma TopicDriftCanBeRaced(a: Request, b: Request)
    requires KeyOf(a).Some? && KeyOf(b).Some?
    requires SameSlot(KeyOf(a).value, KeyOf(b).value) && KeyOf(a) != KeyOf(b)
    ensures
      var raced, ordered := Run(TwoWriters(a, b), [0, 1, 0, 1]), Run(TwoWriters(a, b), [0, 0, 1, 1]);
      && raced.callers[0].pc.Returned? && raced.callers[1].pc.Returned?
      && |raced.rows| == 2 && SameSlot(raced.rows[0].key, raced.rows[1].key)
      && |ordered.rows| == 1 && ordered.callers[1].pc == Threw(DedupeConflict, Service)
  {
    RacedBothStore(a, b);
    OrderedConflicts(a, b);
  }

  /** Two rows in one slot. */
  ghost predicate SharesSlot(rows: seq<Row>) {
    exists i, j :: 0 <= i < j < |rows| && SameSlot(rows[i].key, rows[j].key)
  }

  /** Some interleaving of two writers stores two rows in one slot exactly when the slots agree and the
      topics, as stored, do not. */
  lemma TwoRowsExactly(a: Request, b: Request)
    ensures (exists schedule :: SharesSlot(Run(TwoWriters(a, b), schedule).rows)) <==>
      KeyOf(a).Some? && KeyOf(b).Some? && SameSlot(KeyOf(a).value, KeyOf(b).value) && KeyOf(a).value.topic != KeyOf(b).value.topic
  {
    if schedule :| SharesSlot(Run(TwoWriters(a, b), schedule).rows) { SharedSlotIsBoth(a, b, schedule); }
    if KeyOf(a).Some? && KeyOf(b).Some? && SameSlot(KeyOf(a).value, KeyOf(b).value) && KeyOf(a).value.topic != KeyOf(b).value.topic {
      RacedBothStore(a, b);
      assert SharesSlot(Run(TwoWriters(a, b), [0, 1, 0, 1]).rows);
    }
  }

  lemma SharedSlotIsBoth(a: Request, b: Request, schedule: seq<nat>)
    requires SharesSlot(Run(TwoWriters(a, b), schedule).rows)
    ensures KeyOf(a).Some? && KeyOf(b).Some? && SameSlot(KeyOf(a).value, KeyOf(b).value) && KeyOf(a).value.topic != KeyOf(b).value.topic
  {
    var s := TwoWriters(a, b);
    var rows := Run(s, schedule).rows;
    var i, j :| 0 <= i < j < |rows| && SameSlot(rows[i].key, rows[j].key);
    var k := WriterOf(s, schedule, i);
    var l := WriterOf(s, schedule, j);
    RowsAreWriteOnce(s, schedule, []);
    KeysOfBoth(a, b, rows[i].key, rows[j].key, s.callers[k].request, s.callers[l].request);
  }

  /** From an empty ledger, every row is some caller's. */
  lemma WriterOf(s: State, schedule: seq<nat>, i: nat) returns (k: nat)
    requires Initial(s) && s.rows == [] && i < |Run(s, schedule).rows|
    ensures k < |s.callers| && RowKey(s.callers[k]) == Some(Run(s, schedule).rows[i].key)
  {
    InitialInv(s);
    RunKeepsInv([], s, schedule);
    RunKeepsRequests(s, schedule);
    k := InserterOf([], Run(s, schedule), i);
  }

  lemma KeysOfBoth(a: Request, b: Request, x: Key, y: Key, r: Request, t: Request)
    requires x != y && SameSlot(x, y) && (r == a || r == b) && (t == a || t == b) && KeyOf(r) == Some(x) && KeyOf(t) == Some(y)
    ensures KeyOf(a).Some? && KeyOf(b).Some? && SameSlot(KeyOf(a).value, KeyOf(b).value) && KeyOf(a).value.topic != KeyOf(b).value.topic
  {}

  // ----- progress -----

  predicate IsDone(c: Caller) { c.pc.Returned? || c.pc.Threw? }

  function TurnsLeft(pc: Pc): nat {
    match pc
    case Checking(pass) => if pass.Service? then 7 else 4
    case Inserting(pass, _) => if pass.Service? then 6 else 3
    case Reading(pass, _) => if pass.Service? then 5 else 2
    case Sending(_) => 1
    case _ => 0
  }

  function Sub(a: nat, b: nat): nat { if a < b then 0 else a - b }

  lemma ActUsesATurn(rows: seq<Row>, mail: Mail, c: Caller)
    requires CallerOk(rows, c)
    ensures TurnsLeft(Act(rows, mail, c).2) <= Sub(TurnsLeft(c.pc), 1)
  {}

  lemma {:induction false} TurnsRunOut(rows0: seq<Row>, s: State, schedule: seq<nat>, i: nat)
    requires Inv(rows0, s) && i < |s.callers|
    ensures |Run(s, schedule).callers| == |s.callers|
    ensures TurnsLeft(Run(s, schedule).callers[i].pc) <= Sub(TurnsLeft(s.callers[i].pc), TurnsOf(schedule, i))
    decreases |schedule|
  {
    if schedule != [] {
      if schedule[0] < |s.callers| {
        TurnKeepsInv(rows0, s, schedule[0]);
        ActUsesATurn(s.rows, s.mail, s.callers[schedule[0]]);
        TurnsRunOut(rows0, Turn(s, schedule[0]), schedule[1..], i);
      } else {
        TurnsRunOut(rows0, s, schedule[1..], i);
      }
    }
  }

  /** No caller waits for another: seven turns of its own finish any caller. */
  lemma SevenTurnsFinish(s: State, schedule: seq<nat>, i: nat)
    requires Initial(s) && i < |s.callers| && TurnsOf(schedule, i) >= 7
    ensures |Run(s, schedule).callers| == |s.callers| && IsDone(Run(s, schedule).callers[i])
  {
    InitialInv(s);
    TurnsRunOut(s.rows, s, schedule, i);
  }
}
