/** The human-interaction ledger and the sends behind it: any number of callers posting replies and events
    or sending past the services, one SQL statement (or one keyed send) per step, in any interleaving. */
module Ledger {
  import opened JsText
  import opened JsonValues
  import opened HitlTopic

  datatype Key = Key(workflowId: Text, gateKey: Text, topic: Text, dedupeKey: Text)

  /** A row of `app.human_interactions`; the table is in insertion order. */
  datatype Row = Row(key: Key, payloadHash: Text, payload: Text)

  datatype Request = Request(workflowId: Text, gateKey: Text, topic: Text, dedupeKey: Text, payloadHash: Text, payload: Text)

  datatype Message = Message(topic: Text, payload: Text)

  /** What a ledger write returned. */
  datatype Write = Write(inserted: bool, row: Row)

  /** A service's own ledger write, and the one inside `sendMessage`, which remembers what an earlier one
      returned. */
  datatype Pass = Service | Engine(earlier: Option<Write>)

  datatype Fault = InvalidGateKey | DedupeConflict | LostRow

  /** Where a caller stands: before each statement, or done. */
  datatype Pc =
    | Checking(pass: Pass)
    | Inserting(pass: Pass, key: Key)
    | Reading(pass: Pass, key: Key)
    | Sending(write: Option<Write>)
    | Returned(write: Option<Write>)
    | Threw(fault: Fault, pass: Pass)

  /** A ledger write on its own; a service that writes and then sends, as `postReplyService` and
      `postExternalEventService` do; `sendMessage` on its own, as behind the legacy endpoints. */
  datatype Kind = Records | Posts | Sends

  datatype Caller = Caller(request: Request, kind: Kind, pc: Pc)

  /** Messages are keyed by workflow and dedupe key: a second keyed send has no effect. */
  type Mail = map<(Text, Text), Message>

  datatype State = State(rows: seq<Row>, mail: Mail, callers: seq<Caller>)

  // ----- what one statement sees and does -----

  /** The unique key the row of a request has; `None` where normalization throws. */
  function KeyOf(r: Request): Option<Key> {
    match NormalizeGateKey(r.gateKey)
    case None => None
    case Some(gate) =>
      Some(Key(r.workflowId, gate, if HUMAN <= r.topic then HUMAN + gate else r.topic, r.dedupeKey))
  }

  /** `sendMessage` recovers the gate from the topic. */
  function PassRequest(r: Request, pass: Pass): Request {
    if pass.Service? || |r.topic| < 6 then r else r.(gateKey := r.topic[6..])
  }

  /** The unique key of the row a caller writes; `None` if it writes none. */
  function RowKey(c: Caller): Option<Key> {
    if !c.kind.Sends? then KeyOf(c.request)
    else if HUMAN <= c.request.topic then KeyOf(PassRequest(c.request, Engine(None)))
    else None
  }

  predicate HasKey(rows: seq<Row>, key: Key) { exists i :: 0 <= i < |rows| && rows[i].key == key }

  function Find(rows: seq<Row>, key: Key): (r: Option<Row>)
    ensures r.Some? <==> HasKey(rows, key)
    ensures r.Some? ==> r.value in rows && r.value.key == key
  {
    if rows == [] then None
    else if rows[0].key == key then Some(rows[0])
    else
      assert forall i :: 1 <= i < |rows| ==> rows[i] == rows[1..][i - 1];
      Find(rows[1..], key)
  }

  predicate SameSlot(a: Key, b: Key) { a.workflowId == b.workflowId && a.gateKey == b.gateKey && a.dedupeKey == b.dedupeKey }

  /** The drift check's `ORDER BY created_at DESC LIMIT 1`: topic is not part of its key. */
  function Latest(rows: seq<Row>, key: Key): (r: Option<Row>)
    ensures r.Some? ==> r.value in rows && SameSlot(r.value.key, key)
    ensures r.None? ==> forall row :: row in rows ==> !SameSlot(row.key, key)
  {
    if rows == [] then None
    else
      var last := rows[|rows| - 1];
      if SameSlot(last.key, key) then Some(last) else Latest(rows[..|rows| - 1], key)
  }

  predicate Drifts(row: Row, key: Key, payloadHash: Text) { row.key.topic != key.topic || row.payloadHash != payloadHash }

  /** Where `sendMessage` starts: only human topics go through the ledger. */
  function SendPc(r: Request, earlier: Option<Write>): Pc {
    if HUMAN <= r.topic then Checking(Engine(earlier)) else Sending(earlier)
  }

  function StartPc(r: Request, kind: Kind): Pc { if kind.Sends? then SendPc(r, None) else Checking(Service) }

  /** The caller's next statement once a ledger pass has its row. */
  function AfterPass(c: Caller, pass: Pass, write: Write): Pc {
    match pass
    case Service => if c.kind.Posts? then SendPc(c.request, Some(write)) else Returned(Some(write))
    case Engine(earlier) => Sending(if earlier.Some? then earlier else Some(write))
  }

  /** One statement of one caller: the table and the mail after it, and where the caller stands. */
  function Act(rows: seq<Row>, mail: Mail, c: Caller): (seq<Row>, Mail, Pc) {
    match c.pc
    case Checking(pass) =>
      (match KeyOf(PassRequest(c.request, pass))
       case None => (rows, mail, Threw(InvalidGateKey, pass))
       case Some(key) =>
         match Latest(rows, key)
         case Some(row) =>
           (rows, mail, if Drifts(row, key, c.request.payloadHash) then Threw(DedupeConflict, pass) else Inserting(pass, key))
         case None => (rows, mail, Inserting(pass, key)))
    case Inserting(pass, key) =>
      var row := Row(key, c.request.payloadHash, c.request.payload);
      if HasKey(rows, key) then (rows, mail, Reading(pass, key))
      else (rows + [row], mail, AfterPass(c, pass, Write(true, row)))
    case Reading(pass, key) =>
      (match Find(rows, key)
       case None => (rows, mail, Threw(LostRow, pass))
       case Some(row) =>
         (rows, mail, if Drifts(row, key, c.request.payloadHash) then Threw(DedupeConflict, pass) else AfterPass(c, pass, Write(false, row))))
    case Sending(write) =>
      var slot := (c.request.workflowId, c.request.dedupeKey);
      (rows, if slot in mail then mail else mail[slot := Message(c.request.topic, c.request.payload)], Returned(write))
    case _ => (rows, mail, c.pc)
  }

  function Turn(s: State, i: nat): State
    requires i < |s.callers|
  {
    var (rows, mail, pc) := Act(s.rows, s.mail, s.callers[i]);
    State(rows, mail, s.callers[i := s.callers[i].(pc := pc)])
  }

  /** Any interleaving is a schedule of turns. */
  function Run(s: State, schedule: seq<nat>): State
    decreases |schedule|
  {
    if schedule == [] then s
    else if schedule[0] < |s.callers| then Run(Turn(s, schedule[0]), schedule[1..])
    else Run(s, schedule[1..])
  }

  // ----- the same, as statements on tables -----

  class Service {
    var rows: seq<Row>
    var mail: Mail
    var callers: seq<Caller>

    ghost function Snapshot(): State
      reads this
    {
      State(rows, mail, callers)
    }

    constructor (rows: seq<Row>, mail: Mail, callers: seq<Caller>)
      ensures Snapshot() == State(rows, mail, callers)
    {
      this.rows, this.mail, this.callers := rows, mail, callers;
    }

    method SelectLatest(key: Key) returns (row: Option<Row>)
      ensures row == Latest(rows, key)
    {
      var i := |rows|;
      assert rows[..|rows|] == rows;
      while i > 0
        invariant 0 <= i <= |rows| && Latest(rows, key) == Latest(rows[..i], key)
      {
        assert rows[..i][..i - 1] == rows[..i - 1];
        i := i - 1;
        if SameSlot(rows[i].key, key) { return Some(rows[i]); }
      }
      return None;
    }

    method InsertOnConflictDoNothing(row: Row) returns (inserted: bool)
      modifies this`rows
      ensures inserted <==> !HasKey(old(rows), row.key)
      ensures rows == if inserted then old(rows) + [row] else old(rows)
    {
      inserted := !HasKey(rows, row.key);
      if inserted { rows := rows + [row]; }
    }

    method Send(workflowId: Text, message: Message, dedupeKey: Text)
      modifies this`mail
      ensures mail == if (workflowId, dedupeKey) in old(mail) then old(mail) else old(mail)[(workflowId, dedupeKey) := message]
    {
      if (workflowId, dedupeKey) !in mail { mail := mail[(workflowId, dedupeKey) := message]; }
    }

    method TakeTurn(i: nat)
      requires i < |callers|
      modifies this
      ensures Snapshot() == Turn(old(Snapshot()), i)
    {
      var c := callers[i];
      var pc := c.pc;
      match c.pc {
        case Checking(pass) =>
          var key := KeyOf(PassRequest(c.request, pass));
          if key.None? {
            pc := Threw(InvalidGateKey, pass);
          } else {
            var row := SelectLatest(key.value);
            if row.Some? && Drifts(row.value, key.value, c.request.payloadHash) {
              pc := Threw(DedupeConflict, pass);
            } else {
              pc := Inserting(pass, key.value);
            }
          }
        case Inserting(pass, key) =>
          var row := Row(key, c.request.payloadHash, c.request.payload);
          var inserted := InsertOnConflictDoNothing(row);
          pc := if inserted then AfterPass(c, pass, Write(true, row)) else Reading(pass, key);
        case Reading(pass, key) =>
          var existing := Find(rows, key);
          if existing.None? {
            pc := Threw(LostRow, pass);
          } else if Drifts(existing.value, key, c.request.payloadHash) {
            pc := Threw(DedupeConflict, pass);
          } else {
            pc := AfterPass(c, pass, Write(false, existing.value));
          }
        case Sending(write) =>
          Send(c.request.workflowId, Message(c.request.topic, c.request.payload), c.request.dedupeKey);
          pc := Returned(write);
        case _ =>
      }
      callers := callers[i := c.(pc := pc)];
    }

    method TakeTurns(schedule: seq<nat>)
      modifies this
      ensures Snapshot() == Run(old(Snapshot()), schedule)
    {
      for k := 0 to |schedule|
        invariant Run(Snapshot(), schedule[k..]) == Run(old(Snapshot()), schedule)
      {
        assert schedule[k..][1..] == schedule[k + 1..];
        if schedule[k] < |callers| { TakeTurn(schedule[k]); }
      }
    }
  }
}
