/** Which message reaches the workflow: messages are keyed by workflow and dedupe key alone, rows by gate
    and topic besides. */
module LedgerDelivery {
  import opened JsText
  import opened JsonValues
  import opened HitlTopic
  import opened Ledger
  import opened LedgerProofs
  import opened Schedules

  function Slot(r: Request): (Text, Text) { (r.workflowId, r.dedupeKey) }

  function MessageOf(r: Request): Message { Message(r.topic, r.payload) }

  // ----- what is in the mail -----

  /** Who first sends under the slot, if the schedule gets anyone that far. */
  function FirstSender(s: State, schedule: seq<nat>, slot: (Text, Text)): (f: Option<nat>)
    ensures f.Some? ==> f.value < |s.callers| && Slot(s.callers[f.value].request) == slot
    decreases |schedule|
  {
    if schedule == [] then None
    else if schedule[0] >= |s.callers| then FirstSender(s, schedule[1..], slot)
    else if s.callers[schedule[0]].pc.Sending? && Slot(s.callers[schedule[0]].request) == slot then Some(schedule[0])
    else
      var f := FirstSender(Turn(s, schedule[0]), schedule[1..], slot);
      assert forall i :: 0 <= i < |s.callers| ==> Turn(s, schedule[0]).callers[i].request == s.callers[i].request;
      f
  }

  /** The mail keeps what was there, and otherwise what the first sender under the slot sent. */
  lemma {:induction false} MailHoldsFirstSent(s: State, schedule: seq<nat>, slot: (Text, Text))
    ensures
      var end, f := Run(s, schedule), FirstSender(s, schedule, slot);
      if slot in s.mail then slot in end.mail && end.mail[slot] == s.mail[slot]
      else if f.Some? then slot in end.mail && end.mail[slot] == MessageOf(s.callers[f.value].request)
      else slot !in end.mail
    decreases |schedule|
  {
    if schedule != [] {
      if schedule[0] < |s.callers| {
        MailHoldsFirstSent(Turn(s, schedule[0]), schedule[1..], slot);
        assert forall i :: 0 <= i < |s.callers| ==> Turn(s, schedule[0]).callers[i].request == s.callers[i].request;
      } else {
        MailHoldsFirstSent(s, schedule[1..], slot);
      }
    }
  }

  ghost predicate SendersDelivered(s: State) {
    forall i :: 0 <= i < |s.callers| && !s.callers[i].kind.Records? && s.callers[i].pc.Returned? ==> Slot(s.callers[i].request) in s.mail
  }

  lemma {:induction false} ReturnedIsSent(rows0: seq<Row>, s: State, schedule: seq<nat>)
    requires Inv(rows0, s) && SendersDelivered(s)
    ensures SendersDelivered(Run(s, schedule))
    decreases |schedule|
  {
    if schedule != [] {
      if schedule[0] < |s.callers| {
        TurnKeepsInv(rows0, s, schedule[0]);
        TurnDelivers(s, schedule[0]);
        ReturnedIsSent(rows0, Turn(s, schedule[0]), schedule[1..]);
      } else {
        ReturnedIsSent(rows0, s, schedule[1..]);
      }
    }
  }

  lemma TurnDelivers(s: State, i: nat)
    requires i < |s.callers| && CallerOk(s.rows, s.callers[i]) && SendersDelivered(s)
    ensures SendersDelivered(Turn(s, i))
  {
    var c := s.callers[i];
    var (rows', mail', pc') := Act(s.rows, s.mail, c);
    assert forall slot :: slot in s.mail ==> slot in mail';
  }

  /** Whoever returns from sending finds a message under its keys, and it is its own exactly when the
      first to send under them sent the same. */
  lemma DeliveredExactly(s: State, schedule: seq<nat>, i: nat)
    requires Initial(s) && i < |s.callers| && !s.callers[i].kind.Records?
    ensures
      var end, r := Run(s, schedule), s.callers[i].request;
      |end.callers| == |s.callers| &&
      (end.callers[i].pc.Returned? ==>
        && Slot(r) in end.mail
        && (end.mail[Slot(r)] == MessageOf(r) <==>
            if Slot(r) in s.mail then s.mail[Slot(r)] == MessageOf(r)
            else FirstSender(s, schedule, Slot(r)).Some? &&
                 MessageOf(s.callers[FirstSender(s, schedule, Slot(r)).value].request) == MessageOf(r)))
  {
    InitialInv(s);
    ReturnedIsSent(s.rows, s, schedule);
    RunKeepsRequests(s, schedule);
    MailHoldsFirstSent(s, schedule, Slot(s.callers[i].request));
  }

  // ----- one caller on its own -----

  /** What is stored does not refuse the caller: no other payload under its key, and the row its next
      drift check meets, if one comes, is its own. */
  predicate Unrefused(rows: seq<Row>, c: Caller) {
    match RowKey(c)
    case None => true
    case Some(key) =>
      && (Find(rows, key).Some? ==> Find(rows, key).value.payloadHash == c.request.payloadHash)
      && ((c.pc.Inserting? && !HasKey(rows, key)) ||
          (Latest(rows, key).Some? ==> !Drifts(Latest(rows, key).value, key, c.request.payloadHash)))
  }

  /** Neither throws nor will be refused: it writes a valid key or none at all. */
  predicate Proceeds(rows: seq<Row>, c: Caller) {
    !c.pc.Threw? && Unrefused(rows, c) && MaySend(c)
  }

  lemma {:induction false} FindsNewRow(rows: seq<Row>, row: Row)
    requires !HasKey(rows, row.key)
    ensures Find(rows + [row], row.key) == Some(row)
  {
    if rows != [] {
      assert (rows + [row])[1..] == rows[1..] + [row];
      assert forall k :: 0 <= k < |rows[1..]| ==> rows[1..][k] == rows[k + 1];
      FindsNewRow(rows[1..], row);
    }
  }

  lemma OwnTurnProceeds(rows: seq<Row>, mail: Mail, c: Caller)
    requires CallerOk(rows, c) && Proceeds(rows, c)
    ensures var (rows', _, pc') := Act(rows, mail, c); Proceeds(rows', c.(pc := pc'))
  {
    match c.pc {
      case Checking(pass) => PassesAgree(c, pass);
      case Inserting(_, key) =>
        if !HasKey(rows, key) {
          var row := Row(key, c.request.payloadHash, c.request.payload);
          FindsNewRow(rows, row);
          assert Latest(rows + [row], key) == Some(row);
        }
      case _ =>
    }
  }

  /** Alone, whoever is not refused returns. */
  lemma {:induction false} AloneProceeds(rows0: seq<Row>, s: State, i: nat, n: nat)
    requires Inv(rows0, s) && i < |s.callers| && Proceeds(s.rows, s.callers[i])
    ensures var end := Run(s, Turns(i, n)); Inv(rows0, end) && |end.callers| == |s.callers| && Proceeds(end.rows, end.callers[i])
    ensures forall j :: 0 <= j < |s.callers| && j != i ==> Run(s, Turns(i, n)).callers[j] == s.callers[j]
    ensures forall row :: row in Run(s, Turns(i, n)).rows && row !in s.rows ==> IsRowOf(row, s.callers[i])
    decreases n
  {
    if n > 0 {
      TurnKeepsInv(rows0, s, i);
      OwnTurnProceeds(s.rows, s.mail, s.callers[i]);
      AloneProceeds(rows0, Turn(s, i), i, n - 1);
      OwnTurnAddsOwn(s.rows, s.mail, s.callers[i]);
    }
  }

  lemma OwnTurnAddsOwn(rows: seq<Row>, mail: Mail, c: Caller)
    requires CallerOk(rows, c)
    ensures forall row :: row in Act(rows, mail, c).0 && row !in rows ==> IsRowOf(row, c)
  {}

  predicate IsRowOf(row: Row, c: Caller) { RowKey(c) == Some(row.key) && row.payloadHash == c.request.payloadHash }

  function Turns(i: nat, n: nat): (schedule: seq<nat>)
    ensures TurnsOf(schedule, i) == n
    ensures forall j :: j in schedule ==> j == i
  {
    if n == 0 then [] else
      var rest := Turns(i, n - 1);
      assert ([i] + rest)[1..] == rest;
      [i] + rest
  }

  lemma {:induction false} RunConcat(s: State, early: seq<nat>, late: seq<nat>)
    ensures Run(s, early + late) == Run(Run(s, early), late)
    decreases |early|
  {
    if early == [] {
      assert early + late == late;
    } else {
      assert (early + late)[1..] == early[1..] + late;
      RunConcat(if early[0] < |s.callers| then Turn(s, early[0]) else s, early[1..], late);
    }
  }

  /** Seven turns alone: the caller returns, its message is in the mail if none was before, and nobody
      else has moved. */
  lemma SendsAlone(rows0: seq<Row>, s: State, i: nat)
    requires Inv(rows0, s) && SendersDelivered(s) && i < |s.callers| && Proceeds(s.rows, s.callers[i]) && !s.callers[i].pc.Returned?
    ensures
      var end, slot := Run(s, Turns(i, 7)), Slot(s.callers[i].request);
      && Inv(rows0, end) && SendersDelivered(end) && |end.callers| == |s.callers|
      && end.callers[i].pc.Returned? && (forall j :: 0 <= j < |s.callers| && j != i ==> end.callers[j] == s.callers[j])
      && end.mail == (if slot in s.mail then s.mail else s.mail[slot := MessageOf(s.callers[i].request)])
      && (forall row :: row in end.rows && row !in s.rows ==> IsRowOf(row, s.callers[i]))
  {
    var end := Run(s, Turns(i, 7));
    AloneProceeds(rows0, s, i, 7);
    TurnsRunOut(rows0, s, Turns(i, 7), i);
    ReturnedIsSent(rows0, s, Turns(i, 7));
    RunKeepsRequests(s, Turns(i, 7));
    AloneMails(s, i, 7);
  }

  /** A turn can only send its caller's own message. */
  lemma TurnMails(s: State, i: nat)
    requires i < |s.callers|
    ensures
      var slot, mail := Slot(s.callers[i].request), Turn(s, i).mail;
      mail == s.mail || (slot !in s.mail && mail == s.mail[slot := MessageOf(s.callers[i].request)])
    ensures |Turn(s, i).callers| == |s.callers| && Turn(s, i).callers[i].request == s.callers[i].request
  {}

  /** Alone, a caller can only send its own message. */
  lemma {:induction false} AloneMails(s: State, i: nat, n: nat)
    requires i < |s.callers|
    ensures
      var slot := Slot(s.callers[i].request);
      Run(s, Turns(i, n)).mail == s.mail ||
      (slot !in s.mail && Run(s, Turns(i, n)).mail == s.mail[slot := MessageOf(s.callers[i].request)])
    decreases n
  {
    if n > 0 {
      TurnMails(s, i);
      AloneMails(Turn(s, i), i, n - 1);
    }
  }

  // ----- two senders under one workflow and dedupe key -----

  /** The row of one is no obstacle to the other. */
  predicate LetsPass(first: Caller, second: Caller) {
    match (RowKey(first), RowKey(second))
    case (Some(k), Some(l)) =>
      if k == l then first.request.payloadHash == second.request.payloadHash else second.pc.Inserting? || !SameSlot(k, l)
    case _ => true
  }

  /** Both return, one after the other, and only the first one's message is in the mail. */
  lemma OnlyFirstIsMailed(s: State, i: nat, j: nat)
    requires Inv([], s) && SendersDelivered(s) && s.rows == [] && s.mail == map[] && i < |s.callers| && j < |s.callers| && i != j
    requires Proceeds([], s.callers[i]) && Proceeds([], s.callers[j]) && LetsPass(s.callers[i], s.callers[j])
    requires !s.callers[i].pc.Returned? && !s.callers[j].pc.Returned?
    requires Slot(s.callers[i].request) == Slot(s.callers[j].request)
    ensures
      var end := Run(s, Turns(i, 7) + Turns(j, 7));
      && Inv([], end) && |end.callers| == |s.callers| && end.callers[i].pc.Returned? && end.callers[j].pc.Returned?
      && end.mail == map[Slot(s.callers[i].request) := MessageOf(s.callers[i].request)]
      && (forall row :: row in end.rows ==> IsRowOf(row, s.callers[i]) || IsRowOf(row, s.callers[j]))
  {
    RunConcat(s, Turns(i, 7), Turns(j, 7));
    SendsAlone([], s, i);
    var t := Run(s, Turns(i, 7));
    assert Unrefused(t.rows, s.callers[j]);
    SendsAlone([], t, j);
  }

  lemma EmptyRefusesNobody(c: Caller)
    requires Starts(c) && MaySend(c)
    ensures Proceeds([], c) && !c.pc.Returned?
  {}

  /** One drift check on an empty ledger. */
  lemma ChecksFirst(s: State, j: nat)
    requires Initial(s) && s.rows == [] && s.mail == map[] && j < |s.callers| && MaySend(s.callers[j]) && RowKey(s.callers[j]).Some?
    ensures
      var t := Turn(s, j);
      && Inv([], t) && SendersDelivered(t) && t.rows == [] && t.mail == map[]
      && t.callers[j].pc.Inserting? && Proceeds([], t.callers[j])
      && t == State([], map[], s.callers[j := s.callers[j].(pc := t.callers[j].pc)])
  {
    InitialInv(s);
    TurnKeepsInv([], s, j);
    EmptyRefusesNobody(s.callers[j]);
    OwnTurnProceeds([], map[], s.callers[j]);
    PassesAgree(s.callers[j], s.callers[j].pc.pass);
  }

  /** Two services' callers, about to write to an empty ledger. */
  function TwoPosts(a: Request, b: Request): State {
    State([], map[], [Caller(a, Posts, Checking(Service)), Caller(b, Posts, Checking(Service))])
  }

  /** Both were told that their row is new, and both rows are stored. */
  ghost predicate BothRecorded(end: State) {
    && |end.callers| == 2 && |end.rows| == 2
    && end.callers[0].pc.Returned? && IsInserter(end.callers[0])
    && end.callers[1].pc.Returned? && IsInserter(end.callers[1])
  }

  lemma TwoKeysTwoRows(end: State)
    requires Inv([], end) && |end.callers| == 2 && end.callers[0].pc.Returned? && end.callers[1].pc.Returned?
    requires RowKey(end.callers[0]).Some? && RowKey(end.callers[1]).Some? && RowKey(end.callers[0]) != RowKey(end.callers[1])
    requires forall row :: row in end.rows ==> IsRowOf(row, end.callers[0]) || IsRowOf(row, end.callers[1])
    ensures BothRecorded(end)
  {
    var a, b := end.callers[0], end.callers[1];
    assert CallerOk(end.rows, a) && CallerOk(end.rows, b);
    TwoRows(end.rows, RowKey(a).value, RowKey(b).value, Outcome(a.pc).value.row, Outcome(b.pc).value.row);
    IsOwnInserter(end, 0);
    IsOwnInserter(end, 1);
  }

  lemma TwoRows(rows: seq<Row>, k: Key, l: Key, x: Row, y: Row)
    requires UniqueKeys(rows) && k != l && forall row :: row in rows ==> row.key == k || row.key == l
    requires x in rows && x.key == k && y in rows && y.key == l
    ensures |rows| == 2
  {
    if |rows| > 2 { ThreeShareTwo(rows, k, l); }
  }

  lemma ThreeShareTwo(rows: seq<Row>, k: Key, l: Key)
    requires |rows| > 2 && forall row :: row in rows ==> row.key == k || row.key == l
    ensures !UniqueKeys(rows)
  {
    var x, y, z := rows[0], rows[1], rows[2];
    assert x.key == y.key || x.key == z.key || y.key == z.key;
  }

  /** Nobody else can have inserted the row of the only caller with its key. */
  lemma IsOwnInserter(end: State, i: nat)
    requires Inv([], end) && i < |end.callers| && Outcome(end.callers[i].pc).Some?
    requires forall j :: 0 <= j < |end.callers| && j != i ==> RowKey(end.callers[j]) != RowKey(end.callers[i])
    ensures IsInserter(end.callers[i])
  {
    assert CallerOk(end.rows, end.callers[i]);
    var row := Outcome(end.callers[i].pc).value.row;
    var k :| 0 <= k < |end.rows| && end.rows[k] == row;
    assert Inserted(end.callers, end.rows[k]);
    var j :| 0 <= j < |end.callers| && Outcome(end.callers[j].pc) == Some(Write(true, row));
    assert CallerOk(end.rows, end.callers[j]);
  }

  /** Two posts to different gates of a workflow under one dedupe key: both are recorded, both callers
      are told so, and the second is never delivered. */
  lemma CrossGatePostIsLost(a: Request, b: Request)
    requires IsPost(a) && IsPost(b) && KeyOf(a).Some? && KeyOf(b).Some?
    requires Slot(a) == Slot(b) && KeyOf(a).value.gateKey != KeyOf(b).value.gateKey
    ensures
      var end := Run(TwoPosts(a, b), Turns(0, 7) + Turns(1, 7));
      BothRecorded(end) && end.mail == map[Slot(a) := MessageOf(a)] && Slot(b) == Slot(a)
  {
    var s := TwoPosts(a, b);
    InitialInv(s);
    EmptyRefusesNobody(s.callers[0]);
    EmptyRefusesNobody(s.callers[1]);
    BothThenRun(s, Turns(0, 7) + Turns(1, 7));
  }

  /** The same on one gate, for two topics, as when an event and a reply use one dedupe key: `b` checks
      for drift before `a` writes, and inserts after it. */
  lemma RacedPostIsLost(a: Request, b: Request)
    requires IsPost(a) && IsPost(b) && KeyOf(a).Some? && KeyOf(b).Some?
    requires SameSlot(KeyOf(a).value, KeyOf(b).value) && KeyOf(a).value.topic != KeyOf(b).value.topic
    ensures
      var end := Run(TwoPosts(a, b), [1] + (Turns(0, 7) + Turns(1, 7)));
      BothRecorded(end) && end.mail == map[Slot(a) := MessageOf(a)] && Slot(b) == Slot(a)
  {
    var s := TwoPosts(a, b);
    InitialInv(s);
    EmptyRefusesNobody(s.callers[0]);
    EmptyRefusesNobody(s.callers[1]);
    ChecksFirst(s, 1);
    BothThenRun(Turn(s, 1), Turns(0, 7) + Turns(1, 7));
    OneTurn(s, 1, Turn(s, 1), Turns(0, 7) + Turns(1, 7));
  }

  /** One after the other, from here on. */
  lemma BothThenRun(t: State, rest: seq<nat>)
    requires Inv([], t) && SendersDelivered(t) && t.rows == [] && t.mail == map[] && |t.callers| == 2 && rest == Turns(0, 7) + Turns(1, 7)
    requires Proceeds([], t.callers[0]) && Proceeds([], t.callers[1]) && !t.callers[0].pc.Returned? && !t.callers[1].pc.Returned?
    requires RowKey(t.callers[0]).Some? && RowKey(t.callers[1]).Some? && RowKey(t.callers[0]) != RowKey(t.callers[1])
    requires LetsPass(t.callers[0], t.callers[1]) && Slot(t.callers[0].request) == Slot(t.callers[1].request)
    ensures
      var end := Run(t, rest);
      BothRecorded(end) && end.mail == map[Slot(t.callers[0].request) := MessageOf(t.callers[0].request)]
  {
    OnlyFirstIsMailed(t, 0, 1);
    RunKeepsRequests(t, rest);
    TwoKeysTwoRows(Run(t, rest));
  }

  lemma OneTurn(s: State, i: nat, t: State, rest: seq<nat>)
    requires i < |s.callers| && Turn(s, i) == t
    ensures Run(s, [i] + rest) == Run(t, rest)
  {
    assert ([i] + rest)[1..] == rest;
  }

  // ----- when every message is delivered -----

  /** Whatever the interleaving, everyone who returns from sending has its own message delivered. */
  ghost predicate AlwaysDelivered(s: State) {
    forall schedule, i :: 0 <= i < |s.callers| ==> DeliveredIn(s, schedule, i)
  }

  ghost predicate DeliveredIn(s: State, schedule: seq<nat>, i: nat)
    requires i < |s.callers|
  {
    var end, r := Run(s, schedule), s.callers[i].request;
    |end.callers| == |s.callers| &&
    (!s.callers[i].kind.Records? && end.callers[i].pc.Returned? ==> Slot(r) in end.mail && end.mail[Slot(r)] == MessageOf(r))
  }

  /** Two senders that can both return under one workflow and dedupe key send the same message; one row
      cannot be had with two payloads. */
  predicate Compatible(a: Caller, b: Caller) {
    MaySend(a) && MaySend(b) && Slot(a.request) == Slot(b.request) ==>
      || MessageOf(a.request) == MessageOf(b.request)
      || (RowKey(a).Some? && RowKey(a) == RowKey(b) && a.request.payloadHash != b.request.payloadHash)
  }

  ghost predicate AllCompatible(callers: seq<Caller>) {
    forall i, j :: 0 <= i < |callers| && 0 <= j < |callers| ==> Compatible(callers[i], callers[j])
  }

  /** The first sender may send, and its row is stored if it writes one. */
  lemma {:induction false} FirstSenderStored(rows0: seq<Row>, s: State, schedule: seq<nat>, slot: (Text, Text))
    requires Inv(rows0, s) && FirstSender(s, schedule, slot).Some?
    ensures
      var c := s.callers[FirstSender(s, schedule, slot).value];
      MaySend(c) && (RowKey(c).Some? ==> exists row :: row in Run(s, schedule).rows && IsRowOf(row, c))
    decreases |schedule|
  {
    if schedule[0] >= |s.callers| {
      FirstSenderStored(rows0, s, schedule[1..], slot);
    } else {
      RunKeepsInv(rows0, s, schedule);
      TurnKeepsInv(rows0, s, schedule[0]);
      var c := s.callers[schedule[0]];
      if c.pc.Sending? && Slot(c.request) == slot {
        assert CallerOk(s.rows, c);
        if RowKey(c).Some? {
          var row := Outcome(c.pc).value.row;
          assert row in Run(s, schedule).rows && IsRowOf(row, c);
        }
      } else {
        FirstSenderStored(rows0, Turn(s, schedule[0]), schedule[1..], slot);
        var f := FirstSender(s, schedule, slot).value;
        assert Turn(s, schedule[0]).callers[f] == s.callers[f].(pc := Turn(s, schedule[0]).callers[f].pc);
      }
    }
  }

  lemma CompatibleIsDelivered(s: State, schedule: seq<nat>, i: nat)
    requires Initial(s) && AllCompatible(s.callers) && i < |s.callers| && !s.callers[i].kind.Records?
    requires Slot(s.callers[i].request) !in s.mail
    ensures DeliveredIn(s, schedule, i)
  {
    var end, c := Run(s, schedule), s.callers[i];
    DeliveredExactly(s, schedule, i);
    if end.callers[i].pc.Returned? {
      InitialInv(s);
      RunKeepsInv(s.rows, s, schedule);
      ReturnsOwnRow(s, schedule, i);
      MailHoldsFirstSent(s, schedule, Slot(c.request));
      FirstSenderStored(s.rows, s, schedule, Slot(c.request));
      var f := s.callers[FirstSender(s, schedule, Slot(c.request)).value];
      assert MaySend(c) && Compatible(f, c);
      if RowKey(f).Some? && RowKey(f) == RowKey(c) {
        var row :| row in end.rows && IsRowOf(row, f);
        assert row == end.callers[i].pc.write.value.row;
      }
    }
  }

  lemma IncompatibleIsLost(s: State, i: nat, j: nat)
    requires Initial(s) && s.rows == [] && s.mail == map[] && i < |s.callers| && j < |s.callers| && !Compatible(s.callers[i], s.callers[j])
    ensures !AlwaysDelivered(s)
  {
    EmptyRefusesNobody(s.callers[i]);
    EmptyRefusesNobody(s.callers[j]);
    if LetsPass(s.callers[i], s.callers[j]) { LostInSequence(s, i, j); } else { LostInRace(s, i, j); }
  }

  lemma LostInSequence(s: State, i: nat, j: nat)
    requires Initial(s) && s.rows == [] && s.mail == map[] && i < |s.callers| && j < |s.callers| && !Compatible(s.callers[i], s.callers[j])
    requires LetsPass(s.callers[i], s.callers[j]) && Proceeds([], s.callers[i]) && Proceeds([], s.callers[j])
    ensures !AlwaysDelivered(s)
  {
    InitialInv(s);
    OnlyFirstIsMailed(s, i, j);
    assert !DeliveredIn(s, Turns(i, 7) + Turns(j, 7), j);
  }

  lemma LostInRace(s: State, i: nat, j: nat)
    requires Initial(s) && s.rows == [] && s.mail == map[] && i < |s.callers| && j < |s.callers| && !Compatible(s.callers[i], s.callers[j])
    requires !LetsPass(s.callers[i], s.callers[j]) && Proceeds([], s.callers[i]) && Proceeds([], s.callers[j])
    ensures !AlwaysDelivered(s)
  {
    var rest := Turns(i, 7) + Turns(j, 7);
    ChecksFirst(s, j);
    OneTurn(s, j, Turn(s, j), rest);
    OnlyFirstIsMailed(Turn(s, j), i, j);
    assert !DeliveredIn(s, [j] + rest, j);
  }

  /** From an empty ledger, every message whose sender returns is delivered under every interleaving
      exactly when the senders are pairwise compatible. */
  lemma AlwaysDeliveredExactly(s: State)
    requires Initial(s) && s.rows == [] && s.mail == map[]
    ensures AlwaysDelivered(s) <==> AllCompatible(s.callers)
  {
    if AllCompatible(s.callers) {
      forall schedule, i | 0 <= i < |s.callers| ensures DeliveredIn(s, schedule, i) {
        RunKeepsRequests(s, schedule);
        if !s.callers[i].kind.Records? { CompatibleIsDelivered(s, schedule, i); }
      }
    } else {
      var i, j :| 0 <= i < |s.callers| && 0 <= j < |s.callers| && !Compatible(s.callers[i], s.callers[j]);
      IncompatibleIsLost(s, i, j);
    }
  }

  /** A human topic is the normal one of its gate, as the services check and the gate table holds. */
  predicate IsNormal(c: Caller) {
    HUMAN <= c.request.topic && RowKey(c).Some? ==> RowKey(c).value.topic == c.request.topic
  }

  /** With normal topics, two senders under one workflow and dedupe key are compatible exactly when they
      write one row or send one message. */
  lemma NormalCompatible(a: Caller, b: Caller)
    requires IsNormal(a) && IsNormal(b) && MaySend(a) && MaySend(b) && Slot(a.request) == Slot(b.request)
    requires a.request.payloadHash == b.request.payloadHash ==> a.request.payload == b.request.payload
    ensures Compatible(a, b) <==> (RowKey(a).Some? && RowKey(a) == RowKey(b)) || MessageOf(a.request) == MessageOf(b.request)
  {}

  // ----- when a reply is refused -----

  /** A writer to the caller's slot writes its key and its payload hash. */
  predicate Agrees(other: Caller, c: Caller) {
    RowKey(other).Some? && RowKey(c).Some? && SameSlot(RowKey(other).value, RowKey(c).value) ==>
      RowKey(other) == RowKey(c) && other.request.payloadHash == c.request.payloadHash
  }

  /** It writes no row, or a valid one that nobody contests. */
  ghost predicate Unopposed(callers: seq<Caller>, i: nat)
    requires i < |callers|
  {
    && (RowKey(callers[i]).Some? || (callers[i].kind.Sends? && !(HUMAN <= callers[i].request.topic)))
    && forall j :: 0 <= j < |callers| ==> Agrees(callers[j], callers[i])
  }

  ghost predicate FreshSlot(rows: seq<Row>, c: Caller) {
    RowKey(c).Some? ==> forall row :: row in rows ==> !SameSlot(row.key, RowKey(c).value)
  }

  /** Rows that got into the slot are the caller's own. */
  lemma SlotHoldsOwn(rows0: seq<Row>, s: State, i: nat)
    requires Inv(rows0, s) && i < |s.callers| && Unopposed(s.callers, i) && FreshSlot(rows0, s.callers[i])
    ensures
      var c := s.callers[i];
      RowKey(c).Some? ==> forall row :: row in s.rows && SameSlot(row.key, RowKey(c).value) ==> IsRowOf(row, c)
  {
    var c := s.callers[i];
    forall row | row in s.rows && RowKey(c).Some? && SameSlot(row.key, RowKey(c).value)
      ensures IsRowOf(row, c)
    {
      var k :| 0 <= k < |s.rows| && s.rows[k] == row;
      assert forall l :: 0 <= l < |rows0| ==> s.rows[l] == rows0[l] && rows0[l] in rows0;
      assert Inserted(s.callers, s.rows[k]);
      var j :| 0 <= j < |s.callers| && Outcome(s.callers[j].pc) == Some(Write(true, row));
      assert CallerOk(s.rows, s.callers[j]) && Agrees(s.callers[j], c);
    }
  }

  lemma OwnTurnNeverThrows(rows0: seq<Row>, s: State, i: nat)
    requires Inv(rows0, s) && i < |s.callers| && Unopposed(s.callers, i) && FreshSlot(rows0, s.callers[i])
    requires !s.callers[i].pc.Threw?
    ensures !Act(s.rows, s.mail, s.callers[i]).2.Threw?
  {
    var c := s.callers[i];
    SlotHoldsOwn(rows0, s, i);
    assert CallerOk(s.rows, c);
    if c.pc.Checking? { PassesAgree(c, c.pc.pass); }
  }

  lemma StaysUnopposed(rows0: seq<Row>, s: State, turn: nat, i: nat)
    requires turn < |s.callers| && i < |s.callers| && Unopposed(s.callers, i) && FreshSlot(rows0, s.callers[i])
    ensures Unopposed(Turn(s, turn).callers, i) && FreshSlot(rows0, Turn(s, turn).callers[i])
  {
    var t := Turn(s, turn);
    forall j | 0 <= j < |s.callers| ensures Agrees(t.callers[j], t.callers[i]) {
      assert Agrees(s.callers[j], s.callers[i]);
    }
  }

  lemma {:induction false} UnopposedNeverThrows(rows0: seq<Row>, s: State, schedule: seq<nat>, i: nat)
    requires Inv(rows0, s) && i < |s.callers| && Unopposed(s.callers, i) && FreshSlot(rows0, s.callers[i])
    requires !s.callers[i].pc.Threw?
    ensures |Run(s, schedule).callers| == |s.callers| && !Run(s, schedule).callers[i].pc.Threw?
    decreases |schedule|
  {
    if schedule != [] {
      if schedule[0] < |s.callers| {
        TurnKeepsInv(rows0, s, schedule[0]);
        OwnTurnNeverThrows(rows0, s, i);
        StaysUnopposed(rows0, s, schedule[0], i);
        UnopposedNeverThrows(rows0, Turn(s, schedule[0]), schedule[1..], i);
      } else {
        UnopposedNeverThrows(rows0, s, schedule[1..], i);
      }
    }
  }

  ghost predicate ThrowsIn(s: State, schedule: seq<nat>, i: nat) {
    i < |Run(s, schedule).callers| && Run(s, schedule).callers[i].pc.Threw?
  }

  /** From an empty ledger, a caller is refused under no interleaving exactly when everyone writing to
      its slot writes the same topic and payload hash, or it writes no row. */
  lemma NeverThrowsExactly(s: State, i: nat)
    requires Initial(s) && s.rows == [] && i < |s.callers|
    ensures (forall schedule :: !ThrowsIn(s, schedule, i)) <==> Unopposed(s.callers, i)
  {
    if Unopposed(s.callers, i) {
      InitialInv(s);
      forall schedule ensures !ThrowsIn(s, schedule, i) { UnopposedNeverThrows([], s, schedule, i); }
    } else if j :| 0 <= j < |s.callers| && !Agrees(s.callers[j], s.callers[i]) {
      OpponentRefuses(s, i, j);
      assert ThrowsIn(s, [j] + ([j] + ([i] + [])), i);
    } else {
      OneTurn(s, i, Turn(s, i), []);
      assert ThrowsIn(s, [i] + [], i);
    }
  }

  lemma OpponentRefuses(s: State, i: nat, j: nat)
    requires Initial(s) && s.rows == [] && i < |s.callers| && j < |s.callers| && !Agrees(s.callers[j], s.callers[i])
    ensures ThrowsIn(s, [j] + ([j] + ([i] + [])), i)
  {
    var c := s.callers[j];
    var row := Row(RowKey(c).value, c.request.payloadHash, c.request.payload);
    var s1 := Turn(s, j);
    PassesAgree(c, c.pc.pass);
    PassesAgree(s.callers[i], s.callers[i].pc.pass);
    assert s1.rows == [] && s1.callers == s.callers[j := c.(pc := Inserting(c.pc.pass, row.key))];
    var s2 := Turn(s1, j);
    assert s2.rows == [row] && s2.callers[i] == s.callers[i];
    assert Latest([row], RowKey(s.callers[i]).value) == Some(row);
    OneTurn(s, j, s1, [j] + ([i] + []));
    OneTurn(s1, j, s2, [i] + []);
    OneTurn(s2, i, Turn(s2, i), []);
  }

  // ----- equal replies -----

  /** Of all who write this row, only `j` inserted it. */
  ghost predicate IsSoleInserter(callers: seq<Caller>, j: nat, key: Key) {
    && j < |callers| && RowKey(callers[j]) == Some(key) && IsInserter(callers[j])
    && forall l :: 0 <= l < |callers| && l != j && RowKey(callers[l]) == Some(key) ==> !IsInserter(callers[l])
  }

  /** Equal messages sent concurrently into a fresh slot: none fails, and once one has returned, a message
      has been sent under their keys and exactly one of those who write their row is the non-replay. */
  lemma EqualRepliesDeliverOnce(s: State, schedule: seq<nat>, i: nat)
    requires Initial(s) && i < |s.callers| && !s.callers[i].kind.Records? && Unopposed(s.callers, i) && FreshSlot(s.rows, s.callers[i])
    ensures
      var end, c := Run(s, schedule), s.callers[i];
      && |end.callers| == |s.callers|
      && !end.callers[i].pc.Threw?
      && (end.callers[i].pc.Returned? ==>
          && Slot(c.request) in end.mail
          && (RowKey(c).Some? ==> exists j :: IsSoleInserter(end.callers, j, RowKey(c).value)))
  {
    InitialInv(s);
    RunKeepsInv(s.rows, s, schedule);
    RunKeepsRequests(s, schedule);
    UnopposedNeverThrows(s.rows, s, schedule, i);
    DeliveredExactly(s, schedule, i);
    ReturnsOwnRow(s, schedule, i);
    var end := Run(s, schedule);
    if end.callers[i].pc.Returned? && RowKey(s.callers[i]).Some? { SoleInserter(s.rows, end, i); }
  }

  lemma SoleInserter(rows0: seq<Row>, end: State, i: nat)
    requires Inv(rows0, end) && i < |end.callers| && FreshSlot(rows0, end.callers[i]) && end.callers[i].pc.Returned?
    requires RowKey(end.callers[i]).Some?
    ensures exists j :: IsSoleInserter(end.callers, j, RowKey(end.callers[i]).value)
  {
    assert CallerOk(end.rows, end.callers[i]);
    var row := end.callers[i].pc.write.value.row;
    var k :| 0 <= k < |end.rows| && end.rows[k] == row;
    assert forall l :: 0 <= l < |rows0| ==> end.rows[l] == rows0[l] && rows0[l] in rows0;
    assert Inserted(end.callers, end.rows[k]);
    var j :| 0 <= j < |end.callers| && Outcome(end.callers[j].pc) == Some(Write(true, row));
    assert CallerOk(end.rows, end.callers[j]);
    forall l | 0 <= l < |end.callers| && l != j && RowKey(end.callers[l]) == Some(row.key) ensures !IsInserter(end.callers[l]) {
      assert CallerOk(end.rows, end.callers[l]);
    }
    assert IsSoleInserter(end.callers, j, row.key);
  }
}
