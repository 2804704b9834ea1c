/** Approvals that share a log: each is replayed as if it were alone, as long as every run makes its calls
    in the same order. */
module ParallelGatesProofs {
  import opened JsText
  import opened JsonValues
  import opened HitlTopic
  import opened HumanGateModel
  import opened HumanGateProofs
  import opened ParallelGates

  // ----- what is a gate's own -----

  function EventAt(w: World, key: Text): Option<Event> { if key in w.events then Some(w.events[key]) else None }

  function RowAt(w: World, row: (Text, Text)): Option<Text> { if row in w.gates then Some(w.gates[row]) else None }

  predicate OwnsEvent(a: Args, key: Text) { IsGateEvent(a.gate, key) }

  predicate OwnsRow(a: Args, row: (Text, Text)) { row == (a.runId, a.gateKey) }

  predicate OwnsEscalation(a: Args, id: Text) { id == EscalationId(a.workflowId, a.gateKey) }

  /** The two worlds hold the same of what is this gate's. */
  ghost predicate SameFor(a: Args, x: World, y: World) {
    && (forall key :: OwnsEvent(a, key) ==> EventAt(x, key) == EventAt(y, key))
    && (forall row :: OwnsRow(a, row) ==> RowAt(x, row) == RowAt(y, row))
    && (forall id :: OwnsEscalation(a, id) ==> (id in x.escalations <==> id in y.escalations))
  }

  /** They differ at most in what is some gate's. */
  ghost predicate SameElsewhere(args: seq<Args>, x: World, y: World) {
    && (forall key :: (forall i :: 0 <= i < |args| ==> !OwnsEvent(args[i], key)) ==> EventAt(x, key) == EventAt(y, key))
    && (forall row :: (forall i :: 0 <= i < |args| ==> !OwnsRow(args[i], row)) ==> RowAt(x, row) == RowAt(y, row))
    && (forall id :: (forall i :: 0 <= i < |args| ==> !OwnsEscalation(args[i], id)) ==> (id in x.escalations <==> id in y.escalations))
  }

  predicate IsOwnOp(a: Args, op: Op) {
    match op
    case SetEvent(key, _) => OwnsEvent(a, key)
    case OpenHumanGate(runId, gateKey, _) => OwnsRow(a, (runId, gateKey))
    case EnqueueEscalation(workflowId, gateKey) => workflowId == a.workflowId && gateKey == a.gateKey
    case _ => true
  }

  lemma CallsAreOwn(a: Args, i: Inputs, k: nat)
    ensures IsOwnOp(a, OpAt(a, i, k))
  {}

  lemma EffectOnOwn(a: Args, x: World, y: World, op: Op)
    requires SameFor(a, x, y)
    ensures SameFor(a, Effect(x, op), Effect(y, op))
  {}

  lemma EffectOnOthers(a: Args, other: Args, w: World, op: Op)
    requires IsOwnOp(a, op) && Apart(a, other)
    ensures SameFor(other, Effect(w, op), w)
  {
    forall key | OwnsEvent(other, key) ensures EventAt(Effect(w, op), key) == EventAt(w, key) {
      GatesShareKeyExactly(a.gate, other.gate);
    }
    EscalationsApart(a, other);
  }

  lemma EscalationsApart(a: Args, other: Args)
    requires Apart(a, other)
    ensures EscalationId(a.workflowId, a.gateKey) != EscalationId(other.workflowId, other.gateKey)
  {
    var x, y := EscalationId(a.workflowId, a.gateKey), EscalationId(other.workflowId, other.gateKey);
    var n := |ESC_PREFIX| + |a.workflowId| + 1;
    assert x[n..] == a.gateKey && y[n..] == other.gateKey;
  }

  lemma EffectElsewhere(args: seq<Args>, b: nat, w: World, op: Op)
    requires b < |args| && IsOwnOp(args[b], op)
    ensures SameElsewhere(args, Effect(w, op), w)
  {}

  // ----- one gate's calls -----

  /** The world after the first `n` calls of a lone approval. */
  function Played(a: Args, i: Inputs, w: World, n: nat): World {
    if n == 0 then w else Effect(Played(a, i, w, n - 1), OpAt(a, i, n - 1))
  }

  lemma {:induction false} PlayedIsEffects(a: Args, i: Inputs, w: World, n: nat)
    requires n <= Length(i)
    ensures Played(a, i, w, n) == Effects(w, Script(a, i)[..n])
  {
    if n > 0 {
      PlayedIsEffects(a, i, w, n - 1);
      EffectsAt(w, Script(a, i), n - 1);
    }
  }

  /** A new reply changes none of the calls up to its own. */
  lemma {:induction false} PlayedStays(a: Args, i: Inputs, w: World, k: nat, reply: Reply, n: nat)
    requires k < Length(i) && Answers(OpAt(a, i, k), reply) && n <= k + 1
    ensures Played(a, WithReply(i, k, reply), w, n) == Played(a, i, w, n)
  {
    ReplySettlesItsPlace(a, i, k, reply);
    if n > 0 { PlayedStays(a, i, w, k, reply, n - 1); }
  }

  /** What a run knows of the inputs once `p` calls have returned. */
  function Learned(i: Inputs, p: nat): Inputs {
    var c := Base(i);
    Inputs(p > 0 && i.emitted,
           if p > 1 then i.now else 0,
           if p > c then i.reply else Null,
           if p > c + 1 then i.t1 else 0,
           if p > c + 3 then i.t2 else 0,
           if p > c + (if TimesOut(i) then 6 else 5) then i.t3 else 0)
  }

  /** That is enough to make the next call, and to know whether there is one. */
  lemma LearnedCalls(a: Args, i: Inputs, p: nat)
    requires p <= Length(i)
    ensures p < Length(i) <==> p < Length(Learned(i, p))
    ensures p < Length(i) ==> OpAt(a, Learned(i, p), p) == OpAt(a, i, p)
  {}

  lemma LearnedStep(i: Inputs, p: nat)
    requires p < Length(i)
    ensures WithReply(Learned(i, p), p, ReplyAt(i, p)) == Learned(i, p + 1)
  {}

  lemma LearnedStays(a: Args, i: Inputs, k: nat, reply: Reply, p: nat)
    requires p <= k < Length(i) && Answers(OpAt(a, i, k), reply)
    ensures Learned(WithReply(i, k, reply), p) == Learned(i, p)
  {}

  /** A finished approval knows all its inputs. */
  lemma LearnedAll(i: Inputs)
    requires !Rejects(Learned(i, Length(i)))
    ensures Learned(i, Length(i)) == i
  {}

  // ----- whose number it is -----

  /** How many numbers below `id` are this branch's: the place of the call among the branch's own. */
  function Place(order: nat -> nat, b: nat, id: nat): nat {
    if id == 0 then 0 else Place(order, b, id - 1) + if order(id - 1) == b then 1 else 0
  }

  lemma {:induction false} PlaceGrows(order: nat -> nat, b: nat, x: nat, y: nat)
    requires x <= y
    ensures Place(order, b, x) <= Place(order, b, y)
  {
    if x < y { PlaceGrows(order, b, x, y - 1); }
  }

  lemma LaterPlace(order: nat -> nat, b: nat, x: nat, y: nat)
    requires order(x) == b && x < y
    ensures Place(order, b, x) < Place(order, b, y)
  {
    PlaceGrows(order, b, x + 1, y);
  }

  lemma OnePlaceEach(order: nat -> nat, b: nat, x: nat, y: nat)
    requires order(x) == b && order(y) == b && Place(order, b, x) == Place(order, b, y)
    ensures x == y
  {
    if x < y { LaterPlace(order, b, x, y); }
    if y < x { LaterPlace(order, b, y, x); }
  }

  // ----- the invariant -----

  /** What the log pins down of one approval: its inputs, how many of its calls are on record, and how many
      have had their effect. */
  datatype Truth = Truth(inputs: Inputs, recorded: nat, played: nat)

  predicate EntryFits(a: Args, order: nat -> nat, b: nat, t: Truth, log: map<nat, Entry>, id: nat) {
    var k := Place(order, b, id);
    && (id in log <==> k < t.recorded)
    && (id in log ==> log[id] == Entry(OpAt(a, t.inputs, k), ReplyAt(t.inputs, k)))
  }

  ghost predicate LogFits(a: Args, order: nat -> nat, b: nat, t: Truth, log: map<nat, Entry>) {
    forall id: nat :: order(id) == b ==> EntryFits(a, order, b, t, log, id)
  }

  ghost predicate TruthFits(a: Args, w0: World, t: Truth, world: World) {
    && t.recorded <= t.played <= t.recorded + 1 && t.played <= Length(t.inputs)
    && SameFor(a, world, Played(a, t.inputs, w0, t.played))
    && (t.recorded > 0 ==> t.inputs.emitted == (PromptKey(a.gate) in w0.events))
  }

  predicate InHand(order: nat -> nat, b: nat, pos: nat, next: nat, id: nat) {
    id < next && order(id) == b && Place(order, b, id) == pos && Place(order, b, next) == pos + 1
  }

  predicate BranchFits(a: Args, order: nat -> nat, b: nat, w0: World, t: Truth, next: nat, branch: Branch) {
    && branch.pos <= t.recorded && branch.inputs == Learned(t.inputs, branch.pos)
    && match branch.held
       case Idle => Place(order, b, next) == branch.pos
       case Called(id) => InHand(order, b, branch.pos, next, id) && branch.pos < Length(t.inputs)
       case Ran(id, reply) =>
         && InHand(order, b, branch.pos, next, id) && branch.pos == t.recorded && t.played == t.recorded + 1
         && Answers(OpAt(a, t.inputs, t.recorded), reply)
         && (t.recorded == 0 ==> reply == Flag(PromptKey(a.gate) in w0.events))
  }

  ghost predicate GateOk(a: Args, order: nat -> nat, b: nat, w0: World, t: Truth, s: State)
    requires b < |s.branches|
  {
    TruthFits(a, w0, t, s.world) && LogFits(a, order, b, t, s.log) && BranchFits(a, order, b, w0, t, s.next, s.branches[b])
  }

  ghost predicate Inv(args: seq<Args>, order: nat -> nat, w0: World, truths: seq<Truth>, s: State) {
    && |truths| == |args| == |s.branches| && !s.diverged && SameElsewhere(args, s.world, w0)
    && forall b :: 0 <= b < |args| ==> GateOk(args[b], order, b, w0, truths[b], s)
  }

  // ----- one move -----

  lemma CallKeepsInv(args: seq<Args>, order: nat -> nat, w0: World, truths: seq<Truth>, s: State, who: nat)
    requires Inv(args, order, w0, truths, s)
    requires After(args, s, Call(who)) != s ==> order(s.next) == who
    ensures Inv(args, order, w0, truths, After(args, s, Call(who)))
  {
    var s' := After(args, s, Call(who));
    if s' != s {
      var t, branch := truths[who], s.branches[who];
      assert GateOk(args[who], order, who, w0, t, s);
      LearnedCalls(args[who], t.inputs, branch.pos);
      forall b | 0 <= b < |args| ensures GateOk(args[b], order, b, w0, truths[b], s') {
        assert GateOk(args[b], order, b, w0, truths[b], s);
      }
    }
  }

  /** A call on record is the call the branch makes, and the record is what it would have learnt. */
  lemma ReplayKeepsInv(args: seq<Args>, order: nat -> nat, w0: World, truths: seq<Truth>, s: State, b: nat, time: nat, message: Json)
    requires Inv(args, order, w0, truths, s) && b < |args| && s.branches[b].held.Called? && s.branches[b].held.id in s.log
    ensures Inv(args, order, w0, truths, After(args, s, Execute(b, time, message)))
  {
    var s', t, branch := After(args, s, Execute(b, time, message)), truths[b], s.branches[b];
    assert GateOk(args[b], order, b, w0, t, s);
    assert EntryFits(args[b], order, b, t, s.log, branch.held.id);
    LearnedCalls(args[b], t.inputs, branch.pos);
    LearnedStep(t.inputs, branch.pos);
    forall c | 0 <= c < |args| ensures GateOk(args[c], order, c, w0, truths[c], s') {
      assert GateOk(args[c], order, c, w0, truths[c], s);
    }
  }

  /** The world after the call, whether or not an earlier run had already had its effect. */
  lemma PlaysNext(a: Args, w0: World, t: Truth, world: World)
    requires TruthFits(a, w0, t, world) && t.recorded < Length(t.inputs)
    ensures TruthFits(a, w0, t.(played := t.recorded + 1), Effect(world, OpAt(a, t.inputs, t.recorded)))
    ensures t.recorded == 0 ==> (PromptKey(a.gate) in world.events <==> PromptKey(a.gate) in w0.events)
  {
    var op := OpAt(a, t.inputs, t.recorded);
    EffectOnOwn(a, world, Played(a, t.inputs, w0, t.played), op);
    EffectIsIdempotent(Played(a, t.inputs, w0, t.recorded), op);
    if t.recorded == 0 {
      assert Played(a, t.inputs, w0, t.played) == w0;
      assert OwnsEvent(a, PromptKey(a.gate));
      assert EventAt(world, PromptKey(a.gate)) == EventAt(w0, PromptKey(a.gate));
    }
  }

  lemma OthersStay(a: Args, other: Args, w0: World, t: Truth, world: World, op: Op)
    requires TruthFits(other, w0, t, world) && IsOwnOp(a, op) && Apart(a, other)
    ensures TruthFits(other, w0, t, Effect(world, op))
  {
    EffectOnOthers(a, other, world, op);
  }

  /** The gate whose call it is. */
  lemma ExecutesOwn(args: seq<Args>, order: nat -> nat, w0: World, t: Truth, s: State, b: nat, time: nat, message: Json)
    requires |args| == |s.branches| && b < |args| && !s.diverged && GateOk(args[b], order, b, w0, t, s)
    requires s.branches[b].held.Called? && s.branches[b].held.id !in s.log
    ensures CallOf(args[b], s.branches[b]) == OpAt(args[b], t.inputs, t.recorded) && t.recorded < Length(t.inputs)
    ensures GateOk(args[b], order, b, w0, t.(played := t.recorded + 1), After(args, s, Execute(b, time, message)))
  {
    var branch := s.branches[b];
    assert EntryFits(args[b], order, b, t, s.log, branch.held.id);
    LearnedCalls(args[b], t.inputs, branch.pos);
    PlaysNext(args[b], w0, t, s.world);
    RecordsOnly(args[b], order, b, t, s.log, t.recorded + 1);
  }

  lemma ExecuteKeepsInv(args: seq<Args>, order: nat -> nat, w0: World, truths: seq<Truth>, s: State, b: nat, time: nat, message: Json)
    requires Inv(args, order, w0, truths, s) && AllApart(args)
    requires b < |args| && s.branches[b].held.Called? && s.branches[b].held.id !in s.log
    ensures Inv(args, order, w0, truths[b := truths[b].(played := truths[b].recorded + 1)], After(args, s, Execute(b, time, message)))
  {
    var s', t := After(args, s, Execute(b, time, message)), truths[b];
    assert GateOk(args[b], order, b, w0, t, s);
    ExecutesOwn(args, order, w0, t, s, b, time, message);
    var op := OpAt(args[b], t.inputs, t.recorded);
    CallsAreOwn(args[b], t.inputs, t.recorded);
    ElsewhereStays(args, b, w0, s.world, op);
    forall c | 0 <= c < |args| && c != b ensures GateOk(args[c], order, c, w0, truths[c], s') {
      assert GateOk(args[c], order, c, w0, truths[c], s);
      OtherGateStays(args, order, w0, truths[c], s, s', b, c, op);
    }
  }

  lemma OtherGateStays(args: seq<Args>, order: nat -> nat, w0: World, t: Truth, s: State, s': State, b: nat, c: nat, op: Op)
    requires b < |args| == |s.branches| == |s'.branches| && c < |args| && Apart(args[b], args[c]) && IsOwnOp(args[b], op)
    requires GateOk(args[c], order, c, w0, t, s) && s'.world == Effect(s.world, op)
    requires s'.log == s.log && s'.next == s.next && s'.branches[c] == s.branches[c]
    ensures GateOk(args[c], order, c, w0, t, s')
  {
    OthersStay(args[b], args[c], w0, t, s.world, op);
  }

  lemma ElsewhereStays(args: seq<Args>, b: nat, w0: World, world: World, op: Op)
    requires b < |args| && IsOwnOp(args[b], op) && SameElsewhere(args, world, w0)
    ensures SameElsewhere(args, Effect(world, op), w0)
  {
    EffectElsewhere(args, b, world, op);
  }

  lemma RecordsOnly(a: Args, order: nat -> nat, b: nat, t: Truth, log: map<nat, Entry>, n: nat)
    requires LogFits(a, order, b, t, log)
    ensures LogFits(a, order, b, t.(played := n), log)
  {
    forall id: nat | order(id) == b ensures EntryFits(a, order, b, t.(played := n), log, id) {
      assert EntryFits(a, order, b, t, log, id);
    }
  }

  // ----- recording -----

  /** The inputs once the call in hand is on record. */
  function Recorded(t: Truth, reply: Reply): Truth { Truth(WithReply(t.inputs, t.recorded, reply), t.recorded + 1, t.recorded + 1) }

  lemma RecordFits(a: Args, order: nat -> nat, b: nat, t: Truth, log: map<nat, Entry>, id: nat, reply: Reply)
    requires LogFits(a, order, b, t, log) && order(id) == b && Place(order, b, id) == t.recorded < Length(t.inputs)
    requires Answers(OpAt(a, t.inputs, t.recorded), reply)
    ensures LogFits(a, order, b, Recorded(t, reply), log[id := Entry(OpAt(a, t.inputs, t.recorded), reply)])
  {
    var t', log' := Recorded(t, reply), log[id := Entry(OpAt(a, t.inputs, t.recorded), reply)];
    ReplySettlesItsPlace(a, t.inputs, t.recorded, reply);
    forall x: nat | order(x) == b ensures EntryFits(a, order, b, t', log', x) {
      assert EntryFits(a, order, b, t, log, x);
      if Place(order, b, x) == t.recorded { OnePlaceEach(order, b, x, id); }
    }
  }

  lemma RecordsOwn(args: seq<Args>, order: nat -> nat, w0: World, t: Truth, s: State, b: nat)
    requires |args| == |s.branches| && b < |args| && !s.diverged && GateOk(args[b], order, b, w0, t, s) && s.branches[b].held.Ran?
    ensures GateOk(args[b], order, b, w0, Recorded(t, s.branches[b].held.reply), After(args, s, Record(b)))
  {
    var a, branch, k := args[b], s.branches[b], t.recorded;
    var reply := branch.held.reply;
    LearnedCalls(a, t.inputs, k);
    RecordFits(a, order, b, t, s.log, branch.held.number, reply);
    ReplySettlesItsPlace(a, t.inputs, k, reply);
    PlayedStays(a, t.inputs, w0, k, reply, k + 1);
    LearnedStays(a, t.inputs, k, reply, k);
    LearnedStep(WithReply(t.inputs, k, reply), k);
  }

  lemma OthersUnrecorded(a: Args, order: nat -> nat, c: nat, t: Truth, log: map<nat, Entry>, id: nat, entry: Entry)
    requires LogFits(a, order, c, t, log) && order(id) != c
    ensures LogFits(a, order, c, t, log[id := entry])
  {
    forall x: nat | order(x) == c ensures EntryFits(a, order, c, t, log[id := entry], x) {
      assert EntryFits(a, order, c, t, log, x);
    }
  }

  lemma RecordKeepsInv(args: seq<Args>, order: nat -> nat, w0: World, truths: seq<Truth>, s: State, b: nat)
    requires Inv(args, order, w0, truths, s) && b < |args| && s.branches[b].held.Ran?
    ensures Inv(args, order, w0, truths[b := Recorded(truths[b], s.branches[b].held.reply)], After(args, s, Record(b)))
  {
    var s', branch := After(args, s, Record(b)), s.branches[b];
    assert GateOk(args[b], order, b, w0, truths[b], s);
    RecordsOwn(args, order, w0, truths[b], s, b);
    forall c | 0 <= c < |args| && c != b ensures GateOk(args[c], order, c, w0, truths[c], s') {
      assert GateOk(args[c], order, c, w0, truths[c], s);
      OthersUnrecorded(args[c], order, c, truths[c], s.log, branch.held.number, s'.log[branch.held.number]);
    }
  }

  lemma DieKeepsInv(args: seq<Args>, order: nat -> nat, w0: World, truths: seq<Truth>, s: State)
    requires Inv(args, order, w0, truths, s)
    ensures Inv(args, order, w0, truths, After(args, s, Die))
  {
    var s' := After(args, s, Die);
    forall b | 0 <= b < |args| ensures GateOk(args[b], order, b, w0, truths[b], s') {
      assert GateOk(args[b], order, b, w0, truths[b], s);
    }
  }

  // ----- every run -----

  lemma MoveKeepsInv(args: seq<Args>, order: nat -> nat, w0: World, truths: seq<Truth>, s: State, move: Move) returns (truths': seq<Truth>)
    requires Inv(args, order, w0, truths, s) && AllApart(args)
    requires move.Call? && After(args, s, move) != s ==> order(s.next) == move.who
    ensures Inv(args, order, w0, truths', After(args, s, move))
  {
    truths' := truths;
    match move {
      case Call(who) => CallKeepsInv(args, order, w0, truths, s, who);
      case Execute(b, time, message) =>
        if b < |args| && s.branches[b].held.Called? {
          if s.branches[b].held.id in s.log {
            ReplayKeepsInv(args, order, w0, truths, s, b, time, message);
          } else {
            ExecuteKeepsInv(args, order, w0, truths, s, b, time, message);
            truths' := truths[b := truths[b].(played := truths[b].recorded + 1)];
          }
        }
      case Record(b) =>
        if b < |args| && s.branches[b].held.Ran? {
          RecordKeepsInv(args, order, w0, truths, s, b);
          truths' := truths[b := Recorded(truths[b], s.branches[b].held.reply)];
        }
      case Die => DieKeepsInv(args, order, w0, truths, s);
    }
  }

  lemma {:induction false} RunKeepsInv(args: seq<Args>, order: nat -> nat, w0: World, truths: seq<Truth>, s: State, moves: seq<Move>)
    returns (truths': seq<Truth>)
    requires Inv(args, order, w0, truths, s) && AllApart(args) && KeepsOrder(args, s, moves, order)
    ensures Inv(args, order, w0, truths', Run(args, s, moves))
    decreases |moves|
  {
    truths' := truths;
    if moves != [] {
      var next := MoveKeepsInv(args, order, w0, truths, s, moves[0]);
      truths' := RunKeepsInv(args, order, w0, next, After(args, s, moves[0]), moves[1..]);
    }
  }

  lemma StartInv(args: seq<Args>, order: nat -> nat, w0: World) returns (truths: seq<Truth>)
    ensures Inv(args, order, w0, truths, Start(args, w0))
  {
    truths := seq(|args|, _ => Truth(BLANK, 0, 0));
    var s := Start(args, w0);
    forall b | 0 <= b < |args| ensures GateOk(args[b], order, b, w0, truths[b], s) {
      assert truths[b] == Truth(BLANK, 0, 0);
    }
  }

  // ----- what each approval leaves -----

  /** The approval's calls on record, in the order they were made, are those of a lone run on these inputs. */
  ghost predicate ScriptOnRecord(a: Args, order: nat -> nat, b: nat, i: Inputs, log: map<nat, Entry>) {
    forall id: nat :: order(id) == b ==>
      var k := Place(order, b, id);
      (id in log <==> k < Length(i)) && (id in log ==> log[id] == Script(a, i)[k])
  }

  /** The approval is through, and of what is its own the world holds what it would have left alone. */
  ghost predicate DoneAsIfAlone(a: Args, order: nat -> nat, b: nat, w0: World, s: State, i: Inputs) {
    && i.emitted == (PromptKey(a.gate) in w0.events)
    && ScriptOnRecord(a, order, b, i, s.log) && SameFor(a, s.world, FinalWorld(a, w0, i))
  }

  lemma OverIsDone(a: Args, order: nat -> nat, b: nat, w0: World, t: Truth, s: State)
    requires b < |s.branches| && GateOk(a, order, b, w0, t, s) && IsOver(s.branches[b]) && !Rejects(s.branches[b].inputs)
    ensures DoneAsIfAlone(a, order, b, w0, s, s.branches[b].inputs)
  {
    var branch := s.branches[b];
    LearnedCalls(a, t.inputs, branch.pos);
    LearnedAll(t.inputs);
    PlayedIsEffects(a, t.inputs, w0, Length(t.inputs));
    assert Script(a, t.inputs)[..Length(t.inputs)] == Script(a, t.inputs);
    ScriptLeavesFinalWorld(a, w0, t.inputs);
    forall id: nat | order(id) == b
      ensures
        var k := Place(order, b, id);
        (id in s.log <==> k < Length(t.inputs)) && (id in s.log ==> s.log[id] == Script(a, t.inputs)[k])
    {
      assert EntryFits(a, order, b, t, s.log, id);
    }
  }

  /** Approvals of one workflow over one log, killed any number of times with any of their calls half done:
      if every run makes its calls in the same order, no run meets another call than the one on record; an
      approval that is through has left on record and in the world what it would have left alone; and
      nothing else in the world has changed. */
  lemma EachAsIfAlone(args: seq<Args>, order: nat -> nat, w0: World, moves: seq<Move>)
    requires AllApart(args) && KeepsOrder(args, Start(args, w0), moves, order)
    ensures
      var end := Run(args, Start(args, w0), moves);
      && !end.diverged && SameElsewhere(args, end.world, w0)
      && forall b :: 0 <= b < |args| && IsOver(end.branches[b]) && !Rejects(end.branches[b].inputs) ==>
           DoneAsIfAlone(args[b], order, b, w0, end, end.branches[b].inputs)
  {
    var truths := StartInv(args, order, w0);
    truths := RunKeepsInv(args, order, w0, truths, Start(args, w0), moves);
    var end := Run(args, Start(args, w0), moves);
    forall b | 0 <= b < |args| && IsOver(end.branches[b]) && !Rejects(end.branches[b].inputs)
      ensures DoneAsIfAlone(args[b], order, b, w0, end, end.branches[b].inputs)
    {
      OverIsDone(args[b], order, b, w0, truths[b], end);
    }
  }

  // ----- another order -----

  lemma {:induction false} OneBranchKeepsOrder(args: seq<Args>, s: State, moves: seq<Move>)
    requires |args| <= 1 && |s.branches| == |args|
    ensures KeepsOrder(args, s, moves, _ => 0)
    decreases |moves|
  {
    if moves != [] { OneBranchKeepsOrder(args, After(args, s, moves[0]), moves[1..]); }
  }

  /** Two branches in the given places, all others not begun. */
  function Pair(args: seq<Args>, world: World, log: map<nat, Entry>, next: nat, x: Branch, y: Branch): State
    requires |args| >= 2
  {
    State(world, log, next, Fresh(|args|)[0 := x][1 := y], false)
  }

  function Knows(flag: bool): Inputs { BLANK.(emitted := flag) }

  /** The first two calls on record are the looks for the two prompts, then the first branch went ahead. */
  ghost predicate FirstWentAhead(args: seq<Args>, w0: World, log: map<nat, Entry>)
    requires |args| >= 2
  {
    && log.Keys == {0, 1, 2, 3}
    && log[0] == Entry(OpAt(args[0], BLANK, 0), Flag(PromptKey(args[0].gate) in w0.events))
    && log[1] == Entry(OpAt(args[1], BLANK, 0), Flag(PromptKey(args[1].gate) in w0.events))
    && log[2] == Entry(GetTimestamp, Time(0))
    && !log[3].op.GetTimestamp?
  }

  /** A call made, executed and recorded. */
  const CALL_DONE: seq<Move> := [Call(0), Execute(0, 0, Null), Record(0)]

  /** The second look is slow: the first branch makes two more calls before it returns. */
  const AHEAD: seq<Move> :=
    [Call(0), Call(1), Execute(0, 0, Null), Record(0)] + (CALL_DONE + (CALL_DONE + [Execute(1, 0, Null), Record(1), Die]))

  /** Replayed, the second look returns first, and its branch makes the third call. */
  const CROSSED: seq<Move> :=
    [Call(0), Call(1), Execute(1, 0, Null), Call(1), Execute(1, 0, Null)] + [Execute(0, 0, Null), Call(0), Execute(0, 0, Null)]

  function Later(a: Args, e: bool): Op { OpAt(a, Knows(e), 2) }

  /** The first branch's third call: to wait if its prompt was there, and to open the gate if not. */
  lemma LaterCall(a: Args, e: bool)
    ensures !Later(a, e).GetTimestamp? && !Later(a, e).WasPromptEmitted? && Length(Knows(e)) > 2
  {}

  lemma {:induction false} FirstCalls(args: seq<Args>, world: World, log: map<nat, Entry>, next: nat, x: Branch, y: Branch)
    requires |args| >= 2 && x.held.Idle? && !IsOver(x) && next !in log
    ensures
      var op := CallOf(args[0], x);
      var reply := Answer(world, args[0], op, 0, Null);
      Run(args, Pair(args, world, log, next, x, y), CALL_DONE)
        == Pair(args, Effect(world, op), log[next := Entry(op, reply)], next + 1, Returns(x, reply), y)
  {
    var op := CallOf(args[0], x);
    var reply := Answer(world, args[0], op, 0, Null);
    var s := Pair(args, world, log, next, x, y);
    var s1 := Pair(args, world, log, next + 1, x.(held := Called(next)), y);
    var s2 := Pair(args, Effect(world, op), log, next + 1, x.(held := Ran(next, reply)), y);
    var s3 := Pair(args, Effect(world, op), log[next := Entry(op, reply)], next + 1, Returns(x, reply), y);
    assert After(args, s, Call(0)) == s1;
    assert After(args, s1, Execute(0, 0, Null)) == s2;
    assert After(args, s2, Record(0)) == s3;
  }

  /** Both look for their prompts, and the first one's look returns. */
  lemma {:induction false} BothLook(args: seq<Args>, w0: World)
    requires |args| >= 2
    ensures
      var e := PromptKey(args[0].gate) in w0.events;
      Run(args, Start(args, w0), [Call(0), Call(1), Execute(0, 0, Null), Record(0)])
        == Pair(args, w0, map[0 := Entry(OpAt(args[0], BLANK, 0), Flag(e))], 2, Branch(Knows(e), 1, Idle), Branch(BLANK, 0, Called(1)))
  {
    var e := PromptKey(args[0].gate) in w0.events;
    var blank := Branch(BLANK, 0, Idle);
    var s0 := Start(args, w0);
    var s1 := Pair(args, w0, map[], 1, blank.(held := Called(0)), blank);
    var s2 := Pair(args, w0, map[], 2, blank.(held := Called(0)), blank.(held := Called(1)));
    var s3 := Pair(args, w0, map[], 2, blank.(held := Ran(0, Flag(e))), blank.(held := Called(1)));
    assert After(args, s0, Call(0)) == s1;
    assert After(args, s1, Call(1)) == s2;
    assert After(args, s2, Execute(0, 0, Null)) == s3;
  }

  /** The second look returns at last, and the process dies. */
  lemma {:induction false} LookAndDie(args: seq<Args>, world: World, log: map<nat, Entry>, next: nat, x: Branch)
    requires |args| >= 2 && 1 !in log
    ensures
      var look := Entry(OpAt(args[1], BLANK, 0), Flag(PromptKey(args[1].gate) in world.events));
      Run(args, Pair(args, world, log, next, x, Branch(BLANK, 0, Called(1))), [Execute(1, 0, Null), Record(1), Die])
        == State(world, log[1 := look], 0, Fresh(|args|), false)
  {
    var f := PromptKey(args[1].gate) in world.events;
    var look := Entry(OpAt(args[1], BLANK, 0), Flag(f));
    var s := Pair(args, world, log, next, x, Branch(BLANK, 0, Called(1)));
    var s1 := Pair(args, world, log, next, x, Branch(BLANK, 0, Ran(1, Flag(f))));
    var s2 := Pair(args, world, log[1 := look], next, x, Branch(Knows(f), 1, Idle));
    assert After(args, s, Execute(1, 0, Null)) == s1;
    assert After(args, s1, Record(1)) == s2;
  }

  /** The clock, and then the wait or the gate row. */
  lemma {:induction false} TwoMoreCalls(args: seq<Args>, w0: World, log: map<nat, Entry>, e: bool, y: Branch)
    requires |args| >= 2 && 2 !in log && 3 !in log
    ensures
      var op := Later(args[0], e);
      var reply := Answer(w0, args[0], op, 0, Null);
      Run(args, Run(args, Pair(args, w0, log, 2, Branch(Knows(e), 1, Idle), y), CALL_DONE), CALL_DONE)
        == Pair(args, Effect(w0, op), log[2 := Entry(GetTimestamp, Time(0))][3 := Entry(op, reply)], 4,
                Returns(Branch(Knows(e), 2, Idle), reply), y)
  {
    LaterCall(args[0], e);
    FirstCalls(args, w0, log, 2, Branch(Knows(e), 1, Idle), y);
    assert Returns(Branch(Knows(e), 1, Idle), Time(0)) == Branch(Knows(e), 2, Idle);
    FirstCalls(args, w0, log[2 := Entry(GetTimestamp, Time(0))], 3, Branch(Knows(e), 2, Idle), y);
  }

  lemma {:induction false} AheadState(args: seq<Args>, w0: World, e: bool, f: bool)
    requires |args| >= 2 && Apart(args[0], args[1])
    requires e == (PromptKey(args[0].gate) in w0.events) && f == (PromptKey(args[1].gate) in w0.events)
    ensures
      var op := Later(args[0], e);
      var log := map[0 := Entry(OpAt(args[0], BLANK, 0), Flag(e))]
        [2 := Entry(GetTimestamp, Time(0))][3 := Entry(op, Answer(w0, args[0], op, 0, Null))][1 := Entry(OpAt(args[1], BLANK, 0), Flag(f))];
      Run(args, Start(args, w0), AHEAD) == State(Effect(w0, op), log, 0, Fresh(|args|), false)
  {
    var log0 := map[0 := Entry(OpAt(args[0], BLANK, 0), Flag(e))];
    var op := Later(args[0], e);
    var reply := Answer(w0, args[0], op, 0, Null);
    AheadInParts(args, Start(args, w0));
    BothLook(args, w0);
    TwoMoreCalls(args, w0, log0, e, Branch(BLANK, 0, Called(1)));
    PromptIsOwn(args[0], args[1], w0, Knows(e), 2);
    LookAndDie(args, Effect(w0, op), log0[2 := Entry(GetTimestamp, Time(0))][3 := Entry(op, reply)], 4,
               Returns(Branch(Knows(e), 2, Idle), reply));
  }

  lemma AheadRuns(args: seq<Args>, w0: World) returns (world: World, log: map<nat, Entry>)
    requires |args| >= 2 && Apart(args[0], args[1])
    ensures Run(args, Start(args, w0), AHEAD) == State(world, log, 0, Fresh(|args|), false)
    ensures FirstWentAhead(args, w0, log)
  {
    var e, f := PromptKey(args[0].gate) in w0.events, PromptKey(args[1].gate) in w0.events;
    AheadState(args, w0, e, f);
    var end := Run(args, Start(args, w0), AHEAD);
    world, log := end.world, end.log;
    LogOfAhead(args, w0, log, e, Later(args[0], e));
  }

  lemma LogOfAhead(args: seq<Args>, w0: World, log: map<nat, Entry>, e: bool, op: Op)
    requires |args| >= 2 && log.Keys == {0, 1, 2, 3} && op == Later(args[0], e) && log[3].op == op
    requires log[0] == Entry(OpAt(args[0], BLANK, 0), Flag(PromptKey(args[0].gate) in w0.events))
    requires log[1] == Entry(OpAt(args[1], BLANK, 0), Flag(PromptKey(args[1].gate) in w0.events))
    requires log[2] == Entry(GetTimestamp, Time(0))
    ensures FirstWentAhead(args, w0, log)
  {
    LaterCall(args[0], e);
  }

  lemma AheadInParts(args: seq<Args>, s: State)
    requires |s.branches| == |args|
    ensures Run(args, s, AHEAD) ==
      Run(args, Run(args, Run(args, Run(args, s, [Call(0), Call(1), Execute(0, 0, Null), Record(0)]), CALL_DONE), CALL_DONE),
          [Execute(1, 0, Null), Record(1), Die])
  {
    var last := [Execute(1, 0, Null), Record(1), Die];
    var s1 := Run(args, s, [Call(0), Call(1), Execute(0, 0, Null), Record(0)]);
    RunConcat(args, s, [Call(0), Call(1), Execute(0, 0, Null), Record(0)], CALL_DONE + (CALL_DONE + last));
    RunConcat(args, s1, CALL_DONE, CALL_DONE + last);
    RunConcat(args, Run(args, s1, CALL_DONE), CALL_DONE, last);
  }

  /** No call of one gate puts another's prompt there. */
  lemma PromptIsOwn(a: Args, other: Args, w: World, i: Inputs, k: nat)
    requires Apart(a, other)
    ensures PromptKey(other.gate) in Effect(w, OpAt(a, i, k)).events <==> PromptKey(other.gate) in w.events
  {
    CallsAreOwn(a, i, k);
    EffectOnOthers(a, other, w, OpAt(a, i, k));
    assert OwnsEvent(other, PromptKey(other.gate));
    assert EventAt(Effect(w, OpAt(a, i, k)), PromptKey(other.gate)) == EventAt(w, PromptKey(other.gate));
  }

  /** The second branch reads the time that was the first's. */
  lemma {:induction false} SecondGoesAhead(args: seq<Args>, w0: World, world: World, log: map<nat, Entry>)
    requires |args| >= 2 && FirstWentAhead(args, w0, log)
    ensures
      var f := PromptKey(args[1].gate) in w0.events;
      Run(args, State(world, log, 0, Fresh(|args|), false), [Call(0), Call(1), Execute(1, 0, Null), Call(1), Execute(1, 0, Null)])
        == Pair(args, world, log, 3, Branch(BLANK, 0, Called(0)), Branch(Knows(f), 2, Idle))
  {
    var f, waits := PromptKey(args[1].gate) in w0.events, Branch(BLANK, 0, Called(0));
    var s0 := State(world, log, 0, Fresh(|args|), false);
    var s1 := Pair(args, world, log, 1, waits, Branch(BLANK, 0, Idle));
    var s2 := Pair(args, world, log, 2, waits, Branch(BLANK, 0, Called(1)));
    var s3 := Pair(args, world, log, 2, waits, Branch(Knows(f), 1, Idle));
    var s4 := Pair(args, world, log, 3, waits, Branch(Knows(f), 1, Called(2)));
    assert After(args, s0, Call(0)) == s1;
    assert After(args, s1, Call(1)) == s2;
    assert After(args, s2, Execute(1, 0, Null)) == s3;
    assert After(args, s3, Call(1)) == s4;
    assert After(args, s4, Execute(1, 0, Null)) == Pair(args, world, log, 3, waits, Branch(Knows(f), 2, Idle));
  }

  /** The first branch asks for the time where its own third call is on record. */
  lemma {:induction false} FirstDiverges(args: seq<Args>, w0: World, world: World, log: map<nat, Entry>, y: Branch)
    requires |args| >= 2 && FirstWentAhead(args, w0, log)
    ensures Run(args, Pair(args, world, log, 3, Branch(BLANK, 0, Called(0)), y), [Execute(0, 0, Null), Call(0), Execute(0, 0, Null)]).diverged
  {
    var e := PromptKey(args[0].gate) in w0.events;
    var s0 := Pair(args, world, log, 3, Branch(BLANK, 0, Called(0)), y);
    var s1 := Pair(args, world, log, 3, Branch(Knows(e), 1, Idle), y);
    var s2 := Pair(args, world, log, 4, Branch(Knows(e), 1, Called(3)), y);
    assert After(args, s0, Execute(0, 0, Null)) == s1;
    assert After(args, s1, Call(0)) == s2;
    assert After(args, s2, Execute(0, 0, Null)).diverged;
  }

  lemma CrossedDiverges(args: seq<Args>, w0: World, world: World, log: map<nat, Entry>)
    requires |args| >= 2 && FirstWentAhead(args, w0, log)
    ensures Run(args, State(world, log, 0, Fresh(|args|), false), CROSSED).diverged
  {
    var s0 := State(world, log, 0, Fresh(|args|), false);
    SecondGoesAhead(args, w0, world, log);
    FirstDiverges(args, w0, world, log, Branch(Knows(PromptKey(args[1].gate) in w0.events), 2, Idle));
    RunConcat(args, s0, [Call(0), Call(1), Execute(1, 0, Null), Call(1), Execute(1, 0, Null)], [Execute(0, 0, Null), Call(0), Execute(0, 0, Null)]);
  }

  /** No run, in whatever orders the runs make their calls, meets another call than the one on record. */
  ghost predicate NeverDiverges(args: seq<Args>, w0: World) { forall moves :: !Run(args, Start(args, w0), moves).diverged }

  /** Whatever the order of calls in each run, replay never goes wrong exactly when there is at most one
      approval. */
  lemma AnyOrderIsSafeExactly(args: seq<Args>, w0: World)
    requires AllApart(args)
    ensures NeverDiverges(args, w0) <==> |args| <= 1
  {
    if |args| <= 1 {
      forall moves ensures !Run(args, Start(args, w0), moves).diverged {
        OneBranchKeepsOrder(args, Start(args, w0), moves);
        EachAsIfAlone(args, _ => 0, w0, moves);
      }
    } else {
      var world, log := AheadRuns(args, w0);
      CrossedDiverges(args, w0, world, log);
      RunConcat(args, Start(args, w0), AHEAD, CROSSED);
      assert Run(args, Start(args, w0), AHEAD + CROSSED).diverged;
    }
  }

  lemma {:induction false} RunConcat(args: seq<Args>, s: State, early: seq<Move>, late: seq<Move>)
    requires |s.branches| == |args|
    ensures Run(args, s, early + late) == Run(args, Run(args, s, early), late)
    decreases |early|
  {
    if early == [] {
      assert early + late == late;
    } else {
      assert (early + late)[1..] == early[1..] + late;
      RunConcat(args, After(args, s, early[0]), early[1..], late);
    }
  }
}
