/** Why a log that is replayed from the top tells the same story. */
module HumanGateProofs {
  import opened JsText
  import opened JsonValues
  import opened HitlTopic
  import opened DecisionPayload
  import opened DecisionPayloadProofs
  import opened HumanGateModel

  lemma EffectIsIdempotent(w: World, op: Op)
    ensures Effect(Effect(w, op), op) == Effect(w, op)
  {}

  lemma EffectsStep(w: World, log: seq<Entry>, e: Entry)
    ensures Effects(w, log + [e]) == Effect(Effects(w, log), e.op)
  {}

  // ----- learning the inputs one reply at a time -----

  /** The inputs once the `k`-th call has returned this. */
  function WithReply(i: Inputs, k: nat, reply: Reply): Inputs {
    if k == 0 then if reply.Flag? then i.(emitted := reply.b) else i
    else if k == 1 then if reply.Time? then i.(now := reply.t) else i
    else if k < Base(i) then i
    else
      var c := k - Base(i);
      if c == 0 then if reply.Message? then i.(reply := reply.j) else i
      else if c == 1 then if reply.Time? then i.(t1 := reply.t) else i
      else if c == 3 then if reply.Time? then i.(t2 := reply.t) else i
      else if c == (if TimesOut(i) then 6 else 5) then if reply.Time? then i.(t3 := reply.t) else i
      else i
  }

  /** The kind of value a call returns. */
  predicate Answers(op: Op, reply: Reply) {
    match op
    case WasPromptEmitted(_, _) => reply.Flag?
    case GetTimestamp => reply.Time?
    case Recv(_, _) => reply.Message?
    case _ => reply.Unit?
  }

  ghost predicate SameBelow(a: Args, i: Inputs, i': Inputs, k: nat) {
    forall j :: 0 <= j < k ==> OpAt(a, i', j) == OpAt(a, i, j) && ReplyAt(i', j) == ReplyAt(i, j)
  }

  /** A reply settles its own place and leaves every earlier one, and the call itself, as they were. */
  lemma ReplySettlesItsPlace(a: Args, i: Inputs, k: nat, reply: Reply)
    requires k < Length(i) && Answers(OpAt(a, i, k), reply)
    ensures
      var i' := WithReply(i, k, reply);
      && SameBelow(a, i, i', k)
      && OpAt(a, i', k) == OpAt(a, i, k) && ReplyAt(i', k) == reply
      && k < Length(i')
  {}

  lemma ReplayAnswers(a: Args, i: Inputs, k: nat)
    requires k < Length(i)
    ensures Answers(OpAt(a, i, k), ReplyAt(i, k))
  {}

  lemma ReplayKeepsInputs(i: Inputs, k: nat)
    ensures WithReply(i, k, ReplyAt(i, k)) == i
  {}

  // ----- the world a whole run leaves -----

  lemma CompleteLogIsScript(a: Args, i: Inputs, log: seq<Entry>)
    requires FollowsScript(a, i, log) && |log| == Length(i)
    ensures log == Script(a, i)
  {
    forall k | 0 <= k < |log|
      ensures log[k] == Script(a, i)[k]
    {
      assert IsScripted(a, i, log, k);
    }
  }

  ghost predicate FollowsScript(a: Args, i: Inputs, log: seq<Entry>) {
    |log| <= Length(i) && forall k {:trigger IsScripted(a, i, log, k)} :: 0 <= k < |log| ==> IsScripted(a, i, log, k)
  }

  predicate IsScripted(a: Args, i: Inputs, log: seq<Entry>, k: nat)
    requires k < |log|
  {
    log[k] == Entry(OpAt(a, i, k), ReplyAt(i, k))
  }

  /** The world is the log's effects, or one call ahead of the log when the process died between
      a call's effect and its record. */
  ghost predicate WorldFits(a: Args, w: World, i: Inputs, log: seq<Entry>, world: World) {
    || world == Effects(w, log)
    || (|log| < Length(i) && world == Effect(Effects(w, log), OpAt(a, i, |log|)))
  }

  /** Ahead or not, running the next call leaves the same world; the first call only looks. */
  lemma NextEffect(a: Args, w: World, i: Inputs, log: seq<Entry>, world: World)
    requires WorldFits(a, w, i, log, world)
    ensures Effect(world, OpAt(a, i, |log|)) == Effect(Effects(w, log), OpAt(a, i, |log|))
    ensures log == [] ==> world == w
  {
    EffectIsIdempotent(Effects(w, log), OpAt(a, i, |log|));
  }

  /** Recording a call and its reply follows the script of the inputs learnt. */
  lemma RecordFollowsScript(a: Args, w: World, i: Inputs, log: seq<Entry>, op: Op, reply: Reply)
    requires FollowsScript(a, i, log) && |log| < Length(i) && op == OpAt(a, i, |log|) && Answers(op, reply)
    ensures FollowsScript(a, WithReply(i, |log|, reply), log + [Entry(op, reply)])
    ensures Effects(w, log + [Entry(op, reply)]) == Effect(Effects(w, log), op)
  {
    ReplySettlesItsPlace(a, i, |log|, reply);
    EffectsStep(w, log, Entry(op, reply));
    var i', log' := WithReply(i, |log|, reply), log + [Entry(op, reply)];
    forall k | 0 <= k < |log'|
      ensures IsScripted(a, i', log', k)
    {
      if k < |log| { assert IsScripted(a, i, log, k); }
    }
  }

  lemma EffectsAt(w: World, log: seq<Entry>, k: nat)
    requires k < |log|
    ensures Effects(w, log[..k + 1]) == Effect(Effects(w, log[..k]), log[k].op)
  {
    assert log[..k + 1][..k] == log[..k];
  }

  /** After `recv`: the world so far, with the prompt published if it was not. */
  function OpenedWorld(a: Args, w: World, i: Inputs): World {
    if i.emitted then w
    else World(
      w.events[PromptKey(a.gate) := PromptOf(a, i)],
      if (a.runId, a.gateKey) in w.gates then w.gates else w.gates[(a.runId, a.gateKey) := a.topic],
      w.escalations)
  }

  lemma OpeningEffects(a: Args, w: World, i: Inputs)
    ensures Effects(w, Script(a, i)[..Base(i) + 1]) == OpenedWorld(a, w, i)
  {
    var log := Script(a, i);
    assert log[..0] == [];
    EffectsAt(w, log, 0);
    EffectsAt(w, log, 1);
    EffectsAt(w, log, 2);
    if !i.emitted {
      EffectsAt(w, log, 3);
      EffectsAt(w, log, 4);
    }
  }

  /** The log's effects, one call at a time, are the final world said outright. */
  lemma ScriptLeavesFinalWorld(a: Args, w: World, i: Inputs)
    requires !Rejects(i)
    ensures Effects(w, Script(a, i)) == FinalWorld(a, w, i)
  {
    var log, b := Script(a, i), Base(i);
    OpeningEffects(a, w, i);
    EffectsAt(w, log, b + 1);
    EffectsAt(w, log, b + 2);
    EffectsAt(w, log, b + 3);
    EffectsAt(w, log, b + 4);
    EffectsAt(w, log, b + 5);
    EffectsAt(w, log, b + 6);
    if TimesOut(i) { EffectsAt(w, log, b + 7); }
    assert log[..|log|] == log;
  }

  /** Runs that recorded the same log ended in the same world with the same decision, whatever
      interrupted either of them. */
  lemma SameLogSameOutcome(a: Args, w: World, i: Inputs, j: Inputs)
    requires Script(a, i) == Script(a, j) && !Rejects(i) && !Rejects(j)
    ensures FinalWorld(a, w, i) == FinalWorld(a, w, j) && DecisionOf(i) == DecisionOf(j)
  {
    ScriptLeavesFinalWorld(a, w, i);
    ScriptLeavesFinalWorld(a, w, j);
    assert Script(a, i)[0] == Script(a, j)[0];
    assert Script(a, i)[Base(i)] == Script(a, j)[Base(i)];
  }

  // ----- what a completed gate says -----

  /** The decision's rationale: the timeout's, or what the reply says. */
  ghost predicate Gives(i: Inputs, rationale: Option<Text>) {
    if i.reply.Null? then rationale == Some(TIMEOUT)
    else match rationale case Some(s) => SaysWhy(i.reply, s) case None => SaysNotWhy(i.reply)
  }

  /** In the world a whole run leaves: the recorded decision is the one returned, its choice yes exactly when
      the reply approves, its rationale the first of the reply's four fields that holds a string, or the
      timeout's; it is a timeout's exactly when the recorded result is a timeout or the reply itself says
      so; and the escalation exists exactly when it did before or the recorded result is a timeout. */
  lemma DecisionRecordedExactly(a: Args, w: World, i: Inputs)
    requires !Rejects(i)
    ensures
      var end := Effects(w, Script(a, i));
      && DecisionKey(a.gate) in end.events && ResultKey(a.gate) in end.events
      && end.events[DecisionKey(a.gate)] == DecisionEvent(DecisionOf(i).choice, DecisionOf(i).rationale, i.t3)
      && (DecisionOf(i).choice == Yes <==> Approves(i.reply))
      && Gives(i, DecisionOf(i).rationale)
      && (SaysTimeout(end.events[DecisionKey(a.gate)]) <==>
          end.events[ResultKey(a.gate)].TimedOutEvent? || (!Approves(i.reply) && SaysWhy(i.reply, TIMEOUT)))
      && (EscalationId(a.workflowId, a.gateKey) in end.escalations <==>
          EscalationId(a.workflowId, a.gateKey) in w.escalations || end.events[ResultKey(a.gate)].TimedOutEvent?)
  {
    ScriptLeavesFinalWorld(a, w, i);
    KeysDistinct(a.gate);
    ApprovesExactly(i.reply);
    RationaleExactly(i.reply);
    if TimesOut(i) { SilenceIsNo(i.reply); }
  }

  predicate SaysTimeout(e: Event) { e.DecisionEvent? && e.choice == No && e.rationale == Some(TIMEOUT) }

  /** What the other events and the gate row say, down to the reply's members: the prompt's deadline, the
      reply and who sent it, or that none came. */
  lemma EventsRecordedExactly(a: Args, w: World, i: Inputs)
    requires !Rejects(i)
    ensures
      var end := Effects(w, Script(a, i));
      && ResultKey(a.gate) in end.events && AuditKey(a.gate) in end.events
      && (!i.emitted ==>
          && PromptKey(a.gate) in end.events
          && end.events[PromptKey(a.gate)] == PromptEvent(a.form, a.ttlS, i.now, i.now + 1000 * a.ttlS)
          && (a.runId, a.gateKey) in end.gates
          && ((a.runId, a.gateKey) !in w.gates ==> end.gates[(a.runId, a.gateKey)] == a.topic))
      && end.events[ResultKey(a.gate)] == (if i.reply.Null? then TimedOutEvent(i.t1) else ReceivedEvent(i.reply, i.t1))
      && AuditSays(end.events[AuditKey(a.gate)], i)
  {
    ScriptLeavesFinalWorld(a, w, i);
    KeysDistinct(a.gate);
    ReadTextExactly(i.reply, ACTOR);
    ReadTextExactly(i.reply, RATIONALE);
  }

  /** The audit event names the reply's actor and gives its rationale, where those are strings. */
  ghost predicate AuditSays(e: Event, i: Inputs) {
    && e.AuditEvent? && e.at == i.t2 && e.timedOut == i.reply.Null?
    && (e.timedOut ==> e.actor == None && e.reason == Some(TTL_EXPIRED))
    && (!e.timedOut ==>
        && (forall s :: e.actor == Some(s) <==> Holds(i.reply, ACTOR, Str(s)))
        && (forall s :: e.reason == Some(s) <==> Holds(i.reply, RATIONALE, Str(s))))
  }
}
