/** The crash-tolerant human gate: `awaitHuman` and `approve` over a durable log of completed
    calls, killed or made to crash anywhere and run again from the top. */
module HumanGate {
  import opened JsText
  import opened JsonValues
  import opened HitlTopic
  import opened DecisionPayload
  import opened HumanGateModel
  import opened HumanGateProofs

  datatype Phase = A | B | C | D

  datatype Fault = InvalidGateKey | InvalidResult | Diverged(op: Op)

  datatype GateResult = Answered(v: Json) | TimedOut

  datatype Outcome<+T> = Done(value: T) | Crashed | Failed(fault: Fault)

  // "*"
  const DEFAULT_SCOPE: Text := [0x2A]

  class Durable {
    /** The call being made durable, and the world it started in. */
    const args: Args
    ghost const world0: World

    /** What outlives the process: the world and the log of completed calls. */
    var world: World
    var log: seq<Entry>

    /** The process: how far this run has replayed, and the module's crash switches. */
    var pos: nat
    var chaosPhaseByScope: map<Text, Phase>
    var consumed: set<(Text, Phase)>

    /** The outside: when the process is killed, what the clock and the mailbox say when asked. */
    var kills: seq<bool>
    var tick: nat
    const clock: nat -> nat
    const inbox: nat -> Json

    /** What the log pins down of the run's inputs; the rest is arbitrary. */
    ghost var inputs: Inputs

    constructor (args: Args, world: World, chaosPhaseByScope: map<Text, Phase>, kills: seq<bool>, clock: nat -> nat, inbox: nat -> Json)
      ensures this.args == args && this.world == world && world0 == world && log == [] && Valid()
      ensures this.chaosPhaseByScope == chaosPhaseByScope && consumed == {} && this.kills == kills
      ensures this.clock == clock && this.inbox == inbox
    {
      this.args, this.world, this.world0, this.log, this.pos := args, world, world, [], 0;
      this.chaosPhaseByScope, this.consumed, this.kills := chaosPhaseByScope, {}, kills;
      this.tick, this.clock, this.inbox := 0, clock, inbox;
      this.inputs := Inputs(PromptKey(args.gate) in world.events, 0, Null, 0, 0, 0);
    }

    /** The log follows the script of the inputs, and the world fits the log. */
    ghost predicate Valid()
      reads this
    {
      && pos <= |log| && FollowsScript(args, inputs, log)
      && WorldFits(args, world0, inputs, log, world)
      && (|log| > 0 ==> inputs.emitted == (PromptKey(args.gate) in world0.events))
      && LogIsHeard()
    }

    ghost predicate FromClock(n: nat) { exists t :: n == clock(t) }

    ghost predicate FromInbox(j: Json) { exists t :: j == inbox(t) }

    /** Times and messages come from outside, and from nowhere else. */
    ghost predicate Heard(e: Entry) {
      match e.op
      case GetTimestamp => e.reply.Time? && FromClock(e.reply.t)
      case Recv(_, _) => e.reply.Message? && FromInbox(e.reply.j)
      case _ => true
    }

    ghost predicate LogIsHeard()
      reads this
    {
      forall e :: e in log ==> Heard(e)
    }

    /** The inputs of a finished run are what the clock and the mailbox said. */
    ghost predicate InputsHeard()
      reads this
    {
      FromInbox(inputs.reply) && FromClock(inputs.now) && FromClock(inputs.t1) && FromClock(inputs.t2) && FromClock(inputs.t3)
    }

    lemma ScriptIsHeard()
      requires LogIsHeard() && log == Script(args, inputs) && !Rejects(inputs)
      ensures InputsHeard()
    {
      var b := Base(inputs);
      assert Heard(log[1]) && Heard(log[b]) && Heard(log[b + 1]) && Heard(log[b + 3]) && Heard(log[|log| - 2]);
    }

    /** Crash switches this workflow has not used up. */
    ghost function Unconsumed(): nat
      reads this
    {
      Unused(A) + Unused(B) + Unused(C) + Unused(D)
    }

    ghost function Unused(phase: Phase): nat
      reads this
    {
      if (args.workflowId, phase) in consumed then 0 else 1
    }

    /** No crash left in this run's way: no kill scheduled, no switch set. */
    predicate Quiet()
      reads this
    {
      kills == [] && chaosPhaseByScope == map[]
    }

    // ----- the module's crash switches -----

    method SetHitlChaosPhase(phase: Option<Phase>, workflowId: Option<Text>)
      modifies this`chaosPhaseByScope
      ensures
        var scope := if workflowId.Some? then workflowId.value else DEFAULT_SCOPE;
        chaosPhaseByScope == if phase.None? then old(chaosPhaseByScope) - {scope} else old(chaosPhaseByScope)[scope := phase.value]
    {
      var scope := if workflowId.Some? then workflowId.value else DEFAULT_SCOPE;
      if phase.None? { chaosPhaseByScope := chaosPhaseByScope - {scope}; }
      else { chaosPhaseByScope := chaosPhaseByScope[scope := phase.value]; }
    }

    function ResolveChaosPhase(workflowId: Text): Option<Phase>
      reads this
    {
      if workflowId in chaosPhaseByScope then Some(chaosPhaseByScope[workflowId])
      else if DEFAULT_SCOPE in chaosPhaseByScope then Some(chaosPhaseByScope[DEFAULT_SCOPE])
      else None
    }

    method ChaosCrash(phase: Phase, workflowId: Text) returns (crash: bool)
      requires workflowId == args.workflowId
      modifies this`consumed
      ensures crash <==>
        && (workflowId, phase) !in old(consumed)
        && (if workflowId in chaosPhaseByScope then chaosPhaseByScope[workflowId] == phase
            else DEFAULT_SCOPE in chaosPhaseByScope && chaosPhaseByScope[DEFAULT_SCOPE] == phase)
      ensures consumed == if crash then old(consumed) + {(workflowId, phase)} else old(consumed)
      ensures Unconsumed() <= old(Unconsumed()) && (crash ==> Unconsumed() < old(Unconsumed()))
    {
      crash := ResolveChaosPhase(workflowId) == Some(phase) && (workflowId, phase) !in consumed;
      if crash { consumed := consumed + {(workflowId, phase)}; }
    }

    /** A kill takes the process and, with it, everything the module holds in memory. */
    method Dies() returns (dies: bool)
      modifies this`kills, this`chaosPhaseByScope, this`consumed, this`tick
      ensures |kills| <= |old(kills)| && (dies ==> |kills| < |old(kills)|)
      ensures |kills| == |old(kills)| ==> Unconsumed() == old(Unconsumed())
      ensures !dies ==> chaosPhaseByScope == old(chaosPhaseByScope) && consumed == old(consumed)
      ensures old(Quiet()) ==> !dies && Quiet()
    {
      tick := tick + 1;
      if kills == [] { return false; }
      dies, kills := kills[0], kills[1..];
      if dies { chaosPhaseByScope, consumed := map[], {}; }
    }

    // ----- a call made durable -----

    method Execute(op: Op) returns (reply: Reply)
      modifies this`world, this`tick
      ensures world == Effect(old(world), op) && Answers(op, reply)
      ensures op.WasPromptEmitted? ==> reply.b == (PromptKey(args.gate) in old(world).events)
      ensures Heard(Entry(op, reply))
    {
      tick := tick + 1;
      match op {
        case WasPromptEmitted(_, _) => reply := Flag(PromptKey(args.gate) in world.events);
        case GetTimestamp => reply := Time(clock(tick));
        case OpenHumanGate(runId, gateKey, topic) =>
          if (runId, gateKey) !in world.gates { world := world.(gates := world.gates[(runId, gateKey) := topic]); }
          reply := Unit;
        case SetEvent(key, event) =>
          world := world.(events := world.events[key := event]);
          reply := Unit;
        case Recv(_, _) => reply := Message(inbox(tick));
        case EnqueueEscalation(workflowId, gateKey) =>
          world := world.(escalations := world.escalations + {EscalationId(workflowId, gateKey)});
          reply := Unit;
      }
    }

    /** What every stretch of the workflow keeps: the log valid and only ever longer, and each
        crash paid for by a kill or a switch used up. */
    twostate predicate Advances(crashed: bool)
      reads this
    {
      && Valid() && old(log) <= log
      && |kills| <= |old(kills)| && (|kills| == |old(kills)| ==> Unconsumed() <= old(Unconsumed()))
      && (crashed ==> |kills| < |old(kills)| || Unconsumed() < old(Unconsumed()))
      && (old(Quiet()) ==> Quiet() && !crashed)
    }

    /** Runs a call that is not on record and records it. The process may die before the effect,
        or between the effect and the record. */
    method RunCall(op: Op) returns (outcome: Outcome<Reply>)
      requires Valid() && pos == |log| < Length(inputs) && op == OpAt(args, inputs, pos)
      modifies this
      ensures Advances(outcome.Crashed?) && !outcome.Failed?
      ensures outcome.Done? ==>
        pos == old(pos) + 1 && inputs == WithReply(old(inputs), old(pos), outcome.value) && Answers(op, outcome.value)
    {
      var dies := Dies();
      if dies { return Crashed; }
      NextEffect(args, world0, inputs, log, world);
      var reply := Execute(op);
      dies := Dies();
      if dies { return Crashed; }
      Record(op, reply);
      return Done(reply);
    }

    method Record(op: Op, reply: Reply)
      requires pos == |log| < Length(inputs) && op == OpAt(args, inputs, pos) && Answers(op, reply)
      requires FollowsScript(args, inputs, log) && world == Effect(Effects(world0, log), op)
      requires inputs.emitted == (PromptKey(args.gate) in world0.events) || op.WasPromptEmitted?
      requires op.WasPromptEmitted? ==> reply.b == (PromptKey(args.gate) in world0.events)
      requires LogIsHeard() && Heard(Entry(op, reply))
      modifies this`inputs, this`log, this`pos
      ensures Valid() && log == old(log) + [Entry(op, reply)] && pos == old(pos) + 1
      ensures inputs == WithReply(old(inputs), old(pos), reply)
    {
      RecordFollowsScript(args, world0, inputs, log, op, reply);
      var longer := log + [Entry(op, reply)];
      ghost var settled := WithReply(inputs, pos, reply);
      assert settled.emitted == (PromptKey(args.gate) in world0.events);
      assert WorldFits(args, world0, settled, longer, world);
      assert forall e :: e in longer ==> e in log || e == Entry(op, reply);
      inputs := settled;
      log := longer;
      pos := pos + 1;
    }

    /** Returns the recorded reply if this run is still replaying, and runs the call otherwise. A
        replay never meets another call than the one on record. */
    method Perform(op: Op) returns (outcome: Outcome<Reply>)
      requires Valid() && pos < Length(inputs) && op == OpAt(args, inputs, pos)
      modifies this
      ensures Advances(outcome.Crashed?) && !outcome.Failed?
      ensures outcome.Done? ==>
        pos == old(pos) + 1 && inputs == WithReply(old(inputs), old(pos), outcome.value) && Answers(op, outcome.value)
    {
      if pos == |log| {
        outcome := RunCall(op);
      } else {
        assert IsScripted(args, inputs, log, pos);
        if log[pos].op != op { return Failed(Diverged(op)); }
        ReplayKeepsInputs(inputs, pos);
        ReplayAnswers(args, inputs, pos);
        outcome := Done(log[pos].reply);
        pos := pos + 1;
      }
    }

    // ----- the gate -----

    /** The arguments in the log are the ones this run was called with. */
    predicate Calls(workflowId: Text, runId: Text, gateKey: Text, form: Json, ttlS: nat) {
      && args.workflowId == workflowId && args.runId == runId && args.gateKey == gateKey
      && args.form == form && args.ttlS == ttlS
      && (NormalizeGateKey(gateKey).Some? ==>
          args.gate == NormalizeGateKey(gateKey).value && args.topic == HUMAN + args.gate)
    }

    /** Opens the gate row and publishes the prompt. */
    method PublishPrompt(workflowId: Text, runId: Text, gateKey: Text, form: Json, ttlS: nat, topic: Text, promptKey: Text, now: nat)
      returns (crashed: bool)
      requires Valid() && pos == 2 && !inputs.emitted && now == inputs.now && Calls(workflowId, runId, gateKey, form, ttlS)
      requires topic == args.topic && promptKey == PromptKey(args.gate)
      modifies this
      ensures Advances(crashed)
      ensures !crashed ==> pos == 4 == Base(inputs)
    {
      var gated := Perform(OpenHumanGate(runId, gateKey, topic));
      if !gated.Done? { return true; }
      var crash := ChaosCrash(B, workflowId);
      if crash { return true; }
      var prompt := PromptEvent(form, ttlS, now, now + ttlS * 1000);
      var published := Perform(SetEvent(promptKey, prompt));
      return !published.Done?;
    }

    /** Looks whether the prompt is there, and at the clock. */
    method LookForPrompt(workflowId: Text, gateKey: Text) returns (crashed: bool, emitted: bool, now: nat)
      requires Valid() && pos == 0 && workflowId == args.workflowId && gateKey == args.gateKey
      modifies this
      ensures Advances(crashed)
      ensures !crashed ==> pos == 2 && emitted == inputs.emitted && now == inputs.now
    {
      var looked := Perform(WasPromptEmitted(workflowId, gateKey));
      if !looked.Done? { return true, false, 0; }
      var at := Perform(GetTimestamp);
      if !at.Done? { return true, false, 0; }
      return false, looked.value.b, at.value.t;
    }

    /** Everything up to the wait: look, and open the gate unless its prompt is there. */
    method OpenGate(workflowId: Text, runId: Text, gateKey: Text, form: Json, ttlS: nat, topic: Text, promptKey: Text)
      returns (crashed: bool)
      requires Valid() && pos == 0 && Calls(workflowId, runId, gateKey, form, ttlS)
      requires topic == args.topic && promptKey == PromptKey(args.gate)
      modifies this
      ensures Advances(crashed)
      ensures !crashed ==> pos == Base(inputs)
    {
      var crash := ChaosCrash(A, workflowId);
      if crash { return true; }
      var emitted, now;
      crashed, emitted, now := LookForPrompt(workflowId, gateKey);
      if !crashed && !emitted {
        crashed := PublishPrompt(workflowId, runId, gateKey, form, ttlS, topic, promptKey, now);
      }
    }

    /** Records what came of the wait, first as the gate's result, then in its audit trail. */
    method RecordOutcome(result: Event, audit: nat -> Event, resultKey: Text, auditKey: Text) returns (crashed: bool)
      requires Valid() && pos == Base(inputs) + 2 && !Rejects(inputs)
      requires resultKey == ResultKey(args.gate) && auditKey == AuditKey(args.gate)
      requires result == ResultOf(inputs) && forall t :: audit(t) == AuditOf(inputs.(t2 := t))
      modifies this
      ensures Advances(crashed)
      ensures !crashed ==> pos == Base(inputs) + 5 && inputs.reply == old(inputs.reply) && Base(inputs) == old(Base(inputs))
    {
      var recorded := Perform(SetEvent(resultKey, result));
      if !recorded.Done? { return true; }
      var at := Perform(GetTimestamp);
      if !at.Done? { return true; }
      var audited := Perform(SetEvent(auditKey, audit(at.value.t)));
      return !audited.Done?;
    }

    /** Opens the gate, waits for a reply and records what came. */
    method AwaitHuman(workflowId: Text, runId: Text, gateKey: Text, form: Json, ttlS: nat) returns (outcome: Outcome<GateResult>)
      requires Valid() && pos == 0 && Calls(workflowId, runId, gateKey, form, ttlS) && NormalizeGateKey(gateKey).Some?
      modifies this
      ensures Advances(outcome.Crashed?)
      ensures outcome.Done? ==> pos == Base(inputs) + 5 && !Rejects(inputs)
      ensures outcome.Done? ==> outcome.value == if TimesOut(inputs) then TimedOut else Answered(inputs.reply)
      ensures outcome.Failed? ==> outcome.fault == InvalidResult && Rejects(inputs) && |log| == Length(inputs)
    {
      var gate := NormalizeGateKey(gateKey).value;
      var promptKey, resultKey, topic := PromptKey(gate), ResultKey(gate), HUMAN + gate;
      var crash := OpenGate(workflowId, runId, gateKey, form, ttlS, topic, promptKey);
      if crash { return Crashed; }
      crash := ChaosCrash(C, workflowId);
      if crash { return Crashed; }
      var received := Perform(Recv(topic, ttlS));
      if !received.Done? { return Crashed; }
      outcome := Conclude(workflowId, received.value.j, resultKey, AuditKey(gate));
    }

    /** Everything after the wait: nothing came in time, or a reply did. */
    method Conclude(workflowId: Text, reply: Json, resultKey: Text, auditKey: Text) returns (outcome: Outcome<GateResult>)
      requires Valid() && pos == Base(inputs) + 1 && reply == inputs.reply && workflowId == args.workflowId
      requires resultKey == ResultKey(args.gate) && auditKey == AuditKey(args.gate)
      modifies this
      ensures Advances(outcome.Crashed?)
      ensures outcome.Done? ==> pos == Base(inputs) + 5 && !Rejects(inputs)
      ensures outcome.Done? ==> outcome.value == if TimesOut(inputs) then TimedOut else Answered(inputs.reply)
      ensures outcome.Failed? ==> outcome.fault == InvalidResult && Rejects(inputs) && |log| == Length(inputs)
    {
      var crash := false;
      if !reply.Null? {
        crash := ChaosCrash(D, workflowId);
        if crash { return Crashed; }
      }
      var at := Perform(GetTimestamp);
      if !at.Done? { return Crashed; }
      if reply.Null? {
        crash := RecordOutcome(TimedOutEvent(at.value.t), (t: nat) => AuditEvent(true, None, Some(TTL_EXPIRED), t), resultKey, auditKey);
        return if crash then Crashed else Done(TimedOut);
      }
      if !reply.Obj? { return Failed(InvalidResult); }
      var actor, reason := ReadText(reply.members, ACTOR), ReadText(reply.members, RATIONALE);
      crash := RecordOutcome(ReceivedEvent(reply, at.value.t), (t: nat) => AuditEvent(false, actor, reason, t), resultKey, auditKey);
      return if crash then Crashed else Done(Answered(reply));
    }

    /** Reads the clock and records the decision. */
    method RecordDecision(choice: Choice, rationale: Option<Text>, decisionKey: Text) returns (crashed: bool)
      requires Valid() && pos == (if TimesOut(inputs) then Base(inputs) + 6 else Base(inputs) + 5) && !Rejects(inputs)
      requires decisionKey == DecisionKey(args.gate) && DecisionOf(inputs) == HumanDecision(choice, rationale)
      modifies this
      ensures Advances(crashed)
      ensures !crashed ==> |log| == pos == Length(inputs) && !Rejects(inputs) && DecisionOf(inputs) == HumanDecision(choice, rationale)
    {
      var at := Perform(GetTimestamp);
      if !at.Done? { return true; }
      var recorded := Perform(SetEvent(decisionKey, DecisionEvent(choice, rationale, at.value.t)));
      return !recorded.Done?;
    }

    /** The log, the world and the decision are the script's, on inputs that came from outside. */
    ghost predicate Completed(decision: HumanDecision)
      reads this
    {
      && !Rejects(inputs) && inputs.emitted == (PromptKey(args.gate) in world0.events)
      && log == Script(args, inputs) && world == FinalWorld(args, world0, inputs) && decision == DecisionOf(inputs) && InputsHeard()
    }

    /** One run of the approval, from the top. Whatever died before, a run that returns leaves the
        script's log, the script's world and the script's decision, and nothing else. */
    method Approve(workflowId: Text, runId: Text, gateKey: Text, form: Json, ttlS: nat) returns (outcome: Outcome<HumanDecision>)
      requires Valid() && Calls(workflowId, runId, gateKey, form, ttlS)
      modifies this
      ensures Advances(outcome.Crashed?)
      ensures outcome.Done? ==> Completed(outcome.value)
      ensures outcome == Failed(InvalidGateKey) ==> NormalizeGateKey(gateKey).None? && log == old(log) && world == old(world)
      ensures outcome == Failed(InvalidResult) ==> Rejects(inputs) && log == Script(args, inputs)
      ensures outcome.Failed? ==> !outcome.fault.Diverged?
    {
      pos := 0;
      if NormalizeGateKey(gateKey).None? { return Failed(InvalidGateKey); }
      var decisionKey := DecisionKey(NormalizeGateKey(gateKey).value);
      var r := AwaitHuman(workflowId, runId, gateKey, form, ttlS);
      if !r.Done? {
        if r.Failed? { CompleteLogIsScript(args, inputs, log); }
        return if r.Crashed? then Crashed else Failed(r.fault);
      }
      outcome := Decide(workflowId, gateKey, r.value, decisionKey);
      if outcome.Done? {
        CompleteLogIsScript(args, inputs, log);
        ScriptLeavesFinalWorld(args, world0, inputs);
        ScriptIsHeard();
      }
    }

    /** Turns what came of the wait into the decision and records it. */
    method Decide(workflowId: Text, gateKey: Text, r: GateResult, decisionKey: Text) returns (outcome: Outcome<HumanDecision>)
      requires Valid() && pos == Base(inputs) + 5 && !Rejects(inputs)
      requires workflowId == args.workflowId && gateKey == args.gateKey && decisionKey == DecisionKey(args.gate)
      requires r == if TimesOut(inputs) then TimedOut else Answered(inputs.reply)
      modifies this
      ensures Advances(outcome.Crashed?) && !outcome.Failed?
      ensures outcome.Done? ==> |log| == pos == Length(inputs) && !Rejects(inputs) && outcome.value == DecisionOf(inputs)
    {
      var choice, rationale := No, Some(TIMEOUT);
      if r.TimedOut? {
        var escalated := Perform(EnqueueEscalation(workflowId, gateKey));
        if !escalated.Done? { return Crashed; }
      } else {
        choice, rationale := ResolveChoice(r.v), ResolveRationale(r.v);
      }
      var crash := RecordDecision(choice, rationale, decisionKey);
      if crash { return Crashed; }
      return Done(HumanDecision(choice, rationale));
    }

    /** How the approval may end. */
    ghost predicate Ends(gateKey: Text, outcome: Outcome<HumanDecision>)
      reads this
    {
      && (outcome.Done? ==> Completed(outcome.value))
      && (outcome.Failed? ==>
          || (outcome.fault == InvalidGateKey && NormalizeGateKey(gateKey).None?)
          || (outcome.fault == InvalidResult && Rejects(inputs) && log == Script(args, inputs)))
    }

    /** One run with a switch set or cleared before it. */
    method ApproveAgain(switch: (Option<Phase>, Option<Text>), workflowId: Text, runId: Text, gateKey: Text, form: Json, ttlS: nat)
      returns (outcome: Outcome<HumanDecision>)
      requires Valid() && Calls(workflowId, runId, gateKey, form, ttlS)
      modifies this
      ensures Valid() && Ends(gateKey, outcome) && |kills| <= |old(kills)|
      ensures |kills| == |old(kills)| ==> Unconsumed() <= old(Unconsumed()) && (outcome.Crashed? ==> Unconsumed() < old(Unconsumed()))
    {
      SetHitlChaosPhase(switch.0, switch.1);
      outcome := Approve(workflowId, runId, gateKey, form, ttlS);
    }

    /** Run again from the top after every crash, whatever switch is set or cleared before each run. It
        comes to an end: each crash uses up a kill or a switch. */
    method ApproveUntilItEnds(workflowId: Text, runId: Text, gateKey: Text, form: Json, ttlS: nat,
                              switches: nat -> (Option<Phase>, Option<Text>)) returns (outcome: Outcome<HumanDecision>)
      requires Valid() && Calls(workflowId, runId, gateKey, form, ttlS)
      modifies this
      ensures Valid() && !outcome.Crashed? && Ends(gateKey, outcome)
    {
      var runs := 0;
      outcome := ApproveAgain(switches(runs), workflowId, runId, gateKey, form, ttlS);
      while outcome.Crashed?
        invariant Valid() && Ends(gateKey, outcome)
        decreases |kills|, Unconsumed(), outcome.Crashed?
      {
        runs := runs + 1;
        outcome := ApproveAgain(switches(runs), workflowId, runId, gateKey, form, ttlS);
      }
    }
  }
}
