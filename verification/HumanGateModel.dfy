/** The human gate's calls, what each does to the durable world, and the whole exchange as a
    function of what came from outside. */
module HumanGateModel {
  import opened JsText
  import opened JsonValues
  import opened HitlTopic
  import opened DecisionPayload

  /** What `approve` is called with, `gate` and `topic` being the gate key's normal form and topic. */
  datatype Args = Args(workflowId: Text, runId: Text, gateKey: Text, form: Json, ttlS: nat, gate: Text, topic: Text)

  datatype Event =
    | PromptEvent(form: Json, ttlS: nat, createdAt: nat, deadlineAt: nat)
    | ReceivedEvent(payload: Json, at: nat)
    | TimedOutEvent(at: nat)
    | AuditEvent(timedOut: bool, actor: Option<Text>, reason: Option<Text>, at: nat)
    | DecisionEvent(choice: Choice, rationale: Option<Text>, at: nat)

  datatype HumanDecision = HumanDecision(choice: Choice, rationale: Option<Text>)

  /** What outlives the process: the workflow's events, the gate rows, the escalation workflows. */
  datatype World = World(events: map<Text, Event>, gates: map<(Text, Text), Text>, escalations: set<Text>)

  datatype Op =
    | WasPromptEmitted(workflowId: Text, gateKey: Text)
    | GetTimestamp
    | OpenHumanGate(runId: Text, gateKey: Text, topic: Text)
    | SetEvent(key: Text, event: Event)
    | Recv(topic: Text, ttlS: nat)
    | EnqueueEscalation(workflowId: Text, gateKey: Text)

  datatype Reply = Flag(b: bool) | Time(t: nat) | Message(j: Json) | Unit

  /** A completed call and what it returned. */
  datatype Entry = Entry(op: Op, reply: Reply)

  // "ui:", ":result", ":audit", "decision:", "actor", "TTL expired"
  const UI: Text := [0x75, 0x69, 0x3A]
  const RESULT_SUFFIX: Text := [0x3A, 0x72, 0x65, 0x73, 0x75, 0x6C, 0x74]
  const AUDIT_SUFFIX: Text := [0x3A, 0x61, 0x75, 0x64, 0x69, 0x74]
  const DECISION_PREFIX: Text := [0x64, 0x65, 0x63, 0x69, 0x73, 0x69, 0x6F, 0x6E, 0x3A]
  const ACTOR: Text := [0x61, 0x63, 0x74, 0x6F, 0x72]
  const TTL_EXPIRED: Text := [0x54, 0x54, 0x4C, 0x20, 0x65, 0x78, 0x70, 0x69, 0x72, 0x65, 0x64]

  function PromptKey(gate: Text): Text { UI + gate }
  function ResultKey(gate: Text): Text { UI + gate + RESULT_SUFFIX }
  function AuditKey(gate: Text): Text { UI + gate + AUDIT_SUFFIX }
  function DecisionKey(gate: Text): Text { DECISION_PREFIX + gate }

  /** One gate's four keys never collide. */
  lemma KeysDistinct(gate: Text)
    ensures PromptKey(gate) != ResultKey(gate) && PromptKey(gate) != AuditKey(gate) && PromptKey(gate) != DecisionKey(gate)
    ensures ResultKey(gate) != AuditKey(gate) && ResultKey(gate) != DecisionKey(gate) && AuditKey(gate) != DecisionKey(gate)
  {
    assert PromptKey(gate)[0] == 0x75 && ResultKey(gate)[0] == 0x75 && AuditKey(gate)[0] == 0x75 && DecisionKey(gate)[0] == 0x64;
    assert |PromptKey(gate)| < |AuditKey(gate)| < |ResultKey(gate)|;
  }

  predicate IsGateEvent(gate: Text, key: Text) {
    key == PromptKey(gate) || key == ResultKey(gate) || key == AuditKey(gate) || key == DecisionKey(gate)
  }

  /** One gate key is the other followed by `:result` or `:audit`. */
  predicate Extends(gate: Text, other: Text) { other == gate + RESULT_SUFFIX || other == gate + AUDIT_SUFFIX }

  /** Two gates of one workflow share an event key exactly when one gate's key extends the other's. */
  lemma GatesShareKeyExactly(g: Text, h: Text)
    requires g != h
    ensures (exists key :: IsGateEvent(g, key) && IsGateEvent(h, key)) <==> Extends(g, h) || Extends(h, g)
  {
    if key :| IsGateEvent(g, key) && IsGateEvent(h, key) {
      Suffixes(g, h);
      Suffixes(h, g);
      assert DecisionKey(g)[9..] == g && DecisionKey(h)[9..] == h;
      assert key[0] == 0x64 || key[0] == 0x75;
    }
    if Extends(g, h) { SharesPrompt(g, h); }
    if Extends(h, g) { SharesPrompt(h, g); }
  }

  lemma SharesPrompt(g: Text, h: Text)
    requires Extends(g, h)
    ensures IsGateEvent(g, PromptKey(h)) && IsGateEvent(h, PromptKey(h))
  {}

  /** What it takes for `g`'s prompt, result or audit key to be another gate's. */
  lemma Suffixes(g: Text, h: Text)
    requires g != h
    ensures PromptKey(g) != PromptKey(h) && ResultKey(g) != ResultKey(h) && AuditKey(g) != AuditKey(h)
    ensures ResultKey(g) != AuditKey(h)
    ensures PromptKey(h) == ResultKey(g) || PromptKey(h) == AuditKey(g) ==> Extends(g, h)
  {
    assert PromptKey(g)[3..] == g && PromptKey(h)[3..] == h;
    assert ResultKey(g)[3..|ResultKey(g)| - 7] == g && ResultKey(h)[3..|ResultKey(h)| - 7] == h;
    assert AuditKey(g)[3..|AuditKey(g)| - 6] == g && AuditKey(h)[3..|AuditKey(h)| - 6] == h;
    var r, a := ResultKey(g), AuditKey(h);
    assert r[|r| - 6] == 0x72 && a[|a| - 6] == 0x3A;
    assert r[3..] == g + RESULT_SUFFIX && AuditKey(g)[3..] == g + AUDIT_SUFFIX;
  }

  // ----- effects -----

  /** Each effect done twice is done once: rows and workflows are inserted if absent. */
  function Effect(w: World, op: Op): World {
    match op
    case OpenHumanGate(runId, gateKey, topic) =>
      if (runId, gateKey) in w.gates then w else w.(gates := w.gates[(runId, gateKey) := topic])
    case SetEvent(key, event) => w.(events := w.events[key := event])
    case EnqueueEscalation(workflowId, gateKey) =>
      w.(escalations := w.escalations + {EscalationId(workflowId, gateKey)})
    case _ => w
  }

  function Effects(w: World, log: seq<Entry>): World {
    if log == [] then w else Effect(Effects(w, log[..|log| - 1]), log[|log| - 1].op)
  }

  // ----- the exchange -----

  /** What a run learns from outside: whether a prompt was there already, the reply (`Null` for
      none in time), and the four times it reads. */
  datatype Inputs = Inputs(emitted: bool, now: nat, reply: Json, t1: nat, t2: nat, t3: nat)

  /** Calls made before `recv`. */
  function Base(i: Inputs): nat { if i.emitted then 2 else 4 }

  predicate TimesOut(i: Inputs) { i.reply.Null? }

  /** The result contract wants an object; any other reply fails the workflow. */
  predicate Rejects(i: Inputs) { !i.reply.Null? && !i.reply.Obj? }

  function Length(i: Inputs): nat { Base(i) + if Rejects(i) then 2 else if TimesOut(i) then 8 else 7 }

  function PromptOf(a: Args, i: Inputs): Event { PromptEvent(a.form, a.ttlS, i.now, i.now + a.ttlS * 1000) }

  function ResultOf(i: Inputs): Event { if TimesOut(i) then TimedOutEvent(i.t1) else ReceivedEvent(i.reply, i.t1) }

  function AuditOf(i: Inputs): Event {
    if TimesOut(i) then AuditEvent(true, None, Some(TTL_EXPIRED), i.t2)
    else AuditEvent(false, ReadText(AsRecord(i.reply), ACTOR), ReadText(AsRecord(i.reply), RATIONALE), i.t2)
  }

  function DecisionOf(i: Inputs): HumanDecision {
    if TimesOut(i) then HumanDecision(No, Some(TIMEOUT))
    else HumanDecision(ResolveChoice(i.reply), ResolveRationale(i.reply))
  }

  function ClosingOp(a: Args, i: Inputs, k: nat): Op {
    if k == 0 then Recv(a.topic, a.ttlS)
    else if k == 1 || k == 3 then GetTimestamp
    else if k == 2 then SetEvent(ResultKey(a.gate), ResultOf(i))
    else if k == 4 then SetEvent(AuditKey(a.gate), AuditOf(i))
    else if TimesOut(i) && k == 5 then EnqueueEscalation(a.workflowId, a.gateKey)
    else if k == (if TimesOut(i) then 6 else 5) then GetTimestamp
    else SetEvent(DecisionKey(a.gate), DecisionEvent(DecisionOf(i).choice, DecisionOf(i).rationale, i.t3))
  }

  /** The `k`-th call of a run on these inputs. */
  function OpAt(a: Args, i: Inputs, k: nat): Op {
    if k >= Base(i) then ClosingOp(a, i, k - Base(i))
    else if k == 0 then WasPromptEmitted(a.workflowId, a.gateKey)
    else if k == 1 then GetTimestamp
    else if k == 2 then OpenHumanGate(a.runId, a.gateKey, a.topic)
    else SetEvent(PromptKey(a.gate), PromptOf(a, i))
  }

  function ReplyAt(i: Inputs, k: nat): Reply {
    if k == 0 then Flag(i.emitted)
    else if k == 1 then Time(i.now)
    else if k < Base(i) then Unit
    else
      var c := k - Base(i);
      if c == 0 then Message(i.reply)
      else if c == 1 then Time(i.t1)
      else if c == 3 then Time(i.t2)
      else if c == (if TimesOut(i) then 6 else 5) then Time(i.t3)
      else Unit
  }

  /** The log of a whole run on these inputs. */
  function Script(a: Args, i: Inputs): (log: seq<Entry>)
    ensures |log| == Length(i)
  {
    seq(Length(i), k requires 0 <= k => Entry(OpAt(a, i, k), ReplyAt(i, k)))
  }

  /** What a completed run leaves behind, said outright. */
  function FinalWorld(a: Args, w: World, i: Inputs): World {
    var events := if i.emitted then w.events else w.events[PromptKey(a.gate) := PromptOf(a, i)];
    World(
      events[ResultKey(a.gate) := ResultOf(i)][AuditKey(a.gate) := AuditOf(i)]
            [DecisionKey(a.gate) := DecisionEvent(DecisionOf(i).choice, DecisionOf(i).rationale, i.t3)],
      if i.emitted || (a.runId, a.gateKey) in w.gates then w.gates else w.gates[(a.runId, a.gateKey) := a.topic],
      if TimesOut(i) then w.escalations + {EscalationId(a.workflowId, a.gateKey)} else w.escalations)
  }
}
