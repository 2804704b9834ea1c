/** The state shown for a gate at each point of its exchange. */
module GateView {
  import opened JsText
  import opened HitlTopic
  import opened HumanGateModel
  import opened HumanGateProofs

  datatype GateState = Pending | Received | Resolved | TimedOut

  /** `projectGateView`, from the gate's result and decision events. */
  function ProjectState(events: map<Text, Event>, gate: Text): GateState {
    if ResultKey(gate) !in events then Pending
    else if events[ResultKey(gate)].TimedOutEvent? then TimedOut
    else if !events[ResultKey(gate)].ReceivedEvent? then Pending
    else if DecisionKey(gate) in events then Resolved
    else Received
  }

  /** Where the exchange is after `k` calls. */
  function ExpectedState(i: Inputs, k: nat): GateState {
    if k < Base(i) + 3 then Pending
    else if TimesOut(i) then TimedOut
    else if k < Length(i) then Received
    else Resolved
  }

  /** The result is set by the third call from the wait, the decision by the last call. */
  lemma WhichCallsSet(a: Args, i: Inputs, k: nat)
    requires k < Length(i)
    ensures OpAt(a, i, k).SetEvent? && OpAt(a, i, k).key == ResultKey(a.gate) <==> k == Base(i) + 2
    ensures OpAt(a, i, k).SetEvent? && OpAt(a, i, k).key == DecisionKey(a.gate) <==> k == Length(i) - 1 && !Rejects(i)
    ensures k == Base(i) + 2 ==> OpAt(a, i, k).event == ResultOf(i)
  {
    KeysDistinct(a.gate);
  }

  /** What one call does to them. */
  lemma CallShows(a: Args, i: Inputs, k: nat, w: World)
    requires k < Length(i)
    ensures
      var before, after := w.events, Effect(w, OpAt(a, i, k)).events;
      && (ResultKey(a.gate) in after <==> ResultKey(a.gate) in before || k == Base(i) + 2)
      && (k == Base(i) + 2 ==> after[ResultKey(a.gate)] == ResultOf(i))
      && (k != Base(i) + 2 && ResultKey(a.gate) in before ==> after[ResultKey(a.gate)] == before[ResultKey(a.gate)])
      && (DecisionKey(a.gate) in after <==> DecisionKey(a.gate) in before || (k == Length(i) - 1 && !Rejects(i)))
  {
    WhichCallsSet(a, i, k);
  }

  /** What a log of `k` calls has put in the events the view reads. */
  lemma {:induction false} EventsAfter(a: Args, w: World, i: Inputs, k: nat)
    requires k <= Length(i) && ResultKey(a.gate) !in w.events && DecisionKey(a.gate) !in w.events
    ensures
      var events := Effects(w, Script(a, i)[..k]).events;
      && (ResultKey(a.gate) in events <==> k >= Base(i) + 3)
      && (ResultKey(a.gate) in events ==> events[ResultKey(a.gate)] == ResultOf(i))
      && (DecisionKey(a.gate) in events <==> k == Length(i) && !Rejects(i))
  {
    if k > 0 {
      EventsAfter(a, w, i, k - 1);
      EffectsAt(w, Script(a, i), k - 1);
      assert Script(a, i)[k - 1].op == OpAt(a, i, k - 1);
      CallShows(a, i, k - 1, Effects(w, Script(a, i)[..k - 1]));
    }
  }

  lemma LogIsPrefix(a: Args, i: Inputs, log: seq<Entry>)
    requires FollowsScript(a, i, log)
    ensures log == Script(a, i)[..|log|]
  {
    forall k | 0 <= k < |log|
      ensures log[k] == Script(a, i)[..|log|][k]
    {
      assert IsScripted(a, i, log, k);
    }
  }

  /** In every world a run can be found in, even one that died between a call's effect and its
      record, the view shows the state of some number of calls made; it starts pending and never
      goes back, and a timed-out gate is never shown as resolved, though a decision is recorded. */
  lemma ViewFollowsExchange(a: Args, w: World, i: Inputs, log: seq<Entry>, world: World)
    requires ResultKey(a.gate) !in w.events && DecisionKey(a.gate) !in w.events
    requires FollowsScript(a, i, log) && WorldFits(a, w, i, log, world)
    ensures
      || ProjectState(world.events, a.gate) == ExpectedState(i, |log|)
      || (|log| < Length(i) && ProjectState(world.events, a.gate) == ExpectedState(i, |log| + 1))
  {
    var whole := Script(a, i);
    LogIsPrefix(a, i, log);
    EventsAfter(a, w, i, |log|);
    if |log| < Length(i) {
      EventsAfter(a, w, i, |log| + 1);
      EffectsAt(w, whole, |log|);
    }
  }

  // ----- nothing comes before its cause -----

  /** What the first `k` calls have done besides. */
  lemma {:induction false} MoreAfter(a: Args, w: World, i: Inputs, k: nat)
    requires k <= Length(i) && AuditKey(a.gate) !in w.events && EscalationId(a.workflowId, a.gateKey) !in w.escalations
    ensures
      var end := Effects(w, Script(a, i)[..k]);
      && (AuditKey(a.gate) in end.events <==> k >= Base(i) + 5 && !Rejects(i))
      && (EscalationId(a.workflowId, a.gateKey) in end.escalations <==> k >= Base(i) + 6 && TimesOut(i))
      && (!i.emitted && k >= 3 ==> (a.runId, a.gateKey) in end.gates)
  {
    if k > 0 {
      MoreAfter(a, w, i, k - 1);
      EffectsAt(w, Script(a, i), k - 1);
      assert Script(a, i)[k - 1].op == OpAt(a, i, k - 1);
      MoreShows(a, i, k - 1, Effects(w, Script(a, i)[..k - 1]));
    }
  }

  lemma MoreShows(a: Args, i: Inputs, k: nat, w: World)
    requires k < Length(i)
    ensures
      var end := Effect(w, OpAt(a, i, k));
      && (AuditKey(a.gate) in end.events <==> AuditKey(a.gate) in w.events || (k == Base(i) + 4 && !Rejects(i)))
      && (EscalationId(a.workflowId, a.gateKey) in end.escalations <==>
          EscalationId(a.workflowId, a.gateKey) in w.escalations || (k == Base(i) + 5 && TimesOut(i)))
      && ((a.runId, a.gateKey) in end.gates <==> (a.runId, a.gateKey) in w.gates || (k == 2 && !i.emitted))
  {
    KeysDistinct(a.gate);
  }

  /** A gate nobody has dealt with before. */
  predicate IsFresh(a: Args, w: World) {
    && PromptKey(a.gate) !in w.events && ResultKey(a.gate) !in w.events && AuditKey(a.gate) !in w.events && DecisionKey(a.gate) !in w.events
    && EscalationId(a.workflowId, a.gateKey) !in w.escalations
  }

  /** In every world a run of a fresh gate can be found in: no result without the gate's row, no audit entry
      without a result, no decision without an audit entry, no escalation but of a timed-out gate, and no
      decision on one that has not been escalated. */
  lemma CausesComeFirst(a: Args, w: World, i: Inputs, log: seq<Entry>, world: World)
    requires IsFresh(a, w) && i.emitted == (PromptKey(a.gate) in w.events)
    requires FollowsScript(a, i, log) && WorldFits(a, w, i, log, world)
    ensures
      var events, escalated := world.events, EscalationId(a.workflowId, a.gateKey) in world.escalations;
      && (ResultKey(a.gate) in events ==> (a.runId, a.gateKey) in world.gates)
      && (AuditKey(a.gate) in events ==> ResultKey(a.gate) in events)
      && (DecisionKey(a.gate) in events ==> AuditKey(a.gate) in events)
      && (escalated ==> ResultKey(a.gate) in events && events[ResultKey(a.gate)].TimedOutEvent?)
      && (DecisionKey(a.gate) in events && events[ResultKey(a.gate)].TimedOutEvent? ==> escalated)
  {
    LogIsPrefix(a, i, log);
    EventsAfter(a, w, i, |log|);
    MoreAfter(a, w, i, |log|);
    if |log| < Length(i) {
      EventsAfter(a, w, i, |log| + 1);
      MoreAfter(a, w, i, |log| + 1);
      EffectsAt(w, Script(a, i), |log|);
    }
  }

  function Rank(s: GateState): nat { match s case Pending => 0 case Received => 1 case _ => 2 }

  lemma StateNeverGoesBack(i: Inputs, j: nat, k: nat)
    requires j <= k <= Length(i)
    ensures Rank(ExpectedState(i, j)) <= Rank(ExpectedState(i, k))
    ensures Rank(ExpectedState(i, j)) == Rank(ExpectedState(i, k)) ==> ExpectedState(i, j) == ExpectedState(i, k)
    ensures TimesOut(i) ==> ExpectedState(i, k) != Resolved
  {}
}
