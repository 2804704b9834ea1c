/** What the two-step engine keeps through every crash, and why a resume finishes everything. */
module CustomEngineProofs {
  import opened JsText
  import opened CustomEngine

  // ----- safety -----

  ghost predicate RowInv(runs: map<Text, Flags>, marks: multiset<(Text, Step)>, w: Text) {
    && marks[(w, S1)] <= 1 && marks[(w, S2)] <= 1
    && ((w, S2) in marks ==> (w, S1) in marks)
    && ((w, S1) in marks <==> w in runs && runs[w].step1Done)
    && (w in runs ==> runs[w].completed == runs[w].step2Done)
    && (w in runs && runs[w].completed ==> (w, S2) in marks)
  }

  ghost predicate TaskInv(runs: map<Text, Flags>, marks: multiset<(Text, Step)>, t: Task) {
    && t.workflowId in runs
    && (!t.pc.Taking? ==> (t.workflowId, S1) in marks)
    && (t.pc.Completing? ==> (t.workflowId, S2) in marks)
  }

  ghost predicate TasksInv(runs: map<Text, Flags>, marks: multiset<(Text, Step)>, tasks: seq<Task>) {
    forall k :: 0 <= k < |tasks| ==> TaskInv(runs, marks, tasks[k])
  }

  ghost predicate Inv(s: State) {
    && (forall w {:trigger RowInv(s.runs, s.marks, w)} :: RowInv(s.runs, s.marks, w))
    && forall e {:trigger TasksInv(s.runs, s.marks, s.engines[e])} :: 0 <= e < |s.engines| ==> TasksInv(s.runs, s.marks, s.engines[e])
  }

  /** What is done stays done: no row or mark disappears, no flag is taken back. */
  ghost predicate Advances(s: State, t: State) {
    && s.marks <= t.marks
    && forall w :: w in s.runs ==>
         && w in t.runs
         && (s.runs[w].step1Done ==> t.runs[w].step1Done)
         && (s.runs[w].step2Done ==> t.runs[w].step2Done)
         && (s.runs[w].completed ==> t.runs[w].completed)
  }

  lemma TasksStay(s: State, t: State, tasks: seq<Task>)
    requires Advances(s, t) && TasksInv(s.runs, s.marks, tasks)
    ensures TasksInv(t.runs, t.marks, tasks)
  {}

  lemma ActKeepsRows(s: State, t: Task)
    requires Inv(s) && TaskInv(s.runs, s.marks, t)
    ensures
      var (runs, marks, rest) := Act(s.runs, s.marks, t);
      && Advances(s, State(runs, marks, s.engines))
      && (forall w {:trigger RowInv(runs, marks, w)} :: RowInv(runs, marks, w))
      && TasksInv(runs, marks, rest)
  {
    var (runs, marks, rest) := Act(s.runs, s.marks, t);
    assert RowInv(s.runs, s.marks, t.workflowId);
    forall w ensures RowInv(runs, marks, w) {
      assert RowInv(s.runs, s.marks, w);
    }
  }

  lemma AfterKeepsInv(s: State, event: Event)
    requires Inv(s)
    ensures Inv(After(s, event)) && Advances(s, After(s, event))
  {
    var t := After(s, event);
    if event.Advance? && Happens(s, event) {
      AdvanceKeepsInv(s, event.mover, event.task);
    } else if event.Fail? && Happens(s, event) {
      FailKeepsInv(s, event);
    } else {
      assert Advances(s, t);
      forall w ensures RowInv(t.runs, t.marks, w) {
        assert RowInv(s.runs, s.marks, w);
      }
      forall e | 0 <= e < |t.engines| ensures TasksInv(t.runs, t.marks, t.engines[e]) {
        assert TasksInv(s.runs, s.marks, s.engines[e]);
        TasksStay(s, t, s.engines[e]);
      }
    }
  }

  lemma AdvanceKeepsInv(s: State, e: nat, k: nat)
    requires Inv(s) && Happens(s, Advance(e, k))
    ensures Inv(After(s, Advance(e, k))) && Advances(s, After(s, Advance(e, k)))
  {
    var t := After(s, Advance(e, k));
    assert TasksInv(s.runs, s.marks, s.engines[e]);
    ActKeepsRows(s, s.engines[e][k]);
    forall d | 0 <= d < |t.engines| ensures TasksInv(t.runs, t.marks, t.engines[d]) {
      assert TasksInv(s.runs, s.marks, s.engines[d]);
      TasksStay(s, t, s.engines[d]);
    }
  }

  lemma FailKeepsInv(s: State, event: Event)
    requires Inv(s) && event.Fail? && Happens(s, event)
    ensures Inv(After(s, event)) && Advances(s, After(s, event))
  {
    var t := After(s, event);
    assert TasksInv(s.runs, s.marks, s.engines[event.owner]);
    ActKeepsRows(s, s.engines[event.owner][event.job]);
    forall w ensures RowInv(t.runs, t.marks, w) {
      assert RowInv(s.runs, s.marks, w);
    }
    forall d | 0 <= d < |t.engines| ensures TasksInv(t.runs, t.marks, t.engines[d]) {
      assert TasksInv(s.runs, s.marks, s.engines[d]);
      TasksStay(s, t, s.engines[d]);
    }
  }

  /** Over every run of any engines, however often they crash or a statement of theirs rejects: each mark exists at most once, the
      second only with the first, a run is completed exactly when its second step is done and then both
      marks exist, and nothing done is ever undone. */
  lemma {:induction false} EnginesKeepInv(s: State, events: seq<Event>)
    requires Inv(s)
    ensures Inv(Run(s, events)) && Advances(s, Run(s, events))
    decreases |events|
  {
    if events != [] {
      AfterKeepsInv(s, events[0]);
      EnginesKeepInv(After(s, events[0]), events[1..]);
    }
  }

  /** From empty tables: what the marks say about a run is what its row says, whatever has happened. */
  lemma MarksFollowRows(count: nat, events: seq<Event>, w: Text)
    ensures
      var end := Run(State(map[], multiset{}, seq(count, _ => [])), events);
      && end.marks[(w, S1)] == (if w in end.runs && end.runs[w].step1Done then 1 else 0)
      && (if w in end.runs && end.runs[w].completed then 1 else 0) <= end.marks[(w, S2)] <= end.marks[(w, S1)]
  {
    var start := State(map[], multiset{}, seq(count, _ => []));
    EnginesKeepInv(start, events);
    assert RowInv(Run(start, events).runs, Run(start, events).marks, w);
  }

  // ----- a resume finishes -----

  predicate Complete(s: State, w: Text) { w in s.runs && s.runs[w].completed }

  /** Work left to an engine: three steps for a task not begun. */
  function Weight(tasks: seq<Task>): nat {
    if tasks == [] then 0
    else (match tasks[0].pc case Taking => 3 case Marking => 2 case Completing => 1) + Weight(tasks[1..])
  }

  lemma {:induction false} WeightJoins(a: seq<Task>, b: seq<Task>)
    ensures Weight(a + b) == Weight(a) + Weight(b)
  {
    if a == [] { assert a + b == b; }
    else {
      assert (a + b)[1..] == a[1..] + b;
      WeightJoins(a[1..], b);
    }
  }

  /** A step lightens its engine, and no other. */
  lemma AdvanceLightens(s: State, e: nat, k: nat)
    requires Happens(s, Advance(e, k))
    ensures Weight(After(s, Advance(e, k)).engines[e]) < Weight(s.engines[e])
    ensures forall d :: 0 <= d < |s.engines| && d != e ==> After(s, Advance(e, k)).engines[d] == s.engines[d]
  {
    var tasks := s.engines[e];
    var rest := Act(s.runs, s.marks, tasks[k]).2;
    assert tasks == tasks[..k] + ([tasks[k]] + tasks[k + 1..]);
    WeightJoins(tasks[..k], [tasks[k]] + tasks[k + 1..]);
    WeightJoins([tasks[k]], tasks[k + 1..]);
    WeightJoins(tasks[..k] + rest, tasks[k + 1..]);
    WeightJoins(tasks[..k], rest);
    assert [tasks[k]][1..] == [];
    assert rest != [] ==> rest[1..] == [];
  }

  /** The engine has the run in hand, or the run is complete. */
  ghost predicate InHand(s: State, e: nat, w: Text) {
    e < |s.engines| && (Complete(s, w) || Active(s.engines[e], w))
  }

  /** The run of `w` ends early. */
  predicate FailsOn(event: Event, e: nat, w: Text) { event.Fail? && event.owner == e && event.of == w }

  ghost predicate SomeFailsOn(events: seq<Event>, e: nat, w: Text) {
    exists i :: 0 <= i < |events| && FailsOn(events[i], e, w)
  }

  lemma AfterKeepsInHand(s: State, event: Event, e: nat, w: Text)
    requires Inv(s) && InHand(s, e, w) && event != Crash(e) && !FailsOn(event, e, w)
    ensures InHand(After(s, event), e, w)
  {
    AfterKeepsInv(s, event);
    var t := After(s, event);
    if !Complete(s, w) && Happens(s, event) {
      var i :| 0 <= i < |s.engines[e]| && s.engines[e][i].workflowId == w;
      assert TasksInv(s.runs, s.marks, s.engines[e]);
      assert TaskInv(s.runs, s.marks, s.engines[e][i]) && RowInv(s.runs, s.marks, w);
      match event {
        case Schedule(d, v) => if d == e { ScheduledIsActive(s.engines[e], v); }
        case Advance(d, k) => if d == e { TaskStaysInHand(s, e, k, i); }
        case Fail(d, k, _, _) => if d == e { assert t.engines[e][if i < k then i else i - 1] == s.engines[e][i]; }
        case _ =>
      }
    }
  }

  lemma TaskStaysInHand(s: State, e: nat, k: nat, i: nat)
    requires Happens(s, Advance(e, k)) && i < |s.engines[e]| && Inv(s)
    ensures InHand(After(s, Advance(e, k)), e, s.engines[e][i].workflowId)
  {
    var tasks, w := s.engines[e], s.engines[e][i].workflowId;
    var rest := Act(s.runs, s.marks, tasks[k]).2;
    var after := After(s, Advance(e, k)).engines[e];
    assert TasksInv(s.runs, s.marks, tasks);
    assert TaskInv(s.runs, s.marks, tasks[k]) && RowInv(s.runs, s.marks, tasks[k].workflowId);
    assert after == tasks[..k] + rest + tasks[k + 1..];
    if i < k { assert after[i].workflowId == w; }
    else if i > k { assert after[i - 1 + |rest|].workflowId == w; }
    else if rest != [] { assert after[k] == rest[0]; }
  }

  /** Steps of one engine among the events, those that could happen. */
  function StepsOf(s: State, events: seq<Event>, e: nat): nat
    decreases |events|
  {
    if events == [] then 0
    else
      (if events[0].Advance? && events[0].mover == e && Happens(s, events[0]) then 1 else 0)
      + StepsOf(After(s, events[0]), events[1..], e)
  }

  /** Nothing crashes this engine or gives it more to do. */
  predicate Undisturbed(events: seq<Event>, e: nat) {
    forall i :: 0 <= i < |events| ==> events[i] != Crash(e) && !(events[i].Schedule? && events[i].engine == e)
  }

  lemma FailLightens(s: State, event: Event)
    requires event.Fail? && Happens(s, event)
    ensures Weight(After(s, event).engines[event.owner]) <= Weight(s.engines[event.owner])
    ensures forall d :: 0 <= d < |s.engines| && d != event.owner ==> After(s, event).engines[d] == s.engines[d]
  {
    var tasks, k := s.engines[event.owner], event.job;
    assert tasks == tasks[..k] + ([tasks[k]] + tasks[k + 1..]);
    WeightJoins(tasks[..k], [tasks[k]] + tasks[k + 1..]);
    WeightJoins([tasks[k]], tasks[k + 1..]);
    WeightJoins(tasks[..k], tasks[k + 1..]);
  }

  /** Left undisturbed, an engine takes no more steps than its work weighs, and whatever it had in hand
      is complete once it has no task left, unless a statement of that run rejected, whatever the other
      engines do meanwhile. */
  lemma {:induction false} UndisturbedEngineFinishes(s: State, events: seq<Event>, e: nat)
    requires Inv(s) && e < |s.engines| && Undisturbed(events, e)
    ensures e < |Run(s, events).engines|
    ensures StepsOf(s, events, e) + Weight(Run(s, events).engines[e]) <= Weight(s.engines[e])
    ensures forall w :: InHand(s, e, w) && !SomeFailsOn(events, e, w) && Run(s, events).engines[e] == [] ==> Complete(Run(s, events), w)
    decreases |events|
  {
    if events == [] {
      assert forall w :: Active(s.engines[e], w) ==> s.engines[e] != [];
    } else {
      var t := After(s, events[0]);
      AfterKeepsInv(s, events[0]);
      if events[0].Advance? && Happens(s, events[0]) { AdvanceLightens(s, events[0].mover, events[0].task); }
      if events[0].Fail? && Happens(s, events[0]) { FailLightens(s, events[0]); }
      assert forall i :: 0 <= i < |events[1..]| ==> events[1..][i] == events[i + 1];
      forall w | InHand(s, e, w) && !SomeFailsOn(events, e, w)
        ensures InHand(t, e, w) && !SomeFailsOn(events[1..], e, w)
      {
        assert !FailsOn(events[0], e, w);
        AfterKeepsInHand(s, events[0], e, w);
      }
      UndisturbedEngineFinishes(t, events[1..], e);
    }
  }

  /** Whatever state an engine is in, steps of its own alone complete all it has in hand. */
  lemma {:induction false} EngineCanFinish(s: State, e: nat) returns (events: seq<Event>)
    requires Inv(s) && e < |s.engines|
    ensures |events| <= Weight(s.engines[e]) && forall i :: 0 <= i < |events| ==> events[i] == Advance(e, 0)
    ensures e < |Run(s, events).engines| && Run(s, events).engines[e] == []
    ensures forall w :: InHand(s, e, w) ==> Complete(Run(s, events), w)
    decreases Weight(s.engines[e])
  {
    events := [];
    if s.engines[e] != [] {
      AdvanceLightens(s, e, 0);
      AfterKeepsInv(s, Advance(e, 0));
      var rest := EngineCanFinish(After(s, Advance(e, 0)), e);
      events := [Advance(e, 0)] + rest;
      assert events[1..] == rest;
    }
    UndisturbedEngineFinishes(s, events, e);
  }

  /** After a resume with no crash, driving the engine's tasks in whatever order the scheduler picks
      finishes every run that was incomplete. */
  method ResumeAndDrain(cluster: Cluster, e: nat, pick: nat -> nat)
    requires Inv(cluster.Snapshot()) && e < |cluster.engines|
    modifies cluster
    ensures e < |cluster.engines| && cluster.engines[e] == [] && Inv(cluster.Snapshot())
    ensures forall w :: w in old(cluster.runs) ==> w in cluster.runs && cluster.runs[w].completed
  {
    ghost var before := cluster.Snapshot();
    cluster.ResumeIncomplete(e);
    ghost var events :| OnlySchedules(events, e) && cluster.Snapshot() == Run(before, events);
    EnginesKeepInv(before, events);
    var tick := 0;
    assert forall w :: w in before.runs ==> InHand(cluster.Snapshot(), e, w);
    while cluster.engines[e] != []
      invariant Inv(cluster.Snapshot()) && e < |cluster.engines|
      invariant forall w :: w in before.runs ==> InHand(cluster.Snapshot(), e, w)
      decreases Weight(cluster.engines[e])
    {
      ghost var s := cluster.Snapshot();
      var k := pick(tick) % |cluster.engines[e]|;
      tick := tick + 1;
      AfterKeepsInv(s, Advance(e, k));
      AdvanceLightens(s, e, k);
      forall w | w in before.runs ensures InHand(After(s, Advance(e, k)), e, w) { AfterKeepsInHand(s, Advance(e, k), e, w); }
      cluster.TakeTurn(e, k);
    }
    assert forall w :: w in before.runs ==> InHand(cluster.Snapshot(), e, w);
  }
}
