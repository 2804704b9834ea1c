/** The hand-written two-step engine: any number of engine processes over one database, crashing
    anywhere and resuming. Each SQL statement or transaction is one step. */
module CustomEngine {
  import opened JsText

  datatype Step = S1 | S2

  datatype Flags = Flags(step1Done: bool, step2Done: bool, completed: bool)

  /** Where a running workflow stands: before `takePhase`, before the second mark (asleep or awake),
      before the last update. */
  datatype Pc = Taking | Marking | Completing

  datatype Task = Task(workflowId: Text, pc: Pc)

  /** `marks` counts rows of `app.marks`; each engine is the list of its unfinished runs, whose
      workflow ids are its `active` set. */
  datatype State = State(runs: map<Text, Flags>, marks: multiset<(Text, Step)>, engines: seq<seq<Task>>)

  predicate Active(tasks: seq<Task>, w: Text) { exists k :: 0 <= k < |tasks| && tasks[k].workflowId == w }

  // ----- statements -----

  function Marked(marks: multiset<(Text, Step)>, w: Text, step: Step): multiset<(Text, Step)> {
    if (w, step) in marks then marks else marks + multiset{(w, step)}
  }

  function Enrolled(runs: map<Text, Flags>, w: Text): map<Text, Flags> {
    if w in runs then runs else runs[w := Flags(false, false, false)]
  }

  /** The tables after a run's next step, and what is left of the run. */
  function Act(runs: map<Text, Flags>, marks: multiset<(Text, Step)>, t: Task): (map<Text, Flags>, multiset<(Text, Step)>, seq<Task>) {
    match t.pc
    case Taking =>
      var w, enrolled := t.workflowId, Enrolled(runs, t.workflowId);
      if !enrolled[w].step1Done then (enrolled[w := enrolled[w].(step1Done := true)], Marked(marks, w, S1), [Task(w, Marking)])
      else if !enrolled[w].step2Done then (enrolled, marks, [Task(w, Marking)])
      else (enrolled, marks, [])
    case Marking => (runs, Marked(marks, t.workflowId, S2), [Task(t.workflowId, Completing)])
    case Completing =>
      (if t.workflowId in runs then runs[t.workflowId := runs[t.workflowId].(step2Done := true, completed := true)] else runs, marks, [])
  }

  function Scheduled(tasks: seq<Task>, w: Text): seq<Task> {
    if Active(tasks, w) then tasks else tasks + [Task(w, Taking)]
  }

  // ----- what can happen, in any order -----

  /** `startCrashDemo` is `Enrol` and then `Schedule`; `resumeIncomplete` is a `Schedule` for each row
      it read; a statement that rejects, whether or not it took effect, ends its run and frees the id; a
      crash forgets everything one engine had running. */
  datatype Event =
    | Enrol(w: Text)
    | Schedule(engine: nat, workflowId: Text)
    | Advance(mover: nat, task: nat)
    | Fail(owner: nat, job: nat, of: Text, landed: bool)
    | Crash(dead: nat)

  predicate Happens(s: State, event: Event) {
    match event
    case Enrol(_) => true
    case Schedule(e, w) => e < |s.engines| && w in s.runs
    case Advance(e, k) => e < |s.engines| && k < |s.engines[e]|
    case Fail(e, k, w, _) => e < |s.engines| && k < |s.engines[e]| && s.engines[e][k].workflowId == w
    case Crash(e) => e < |s.engines|
  }

  /** An event that cannot happen is skipped. */
  function After(s: State, event: Event): State {
    if !Happens(s, event) then s
    else
      match event
      case Enrol(w) => s.(runs := Enrolled(s.runs, w))
      case Schedule(e, w) => s.(engines := s.engines[e := Scheduled(s.engines[e], w)])
      case Advance(e, k) =>
        var tasks := s.engines[e];
        var (runs, marks, rest) := Act(s.runs, s.marks, tasks[k]);
        State(runs, marks, s.engines[e := tasks[..k] + rest + tasks[k + 1..]])
      case Fail(e, k, _, landed) =>
        var tasks := s.engines[e];
        var (runs, marks, _) := Act(s.runs, s.marks, tasks[k]);
        State(if landed then runs else s.runs, if landed then marks else s.marks, s.engines[e := tasks[..k] + tasks[k + 1..]])
      case Crash(e) => s.(engines := s.engines[e := []])
  }

  function Run(s: State, events: seq<Event>): State
    decreases |events|
  {
    if events == [] then s else Run(After(s, events[0]), events[1..])
  }

  // ----- the same, as statements on tables -----

  class Cluster {
    var runs: map<Text, Flags>
    var marks: multiset<(Text, Step)>
    var engines: seq<seq<Task>>

    ghost function Snapshot(): State
      reads this
    {
      State(runs, marks, engines)
    }

    constructor (count: nat)
      ensures Snapshot() == State(map[], multiset{}, seq(count, _ => []))
    {
      runs, marks, engines := map[], multiset{}, seq(count, _ => []);
    }

    method InsertMark(w: Text, step: Step)
      modifies this`marks
      ensures marks == Marked(old(marks), w, step)
    {
      if (w, step) !in marks { marks := marks + multiset{(w, step)}; }
    }

    /** One transaction; `done` tells `run` to return at once. */
    method TakePhase(w: Text) returns (done: bool)
      modifies this`runs, this`marks
      ensures (runs, marks, if done then [] else [Task(w, Marking)]) == Act(old(runs), old(marks), Task(w, Taking))
    {
      if w !in runs { runs := runs[w := Flags(false, false, false)]; }
      if !runs[w].step1Done {
        InsertMark(w, S1);
        runs := runs[w := runs[w].(step1Done := true)];
        return false;
      }
      return runs[w].step2Done;
    }

    method Complete(w: Text)
      modifies this`runs
      ensures runs == Act(old(runs), old(marks), Task(w, Completing)).0
    {
      if w in runs { runs := runs[w := runs[w].(step2Done := true, completed := true)]; }
    }

    method TakeTurn(e: nat, k: nat)
      requires e < |engines| && k < |engines[e]|
      modifies this
      ensures Snapshot() == After(old(Snapshot()), Advance(e, k))
    {
      var tasks := engines[e];
      var t := tasks[k];
      var rest: seq<Task> := [];
      match t.pc {
        case Taking =>
          var done := TakePhase(t.workflowId);
          if !done { rest := [Task(t.workflowId, Marking)]; }
        case Marking =>
          InsertMark(t.workflowId, S2);
          rest := [Task(t.workflowId, Completing)];
        case Completing =>
          Complete(t.workflowId);
      }
      engines := engines[e := tasks[..k] + rest + tasks[k + 1..]];
    }

    /** The same with a rejection: nothing is left of the run. */
    method RejectTurn(e: nat, k: nat, landed: bool)
      requires e < |engines| && k < |engines[e]|
      modifies this
      ensures Snapshot() == After(old(Snapshot()), Fail(e, k, old(engines)[e][k].workflowId, landed))
    {
      var others := engines[e][..k] + engines[e][k + 1..];
      if landed { TakeTurn(e, k); }
      engines := engines[e := others];
    }

    method ScheduleRun(e: nat, w: Text)
      requires e < |engines| && w in runs
      modifies this`engines
      ensures Snapshot() == After(old(Snapshot()), Schedule(e, w))
    {
      if Active(engines[e], w) { return; }
      engines := engines[e := engines[e] + [Task(w, Taking)]];
    }

    method StartCrashDemo(e: nat, w: Text)
      requires e < |engines|
      modifies this
      ensures Snapshot() == Run(old(Snapshot()), [Enrol(w), Schedule(e, w)])
    {
      ghost var before := Snapshot();
      if w !in runs { runs := runs[w := Flags(false, false, false)]; }
      assert Snapshot() == After(before, Enrol(w));
      ScheduleRun(e, w);
      assert [Enrol(w), Schedule(e, w)][1..] == [Schedule(e, w)];
      RunAppends(After(before, Enrol(w)), [], Schedule(e, w));
      assert [] + [Schedule(e, w)] == [Schedule(e, w)];
    }

    /** Every incomplete row is running on this engine afterwards; the tables are as they were. */
    method ResumeIncomplete(e: nat)
      requires e < |engines|
      modifies this`engines
      ensures |engines| == |old(engines)| && forall i :: 0 <= i < |engines| && i != e ==> engines[i] == old(engines)[i]
      ensures forall w :: Active(engines[e], w) <==> Active(old(engines)[e], w) || (w in runs && !runs[w].completed)
      ensures exists events :: OnlySchedules(events, e) && Snapshot() == Run(old(Snapshot()), events)
    {
      var rows := set w | w in runs && !runs[w].completed;
      var left := rows;
      ghost var events: seq<Event> := [];
      while left != {}
        invariant left <= rows && OnlySchedules(events, e) && Snapshot() == Run(old(Snapshot()), events)
        invariant |engines| == |old(engines)| && forall i :: 0 <= i < |engines| && i != e ==> engines[i] == old(engines)[i]
        invariant forall w :: Active(engines[e], w) <==> Active(old(engines)[e], w) || w in rows - left
        decreases |left|
      {
        var w :| w in left;
        RunAppends(old(Snapshot()), events, Schedule(e, w));
        ScheduledIsActive(engines[e], w);
        ScheduleRun(e, w);
        events := events + [Schedule(e, w)];
        left := left - {w};
      }
    }
  }

  ghost predicate OnlySchedules(events: seq<Event>, e: nat) {
    forall i :: 0 <= i < |events| ==> events[i].Schedule? && events[i].engine == e
  }

  lemma {:induction false} RunAppends(s: State, events: seq<Event>, event: Event)
    ensures Run(s, events + [event]) == After(Run(s, events), event)
    decreases |events|
  {
    if events == [] {
      assert [event][1..] == [] && [] + [event] == [event];
    } else {
      assert (events + [event])[1..] == events[1..] + [event];
      RunAppends(After(s, events[0]), events[1..], event);
    }
  }

  lemma ScheduledIsActive(tasks: seq<Task>, w: Text)
    ensures forall v :: Active(Scheduled(tasks, w), v) <==> Active(tasks, v) || v == w
  {
    var after := Scheduled(tasks, w);
    forall v ensures Active(after, v) <==> Active(tasks, v) || v == w {
      if Active(tasks, v) {
        var k :| 0 <= k < |tasks| && tasks[k].workflowId == v;
        assert after[k].workflowId == v;
      } else if v == w {
        assert after[|tasks|].workflowId == v;
      }
    }
  }
}
