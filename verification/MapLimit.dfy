/** A worker pool over a shared cursor. A worker runs without interruption from one `await` to the
    next, so a turn stores the awaited result and claims the next index; turns come in any order. */
module MapLimit {
  import opened JsonValues

  datatype Pc = Starting | InFlight(idx: nat) | Stopped

  function Running(workers: seq<Pc>): nat {
    if workers == [] then 0 else (if workers[0].Stopped? then 0 else 1) + Running(workers[1..])
  }

  function Flying(workers: seq<Pc>): nat {
    if workers == [] then 0 else (if workers[0].InFlight? then 1 else 0) + Flying(workers[1..])
  }

  lemma {:induction false} RunningUpdate(workers: seq<Pc>, w: nat, pc: Pc)
    requires w < |workers|
    ensures Running(workers[w := pc]) ==
      Running(workers) - (if workers[w].Stopped? then 0 else 1) + (if pc.Stopped? then 0 else 1)
  {
    if w == 0 {
      assert workers[0 := pc] == [pc] + workers[1..];
    } else {
      assert workers[w := pc] == [workers[0]] + workers[1..][w - 1 := pc];
      RunningUpdate(workers[1..], w - 1, pc);
    }
  }

  lemma {:induction false} FlyingUpdate(workers: seq<Pc>, w: nat, pc: Pc)
    requires w < |workers|
    ensures Flying(workers[w := pc]) ==
      Flying(workers) - (if workers[w].InFlight? then 1 else 0) + (if pc.InFlight? then 1 else 0)
  {
    if w == 0 {
      assert workers[0 := pc] == [pc] + workers[1..];
    } else {
      assert workers[w := pc] == [workers[0]] + workers[1..][w - 1 := pc];
      FlyingUpdate(workers[1..], w - 1, pc);
    }
  }

  lemma {:induction false} NoneFlying(workers: seq<Pc>)
    requires forall w :: 0 <= w < |workers| ==> !workers[w].InFlight?
    ensures Flying(workers) == 0
  {
    if workers != [] { NoneFlying(workers[1..]); }
  }

  lemma {:induction false} SomeRunning(workers: seq<Pc>)
    ensures Running(workers) == 0 <==> forall w :: 0 <= w < |workers| ==> workers[w].Stopped?
  {
    if workers != [] {
      SomeRunning(workers[1..]);
      assert forall w :: 1 <= w < |workers| ==> workers[w] == workers[1..][w - 1];
      assert forall w :: 0 <= w < |workers[1..]| ==> workers[1..][w] == workers[w + 1];
    }
  }

  class Pool<T(!new), R(!new)> {
    const items: seq<T>
    const worker: (T, nat) -> R
    const out: array<Option<R>>
    var cursor: nat
    var workers: seq<Pc>
    /** The indexes the worker function was called with, in order. */
    var calls: seq<nat>

    constructor (items: seq<T>, capped: nat, worker: (T, nat) -> R)
      requires capped > 0
      ensures this.items == items && this.worker == worker && |workers| == capped && calls == []
      ensures fresh(out) && Valid()
    {
      this.items, this.worker := items, worker;
      cursor, calls := 0, [];
      workers := seq(capped, _ => Starting);
      out := new Option<R>[|items|](_ => None);
      new;
      NoneFlying(workers);
      NothingStored(out[..]);
    }

    /** Every index below the cursor was called once and in order, and is either in one worker's hands or
        stored; the others are untouched; a worker stops only when nothing is left to claim. */
    ghost predicate Valid()
      reads this, out
    {
      && cursor <= |items| && out.Length == |items| && workers != []
      && calls == seq(cursor, i => i)
      && (forall w :: 0 <= w < |workers| && workers[w].InFlight? ==> workers[w].idx < cursor && out[workers[w].idx].None?)
      && (forall v, w :: 0 <= v < w < |workers| && workers[v].InFlight? ==> workers[v] != workers[w])
      && (forall i :: 0 <= i < cursor ==> out[i] == Some(worker(items[i], i)) || InHand(i))
      && (forall i :: cursor <= i < |items| ==> out[i].None?)
      && (forall w :: 0 <= w < |workers| && workers[w].Stopped? ==> cursor == |items|)
      && Flying(workers) + Stored() == cursor
    }

    ghost predicate InHand(i: nat)
      reads this
    {
      exists w :: 0 <= w < |workers| && workers[w] == InFlight(i)
    }

    ghost function Stored(): nat
      reads this, out
    {
      StoredIn(out[..])
    }

    /** One worker's stretch between two awaits. */
    method Resume(w: nat)
      requires Valid() && w < |workers| && !workers[w].Stopped?
      modifies this`cursor, this`workers, this`calls, out
      ensures Valid() && |workers| == |old(workers)|
      ensures |items| - cursor + Running(workers) < old(|items| - cursor + Running(workers))
    {
      Settle(w);
      if cursor < |items| { Claim(w); } else { Stop(w); }
    }

    method Claim(w: nat)
      requires Valid() && w < |workers| && workers[w].Starting? && cursor < |items|
      modifies this`cursor, this`workers, this`calls
      ensures Valid() && workers == old(workers)[w := InFlight(old(cursor))] && cursor == old(cursor) + 1
      ensures Running(workers) == old(Running(workers))
    {
      var idx := cursor;
      RunningUpdate(workers, w, InFlight(idx));
      FlyingUpdate(workers, w, InFlight(idx));
      cursor := cursor + 1;
      calls := calls + [idx];
      ghost var before := workers;
      workers := workers[w := InFlight(idx)];
      assert workers[w] == InFlight(idx);
      forall i | 0 <= i < cursor ensures out[i] == Some(worker(items[i], i)) || InHand(i) {
        if i < idx && out[i].None? {
          var v :| 0 <= v < |before| && before[v] == InFlight(i);
          assert workers[v] == InFlight(i);
        }
      }
    }

    method Stop(w: nat)
      requires Valid() && w < |workers| && workers[w].Starting? && cursor == |items|
      modifies this`workers
      ensures Valid() && workers == old(workers)[w := Stopped]
      ensures Running(workers) == old(Running(workers)) - 1
    {
      RunningUpdate(workers, w, Stopped);
      FlyingUpdate(workers, w, Stopped);
      ghost var before := workers;
      workers := workers[w := Stopped];
      forall i | 0 <= i < cursor ensures out[i] == Some(worker(items[i], i)) || InHand(i) {
        if out[i].None? {
          var v :| 0 <= v < |before| && before[v] == InFlight(i);
          assert workers[v] == InFlight(i);
        }
      }
    }

    /** The awaited result arrives: it is stored, and the worker holds nothing. */
    method Settle(w: nat)
      requires Valid() && w < |workers| && !workers[w].Stopped?
      modifies this`workers, out
      ensures Valid() && workers == old(workers)[w := Starting]
      ensures Running(workers) == old(Running(workers))
      ensures forall i :: 0 <= i < out.Length && old(workers[w]) != InFlight(i) ==> out[i] == old(out[i])
    {
      RunningUpdate(workers, w, Starting);
      FlyingUpdate(workers, w, Starting);
      ghost var before := workers;
      if workers[w].InFlight? {
        var idx := workers[w].idx;
        ghost var was := out[..];
        out[idx] := Some(worker(items[idx], idx));
        assert out[..] == was[idx := out[idx]];
        StoredUpdate(was, idx, out[idx]);
      }
      workers := workers[w := Starting];
      forall i | 0 <= i < cursor ensures out[i] == Some(worker(items[i], i)) || InHand(i) {
        if out[i].None? {
          var v :| 0 <= v < |before| && before[v] == InFlight(i);
          assert workers[v] == InFlight(i);
        }
      }
    }
  }

  function StoredIn<R>(out: seq<Option<R>>): nat {
    if out == [] then 0 else (if out[0].Some? then 1 else 0) + StoredIn(out[1..])
  }

  lemma {:induction false} StoredUpdate<R>(out: seq<Option<R>>, i: nat, r: Option<R>)
    requires i < |out|
    ensures StoredIn(out[i := r]) == StoredIn(out) - (if out[i].Some? then 1 else 0) + (if r.Some? then 1 else 0)
  {
    if i == 0 {
      assert out[0 := r] == [r] + out[1..];
    } else {
      assert out[i := r] == [out[0]] + out[1..][i - 1 := r];
      StoredUpdate(out[1..], i - 1, r);
    }
  }

  lemma {:induction false} NothingStored<R>(out: seq<Option<R>>)
    requires forall i :: 0 <= i < |out| ==> out[i].None?
    ensures StoredIn(out) == 0
  {
    if out != [] { NothingStored(out[1..]); }
  }

  lemma {:induction false} FlyingAtMost(workers: seq<Pc>)
    ensures Flying(workers) <= Running(workers) <= |workers|
  {
    if workers != [] { FlyingAtMost(workers[1..]); }
  }

  /** Whichever worker is woken next, the result is the pointwise map in input order, the worker
      function was called once for each index in order, and never more than the capped number of calls
      were in flight. */
  method MapLimit<T(!new), R(!new)>(items: seq<T>, limit: int, worker: (T, nat) -> R, pick: nat -> nat)
    returns (result: seq<R>, calls: seq<nat>, peak: nat)
    ensures |result| == |items| && forall i :: 0 <= i < |items| ==> result[i] == worker(items[i], i)
    ensures calls == seq(|items|, i => i)
    ensures peak <= |items| && (limit >= 1 ==> peak <= limit) && (limit < 1 ==> peak <= 1)
  {
    if |items| == 0 { return [], [], 0; }
    var least := if limit < |items| then limit else |items|;
    var capped := if least < 1 then 1 else least;
    var pool := new Pool(items, capped, worker);
    var tick := 0;
    peak := 0;
    SomeRunning(pool.workers);
    while exists w :: 0 <= w < |pool.workers| && !pool.workers[w].Stopped?
      invariant fresh(pool) && fresh(pool.out) && pool.Valid() && pool.items == items && pool.worker == worker && |pool.workers| == capped
      invariant peak <= capped
      decreases |items| - pool.cursor + Running(pool.workers)
    {
      var w := NextRunning(pool.workers, pick(tick));
      tick := tick + 1;
      pool.Resume(w);
      FlyingAtMost(pool.workers);
      if peak < Flying(pool.workers) { peak := Flying(pool.workers); }
    }
    assert pool.workers[0].Stopped?;
    calls := pool.calls;
    assert forall i :: 0 <= i < |items| ==> !pool.InHand(i);
    result := seq(|items|, i requires 0 <= i < |items| && pool.out[i].Some? reads pool.out => pool.out[i].value);
  }

  /** The running worker the scheduler's number points at. */
  method NextRunning(workers: seq<Pc>, from: nat) returns (w: nat)
    requires exists w :: 0 <= w < |workers| && !workers[w].Stopped?
    ensures w < |workers| && !workers[w].Stopped?
    ensures !workers[from % |workers|].Stopped? ==> w == from % |workers|
  {
    w := from % |workers|;
    if workers[w].Stopped? { w :| 0 <= w < |workers| && !workers[w].Stopped?; }
  }
}
