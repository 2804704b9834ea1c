/** Which interleavings keep the retry counter honest. */
module RunSchedules {
  import opened JsText
  import opened JsonValues
  import opened RunStore
  import opened RunStoreProofs

  ghost predicate AllReady(callers: seq<Caller>) { forall j :: 0 <= j < |callers| ==> callers[j].pc.Ready? }

  // ----- positions of a schedule -----

  /** Where things stand before the turn at position `k`. */
  function StateAt(s: State, schedule: seq<nat>, k: nat): State
    requires k <= |schedule|
  {
    Run(s, schedule[..k])
  }

  lemma {:induction false} RunAppends(s: State, schedule: seq<nat>, i: nat)
    ensures Run(s, schedule + [i]) == if i < |Run(s, schedule).callers| then Turn(Run(s, schedule), i) else Run(s, schedule)
    decreases |schedule|
  {
    if schedule == [] {
      assert [i][1..] == [] && [] + [i] == [i];
    } else {
      assert (schedule + [i])[1..] == schedule[1..] + [i];
      RunAppends(if schedule[0] < |s.callers| then Turn(s, schedule[0]) else s, schedule[1..], i);
    }
  }

  lemma StateStep(s: State, schedule: seq<nat>, k: nat)
    requires k < |schedule|
    ensures
      var before := StateAt(s, schedule, k);
      StateAt(s, schedule, k + 1) == if schedule[k] < |before.callers| then Turn(before, schedule[k]) else before
  {
    assert schedule[..k + 1] == schedule[..k] + [schedule[k]];
    RunAppends(s, schedule[..k], schedule[k]);
  }

  lemma {:induction false} StateKeeps(s: State, schedule: seq<nat>, k: nat, id: Text)
    requires k <= |schedule| && Keyed(s.rows) && id in s.rows
    ensures
      var at := StateAt(s, schedule, k);
      && Keyed(at.rows) && id in at.rows && |at.callers| == |s.callers|
      && forall j :: 0 <= j < |s.callers| ==> at.callers[j].call == s.callers[j].call
  {
    if k > 0 {
      StateKeeps(s, schedule, k - 1, id);
      StateStep(s, schedule, k - 1);
      var before := StateAt(s, schedule, k - 1);
      if schedule[k - 1] < |before.callers| { TurnKeepsRows(before, schedule[k - 1]); }
    } else {
      assert schedule[..0] == [];
    }
  }

  /** The turn at this position is a first half that counts. */
  predicate Opens(s: State, schedule: seq<nat>, id: Text, p: nat) {
    p < |schedule| && schedule[p] < |StateAt(s, schedule, p).callers| && Increments(StateAt(s, schedule, p), schedule[p], id)
  }

  /** The turn at this position is a second half that writes the count back. */
  predicate Closes(s: State, schedule: seq<nat>, id: Text, q: nat) {
    q < |schedule| && schedule[q] < |StateAt(s, schedule, q).callers| && HalfOf(StateAt(s, schedule, q).callers[schedule[q]], id) == 1
  }

  /** An increment falls between the two halves of a caller. */
  predicate Crossed(s: State, schedule: seq<nat>, id: Text, p: nat, m: nat, q: nat) {
    && p < m < q < |schedule| && schedule[p] == schedule[q]
    && Opens(s, schedule, id, p) && Opens(s, schedule, id, m) && Closes(s, schedule, id, q)
  }

  ghost predicate Uncrossed(s: State, schedule: seq<nat>, id: Text) {
    forall p: nat, m: nat, q: nat :: !Crossed(s, schedule, id, p, m, q)
  }

  predicate LosesAt(s: State, schedule: seq<nat>, id: Text, q: nat) {
    Closes(s, schedule, id, q) && Loss(StateAt(s, schedule, q), schedule[q], id) != 0
  }

  /** No second half takes anything off the counter, or puts anything on it. */
  ghost predicate LosesNowhere(s: State, schedule: seq<nat>, id: Text) {
    forall q: nat :: !LosesAt(s, schedule, id, q)
  }

  /** How many increments fall on positions `from` to `to`. */
  function OpensIn(s: State, schedule: seq<nat>, id: Text, from: nat, to: nat): nat {
    if to <= from then 0 else OpensIn(s, schedule, id, from, to - 1) + if Opens(s, schedule, id, to - 1) then 1 else 0
  }

  lemma {:induction false} SomeOpens(s: State, schedule: seq<nat>, id: Text, from: nat, to: nat)
    ensures OpensIn(s, schedule, id, from, to) > 0 <==> exists m: nat :: from <= m < to && Opens(s, schedule, id, m)
  {
    if to > from { SomeOpens(s, schedule, id, from, to - 1); }
  }

  // ----- what a half remembers -----

  /** Caller `c` opened at `p`, and the counter has grown since by the increments after it. */
  predicate OpenedAt(s: State, schedule: seq<nat>, id: Text, k: nat, c: nat, p: nat)
    requires k <= |schedule|
  {
    var at := StateAt(s, schedule, k);
    && c < |at.callers| && at.callers[c].pc.Half? && at.callers[c].pc.retryCount.Some? && id in at.rows
    && p < k && schedule[p] == c && Opens(s, schedule, id, p)
    && at.rows[id].retryCount == at.callers[c].pc.retryCount.value + OpensIn(s, schedule, id, p + 1, k)
  }

  ghost predicate HalfRemembers(s: State, schedule: seq<nat>, id: Text, k: nat, c: nat)
    requires k <= |schedule|
  {
    c < |StateAt(s, schedule, k).callers| && HalfOf(StateAt(s, schedule, k).callers[c], id) == 1 ==>
      exists p: nat :: OpenedAt(s, schedule, id, k, c, p)
  }

  lemma {:induction false} HalvesRemember(s: State, schedule: seq<nat>, id: Text, k: nat)
    requires Keyed(s.rows) && id in s.rows && AllReady(s.callers) && k <= |schedule|
    requires forall q: nat :: q < k ==> !LosesAt(s, schedule, id, q)
    ensures forall c: nat :: HalfRemembers(s, schedule, id, k, c)
  {
    if k == 0 {
      assert schedule[..0] == [];
    } else {
      HalvesRemember(s, schedule, id, k - 1);
      forall c: nat ensures HalfRemembers(s, schedule, id, k, c) { StepRemembers(s, schedule, id, k - 1, c); }
    }
  }

  lemma StepRemembers(s: State, schedule: seq<nat>, id: Text, k: nat, c: nat)
    requires Keyed(s.rows) && id in s.rows && k < |schedule| && !LosesAt(s, schedule, id, k)
    requires HalfRemembers(s, schedule, id, k, c)
    ensures HalfRemembers(s, schedule, id, k + 1, c)
  {
    StateKeeps(s, schedule, k, id);
    StateStep(s, schedule, k);
    var before, after := StateAt(s, schedule, k), StateAt(s, schedule, k + 1);
    if c < |after.callers| && HalfOf(after.callers[c], id) == 1 {
      if c == schedule[k] {
        HalfIsNew(before, c, id);
        assert OpenedAt(s, schedule, id, k + 1, c, k);
      } else {
        var p: nat :| OpenedAt(s, schedule, id, k, c, p);
        StaysOpened(s, schedule, id, k, c, p);
      }
    }
  }

  /** The turn of another caller leaves a half open. */
  lemma StaysOpened(s: State, schedule: seq<nat>, id: Text, k: nat, c: nat, p: nat)
    requires Keyed(s.rows) && id in s.rows && k < |schedule| && !LosesAt(s, schedule, id, k)
    requires c != schedule[k] && OpenedAt(s, schedule, id, k, c, p)
    ensures OpenedAt(s, schedule, id, k + 1, c, p)
  {
    StateKeeps(s, schedule, k, id);
    StateStep(s, schedule, k);
    var before, e := StateAt(s, schedule, k), schedule[k];
    if e < |before.callers| {
      TurnKeepsRows(before, e);
      TurnCounts(before, e, id);
      LossOnlyAtClose(before, e, id);
    }
  }

  /** A caller in between its halves after its turn has just counted. */
  lemma HalfIsNew(s: State, i: nat, id: Text)
    requires i < |s.callers| && id in s.rows && HalfOf(Turn(s, i).callers[i], id) == 1
    ensures Increments(s, i, id) && Turn(s, i).callers[i].pc.retryCount == Some(s.rows[id].retryCount + 1)
    ensures id in Turn(s, i).rows && Turn(s, i).rows[id].retryCount == s.rows[id].retryCount + 1
  {}

  lemma LossOnlyAtClose(s: State, i: nat, id: Text)
    requires i < |s.callers|
    ensures HalfOf(s.callers[i], id) == 0 ==> Loss(s, i, id) == 0
  {}

  /** What a second half loses is the number of increments since its first. */
  lemma LossIsOpensBetween(s: State, schedule: seq<nat>, id: Text, q: nat) returns (p: nat)
    requires Keyed(s.rows) && id in s.rows && AllReady(s.callers) && Closes(s, schedule, id, q)
    requires forall r: nat :: r < q ==> !LosesAt(s, schedule, id, r)
    ensures p < q && schedule[p] == schedule[q] && Opens(s, schedule, id, p)
    ensures Loss(StateAt(s, schedule, q), schedule[q], id) == OpensIn(s, schedule, id, p + 1, q)
  {
    HalvesRemember(s, schedule, id, q);
    assert HalfRemembers(s, schedule, id, q, schedule[q]);
    p :| OpenedAt(s, schedule, id, q, schedule[q], p);
  }

  // ----- a caller counts once -----

  lemma {:induction false} StartedStays(s: State, schedule: seq<nat>, id: Text, k: nat, l: nat, c: nat)
    requires Keyed(s.rows) && id in s.rows && k <= l <= |schedule| && c < |s.callers|
    requires |StateAt(s, schedule, k).callers| == |s.callers| && !StateAt(s, schedule, k).callers[c].pc.Ready?
    ensures |StateAt(s, schedule, l).callers| == |s.callers| && !StateAt(s, schedule, l).callers[c].pc.Ready?
    decreases l
  {
    if k < l {
      StartedStays(s, schedule, id, k, l - 1, c);
      StateStep(s, schedule, l - 1);
    }
  }

  lemma OpensOnce(s: State, schedule: seq<nat>, id: Text, p: nat, r: nat)
    requires Keyed(s.rows) && id in s.rows && p < r && Opens(s, schedule, id, p) && Opens(s, schedule, id, r)
    ensures schedule[p] != schedule[r]
  {
    var c := schedule[p];
    StateKeeps(s, schedule, p, id);
    StateStep(s, schedule, p);
    StartedStays(s, schedule, id, p + 1, r, c);
  }

  // ----- exactly which schedules lose nothing -----

  lemma CrossedLoses(s: State, schedule: seq<nat>, id: Text, p: nat, m: nat, q: nat)
    requires Keyed(s.rows) && id in s.rows && AllReady(s.callers) && Crossed(s, schedule, id, p, m, q)
    ensures !LosesNowhere(s, schedule, id)
  {
    if LosesNowhere(s, schedule, id) {
      var r := LossIsOpensBetween(s, schedule, id, q);
      if p < r { OpensOnce(s, schedule, id, p, r); }
      if r < p { OpensOnce(s, schedule, id, r, p); }
      SomeOpens(s, schedule, id, p + 1, q);
      assert LosesAt(s, schedule, id, q);
    }
  }

  lemma {:induction false} UncrossedKeeps(s: State, schedule: seq<nat>, id: Text, k: nat)
    requires Keyed(s.rows) && id in s.rows && AllReady(s.callers) && Uncrossed(s, schedule, id)
    ensures forall q: nat :: q < k ==> !LosesAt(s, schedule, id, q)
  {
    if k > 0 {
      UncrossedKeeps(s, schedule, id, k - 1);
      if Closes(s, schedule, id, k - 1) {
        var p := LossIsOpensBetween(s, schedule, id, k - 1);
        SomeOpens(s, schedule, id, p + 1, k - 1);
        forall m | p + 1 <= m < k - 1 ensures !Opens(s, schedule, id, m) {
          assert !Crossed(s, schedule, id, p, m, k - 1);
        }
      }
    }
  }

  /** Every second half writes back the very count it finds exactly when no increment of the run falls
      between the two halves of another caller. */
  lemma LosesNowhereExactly(s: State, schedule: seq<nat>, id: Text)
    requires Keyed(s.rows) && id in s.rows && AllReady(s.callers)
    ensures LosesNowhere(s, schedule, id) <==> Uncrossed(s, schedule, id)
  {
    if Uncrossed(s, schedule, id) {
      forall q: nat ensures !LosesAt(s, schedule, id, q) { UncrossedKeeps(s, schedule, id, q + 1); }
    } else {
      var p: nat, m: nat, q: nat :| Crossed(s, schedule, id, p, m, q);
      CrossedLoses(s, schedule, id, p, m, q);
    }
  }

  lemma {:induction false} LostNothing(s: State, schedule: seq<nat>, id: Text)
    requires LosesNowhere(s, schedule, id)
    ensures Lost(s, schedule, id) == 0
    decreases |schedule|
  {
    if schedule != [] {
      var next := if schedule[0] < |s.callers| then Turn(s, schedule[0]) else s;
      forall q: nat ensures !LosesAt(next, schedule[1..], id, q) {
        if q < |schedule| - 1 {
          assert schedule[..q + 1][1..] == schedule[1..][..q];
          assert StateAt(next, schedule[1..], q) == StateAt(s, schedule, q + 1);
          assert !LosesAt(s, schedule, id, q + 1);
        }
      }
      LostNothing(next, schedule[1..], id);
      if schedule[0] < |s.callers| {
        assert schedule[..0] == [] && !LosesAt(s, schedule, id, 0);
        LossOnlyAtClose(s, schedule[0], id);
      }
    }
  }

  /** The promise of the retry counter, for one schedule. */
  ghost predicate PaidFor(s: State, schedule: seq<nat>, id: Text) {
    var after := Run(s, schedule).rows;
    && id in s.rows && id in after
    && Departures(s, schedule, id) <= after[id].retryCount - s.rows[id].retryCount
    && after[id].retryCount - s.rows[id].retryCount == Increment(s, schedule, id)
  }

  /** Wherever no increment falls between another caller's halves, the run leaves its terminal states no
      oftener than its retry count grows, and the count grows by exactly the increments. */
  lemma DeparturesArePaidFor(s: State, schedule: seq<nat>, id: Text)
    requires Keyed(s.rows) && id in s.rows && AllReady(s.callers) && Uncrossed(s, schedule, id)
    ensures PaidFor(s, schedule, id)
  {
    LosesNowhereExactly(s, schedule, id);
    LostNothing(s, schedule, id);
    CounterBalances(s, schedule, id);
    NoneHalf(s.callers, id);
  }

  // ----- atomic updates -----

  /** Callers run to the end one after another: both statements of an update in a row. */
  function OneByOne(count: nat): seq<nat> { seq(2 * count, k => k / 2) }

  lemma OneByOneIsPaidFor(s: State, id: Text)
    requires Keyed(s.rows) && id in s.rows && AllReady(s.callers)
    ensures PaidFor(s, OneByOne(|s.callers|), id)
  {
    var schedule := OneByOne(|s.callers|);
    forall p: nat, m: nat, q: nat ensures !Crossed(s, schedule, id, p, m, q) {
      if p < m < q < |schedule| { assert schedule[p] == p / 2 && schedule[q] == q / 2; }
    }
    DeparturesArePaidFor(s, schedule, id);
  }

  // ----- which callers can be left to interleave -----

  predicate Counts(c: Caller, id: Text) { c.call.SetOps? && c.call.increments && c.call.id == id }

  /** Under every interleaving the count grows by exactly the increments. */
  ghost predicate AlwaysCounts(s: State, id: Text) {
    forall schedule :: CountsIn(s, schedule, id)
  }

  ghost predicate CountsIn(s: State, schedule: seq<nat>, id: Text) {
    id in s.rows && id in Run(s, schedule).rows
    && Run(s, schedule).rows[id].retryCount - s.rows[id].retryCount == Increment(s, schedule, id)
  }

  /** No two of the callers increment the run's counter. */
  ghost predicate OneCounter(callers: seq<Caller>, id: Text) {
    forall i, j :: 0 <= i < j < |callers| ==> !(Counts(callers[i], id) && Counts(callers[j], id))
  }

  /** Callers can be interleaved freely exactly when at most one of them increments: any two that do
      lose an increment under some schedule. */
  lemma AlwaysCountsExactly(s: State, id: Text)
    requires Keyed(s.rows) && id in s.rows && AllReady(s.callers)
    ensures AlwaysCounts(s, id) <==> OneCounter(s.callers, id)
  {
    if OneCounter(s.callers, id) {
      forall schedule ensures CountsIn(s, schedule, id) {
        forall p: nat, m: nat, q: nat ensures !Crossed(s, schedule, id, p, m, q) {
          if p < m { OneOpens(s, schedule, id, p, m); }
        }
        DeparturesArePaidFor(s, schedule, id);
      }
    } else {
      var i, j :| 0 <= i < j < |s.callers| && Counts(s.callers[i], id) && Counts(s.callers[j], id);
      TwoLose(s, i, j, id);
    }
  }

  lemma OneOpens(s: State, schedule: seq<nat>, id: Text, p: nat, m: nat)
    requires Keyed(s.rows) && id in s.rows && OneCounter(s.callers, id) && p < m
    ensures !(Opens(s, schedule, id, p) && Opens(s, schedule, id, m))
  {
    if Opens(s, schedule, id, p) && Opens(s, schedule, id, m) {
      OpensOnce(s, schedule, id, p, m);
      StateKeeps(s, schedule, p, id);
      StateKeeps(s, schedule, m, id);
      assert Counts(s.callers[schedule[p]], id) && Counts(s.callers[schedule[m]], id);
    }
  }

  lemma TwoLose(s: State, i: nat, j: nat, id: Text)
    requires Keyed(s.rows) && id in s.rows && AllReady(s.callers)
    requires i < j < |s.callers| && Counts(s.callers[i], id) && Counts(s.callers[j], id)
    ensures !AlwaysCounts(s, id)
  {
    var n := s.rows[id].retryCount;
    var s1 := Turn(s, i);
    var s2 := Turn(s1, j);
    var s3 := Turn(s2, j);
    var s4 := Turn(s3, i);
    assert s2.rows[id].retryCount == n + 2 && s2.callers[i].pc == Half(Some(n + 1));
    assert s3.rows[id].retryCount == n + 2 && s4.rows[id].retryCount == n + 1;
    OneTurn(s, i, [j] + ([j] + ([i] + [])), id);
    OneTurn(s1, j, [j] + ([i] + []), id);
    OneTurn(s2, j, [i] + [], id);
    OneTurn(s3, i, [], id);
    assert !CountsIn(s, [i] + ([j] + ([j] + ([i] + []))), id);
  }

  lemma OneTurn(s: State, i: nat, rest: seq<nat>, id: Text)
    requires i < |s.callers|
    ensures Run(s, [i] + rest) == Run(Turn(s, i), rest)
    ensures Increment(s, [i] + rest, id) == (if Increments(s, i, id) then 1 else 0) + Increment(Turn(s, i), rest, id)
  {
    assert ([i] + rest)[1..] == rest;
  }
}
