/** The workflow scope of a reproduction snapshot: a breadth-first closure over parent-to-child rows. */
module ReproScope {
  import opened JsText
  import opened JsonValues
  import opened HitlTopic

  /** One row of the status table; either column may be null. */
  datatype Row = Row(parent: Option<Text>, child: Option<Text>)

  /** The status table: absent, without a parent or a child column, or usable. */
  datatype StatusTable = Absent | NoLineage | Lineage(rows: seq<Row>)

  // ----- what the scope is -----

  /** The ids the search starts from: the workflow, its task keys, its gates' escalations. */
  ghost predicate IsSeed(id: Text, workflowId: Text, taskKeys: seq<Option<Text>>, gateKeys: seq<Option<Text>>) {
    || id == workflowId
    || (id != [] && Some(id) in taskKeys)
    || exists g :: g != [] && Some(g) in gateKeys && id == EscalationId(workflowId, g)
  }

  ghost predicate IsChild(rows: seq<Row>, parent: Text, child: Text) {
    child != [] && Row(Some(parent), Some(child)) in rows
  }

  ghost predicate IsLineage(rows: seq<Row>, chain: seq<Text>) {
    forall i :: 0 < i < |chain| ==> IsChild(rows, chain[i - 1], chain[i])
  }

  /** `id` is a seed or reached from one along parent-to-child rows. */
  ghost predicate DescendsFrom(rows: seq<Row>, seeds: seq<Text>, id: Text) {
    exists chain :: chain != [] && chain[0] in seeds && chain[|chain| - 1] == id && IsLineage(rows, chain)
  }

  lemma ChildDescends(rows: seq<Row>, seeds: seq<Text>, parent: Text, child: Text)
    requires DescendsFrom(rows, seeds, parent) && IsChild(rows, parent, child)
    ensures DescendsFrom(rows, seeds, child)
  {
    var chain :| chain != [] && chain[0] in seeds && chain[|chain| - 1] == parent && IsLineage(rows, chain);
    var longer := chain + [child];
    assert IsLineage(rows, longer);
    assert longer[|longer| - 1] == child;
  }

  lemma {:induction false} ClosedHoldsLineage(rows: seq<Row>, ids: seq<Text>, chain: seq<Text>, i: nat)
    requires i < |chain| && chain[0] in ids && IsLineage(rows, chain)
    requires forall p, c :: p in ids && IsChild(rows, p, c) ==> c in ids
    ensures chain[i] in ids
  {
    if i > 0 { ClosedHoldsLineage(rows, ids, chain, i - 1); }
  }

  /** A set that holds the seeds and every child of its members holds the whole scope. */
  lemma ClosedHoldsScope(rows: seq<Row>, seeds: seq<Text>, ids: seq<Text>)
    requires forall s :: s in seeds ==> s in ids
    requires forall p, c :: p in ids && IsChild(rows, p, c) ==> c in ids
    ensures forall id :: DescendsFrom(rows, seeds, id) ==> id in ids
  {
    forall id | DescendsFrom(rows, seeds, id)
      ensures id in ids
    {
      var chain :| chain != [] && chain[0] in seeds && chain[|chain| - 1] == id && IsLineage(rows, chain);
      ClosedHoldsLineage(rows, ids, chain, |chain| - 1);
    }
  }

  // ----- an insertion-ordered set -----

  predicate Distinct<T(==)>(s: seq<T>) { forall i, j :: 0 <= i < j < |s| ==> s[i] != s[j] }

  function Add<T(==, !new)>(s: seq<T>, x: T): (r: seq<T>)
    ensures Distinct(s) ==> Distinct(r)
    ensures forall y :: y in r <==> y in s || y == x
  {
    if x in s then s else s + [x]
  }

  function Elements(s: seq<Text>): (r: set<Text>)
    ensures forall x :: x in r <==> x in s
  {
    set x | x in s
  }

  // ----- the search -----

  /** `SELECT DISTINCT child ... WHERE parent = ANY(frontier)`; callers rely on no order. */
  method SelectChildren(rows: seq<Row>, frontier: seq<Text>) returns (children: seq<Option<Text>>)
    ensures Distinct(children)
    ensures forall c :: c in children <==> exists p :: p in frontier && Row(Some(p), c) in rows
  {
    children := [];
    for k := 0 to |rows|
      invariant Distinct(children)
      invariant forall c :: c in children <==> exists p :: p in frontier && Row(Some(p), c) in rows[..k]
    {
      if rows[k].parent.Some? && rows[k].parent.value in frontier {
        children := Add(children, rows[k].child);
      }
      assert rows[..k + 1] == rows[..k] + [rows[k]];
    }
    assert rows[..|rows|] == rows;
  }

  method CollectSeeds(workflowId: Text, taskKeys: seq<Option<Text>>, gateKeys: seq<Option<Text>>) returns (ids: seq<Text>)
    ensures Distinct(ids)
    ensures forall id :: id in ids <==> IsSeed(id, workflowId, taskKeys, gateKeys)
  {
    ids := [workflowId];
    for k := 0 to |taskKeys|
      invariant Distinct(ids)
      invariant forall id :: id in ids <==> id == workflowId || (id != [] && Some(id) in taskKeys[..k])
    {
      if taskKeys[k].Some? && |taskKeys[k].value| > 0 { ids := Add(ids, taskKeys[k].value); }
    }
    assert taskKeys[..|taskKeys|] == taskKeys;
    for k := 0 to |gateKeys|
      invariant Distinct(ids)
      invariant forall id :: id in ids <==> IsSeed(id, workflowId, taskKeys, gateKeys[..k])
    {
      if gateKeys[k].Some? && |gateKeys[k].value| > 0 {
        ids := Add(ids, EscalationId(workflowId, gateKeys[k].value));
      }
      assert gateKeys[..k + 1] == gateKeys[..k] + [gateKeys[k]];
    }
    assert gateKeys[..|gateKeys|] == gateKeys;
  }

  /** Adds the children not met before; they are the next frontier. */
  method Expand(ids: seq<Text>, children: seq<Option<Text>>) returns (grown: seq<Text>, frontier: seq<Text>)
    ensures Distinct(ids) ==> Distinct(grown)
    ensures forall id :: id in grown <==> id in ids || id in frontier
    ensures forall id :: id in frontier <==> id !in ids && id != [] && Some(id) in children
  {
    grown, frontier := ids, [];
    for k := 0 to |children|
      invariant Distinct(ids) ==> Distinct(grown)
      invariant forall id :: id in grown <==> id in ids || id in frontier
      invariant forall id :: id in frontier <==> id !in ids && id != [] && Some(id) in children[..k]
    {
      assert children[..k + 1] == children[..k] + [children[k]];
      if children[k].Some? && |children[k].value| > 0 && children[k].value !in grown {
        grown := Add(grown, children[k].value);
        frontier := frontier + [children[k].value];
      }
    }
    assert children[..|children|] == children;
  }

  /** Every member is in the scope, and every child of a member outside the frontier is a member. */
  ghost predicate Explored(rows: seq<Row>, seeds: seq<Text>, ids: seq<Text>, frontier: seq<Text>) {
    && (forall id :: id in seeds || id in frontier ==> id in ids)
    && (forall id :: id in ids ==> DescendsFrom(rows, seeds, id))
    && (forall p, c :: p in ids && p !in frontier && IsChild(rows, p, c) ==> c in ids)
  }

  lemma SeedsExplored(rows: seq<Row>, seeds: seq<Text>)
    ensures Explored(rows, seeds, seeds, seeds)
  {
    forall id | id in seeds
      ensures DescendsFrom(rows, seeds, id)
    {
      assert IsLineage(rows, [id]) && [id][0] in seeds;
    }
  }

  lemma ExpandKeepsExplored(rows: seq<Row>, seeds: seq<Text>, ids: seq<Text>, frontier: seq<Text>,
                            children: seq<Option<Text>>, grown: seq<Text>, next: seq<Text>)
    requires Explored(rows, seeds, ids, frontier)
    requires forall c :: c in children <==> exists p :: p in frontier && Row(Some(p), c) in rows
    requires forall id :: id in grown <==> id in ids || id in next
    requires forall id :: id in next <==> id !in ids && id != [] && Some(id) in children
    ensures Explored(rows, seeds, grown, next)
  {
    forall id | id in next
      ensures DescendsFrom(rows, seeds, id)
    {
      var p :| p in frontier && Row(Some(p), Some(id)) in rows;
      ChildDescends(rows, seeds, p, id);
    }
    forall p, c | p in grown && p !in next && IsChild(rows, p, c)
      ensures c in grown
    {
      if p in frontier { assert Some(c) in children; }
    }
  }

  function ChildIds(rows: seq<Row>): set<Text> {
    set k | 0 <= k < |rows| && rows[k].child.Some? :: rows[k].child.value
  }

  lemma ChildrenAreRows(rows: seq<Row>, frontier: seq<Text>, children: seq<Option<Text>>, id: Text)
    requires forall c :: c in children <==> exists p :: p in frontier && Row(Some(p), c) in rows
    requires Some(id) in children
    ensures id in ChildIds(rows)
  {}

  /** A new id is one of the children, and fewer of them are left. */
  lemma LeftToDiscoverShrinks(rows: seq<Row>, ids: seq<Text>, grown: seq<Text>, id: Text)
    requires forall x :: x in ids ==> x in grown
    requires id in grown && id !in ids && id in ChildIds(rows)
    ensures ChildIds(rows) - Elements(grown) < ChildIds(rows) - Elements(ids)
  {
    assert id in ChildIds(rows) - Elements(ids);
  }

  /** The scope, each id once. The relation may be cyclic: what is left to discover shrinks. */
  method DiscoverWorkflowScope(workflowId: Text, taskKeys: seq<Option<Text>>, gateKeys: seq<Option<Text>>, table: StatusTable)
    returns (ids: seq<Text>, ghost seeds: seq<Text>)
    ensures Distinct(ids)
    ensures forall id :: id in seeds <==> IsSeed(id, workflowId, taskKeys, gateKeys)
    ensures forall id :: id in ids <==>
      if table.Lineage? then DescendsFrom(table.rows, seeds, id) else IsSeed(id, workflowId, taskKeys, gateKeys)
  {
    ids := CollectSeeds(workflowId, taskKeys, gateKeys);
    seeds := ids;
    if !table.Lineage? { return; }
    var frontier := ids;
    SeedsExplored(table.rows, ids);
    while |frontier| > 0
      invariant Distinct(ids)
      invariant Explored(table.rows, seeds, ids, frontier)
      decreases ChildIds(table.rows) - Elements(ids), |frontier|
    {
      var children := SelectChildren(table.rows, frontier);
      var grown, next := Expand(ids, children);
      ExpandKeepsExplored(table.rows, seeds, ids, frontier, children, grown, next);
      if next != [] {
        ChildrenAreRows(table.rows, frontier, children, next[0]);
        LeftToDiscoverShrinks(table.rows, ids, grown, next[0]);
      }
      ids, frontier := grown, next;
    }
    ClosedHoldsScope(table.rows, seeds, ids);
  }
}
