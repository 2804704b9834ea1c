/** The guard that keeps child-session fields out of a request: a depth-first search of an object
    graph that may share objects and run in cycles, cut off by a set of objects already seen. */
module ChildSessionGuard {
  import opened JsText
  import opened JsonValues

  // ----- forbidden keys -----

  predicate IsAlphanumeric(c: CodeUnit) { IsLower(c) || IsDigit(c) }

  function Keep(s: Text): Text {
    if s == [] then [] else (if IsAlphanumeric(s[0]) then [s[0]] else []) + Keep(s[1..])
  }

  /** `key.toLowerCase().replace(/[^a-z0-9]/g, "")`. */
  function NormalizeKey(key: Text): Text { Keep(ToLowerCase(key)) }

  // "parentid" and "parentsessionid"
  const PARENT_ID: Text := [0x70, 0x61, 0x72, 0x65, 0x6E, 0x74, 0x69, 0x64]
  const PARENT_SESSION_ID: Text :=
    [0x70, 0x61, 0x72, 0x65, 0x6E, 0x74, 0x73, 0x65, 0x73, 0x73, 0x69, 0x6F, 0x6E, 0x69, 0x64]

  predicate IsForbidden(key: Text) {
    NormalizeKey(key) == PARENT_ID || NormalizeKey(key) == PARENT_SESSION_ID
  }

  // ----- what that forbids, said of the units of a key -----

  /** The unit reads as this lower-case letter: in either case, with U+0130 for an `i` and U+212A for a `k`. */
  predicate ReadsAs(u: CodeUnit, letter: CodeUnit) {
    || u == letter || (u as int == letter as int - 0x20)
    || (letter == 0x69 && u == 0x130) || (letter == 0x6B && u == 0x212A)
  }

  /** The unit's lower case has no ASCII letter or digit. */
  predicate IsSilent(u: CodeUnit) { !IsDigit(u) && !IsLower(u) && !IsUpper(u) && u != 0x130 && u != 0x212A }

  predicate IsIncreasing(at: seq<nat>) { forall k, l :: 0 <= k < l < |at| ==> at[k] < at[l] }

  predicate ReadsAt(key: Text, word: Text, at: seq<nat>) {
    |at| == |word| && forall k :: 0 <= k < |at| ==> at[k] < |key| && ReadsAs(key[at[k]], word[k])
  }

  predicate SilentElsewhere(key: Text, at: seq<nat>) { forall i :: 0 <= i < |key| && i !in at ==> IsSilent(key[i]) }

  /** The units at these places read as the word's letters, in order, and all others are silent. */
  predicate SpellsAt(key: Text, word: Text, at: seq<nat>) { IsIncreasing(at) && ReadsAt(key, word, at) && SilentElsewhere(key, at) }

  ghost predicate Spells(key: Text, word: Text) { exists at :: SpellsAt(key, word, at) }

  /** A key that names a parent session. */
  ghost predicate IsChildField(key: Text) { Spells(key, PARENT_ID) || Spells(key, PARENT_SESSION_ID) }

  lemma KeepJoins(u: CodeUnit, rest: Text)
    ensures Keep(LowerUnit(u) + rest) == (if IsSilent(u) then [] else [LowerUnit(u)[0]]) + Keep(rest)
  {
    var low := LowerUnit(u);
    assert (low + rest)[1..] == low[1..] + rest;
    if |low| == 2 { assert (low[1..] + rest)[1..] == rest; }
  }

  function Shifted(at: seq<nat>, n: nat): (r: seq<nat>)
    ensures |r| == |at| && forall k :: 0 <= k < |at| ==> r[k] == at[k] + n
    ensures forall i: nat :: i in at ==> i + n in r
  {
    var r := seq(|at|, k requires 0 <= k < |at| => at[k] + n);
    assert forall i: nat :: i in at ==> exists k :: 0 <= k < |at| && at[k] == i && r[k] == i + n;
    r
  }

  lemma IncreasingJoins(at: seq<nat>, bt: seq<nat>, n: nat)
    requires IsIncreasing(at) && IsIncreasing(bt) && forall k :: 0 <= k < |at| ==> at[k] < n
    ensures IsIncreasing(at + Shifted(bt, n))
  {}

  lemma ReadsJoins(a: Text, x: Text, at: seq<nat>, b: Text, y: Text, bt: seq<nat>)
    requires ReadsAt(a, x, at) && ReadsAt(b, y, bt)
    ensures ReadsAt(a + b, x + y, at + Shifted(bt, |a|))
  {
    var later := Shifted(bt, |a|);
    var all := at + later;
    forall k | 0 <= k < |all| ensures all[k] < |a + b| && ReadsAs((a + b)[all[k]], (x + y)[k]) {
      if k < |at| { assert all[k] == at[k]; } else { assert all[k] == bt[k - |at|] + |a|; }
    }
  }

  lemma SilenceJoins(a: Text, at: seq<nat>, b: Text, bt: seq<nat>)
    requires SilentElsewhere(a, at) && SilentElsewhere(b, bt)
    ensures SilentElsewhere(a + b, at + Shifted(bt, |a|))
  {
    var all := at + Shifted(bt, |a|);
    forall i | 0 <= i < |a + b| && i !in all ensures IsSilent((a + b)[i]) {
      if i < |a| { assert i !in at; } else { assert i - |a| !in bt; }
    }
  }

  /** Texts side by side spell words side by side. */
  lemma SpellsJoins(a: Text, x: Text, b: Text, y: Text)
    requires Spells(a, x) && Spells(b, y)
    ensures Spells(a + b, x + y)
  {
    var at :| SpellsAt(a, x, at);
    var bt :| SpellsAt(b, y, bt);
    IncreasingJoins(at, bt, |a|);
    ReadsJoins(a, x, at, b, y, bt);
    SilenceJoins(a, at, b, bt);
    assert SpellsAt(a + b, x + y, at + Shifted(bt, |a|));
  }

  predicate ReadAll(key: Text, word: Text) { |key| == |word| && forall k :: 0 <= k < |key| ==> ReadsAs(key[k], word[k]) }

  predicate AllSilent(key: Text) { forall k :: 0 <= k < |key| ==> IsSilent(key[k]) }

  lemma ReadAllSpells(key: Text, word: Text)
    requires ReadAll(key, word)
    ensures Spells(key, word)
  {
    var at := seq(|key|, k => k);
    forall i | 0 <= i < |key| ensures i in at { assert at[i] == i; }
    assert SpellsAt(key, word, at);
  }

  lemma SilentSpellsNothing(key: Text)
    requires AllSilent(key)
    ensures Spells(key, [])
  {
    assert SpellsAt(key, [], []);
  }

  /** The places in a text of which the first unit is cut off. */
  function Earlier(at: seq<nat>): (r: seq<nat>)
    requires forall k :: 0 <= k < |at| ==> at[k] > 0
    ensures |r| == |at| && forall k :: 0 <= k < |at| ==> r[k] == at[k] - 1
  {
    seq(|at|, k requires 0 <= k < |at| => (at[k] - 1) as nat)
  }

  lemma TailSpelled(key: Text, word: Text, at: seq<nat>)
    requires key != [] && IsIncreasing(at) && ReadsAt(key, word, at) && forall k :: 0 <= k < |at| ==> at[k] > 0
    requires forall i :: 0 < i < |key| && i !in at ==> IsSilent(key[i])
    ensures Spells(key[1..], word)
  {
    var tail, earlier := key[1..], Earlier(at);
    forall k | 0 <= k < |earlier| ensures earlier[k] < |tail| && ReadsAs(tail[earlier[k]], word[k]) { assert at[k] < |key|; }
    forall i | 0 <= i < |tail| && i !in earlier ensures IsSilent(tail[i]) {
      forall k | 0 <= k < |at| ensures at[k] != i + 1 { assert earlier[k] != i; }
      assert i + 1 !in at;
    }
    assert SpellsAt(tail, word, earlier);
  }

  lemma SpelledTail(key: Text, word: Text, at: seq<nat>)
    requires key != [] && SpellsAt(key, word, at) && forall k :: 0 <= k < |word| ==> IsLower(word[k])
    ensures IsSilent(key[0]) ==> Spells(key[1..], word)
    ensures !IsSilent(key[0]) ==> word != [] && ReadsAs(key[0], word[0]) && Spells(key[1..], word[1..])
  {
    if at == [] || at[0] > 0 {
      assert 0 !in at;
      TailSpelled(key, word, at);
    } else {
      var rest := at[1..];
      assert forall i :: 0 < i && i !in rest ==> i !in at;
      assert ReadsAt(key, word[1..], rest);
      TailSpelled(key, word[1..], rest);
      assert ReadsAs(key[at[0]], word[0]) && IsLower(word[0]);
    }
  }

  lemma SilentFirst(key: Text, word: Text)
    requires key != [] && IsSilent(key[0]) && Spells(key[1..], word)
    ensures Spells(key, word)
  {
    SilentSpellsNothing([key[0]]);
    SpellsJoins([key[0]], [], key[1..], word);
    assert [key[0]] + key[1..] == key && [] + word == word;
  }

  lemma ReadFirst(key: Text, word: Text)
    requires key != [] && word != [] && ReadsAs(key[0], word[0]) && Spells(key[1..], word[1..])
    ensures Spells(key, word)
  {
    ReadAllSpells([key[0]], [word[0]]);
    SpellsJoins([key[0]], [word[0]], key[1..], word[1..]);
    assert [key[0]] + key[1..] == key && [word[0]] + word[1..] == word;
  }

  /** Where a word is spelled: its first letter is read at the first unit that is not silent. */
  lemma SpellsStep(key: Text, word: Text)
    requires key != [] && forall k :: 0 <= k < |word| ==> IsLower(word[k])
    ensures IsSilent(key[0]) ==> (Spells(key, word) <==> Spells(key[1..], word))
    ensures !IsSilent(key[0]) ==> (Spells(key, word) <==> word != [] && ReadsAs(key[0], word[0]) && Spells(key[1..], word[1..]))
  {
    if Spells(key, word) {
      var at :| SpellsAt(key, word, at);
      SpelledTail(key, word, at);
    } else if IsSilent(key[0]) {
      if Spells(key[1..], word) { SilentFirst(key, word); }
    } else if word != [] && ReadsAs(key[0], word[0]) && Spells(key[1..], word[1..]) {
      ReadFirst(key, word);
    }
  }

  lemma {:induction false} KeepSpells(key: Text, word: Text)
    requires forall k :: 0 <= k < |word| ==> IsLower(word[k])
    ensures NormalizeKey(key) == word <==> Spells(key, word)
    decreases |key|
  {
    if key == [] {
      if word == [] { assert SpellsAt(key, word, []); }
    } else {
      KeepJoins(key[0], ToLowerCase(key[1..]));
      SpellsStep(key, word);
      if IsSilent(key[0]) {
        KeepSpells(key[1..], word);
      } else {
        if word != [] {
          assert forall k :: 0 <= k < |word[1..]| ==> word[1..][k] == word[k + 1];
          KeepSpells(key[1..], word[1..]);
          assert [LowerUnit(key[0])[0]] + NormalizeKey(key[1..]) == word <==> LowerUnit(key[0])[0] == word[0] && NormalizeKey(key[1..]) == word[1..];
        }
      }
    }
  }

  /** A key is forbidden exactly when it spells "parentid" or "parentsessionid" in whatever case, with anything
      but ASCII letters and digits in between. */
  lemma ForbiddenExactly(key: Text)
    ensures IsForbidden(key) <==> IsChildField(key)
  {
    KeepSpells(key, PARENT_ID);
    KeepSpells(key, PARENT_SESSION_ID);
  }

  // "parent", "session", "id"
  const PARENT: Text := [0x70, 0x61, 0x72, 0x65, 0x6E, 0x74]
  const SESSION: Text := [0x73, 0x65, 0x73, 0x73, 0x69, 0x6F, 0x6E]
  const ID: Text := [0x69, 0x64]

  lemma SpellsAcross(a: Text, x: Text, gap: Text, b: Text, y: Text)
    requires Spells(a, x) && AllSilent(gap) && Spells(b, y)
    ensures Spells(a + gap + b, x + y)
  {
    SilentSpellsNothing(gap);
    SpellsJoins(a, x, gap, []);
    assert x + [] == x;
    SpellsJoins(a + gap, x, b, y);
  }

  lemma WordsJoin()
    ensures PARENT + ID == PARENT_ID && (PARENT + SESSION) + ID == PARENT_SESSION_ID
  {}

  /** So the words in any case, set apart by anything but ASCII letters and digits, are child-session fields:
      parentID, parent_id, Parent-Session-Id. */
  lemma AnySpellingIsDenied(parent: Text, gap: Text, session: Text, gap': Text, id: Text)
    requires ReadAll(parent, PARENT) && AllSilent(gap) && ReadAll(session, SESSION) && AllSilent(gap') && ReadAll(id, ID)
    ensures IsChildField(parent + gap + id) && IsChildField((parent + gap + session) + gap' + id)
  {
    WordsJoin();
    ReadAllSpells(parent, PARENT);
    ReadAllSpells(session, SESSION);
    ReadAllSpells(id, ID);
    SpellsAcross(parent, PARENT, gap, id, ID);
    SpellsAcross(parent, PARENT, gap, session, SESSION);
    SpellsAcross(parent + gap + session, PARENT + SESSION, gap', id, ID);
  }

  // ----- object graphs -----

  type ObjectId = nat

  /** A value: arrays nest without cycles, objects are references into the heap. */
  datatype JsValue = Scalar | Array(items: seq<JsValue>) | Object(id: ObjectId)

  datatype Entry = Entry(key: Text, value: JsValue)

  type Heap = map<ObjectId, seq<Entry>>

  /** The objects a value refers to without passing through another object. */
  function Refs(v: JsValue): set<ObjectId> {
    match v
    case Scalar => {}
    case Object(id) => {id}
    case Array(items) => set k, id | 0 <= k < |items| && id in Refs(items[k]) :: id
  }

  function EntryRefs(entries: seq<Entry>): set<ObjectId> {
    set k, id | 0 <= k < |entries| && id in Refs(entries[k].value) :: id
  }

  ghost predicate Closed(heap: Heap) { forall o :: o in heap ==> EntryRefs(heap[o]) <= heap.Keys }

  /** A chain of objects, each an own property value of the one before (arrays looked through). */
  ghost predicate IsChain(heap: Heap, chain: seq<ObjectId>) {
    && (forall i :: 0 <= i < |chain| ==> chain[i] in heap)
    && forall i :: 0 < i < |chain| ==> chain[i] in EntryRefs(heap[chain[i - 1]])
  }

  ghost predicate ReachesBy(heap: Heap, v: JsValue, o: ObjectId, chain: seq<ObjectId>) {
    chain != [] && chain[0] in Refs(v) && chain[|chain| - 1] == o && IsChain(heap, chain)
  }

  ghost predicate Reaches(heap: Heap, v: JsValue, o: ObjectId) { exists chain :: ReachesBy(heap, v, o, chain) }

  predicate HasKey(entries: seq<Entry>, key: Text) { exists k :: 0 <= k < |entries| && entries[k].key == key }

  /** A child-session field of an object reachable from the value. */
  ghost predicate ReachableForbidden(heap: Heap, v: JsValue, key: Text) {
    IsChildField(key) && exists o :: o in heap && Reaches(heap, v, o) && HasKey(heap[o], key)
  }

  lemma ReachesThroughItem(heap: Heap, items: seq<JsValue>, k: nat, key: Text)
    requires k < |items| && ReachableForbidden(heap, items[k], key)
    ensures ReachableForbidden(heap, Array(items), key)
  {
    var o :| o in heap && Reaches(heap, items[k], o) && HasKey(heap[o], key);
    var chain :| ReachesBy(heap, items[k], o, chain);
    assert ReachesBy(heap, Array(items), o, chain);
  }

  lemma ReachesThroughEntry(heap: Heap, id: ObjectId, k: nat, key: Text)
    requires id in heap && k < |heap[id]| && ReachableForbidden(heap, heap[id][k].value, key)
    ensures ReachableForbidden(heap, Object(id), key)
  {
    var v := heap[id][k].value;
    var o :| o in heap && Reaches(heap, v, o) && HasKey(heap[o], key);
    var chain :| ReachesBy(heap, v, o, chain);
    assert ReachesBy(heap, Object(id), o, [id] + chain);
  }

  /** What the search guarantees of the objects it is done with: no forbidden key, and no way out
      but to objects seen. */
  ghost predicate Settled(heap: Heap, seen: set<ObjectId>, pending: set<ObjectId>) {
    forall o :: o in seen && o !in pending && o in heap ==>
      EntryRefs(heap[o]) <= seen && forall k :: 0 <= k < |heap[o]| ==> !IsChildField(heap[o][k].key)
  }

  lemma {:induction false} ChainStaysSeen(heap: Heap, seen: set<ObjectId>, chain: seq<ObjectId>, i: nat)
    requires Settled(heap, seen, {}) && IsChain(heap, chain) && i < |chain| && chain[0] in seen
    ensures chain[i] in seen
  {
    if i > 0 { ChainStaysSeen(heap, seen, chain, i - 1); }
  }

  /** Completeness survives the cut-off: a settled set holding the value's references closes the
      search, whatever was skipped on the way. */
  lemma SettledIsComplete(heap: Heap, seen: set<ObjectId>, v: JsValue, key: Text)
    requires Settled(heap, seen, {}) && Refs(v) <= seen
    ensures !ReachableForbidden(heap, v, key)
  {
    if ReachableForbidden(heap, v, key) {
      var o :| o in heap && Reaches(heap, v, o) && HasKey(heap[o], key);
      var chain :| ReachesBy(heap, v, o, chain);
      ChainStaysSeen(heap, seen, chain, |chain| - 1);
      assert false;
    }
  }

  // ----- the search -----

  class Search {
    const heap: Heap
    var seen: set<ObjectId>

    constructor (heap: Heap)
      ensures this.heap == heap && seen == {}
    {
      this.heap := heap;
      seen := {};
    }

    /** `pending` are the objects whose entries the enclosing calls are still going through. */
    method FindForbiddenKey(value: JsValue, ghost pending: set<ObjectId>) returns (found: Option<Text>)
      requires Closed(heap) && Refs(value) <= heap.Keys && seen <= heap.Keys
      requires pending <= seen && Settled(heap, seen, pending)
      modifies this
      ensures old(seen) <= seen <= heap.Keys
      ensures found.None? ==> Refs(value) <= seen && Settled(heap, seen, pending)
      ensures found.Some? ==> ReachableForbidden(heap, value, found.value)
      decreases heap.Keys - seen, value
    {
      match value {
        case Array(items) =>
          for k := 0 to |items|
            invariant old(seen) <= seen <= heap.Keys && Settled(heap, seen, pending)
            invariant forall j :: 0 <= j < k ==> Refs(items[j]) <= seen
          {
            var nested := FindForbiddenKey(items[k], pending);
            if nested.Some? {
              ReachesThroughItem(heap, items, k, nested.value);
              return nested;
            }
          }
          return None;
        case Scalar =>
          return None;
        case Object(id) =>
          if id in seen { return None; }
          seen := seen + {id};
          var entries := heap[id];
          for k := 0 to |entries|
            invariant old(seen) + {id} <= seen <= heap.Keys && Settled(heap, seen, pending + {id})
            invariant forall j :: 0 <= j < k ==> !IsChildField(entries[j].key) && Refs(entries[j].value) <= seen
          {
            ForbiddenExactly(entries[k].key);
            if IsForbidden(entries[k].key) {
              assert ReachesBy(heap, value, id, [id]);
              return Some(entries[k].key);
            }
            assert Refs(entries[k].value) <= EntryRefs(entries);
            var nested := FindForbiddenKey(entries[k].value, pending + {id});
            if nested.Some? {
              ReachesThroughEntry(heap, id, k, nested.value);
              return nested;
            }
          }
          return None;
      }
    }
  }

  /** `assertNoChildSession`: the key it would report, if any. */
  method AssertNoChildSession(heap: Heap, value: JsValue) returns (denied: Option<Text>)
    requires Closed(heap) && Refs(value) <= heap.Keys
    ensures denied.Some? ==> ReachableForbidden(heap, value, denied.value)
    ensures denied.None? ==> forall key :: !ReachableForbidden(heap, value, key)
  {
    var search := new Search(heap);
    denied := search.FindForbiddenKey(value, {});
    if denied.None? {
      forall key ensures !ReachableForbidden(heap, value, key) {
        SettledIsComplete(heap, search.seen, value, key);
      }
    }
  }
}
