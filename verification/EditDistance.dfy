/** The `diff_le` eval check: a two-row edit distance that stops early once a bound is passed. */
module EditDistance {
  import opened JsText
  import opened JsonValues
  import opened StableSort
  import opened CanonicalJson
  import opened CanonicalJsonTheorems

  // ----- what an edit distance is -----

  datatype Edit = Keep(c: CodeUnit) | Substitute(from: CodeUnit, to: CodeUnit) | Insert(c: CodeUnit) | Delete(c: CodeUnit)

  /** What the edit takes from the old text and what it leaves in the new one. */
  function Taken(e: Edit): Text {
    match e case Keep(c) => [c] case Substitute(c, _) => [c] case Insert(_) => [] case Delete(c) => [c]
  }

  function Left(e: Edit): Text {
    match e case Keep(c) => [c] case Substitute(_, c) => [c] case Insert(c) => [c] case Delete(_) => []
  }

  function Before(script: seq<Edit>): Text {
    if script == [] then [] else Before(script[..|script| - 1]) + Taken(script[|script| - 1])
  }

  function After(script: seq<Edit>): Text {
    if script == [] then [] else After(script[..|script| - 1]) + Left(script[|script| - 1])
  }

  function Cost(script: seq<Edit>): nat {
    if script == [] then 0
    else Cost(script[..|script| - 1]) + if script[|script| - 1].Keep? then 0 else 1
  }

  ghost predicate Turns(script: seq<Edit>, a: Text, b: Text) { Before(script) == a && After(script) == b }

  /** `d` is the cost of a cheapest script from `a` to `b`. */
  ghost predicate IsEditDistance(d: nat, a: Text, b: Text) {
    && (exists script :: Turns(script, a, b) && Cost(script) == d)
    && (forall script :: Turns(script, a, b) ==> d <= Cost(script))
  }

  // ----- the recurrence computes it -----

  function Min(x: int, y: int): int { if x <= y then x else y }

  function Last(t: Text): CodeUnit
    requires t != []
  {
    t[|t| - 1]
  }

  function Front(t: Text): Text
    requires t != []
  {
    t[..|t| - 1]
  }

  function Distance(a: Text, b: Text): nat
    decreases |a| + |b|
  {
    if a == [] then |b|
    else if b == [] then |a|
    else Min(Min(Distance(Front(a), b) + 1, Distance(a, Front(b)) + 1),
             Distance(Front(a), Front(b)) + if Last(a) == Last(b) then 0 else 1)
  }

  lemma DistanceGrows(a: Text, b: Text, x: CodeUnit, y: CodeUnit)
    ensures Distance(a + [x], b) <= Distance(a, b) + 1
    ensures Distance(a, b + [y]) <= Distance(a, b) + 1
    ensures Distance(a + [x], b + [y]) <= Distance(a, b) + if x == y then 0 else 1
  {
    assert Front(a + [x]) == a && Front(b + [y]) == b;
  }

  lemma {:induction false} NoScriptIsCheaper(script: seq<Edit>)
    ensures Distance(Before(script), After(script)) <= Cost(script)
  {
    if script != [] {
      var init := script[..|script| - 1];
      NoScriptIsCheaper(init);
      var a, b := Before(init), After(init);
      match script[|script| - 1] {
        case Keep(c) => DistanceGrows(a, b, c, c);
        case Substitute(c, d) => DistanceGrows(a, b, c, d);
        case Insert(c) => DistanceGrows(a, b, c, c); assert Before(script) == a;
        case Delete(c) => DistanceGrows(a, b, c, c); assert After(script) == b;
      }
    }
  }

  lemma AppendEdit(script: seq<Edit>, e: Edit, a: Text, b: Text, a': Text, b': Text) returns (longer: seq<Edit>)
    requires Turns(script, a, b) && a' == a + Taken(e) && b' == b + Left(e)
    ensures Turns(longer, a', b')
    ensures Cost(longer) == Cost(script) + if e.Keep? then 0 else 1
  {
    longer := script + [e];
    assert longer[..|script|] == script;
  }

  /** The last edit of a cheapest script, and the texts it leaves to be turned before it. */
  function LastEdit(a: Text, b: Text): (r: (Edit, Text, Text))
    requires a != [] || b != []
    ensures |r.1| + |r.2| < |a| + |b|
    ensures r.1 + Taken(r.0) == a && r.2 + Left(r.0) == b
    ensures Distance(a, b) == Distance(r.1, r.2) + if r.0.Keep? then 0 else 1
  {
    if a == [] || (b != [] && Distance(a, b) == Distance(a, Front(b)) + 1) then (Insert(Last(b)), a, Front(b))
    else if b == [] || Distance(a, b) == Distance(Front(a), b) + 1 then (Delete(Last(a)), Front(a), b)
    else if Last(a) == Last(b) then (Keep(Last(a)), Front(a), Front(b))
    else (Substitute(Last(a), Last(b)), Front(a), Front(b))
  }

  lemma {:induction false} CheapestScript(a: Text, b: Text) returns (script: seq<Edit>)
    ensures Turns(script, a, b) && Cost(script) == Distance(a, b)
    decreases |a| + |b|
  {
    if a == [] && b == [] {
      script := [];
    } else {
      var (e, a', b') := LastEdit(a, b);
      var s := CheapestScript(a', b');
      script := AppendEdit(s, e, a', b', a, b);
    }
  }

  /** The recurrence is the edit distance, and nothing else is. */
  lemma DistanceIsEditDistance(a: Text, b: Text, d: nat)
    ensures IsEditDistance(d, a, b) <==> d == Distance(a, b)
  {
    var best := CheapestScript(a, b);
    forall script | Turns(script, a, b)
      ensures Distance(a, b) <= Cost(script)
    {
      NoScriptIsCheaper(script);
    }
  }

  lemma {:induction false} DistanceSymmetric(a: Text, b: Text)
    ensures Distance(a, b) == Distance(b, a)
    decreases |a| + |b|
  {
    if a != [] && b != [] {
      DistanceSymmetric(Front(a), b);
      DistanceSymmetric(a, Front(b));
      DistanceSymmetric(Front(a), Front(b));
    }
  }

  lemma {:induction false} DistanceToSelf(a: Text)
    ensures Distance(a, a) == 0
  {
    if a != [] { DistanceToSelf(Front(a)); }
  }

  lemma {:induction false} LengthsApart(a: Text, b: Text)
    ensures |a| - |b| <= Distance(a, b) && |b| - |a| <= Distance(a, b)
    decreases |a| + |b|
  {
    if a != [] && b != [] {
      LengthsApart(Front(a), b);
      LengthsApart(a, Front(b));
      LengthsApart(Front(a), Front(b));
    }
  }

  // ----- the table -----

  /** The entry of row `i`, column `j`. */
  function Cell(a: Text, b: Text, i: nat, j: nat): nat
    requires i <= |a| && j <= |b|
  {
    Distance(a[..i], b[..j])
  }

  lemma CellStep(a: Text, b: Text, i: nat, j: nat)
    requires 0 < i <= |a| && 0 < j <= |b|
    ensures Cell(a, b, i, j) == Min(Min(Cell(a, b, i - 1, j) + 1, Cell(a, b, i, j - 1) + 1),
                                    Cell(a, b, i - 1, j - 1) + if a[i - 1] == b[j - 1] then 0 else 1)
  {
    assert Front(a[..i]) == a[..i - 1] && Front(b[..j]) == b[..j - 1];
  }

  /** A row that is above the bound throughout stays so for the rest of the table. */
  lemma {:induction false} RowsStayAbove(a: Text, b: Text, max: int, i: nat, k: nat, j: nat)
    requires i <= k <= |a| && j <= |b|
    requires forall c :: 0 <= c <= |b| ==> Cell(a, b, i, c) > max
    ensures Cell(a, b, k, j) > max
    decreases k, j
  {
    if i < k {
      RowsStayAbove(a, b, max, i, k - 1, j);
      if j > 0 {
        RowsStayAbove(a, b, max, i, k - 1, j - 1);
        RowsStayAbove(a, b, max, i, k, j - 1);
        CellStep(a, b, k, j);
      } else {
        assert Cell(a, b, k, 0) == k && Cell(a, b, k - 1, 0) == k - 1;
      }
    }
  }

  // ----- the method -----

  /** What the early exits leave of the distance: exact up to the bound, above it otherwise. */
  ghost predicate IsBoundedDistance(r: int, a: Text, b: Text, max: int) {
    if Distance(a, b) <= max then r == Distance(a, b)
    else if a == b then r == 0
    else r == max + 1 || (r == Distance(a, b) && r > max)
  }

  method EditDistance(lhs: Text, rhs: Text, max: int) returns (r: int)
    ensures IsBoundedDistance(r, lhs, rhs, max)
  {
    DistanceToSelf(lhs);
    LengthsApart(lhs, rhs);
    if lhs == rhs { return 0; }
    if |lhs| - |rhs| > max || |rhs| - |lhs| > max { return max + 1; }
    var prev := new int[|rhs| + 1](idx => idx);
    var curr := new int[|rhs| + 1](_ => 0);
    for i := 1 to |lhs| + 1
      invariant HoldsRow(prev, lhs, rhs, i - 1)
    {
      var minInRow := FillRow(prev, curr, lhs, rhs, i);
      if minInRow > max {
        RowExitIsSound(lhs, rhs, max, i);
        return max + 1;
      }
      CopyRow(prev, curr);
      assert HoldsRow(prev, lhs, rhs, i);
    }
    WholeTexts(lhs, rhs);
    return prev[|rhs|];
  }

  method CopyRow(prev: array<int>, curr: array<int>)
    requires prev != curr && prev.Length == curr.Length
    modifies prev
    ensures forall c :: 0 <= c < prev.Length ==> prev[c] == curr[c]
  {
    for j := 0 to curr.Length
      invariant forall c :: 0 <= c < j ==> prev[c] == curr[c]
    {
      prev[j] := curr[j];
    }
  }

  lemma RowExitIsSound(lhs: Text, rhs: Text, max: int, i: nat)
    requires i <= |lhs| && lhs != rhs && forall c :: 0 <= c <= |rhs| ==> Cell(lhs, rhs, i, c) > max
    ensures IsBoundedDistance(max + 1, lhs, rhs, max)
  {
    RowsStayAbove(lhs, rhs, max, i, |lhs|, |rhs|);
    WholeTexts(lhs, rhs);
  }

  lemma WholeTexts(a: Text, b: Text)
    ensures Cell(a, b, |a|, |b|) == Distance(a, b)
  {
    assert a[..|a|] == a && b[..|b|] == b;
  }

  ghost predicate HoldsRow(row: array<int>, a: Text, b: Text, i: nat)
    reads row
    requires i <= |a|
  {
    row.Length == |b| + 1 && forall c :: 0 <= c <= |b| ==> row[c] == Cell(a, b, i, c)
  }

  /** The inner loop: row `i` from the one before it, and its least entry. */
  method FillRow(prev: array<int>, curr: array<int>, lhs: Text, rhs: Text, i: nat) returns (minInRow: int)
    requires prev != curr && 1 <= i <= |lhs| && HoldsRow(prev, lhs, rhs, i - 1) && curr.Length == |rhs| + 1
    modifies curr
    ensures HoldsRow(curr, lhs, rhs, i)
    ensures forall c :: 0 <= c <= |rhs| ==> minInRow <= curr[c]
  {
    curr[0] := i;
    minInRow := curr[0];
    for j := 1 to |rhs| + 1
      invariant HoldsRow(prev, lhs, rhs, i - 1)
      invariant forall c :: 0 <= c < j ==> curr[c] == Cell(lhs, rhs, i, c)
      invariant forall c :: 0 <= c < j ==> minInRow <= curr[c]
    {
      CellStep(lhs, rhs, i, j);
      var cost := if lhs[i - 1] == rhs[j - 1] then 0 else 1;
      curr[j] := Min(Min(prev[j] + 1, curr[j - 1] + 1), prev[j - 1] + cost);
      minInRow := Min(minInRow, curr[j]);
    }
  }

  // ----- the check -----

  /** `toStableText`: a string is compared as it is, anything else by its canonical text. */
  function StableText(le: Collation, inline: Json): Text { if inline.Str? then inline.s else Canonicalize(le, inline) }

  /** The result of a `diff_le` check; a missing artifact fails without a distance. */
  datatype DiffResult = Missing | Compared(pass: bool, distance: int, max: int)

  /** `max` arrives as any number the contract allows (`minimum: 0`) and is rounded down. */
  method EvaluateDiff(le: Collation, left: Option<Json>, right: Option<Json>, max: real) returns (result: DiffResult)
    requires max >= 0.0
    ensures result.Missing? <==> left.None? || right.None?
    ensures result.Compared? ==>
      var a, b := StableText(le, left.value), StableText(le, right.value);
      && result.max == max.Floor
      && (result.pass <==> exists script :: Turns(script, a, b) && Cost(script) as real <= max)
      && (result.pass ==> result.distance >= 0 && IsEditDistance(result.distance, a, b))
      && (!result.pass ==> result.distance > result.max)
    ensures forall s, t :: left == Some(Str(s)) && right == Some(Str(t)) ==>
      result.Compared? && (result.pass <==> exists script :: Turns(script, s, t) && Cost(script) as real <= max)
  {
    if left.None? || right.None? { return Missing; }
    var a, b := StableText(le, left.value), StableText(le, right.value);
    var dist := EditDistance(a, b, max.Floor);
    result := Compared(dist <= max.Floor, dist, max.Floor);
    DistanceIsEditDistance(a, b, Distance(a, b));
    DistanceToSelf(a);
  }

  /** Artifacts equal up to member order are no edits apart, under a collation that tells keys apart. */
  lemma EqualArtifactsMatch(le: Collation, x: Json, y: Json)
    requires IsCollation(le) && Separates(le) && WellFormed(x) && WellFormed(y) && Meaning(x) == Meaning(y)
    ensures IsEditDistance(0, StableText(le, x), StableText(le, y))
  {
    SeparatingIsTieFree(le, x);
    SameMeaningSameText(le, x, y);
    DistanceToSelf(StableText(le, x));
    DistanceIsEditDistance(StableText(le, x), StableText(le, y), 0);
  }

  /** What no edits apart means: one value up to member order, one string, or a string that is the other's
      canonical text. */
  lemma ZeroApartExactly(le: Collation, x: Json, y: Json)
    requires IsCollation(le) && Separates(le) && WellFormed(x) && WellFormed(y)
    ensures IsEditDistance(0, StableText(le, x), StableText(le, y)) <==>
      match (x, y)
      case (Str(s), Str(t)) => s == t
      case (Str(s), _) => s == Canonicalize(le, y)
      case (_, Str(t)) => t == Canonicalize(le, x)
      case _ => Meaning(x) == Meaning(y)
  {
    NoEditsExactly(StableText(le, x), StableText(le, y));
    if !x.Str? && !y.Str? {
      if Meaning(x) == Meaning(y) { EqualArtifactsMatch(le, x, y); }
      if Canonicalize(le, x) == Canonicalize(le, y) { SameTextSameMeaning(le, x, y); }
    }
  }

  lemma NoEditsExactly(a: Text, b: Text)
    ensures IsEditDistance(0, a, b) <==> a == b
  {
    DistanceIsEditDistance(a, b, 0);
    DistanceToSelf(a);
    if Distance(a, b) == 0 { NothingApart(a, b); }
  }

  lemma {:induction false} NothingApart(a: Text, b: Text)
    requires Distance(a, b) == 0
    ensures a == b
    decreases |a|
  {
    if a != [] && b != [] {
      NothingApart(Front(a), Front(b));
      assert a == Front(a) + [Last(a)] && b == Front(b) + [Last(b)];
    }
  }

  /** Swapping the two artifacts of a check changes neither verdict nor a passing distance. */
  lemma DiffSymmetric(a: Text, b: Text, max: int, r: int, s: int)
    requires 0 <= max && IsBoundedDistance(r, a, b, max) && IsBoundedDistance(s, b, a, max)
    ensures r <= max <==> s <= max
    ensures r <= max ==> r == s && IsEditDistance(r, a, b) && IsEditDistance(r, b, a)
  {
    DistanceSymmetric(a, b);
    DistanceToSelf(a);
    DistanceIsEditDistance(a, b, Distance(a, b));
    DistanceIsEditDistance(b, a, Distance(b, a));
  }
}
