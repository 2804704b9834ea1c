/** The holes of a template text: what the pattern finds, and what replacing it leaves alone. */
module TemplateHoles {
  import opened JsText
  import opened JsonValues
  import opened IntentTemplate
  import opened CanonicalJsonTheorems
  import opened IntentTemplateProofs

  predicate AllBlank(s: Text) { forall i :: 0 <= i < |s| ==> IsBlank(s[i]) }

  predicate AllPath(s: Text) { forall i :: 0 <= i < |s| ==> IsPathUnit(s[i]) }

  const OPEN: Text := [OPEN_BRACE, OPEN_BRACE]
  const CLOSE: Text := [CLOSE_BRACE, CLOSE_BRACE]

  /** `{{`, blanks, a path, blanks, `}}`. */
  ghost predicate IsHole(hole: Text, path: Text) { exists b, c :: IsHoleWith(hole, b, path, c) }

  predicate IsHoleWith(hole: Text, b: Text, path: Text, c: Text) {
    AllBlank(b) && AllBlank(c) && AllPath(path) && path != [] && hole == OPEN + (b + (path + (c + CLOSE)))
  }

  // ----- blanks and path units are read off whole -----

  predicate StartsAfresh(t: Text, goesOn: CodeUnit -> bool) { t == [] || !goesOn(t[0]) }

  lemma {:induction false} TrimStartOf(b: Text, t: Text)
    requires AllBlank(b) && StartsAfresh(t, IsBlank)
    ensures TrimStart(b + t) == t
  {
    if b == [] { assert b + t == t; }
    else {
      assert (b + t)[1..] == b[1..] + t;
      TrimStartOf(b[1..], t);
    }
  }

  lemma {:induction false} TrimStartLeaves(t: Text) returns (b: Text)
    ensures AllBlank(b) && t == b + TrimStart(t) && StartsAfresh(TrimStart(t), IsBlank)
  {
    b := [];
    if t != [] && IsBlank(t[0]) {
      b := TrimStartLeaves(t[1..]);
      b := [t[0]] + b;
    }
  }

  lemma {:induction false} PathSpanOf(path: Text, t: Text)
    requires AllPath(path) && StartsAfresh(t, IsPathUnit)
    ensures PathSpan(path + t) == |path|
  {
    if path == [] { assert path + t == t; }
    else {
      assert (path + t)[1..] == path[1..] + t;
      PathSpanOf(path[1..], t);
    }
  }

  lemma {:induction false} PathSpanStops(t: Text)
    ensures AllPath(t[..PathSpan(t)])
  {
    if t != [] && IsPathUnit(t[0]) {
      PathSpanStops(t[1..]);
      assert t[..PathSpan(t)] == [t[0]] + t[1..][..PathSpan(t[1..])];
    }
  }

  lemma PathUnitsAreSolid(c: CodeUnit)
    ensures IsPathUnit(c) ==> !IsBlank(c)
    ensures IsBlank(c) ==> !IsPathUnit(c)
  {}

  // ----- what the pattern finds -----

  lemma HoleIsFound(t: Text, b: Text, path: Text, c: Text, after: Text)
    requires AllBlank(b) && AllBlank(c) && AllPath(path) && path != []
    requires t == OPEN + (b + (path + (c + (CLOSE + after))))
    ensures HoleAt(t) == Some((path, after))
  {
    var close := CLOSE + after;
    var tail := c + close;
    var body := path + tail;
    assert t[2..] == b + body;
    PathUnitsAreSolid(path[0]);
    TrimStartOf(b, body);
    TrimStartOf(c, close);
    if c != [] { PathUnitsAreSolid(c[0]); }
    assert StartsAfresh(tail, IsPathUnit);
    PathSpanOf(path, tail);
    assert body[..|path|] == path && body[|path|..] == tail;
    assert close[2..] == after;
  }

  lemma Regroup(b: Text, path: Text, c: Text, after: Text)
    ensures OPEN + (b + (path + (c + CLOSE))) + after == OPEN + (b + (path + (c + (CLOSE + after))))
  {
    assert c + CLOSE + after == c + (CLOSE + after);
    assert path + (c + CLOSE) + after == path + (c + CLOSE + after);
    assert b + (path + (c + CLOSE)) + after == b + (path + (c + CLOSE) + after);
  }

  /** What the pattern has read before the rest: blanks, path, blanks. */
  lemma FoundParts(t: Text) returns (b: Text, c: Text)
    requires HoleAt(t).Some?
    ensures AllBlank(b) && AllBlank(c) && AllPath(HoleAt(t).value.0) && HoleAt(t).value.0 != []
    ensures t[2..] == b + (HoleAt(t).value.0 + (c + (CLOSE + HoleAt(t).value.1)))
  {
    b := TrimStartLeaves(t[2..]);
    var body := TrimStart(t[2..]);
    PathSpanStops(body);
    c := TrimStartLeaves(body[PathSpan(body)..]);
    var close := TrimStart(body[PathSpan(body)..]);
    assert close == CLOSE + close[2..];
    assert body == body[..PathSpan(body)] + body[PathSpan(body)..];
  }

  lemma FoundIsHole(t: Text) returns (hole: Text)
    requires HoleAt(t).Some?
    ensures IsHole(hole, HoleAt(t).value.0) && t == hole + HoleAt(t).value.1
  {
    var b, c := FoundParts(t);
    var path, after := HoleAt(t).value.0, HoleAt(t).value.1;
    hole := OPEN + (b + (path + (c + CLOSE)));
    assert IsHoleWith(hole, b, path, c);
    assert t == OPEN + t[2..];
    Regroup(b, path, c, after);
  }

  /** The pattern matches at the head of a text exactly when the text starts with a hole, and gives that
      hole's path and what follows it: no text can be read as a hole in two ways. */
  lemma HoleAtExactly(t: Text, path: Text, after: Text)
    ensures HoleAt(t) == Some((path, after)) <==> exists hole :: IsHole(hole, path) && t == hole + after
  {
    if HoleAt(t) == Some((path, after)) { var hole := FoundIsHole(t); }
    if hole :| IsHole(hole, path) && t == hole + after {
      var b, c :| IsHoleWith(hole, b, path, c);
      Regroup(b, path, c, after);
      HoleIsFound(t, b, path, c, after);
    }
  }

  // ----- what replacing holes leaves -----

  /** A stretch in which no hole starts is copied. */
  lemma {:induction false} TextBetweenHolesStays(plain: Text, t: Text, scope: Json)
    requires forall i :: 0 <= i < |plain| ==> HoleAt((plain + t)[i..]).None?
    ensures RenderText(plain + t, scope) ==
      match RenderText(t, scope) case None => None case Some(rest) => Some(plain + rest)
  {
    if plain == [] {
      assert plain + t == t;
      assert forall rest: Text :: plain + rest == rest;
    } else {
      var all := plain + t;
      assert all[0..] == all && all[1..] == plain[1..] + t;
      forall i | 0 <= i < |plain[1..]| ensures HoleAt((plain[1..] + t)[i..]).None? {
        assert (plain[1..] + t)[i..] == all[i + 1..];
      }
      TextBetweenHolesStays(plain[1..], t, scope);
      assert forall rest: Text :: [plain[0]] + (plain[1..] + rest) == plain + rest;
    }
  }

  /** A hole becomes the text of what its path finds; a path that finds nothing fails the whole text. */
  lemma HoleIsReplaced(hole: Text, path: Text, t: Text, scope: Json)
    requires IsHole(hole, path)
    ensures RenderText(hole + t, scope) ==
      match (Follow(scope, Segments(path)), RenderText(t, scope))
      case (Some(found), Some(rest)) => Some(StringOf(found) + rest)
      case _ => None
  {
    HoleAtExactly(hole + t, path, t);
  }

  /** A text that is one whole hole renders to a value that means what its path finds, a number as a
      number and an object as an object, and to nothing exactly where the path finds nothing. */
  lemma WholeHoleIsValue(le: StableSort.Collation, hole: Text, path: Text, scope: Json)
    requires IsHole(hole, path) && WellFormed(scope)
    ensures RenderValue(le, Str(hole), scope).Some? <==> Follow(scope, Segments(path)).Some?
    ensures Follow(scope, Segments(path)).Some? ==> Same(RenderValue(le, Str(hole), scope).value, Follow(scope, Segments(path)).value)
  {
    assert hole + [] == hole;
    HoleAtExactly(hole, path, []);
    if Follow(scope, Segments(path)).Some? {
      FollowKeepsWellFormed(scope, Segments(path));
      ReparseMeansSame(le, Follow(scope, Segments(path)).value);
    }
  }

  lemma {:induction false} FollowKeepsWellFormed(current: Json, segments: seq<Text>)
    requires WellFormed(current) && Follow(current, segments).Some?
    ensures WellFormed(Follow(current, segments).value)
    decreases |segments|
  {
    if segments != [] {
      LookupIsField(current.members, segments[0]);
      FollowKeepsWellFormed(Lookup(current.members, segments[0]).value, segments[1..]);
    }
  }
}
