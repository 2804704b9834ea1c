/** The `file_exists` eval check: a glob turned into a regular expression by three successive
    replacements, read here by the pattern grammar of ECMA-262 section 22.2.1. */
module Glob {
  import opened JsText
  import opened JsonValues

  const CARET: CodeUnit := 0x5E
  const DOLLAR: CodeUnit := 0x24
  const OPEN_PAREN: CodeUnit := 0x28
  const CLOSE_PAREN: CodeUnit := 0x29
  const PIPE: CodeUnit := 0x7C

  // ----- the compiler -----

  /** `s.replace(/[...]/g, ...)` for a class of single units: each unit is replaced on its own. */
  function Replace(s: Text, f: CodeUnit -> Text): Text {
    if s == [] then [] else f(s[0]) + Replace(s[1..], f)
  }

  /** The class of the first replacement. */
  predicate IsEscaped(c: CodeUnit) {
    || c == DOT || c == PLUS || c == CARET || c == DOLLAR || c == OPEN_BRACE || c == CLOSE_BRACE
    || c == OPEN_PAREN || c == CLOSE_PAREN || c == PIPE || c == OPEN_BRACKET || c == CLOSE_BRACKET || c == BACKSLASH
  }

  function EscapeSpecial(c: CodeUnit): Text { if IsEscaped(c) then [BACKSLASH, c] else [c] }

  function ExpandStar(c: CodeUnit): Text { if c == STAR then [DOT, STAR] else [c] }

  function ExpandQuestion(c: CodeUnit): Text { if c == QUESTION then [DOT] else [c] }

  function Escaped(glob: Text): Text {
    Replace(Replace(Replace(glob, EscapeSpecial), ExpandStar), ExpandQuestion)
  }

  function GlobToRegex(glob: Text): Text { [CARET] + Escaped(glob) + [DOLLAR] }

  // ----- patterns -----

  datatype Atom = Any | Unit(c: CodeUnit)

  datatype Count = Once | ZeroOrMore | OneOrMore | Optional

  datatype Term = Begin | End | Repeat(atom: Atom, count: Count)

  predicate IsSyntaxCharacter(c: CodeUnit) { IsEscaped(c) || c == STAR || c == QUESTION }

  /** An atom at the head of the text: `.`, an escaped syntax character or slash, or a pattern
      character. Groups, classes, alternatives and other escapes are read as no pattern at all. */
  function ReadAtom(t: Text): (r: Option<(Atom, Text)>)
    ensures r.Some? ==> |r.value.1| < |t|
  {
    if t == [] then None
    else if t[0] == DOT then Some((Any, t[1..]))
    else if t[0] == BACKSLASH then
      if |t| >= 2 && (IsSyntaxCharacter(t[1]) || t[1] == SLASH) then Some((Unit(t[1]), t[2..])) else None
    else if IsSyntaxCharacter(t[0]) then None
    else Some((Unit(t[0]), t[1..]))
  }

  /** An optional quantifier, greedy or lazy; both match the same strings. */
  function ReadCount(t: Text): (r: (Count, Text))
    ensures |r.1| <= |t|
  {
    if t == [] || (t[0] != STAR && t[0] != PLUS && t[0] != QUESTION) then (Once, t)
    else
      var count := if t[0] == STAR then ZeroOrMore else if t[0] == PLUS then OneOrMore else Optional;
      (count, if |t| > 1 && t[1] == QUESTION then t[2..] else t[1..])
  }

  function ReadPattern(t: Text): Option<seq<Term>>
    decreases |t|
  {
    if t == [] then Some([])
    else if t[0] == CARET || t[0] == DOLLAR then
      match ReadPattern(t[1..])
      case None => None
      case Some(terms) => Some([if t[0] == CARET then Begin else End] + terms)
    else
      match ReadAtom(t)
      case None => None
      case Some((atom, rest)) =>
        var (count, more) := ReadCount(rest);
        match ReadPattern(more)
        case None => None
        case Some(terms) => Some([Repeat(atom, count)] + terms)
  }

  predicate Accepts(atom: Atom, s: Text, i: nat) {
    i < |s| && match atom case Any => !IsLineTerminator(s[i]) case Unit(c) => s[i] == c
  }

  /** Whether the terms match some stretch of the string that starts at `i`. */
  predicate MatchesAt(terms: seq<Term>, s: Text, i: nat)
    requires i <= |s|
    decreases |s| - i, |terms|
  {
    if terms == [] then true
    else
      match terms[0]
      case Begin => i == 0 && MatchesAt(terms[1..], s, i)
      case End => i == |s| && MatchesAt(terms[1..], s, i)
      case Repeat(atom, Once) => Accepts(atom, s, i) && MatchesAt(terms[1..], s, i + 1)
      case Repeat(atom, ZeroOrMore) =>
        MatchesAt(terms[1..], s, i) || (Accepts(atom, s, i) && MatchesAt(terms, s, i + 1))
      case Repeat(atom, OneOrMore) =>
        Accepts(atom, s, i) && MatchesAt([Repeat(atom, ZeroOrMore)] + terms[1..], s, i + 1)
      case Repeat(atom, Optional) =>
        MatchesAt(terms[1..], s, i) || (Accepts(atom, s, i) && MatchesAt(terms[1..], s, i + 1))
  }

  /** `new RegExp(pattern).test(s)`: a match anywhere; a pattern that cannot be read matches nothing. */
  predicate Test(pattern: Text, s: Text) {
    match ReadPattern(pattern)
    case None => false
    case Some(terms) => exists i :: 0 <= i <= |s| && MatchesAt(terms, s, i)
  }

  // ----- what a glob means -----

  predicate GlobMatches(glob: Text, s: Text)
    decreases |glob| + |s|
  {
    if glob == [] then s == []
    else if glob[0] == STAR then
      GlobMatches(glob[1..], s) || (s != [] && !IsLineTerminator(s[0]) && GlobMatches(glob, s[1..]))
    else if glob[0] == QUESTION then s != [] && !IsLineTerminator(s[0]) && GlobMatches(glob[1..], s[1..])
    else s != [] && s[0] == glob[0] && GlobMatches(glob[1..], s[1..])
  }

  // ----- the passes do not disturb each other -----

  lemma {:induction false} ReplaceConcat(s: Text, t: Text, f: CodeUnit -> Text)
    ensures Replace(s + t, f) == Replace(s, f) + Replace(t, f)
  {
    if s == [] {
      assert s + t == t;
    } else {
      ReplaceConcat(s[1..], t, f);
      assert (s + t)[1..] == s[1..] + t && (s + t)[0] == s[0];
      calc {
        Replace(s + t, f);
        f(s[0]) + Replace(s[1..] + t, f);
        f(s[0]) + (Replace(s[1..], f) + Replace(t, f));
        (f(s[0]) + Replace(s[1..], f)) + Replace(t, f);
      }
    }
  }

  lemma ReplaceOne(c: CodeUnit, f: CodeUnit -> Text)
    ensures Replace([c], f) == f(c)
  {}

  lemma ReplaceTwo(c: CodeUnit, d: CodeUnit, f: CodeUnit -> Text)
    ensures Replace([c, d], f) == f(c) + f(d)
  {
    assert [c, d][1..] == [d];
    ReplaceOne(d, f);
  }

  /** What one glob unit has become after all three passes. */
  function Token(c: CodeUnit): Text {
    if c == STAR then [DOT, STAR] else if c == QUESTION then [DOT] else EscapeSpecial(c)
  }

  lemma OneUnitThroughAllPasses(c: CodeUnit)
    ensures Replace(Replace(EscapeSpecial(c), ExpandStar), ExpandQuestion) == Token(c)
  {
    if IsEscaped(c) {
      ReplaceTwo(BACKSLASH, c, ExpandStar);
      ReplaceTwo(BACKSLASH, c, ExpandQuestion);
    } else {
      ReplaceOne(c, ExpandStar);
      if c == STAR { ReplaceTwo(DOT, STAR, ExpandQuestion); } else { ReplaceOne(c, ExpandQuestion); }
    }
  }

  lemma EscapedStep(glob: Text)
    requires glob != []
    ensures Escaped(glob) == Token(glob[0]) + Escaped(glob[1..])
  {
    var head, tail := EscapeSpecial(glob[0]), Replace(glob[1..], EscapeSpecial);
    ReplaceConcat(head, tail, ExpandStar);
    ReplaceConcat(Replace(head, ExpandStar), Replace(tail, ExpandStar), ExpandQuestion);
    OneUnitThroughAllPasses(glob[0]);
  }

  // ----- the compiled pattern reads as the glob, term by term -----

  function TermOf(c: CodeUnit): Term {
    if c == STAR then Repeat(Any, ZeroOrMore) else if c == QUESTION then Repeat(Any, Once) else Repeat(Unit(c), Once)
  }

  function TermsOf(glob: Text): seq<Term> {
    if glob == [] then [End] else [TermOf(glob[0])] + TermsOf(glob[1..])
  }

  /** No compiled tail starts with a quantifier, so none attaches to the term before it. */
  lemma NoStrayQuantifier(glob: Text)
    ensures
      var t := Escaped(glob) + [DOLLAR];
      t[0] != STAR && t[0] != PLUS && t[0] != QUESTION
  {}

  lemma {:induction false} ReadToken(c: CodeUnit, rest: Text)
    requires rest != [] && rest[0] != STAR && rest[0] != PLUS && rest[0] != QUESTION
    requires ReadPattern(rest).Some?
    ensures ReadPattern(Token(c) + rest) == Some([TermOf(c)] + ReadPattern(rest).value)
  {}

  lemma {:induction false} ReadCompiled(glob: Text)
    ensures ReadPattern(Escaped(glob) + [DOLLAR]) == Some(TermsOf(glob))
  {
    if glob == [] {
      assert Escaped(glob) + [DOLLAR] == [DOLLAR];
      assert [DOLLAR][1..] == [] && ReadPattern([]) == Some([]);
      assert [End] + [] == [End];
    } else {
      var rest := Escaped(glob[1..]) + [DOLLAR];
      EscapedStep(glob);
      assert Escaped(glob) + [DOLLAR] == Token(glob[0]) + rest;
      ReadCompiled(glob[1..]);
      NoStrayQuantifier(glob[1..]);
      ReadToken(glob[0], rest);
    }
  }

  lemma {:induction false} TermsMatchAsGlob(glob: Text, s: Text, i: nat)
    requires i <= |s|
    ensures MatchesAt(TermsOf(glob), s, i) <==> GlobMatches(glob, s[i..])
    decreases |s| - i, |glob|
  {
    if glob == [] {
      assert TermsOf(glob)[1..] == [];
    } else {
      assert TermsOf(glob)[1..] == TermsOf(glob[1..]);
      TermsMatchAsGlob(glob[1..], s, i);
      if i < |s| {
        assert s[i..][1..] == s[i + 1..];
        TermsMatchAsGlob(glob, s, i + 1);
        TermsMatchAsGlob(glob[1..], s, i + 1);
      }
    }
  }

  /** The compiled pattern accepts a string exactly when the glob does. */
  lemma CompiledGlobKeepsMeaning(glob: Text, s: Text)
    ensures ReadPattern(GlobToRegex(glob)).Some?
    ensures Test(GlobToRegex(glob), s) <==> GlobMatches(glob, s)
  {
    var pattern := GlobToRegex(glob);
    ReadCompiled(glob);
    assert pattern[1..] == Escaped(glob) + [DOLLAR];
    var terms := [Begin] + TermsOf(glob);
    assert ReadPattern(pattern) == Some(terms);
    assert terms[1..] == TermsOf(glob);
    TermsMatchAsGlob(glob, s, 0);
    assert s[0..] == s;
    assert MatchesAt(terms, s, 0) <==> GlobMatches(glob, s);
    assert forall i :: 0 < i <= |s| ==> !MatchesAt(terms, s, i);
  }

  // ----- the glob's meaning, without recursion -----

  /** A star stands for any stretch free of line terminators, a question mark for one such unit. */
  predicate Covers(c: CodeUnit, piece: Text) {
    if c == STAR then forall i :: 0 <= i < |piece| ==> !IsLineTerminator(piece[i])
    else |piece| == 1 && if c == QUESTION then !IsLineTerminator(piece[0]) else piece[0] == c
  }

  function Concat(pieces: seq<Text>): Text {
    if pieces == [] then [] else pieces[0] + Concat(pieces[1..])
  }

  ghost predicate Splits(glob: Text, s: Text, pieces: seq<Text>) {
    && |pieces| == |glob| && Concat(pieces) == s
    && forall k :: 0 <= k < |glob| ==> Covers(glob[k], pieces[k])
  }

  lemma SplitCons(c: CodeUnit, piece: Text, glob: Text, s: Text, pieces: seq<Text>)
    requires Covers(c, piece) && Splits(glob, s, pieces)
    ensures Splits([c] + glob, piece + s, [piece] + pieces)
  {}

  lemma {:induction false} SplitOf(glob: Text, s: Text) returns (pieces: seq<Text>)
    requires GlobMatches(glob, s)
    ensures Splits(glob, s, pieces)
    decreases |glob| + |s|
  {
    if glob == [] { return []; }
    assert glob == [glob[0]] + glob[1..];
    if glob[0] == STAR && GlobMatches(glob[1..], s) {
      var rest := SplitOf(glob[1..], s);
      SplitCons(STAR, [], glob[1..], s, rest);
      assert [] + s == s;
      pieces := [[]] + rest;
    } else {
      assert s == [s[0]] + s[1..];
      if glob[0] == STAR {
        var longer := SplitOf(glob, s[1..]);
        pieces := [[s[0]] + longer[0]] + longer[1..];
        assert pieces[1..] == longer[1..];
        assert Concat(pieces) == [s[0]] + Concat(longer);
      } else {
        var rest := SplitOf(glob[1..], s[1..]);
        SplitCons(glob[0], [s[0]], glob[1..], s[1..], rest);
        pieces := [[s[0]]] + rest;
      }
    }
  }

  lemma {:induction false} SplitMatches(glob: Text, s: Text, pieces: seq<Text>)
    requires Splits(glob, s, pieces)
    ensures GlobMatches(glob, s)
    decreases |glob| + |s|
  {
    if glob != [] {
      var piece, rest := pieces[0], Concat(pieces[1..]);
      assert s == piece + rest;
      if piece == [] {
        assert s == rest;
        SplitMatches(glob[1..], rest, pieces[1..]);
      } else if glob[0] == STAR {
        var shorter := [piece[1..]] + pieces[1..];
        assert shorter[1..] == pieces[1..];
        assert s[1..] == piece[1..] + rest;
        SplitMatches(glob, s[1..], shorter);
      } else {
        assert s[1..] == rest;
        SplitMatches(glob[1..], s[1..], pieces[1..]);
      }
    }
  }

  /** The compiled pattern accepts a string exactly when the string splits into one stretch per
      glob unit. */
  lemma CompiledGlobSplits(glob: Text, s: Text)
    ensures Test(GlobToRegex(glob), s) <==> exists pieces :: Splits(glob, s, pieces)
  {
    CompiledGlobKeepsMeaning(glob, s);
    if GlobMatches(glob, s) {
      var pieces := SplitOf(glob, s);
    }
    forall pieces | Splits(glob, s, pieces)
      ensures GlobMatches(glob, s)
    {
      SplitMatches(glob, s, pieces);
    }
  }

  /** `index.items.some((it) => re.test(it.uri))`. */
  predicate FileExists(glob: Text, uris: seq<Text>) {
    exists k :: 0 <= k < |uris| && Test(GlobToRegex(glob), uris[k])
  }

  /** The check passes exactly when some indexed URI splits along the glob. */
  lemma FileExistsExactly(glob: Text, uris: seq<Text>)
    ensures FileExists(glob, uris) <==> exists uri, pieces :: uri in uris && Splits(glob, uri, pieces)
  {
    forall k | 0 <= k < |uris|
      ensures Test(GlobToRegex(glob), uris[k]) <==> exists pieces :: Splits(glob, uris[k], pieces)
    {
      CompiledGlobSplits(glob, uris[k]);
    }
    if uri, pieces :| uri in uris && Splits(glob, uri, pieces) {
      var k :| 0 <= k < |uris| && uris[k] == uri;
      assert exists ps :: Splits(glob, uris[k], ps);
    }
  }
}
