/** What canonical text looks like: members in the collation's order at every depth, no blank outside a
    string, and each unit of a string printed in the shortest way JSON has for it. */
module CanonicalText {
  import opened JsText
  import opened JsonValues
  import opened StableSort
  import opened CanonicalJson
  import opened CanonicalJsonProofs

  // ----- the order of members -----

  /** Every object, however deep, lists its keys in the collation's order. */
  ghost predicate KeysInOrder(le: Collation, j: Json) {
    match j
    case Arr(xs) => forall i :: 0 <= i < |xs| ==> KeysInOrder(le, xs[i])
    case Obj(ms) =>
      && (forall i, k :: 0 <= i < k < |ms| ==> le(ms[i].key, ms[k].key))
      && (forall i :: 0 <= i < |ms| ==> KeysInOrder(le, ms[i].val))
    case _ => true
  }

  /** Reading canonical text back finds the keys of every object in order. */
  lemma PrintedInOrder(le: Collation, j: Json)
    requires IsCollation(le) && WellFormed(j)
    ensures Parse(Canonicalize(le, j)).Some? && KeysInOrder(le, Parse(Canonicalize(le, j)).value)
  {
    ParseUndoesCanonicalize(le, j);
    SortedInOrder(le, j);
  }

  lemma {:induction false} SortedInOrder(le: Collation, j: Json)
    requires IsCollation(le)
    ensures KeysInOrder(le, Sorted(le, j))
    decreases Size(j), 0
  {
    match j {
      case Arr(xs) => ItemsInOrder(le, xs);
      case Obj(ms) =>
        SortKeepsSize(le, ms);
        SortOrders(le, MemberKey, ms);
        var sorted := SortMembers(le, ms);
        MembersInOrder(le, sorted);
        forall i, k | 0 <= i < k < |sorted| ensures le(sorted[i].key, sorted[k].key) {
          assert le(MemberKey(sorted[i]), MemberKey(sorted[k]));
        }
      case _ =>
    }
  }

  lemma {:induction false} ItemsInOrder(le: Collation, xs: seq<Json>)
    requires IsCollation(le)
    ensures forall i :: 0 <= i < |xs| ==> KeysInOrder(le, SortedItems(le, xs)[i])
    decreases SizeItems(xs), |xs|
  {
    if xs != [] {
      SortedInOrder(le, xs[0]);
      ItemsInOrder(le, xs[1..]);
    }
  }

  lemma {:induction false} MembersInOrder(le: Collation, ms: seq<Member>)
    requires IsCollation(le)
    ensures forall i :: 0 <= i < |ms| ==> SortedMembers(le, ms)[i].key == ms[i].key && KeysInOrder(le, SortedMembers(le, ms)[i].val)
    decreases SizeMembers(ms), |ms|
  {
    if ms != [] {
      SortedInOrder(le, ms[0].val);
      MembersInOrder(le, ms[1..]);
    }
  }

  // ----- no blanks -----

  /** Where in a JSON text one stands: between tokens or in one, in a string, or after its backslash. */
  datatype Place = Outside | Inside | Escaping

  function Past(p: Place, c: CodeUnit): Place {
    match p
    case Outside => if c == QUOTE then Inside else Outside
    case Inside => if c == QUOTE then Outside else if c == BACKSLASH then Escaping else Inside
    case Escaping => Inside
  }

  function Through(p: Place, t: Text): Place
    decreases |t|
  {
    if t == [] then p else Through(Past(p, t[0]), t[1..])
  }

  /** No blank of RFC 8259 section 2 outside a string. */
  predicate Tight(p: Place, t: Text)
    decreases |t|
  {
    t == [] || ((p.Outside? ==> SkipBlanks([t[0]]) != []) && Tight(Past(p, t[0]), t[1..]))
  }

  /** The stretch is tight, and one is as far outside strings after it as before. */
  predicate Compact(t: Text) { Tight(Outside, t) && Through(Outside, t) == Outside }

  lemma {:induction false} TightJoins(p: Place, s: Text, t: Text)
    ensures Through(p, s + t) == Through(Through(p, s), t)
    ensures Tight(p, s + t) <==> Tight(p, s) && Tight(Through(p, s), t)
    decreases |s|
  {
    if s == [] { assert s + t == t; }
    else {
      assert (s + t)[0] == s[0] && (s + t)[1..] == s[1..] + t;
      TightJoins(Past(p, s[0]), s[1..], t);
    }
  }

  lemma CompactJoins(s: Text, t: Text)
    requires Compact(s) && Compact(t)
    ensures Compact(s + t)
  {
    TightJoins(Outside, s, t);
  }

  lemma CompactUnit(c: CodeUnit)
    requires c != QUOTE && SkipBlanks([c]) != []
    ensures Compact([c])
  {
    assert [c][1..] == [];
  }

  lemma BracketedIsCompact(open: CodeUnit, body: Text, close: CodeUnit)
    requires Compact([open]) && Compact(body) && Compact([close])
    ensures Compact([open] + body + [close])
  {
    CompactJoins([open], body);
    CompactJoins([open] + body, [close]);
  }

  lemma {:induction false} JoinIsCompact(parts: seq<Text>)
    requires forall i :: 0 <= i < |parts| ==> Compact(parts[i])
    ensures Compact(Join(parts, COMMA))
  {
    if |parts| > 1 {
      assert forall i :: 0 <= i < |parts[1..]| ==> parts[1..][i] == parts[i + 1];
      JoinIsCompact(parts[1..]);
      CompactUnit(COMMA);
      CompactJoins(parts[0], [COMMA]);
      CompactJoins(parts[0] + [COMMA], Join(parts[1..], COMMA));
    }
  }

  predicate StaysInside(t: Text) { Tight(Inside, t) && Through(Inside, t) == Inside }

  lemma {:induction false} PlainStaysInside(t: Text)
    requires QUOTE !in t && BACKSLASH !in t
    ensures StaysInside(t)
  {
    if t != [] { PlainStaysInside(t[1..]); }
  }

  lemma UnitStaysInside(c: CodeUnit)
    ensures StaysInside(EscapeUnit(c))
  {
    var e := EscapeUnit(c);
    if |e| == 1 {
      PlainStaysInside(e);
    } else {
      PlainStaysInside(e[2..]);
      assert e == [BACKSLASH, e[1]] + e[2..];
      assert [BACKSLASH, e[1]][1..] == [e[1]] && [e[1]][1..] == [];
      TightJoins(Inside, [BACKSLASH, e[1]], e[2..]);
    }
  }

  lemma {:induction false} EscapeStaysInside(s: Text)
    ensures StaysInside(Escape(s))
    decreases |s|
  {
    if s != [] {
      if Width(s) == 2 { PlainStaysInside([s[0], s[1]]); } else { UnitStaysInside(s[0]); }
      EscapeStaysInside(s[Width(s)..]);
      TightJoins(Inside, EscapeHead(s), Escape(s[Width(s)..]));
    }
  }

  lemma QuoteIsCompact(s: Text)
    ensures Compact(Quote(s))
  {
    EscapeStaysInside(s);
    assert [QUOTE][1..] == [];
    TightJoins(Outside, [QUOTE], Escape(s));
    TightJoins(Outside, [QUOTE] + Escape(s), [QUOTE]);
  }

  lemma {:induction false} SpanIsCompact(t: Text)
    requires NumberSpan(t) == |t|
    ensures Compact(t)
  {
    if t != [] {
      SpanIsCompact(t[1..]);
      CompactUnit(t[0]);
      CompactJoins([t[0]], t[1..]);
      assert t == [t[0]] + t[1..];
    }
  }

  lemma WordsAreCompact()
    ensures Compact(NULL) && Compact(TRUE) && Compact(FALSE)
  {
    LettersAreCompact(NULL);
    LettersAreCompact(TRUE);
    LettersAreCompact(FALSE);
  }

  lemma {:induction false} LettersAreCompact(t: Text)
    requires forall i :: 0 <= i < |t| ==> IsLower(t[i])
    ensures Compact(t)
  {
    if t != [] { LettersAreCompact(t[1..]); }
  }

  lemma {:induction false} ItemsAreCompact(le: Collation, xs: seq<Json>)
    requires forall i :: 0 <= i < |xs| ==> WellFormed(xs[i])
    ensures forall i :: 0 <= i < |xs| ==> Compact(CanonicalItems(le, xs)[i])
    decreases SizeItems(xs), |xs|
  {
    if xs != [] {
      CanonicalIsCompact(le, xs[0]);
      assert forall i :: 0 <= i < |xs[1..]| ==> xs[1..][i] == xs[i + 1];
      ItemsAreCompact(le, xs[1..]);
    }
  }

  lemma {:induction false} MembersAreCompact(le: Collation, ms: seq<Member>)
    requires forall i :: 0 <= i < |ms| ==> WellFormed(ms[i].val)
    ensures forall i :: 0 <= i < |ms| ==> Compact(CanonicalMembers(le, ms)[i])
    decreases SizeMembers(ms), |ms|
  {
    if ms != [] {
      CanonicalIsCompact(le, ms[0].val);
      QuoteIsCompact(ms[0].key);
      CompactUnit(COLON);
      CompactJoins(Quote(ms[0].key), [COLON]);
      CompactJoins(Quote(ms[0].key) + [COLON], Canonicalize(le, ms[0].val));
      assert forall i :: 0 <= i < |ms[1..]| ==> ms[1..][i] == ms[i + 1];
      MembersAreCompact(le, ms[1..]);
    }
  }

  /** Canonical text has no blank outside its strings. */
  lemma {:induction false} CanonicalIsCompact(le: Collation, j: Json)
    requires WellFormed(j)
    ensures Compact(Canonicalize(le, j))
    decreases Size(j), 0
  {
    match j {
      case Num(n) =>
        NumberIsSpanned(n, []);
        assert n + [] == n;
        SpanIsCompact(n);
      case Str(s) => QuoteIsCompact(s);
      case Arr(xs) =>
        ItemsAreCompact(le, xs);
        JoinIsCompact(CanonicalItems(le, xs));
        CompactUnit(OPEN_BRACKET);
        CompactUnit(CLOSE_BRACKET);
        BracketedIsCompact(OPEN_BRACKET, Join(CanonicalItems(le, xs), COMMA), CLOSE_BRACKET);
      case Obj(ms) =>
        SortKeepsSize(le, ms);
        SortedMembersWellFormed(le, ms);
        MembersAreCompact(le, SortMembers(le, ms));
        JoinIsCompact(CanonicalMembers(le, SortMembers(le, ms)));
        CompactUnit(OPEN_BRACE);
        CompactUnit(CLOSE_BRACE);
        BracketedIsCompact(OPEN_BRACE, Join(CanonicalMembers(le, SortMembers(le, ms)), COMMA), CLOSE_BRACE);
      case _ => WordsAreCompact();
    }
  }

  // ----- strings -----

  /** The place between the texts is not inside a surrogate pair. */
  predicate Apart(s: Text, t: Text) { s != [] && t != [] ==> !(IsHighSurrogate(s[|s| - 1]) && IsLowSurrogate(t[0])) }

  lemma HeadStays(s: Text, t: Text)
    requires s != [] && Apart(s, t)
    ensures Width(s + t) == Width(s) <= |s| && EscapeHead(s + t) == EscapeHead(s)
    ensures (s + t)[Width(s)..] == s[Width(s)..] + t && Apart(s[Width(s)..], t)
  {
    assert (s + t)[0] == s[0] && (|s| > 1 ==> (s + t)[1] == s[1]) && (|s| == 1 && t != [] ==> (s + t)[1] == t[0]);
  }

  lemma EscapeUnfolds(s: Text)
    requires s != []
    ensures Escape(s) == EscapeHead(s) + Escape(s[Width(s)..])
  {}

  lemma JoinsAssociate(a: Text, b: Text, c: Text)
    ensures (a + b) + c == a + (b + c)
  {}

  /** Printing runs along the string: cutting it anywhere but inside a surrogate pair cuts the print. */
  lemma {:induction false} EscapeJoins(s: Text, t: Text)
    requires Apart(s, t)
    ensures Escape(s + t) == Escape(s) + Escape(t)
    decreases |s|
  {
    if s == [] {
      assert s + t == t;
    } else {
      HeadStays(s, t);
      EscapeJoins(s[Width(s)..], t);
      EscapeUnfolds(s);
      EscapeUnfolds(s + t);
      JoinsAssociate(EscapeHead(s), Escape(s[Width(s)..]), Escape(t));
    }
  }

  /** A surrogate pair is printed as it is. Any other unit is printed as itself unless it is a control, a
      quote, a backslash or a lone surrogate; as a two-unit escape where there is one; and otherwise as a
      `\u` escape in lower-case hexadecimal. */
  lemma UnitPrintedExactly(c: CodeUnit)
    ensures
      var e, plain := Escape([c]), c >= 0x20 && c != QUOTE && c != BACKSLASH && !(0xD800 <= c <= 0xDFFF);
      var short := exists letter :: letter != SLASH && SimpleEscape(letter) == Some(c);
      && (plain ==> e == [c])
      && (!plain && short ==> |e| == 2 && e[0] == BACKSLASH && SimpleEscape(e[1]) == Some(c))
      && (!plain && !short ==> |e| == 6 && e[..2] == [BACKSLASH, 0x75] && HexQuad(e[2..]) == Some(c) && forall u :: u in e ==> !IsUpper(u))
  {
    assert [c][1..] == [] && Escape([c]) == EscapeUnit(c);
    HexQuadRead(c, []);
    assert UnicodeEscape(c)[2..] + [] == UnicodeEscape(c)[2..];
    assert SimpleEscape(0x62) == Some(0x08) && SimpleEscape(0x74) == Some(0x09) && SimpleEscape(0x6E) == Some(0x0A);
    assert SimpleEscape(0x66) == Some(0x0C) && SimpleEscape(0x72) == Some(0x0D);
    assert SimpleEscape(QUOTE) == Some(QUOTE) && SimpleEscape(BACKSLASH) == Some(BACKSLASH);
  }

  lemma PairPrintedAsIs(c: CodeUnit, d: CodeUnit)
    requires IsHighSurrogate(c) && IsLowSurrogate(d)
    ensures Escape([c, d]) == [c, d]
  {
    assert [c, d][2..] == [];
  }
}
