/** What the canonical text determines: a reader undoes it, it is injective up to member order,
    and it ignores member order exactly where the collation tells the keys apart. */
module CanonicalJsonProofs {
  import opened JsText
  import opened JsonValues
  import opened StableSort
  import opened CanonicalJson

  // ----- strings -----

  lemma HexDigitRead(n: nat)
    requires n < 16
    ensures HexValue(HexDigit(n)) == Some(n)
  {}

  lemma BaseSixteen(n: nat)
    requires n < 0x1_0000
    ensures n / 4096 < 16
    ensures ((n / 4096 * 16 + n / 256 % 16) * 16 + n / 16 % 16) * 16 + n % 16 == n
  {
    assert n / 16 / 16 == n / 256 && n / 256 / 16 == n / 4096;
  }

  lemma HexQuadRead(c: CodeUnit, t: Text)
    ensures HexQuad(UnicodeEscape(c)[2..] + t) == Some(c)
  {
    var n := c as int;
    BaseSixteen(n);
    HexDigitRead(n / 4096);
    HexDigitRead(n / 256 % 16);
    HexDigitRead(n / 16 % 16);
    HexDigitRead(n % 16);
  }

  function Prepend(c: CodeUnit, r: Option<(Text, Text)>): Option<(Text, Text)> {
    match r
    case Some((s, rest)) => Some(([c] + s, rest))
    case None => None
  }

  lemma ReadPlain(c: CodeUnit, t: Text)
    requires c >= 0x20 && c != QUOTE && c != BACKSLASH
    ensures ReadString([c] + t) == Prepend(c, ReadString(t))
  {}

  lemma ReadSimple(c: CodeUnit, letter: CodeUnit, t: Text)
    requires SimpleEscape(letter) == Some(c)
    ensures ReadString([BACKSLASH, letter] + t) == Prepend(c, ReadString(t))
  {}

  lemma ReadUnicode(c: CodeUnit, t: Text)
    ensures ReadString(UnicodeEscape(c) + t) == Prepend(c, ReadString(t))
  {
    var e := UnicodeEscape(c);
    assert (e + t)[6..] == t;
    assert (e + t)[2..] == e[2..] + t;
    HexQuadRead(c, t);
    assert (e + t)[1] == 0x75 && SimpleEscape(0x75) == None;
  }

  lemma ReadEscapedUnit(c: CodeUnit, t: Text)
    ensures ReadString(EscapeUnit(c) + t) == Prepend(c, ReadString(t))
  {
    var e := EscapeUnit(c);
    if e == [c] {
      ReadPlain(c, t);
    } else if e == UnicodeEscape(c) {
      ReadUnicode(c, t);
    } else {
      assert e == [BACKSLASH, e[1]];
      ReadSimple(c, e[1], t);
    }
  }

  function PrependAll(t: Text, r: Option<(Text, Text)>): Option<(Text, Text)> {
    match r
    case Some((s, rest)) => Some((t + s, rest))
    case None => None
  }

  lemma ReadHead(s: Text, t: Text)
    requires s != []
    ensures ReadString(EscapeHead(s) + t) == PrependAll(s[..Width(s)], ReadString(t))
  {
    if Width(s) == 2 {
      assert [s[0], s[1]] + t == [s[0]] + ([s[1]] + t);
      ReadPlain(s[1], t);
      ReadPlain(s[0], [s[1]] + t);
      if ReadString(t).Some? {
        var more := ReadString(t).value.0;
        assert [s[0]] + ([s[1]] + more) == s[..2] + more;
      }
    } else {
      ReadEscapedUnit(s[0], t);
      assert s[..1] == [s[0]];
    }
  }

  lemma Regroup(a: Text, b: Text, c: Text)
    ensures a + b + c == a + (b + c)
  {}

  lemma {:induction false} ReadEscaped(s: Text, rest: Text)
    ensures ReadString(Escape(s) + ([QUOTE] + rest)) == Some((s, rest))
    decreases |s|
  {
    var tail := [QUOTE] + rest;
    if s == [] {
      assert Escape(s) + tail == tail;
    } else {
      var n := Width(s);
      ReadEscaped(s[n..], rest);
      ReadHead(s, Escape(s[n..]) + tail);
      Regroup(EscapeHead(s), Escape(s[n..]), tail);
      assert s[..n] + s[n..] == s;
    }
  }

  // ----- numbers -----

  predicate Delimits(t: Text) { t == [] || !IsNumberUnit(t[0]) }

  lemma {:induction false} DigitsAreNumberUnits(t: Text, rest: Text)
    requires NumberSpan(t[LeadingDigits(t)..] + rest) == |t| - LeadingDigits(t)
    ensures NumberSpan(t + rest) == |t|
  {
    var n := LeadingDigits(t);
    if n > 0 {
      assert t[1..][LeadingDigits(t[1..])..] == t[n..];
      DigitsAreNumberUnits(t[1..], rest);
      assert (t + rest)[1..] == t[1..] + rest;
    } else {
      assert t[n..] == t;
    }
  }

  lemma SpanStep(t: Text, rest: Text)
    requires t != [] && IsNumberUnit(t[0]) && NumberSpan(t[1..] + rest) == |t| - 1
    ensures NumberSpan(t + rest) == |t|
  {
    assert (t + rest)[1..] == t[1..] + rest;
  }

  lemma ExponentSpan(t: Text, rest: Text)
    requires IsExponent(t) && Delimits(rest)
    ensures NumberSpan(t + rest) == |t|
  {
    if t == [] {
      assert t + rest == rest;
    } else {
      var signed := |t| > 1 && (t[1] == PLUS || t[1] == DASH);
      var d := if signed then t[2..] else t[1..];
      assert d[LeadingDigits(d)..] + rest == rest;
      DigitsAreNumberUnits(d, rest);
      if signed {
        assert t[1..][1..] == d;
        SpanStep(t[1..], rest);
      }
      SpanStep(t, rest);
    }
  }

  lemma FractionSpan(t: Text, rest: Text)
    requires IsFraction(t) && Delimits(rest)
    ensures NumberSpan(t + rest) == |t|
  {
    if t != [] && t[0] == DOT {
      ExponentSpan(t[1..][LeadingDigits(t[1..])..], rest);
      DigitsAreNumberUnits(t[1..], rest);
      SpanStep(t, rest);
    } else {
      ExponentSpan(t, rest);
    }
  }

  lemma NumberIsSpanned(t: Text, rest: Text)
    requires IsNumber(t) && Delimits(rest)
    ensures NumberSpan(t + rest) == |t| && t != [] && (t[0] == DASH || IsDigit(t[0]))
  {
    var a := if t != [] && t[0] == DASH then t[1..] else t;
    FractionSpan(a[LeadingDigits(a)..], rest);
    DigitsAreNumberUnits(a, rest);
    if a != t {
      SpanStep(t, rest);
    }
  }

  // ----- the reader undoes the printer -----

  predicate AllWellFormed(ms: seq<Member>) { forall m :: m in ms ==> WellFormed(m.val) }

  lemma SortedMembersWellFormed(le: Collation, ms: seq<Member>)
    requires WellFormed(Obj(ms))
    ensures AllWellFormed(SortMembers(le, ms))
  {
    SortKeepsItems(le, MemberKey, ms);
    forall m | m in SortMembers(le, ms)
      ensures WellFormed(m.val)
    {
      var i :| 0 <= i < |ms| && ms[i] == m;
    }
  }

  /** A printed value starts with none of the units the reader tests for first. */
  predicate StartsLikeValue(t: Text) {
    t != [] && t[0] != 0x20 && t[0] != 0x09 && t[0] != 0x0A && t[0] != 0x0D && t[0] != CLOSE_BRACKET && t[0] != CLOSE_BRACE
  }

  lemma StartsValue(le: Collation, j: Json)
    requires WellFormed(j)
    ensures StartsLikeValue(Canonicalize(le, j))
  {}

  lemma ExpectAt(c: CodeUnit, rest: Text)
    requires c != 0x20 && c != 0x09 && c != 0x0A && c != 0x0D
    ensures Expect([c] + rest, c) == Some(rest)
    ensures forall d :: d != c ==> Expect([c] + rest, d) == None
  {}

  lemma JoinStart(parts: seq<Text>, rest: Text)
    requires parts != [] && StartsLikeValue(parts[0])
    ensures Expect(Join(parts, COMMA) + rest, CLOSE_BRACKET) == None
    ensures Expect(Join(parts, COMMA) + rest, CLOSE_BRACE) == None
  {}

  lemma ReadPrintedNumber(n: Text, rest: Text)
    requires IsNumber(n) && Delimits(rest)
    ensures ReadValue(n + rest) == Some((Num(n), rest))
  {
    NumberIsSpanned(n, rest);
    assert (n + rest)[..|n|] == n && (n + rest)[|n|..] == rest;
    assert SkipBlanks(n + rest) == n + rest;
  }

  lemma ReadPrintedString(s: Text, rest: Text)
    ensures ReadValue(Quote(s) + rest) == Some((Str(s), rest))
  {
    var t := Quote(s) + rest;
    assert t[1..] == Escape(s) + ([QUOTE] + rest);
    ReadEscaped(s, rest);
    assert SkipBlanks(t) == t;
  }

  lemma ReadPrintedMember(key: Text, value: Text)
    requires ReadValue(value).Some?
    ensures ReadMember(Quote(key) + ([COLON] + value))
         == Some((Member(key, ReadValue(value).value.0), ReadValue(value).value.1))
  {
    var inner := Escape(key) + ([QUOTE] + ([COLON] + value));
    assert Quote(key) + ([COLON] + value) == [QUOTE] + inner;
    ExpectAt(QUOTE, inner);
    ReadEscaped(key, [COLON] + value);
    ExpectAt(COLON, value);
  }

  lemma ReadPrintedWord(j: Json, word: Text, rest: Text)
    requires (j, word) == (Null, NULL) || (j, word) == (Bool(true), TRUE) || (j, word) == (Bool(false), FALSE)
    ensures ReadValue(word + rest) == Some((j, rest))
  {}

  /** Reading a printed value gives back its sorted tree and stops exactly at its end. */
  lemma {:induction false} ReadCanonical(le: Collation, j: Json, rest: Text)
    requires WellFormed(j) && Delimits(rest)
    ensures ReadValue(Canonicalize(le, j) + rest) == Some((Sorted(le, j), rest))
    decreases Size(j), 0
  {
    match j {
      case Null => ReadPrintedWord(j, NULL, rest);
      case Bool(b) => ReadPrintedWord(j, if b then TRUE else FALSE, rest);
      case Num(n) => ReadPrintedNumber(n, rest);
      case Str(s) => ReadPrintedString(s, rest);
      case Arr(xs) => ReadCanonicalArray(le, xs, rest);
      case Obj(ms) => ReadCanonicalObject(le, ms, rest);
    }
  }

  lemma {:induction false} ReadCanonicalArray(le: Collation, xs: seq<Json>, rest: Text)
    requires WellFormed(Arr(xs)) && Delimits(rest)
    ensures ReadValue(Canonicalize(le, Arr(xs)) + rest) == Some((Sorted(le, Arr(xs)), rest))
    decreases SizeItems(xs), |xs| + 1
  {
    var body := Join(CanonicalItems(le, xs), COMMA) + ([CLOSE_BRACKET] + rest);
    var all := Canonicalize(le, Arr(xs)) + rest;
    assert all == [OPEN_BRACKET] + body;
    assert SkipBlanks(all) == all && all[1..] == body;
    assert ReadValue(all) == ReadArray(body);
    ExpectAt(CLOSE_BRACKET, rest);
    if xs == [] {
      assert body == [CLOSE_BRACKET] + rest;
    } else {
      StartsValue(le, xs[0]);
      JoinStart(CanonicalItems(le, xs), [CLOSE_BRACKET] + rest);
      ReadCanonicalItems(le, xs, rest);
    }
  }

  lemma ReadOpened(body: Text)
    ensures ReadValue([OPEN_BRACE] + body) == ReadObject(body)
  {}

  lemma {:induction false} ReadCanonicalObject(le: Collation, ms: seq<Member>, rest: Text)
    requires WellFormed(Obj(ms)) && Delimits(rest)
    ensures ReadValue(Canonicalize(le, Obj(ms)) + rest) == Some((Sorted(le, Obj(ms)), rest))
    decreases SizeMembers(ms), |ms| + 1
  {
    SortKeepsSize(le, ms);
    SortKeepsItems(le, MemberKey, ms);
    var sorted := SortMembers(le, ms);
    var body := Join(CanonicalMembers(le, sorted), COMMA) + ([CLOSE_BRACE] + rest);
    assert Canonicalize(le, Obj(ms)) + rest == [OPEN_BRACE] + body;
    ReadOpened(body);
    ExpectAt(CLOSE_BRACE, rest);
    if ms == [] {
      assert body == [CLOSE_BRACE] + rest;
    } else {
      SortedMembersWellFormed(le, ms);
      assert CanonicalMembers(le, sorted)[0] == CanonicalMember(le, sorted[0]);
      JoinStart(CanonicalMembers(le, sorted), [CLOSE_BRACE] + rest);
      ReadCanonicalMembers(le, sorted, rest);
    }
  }

  lemma {:induction false} ReadCanonicalItems(le: Collation, xs: seq<Json>, rest: Text)
    requires xs != [] && forall i :: 0 <= i < |xs| ==> WellFormed(xs[i])
    ensures ReadItems(Join(CanonicalItems(le, xs), COMMA) + ([CLOSE_BRACKET] + rest))
         == Some((SortedItems(le, xs), rest))
    decreases SizeItems(xs), |xs|
  {
    var end := [CLOSE_BRACKET] + rest;
    var first := Canonicalize(le, xs[0]);
    var parts := CanonicalItems(le, xs);
    if |xs| == 1 {
      ReadCanonical(le, xs[0], end);
      ExpectAt(CLOSE_BRACKET, rest);
      assert SortedItems(le, xs) == [Sorted(le, xs[0])];
    } else {
      var more := Join(CanonicalItems(le, xs[1..]), COMMA) + end;
      assert parts[1..] == CanonicalItems(le, xs[1..]);
      assert Join(parts, COMMA) + end == first + ([COMMA] + more);
      ReadCanonical(le, xs[0], [COMMA] + more);
      ExpectAt(COMMA, more);
      ReadCanonicalItems(le, xs[1..], rest);
    }
  }

  lemma {:induction false} ReadCanonicalMember(le: Collation, m: Member, rest: Text)
    requires WellFormed(m.val) && Delimits(rest)
    ensures ReadMember(CanonicalMember(le, m) + rest)
         == Some((Member(m.key, Sorted(le, m.val)), rest))
    decreases Size(m.val), 1
  {
    var value := Canonicalize(le, m.val) + rest;
    assert CanonicalMember(le, m) + rest == Quote(m.key) + ([COLON] + value);
    ReadCanonical(le, m.val, rest);
    ReadPrintedMember(m.key, value);
  }

  lemma {:induction false} ReadCanonicalMembers(le: Collation, ms: seq<Member>, rest: Text)
    requires ms != [] && AllWellFormed(ms)
    ensures ReadMembers(Join(CanonicalMembers(le, ms), COMMA) + ([CLOSE_BRACE] + rest))
         == Some((SortedMembers(le, ms), rest))
    decreases SizeMembers(ms), |ms|
  {
    var end := [CLOSE_BRACE] + rest;
    var first := CanonicalMember(le, ms[0]);
    var parts := CanonicalMembers(le, ms);
    if |ms| == 1 {
      ReadCanonicalMember(le, ms[0], end);
      ExpectAt(CLOSE_BRACE, rest);
      assert SortedMembers(le, ms) == [Member(ms[0].key, Sorted(le, ms[0].val))];
    } else {
      var more := Join(CanonicalMembers(le, ms[1..]), COMMA) + end;
      assert parts[1..] == CanonicalMembers(le, ms[1..]);
      assert Join(parts, COMMA) + end == first + ([COMMA] + more);
      ReadCanonicalMember(le, ms[0], [COMMA] + more);
      ExpectAt(COMMA, more);
      ReadCanonicalMembers(le, ms[1..], rest);
    }
  }

  /** A JSON reader undoes the printer: the text spells the tree with its members sorted. */
  lemma ParseUndoesCanonicalize(le: Collation, j: Json)
    requires WellFormed(j)
    ensures Parse(Canonicalize(le, j)) == Some(Sorted(le, j))
  {
    ReadCanonical(le, j, []);
    assert Canonicalize(le, j) + [] == Canonicalize(le, j);
  }
}
