/** The identity laws of the canonical text: equal texts mean equal values, and equal values print
    the same exactly where the collation tells an object's keys apart. */
module CanonicalJsonTheorems {
  import opened JsText
  import opened Utf8
  import opened JsonValues
  import opened StableSort
  import opened CanonicalJson
  import opened CanonicalJsonProofs

  // ----- member lists as maps -----

  lemma {:induction false} FieldsOf(ms: seq<Member>)
    requires DistinctKeys(ms)
    ensures Fields(ms).Keys == Keys(ms)
    ensures forall i :: 0 <= i < |ms| ==> ms[i].key in Fields(ms) && Fields(ms)[ms[i].key] == Meaning(ms[i].val)
  {
    if ms != [] {
      FieldsOf(ms[1..]);
      forall i | 0 <= i < |ms|
        ensures ms[i].key in Fields(ms) && Fields(ms)[ms[i].key] == Meaning(ms[i].val)
      {
        if i > 0 { assert ms[i] == ms[1..][i - 1]; }
      }
      forall k
        ensures k in Fields(ms) <==> k in Keys(ms)
      {
        if k in Fields(ms) && k != ms[0].key {
          var i :| 0 <= i < |ms[1..]| && ms[1..][i].key == k;
          assert ms[i + 1].key == k;
        }
      }
    }
  }

  /** Two lists of the same members, in any order, are the same map. */
  lemma FieldsIgnoreOrder(a: seq<Member>, b: seq<Member>)
    requires DistinctKeys(a) && DistinctKeys(b)
    requires forall m :: m in a <==> m in b
    ensures Fields(a) == Fields(b)
  {
    FieldsOf(a);
    FieldsOf(b);
    forall k | k in Fields(a)
      ensures k in Fields(b) && Fields(b)[k] == Fields(a)[k]
    {
      var i :| 0 <= i < |a| && a[i].key == k;
      assert a[i] in b;
      var j :| 0 <= j < |b| && b[j] == a[i];
    }
    forall k | k in Fields(b)
      ensures k in Fields(a)
    {
      var j :| 0 <= j < |b| && b[j].key == k;
      assert b[j] in a;
      var i :| 0 <= i < |a| && a[i] == b[j];
    }
  }

  /** Two well-formed values equal up to member order. */
  ghost predicate Same(x: Json, y: Json) { WellFormed(x) && WellFormed(y) && Meaning(x) == Meaning(y) }

  ghost predicate SameIfAny(x: Option<Json>, y: Option<Json>) {
    (x.Some? <==> y.Some?) && (x.Some? ==> Same(x.value, y.value))
  }

  // ----- looking up -----

  lemma {:induction false} LookupIsField(ms: seq<Member>, key: Text)
    ensures Lookup(ms, key).Some? <==> key in Fields(ms)
    ensures key in Fields(ms) ==> Meaning(Lookup(ms, key).value) == Fields(ms)[key]
    ensures Lookup(ms, key).Some? ==> exists i :: 0 <= i < |ms| && ms[i] == Member(key, Lookup(ms, key).value)
  {
    if ms != [] && ms[0].key != key {
      LookupIsField(ms[1..], key);
      if Lookup(ms[1..], key).Some? {
        var i :| 0 <= i < |ms[1..]| && ms[1..][i] == Member(key, Lookup(ms[1..], key).value);
        assert ms[i + 1] == ms[1..][i];
      }
    } else if ms != [] {
      assert ms[0] == Member(key, ms[0].val);
    }
  }

  lemma LookupAgrees(ms: seq<Member>, ns: seq<Member>, key: Text)
    requires Same(Obj(ms), Obj(ns))
    ensures SameIfAny(Lookup(ms, key), Lookup(ns, key))
  {
    LookupIsField(ms, key);
    LookupIsField(ns, key);
  }

  /** With distinct keys, what an object has under a key is what it lists. */
  lemma {:induction false} LookupIsListed(ms: seq<Member>, key: Text, v: Json)
    requires DistinctKeys(ms)
    ensures Lookup(ms, key) == Some(v) <==> Member(key, v) in ms
  {
    if ms != [] {
      assert forall i :: 0 <= i < |ms[1..]| ==> ms[1..][i] == ms[i + 1];
      LookupIsListed(ms[1..], key, v);
      assert Member(key, v) in ms <==> ms[0] == Member(key, v) || Member(key, v) in ms[1..];
      if ms[0].key == key { assert forall i :: 0 < i < |ms| ==> ms[i].key != key; }
    }
  }

  // ----- sorting -----

  lemma SortKeepsDistinct(le: Collation, ms: seq<Member>)
    requires DistinctKeys(ms)
    ensures DistinctKeys(SortMembers(le, ms))
  {
    SortKeepsItems(le, MemberKey, ms);
    PermutedKeysDiffer(MemberKey, ms, SortMembers(le, ms));
  }

  // ----- the sorted tree means the same -----

  /** Printing order changes nothing but order. */
  lemma {:induction false} SortedMeansSame(le: Collation, j: Json)
    requires WellFormed(j)
    ensures Meaning(Sorted(le, j)) == Meaning(j)
    decreases Size(j), 0
  {
    match j {
      case Arr(xs) => SortedItemsMeanSame(le, xs);
      case Obj(ms) =>
        var sorted := SortMembers(le, ms);
        SortKeepsSize(le, ms);
        SortKeepsItems(le, MemberKey, ms);
        SortKeepsDistinct(le, ms);
        SortedMembersWellFormed(le, ms);
        SortedMembersMeanSame(le, sorted);
        FieldsIgnoreOrder(sorted, ms);
      case _ =>
    }
  }

  lemma {:induction false} SortedItemsMeanSame(le: Collation, xs: seq<Json>)
    requires forall i :: 0 <= i < |xs| ==> WellFormed(xs[i])
    ensures Meanings(SortedItems(le, xs)) == Meanings(xs)
    decreases SizeItems(xs), |xs|
  {
    if xs != [] {
      SortedMeansSame(le, xs[0]);
      SortedItemsMeanSame(le, xs[1..]);
    }
  }

  lemma {:induction false} SortedMembersMeanSame(le: Collation, ms: seq<Member>)
    requires AllWellFormed(ms)
    ensures Fields(SortedMembers(le, ms)) == Fields(ms)
    decreases SizeMembers(ms), |ms|
  {
    if ms != [] {
      SortedMeansSame(le, ms[0].val);
      SortedMembersMeanSame(le, ms[1..]);
    }
  }

  // ----- injective up to member order -----

  /** Two values that print the same are the same up to member order. */
  lemma SameTextSameMeaning(le: Collation, x: Json, y: Json)
    requires WellFormed(x) && WellFormed(y)
    requires Canonicalize(le, x) == Canonicalize(le, y)
    ensures Meaning(x) == Meaning(y)
  {
    ParseUndoesCanonicalize(le, x);
    ParseUndoesCanonicalize(le, y);
    SortedMeansSame(le, x);
    SortedMeansSame(le, y);
  }

  // ----- independent of member order -----

  /** No object of the tree holds two different keys that compare equal. */
  predicate TieFree(le: Collation, j: Json) {
    match j
    case Arr(xs) => forall i :: 0 <= i < |xs| ==> TieFree(le, xs[i])
    case Obj(ms) =>
      && (forall i, k :: 0 <= i < |ms| && 0 <= k < |ms| ==> !Ties(le, ms[i].key, ms[k].key))
      && forall i :: 0 <= i < |ms| ==> TieFree(le, ms[i].val)
    case _ => true
  }

  ghost predicate NoTies(le: Collation, keys: set<Text>) {
    forall k, l :: k in keys && l in keys ==> !Ties(le, k, l)
  }

  /** Two sorted lists spelling one tie-free map list the same keys with the same meanings. */
  lemma {:induction false} SortedListsAgree(le: Collation, a: seq<Member>, b: seq<Member>)
    requires Ordered(le, MemberKey, a) && Ordered(le, MemberKey, b) && DistinctKeys(a) && DistinctKeys(b)
    requires NoTies(le, Keys(a))
    requires Fields(a) == Fields(b)
    ensures |a| == |b|
    ensures forall i :: 0 <= i < |a| ==> a[i].key == b[i].key && Meaning(a[i].val) == Meaning(b[i].val)
  {
    FieldsOf(a);
    FieldsOf(b);
    SameEmptiness(a, b);
    if a != [] {
      HeadKey(le, a, b);
      FieldsOfTail(a);
      FieldsOfTail(b);
      KeysOfTail(a);
      SortedListsAgree(le, a[1..], b[1..]);
      ConsAgree(a, b);
    }
  }

  lemma ConsAgree(a: seq<Member>, b: seq<Member>)
    requires a != [] && b != [] && |a[1..]| == |b[1..]|
    requires a[0].key == b[0].key && Meaning(a[0].val) == Meaning(b[0].val)
    requires forall i :: 0 <= i < |a[1..]| ==> a[1..][i].key == b[1..][i].key && Meaning(a[1..][i].val) == Meaning(b[1..][i].val)
    ensures forall i :: 0 <= i < |a| ==> a[i].key == b[i].key && Meaning(a[i].val) == Meaning(b[i].val)
  {}

  lemma SameEmptiness(a: seq<Member>, b: seq<Member>)
    requires Fields(a) == Fields(b)
    ensures a == [] <==> b == []
  {
    assert a != [] ==> a[0].key in Fields(a);
    assert b != [] ==> b[0].key in Fields(b);
  }

  lemma HeadNotInTail(ms: seq<Member>)
    requires ms != [] && DistinctKeys(ms)
    ensures ms[0].key !in Fields(ms[1..])
  {
    FieldsOf(ms[1..]);
    forall i | 0 <= i < |ms[1..]|
      ensures ms[1..][i].key != ms[0].key
    {
      assert ms[1..][i] == ms[i + 1];
    }
  }

  lemma FieldsOfTail(ms: seq<Member>)
    requires ms != [] && DistinctKeys(ms)
    ensures Fields(ms[1..]) == Fields(ms) - {ms[0].key}
  {
    HeadNotInTail(ms);
    var tail := Fields(ms[1..]);
    assert Fields(ms) == tail[ms[0].key := Meaning(ms[0].val)];
    assert tail[ms[0].key := Meaning(ms[0].val)] - {ms[0].key} == tail;
  }

  lemma KeysOfTail(ms: seq<Member>)
    requires ms != []
    ensures Keys(ms[1..]) <= Keys(ms)
  {}

  lemma HeadKey(le: Collation, a: seq<Member>, b: seq<Member>)
    requires a != [] && b != [] && Ordered(le, MemberKey, a) && Ordered(le, MemberKey, b)
    requires NoTies(le, Keys(a))
    requires Keys(a) == Keys(b)
    ensures a[0].key == b[0].key
  {
    assert a[0].key in Keys(b) && b[0].key in Keys(a);
    var i :| 0 <= i < |b| && b[i].key == a[0].key;
    var j :| 0 <= j < |a| && a[j].key == b[0].key;
    assert i == 0 || le(b[0].key, b[i].key);
    assert j == 0 || le(a[0].key, a[j].key);
    assert le(b[0].key, a[0].key) || a[0].key == b[0].key;
  }

  lemma {:induction false} MeaningsAt(xs: seq<Json>)
    ensures |Meanings(xs)| == |xs|
    ensures forall i :: 0 <= i < |xs| ==> Meanings(xs)[i] == Meaning(xs[i])
  {
    if xs != [] { MeaningsAt(xs[1..]); }
  }

  /** Values equal up to member order print the same text, keys that tie set aside. */
  lemma {:induction false} SameMeaningSameText(le: Collation, x: Json, y: Json)
    requires IsCollation(le) && WellFormed(x) && WellFormed(y) && TieFree(le, x)
    requires Meaning(x) == Meaning(y)
    ensures Canonicalize(le, x) == Canonicalize(le, y)
    decreases Size(x), 0
  {
    match x {
      case Arr(xs) =>
        MeaningsAt(xs);
        MeaningsAt(y.items);
        SameItemsSameText(le, xs, y.items);
      case Obj(ms) =>
        var a, b := SortMembers(le, ms), SortMembers(le, y.members);
        SortKeepsSize(le, ms);
        SortOrders(le, MemberKey, ms);
        SortOrders(le, MemberKey, y.members);
        SortKeepsItems(le, MemberKey, ms);
        SortKeepsItems(le, MemberKey, y.members);
        SortKeepsDistinct(le, ms);
        SortKeepsDistinct(le, y.members);
        FieldsIgnoreOrder(a, ms);
        FieldsIgnoreOrder(b, y.members);
        SortedMembersWellFormed(le, ms);
        SortedMembersWellFormed(le, y.members);
        SortedTieFree(le, ms);
        SortedListsAgree(le, a, b);
        SameMembersSameText(le, a, b);
      case _ =>
    }
  }

  lemma SortedTieFree(le: Collation, ms: seq<Member>)
    requires TieFree(le, Obj(ms))
    ensures
      var a := SortMembers(le, ms);
      && NoTies(le, Keys(a))
      && forall m :: m in a ==> TieFree(le, m.val)
  {
    SortKeepsItems(le, MemberKey, ms);
    var a := SortMembers(le, ms);
    forall m | m in a
      ensures TieFree(le, m.val) && exists i :: 0 <= i < |ms| && ms[i].key == m.key
    {
      var i :| 0 <= i < |ms| && ms[i] == m;
    }
    forall k, l | k in Keys(a) && l in Keys(a)
      ensures !Ties(le, k, l)
    {
      var p :| 0 <= p < |a| && a[p].key == k;
      var q :| 0 <= q < |a| && a[q].key == l;
      assert a[p] in a && a[q] in a;
      var i :| 0 <= i < |ms| && ms[i].key == k;
      var j :| 0 <= j < |ms| && ms[j].key == l;
    }
  }

  lemma {:induction false} SameItemsSameText(le: Collation, xs: seq<Json>, ys: seq<Json>)
    requires IsCollation(le) && |xs| == |ys|
    requires forall i :: 0 <= i < |xs| ==> WellFormed(xs[i]) && WellFormed(ys[i]) && TieFree(le, xs[i])
    requires forall i :: 0 <= i < |xs| ==> Meaning(xs[i]) == Meaning(ys[i])
    ensures CanonicalItems(le, xs) == CanonicalItems(le, ys)
    decreases SizeItems(xs), |xs|
  {
    if xs != [] {
      SameMeaningSameText(le, xs[0], ys[0]);
      SameItemsSameText(le, xs[1..], ys[1..]);
    }
  }

  lemma {:induction false} SameMembersSameText(le: Collation, a: seq<Member>, b: seq<Member>)
    requires IsCollation(le) && |a| == |b| && AllWellFormed(a) && AllWellFormed(b)
    requires forall m :: m in a ==> TieFree(le, m.val)
    requires forall i :: 0 <= i < |a| ==> a[i].key == b[i].key && Meaning(a[i].val) == Meaning(b[i].val)
    ensures CanonicalMembers(le, a) == CanonicalMembers(le, b)
    decreases SizeMembers(a), |a|
  {
    if a != [] {
      SameMeaningSameText(le, a[0].val, b[0].val);
      SameMembersSameText(le, a[1..], b[1..]);
    }
  }

  // ----- exactly when member order is ignored -----

  /** Equal text is the same thing as equal meaning. */
  ghost predicate TextIsIdentity(le: Collation) {
    forall x, y :: WellFormed(x) && WellFormed(y) ==>
      (Canonicalize(le, x) == Canonicalize(le, y) <==> Meaning(x) == Meaning(y))
  }

  lemma {:induction false} SeparatingIsTieFree(le: Collation, j: Json)
    requires Separates(le)
    ensures TieFree(le, j)
    decreases j
  {
    match j {
      case Arr(xs) =>
        forall i | 0 <= i < |xs| ensures TieFree(le, xs[i]) { SeparatingIsTieFree(le, xs[i]); }
      case Obj(ms) =>
        forall i | 0 <= i < |ms| ensures TieFree(le, ms[i].val) { SeparatingIsTieFree(le, ms[i].val); }
      case _ =>
    }
  }

  /** Two tying keys print in the order they were given, so one object gets two texts. */
  lemma TyingKeysPrintInOrder(le: Collation, k: Text, l: Text)
    requires Ties(le, k, l)
    ensures
      var x, y := Obj([Member(k, Null), Member(l, Null)]), Obj([Member(l, Null), Member(k, Null)]);
      && WellFormed(x) && WellFormed(y)
      && Meaning(x) == Meaning(y)
      && Canonicalize(le, x) != Canonicalize(le, y)
  {
    var a, b := Member(k, Null), Member(l, Null);
    var x, y := Obj([a, b]), Obj([b, a]);
    assert WellFormed(x) && WellFormed(y);
    forall m: Member, n: Member | le(m.key, n.key) && m.val == n.val == Null
      ensures Sorted(le, Obj([m, n])) == Obj([m, n])
    {
      assert [m, n][1..] == [n] && [n][1..] == [];
      assert Sort(le, MemberKey, [n]) == Insert(le, MemberKey, n, []);
      assert Sort(le, MemberKey, [m, n]) == Insert(le, MemberKey, m, [n]);
      assert SortedMembers(le, [n]) == [n];
      assert SortedMembers(le, [m, n]) == [m] + [n];
    }
    FieldsIgnoreOrder([a, b], [b, a]);
    ParseUndoesCanonicalize(le, x);
    ParseUndoesCanonicalize(le, y);
    assert [a, b][0] != [b, a][0];
  }

  /** The canonical text is an identity for values exactly when the collation separates keys. */
  lemma TextIsIdentityExactly(le: Collation)
    requires IsCollation(le)
    ensures TextIsIdentity(le) <==> Separates(le)
  {
    if Separates(le) {
      forall x, y | WellFormed(x) && WellFormed(y)
        ensures Canonicalize(le, x) == Canonicalize(le, y) <==> Meaning(x) == Meaning(y)
      {
        if Meaning(x) == Meaning(y) {
          SeparatingIsTieFree(le, x);
          SameMeaningSameText(le, x, y);
        } else if Canonicalize(le, x) == Canonicalize(le, y) {
          SameTextSameMeaning(le, x, y);
        }
      }
    } else {
      var k, l :| Ties(le, k, l);
      TyingKeysPrintInOrder(le, k, l);
    }
  }

  // ----- no lone surrogate is printed -----

  lemma {:induction false} PlainUnitsAreUnicode(t: Text)
    requires forall i :: 0 <= i < |t| ==> !IsSurrogate(t[i])
    ensures IsUnicode(t)
  {
    if t != [] { PlainUnitsAreUnicode(t[1..]); }
  }

  lemma {:induction false} EscapeIsUnicode(s: Text)
    ensures IsUnicode(Escape(s))
    decreases |s|
  {
    if s != [] {
      EscapeIsUnicode(s[Width(s)..]);
      var head := EscapeHead(s);
      if Width(s) == 2 { assert head[2..] == []; } else { PlainUnitsAreUnicode(head); }
      UnicodeJoins(head, Escape(s[Width(s)..]));
    }
  }

  lemma QuoteIsUnicode(s: Text)
    ensures IsUnicode(Quote(s))
  {
    EscapeIsUnicode(s);
    PlainUnitsAreUnicode([QUOTE]);
    UnicodeJoins([QUOTE], Escape(s));
    UnicodeJoins([QUOTE] + Escape(s), [QUOTE]);
  }

  lemma {:induction false} SpanIsUnicode(t: Text)
    requires NumberSpan(t) == |t|
    ensures IsUnicode(t)
  {
    if t != [] { SpanIsUnicode(t[1..]); }
  }

  lemma {:induction false} JoinIsUnicode(parts: seq<Text>, c: CodeUnit)
    requires !IsSurrogate(c) && forall i :: 0 <= i < |parts| ==> IsUnicode(parts[i])
    ensures IsUnicode(Join(parts, c))
  {
    if |parts| > 1 {
      JoinIsUnicode(parts[1..], c);
      PlainUnitsAreUnicode([c]);
      UnicodeJoins(parts[0], [c]);
      UnicodeJoins(parts[0] + [c], Join(parts[1..], c));
    }
  }

  lemma BracketedIsUnicode(l: CodeUnit, t: Text, r: CodeUnit)
    requires !IsSurrogate(l) && !IsSurrogate(r) && IsUnicode(t)
    ensures IsUnicode([l] + t + [r])
  {
    PlainUnitsAreUnicode([l]);
    PlainUnitsAreUnicode([r]);
    UnicodeJoins([l], t);
    UnicodeJoins([l] + t, [r]);
  }

  /** Canonical text is free of lone surrogates, whatever strings it prints. */
  lemma {:induction false} CanonicalIsUnicode(le: Collation, j: Json)
    requires WellFormed(j)
    ensures IsUnicode(Canonicalize(le, j))
    decreases Size(j), 0
  {
    match j {
      case Num(n) =>
        NumberIsSpanned(n, []);
        assert n + [] == n;
        SpanIsUnicode(n);
      case Str(s) => QuoteIsUnicode(s);
      case Arr(xs) =>
        CanonicalItemsAreUnicode(le, xs);
        JoinIsUnicode(CanonicalItems(le, xs), COMMA);
        BracketedIsUnicode(OPEN_BRACKET, Join(CanonicalItems(le, xs), COMMA), CLOSE_BRACKET);
      case Obj(ms) =>
        SortKeepsSize(le, ms);
        SortedMembersWellFormed(le, ms);
        CanonicalMembersAreUnicode(le, SortMembers(le, ms));
        JoinIsUnicode(CanonicalMembers(le, SortMembers(le, ms)), COMMA);
        BracketedIsUnicode(OPEN_BRACE, Join(CanonicalMembers(le, SortMembers(le, ms)), COMMA), CLOSE_BRACE);
      case _ => PlainUnitsAreUnicode(Canonicalize(le, j));
    }
  }

  lemma {:induction false} CanonicalItemsAreUnicode(le: Collation, xs: seq<Json>)
    requires forall i :: 0 <= i < |xs| ==> WellFormed(xs[i])
    ensures forall i :: 0 <= i < |xs| ==> IsUnicode(CanonicalItems(le, xs)[i])
    decreases SizeItems(xs), |xs|
  {
    if xs != [] {
      CanonicalIsUnicode(le, xs[0]);
      CanonicalItemsAreUnicode(le, xs[1..]);
    }
  }

  lemma {:induction false} CanonicalMembersAreUnicode(le: Collation, ms: seq<Member>)
    requires AllWellFormed(ms)
    ensures forall i :: 0 <= i < |ms| ==> IsUnicode(CanonicalMembers(le, ms)[i])
    decreases SizeMembers(ms), |ms|
  {
    if ms != [] {
      CanonicalIsUnicode(le, ms[0].val);
      QuoteIsUnicode(ms[0].key);
      PlainUnitsAreUnicode([COLON]);
      UnicodeJoins(Quote(ms[0].key), [COLON]);
      UnicodeJoins(Quote(ms[0].key) + [COLON], Canonicalize(le, ms[0].val));
      CanonicalMembersAreUnicode(le, ms[1..]);
    }
  }

  // ----- digests -----

  /** Two inputs get one digest exactly when they are strings equal but for lone surrogates, values
      equal up to member order, or a string that, but for lone surrogates, is the other value's
      canonical text. */
  lemma DigestsAgreeExactly(sha: Hash, le: Collation, x: Content, y: Content)
    requires Injective(sha) && IsCollation(le) && Separates(le)
    requires (x.Tree? ==> WellFormed(x.json)) && (y.Tree? ==> WellFormed(y.json))
    ensures Sha256(sha, le, x) == Sha256(sha, le, y) <==>
      match (x, y)
      case (Raw(s), Raw(t)) => ReplaceLone(s) == ReplaceLone(t)
      case (Tree(a), Tree(b)) => Meaning(a) == Meaning(b)
      case (Raw(s), Tree(b)) => ReplaceLone(s) == Canonicalize(le, b)
      case (Tree(a), Raw(t)) => ReplaceLone(t) == Canonicalize(le, a)
  {
    TextIsIdentityExactly(le);
    HashesAgreeExactly(sha, Hashed(le, x), Hashed(le, y));
    if x.Tree? { PrintedStays(le, x.json); }
    if y.Tree? { PrintedStays(le, y.json); }
  }

  function Hashed(le: Collation, x: Content): Text {
    match x case Raw(s) => s case Tree(j) => Canonicalize(le, j)
  }

  lemma PrintedStays(le: Collation, j: Json)
    requires WellFormed(j)
    ensures ReplaceLone(Canonicalize(le, j)) == Canonicalize(le, j)
  {
    CanonicalIsUnicode(le, j);
    UnicodeStays(Canonicalize(le, j));
  }

  /** Values with one digest are equal up to member order, whatever the collation. */
  lemma SameDigestSameMeaning(sha: Hash, le: Collation, x: Json, y: Json)
    requires Injective(sha) && WellFormed(x) && WellFormed(y)
    requires Sha256(sha, le, Tree(x)) == Sha256(sha, le, Tree(y))
    ensures Meaning(x) == Meaning(y)
  {
    CanonicalIsUnicode(le, x);
    CanonicalIsUnicode(le, y);
    UnicodeHashesTell(sha, Canonicalize(le, x), Canonicalize(le, y));
    SameTextSameMeaning(le, x, y);
  }
}
