/** Sorting by `localeCompare`: a stable sort of any list by a text key. */
module StableSort {
  import opened JsText

  /** `le(a, b)` stands for `a.localeCompare(b) <= 0`. Collation is not modelled: it is any total
      preorder, so two different keys may compare equal (as canonically equivalent strings do). */
  type Collation = (Text, Text) -> bool

  ghost predicate IsCollation(le: Collation) {
    && (forall a, b :: le(a, b) || le(b, a))
    && (forall a, b, c :: le(a, b) && le(b, c) ==> le(a, c))
  }

  predicate Alike(le: Collation, a: Text, b: Text) { le(a, b) && le(b, a) }

  predicate Ties(le: Collation, a: Text, b: Text) { a != b && Alike(le, a, b) }

  /** No two different keys compare equal. */
  ghost predicate Separates(le: Collation) { forall a, b :: !Ties(le, a, b) }

  function Insert<T>(le: Collation, key: T -> Text, x: T, s: seq<T>): seq<T> {
    if s == [] || le(key(x), key(s[0])) then [x] + s else [s[0]] + Insert(le, key, x, s[1..])
  }

  /** `s.sort((a, b) => key(a).localeCompare(key(b)))` */
  function Sort<T>(le: Collation, key: T -> Text, s: seq<T>): seq<T> {
    if s == [] then [] else Insert(le, key, s[0], Sort(le, key, s[1..]))
  }

  ghost predicate Ordered<T>(le: Collation, key: T -> Text, s: seq<T>) {
    forall i, j :: 0 <= i < j < |s| ==> le(key(s[i]), key(s[j]))
  }

  function Filter<T>(keep: T -> bool, s: seq<T>): seq<T> {
    if s == [] then [] else (if keep(s[0]) then [s[0]] else []) + Filter(keep, s[1..])
  }

  function Like<T>(le: Collation, key: T -> Text, text: Text): T -> bool { x => Alike(le, key(x), text) }

  /** The items whose key compares equal to `text`, in order. */
  function Class<T>(le: Collation, key: T -> Text, text: Text, s: seq<T>): seq<T> { Filter(Like(le, key, text), s) }

  // ----- the same items, in order -----

  lemma {:induction false} InsertKeepsItems<T>(le: Collation, key: T -> Text, x: T, s: seq<T>)
    ensures multiset(Insert(le, key, x, s)) == multiset(s) + multiset{x}
  {
    if s != [] && !le(key(x), key(s[0])) {
      InsertKeepsItems(le, key, x, s[1..]);
      assert s == [s[0]] + s[1..];
    }
  }

  lemma {:induction false} SortKeepsItems<T>(le: Collation, key: T -> Text, s: seq<T>)
    ensures multiset(Sort(le, key, s)) == multiset(s)
    ensures |Sort(le, key, s)| == |s|
    ensures forall x :: x in Sort(le, key, s) <==> x in s
  {
    if s != [] {
      SortKeepsItems(le, key, s[1..]);
      InsertKeepsItems(le, key, s[0], Sort(le, key, s[1..]));
      assert s == [s[0]] + s[1..];
    }
    SameItems(Sort(le, key, s), s);
  }

  lemma SameItems<T>(s: seq<T>, t: seq<T>)
    requires multiset(s) == multiset(t)
    ensures |s| == |t| && forall x :: x in s <==> x in t
  {
    assert |multiset(s)| == |multiset(t)|;
    assert forall x :: x in s <==> x in multiset(s);
  }

  lemma {:induction false} InsertOrders<T>(le: Collation, key: T -> Text, x: T, s: seq<T>)
    requires IsCollation(le) && Ordered(le, key, s)
    ensures Ordered(le, key, Insert(le, key, x, s))
  {
    if s != [] && !le(key(x), key(s[0])) {
      InsertOrders(le, key, x, s[1..]);
      InsertKeepsItems(le, key, x, s[1..]);
      var r := Insert(le, key, x, s[1..]);
      forall j | 0 <= j < |r|
        ensures le(key(s[0]), key(r[j]))
      {
        assert r[j] in multiset(r);
        assert r[j] == x || r[j] in s[1..];
      }
    } else if s != [] {
      assert forall j :: 0 <= j < |s| ==> le(key(x), key(s[j]));
    }
  }

  lemma {:induction false} SortOrders<T>(le: Collation, key: T -> Text, s: seq<T>)
    requires IsCollation(le)
    ensures Ordered(le, key, Sort(le, key, s))
  {
    if s != [] {
      SortOrders(le, key, s[1..]);
      InsertOrders(le, key, s[0], Sort(le, key, s[1..]));
    }
  }

  // ----- stability -----

  lemma {:induction false} FilterJoins<T>(keep: T -> bool, s: seq<T>, t: seq<T>)
    ensures Filter(keep, s + t) == Filter(keep, s) + Filter(keep, t)
  {
    if s == [] {
      assert s + t == t;
    } else {
      FilterJoins(keep, s[1..], t);
      var head := if keep(s[0]) then [s[0]] else [];
      assert (s + t)[0] == s[0] && (s + t)[1..] == s[1..] + t;
      assert Filter(keep, s + t) == head + Filter(keep, s[1..] + t);
      assert Filter(keep, s) == head + Filter(keep, s[1..]);
      assert head + (Filter(keep, s[1..]) + Filter(keep, t)) == head + Filter(keep, s[1..]) + Filter(keep, t);
    }
  }

  lemma {:induction false} FilterMembers<T>(keep: T -> bool, s: seq<T>)
    ensures forall i :: 0 <= i < |Filter(keep, s)| ==> keep(Filter(keep, s)[i]) && Filter(keep, s)[i] in s
  {
    if s != [] { FilterMembers(keep, s[1..]); }
  }

  lemma {:induction false} FilterPermutes<T>(keep: T -> bool, s: seq<T>, x: T)
    ensures multiset(Filter(keep, s))[x] == if keep(x) then multiset(s)[x] else 0
  {
    if s != [] {
      FilterPermutes(keep, s[1..], x);
      assert s == [s[0]] + s[1..];
    }
  }

  lemma {:induction false} FilterInsert<T>(le: Collation, key: T -> Text, keep: T -> bool, x: T, s: seq<T>)
    requires IsCollation(le) && Ordered(le, key, s)
    ensures Filter(keep, Insert(le, key, x, s)) == if keep(x) then Insert(le, key, x, Filter(keep, s)) else Filter(keep, s)
  {
    if s == [] {
    } else if le(key(x), key(s[0])) {
      FilterMembers(keep, s);
      var f := Filter(keep, s);
      if f != [] {
        var i :| 0 <= i < |s| && s[i] == f[0];
        assert le(key(x), key(f[0]));
      }
      assert Filter(keep, [x] + s) == (if keep(x) then [x] else []) + f by { assert ([x] + s)[1..] == s && ([x] + s)[0] == x; }
    } else {
      FilterInsert(le, key, keep, x, s[1..]);
      var r, f := Insert(le, key, x, s[1..]), Filter(keep, s[1..]);
      assert ([s[0]] + r)[1..] == r && ([s[0]] + r)[0] == s[0];
      assert Filter(keep, [s[0]] + r) == (if keep(s[0]) then [s[0]] else []) + Filter(keep, r);
      if keep(s[0]) {
        assert ([s[0]] + f)[1..] == f && ([s[0]] + f)[0] == s[0];
        assert Insert(le, key, x, [s[0]] + f) == [s[0]] + Insert(le, key, x, f);
        assert Filter(keep, s) == [s[0]] + f;
      } else {
        assert Filter(keep, s) == f;
        assert Filter(keep, [s[0]] + r) == Filter(keep, r);
      }
    }
  }

  /** Picking items and sorting commute. */
  lemma {:induction false} FilterSort<T>(le: Collation, key: T -> Text, keep: T -> bool, s: seq<T>)
    requires IsCollation(le)
    ensures Filter(keep, Sort(le, key, s)) == Sort(le, key, Filter(keep, s))
  {
    if s != [] {
      FilterSort(le, key, keep, s[1..]);
      SortOrders(le, key, s[1..]);
      FilterInsert(le, key, keep, s[0], Sort(le, key, s[1..]));
      var f := Filter(keep, s[1..]);
      if keep(s[0]) {
        assert ([s[0]] + f)[1..] == f && ([s[0]] + f)[0] == s[0];
        assert Sort(le, key, [s[0]] + f) == Insert(le, key, s[0], Sort(le, key, f));
      } else {
        assert Filter(keep, s) == f;
      }
    }
  }

  lemma {:induction false} SortOfAlike<T>(le: Collation, key: T -> Text, s: seq<T>)
    requires forall i, j :: 0 <= i < j < |s| ==> le(key(s[i]), key(s[j]))
    ensures Sort(le, key, s) == s
  {
    if s != [] { SortOfAlike(le, key, s[1..]); }
  }

  /** Items with equal keys keep their order. */
  lemma SortIsStable<T>(le: Collation, key: T -> Text, s: seq<T>, text: Text)
    requires IsCollation(le)
    ensures Class(le, key, text, Sort(le, key, s)) == Class(le, key, text, s)
  {
    var keep := Like(le, key, text);
    FilterSort(le, key, keep, s);
    FilterMembers(keep, s);
    var f := Filter(keep, s);
    forall i, j | 0 <= i < j < |f|
      ensures le(key(f[i]), key(f[j]))
    {
      assert keep(f[i]) && keep(f[j]);
      assert le(key(f[i]), text) && le(text, key(f[j]));
    }
    SortOfAlike(le, key, f);
  }

  /** Ordered lists with the same classes are the same list. */
  lemma {:induction false} ClassesDecide<T>(le: Collation, key: T -> Text, s: seq<T>, t: seq<T>)
    requires IsCollation(le) && Ordered(le, key, s) && Ordered(le, key, t)
    requires forall text :: Class(le, key, text, s) == Class(le, key, text, t)
    ensures s == t
  {
    assert s != [] ==> s[0] in Class(le, key, key(s[0]), s);
    assert t != [] ==> t[0] in Class(le, key, key(t[0]), t);
    if s != [] && t != [] {
      HeadIsLeast(le, key, s, t);
      HeadIsLeast(le, key, t, s);
      assert Class(le, key, key(s[0]), s)[0] == s[0] && Class(le, key, key(s[0]), t)[0] == t[0];
      forall text
        ensures Class(le, key, text, s[1..]) == Class(le, key, text, t[1..])
      {
        assert Class(le, key, text, s) == Class(le, key, text, t);
        var mine := if Alike(le, key(s[0]), text) then [s[0]] else [];
        assert mine + Class(le, key, text, s[1..]) == mine + Class(le, key, text, t[1..]);
        assert (mine + Class(le, key, text, s[1..]))[|mine|..] == Class(le, key, text, s[1..]);
        assert (mine + Class(le, key, text, t[1..]))[|mine|..] == Class(le, key, text, t[1..]);
      }
      ClassesDecide(le, key, s[1..], t[1..]);
    }
  }

  lemma HeadIsLeast<T>(le: Collation, key: T -> Text, s: seq<T>, t: seq<T>)
    requires IsCollation(le) && Ordered(le, key, s) && s != [] && t != []
    requires forall text :: Class(le, key, text, s) == Class(le, key, text, t)
    ensures le(key(s[0]), key(t[0]))
  {
    var text := key(t[0]);
    assert t[0] in Class(le, key, text, t);
    FilterMembers(Like(le, key, text), s);
    LeastItem(le, key, s, t[0]);
  }

  /** Two lists sort to the same list exactly when items with equal keys stand in the same order. */
  lemma SortsAgreeExactly<T(!new)>(le: Collation, key: T -> Text, s: seq<T>, t: seq<T>)
    requires IsCollation(le)
    ensures Sort(le, key, s) == Sort(le, key, t) <==> forall text :: Class(le, key, text, s) == Class(le, key, text, t)
  {
    forall text
      ensures Class(le, key, text, Sort(le, key, s)) == Class(le, key, text, s)
      ensures Class(le, key, text, Sort(le, key, t)) == Class(le, key, text, t)
    {
      SortIsStable(le, key, s, text);
      SortIsStable(le, key, t, text);
    }
    if forall text :: Class(le, key, text, s) == Class(le, key, text, t) {
      SortOrders(le, key, s);
      SortOrders(le, key, t);
      ClassesDecide(le, key, Sort(le, key, s), Sort(le, key, t));
    }
  }

  /** Ordered lists of the same items, no two of which tie, are the same list. */
  lemma {:induction false} ItemsDecide<T>(le: Collation, key: T -> Text, s: seq<T>, t: seq<T>)
    requires IsCollation(le) && Ordered(le, key, s) && Ordered(le, key, t) && multiset(s) == multiset(t)
    requires forall x, y :: x in s && y in s && Alike(le, key(x), key(y)) ==> x == y
    ensures s == t
  {
    SameItems(s, t);
    if s != [] {
      assert s[0] in t && t[0] in s;
      LeastItem(le, key, s, t[0]);
      LeastItem(le, key, t, s[0]);
      TailItems(s);
      TailItems(t);
      ItemsDecide(le, key, s[1..], t[1..]);
    }
  }

  lemma TailItems<T>(s: seq<T>)
    requires s != []
    ensures multiset(s[1..]) == multiset(s) - multiset{s[0]}
    ensures forall x :: x in s[1..] ==> x in s
  {
    assert s == [s[0]] + s[1..];
  }

  lemma LeastItem<T>(le: Collation, key: T -> Text, s: seq<T>, x: T)
    requires IsCollation(le) && Ordered(le, key, s) && x in s
    ensures le(key(s[0]), key(x))
  {}

  // ----- keys that differ -----

  ghost predicate KeysDiffer<T>(key: T -> Text, s: seq<T>) { forall i, j :: 0 <= i < j < |s| ==> key(s[i]) != key(s[j]) }

  lemma {:induction false} AtMostOnce<T>(key: T -> Text, s: seq<T>, x: T)
    requires KeysDiffer(key, s)
    ensures multiset(s)[x] <= 1
  {
    if s != [] {
      AtMostOnce(key, s[1..], x);
      TailItems(s);
      if s[0] == x { assert x !in multiset(s[1..]); }
    }
  }

  lemma AtLeastTwice<T>(s: seq<T>, i: nat, j: nat)
    requires i < j < |s| && s[i] == s[j]
    ensures multiset(s)[s[i]] >= 2
  {
    assert s == s[..j] + ([s[j]] + s[j + 1..]);
    assert s[..j][i] in multiset(s[..j]);
  }

  /** Whether keys differ is a matter of the items, not of their order. */
  lemma PermutedKeysDiffer<T>(key: T -> Text, s: seq<T>, t: seq<T>)
    requires KeysDiffer(key, s) && multiset(s) == multiset(t)
    ensures KeysDiffer(key, t)
  {
    SameItems(s, t);
    forall i, j | 0 <= i < j < |t|
      ensures key(t[i]) != key(t[j])
    {
      AtMostOnce(key, s, t[i]);
      if t[i] == t[j] {
        AtLeastTwice(t, i, j);
      } else {
        assert t[i] in s && t[j] in s;
        var p :| 0 <= p < |s| && s[p] == t[i];
        var q :| 0 <= q < |s| && s[q] == t[j];
      }
    }
  }
}
