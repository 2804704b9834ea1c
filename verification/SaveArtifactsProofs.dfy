/** What saved artifacts look like, and when a re-run is the same save. */
module SaveArtifactsProofs {
  import opened JsText
  import opened Utf8
  import opened JsonValues
  import opened StableSort
  import opened CanonicalJson
  import opened CanonicalJsonTheorems
  import opened DecisionPayload
  import opened SaveArtifacts
  import opened ArtifactStore

  // ----- the table after a save -----

  /** No artifact of this step, task and attempt is stored yet. */
  ghost predicate Untouched(table: Table, step: Step, taskKey: Text) {
    forall i: nat :: KeyAt(step, taskKey, i) !in table
  }

  /** On an untouched table, however far a save got, the stored rows are exactly the first `n`. */
  lemma {:induction false} StoredRowsArePrefix(step: Step, taskKey: Text, rows: seq<Entry>, table0: Table, n: nat, i: nat)
    requires n <= |rows| && Untouched(table0, step, taskKey)
    ensures
      var table := Filled(table0, step, taskKey, rows, n);
      && (KeyAt(step, taskKey, i) in table <==> i < n)
      && (i < n ==> table[KeyAt(step, taskKey, i)] == rows[i])
  {
    FilledLeaves(table0, step, taskKey, rows, n);
    if i < n { FilledAt(step, taskKey, rows, table0, n, i); }
  }

  /** The row at place `i`. */
  function RowAt(table: Table, step: Step, taskKey: Text, i: nat): Option<Entry> {
    var key := KeyAt(step, taskKey, i);
    if key in table then Some(table[key]) else None
  }

  /** Places 1, 2, … hold these rows, with no gap, and no place after them holds any. */
  ghost predicate Holds(table: Table, step: Step, taskKey: Text, saved: seq<Entry>) {
    forall i: nat :: 1 <= i ==> RowAt(table, step, taskKey, i) == if i <= |saved| then Some(saved[i - 1]) else None
  }

  /** The items of the index at place 0. */
  function IndexedItems(table: Table, step: Step, taskKey: Text): Option<Json> {
    match RowAt(table, step, taskKey, 0)
    case Some(row) => if row.inline.Some? then Lookup(ListedIndex(row.inline.value), ITEMS) else None
    case None => None
  }

  function ListedIndex(inline: Json): seq<Member> {
    match Lookup(AsRecord(inline), JSON) case Some(index) => AsRecord(index) case None => []
  }

  /** A finished save: contiguous rows, ordered by URI, each artifact of the result once, and an index
      that lists exactly those rows in that order. */
  lemma SavedWell(step: Step, r: Result, table0: Table) returns (saved: seq<Entry>)
    requires IsCollation(step.le) && Untouched(table0, step, r.taskKey)
    ensures
      var table := Filled(table0, step, r.taskKey, Rows(step, r), |Rows(step, r)|);
      && Holds(table, step, r.taskKey, saved)
      && Ordered(step.le, EntryUri, saved)
      && multiset(saved) == multiset(Entries(step, r))
      && IndexedItems(table, step, r.taskKey) == Some(Arr(Items(saved)))
  {
    IndexShown(r.taskKey, Provider(step, r), Uri(step, r.taskKey, RAW_JSON), OrderedEntries(step, r));
    saved := EntriesSaved(step, r.taskKey, IndexEntry(step, r, Index(step, r)), Entries(step, r), table0);
  }

  lemma EntriesSaved(step: Step, taskKey: Text, index: Entry, entries: seq<Entry>, table0: Table) returns (saved: seq<Entry>)
    requires IsCollation(step.le) && Untouched(table0, step, taskKey)
    ensures saved == Sort(step.le, EntryUri, entries)
    ensures
      var table := Filled(table0, step, taskKey, [index] + saved, 1 + |saved|);
      && Holds(table, step, taskKey, saved)
      && Ordered(step.le, EntryUri, saved)
      && multiset(saved) == multiset(entries)
      && RowAt(table, step, taskKey, 0) == Some(index)
  {
    saved := Sort(step.le, EntryUri, entries);
    SortKeepsItems(step.le, EntryUri, entries);
    SortOrders(step.le, EntryUri, entries);
    RowsHold(step, taskKey, index, saved, table0);
  }

  lemma IndexShown(taskKey: Text, provider: Text, rawRef: Text, es: seq<Entry>)
    ensures
      var index := IndexOf(taskKey, provider, rawRef, es);
      Lookup(ListedIndex(Inline(JSON, index).value), ITEMS) == Some(Arr(Items(es)))
  {
    var ms := IndexOf(taskKey, provider, rawRef, es).members;
    assert |TASK_KEY| == 7 && |PROVIDER| == 8 && |ITEMS| == 5;
    assert Lookup(ms, ITEMS) == Lookup(ms[1..], ITEMS);
    assert Lookup(ms[1..], ITEMS) == Lookup(ms[1..][1..], ITEMS);
  }

  lemma RowsHold(step: Step, taskKey: Text, index: Entry, saved: seq<Entry>, table0: Table)
    requires Untouched(table0, step, taskKey)
    ensures
      var table := Filled(table0, step, taskKey, [index] + saved, 1 + |saved|);
      Holds(table, step, taskKey, saved) && RowAt(table, step, taskKey, 0) == Some(index)
  {
    var rows := [index] + saved;
    var table := Filled(table0, step, taskKey, rows, |rows|);
    forall i: nat
      ensures RowAt(table, step, taskKey, i) == if i < |rows| then Some(rows[i]) else None
    {
      StoredRowsArePrefix(step, taskKey, rows, table0, |rows|, i);
    }
  }

  // ----- the order files come in -----

  function FileUri(step: Step, taskKey: Text, f: File): Text { FileEntry(step, taskKey, f).uri }

  /** Neither sort tells the two files apart. */
  predicate FilesTie(step: Step, taskKey: Text, f: File, g: File) {
    Alike(step.le, f.path, g.path) && Alike(step.le, FileUri(step, taskKey, f), FileUri(step, taskKey, g))
  }

  ghost predicate PathsIdentify(files: seq<File>) {
    forall f, g :: f in files && g in files && f.path == g.path ==> f == g
  }

  ghost predicate TieFreeFiles(step: Step, taskKey: Text, files: seq<File>) {
    forall f, g :: f in files && g in files && FilesTie(step, taskKey, f, g) ==> f == g
  }

  lemma {:induction false} FilterFileEntries(step: Step, taskKey: Text, keep: Entry -> bool, keepFile: File -> bool, files: seq<File>)
    requires forall f :: keepFile(f) == keep(FileEntry(step, taskKey, f))
    ensures Filter(keep, FileEntries(step, taskKey, files)) == FileEntries(step, taskKey, Filter(keepFile, files))
  {
    if files != [] {
      FilterFileEntries(step, taskKey, keep, keepFile, files[1..]);
      var rest := Filter(keepFile, files[1..]);
      assert FileEntries(step, taskKey, files)[1..] == FileEntries(step, taskKey, files[1..]);
      assert ([files[0]] + rest)[1..] == rest;
      assert FileEntries(step, taskKey, [files[0]] + rest) == [FileEntry(step, taskKey, files[0])] + FileEntries(step, taskKey, rest);
    }
  }

  /** The entries of one URI class: those of the files among them are the class's files sorted by path. */
  lemma ClassOfEntries(step: Step, taskKey: Text, before: seq<Entry>, files: seq<File>, after: seq<Entry>, text: Text)
    requires IsCollation(step.le)
    ensures
      Class(step.le, EntryUri, text, before + FileEntries(step, taskKey, Sort(step.le, FilePath, files)) + after) ==
      Class(step.le, EntryUri, text, before)
      + FileEntries(step, taskKey, Sort(step.le, FilePath, FilesAlike(step, taskKey, files, text)))
      + Class(step.le, EntryUri, text, after)
  {
    var sorted := FileEntries(step, taskKey, Sort(step.le, FilePath, files));
    ClassJoins(step.le, text, before, sorted, after);
    ClassOfFiles(step, taskKey, files, text);
  }

  lemma ClassJoins(le: Collation, text: Text, a: seq<Entry>, b: seq<Entry>, c: seq<Entry>)
    ensures Class(le, EntryUri, text, a + b + c) == Class(le, EntryUri, text, a) + Class(le, EntryUri, text, b) + Class(le, EntryUri, text, c)
  {
    FilterJoins(Like(le, EntryUri, text), a + b, c);
    FilterJoins(Like(le, EntryUri, text), a, b);
  }

  lemma ClassOfFiles(step: Step, taskKey: Text, files: seq<File>, text: Text)
    requires IsCollation(step.le)
    ensures Class(step.le, EntryUri, text, FileEntries(step, taskKey, Sort(step.le, FilePath, files)))
         == FileEntries(step, taskKey, Sort(step.le, FilePath, FilesAlike(step, taskKey, files, text)))
  {
    var keep, keepFile := Like(step.le, EntryUri, text), FileLike(step, taskKey, text);
    forall f ensures keepFile(f) == keep(FileEntry(step, taskKey, f)) {
      var e := FileEntry(step, taskKey, f);
      assert keep(e) == Alike(step.le, EntryUri(e), text);
    }
    FilterFileEntries(step, taskKey, keep, keepFile, Sort(step.le, FilePath, files));
    FilterSort(step.le, FilePath, keepFile, files);
  }

  function FileLike(step: Step, taskKey: Text, text: Text): File -> bool { f => Alike(step.le, FileUri(step, taskKey, f), text) }

  /** The files whose URI compares equal to `text`. */
  function FilesAlike(step: Step, taskKey: Text, files: seq<File>, text: Text): seq<File> {
    Filter(FileLike(step, taskKey, text), files)
  }

  lemma TieFreeClassIsOne(step: Step, taskKey: Text, a: seq<File>, b: seq<File>, text: Text)
    requires IsCollation(step.le) && TieFreeFiles(step, taskKey, a) && multiset(a) == multiset(b)
    ensures Sort(step.le, FilePath, FilesAlike(step, taskKey, a, text)) == Sort(step.le, FilePath, FilesAlike(step, taskKey, b, text))
  {
    var keep := FileLike(step, taskKey, text);
    var x, y := FilesAlike(step, taskKey, a, text), FilesAlike(step, taskKey, b, text);
    forall f ensures multiset(x)[f] == multiset(y)[f] {
      FilterPermutes(keep, a, f);
      FilterPermutes(keep, b, f);
    }
    assert multiset(x) == multiset(y);
    SortKeepsItems(step.le, FilePath, x);
    SortKeepsItems(step.le, FilePath, y);
    SortOrders(step.le, FilePath, x);
    SortOrders(step.le, FilePath, y);
    FilterMembers(keep, a);
    forall f, g | f in Sort(step.le, FilePath, x) && g in Sort(step.le, FilePath, x) && Alike(step.le, f.path, g.path)
      ensures f == g
    {
      assert f in x && g in x;
      assert FilesTie(step, taskKey, f, g);
    }
    ItemsDecide(step.le, FilePath, Sort(step.le, FilePath, x), Sort(step.le, FilePath, y));
  }

  function SortedAround(step: Step, taskKey: Text, before: seq<Entry>, files: seq<File>, after: seq<Entry>): seq<Entry> {
    Sort(step.le, EntryUri, before + FileEntries(step, taskKey, Sort(step.le, FilePath, files)) + after)
  }

  lemma TieFreeSortsAlike(step: Step, taskKey: Text, before: seq<Entry>, a: seq<File>, b: seq<File>, after: seq<Entry>)
    requires IsCollation(step.le) && TieFreeFiles(step, taskKey, a) && multiset(a) == multiset(b)
    ensures SortedAround(step, taskKey, before, a, after) == SortedAround(step, taskKey, before, b, after)
  {
    var s := before + FileEntries(step, taskKey, Sort(step.le, FilePath, a)) + after;
    var t := before + FileEntries(step, taskKey, Sort(step.le, FilePath, b)) + after;
    forall text ensures Class(step.le, EntryUri, text, s) == Class(step.le, EntryUri, text, t) {
      ClassOfEntries(step, taskKey, before, a, after, text);
      ClassOfEntries(step, taskKey, before, b, after, text);
      TieFreeClassIsOne(step, taskKey, a, b, text);
    }
    SortsAgreeExactly(step.le, EntryUri, s, t);
  }

  lemma FileEntriesAreInjective(step: Step, taskKey: Text, a: seq<File>, b: seq<File>)
    requires FileEntries(step, taskKey, a) == FileEntries(step, taskKey, b)
    requires forall f, g :: f in a && g in b && f.path == g.path ==> f == g
    ensures a == b
  {
    var x, y := FileEntries(step, taskKey, a), FileEntries(step, taskKey, b);
    assert |a| == |x| == |y| == |b|;
    forall i | 0 <= i < |a| ensures a[i] == b[i] {
      assert x[i] == y[i];
      FileUriIsInjective(step, taskKey, a[i], b[i]);
    }
  }

  lemma FileUriIsInjective(step: Step, taskKey: Text, f: File, g: File)
    requires FileUri(step, taskKey, f) == FileUri(step, taskKey, g)
    ensures f.path == g.path
  {
    var p := ArtifactUri.Parts(step.runId, step.stepId, taskKey, FILES + f.path);
    var q := ArtifactUri.Parts(step.runId, step.stepId, taskKey, FILES + g.path);
    ArtifactUri.BuildIsInjectiveInName(p, q);
    assert (FILES + f.path)[|FILES|..] == f.path && (FILES + g.path)[|FILES|..] == g.path;
  }

  /** Two tying files put first, either way round, come out the way they went in. */
  lemma TyingFilesKeepOrder(step: Step, taskKey: Text, before: seq<Entry>, f: File, g: File, rest: seq<File>, after: seq<Entry>)
    requires IsCollation(step.le) && f != g && FilesTie(step, taskKey, f, g) && PathsIdentify([f, g] + rest)
    ensures SortedAround(step, taskKey, before, [f, g] + rest, after) != SortedAround(step, taskKey, before, [g, f] + rest, after)
  {
    var a, b := [f, g] + rest, [g, f] + rest;
    var s := before + FileEntries(step, taskKey, Sort(step.le, FilePath, a)) + after;
    var t := before + FileEntries(step, taskKey, Sort(step.le, FilePath, b)) + after;
    var text := FileUri(step, taskKey, f);
    var x, y := FilesAlike(step, taskKey, a, text), FilesAlike(step, taskKey, b, text);
    AlikeHead(step, taskKey, f, g, rest, text);
    AlikeHead(step, taskKey, g, f, rest, text);
    SortIsStable(step.le, FilePath, x, f.path);
    SortIsStable(step.le, FilePath, y, f.path);
    assert Class(step.le, FilePath, f.path, x)[0] == f && Class(step.le, FilePath, f.path, y)[0] == g;
    if Sort(step.le, EntryUri, s) == Sort(step.le, EntryUri, t) {
      SortsAgreeExactly(step.le, EntryUri, s, t);
      assert Class(step.le, EntryUri, text, s) == Class(step.le, EntryUri, text, t);
      SameClassSameFiles(step, taskKey, before, a, b, after, text);
    }
  }

  lemma SameClassSameFiles(step: Step, taskKey: Text, before: seq<Entry>, a: seq<File>, b: seq<File>, after: seq<Entry>, text: Text)
    requires IsCollation(step.le) && forall f, g :: f in a && g in b && f.path == g.path ==> f == g
    requires Class(step.le, EntryUri, text, before + FileEntries(step, taskKey, Sort(step.le, FilePath, a)) + after)
          == Class(step.le, EntryUri, text, before + FileEntries(step, taskKey, Sort(step.le, FilePath, b)) + after)
    ensures Sort(step.le, FilePath, FilesAlike(step, taskKey, a, text)) == Sort(step.le, FilePath, FilesAlike(step, taskKey, b, text))
  {
    ClassOfEntries(step, taskKey, before, a, after, text);
    ClassOfEntries(step, taskKey, before, b, after, text);
    var x := Sort(step.le, FilePath, FilesAlike(step, taskKey, a, text));
    var y := Sort(step.le, FilePath, FilesAlike(step, taskKey, b, text));
    MiddleAgrees(Class(step.le, EntryUri, text, before), FileEntries(step, taskKey, x), FileEntries(step, taskKey, y),
                 Class(step.le, EntryUri, text, after));
    AlikeAreFiles(step, taskKey, a, text);
    AlikeAreFiles(step, taskKey, b, text);
    FileEntriesAreInjective(step, taskKey, x, y);
  }

  lemma AlikeAreFiles(step: Step, taskKey: Text, files: seq<File>, text: Text)
    ensures forall f :: f in Sort(step.le, FilePath, FilesAlike(step, taskKey, files, text)) ==> f in files
  {
    SortKeepsItems(step.le, FilePath, FilesAlike(step, taskKey, files, text));
    FilterMembers(FileLike(step, taskKey, text), files);
  }

  lemma AlikeHead(step: Step, taskKey: Text, f: File, g: File, rest: seq<File>, text: Text)
    requires IsCollation(step.le) && FilesTie(step, taskKey, f, g)
    requires text == FileUri(step, taskKey, f) || text == FileUri(step, taskKey, g)
    ensures FilesAlike(step, taskKey, [f, g] + rest, text) == [f, g] + FilesAlike(step, taskKey, rest, text)
  {
    var all := [f, g] + rest;
    assert all[1..] == [g] + rest && all[1..][1..] == rest;
    var keep := FileLike(step, taskKey, text);
    assert keep(f) && keep(g);
    assert Filter(keep, all) == [f] + Filter(keep, all[1..]);
    assert Filter(keep, all[1..]) == [g] + Filter(keep, rest);
  }

  lemma MiddleAgrees<T>(before: seq<T>, x: seq<T>, y: seq<T>, after: seq<T>)
    requires before + x + after == before + y + after
    ensures x == y
  {
    assert |before + x + after| == |before + y + after|;
    assert (before + x + after)[|before|..|before| + |x|] == x;
    assert (before + y + after)[|before|..|before| + |y|] == y;
  }

  lemma PutFirst(files: seq<File>, f: File, g: File) returns (rest: seq<File>)
    requires f in files && g in files && f != g
    ensures multiset([f, g] + rest) == multiset(files) && multiset([g, f] + rest) == multiset(files)
  {
    var more := TakeOut(files, f);
    assert multiset(files)[g] == multiset([f] + more)[g] == multiset(more)[g];
    rest := TakeOut(more, g);
    assert multiset([f, g] + rest) == multiset{f, g} + multiset(rest) == multiset([g, f] + rest);
  }

  lemma TakeOut<T>(s: seq<T>, x: T) returns (rest: seq<T>)
    requires x in s
    ensures multiset(s) == multiset{x} + multiset(rest)
  {
    var i :| 0 <= i < |s| && s[i] == x;
    rest := s[..i] + s[i + 1..];
    assert s == s[..i] + ([x] + s[i + 1..]);
  }

  /** What is saved does not depend on the order the files come in, exactly when no two files tie under
      both sorts. */
  lemma FileOrderIgnoredExactly(step: Step, r: Result)
    requires IsCollation(step.le) && PathsIdentify(r.filesOut)
    ensures
      (forall files :: multiset(files) == multiset(r.filesOut) ==> SameRows(step, r.(filesOut := files), r)) <==>
      TieFreeFiles(step, r.taskKey, r.filesOut)
  {
    var before, after := Before(step, r), After(step, r);
    forall files
      ensures OrderedEntries(step, r.(filesOut := files)) == SortedAround(step, r.taskKey, before, files, after)
      ensures SameRows(step, r.(filesOut := files), r) <==> OrderedEntries(step, r.(filesOut := files)) == OrderedEntries(step, r)
    {
      RowsFollowOrder(step, r, files);
    }
    assert r.(filesOut := r.filesOut) == r;
    if TieFreeFiles(step, r.taskKey, r.filesOut) {
      forall files | multiset(files) == multiset(r.filesOut)
        ensures SameRows(step, r.(filesOut := files), r)
      {
        TieFreeSortsAlike(step, r.taskKey, before, r.filesOut, files, after);
      }
    } else {
      var f, g :| f in r.filesOut && g in r.filesOut && FilesTie(step, r.taskKey, f, g) && f != g;
      var rest := PutFirst(r.filesOut, f, g);
      SameItems([f, g] + rest, r.filesOut);
      TyingFilesKeepOrder(step, r.taskKey, before, f, g, rest, after);
      assert !(SameRows(step, r.(filesOut := [f, g] + rest), r) && SameRows(step, r.(filesOut := [g, f] + rest), r));
    }
  }

  lemma RowsFollowOrder(step: Step, r: Result, files: seq<File>)
    ensures OrderedEntries(step, r.(filesOut := files)) == SortedAround(step, r.taskKey, Before(step, r), files, After(step, r))
    ensures SameRows(step, r.(filesOut := files), r) <==> OrderedEntries(step, r.(filesOut := files)) == OrderedEntries(step, r)
  {
    var r' := r.(filesOut := files);
    assert Before(step, r') == Before(step, r) && After(step, r') == After(step, r);
    assert Rows(step, r')[1..] == OrderedEntries(step, r') && Rows(step, r)[1..] == OrderedEntries(step, r);
  }

  // ----- what a re-run may change -----

  lemma ItemWellFormed(e: Entry)
    ensures WellFormed(Item(e))
  {}

  lemma ItemSpells(d: Entry, e: Entry)
    requires Meaning(Item(d)) == Meaning(Item(e))
    ensures Item(d) == Item(e)
  {
    ItemWellFormed(d);
    ItemWellFormed(e);
    SameMember(Item(d).members, Item(e).members, 0);
    SameMember(Item(d).members, Item(e).members, 1);
    SameMember(Item(d).members, Item(e).members, 2);
  }

  lemma ItemsSpell(a: seq<Entry>, b: seq<Entry>)
    requires Meanings(Items(a)) == Meanings(Items(b))
    ensures Items(a) == Items(b)
  {
    MeaningsAt(Items(a));
    MeaningsAt(Items(b));
    forall i | 0 <= i < |a| ensures Items(a)[i] == Items(b)[i] {
      assert Meanings(Items(a))[i] == Meanings(Items(b))[i];
      ItemSpells(a[i], b[i]);
    }
  }

  lemma ItemsWellFormed(es: seq<Entry>)
    ensures WellFormed(Arr(Items(es)))
  {
    forall i | 0 <= i < |es| ensures WellFormed(Items(es)[i]) { ItemWellFormed(es[i]); }
  }

  lemma IndexWellFormed(taskKey: Text, provider: Text, rawRef: Text, es: seq<Entry>)
    ensures WellFormed(IndexOf(taskKey, provider, rawRef, es))
  {
    assert |TASK_KEY| == 7 && |PROVIDER| == 8 && |ITEMS| == 5 && |RAW_REF| == 6 && |CREATED_AT| == 9;
    ItemsWellFormed(es);
  }

  /** An index's meaning gives away the provider, and every artifact's kind, URI and digest. */
  lemma IndexSpells(taskKey: Text, p: Text, q: Text, rawRef: Text, a: seq<Entry>, b: seq<Entry>)
    ensures Meaning(IndexOf(taskKey, p, rawRef, a)) == Meaning(IndexOf(taskKey, q, rawRef, b)) ==> p == q && Items(a) == Items(b)
  {
    var x, y := IndexOf(taskKey, p, rawRef, a), IndexOf(taskKey, q, rawRef, b);
    if Meaning(x) == Meaning(y) {
      IndexWellFormed(taskKey, p, rawRef, a);
      IndexWellFormed(taskKey, q, rawRef, b);
      SameMember(x.members, y.members, 1);
      SameMember(x.members, y.members, 2);
      ItemsSpell(a, b);
    }
  }

  lemma SameMember(ms: seq<Member>, ns: seq<Member>, i: nat)
    requires DistinctKeys(ms) && DistinctKeys(ns) && Fields(ms) == Fields(ns)
    requires i < |ms| && i < |ns| && ms[i].key == ns[i].key
    ensures Meaning(ms[i].val) == Meaning(ns[i].val)
  {
    FieldsOf(ms);
    FieldsOf(ns);
  }

  /** So does its digest. */
  lemma IndexDigestTells(sha: Hash, le: Collation, taskKey: Text, p: Text, q: Text, rawRef: Text, a: seq<Entry>, b: seq<Entry>)
    requires Injective(sha)
    ensures
      var x, y := IndexOf(taskKey, p, rawRef, a), IndexOf(taskKey, q, rawRef, b);
      Sha256(sha, le, Tree(x)) == Sha256(sha, le, Tree(y)) ==> x == y
  {
    var x, y := IndexOf(taskKey, p, rawRef, a), IndexOf(taskKey, q, rawRef, b);
    if Sha256(sha, le, Tree(x)) == Sha256(sha, le, Tree(y)) {
      IndexWellFormed(taskKey, p, rawRef, a);
      IndexWellFormed(taskKey, q, rawRef, b);
      SameDigestSameMeaning(sha, le, x, y);
      IndexSpells(taskKey, p, q, rawRef, a, b);
    }
  }

  /** Once a save has stored its first row, another result is let through exactly when its index is the
      same: same provider, same artifacts under the same URIs and digests, in the same order. */
  lemma RerunAcceptedExactly(step: Step, a: Result, b: Result, table0: Table, n: nat)
    requires Injective(step.sha) && a.taskKey == b.taskKey && Untouched(table0, step, a.taskKey)
    requires 1 <= n <= |Rows(step, a)|
    ensures
      var table := Filled(table0, step, a.taskKey, Rows(step, a), n);
      (forall i :: 0 <= i < |Rows(step, b)| ==> !ClashesAt(table, step, b.taskKey, Rows(step, b), i)) <==>
      Index(step, a) == Index(step, b)
  {
    var x, y := IndexEntry(step, a, Index(step, a)), IndexEntry(step, b, Index(step, b));
    IndexEntriesAgree(step, a, b);
    SameIndexSameItems(step, a, b);
    RowsAccepted(step, a.taskKey, x, OrderedEntries(step, a), y, OrderedEntries(step, b), table0, n);
    assert Rows(step, a) == [x] + OrderedEntries(step, a) && Rows(step, b) == [y] + OrderedEntries(step, b);
  }

  lemma IndexEntriesAgree(step: Step, a: Result, b: Result)
    requires Injective(step.sha) && a.taskKey == b.taskKey
    ensures
      var x, y := IndexEntry(step, a, Index(step, a)), IndexEntry(step, b, Index(step, b));
      x.uri == y.uri && (x.sha256 == y.sha256 <==> Index(step, a) == Index(step, b))
  {
    IndexDigestTells(step.sha, step.le, a.taskKey, Provider(step, a), Provider(step, b), Uri(step, a.taskKey, RAW_JSON),
                     OrderedEntries(step, a), OrderedEntries(step, b));
  }

  lemma SameIndexSameItems(step: Step, a: Result, b: Result)
    ensures Index(step, a) == Index(step, b) ==> Items(OrderedEntries(step, a)) == Items(OrderedEntries(step, b))
  {
    assert Index(step, a).members[2].val == Arr(Items(OrderedEntries(step, a)));
    assert Index(step, b).members[2].val == Arr(Items(OrderedEntries(step, b)));
  }

  /** Rows stored under one index are accepted under another exactly when the two indexes' digests are
      equal, provided those tell the items. */
  lemma {:induction false} RowsAccepted(step: Step, taskKey: Text, x: Entry, a: seq<Entry>, y: Entry, b: seq<Entry>, table0: Table, n: nat)
    requires Untouched(table0, step, taskKey) && 1 <= n <= 1 + |a| && x.uri == y.uri
    requires x.sha256 == y.sha256 ==> Items(a) == Items(b)
    ensures
      var table := Filled(table0, step, taskKey, [x] + a, n);
      (forall i :: 0 <= i < 1 + |b| ==> !ClashesAt(table, step, taskKey, [y] + b, i)) <==> x.sha256 == y.sha256
  {
    var table := Filled(table0, step, taskKey, [x] + a, n);
    StoredRowsArePrefix(step, taskKey, [x] + a, table0, n, 0);
    assert ([y] + b)[0] == y && ([x] + a)[0] == x;
    if x.sha256 == y.sha256 {
      forall i | 0 <= i < 1 + |b| ensures !ClashesAt(table, step, taskKey, [y] + b, i) {
        StoredRowsArePrefix(step, taskKey, [x] + a, table0, n, i);
        if 0 < i < n { SameItem(a, b, i - 1); }
      }
    } else {
      assert ClashesAt(table, step, taskKey, [y] + b, 0);
    }
  }

  lemma SameItem(a: seq<Entry>, b: seq<Entry>, i: nat)
    requires Items(a) == Items(b) && i < |a|
    ensures |a| == |b| && a[i].uri == b[i].uri && a[i].sha256 == b[i].sha256
  {
    assert |a| == |Items(a)| == |b| && Item(a[i]) == Items(a)[i] == Item(b[i]);
    assert Item(a[i]).members[1] == Item(b[i]).members[1] && Item(a[i]).members[2] == Item(b[i]).members[2];
  }

  // ----- one URI, one artifact -----

  /** The last part of an entry's URI. */
  ghost predicate Named(step: Step, taskKey: Text, e: Entry, name: Text) { e.uri == Uri(step, taskKey, name) }

  lemma NamesTellApart(step: Step, taskKey: Text, d: Entry, e: Entry, m: Text, n: Text)
    requires Named(step, taskKey, d, m) && Named(step, taskKey, e, n) && m != n
    ensures d.uri != e.uri
  {
    if d.uri == e.uri {
      ArtifactUri.BuildIsInjectiveInName(ArtifactUri.Parts(step.runId, step.stepId, taskKey, m),
                                         ArtifactUri.Parts(step.runId, step.stepId, taskKey, n));
    }
  }

  function Names(step: Step, r: Result): (names: seq<Text>)
    ensures |names| == |Entries(step, r)|
  {
    [STDOUT_LOG, STDERR_LOG]
    + FileNames(Sort(step.le, FilePath, r.filesOut))
    + AfterNames(BootDiagnostics(RawPayload(r)).Some?)
  }

  function AfterNames(boot: bool): seq<Text> { [RAW_JSON, METRICS_JSON] + if boot then [SBX_BOOT_JSON] else [] }

  function FileNames(files: seq<File>): (names: seq<Text>)
    ensures |names| == |files| && forall i :: 0 <= i < |names| ==> names[i] == FILES + files[i].path
  {
    if files == [] then [] else [FILES + files[0].path] + FileNames(files[1..])
  }

  predicate NoTwoAlike(s: seq<Text>) { forall i, j :: 0 <= i < j < |s| ==> s[i] != s[j] }

  const FIXED: seq<Text> := [STDOUT_LOG, STDERR_LOG, RAW_JSON, METRICS_JSON, SBX_BOOT_JSON, INDEX_JSON]

  lemma FixedNames()
    ensures NoTwoAlike(FIXED) && forall name :: name in FIXED ==> name != [] && name[0] != FILES[0]
  {
    assert STDOUT_LOG[2] == 0x64 && STDERR_LOG[2] == 0x64 && STDOUT_LOG[3] == 0x6F && STDERR_LOG[3] == 0x65;
    assert |STDOUT_LOG| == 10 && |RAW_JSON| == 8 && |METRICS_JSON| == 12 && |SBX_BOOT_JSON| == 13 && |INDEX_JSON| == 10;
    assert STDOUT_LOG[0] == 0x73 && STDERR_LOG[0] == 0x73 && SBX_BOOT_JSON[0] == 0x73;
    assert RAW_JSON[0] == 0x72 && METRICS_JSON[0] == 0x6D && INDEX_JSON[0] == 0x69 && FILES[0] == 0x66;
  }

  lemma FileNamesDiffer(files: seq<File>)
    requires KeysDiffer(FilePath, files)
    ensures NoTwoAlike(FileNames(files)) && forall name :: name in FileNames(files) ==> name != [] && name[0] == FILES[0]
  {
    var names := FileNames(files);
    forall i, j | 0 <= i < j < |names| ensures names[i] != names[j] {
      assert FilePath(files[i]) != FilePath(files[j]);
      assert (FILES + files[i].path)[|FILES|..] == files[i].path && (FILES + files[j].path)[|FILES|..] == files[j].path;
    }
  }

  lemma NoTwoAlikeAround(before: seq<Text>, middle: seq<Text>, after: seq<Text>)
    requires NoTwoAlike(before) && NoTwoAlike(middle) && NoTwoAlike(after)
    requires forall x, y :: x in before && y in after ==> x != y
    requires forall x, y :: x in middle && (y in before || y in after) ==> x != y
    ensures NoTwoAlike(before + middle + after)
  {
    var all, m, n := before + middle + after, |before|, |before| + |middle|;
    forall i | 0 <= i < |all| ensures all[i] in if i < m then before else if i < n then middle else after {
      assert all[i] == if i < m then before[i] else if i < n then middle[i - m] else after[i - n];
    }
    forall i, j | 0 <= i < j < |all| ensures all[i] != all[j] {
      if j < m { assert all[i] == before[i] && all[j] == before[j]; }
      else if m <= i && j < n { assert all[i] == middle[i - m] && all[j] == middle[j - m]; }
      else if n <= i { assert all[i] == after[i - n] && all[j] == after[j - n]; }
    }
  }

  lemma AfterNamesFixed(boot: bool)
    ensures NoTwoAlike([STDOUT_LOG, STDERR_LOG]) && NoTwoAlike(AfterNames(boot))
    ensures forall x, y :: x in [STDOUT_LOG, STDERR_LOG] && y in AfterNames(boot) ==> x != y
    ensures forall x :: x in [STDOUT_LOG, STDERR_LOG] || x in AfterNames(boot) ==> x in FIXED && x != INDEX_JSON
  {
    FixedNames();
    assert forall i, j :: 0 <= i < j < 6 ==> FIXED[i] != FIXED[j];
    assert FIXED[0] == STDOUT_LOG && FIXED[1] == STDERR_LOG && FIXED[2] == RAW_JSON;
    assert FIXED[3] == METRICS_JSON && FIXED[4] == SBX_BOOT_JSON && FIXED[5] == INDEX_JSON;
  }

  lemma FixedAround(middle: seq<Text>, after: seq<Text>)
    requires NoTwoAlike(middle) && forall name :: name in middle ==> name != [] && name[0] == FILES[0]
    requires after == AfterNames(true) || after == AfterNames(false)
    ensures NoTwoAlike([STDOUT_LOG, STDERR_LOG] + middle + after) && INDEX_JSON !in [STDOUT_LOG, STDERR_LOG] + middle + after
  {
    FixedNames();
    AfterNamesFixed(after == AfterNames(true));
    assert FIXED[5] in FIXED;
    NoTwoAlikeAround([STDOUT_LOG, STDERR_LOG], middle, after);
  }

  /** Fixed names around the files' names: no two alike, and the index's not among them. */
  lemma NamesDiffer(step: Step, r: Result)
    requires KeysDiffer(FilePath, r.filesOut)
    ensures NoTwoAlike(Names(step, r)) && INDEX_JSON !in Names(step, r)
  {
    var sorted := Sort(step.le, FilePath, r.filesOut);
    SortKeepsItems(step.le, FilePath, r.filesOut);
    PermutedKeysDiffer(FilePath, r.filesOut, sorted);
    FileNamesDiffer(sorted);
    FixedAround(FileNames(sorted), AfterNames(BootDiagnostics(RawPayload(r)).Some?));
  }

  ghost predicate AllNamed(step: Step, taskKey: Text, es: seq<Entry>, names: seq<Text>) {
    |es| == |names| && forall i :: 0 <= i < |es| ==> Named(step, taskKey, es[i], names[i])
  }

  lemma EntriesNamed(step: Step, r: Result)
    ensures AllNamed(step, r.taskKey, Entries(step, r), Names(step, r))
  {
    var files := Sort(step.le, FilePath, r.filesOut);
    assert AllNamed(step, r.taskKey, Before(step, r), [STDOUT_LOG, STDERR_LOG]);
    assert AllNamed(step, r.taskKey, After(step, r), AfterNames(BootDiagnostics(RawPayload(r)).Some?));
    NamedJoins(step, r.taskKey, Before(step, r), FileEntries(step, r.taskKey, files), [STDOUT_LOG, STDERR_LOG], FileNames(files));
    NamedJoins(step, r.taskKey, Before(step, r) + FileEntries(step, r.taskKey, files), After(step, r),
               [STDOUT_LOG, STDERR_LOG] + FileNames(files), AfterNames(BootDiagnostics(RawPayload(r)).Some?));
  }

  lemma NamedJoins(step: Step, taskKey: Text, a: seq<Entry>, b: seq<Entry>, x: seq<Text>, y: seq<Text>)
    requires AllNamed(step, taskKey, a, x) && AllNamed(step, taskKey, b, y)
    ensures AllNamed(step, taskKey, a + b, x + y)
  {}

  /** Files with different paths give every stored row a URI of its own, the index included. */
  lemma SavedUrisDiffer(step: Step, r: Result)
    requires KeysDiffer(FilePath, r.filesOut)
    ensures KeysDiffer(EntryUri, Rows(step, r))
  {
    var entries, names := Entries(step, r), Names(step, r);
    NamesDiffer(step, r);
    EntriesNamed(step, r);
    forall i, j | 0 <= i < j < |entries| ensures EntryUri(entries[i]) != EntryUri(entries[j]) {
      NamesTellApart(step, r.taskKey, entries[i], entries[j], names[i], names[j]);
    }
    var index := IndexEntry(step, r, Index(step, r));
    forall i | 0 <= i < |entries| ensures EntryUri(entries[i]) != EntryUri(index) {
      assert names[i] in names;
      NamesTellApart(step, r.taskKey, entries[i], index, names[i], INDEX_JSON);
    }
    UrisDifferInOrder(step.le, index, entries);
  }

  lemma UrisDifferInOrder(le: Collation, index: Entry, entries: seq<Entry>)
    requires KeysDiffer(EntryUri, entries) && forall i :: 0 <= i < |entries| ==> EntryUri(entries[i]) != EntryUri(index)
    ensures KeysDiffer(EntryUri, [index] + Sort(le, EntryUri, entries))
  {
    SortKeepsItems(le, EntryUri, entries);
    PermutedKeysDiffer(EntryUri, entries, Sort(le, EntryUri, entries));
    forall e | e in Sort(le, EntryUri, entries) ensures EntryUri(e) != EntryUri(index) {
      assert e in entries;
    }
  }
}
