/** What a finished save holds, said of the result alone: which rows there are, what each contains and is the
    digest of, and what the index says of them. */
module SavedContents {
  import opened JsText
  import opened Utf8
  import opened JsonValues
  import opened StableSort
  import opened CanonicalJson
  import opened CanonicalJsonTheorems
  import opened ArtifactStore
  import opened SaveArtifacts
  import opened SaveArtifactsProofs

  // ----- what the rows should be -----

  function Named(step: Step, taskKey: Text, name: Text): Text {
    ArtifactUri.Build(ArtifactUri.Parts(step.runId, step.stepId, taskKey, name))
  }

  /** A text under its own digest. */
  function TextRow(step: Step, taskKey: Text, kind: Text, name: Text, text: Text): Entry {
    Entry(kind, Named(step, taskKey, name), HashText(step.sha, text), Some(Obj([Member(TEXT, Str(text))])))
  }

  /** A document under the digest of its canonical text, or of the text it is. */
  function JsonRow(step: Step, taskKey: Text, kind: Text, name: Text, j: Json): Entry {
    Entry(kind, Named(step, taskKey, name), HashText(step.sha, if j.Str? then j.s else Canonicalize(step.le, j)), Some(Obj([Member(JSON, j)])))
  }

  /** A file under the digest it came with, and its text if it brought any. */
  predicate IsFileRow(step: Step, taskKey: Text, f: File, e: Entry) {
    && e.kind == FILE && e.uri == Named(step, taskKey, FILES + f.path) && e.sha256 == f.sha256
    && (if f.inlineText.Some? && f.inlineText.value != [] then e.inline == Some(Obj([Member(TEXT, Str(f.inlineText.value))])) else e.inline == None)
  }

  /** The raw payload, an empty object if there was none. */
  function Payload(r: Result): Json { match r.raw case Null => Obj([]) case j => j }

  /** The payload's member under this key, if it is an object. */
  function Has(payload: Json, key: Text): Option<Json> { if payload.Obj? then Lookup(payload.members, key) else None }

  predicate BootsFrom(payload: Json) {
    (Has(payload, BOOT_MS).Some? && Has(payload, BOOT_MS).value.Num?) || (Has(payload, TEMPLATE).Some? && Has(payload, TEMPLATE).value.Obj?)
  }

  const TEMPLATE_FIELDS: seq<Text> := [SOURCE, TEMPLATE_ID, TEMPLATE_KEY, DEPS_HASH, ENV_REF]

  /** What the payload's template has under this key, if it is a string. */
  function TemplateText(payload: Json, key: Text): Option<Json> {
    match Has(payload, TEMPLATE)
    case Some(Obj(template)) => OnlyText(Lookup(template, key))
    case _ => None
  }

  function OnlyText(j: Option<Json>): Option<Json> { if j.Some? && j.value.Str? then j else None }

  function OnlyNumber(j: Option<Json>): Option<Json> { if j.Some? && j.value.Num? then j else None }

  /** The boot diagnostics: the boot time if it is a number, and of the template's fields those that are strings. */
  predicate BootSays(payload: Json, boot: Json) {
    && boot.Obj? && Lookup(boot.members, BOOT_MS) == OnlyNumber(Has(payload, BOOT_MS))
    && (forall key :: key in TEMPLATE_FIELDS ==> Lookup(boot.members, key) == TemplateText(payload, key))
    && (forall m :: m in boot.members ==> m.key == BOOT_MS || m.key in TEMPLATE_FIELDS)
  }

  // ----- the boot diagnostics -----

  lemma AfterHead(head: seq<Member>, rest: seq<Member>, key: Text)
    requires |head| <= 1 && (head != [] ==> head[0].key != key)
    ensures Lookup(head + rest, key) == Lookup(rest, key)
  {
    if head == [] { assert head + rest == rest; } else { assert (head + rest)[1..] == rest; }
  }

  lemma {:induction false} CopiedStrings(template: seq<Member>, keys: seq<Text>, key: Text)
    ensures Lookup(CopyStrings(template, keys), key) == if key in keys then OnlyText(Lookup(template, key)) else None
    ensures forall m :: m in CopyStrings(template, keys) ==> m.key in keys
  {
    if keys != [] {
      CopiedStrings(template, keys[1..], key);
      var found := OnlyText(Lookup(template, keys[0]));
      var head := if found.Some? then [Member(keys[0], found.value)] else [];
      assert CopyStrings(template, keys) == head + CopyStrings(template, keys[1..]);
      if keys[0] != key || head == [] { AfterHead(head, CopyStrings(template, keys[1..]), key); }
    }
  }

  lemma TemplateFieldsDiffer()
    ensures BOOT_MS !in TEMPLATE_FIELDS
  {
    assert |SOURCE| == 6 && |TEMPLATE_ID| == 10 && |TEMPLATE_KEY| == 11 && |DEPS_HASH| == 8 && |ENV_REF| == 6 && |BOOT_MS| == 6;
    assert BOOT_MS[0] == 0x62 && SOURCE[0] == 0x73 && ENV_REF[0] == 0x65;
  }

  lemma BootIsRead(payload: Json)
    ensures BootDiagnostics(payload).Some? <==> BootsFrom(payload)
    ensures BootDiagnostics(payload).Some? ==> BootSays(payload, BootDiagnostics(payload).value)
  {
    var boot := match OnlyNumber(Has(payload, BOOT_MS)) case Some(n) => [Member(BOOT_MS, n)] case None => [];
    TemplateFieldsDiffer();
    match Has(payload, TEMPLATE) {
      case Some(Obj(template)) =>
        var copied := CopyStrings(template, TEMPLATE_FIELDS);
        assert BootDiagnostics(payload) == Some(Obj(boot + copied));
        CopiedStrings(template, TEMPLATE_FIELDS, BOOT_MS);
        assert boot == [] ==> boot + copied == copied;
        forall key | key in TEMPLATE_FIELDS ensures Lookup(boot + copied, key) == TemplateText(payload, key) {
          CopiedStrings(template, TEMPLATE_FIELDS, key);
          AfterHead(boot, copied, key);
        }
      case _ => assert boot != [] ==> boot[1..] == [];
    }
  }

  // ----- the rows -----

  /** One of the rows a save of this result stores, besides its index. */
  ghost predicate IsRowOf(step: Step, r: Result, e: Entry) {
    || e == TextRow(step, r.taskKey, STDOUT, STDOUT_LOG, r.stdout)
    || e == TextRow(step, r.taskKey, STDERR, STDERR_LOG, r.stderr)
    || (exists f :: f in r.filesOut && IsFileRow(step, r.taskKey, f, e))
    || e == JsonRow(step, r.taskKey, RAW, RAW_JSON, Payload(r))
    || e == JsonRow(step, r.taskKey, TIMINGS, METRICS_JSON, r.metrics)
    || (BootsFrom(Payload(r)) && exists boot :: BootSays(Payload(r), boot) && e == JsonRow(step, r.taskKey, JSON_DIAGNOSTIC, SBX_BOOT_JSON, boot))
  }

  /** All of them are among these rows: the two streams, each file, the payload, the metrics, and the boot
      diagnostics if there are any. */
  ghost predicate HasAllRows(step: Step, r: Result, rows: seq<Entry>) {
    && TextRow(step, r.taskKey, STDOUT, STDOUT_LOG, r.stdout) in rows
    && TextRow(step, r.taskKey, STDERR, STDERR_LOG, r.stderr) in rows
    && (forall f :: f in r.filesOut ==> exists e :: e in rows && IsFileRow(step, r.taskKey, f, e))
    && JsonRow(step, r.taskKey, RAW, RAW_JSON, Payload(r)) in rows
    && JsonRow(step, r.taskKey, TIMINGS, METRICS_JSON, r.metrics) in rows
    && (BootsFrom(Payload(r)) ==>
        exists boot :: BootSays(Payload(r), boot) && JsonRow(step, r.taskKey, JSON_DIAGNOSTIC, SBX_BOOT_JSON, boot) in rows)
  }

  lemma BeforeSays(step: Step, r: Result)
    ensures Before(step, r) == [TextRow(step, r.taskKey, STDOUT, STDOUT_LOG, r.stdout), TextRow(step, r.taskKey, STDERR, STDERR_LOG, r.stderr)]
  {}

  lemma AfterSays(step: Step, r: Result)
    ensures
      After(step, r) == [JsonRow(step, r.taskKey, RAW, RAW_JSON, Payload(r)), JsonRow(step, r.taskKey, TIMINGS, METRICS_JSON, r.metrics)]
        + match BootDiagnostics(Payload(r)) case Some(boot) => [JsonRow(step, r.taskKey, JSON_DIAGNOSTIC, SBX_BOOT_JSON, boot)] case None => []
  {}

  lemma FilesSay(step: Step, taskKey: Text, files: seq<File>)
    ensures forall i :: 0 <= i < |files| ==> IsFileRow(step, taskKey, files[i], FileEntries(step, taskKey, files)[i])
  {}

  lemma EntriesAreAll(step: Step, r: Result)
    ensures HasAllRows(step, r, Entries(step, r))
    ensures |Entries(step, r)| == 4 + |r.filesOut| + if BootsFrom(Payload(r)) then 1 else 0
  {
    var files := Sort(step.le, FilePath, r.filesOut);
    var rows := FileEntries(step, r.taskKey, files);
    SortKeepsItems(step.le, FilePath, r.filesOut);
    BeforeSays(step, r);
    AfterSays(step, r);
    FilesSay(step, r.taskKey, files);
    BootIsRead(Payload(r));
    forall f | f in r.filesOut ensures exists e :: e in Entries(step, r) && IsFileRow(step, r.taskKey, f, e) {
      var i :| 0 <= i < |files| && files[i] == f;
      assert rows[i] in Entries(step, r);
    }
  }

  lemma EntriesAreRows(step: Step, r: Result)
    ensures forall e :: e in Entries(step, r) ==> IsRowOf(step, r, e)
  {
    var files := Sort(step.le, FilePath, r.filesOut);
    var rows := FileEntries(step, r.taskKey, files);
    SortKeepsItems(step.le, FilePath, r.filesOut);
    BeforeSays(step, r);
    AfterSays(step, r);
    FilesSay(step, r.taskKey, files);
    BootIsRead(Payload(r));
    forall e | e in Entries(step, r) ensures IsRowOf(step, r, e) {
      if e in rows {
        var i :| 0 <= i < |rows| && rows[i] == e;
        assert files[i] in r.filesOut && IsFileRow(step, r.taskKey, files[i], e);
      } else {
        assert e in Before(step, r) || e in After(step, r);
      }
    }
  }

  // ----- the index -----

  predicate ItemSays(item: Json, e: Entry) {
    && item.Obj? && Lookup(item.members, KIND) == Some(Str(e.kind)) && Lookup(item.members, URI) == Some(Str(e.uri))
    && Lookup(item.members, SHA256) == Some(Str(e.sha256))
  }

  predicate ItemsSay(items: Json, saved: seq<Entry>) {
    items.Arr? && |items.items| == |saved| && forall i :: 0 <= i < |saved| ==> ItemSays(items.items[i], saved[i])
  }

  /** Whose index it is, what made the result, where its payload is, and the rows in the order they are stored. */
  predicate IndexSays(step: Step, r: Result, index: Json, saved: seq<Entry>) {
    && index.Obj? && Lookup(index.members, TASK_KEY) == Some(Str(r.taskKey))
    && Lookup(index.members, PROVIDER) == (match OnlyText(Has(r.raw, PROVIDER)) case Some(p) => Some(p) case None => Some(Str(step.provider)))
    && Lookup(index.members, ITEMS).Some? && ItemsSay(Lookup(index.members, ITEMS).value, saved)
    && Lookup(index.members, RAW_REF) == Some(Str(Named(step, r.taskKey, RAW_JSON)))
    && Lookup(index.members, CREATED_AT) == Some(Str(EPOCH))
  }

  lemma ItemReads(e: Entry)
    ensures ItemSays(Item(e), e)
  {
    var ms := Item(e).members;
    assert |KIND| == 4 && |URI| == 3 && |SHA256| == 6;
    assert DistinctKeys(ms) && ms[0] in ms && ms[1] in ms && ms[2] in ms;
    LookupIsListed(ms, KIND, Str(e.kind));
    LookupIsListed(ms, URI, Str(e.uri));
    LookupIsListed(ms, SHA256, Str(e.sha256));
  }

  lemma IndexReads(taskKey: Text, provider: Text, rawRef: Text, es: seq<Entry>)
    ensures
      var ms := IndexOf(taskKey, provider, rawRef, es).members;
      && Lookup(ms, TASK_KEY) == Some(Str(taskKey)) && Lookup(ms, PROVIDER) == Some(Str(provider))
      && Lookup(ms, ITEMS) == Some(Arr(Items(es))) && Lookup(ms, RAW_REF) == Some(Str(rawRef)) && Lookup(ms, CREATED_AT) == Some(Str(EPOCH))
  {
    var ms := IndexOf(taskKey, provider, rawRef, es).members;
    assert |TASK_KEY| == 7 && |PROVIDER| == 8 && |ITEMS| == 5 && |RAW_REF| == 6 && |CREATED_AT| == 9;
    assert DistinctKeys(ms);
    LookupIsListed(ms, TASK_KEY, Str(taskKey));
    LookupIsListed(ms, PROVIDER, Str(provider));
    LookupIsListed(ms, ITEMS, Arr(Items(es)));
    LookupIsListed(ms, RAW_REF, Str(rawRef));
    LookupIsListed(ms, CREATED_AT, Str(EPOCH));
    assert ms[0] in ms && ms[1] in ms && ms[2] in ms && ms[3] in ms && ms[4] in ms;
  }

  lemma IndexSpeaks(step: Step, r: Result)
    ensures IndexSays(step, r, Index(step, r), OrderedEntries(step, r))
    ensures IndexEntry(step, r, Index(step, r)) == JsonRow(step, r.taskKey, ARTIFACT_INDEX, INDEX_JSON, Index(step, r))
  {
    var saved := OrderedEntries(step, r);
    IndexReads(r.taskKey, Provider(step, r), Uri(step, r.taskKey, RAW_JSON), saved);
    forall i | 0 <= i < |saved| ensures ItemSays(Items(saved)[i], saved[i]) { ItemReads(saved[i]); }
  }

  // ----- a finished save -----

  /** A finished save on a table without the task's rows: at 0 the index, under its digest, and from 1 on, with
      no gap and in the order of their URIs, a row for each stream, file and document of the result and no
      others, each with its contents and their digest; the index lists them in that order. */
  lemma SaveSays(step: Step, r: Result, table0: Table) returns (index: Json, saved: seq<Entry>)
    requires IsCollation(step.le) && Untouched(table0, step, r.taskKey)
    ensures
      var table := Filled(table0, step, r.taskKey, Rows(step, r), |Rows(step, r)|);
      && RowAt(table, step, r.taskKey, 0) == Some(JsonRow(step, r.taskKey, ARTIFACT_INDEX, INDEX_JSON, index))
      && IndexSays(step, r, index, saved)
      && Holds(table, step, r.taskKey, saved) && (forall i, j :: 0 <= i < j < |saved| ==> step.le(saved[i].uri, saved[j].uri))
    ensures HasAllRows(step, r, saved) && (forall e :: e in saved ==> IsRowOf(step, r, e))
    ensures |saved| == 4 + |r.filesOut| + if BootsFrom(Payload(r)) then 1 else 0
  {
    index := Index(step, r);
    IndexSpeaks(step, r);
    saved := EntriesSaved(step, r.taskKey, IndexEntry(step, r, index), Entries(step, r), table0);
    SortKeepsItems(step.le, EntryUri, Entries(step, r));
    EntriesAreAll(step, r);
    EntriesAreRows(step, r);
    InUriOrder(step.le, saved);
    SameAll(step, r, Entries(step, r), saved);
  }

  lemma InUriOrder(le: Collation, rows: seq<Entry>)
    requires Ordered(le, EntryUri, rows)
    ensures forall i, j :: 0 <= i < j < |rows| ==> le(rows[i].uri, rows[j].uri)
  {
    forall i, j | 0 <= i < j < |rows| ensures le(rows[i].uri, rows[j].uri) { assert le(EntryUri(rows[i]), EntryUri(rows[j])); }
  }

  lemma SameAll(step: Step, r: Result, a: seq<Entry>, b: seq<Entry>)
    requires HasAllRows(step, r, a) && forall e :: e in a <==> e in b
    ensures HasAllRows(step, r, b)
  {}

  /** Whatever a save stores, rows under any other run, step, task or attempt are as they were. */
  lemma OtherRowsStay(step: Step, taskKey: Text, rows: seq<Entry>, table: Table, n: nat, key: Key)
    requires n <= |rows|
    requires key.runId != step.runId || key.stepId != step.stepId || key.taskKey != taskKey || key.attempt != step.attempt
    ensures
      var after := Filled(table, step, taskKey, rows, n);
      (key in after <==> key in table) && (key in table ==> after[key] == table[key])
  {
    FilledLeaves(table, step, taskKey, rows, n);
  }
}
