/** The artifacts table: an insert is first writer wins, and then compared. */
module ArtifactStore {
  import opened JsText
  import opened JsonValues

  datatype Entry = Entry(kind: Text, uri: Text, sha256: Text, inline: Option<Json>)

  datatype Key = Key(runId: Text, stepId: Text, taskKey: Text, idx: nat, attempt: nat)

  type Table = map<Key, Entry>

  /** What an insert finds it cannot live with: another digest, or another URI. */
  predicate Clashes(table: Table, key: Key, e: Entry) {
    key in table && (table[key].sha256 != e.sha256 || table[key].uri != e.uri)
  }

  function Put(table: Table, key: Key, e: Entry): Table { if key in table then table else table[key := e] }
}
