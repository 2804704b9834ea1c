/** Artifact URIs, `artifact://run/<run>/step/<step>/task/<task>/<name>`. */
module ArtifactUri {
  import opened JsText
  import opened JsonValues

  datatype Parts = Parts(runId: Text, stepId: Text, taskKey: Text, name: Text)

  // "artifact://", "run", "step", "task"
  const PREFIX: Text := [0x61, 0x72, 0x74, 0x69, 0x66, 0x61, 0x63, 0x74, 0x3A, 0x2F, 0x2F]
  const RUN: Text := [0x72, 0x75, 0x6E]
  const STEP: Text := [0x73, 0x74, 0x65, 0x70]
  const TASK: Text := [0x74, 0x61, 0x73, 0x6B]

  function Labelled(word: Text, id: Text, rest: Text): Text { word + [SLASH] + (id + [SLASH] + rest) }

  function Build(p: Parts): Text {
    PREFIX + Labelled(RUN, p.runId, Labelled(STEP, p.stepId, Labelled(TASK, p.taskKey, p.name)))
  }

  /** `None` where the source throws. */
  function Parse(uri: Text): Option<Parts> {
    if !(PREFIX <= uri) then None
    else
      var parts := Split(uri[|PREFIX|..], SLASH);
      if |parts| < 7 || parts[0] != RUN || parts[2] != STEP || parts[4] != TASK then None
      else Some(Parts(parts[1], parts[3], parts[5], Join(parts[6..], SLASH)))
  }

  // ----- split and join -----

  lemma {:induction false} JoinOfSplit(t: Text, c: CodeUnit)
    ensures Join(Split(t, c), c) == t
  {
    if t != [] {
      JoinOfSplit(t[1..], c);
      var rest := Split(t[1..], c);
      if t[0] == c {
        assert ([[]] + rest)[1..] == rest;
      } else {
        var parts := [[t[0]] + rest[0]] + rest[1..];
        assert parts[1..] == rest[1..];
        if |rest| == 1 { assert Join(parts, c) == [t[0]] + t[1..]; }
        else { assert Join(parts, c) == [t[0]] + (rest[0] + [c] + Join(rest[1..], c)); }
      }
    }
  }

  lemma {:induction false} SplitParts(t: Text, c: CodeUnit)
    ensures forall k :: 0 <= k < |Split(t, c)| ==> c !in Split(t, c)[k]
  {
    if t != [] { SplitParts(t[1..], c); }
  }

  /** A part without the separator is split off whole. */
  lemma {:induction false} SplitFirst(part: Text, t: Text, c: CodeUnit)
    requires c !in part
    ensures Split(part + [c] + t, c) == [part] + Split(t, c)
  {
    if part == [] {
      assert part + [c] + t == [c] + t;
      assert ([c] + t)[1..] == t;
    } else {
      SplitFirst(part[1..], t, c);
      assert (part + [c] + t)[1..] == part[1..] + [c] + t;
      assert part == [part[0]] + part[1..];
    }
  }

  // ----- round trips -----

  lemma SplitLabelled(word: Text, id: Text, rest: Text)
    requires SLASH !in word && SLASH !in id
    ensures Split(Labelled(word, id, rest), SLASH) == [word, id] + Split(rest, SLASH)
  {
    SplitFirst(word, id + [SLASH] + rest, SLASH);
    SplitFirst(id, rest, SLASH);
  }

  lemma BuildSplits(p: Parts)
    requires SLASH !in p.runId && SLASH !in p.stepId && SLASH !in p.taskKey
    ensures Split(Build(p)[|PREFIX|..], SLASH) == [RUN, p.runId, STEP, p.stepId, TASK, p.taskKey] + Split(p.name, SLASH)
  {
    var task := Labelled(TASK, p.taskKey, p.name);
    var step := Labelled(STEP, p.stepId, task);
    assert Build(p)[|PREFIX|..] == Labelled(RUN, p.runId, step);
    SplitLabelled(RUN, p.runId, step);
    SplitLabelled(STEP, p.stepId, task);
    SplitLabelled(TASK, p.taskKey, p.name);
  }

  /** Parsing gives a built URI's parts back exactly when none of the three ids holds a slash; the
      name may be anything. */
  lemma ParseOfBuildExactly(p: Parts)
    ensures Parse(Build(p)) == Some(p) <==> SLASH !in p.runId && SLASH !in p.stepId && SLASH !in p.taskKey
  {
    if SLASH !in p.runId && SLASH !in p.stepId && SLASH !in p.taskKey {
      BuildSplits(p);
      var parts := [RUN, p.runId, STEP, p.stepId, TASK, p.taskKey] + Split(p.name, SLASH);
      assert parts[6..] == Split(p.name, SLASH);
      JoinOfSplit(p.name, SLASH);
      assert PREFIX <= Build(p);
    } else {
      SplitParts(Build(p)[|PREFIX|..], SLASH);
    }
  }

  /** Every accepted URI is the one its parts build. */
  lemma BuildOfParse(uri: Text)
    requires Parse(uri).Some?
    ensures Build(Parse(uri).value) == uri
  {
    var path := uri[|PREFIX|..];
    var parts := Split(path, SLASH);
    JoinOfSplit(path, SLASH);
    JoinHead(parts, 0);
    JoinHead(parts, 1);
    JoinHead(parts, 2);
    JoinHead(parts, 3);
    JoinHead(parts, 4);
    JoinHead(parts, 5);
    assert parts[0..] == parts;
    assert uri == PREFIX + path;
  }

  lemma JoinHead(parts: seq<Text>, k: nat)
    requires k + 1 < |parts|
    ensures Join(parts[k..], SLASH) == parts[k] + [SLASH] + Join(parts[k + 1..], SLASH)
  {}

  /** URIs of one step and task differ where their names do. */
  lemma BuildIsInjectiveInName(p: Parts, q: Parts)
    requires p.runId == q.runId && p.stepId == q.stepId && p.taskKey == q.taskKey && Build(p) == Build(q)
    ensures p.name == q.name
  {
    assert forall q: Parts :: Build(q)[|Build(q)| - |q.name|..] == q.name;
  }
}
