/** What a human's reply resolves to. */
module DecisionPayloadProofs {
  import opened JsText
  import opened JsonValues
  import opened CanonicalJsonTheorems
  import opened DecisionPayload

  /** Replies equal up to member order resolve alike. */
  lemma ReplyOrderIgnored(x: Json, y: Json)
    requires Same(x, y)
    ensures ResolveChoice(x) == ResolveChoice(y) && ResolveRationale(x) == ResolveRationale(y)
  {
    if x.Obj? {
      FieldsAgree(x.members, y.members);
    }
  }

  lemma FieldsAgree(ms: seq<Member>, ns: seq<Member>)
    requires Same(Obj(ms), Obj(ns))
    ensures ReadText(ms, CHOICE) == ReadText(ns, CHOICE) && ReadText(ms, DECISION) == ReadText(ns, DECISION)
    ensures ReadText(ms, RATIONALE) == ReadText(ns, RATIONALE) && ReadText(ms, REASON) == ReadText(ns, REASON)
    ensures ReadText(ms, NOTE) == ReadText(ns, NOTE) && ReadText(ms, NOTES) == ReadText(ns, NOTES)
    ensures forall b :: Lookup(ms, APPROVED) == Some(Bool(b)) <==> Lookup(ns, APPROVED) == Some(Bool(b))
  {
    TextAgrees(ms, ns, CHOICE);
    TextAgrees(ms, ns, DECISION);
    TextAgrees(ms, ns, RATIONALE);
    TextAgrees(ms, ns, REASON);
    TextAgrees(ms, ns, NOTE);
    TextAgrees(ms, ns, NOTES);
    LookupAgrees(ms, ns, APPROVED);
  }

  lemma TextAgrees(ms: seq<Member>, ns: seq<Member>, key: Text)
    requires Same(Obj(ms), Obj(ns))
    ensures ReadText(ms, key) == ReadText(ns, key)
  {
    LookupAgrees(ms, ns, key);
  }

  /** The payload is an object with this value under this key. */
  predicate Holds(payload: Json, key: Text, v: Json) { payload.Obj? && Lookup(payload.members, key) == Some(v) }

  ghost predicate HoldsText(payload: Json, key: Text) { exists s :: Holds(payload, key, Str(s)) }

  /** With distinct keys, what an object holds is what it lists. */
  lemma HoldsExactly(payload: Json, key: Text, v: Json)
    requires WellFormed(payload)
    ensures Holds(payload, key, v) <==> payload.Obj? && Member(key, v) in payload.members
  {
    if payload.Obj? { LookupIsListed(payload.members, key, v); }
  }

  /** What speaks for yes: each field is heard only if the ones before it do not say. */
  ghost predicate Approves(payload: Json) {
    && !Holds(payload, CHOICE, Str(NO))
    && (Holds(payload, CHOICE, Str(YES)) ||
        (!Holds(payload, APPROVED, Bool(false)) && (Holds(payload, APPROVED, Bool(true)) || SpeaksForYes(payload))))
  }

  ghost predicate SpeaksForYes(payload: Json) {
    exists d :: Holds(payload, DECISION, Str(d)) && ToLowerCase(Trim(d)) in {YES, APPROVE, APPROVED}
  }

  lemma ApprovesExactly(payload: Json)
    ensures ResolveChoice(payload) == Yes <==> Approves(payload)
  {
    assert |YES| == 3 && |NO| == 2 && |APPROVE| == 7 && |APPROVED| == 8;
    var decision := ReadText(AsRecord(payload), DECISION);
    if decision.Some? { assert Holds(payload, DECISION, Str(decision.value)); }
  }

  // ----- the rationale -----

  /** Where a rationale is looked for, in this order. */
  const WHY: seq<Text> := [RATIONALE, REASON, NOTE, NOTES]

  /** The field holds this string, and none before it holds one. */
  ghost predicate SaysWhyAt(payload: Json, s: Text, k: nat) {
    k < |WHY| && Holds(payload, WHY[k], Str(s)) && forall j :: 0 <= j < k ==> !HoldsText(payload, WHY[j])
  }

  ghost predicate SaysWhy(payload: Json, s: Text) { exists k: nat :: SaysWhyAt(payload, s, k) }

  ghost predicate SaysNotWhy(payload: Json) { forall k :: 0 <= k < |WHY| ==> !HoldsText(payload, WHY[k]) }

  lemma RationaleExactly(payload: Json)
    ensures forall s :: ResolveRationale(payload) == Some(s) <==> SaysWhy(payload, s)
    ensures ResolveRationale(payload) == None <==> SaysNotWhy(payload)
  {
    ResolvedNowhere(payload);
    forall s ensures ResolveRationale(payload) == Some(s) <==> SaysWhy(payload, s) {
      if ResolveRationale(payload) == Some(s) { ResolvedIsSaid(payload, s); }
      if k: nat :| SaysWhyAt(payload, s, k) { SaidIsResolved(payload, s, k); }
    }
  }

  lemma WhyFields(payload: Json)
    ensures |WHY| == 4 && WHY[0] == RATIONALE && WHY[1] == REASON && WHY[2] == NOTE && WHY[3] == NOTES
    ensures TextUnder(payload, RATIONALE) && TextUnder(payload, REASON) && TextUnder(payload, NOTE) && TextUnder(payload, NOTES)
  {
    ReadTextExactly(payload, RATIONALE);
    ReadTextExactly(payload, REASON);
    ReadTextExactly(payload, NOTE);
    ReadTextExactly(payload, NOTES);
  }

  lemma ResolvedIsSaid(payload: Json, s: Text)
    requires ResolveRationale(payload) == Some(s)
    ensures SaysWhy(payload, s)
  {
    WhyFields(payload);
    var k := if HoldsText(payload, RATIONALE) then 0 else if HoldsText(payload, REASON) then 1 else if HoldsText(payload, NOTE) then 2 else 3;
    assert SaysWhyAt(payload, s, k);
  }

  lemma SaidIsResolved(payload: Json, s: Text, k: nat)
    requires SaysWhyAt(payload, s, k)
    ensures ResolveRationale(payload) == Some(s)
  {
    WhyFields(payload);
    assert forall j :: 0 <= j < k ==> !HoldsText(payload, WHY[j]);
    assert k > 0 ==> !HoldsText(payload, WHY[0]);
    assert k > 1 ==> !HoldsText(payload, WHY[1]);
    assert k > 2 ==> !HoldsText(payload, WHY[2]);
  }

  lemma ResolvedNowhere(payload: Json)
    ensures ResolveRationale(payload) == None <==> SaysNotWhy(payload)
  {
    WhyFields(payload);
    assert SaysNotWhy(payload) ==>
      !HoldsText(payload, WHY[0]) && !HoldsText(payload, WHY[1]) && !HoldsText(payload, WHY[2]) && !HoldsText(payload, WHY[3]);
  }

  ghost predicate TextUnder(payload: Json, key: Text) {
    && (forall s :: ReadText(AsRecord(payload), key) == Some(s) <==> Holds(payload, key, Str(s)))
    && (ReadText(AsRecord(payload), key).Some? <==> HoldsText(payload, key))
  }

  lemma ReadTextExactly(payload: Json, key: Text)
    ensures TextUnder(payload, key)
  {
    if ReadText(AsRecord(payload), key).Some? { assert Holds(payload, key, Str(ReadText(AsRecord(payload), key).value)); }
  }

  /** Anything that is not an object, and any object that says nothing, is a no without rationale. */
  lemma SilenceIsNo(payload: Json)
    requires forall m :: m in AsRecord(payload) ==> m.key !in {CHOICE, APPROVED, DECISION, RATIONALE, REASON, NOTE, NOTES}
    ensures ResolveChoice(payload) == No && ResolveRationale(payload) == None
  {
    var record := AsRecord(payload);
    forall key ensures Lookup(record, key).Some? ==> exists m :: m in record && m.key == key {
      LookupIsField(record, key);
    }
    assert forall key :: key in {CHOICE, APPROVED, DECISION, RATIONALE, REASON, NOTE, NOTES} ==> Lookup(record, key).None?;
  }
}
