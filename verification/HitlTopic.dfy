/** Gate keys and topics of the human-in-the-loop protocol. */
module HitlTopic {
  import opened JsText
  import opened JsonValues

  predicate IsSlugStart(c: CodeUnit) { IsLower(c) || IsDigit(c) }

  predicate IsSlugUnit(c: CodeUnit) { IsSlugStart(c) || c == COLON || c == UNDERSCORE || c == DASH }

  predicate AllSlug(s: Text) { forall i :: 0 <= i < |s| ==> IsSlugUnit(s[i]) }

  /** `/^[a-z0-9][a-z0-9:_-]{0,127}$/`. */
  predicate IsGateKey(s: Text) { 1 <= |s| <= 128 && IsSlugStart(s[0]) && AllSlug(s) }

  /** `replace(/\s+/g, "-")`. */
  function DashBlanks(s: Text): Text
    decreases |s|
  {
    if s == [] then []
    else if IsBlank(s[0]) then [DASH] + DashBlanks(SkipBlankRun(s))
    else [s[0]] + DashBlanks(s[1..])
  }

  function SkipBlankRun(s: Text): (r: Text)
    requires s != []
    ensures |r| < |s|
  {
    if |s| > 1 && IsBlank(s[1]) then SkipBlankRun(s[1..]) else s[1..]
  }

  /** `replace(/[^a-z0-9:_-]/g, "-")`. */
  function DashOthers(s: Text): Text {
    if s == [] then [] else [if IsSlugUnit(s[0]) then s[0] else DASH] + DashOthers(s[1..])
  }

  /** `replace(/-+/g, "-")`. */
  function CollapseDashes(s: Text): Text {
    if s == [] then []
    else if |s| > 1 && s[0] == DASH && s[1] == DASH then CollapseDashes(s[1..])
    else [s[0]] + CollapseDashes(s[1..])
  }

  function Slug(s: Text): Text { CollapseDashes(DashOthers(DashBlanks(ToLowerCase(Trim(s))))) }

  /** `None` where the source throws. */
  function NormalizeGateKey(raw: Text): Option<Text> {
    if IsGateKey(Slug(raw)) then Some(Slug(raw)) else None
  }

  // "human:"
  const HUMAN: Text := [0x68, 0x75, 0x6D, 0x61, 0x6E, 0x3A]

  function ToHumanTopic(gateKey: Text): Option<Text> {
    match NormalizeGateKey(gateKey)
    case Some(k) => Some(HUMAN + k)
    case None => None
  }

  // "esc:"
  const ESC_PREFIX: Text := [0x65, 0x73, 0x63, 0x3A]

  /** The workflow that escalates a gate's timeout. */
  function EscalationId(workflowId: Text, gateKey: Text): Text { ESC_PREFIX + workflowId + [COLON] + gateKey }

  /** The second workflow's id goes on where the first one's ends, and the first gate's key says how. */
  ghost predicate Reads(workflowId: Text, gateKey: Text, other: Text, otherKey: Text) {
    exists between :: other == workflowId + [COLON] + between && gateKey == between + [COLON] + otherKey
  }

  /** Different gates share an escalation exactly when the colon between workflow and gate can be read in
      two places. */
  lemma EscalationIdsAgreeExactly(workflowId: Text, gateKey: Text, other: Text, otherKey: Text)
    requires (workflowId, gateKey) != (other, otherKey)
    ensures EscalationId(workflowId, gateKey) == EscalationId(other, otherKey) <==>
      Reads(workflowId, gateKey, other, otherKey) || Reads(other, otherKey, workflowId, gateKey)
  {
    if EscalationId(workflowId, gateKey) == EscalationId(other, otherKey) {
      var a, b := workflowId + [COLON] + gateKey, other + [COLON] + otherKey;
      assert EscalationId(workflowId, gateKey)[4..] == a && EscalationId(other, otherKey)[4..] == b;
      if |workflowId| <= |other| { ReadsOn(workflowId, gateKey, other, otherKey); } else { ReadsOn(other, otherKey, workflowId, gateKey); }
    }
    if Reads(workflowId, gateKey, other, otherKey) { SameEscalation(workflowId, gateKey, other, otherKey); }
    if Reads(other, otherKey, workflowId, gateKey) { SameEscalation(other, otherKey, workflowId, gateKey); }
  }

  lemma ReadsOn(w: Text, g: Text, v: Text, h: Text)
    requires w + [COLON] + g == v + [COLON] + h && |w| <= |v|
    ensures (w, g) == (v, h) || Reads(w, g, v, h)
  {
    var t, n := w + [COLON] + g, |w|;
    assert t[..n] == w && t[n] == COLON && t[n + 1..] == g;
    assert t[..|v|] == v && t[|v| + 1..] == h;
    if n < |v| {
      var between := v[n + 1..];
      assert v == w + [COLON] + between;
      assert g == t[n + 1..|v|] + t[|v|..] == between + [COLON] + h;
    }
  }

  lemma SameEscalation(w: Text, g: Text, v: Text, h: Text)
    requires Reads(w, g, v, h)
    ensures EscalationId(w, g) == EscalationId(v, h)
  {
    var between :| v == w + [COLON] + between && g == between + [COLON] + h;
    assert ESC_PREFIX + w + [COLON] + (between + [COLON] + h) == ESC_PREFIX + (w + [COLON] + between) + [COLON] + h;
  }

  // ----- normalizing twice is normalizing once -----

  predicate NoDoubleDash(s: Text) { forall i :: 0 < i < |s| ==> !(s[i - 1] == DASH && s[i] == DASH) }

  lemma {:induction false} DashOthersIsSlug(s: Text)
    ensures AllSlug(DashOthers(s))
  {
    if s != [] { DashOthersIsSlug(s[1..]); }
  }

  lemma {:induction false} Collapsed(s: Text)
    ensures NoDoubleDash(CollapseDashes(s))
    ensures AllSlug(s) ==> AllSlug(CollapseDashes(s))
    ensures s != [] ==> CollapseDashes(s) != [] && CollapseDashes(s)[0] == s[0]
  {
    if s != [] {
      Collapsed(s[1..]);
      var r := CollapseDashes(s[1..]);
      if !(|s| > 1 && s[0] == DASH && s[1] == DASH) {
        forall i | 0 < i < |[s[0]] + r|
          ensures !(([s[0]] + r)[i - 1] == DASH && ([s[0]] + r)[i] == DASH)
        {
          if i == 1 { assert r[0] == s[1]; } else { assert !(r[i - 2] == DASH && r[i - 1] == DASH); }
        }
      }
    }
  }

  lemma SlugShape(s: Text)
    ensures AllSlug(Slug(s)) && NoDoubleDash(Slug(s))
  {
    var t := DashOthers(DashBlanks(ToLowerCase(Trim(s))));
    DashOthersIsSlug(DashBlanks(ToLowerCase(Trim(s))));
    Collapsed(t);
  }

  lemma {:induction false} LowerKeepsSlug(s: Text)
    requires AllSlug(s)
    ensures ToLowerCase(s) == s
  {
    if s != [] {
      assert forall i :: 0 <= i < |s[1..]| ==> s[1..][i] == s[i + 1];
      LowerKeepsSlug(s[1..]);
    }
  }

  lemma {:induction false} DashingKeepsSlug(s: Text)
    requires AllSlug(s)
    ensures DashBlanks(s) == s && DashOthers(s) == s
  {
    if s != [] {
      assert forall i :: 0 <= i < |s[1..]| ==> s[1..][i] == s[i + 1];
      DashingKeepsSlug(s[1..]);
    }
  }

  lemma {:induction false} CollapseKeeps(s: Text)
    requires NoDoubleDash(s)
    ensures CollapseDashes(s) == s
  {
    if s != [] {
      assert |s| > 1 ==> !(s[0] == DASH && s[1] == DASH);
      assert forall i :: 0 < i < |s[1..]| ==> s[1..][i] == s[i + 1] && s[1..][i - 1] == s[i];
      CollapseKeeps(s[1..]);
    }
  }

  /** Exactly the gate keys without a double dash are their own normal form. */
  lemma NormalFormExactly(k: Text)
    ensures NormalizeGateKey(k) == Some(k) <==> IsGateKey(k) && NoDoubleDash(k)
  {
    SlugShape(k);
    if IsGateKey(k) && NoDoubleDash(k) {
      LowerKeepsSlug(k);
      DashingKeepsSlug(k);
      CollapseKeeps(k);
    }
  }

  lemma NormalizeIsIdempotent(raw: Text)
    requires NormalizeGateKey(raw).Some?
    ensures NormalizeGateKey(NormalizeGateKey(raw).value) == NormalizeGateKey(raw)
  {
    SlugShape(raw);
    NormalFormExactly(NormalizeGateKey(raw).value);
  }

  /** A human topic carries its normalized gate: cutting off the prefix and rebuilding is the
      identity, so equal topics mean equal normalized gates. */
  lemma HumanTopicCarriesGate(gateKey: Text)
    requires ToHumanTopic(gateKey).Some?
    ensures
      var topic := ToHumanTopic(gateKey).value;
      && HUMAN <= topic
      && NormalizeGateKey(topic[6..]) == NormalizeGateKey(gateKey) == Some(topic[6..])
      && ToHumanTopic(topic[6..]) == Some(topic)
  {
    var k := NormalizeGateKey(gateKey).value;
    NormalizeIsIdempotent(gateKey);
    assert (HUMAN + k)[6..] == k;
  }

  // ----- what normalizing makes of a text -----

  /** A unit a gate key can have besides the dash. */
  predicate IsWordUnit(c: CodeUnit) { IsLower(c) || IsDigit(c) || c == COLON || c == UNDERSCORE }

  /** The longest stretches of such units, in order. */
  function Words(t: Text): seq<Text> {
    if t == [] then []
    else if !IsWordUnit(t[0]) then Words(t[1..])
    else if StartsWord(t[1..]) && Words(t[1..]) != [] then [[t[0]] + Words(t[1..])[0]] + Words(t[1..])[1..]
    else [[t[0]]] + Words(t[1..])
  }

  predicate StartsWord(t: Text) { t != [] && IsWordUnit(t[0]) }

  predicate EndsWord(t: Text) { t != [] && IsWordUnit(t[|t| - 1]) }

  /** The same words, and separators at the same ends. */
  predicate SameOutline(s: Text, t: Text) {
    Words(s) == Words(t) && StartsWord(s) == StartsWord(t) && EndsWord(s) == EndsWord(t) && (s == [] <==> t == [])
  }

  /** The outline of a text follows from its first unit and the outline of the rest. */
  lemma OutlineOfCons(c: CodeUnit, s: Text, d: CodeUnit, t: Text)
    requires SameOutline(s, t) && (c == d || (!IsWordUnit(c) && !IsWordUnit(d)))
    ensures SameOutline([c] + s, [d] + t)
  {
    assert ([c] + s)[1..] == s && ([d] + t)[1..] == t;
    assert s != [] ==> ([c] + s)[|s|] == s[|s| - 1];
    assert t != [] ==> ([d] + t)[|t|] == t[|t| - 1];
  }

  /** A separator before another one shows only at the end. */
  lemma SeparatorsMerge(c: CodeUnit, s: Text)
    requires !IsWordUnit(c) && s != [] && !IsWordUnit(s[0])
    ensures SameOutline([c] + s, s)
  {
    assert ([c] + s)[1..] == s && ([c] + s)[|s|] == s[|s| - 1];
  }

  lemma BlanksSeparate(c: CodeUnit)
    ensures IsBlank(c) ==> !IsWordUnit(c)
    ensures !IsWordUnit(DASH)
  {}

  lemma {:induction false} BlankRunOutline(s: Text)
    requires s != [] && IsBlank(s[0])
    ensures SameOutline([DASH] + SkipBlankRun(s), s)
  {
    BlanksSeparate(s[0]);
    assert s == [s[0]] + s[1..];
    if |s| > 1 && IsBlank(s[1]) {
      BlankRunOutline(s[1..]);
      BlanksSeparate(s[1]);
      SeparatorsMerge(s[0], s[1..]);
    } else {
      OutlineOfCons(DASH, s[1..], s[0], s[1..]);
    }
  }

  lemma {:induction false} DashBlanksOutline(s: Text)
    ensures SameOutline(DashBlanks(s), s)
    decreases |s|
  {
    if s != [] {
      assert s == [s[0]] + s[1..];
      if IsBlank(s[0]) {
        DashBlanksOutline(SkipBlankRun(s));
        OutlineOfCons(DASH, DashBlanks(SkipBlankRun(s)), DASH, SkipBlankRun(s));
        BlankRunOutline(s);
      } else {
        DashBlanksOutline(s[1..]);
        OutlineOfCons(s[0], DashBlanks(s[1..]), s[0], s[1..]);
      }
    }
  }

  lemma {:induction false} DashOthersOutline(s: Text)
    ensures SameOutline(DashOthers(s), s)
  {
    if s != [] {
      assert s == [s[0]] + s[1..];
      DashOthersOutline(s[1..]);
      OutlineOfCons(if IsSlugUnit(s[0]) then s[0] else DASH, DashOthers(s[1..]), s[0], s[1..]);
    }
  }

  lemma {:induction false} CollapseOutline(s: Text)
    ensures SameOutline(CollapseDashes(s), s)
  {
    if s != [] {
      assert s == [s[0]] + s[1..];
      CollapseOutline(s[1..]);
      if |s| > 1 && s[0] == DASH && s[1] == DASH { SeparatorsMerge(s[0], s[1..]); }
      else { OutlineOfCons(s[0], CollapseDashes(s[1..]), s[0], s[1..]); }
    }
  }

  /** Among texts of key units without a double dash, the outline is the text. */
  lemma {:induction false} OutlineTells(s: Text, t: Text)
    requires AllSlug(s) && AllSlug(t) && NoDoubleDash(s) && NoDoubleDash(t) && SameOutline(s, t)
    ensures s == t
  {
    if s != [] {
      assert s == [s[0]] + s[1..] && t == [t[0]] + t[1..];
      assert forall i :: 0 <= i < |s[1..]| ==> s[1..][i] == s[i + 1];
      assert forall i :: 0 <= i < |t[1..]| ==> t[1..][i] == t[i + 1];
      WordsTell(s, t);
      OutlineTells(s[1..], t[1..]);
    }
  }

  lemma WordsTell(s: Text, t: Text)
    requires s != [] && t != [] && AllSlug(s) && AllSlug(t) && NoDoubleDash(s) && NoDoubleDash(t) && SameOutline(s, t)
    ensures s[0] == t[0] && SameOutline(s[1..], t[1..])
  {
    HeadWord(s);
    HeadWord(t);
  }

  /** What the first word says of the first unit and of the rest. */
  lemma HeadWord(s: Text)
    requires s != [] && AllSlug(s) && NoDoubleDash(s)
    ensures StartsWord(s) ==>
      && Words(s) != [] && Words(s)[0] != [] && Words(s)[0][0] == s[0]
      && Words(s[1..]) == (if |Words(s)[0]| > 1 then [Words(s)[0][1..]] + Words(s)[1..] else Words(s)[1..])
      && (StartsWord(s[1..]) <==> |Words(s)[0]| > 1)
    ensures !StartsWord(s) ==> s[0] == DASH && Words(s[1..]) == Words(s) && (s[1..] != [] ==> StartsWord(s[1..]))
  {
    if StartsWord(s[1..]) { NonEmptyWords(s[1..]); }
  }

  lemma {:induction false} NonEmptyWords(t: Text)
    ensures StartsWord(t) ==> Words(t) != []
    ensures forall i :: 0 <= i < |Words(t)| ==> Words(t)[i] != []
  {
    if t != [] { NonEmptyWords(t[1..]); }
  }

  /** The slug keeps the words of the text, trimmed and in lower case, and puts one dash wherever anything else
      stands between them or at an end; nothing else does that. */
  lemma SlugExactly(raw: Text, k: Text)
    ensures k == Slug(raw) <==> AllSlug(k) && NoDoubleDash(k) && SameOutline(k, ToLowerCase(Trim(raw)))
    ensures NormalizeGateKey(raw) == Some(k) <==>
      1 <= |k| <= 128 && k[0] !in {COLON, UNDERSCORE, DASH} && AllSlug(k) && NoDoubleDash(k) && SameOutline(k, ToLowerCase(Trim(raw)))
  {
    var t := ToLowerCase(Trim(raw));
    DashBlanksOutline(t);
    DashOthersOutline(DashBlanks(t));
    CollapseOutline(DashOthers(DashBlanks(t)));
    SlugShape(raw);
    if AllSlug(k) && NoDoubleDash(k) && SameOutline(k, t) { OutlineTells(k, Slug(raw)); }
  }
}
