/** Strings as the bytes they are hashed and stored as: UTF-8 (RFC 3629, section 3), a lone surrogate
    written as U+FFFD. */
module Utf8 {
  import opened JsText

  newtype Byte = b: int | 0 <= b < 256

  type Bytes = seq<Byte>

  const REPLACEMENT: CodeUnit := 0xFFFD

  predicate IsSurrogate(c: CodeUnit) { IsHighSurrogate(c) || IsLowSurrogate(c) }

  /** No surrogate stands alone. */
  predicate IsUnicode(t: Text)
    decreases |t|
  {
    t == [] || ((Width(t) == 1 ==> !IsSurrogate(t[0])) && IsUnicode(t[Width(t)..]))
  }

  /** What files and `text` columns hold. */
  type Unicode = t: Text | IsUnicode(t) witness []

  function ReplaceHead(t: Text): Text
    requires t != []
  {
    if Width(t) == 2 then [t[0], t[1]] else if IsSurrogate(t[0]) then [REPLACEMENT] else [t[0]]
  }

  /** The text a reader of the bytes gets back. */
  function ReplaceLone(t: Text): (r: Text)
    ensures IsUnicode(r)
    decreases |t|
  {
    if t == [] then []
    else
      var rest := ReplaceLone(t[Width(t)..]);
      var r := ReplaceHead(t) + rest;
      assert r[Width(r)..] == rest;
      r
  }

  // ----- the encoding -----

  /** The code point at the head. */
  function Scalar(t: Text): (c: nat)
    requires t != []
    ensures c < 0x11_0000
  {
    if Width(t) == 2 then 0x1_0000 + (t[0] as int - 0xD800) * 0x400 + (t[1] as int - 0xDC00)
    else ReplaceHead(t)[0] as int
  }

  function Tail(n: nat): Byte
    requires n < 64
  {
    0x80 + n as Byte
  }

  function EncodeScalar(c: nat): (r: Bytes)
    requires c < 0x11_0000
    ensures r != []
  {
    var q := c / 64;
    if c < 0x80 then [c as Byte]
    else if c < 0x800 then [0xC0 + q as Byte, Tail(c % 64)]
    else if c < 0x1_0000 then [0xE0 + (q / 64) as Byte, Tail(q % 64), Tail(c % 64)]
    else [0xF0 + (q / 64 / 64) as Byte, Tail(q / 64 % 64), Tail(q % 64), Tail(c % 64)]
  }

  function Encode(t: Text): Bytes
    decreases |t|
  {
    if t == [] then [] else EncodeScalar(Scalar(t)) + Encode(t[Width(t)..])
  }

  // ----- reading it back -----

  /** How many bytes the first one announces. */
  function Length(b: Byte): nat { if b < 0x80 then 1 else if b < 0xE0 then 2 else if b < 0xF0 then 3 else 4 }

  function DecodeScalar(r: Bytes): int
    requires r != [] && |r| >= Length(r[0])
  {
    if r[0] < 0x80 then r[0] as int
    else if r[0] < 0xE0 then (r[0] as int - 0xC0) * 64 + (r[1] as int - 0x80)
    else if r[0] < 0xF0 then ((r[0] as int - 0xE0) * 64 + (r[1] as int - 0x80)) * 64 + (r[2] as int - 0x80)
    else (((r[0] as int - 0xF0) * 64 + (r[1] as int - 0x80)) * 64 + (r[2] as int - 0x80)) * 64 + (r[3] as int - 0x80)
  }

  lemma EncodedReadsBack(c: nat, rest: Bytes)
    requires c < 0x11_0000
    ensures |EncodeScalar(c)| == Length((EncodeScalar(c) + rest)[0])
    ensures DecodeScalar(EncodeScalar(c) + rest) == c
  {}

  /** The shortest of the forms of RFC 3629 section 3: one to four bytes by the size of the scalar, the bytes
      after the first between 0x80 and 0xBF, and the scalar read off them again. */
  lemma EncodedWell(c: nat)
    requires c < 0x11_0000
    ensures
      var e := EncodeScalar(c);
      && |e| == (if c < 0x80 then 1 else if c < 0x800 then 2 else if c < 0x1_0000 then 3 else 4)
      && |e| == Length(e[0]) && DecodeScalar(e) == c && forall i :: 1 <= i < |e| ==> 0x80 <= e[i] < 0xC0
  {
    EncodedReadsBack(c, []);
    assert EncodeScalar(c) + [] == EncodeScalar(c);
  }

  lemma EncodeScalarSplits(c: nat, x: Bytes, d: nat, y: Bytes)
    requires c < 0x11_0000 && d < 0x11_0000 && EncodeScalar(c) + x == EncodeScalar(d) + y
    ensures c == d && x == y
  {
    EncodedReadsBack(c, x);
    EncodedReadsBack(d, y);
    assert (EncodeScalar(c) + x)[|EncodeScalar(c)|..] == x && (EncodeScalar(d) + y)[|EncodeScalar(d)|..] == y;
  }

  lemma ScalarTellsHead(s: Text, t: Text)
    requires s != [] && t != [] && Scalar(s) == Scalar(t)
    ensures ReplaceHead(s) == ReplaceHead(t)
  {}

  lemma {:induction false} ReplacingKeepsBytes(t: Text)
    ensures Encode(ReplaceLone(t)) == Encode(t)
    decreases |t|
  {
    if t != [] {
      var rest := ReplaceLone(t[Width(t)..]);
      ReplacingKeepsBytes(t[Width(t)..]);
      var r := ReplaceHead(t) + rest;
      assert r[Width(r)..] == rest && Scalar(r) == Scalar(t);
    }
  }

  lemma {:induction false} BytesTellText(s: Text, t: Text)
    requires Encode(s) == Encode(t)
    ensures ReplaceLone(s) == ReplaceLone(t)
    decreases |s|
  {
    if s != [] && t != [] {
      EncodeScalarSplits(Scalar(s), Encode(s[Width(s)..]), Scalar(t), Encode(t[Width(t)..]));
      ScalarTellsHead(s, t);
      BytesTellText(s[Width(s)..], t[Width(t)..]);
    }
  }

  /** Two strings have the same bytes exactly when they are equal after replacing lone surrogates. */
  lemma BytesAgreeExactly(s: Text, t: Text)
    ensures Encode(s) == Encode(t) <==> ReplaceLone(s) == ReplaceLone(t)
  {
    ReplacingKeepsBytes(s);
    ReplacingKeepsBytes(t);
    if Encode(s) == Encode(t) { BytesTellText(s, t); }
  }

  lemma {:induction false} UnicodeStays(t: Text)
    requires IsUnicode(t)
    ensures ReplaceLone(t) == t
    decreases |t|
  {
    if t != [] {
      UnicodeStays(t[Width(t)..]);
      assert t == t[..Width(t)] + t[Width(t)..];
    }
  }

  lemma {:induction false} UnicodeJoins(s: Text, t: Text)
    requires IsUnicode(s) && IsUnicode(t)
    ensures IsUnicode(s + t)
    decreases |s|
  {
    if s == [] {
      assert s + t == t;
    } else {
      UnicodeJoins(s[Width(s)..], t);
      assert Width(s + t) == Width(s);
      assert (s + t)[Width(s)..] == s[Width(s)..] + t;
    }
  }

  // ----- hashing -----

  type Hash = Bytes -> Text

  /** No two byte strings share a hash. */
  ghost predicate Injective(sha: Hash) { forall x, y :: sha(x) == sha(y) ==> x == y }

  /** `createHash("sha256").update(text).digest("hex")`. */
  function HashText(sha: Hash, t: Text): Text { sha(Encode(t)) }

  lemma HashesAgreeExactly(sha: Hash, s: Text, t: Text)
    requires Injective(sha)
    ensures HashText(sha, s) == HashText(sha, t) <==> ReplaceLone(s) == ReplaceLone(t)
  {
    BytesAgreeExactly(s, t);
  }

  /** Texts without lone surrogates have hashes of their own. */
  lemma UnicodeHashesTell(sha: Hash, s: Text, t: Text)
    requires Injective(sha) && IsUnicode(s) && IsUnicode(t)
    ensures HashText(sha, s) == HashText(sha, t) <==> s == t
  {
    HashesAgreeExactly(sha, s, t);
    UnicodeStays(s);
    UnicodeStays(t);
  }

  lemma ReplaceOne(c: CodeUnit)
    ensures ReplaceLone([c]) == if IsSurrogate(c) then [REPLACEMENT] else [c]
  {
    assert [c][1..] == [];
  }

  function TextHash(sha: Hash): Text -> Text { t => HashText(sha, t) }

  /** What hashing text tells: everything but which surrogate stood alone. */
  ghost predicate Tells(hash: Text -> Text) {
    && (forall t :: hash(ReplaceLone(t)) == hash(t))
    && forall s: Unicode, t: Unicode :: hash(s) == hash(t) ==> s == t
  }

  lemma TextHashTells(sha: Hash)
    requires Injective(sha)
    ensures Tells(TextHash(sha))
  {
    forall t ensures TextHash(sha)(ReplaceLone(t)) == TextHash(sha)(t) { ReplacingKeepsBytes(t); }
    forall s: Unicode, t: Unicode | TextHash(sha)(s) == TextHash(sha)(t) ensures s == t { UnicodeHashesTell(sha, s, t); }
  }

  /** All lone surrogates have one hash, whatever the hash function. */
  lemma LoneSurrogatesCollide(sha: Hash, c: CodeUnit, d: CodeUnit)
    requires IsSurrogate(c) && IsSurrogate(d)
    ensures HashText(sha, [c]) == HashText(sha, [d]) == HashText(sha, [REPLACEMENT])
  {
    ReplaceOne(c);
    ReplaceOne(d);
    ReplaceOne(REPLACEMENT);
    BytesAgreeExactly([c], [REPLACEMENT]);
    BytesAgreeExactly([d], [REPLACEMENT]);
  }
}
