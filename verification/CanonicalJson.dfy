/** The canonical JSON printer every identity and idempotency check goes through. */
module CanonicalJson {
  import opened JsText
  import opened Utf8
  import opened JsonValues
  import opened StableSort

  // ----- JSON.stringify on strings, ECMA-262 section 25.5.2.3 -----

  function HexDigit(n: nat): CodeUnit
    requires n < 16
  {
    if n < 10 then 0x30 + n as CodeUnit else 0x57 + n as CodeUnit
  }

  function UnicodeEscape(c: CodeUnit): Text {
    var n := c as int;
    [BACKSLASH, 0x75, HexDigit(n / 4096), HexDigit(n / 256 % 16), HexDigit(n / 16 % 16), HexDigit(n % 16)]
  }

  function EscapeUnit(c: CodeUnit): Text {
    if c == 0x08 then [BACKSLASH, 0x62]
    else if c == 0x09 then [BACKSLASH, 0x74]
    else if c == 0x0A then [BACKSLASH, 0x6E]
    else if c == 0x0C then [BACKSLASH, 0x66]
    else if c == 0x0D then [BACKSLASH, 0x72]
    else if c == QUOTE || c == BACKSLASH then [BACKSLASH, c]
    else if c < 0x20 || IsHighSurrogate(c) || IsLowSurrogate(c) then UnicodeEscape(c)
    else [c]
  }

  /** A surrogate pair is printed as it is, a lone surrogate as an escape. */
  function EscapeHead(s: Text): Text
    requires s != []
  {
    if Width(s) == 2 then [s[0], s[1]] else EscapeUnit(s[0])
  }

  function Escape(s: Text): Text
    decreases |s|
  {
    if s == [] then [] else EscapeHead(s) + Escape(s[Width(s)..])
  }

  function Quote(s: Text): Text { [QUOTE] + Escape(s) + [QUOTE] }

  // ----- the printer -----

  function MemberKey(m: Member): Text { m.key }

  /** `Object.entries(value).sort(([a], [b]) => a.localeCompare(b))` */
  function SortMembers(le: Collation, ms: seq<Member>): seq<Member> { Sort(le, MemberKey, ms) }

  function Canonicalize(le: Collation, j: Json): Text
    decreases Size(j), 0
  {
    match j
    case Null => NULL
    case Bool(b) => if b then TRUE else FALSE
    case Num(n) => n
    case Str(s) => Quote(s)
    case Arr(xs) => [OPEN_BRACKET] + Join(CanonicalItems(le, xs), COMMA) + [CLOSE_BRACKET]
    case Obj(ms) =>
      SortKeepsSize(le, ms);
      [OPEN_BRACE] + Join(CanonicalMembers(le, SortMembers(le, ms)), COMMA) + [CLOSE_BRACE]
  }

  function CanonicalItems(le: Collation, xs: seq<Json>): (r: seq<Text>)
    ensures |r| == |xs|
    decreases SizeItems(xs), |xs|
  {
    if xs == [] then [] else [Canonicalize(le, xs[0])] + CanonicalItems(le, xs[1..])
  }

  function CanonicalMembers(le: Collation, ms: seq<Member>): (r: seq<Text>)
    ensures |r| == |ms|
    decreases SizeMembers(ms), |ms|
  {
    if ms == [] then []
    else [CanonicalMember(le, ms[0])] + CanonicalMembers(le, ms[1..])
  }

  function CanonicalMember(le: Collation, m: Member): Text
    decreases Size(m.val), 1
  {
    Quote(m.key) + [COLON] + Canonicalize(le, m.val)
  }

  lemma {:induction false} InsertKeepsSize(le: Collation, m: Member, ms: seq<Member>)
    ensures SizeMembers(Insert(le, MemberKey, m, ms)) == SizeMembers([m] + ms)
  {
    if ms != [] && !le(m.key, ms[0].key) {
      InsertKeepsSize(le, m, ms[1..]);
    }
  }

  lemma SortKeepsSize(le: Collation, ms: seq<Member>)
    ensures SizeMembers(SortMembers(le, ms)) == SizeMembers(ms)
  {
    if ms != [] {
      SortKeepsSize(le, ms[1..]);
      InsertKeepsSize(le, ms[0], SortMembers(le, ms[1..]));
    }
  }

  // ----- digests -----

  /** What `sha256` is given: a string is hashed as it is, anything else through its canonical text. */
  datatype Content = Raw(text: Text) | Tree(json: Json)

  function Sha256(sha: Hash, le: Collation, content: Content): Text {
    match content
    case Raw(s) => HashText(sha, s)
    case Tree(j) => HashText(sha, Canonicalize(le, j))
  }

  // ----- the tree the printed text spells out -----

  /** The same tree with every object's members in printing order. */
  function Sorted(le: Collation, j: Json): Json
    decreases Size(j), 0
  {
    match j
    case Arr(xs) => Arr(SortedItems(le, xs))
    case Obj(ms) =>
      SortKeepsSize(le, ms);
      Obj(SortedMembers(le, SortMembers(le, ms)))
    case _ => j
  }

  function SortedItems(le: Collation, xs: seq<Json>): (r: seq<Json>)
    ensures |r| == |xs|
    decreases SizeItems(xs), |xs|
  {
    if xs == [] then [] else [Sorted(le, xs[0])] + SortedItems(le, xs[1..])
  }

  function SortedMembers(le: Collation, ms: seq<Member>): (r: seq<Member>)
    ensures |r| == |ms|
    decreases SizeMembers(ms), |ms|
  {
    if ms == [] then []
    else [Member(ms[0].key, Sorted(le, ms[0].val))] + SortedMembers(le, ms[1..])
  }
}
