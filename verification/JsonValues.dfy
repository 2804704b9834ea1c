/** JSON trees, their meaning with member order forgotten, and a reader for JSON text
    (RFC 8259, sections 2 to 7). */
module JsonValues {
  import opened JsText

  datatype Option<+T> = None | Some(value: T)

  /** A parsed JSON value. An object lists its members in some order, as `Object.entries` does.
      A number is kept as the text `JSON.stringify` prints for it. */
  datatype Json =
    | Null
    | Bool(b: bool)
    | Num(lexeme: Text)
    | Str(s: Text)
    | Arr(items: seq<Json>)
    | Obj(members: seq<Member>)

  datatype Member = Member(key: Text, val: Json)

  /** A JSON value with the order of object members forgotten. */
  datatype Value =
    | VNull
    | VBool(b: bool)
    | VNum(lexeme: Text)
    | VStr(s: Text)
    | VArr(items: seq<Value>)
    | VObj(fields: map<Text, Value>)

  function Meaning(j: Json): Value {
    match j
    case Null => VNull
    case Bool(b) => VBool(b)
    case Num(n) => VNum(n)
    case Str(s) => VStr(s)
    case Arr(xs) => VArr(Meanings(xs))
    case Obj(ms) => VObj(Fields(ms))
  }

  function Meanings(xs: seq<Json>): seq<Value> {
    if xs == [] then [] else [Meaning(xs[0])] + Meanings(xs[1..])
  }

  function Fields(ms: seq<Member>): map<Text, Value> {
    if ms == [] then map[] else Fields(ms[1..])[ms[0].key := Meaning(ms[0].val)]
  }

  /** `object[key]`; `None` is `undefined`. */
  function Lookup(ms: seq<Member>, key: Text): Option<Json> {
    if ms == [] then None else if ms[0].key == key then Some(ms[0].val) else Lookup(ms[1..], key)
  }

  function Keys(ms: seq<Member>): set<Text> { set i | 0 <= i < |ms| :: ms[i].key }

  predicate DistinctKeys(ms: seq<Member>) {
    forall i, j :: 0 <= i < j < |ms| ==> ms[i].key != ms[j].key
  }

  /** What `JSON.parse` returns: distinct keys in every object, every number text a number. */
  predicate WellFormed(j: Json) {
    match j
    case Num(n) => IsNumber(n)
    case Arr(xs) => forall i :: 0 <= i < |xs| ==> WellFormed(xs[i])
    case Obj(ms) => DistinctKeys(ms) && forall i :: 0 <= i < |ms| ==> WellFormed(ms[i].val)
    case _ => true
  }

  function Size(j: Json): nat {
    match j
    case Arr(xs) => 1 + SizeItems(xs)
    case Obj(ms) => 1 + SizeMembers(ms)
    case _ => 1
  }

  function SizeItems(xs: seq<Json>): nat {
    if xs == [] then 0 else Size(xs[0]) + SizeItems(xs[1..])
  }

  function SizeMembers(ms: seq<Member>): nat {
    if ms == [] then 0 else 1 + Size(ms[0].val) + SizeMembers(ms[1..])
  }

  // ----- numbers, RFC 8259 section 6 -----

  function LeadingDigits(t: Text): (n: nat)
    ensures n <= |t|
  {
    if t != [] && IsDigit(t[0]) then 1 + LeadingDigits(t[1..]) else 0
  }

  predicate IsExponent(t: Text) {
    || t == []
    || ((t[0] == 0x65 || t[0] == 0x45) &&
        var d := if |t| > 1 && (t[1] == PLUS || t[1] == DASH) then t[2..] else t[1..];
        d != [] && LeadingDigits(d) == |d|)
  }

  predicate IsFraction(t: Text) {
    if t != [] && t[0] == DOT then
      var n := LeadingDigits(t[1..]);
      n > 0 && IsExponent(t[1..][n..])
    else IsExponent(t)
  }

  predicate IsNumber(t: Text) {
    var a := if t != [] && t[0] == DASH then t[1..] else t;
    var n := LeadingDigits(a);
    n > 0 && (a[0] == 0x30 ==> n == 1) && IsFraction(a[n..])
  }

  predicate IsNumberUnit(c: CodeUnit) {
    IsDigit(c) || c == DASH || c == PLUS || c == DOT || c == 0x65 || c == 0x45
  }

  function NumberSpan(t: Text): (n: nat)
    ensures n <= |t|
  {
    if t != [] && IsNumberUnit(t[0]) then 1 + NumberSpan(t[1..]) else 0
  }

  // ----- strings, RFC 8259 section 7 -----

  function HexValue(c: CodeUnit): Option<nat> {
    if IsDigit(c) then Some((c - 0x30) as nat)
    else if 0x61 <= c <= 0x66 then Some((c - 0x61) as nat + 10)
    else if 0x41 <= c <= 0x46 then Some((c - 0x41) as nat + 10)
    else None
  }

  function HexQuad(t: Text): Option<CodeUnit>
    requires |t| >= 4
  {
    match (HexValue(t[0]), HexValue(t[1]), HexValue(t[2]), HexValue(t[3]))
    case (Some(a), Some(b), Some(c), Some(d)) =>
      var n := ((a * 16 + b) * 16 + c) * 16 + d;
      if n < 0x1_0000 then Some(n as CodeUnit) else None
    case _ => None
  }

  /** The unit a two-unit escape stands for. */
  function SimpleEscape(c: CodeUnit): Option<CodeUnit> {
    if c == QUOTE || c == BACKSLASH || c == SLASH then Some(c)
    else if c == 0x62 then Some(0x08)
    else if c == 0x66 then Some(0x0C)
    else if c == 0x6E then Some(0x0A)
    else if c == 0x72 then Some(0x0D)
    else if c == 0x74 then Some(0x09)
    else None
  }

  /** Reads the rest of a string literal after its opening quote. */
  function ReadString(t: Text): (r: Option<(Text, Text)>)
    ensures r.Some? ==> |r.value.1| < |t|
  {
    if t == [] || t[0] < 0x20 then None
    else if t[0] == QUOTE then Some(([], t[1..]))
    else if t[0] == BACKSLASH then
      if |t| >= 2 && SimpleEscape(t[1]).Some? then
        match ReadString(t[2..])
        case Some((s, rest)) => Some(([SimpleEscape(t[1]).value] + s, rest))
        case None => None
      else if |t| >= 6 && t[1] == 0x75 && HexQuad(t[2..]).Some? then
        match ReadString(t[6..])
        case Some((s, rest)) => Some(([HexQuad(t[2..]).value] + s, rest))
        case None => None
      else None
    else
      match ReadString(t[1..])
      case Some((s, rest)) => Some(([t[0]] + s, rest))
      case None => None
  }

  // ----- values, RFC 8259 sections 2 to 5 -----

  function SkipBlanks(t: Text): (r: Text)
    ensures |r| <= |t|
  {
    if t != [] && (t[0] == 0x20 || t[0] == 0x09 || t[0] == 0x0A || t[0] == 0x0D) then SkipBlanks(t[1..]) else t
  }

  /** Consumes one given unit, blanks allowed before it. */
  function Expect(t: Text, c: CodeUnit): (r: Option<Text>)
    ensures r.Some? ==> |r.value| < |t|
  {
    var s := SkipBlanks(t);
    if s != [] && s[0] == c then Some(s[1..]) else None
  }

  const NULL: Text := [0x6E, 0x75, 0x6C, 0x6C]
  const TRUE: Text := [0x74, 0x72, 0x75, 0x65]
  const FALSE: Text := [0x66, 0x61, 0x6C, 0x73, 0x65]

  function ReadLiteral(t: Text, word: Text, j: Json): (r: Option<(Json, Text)>)
    ensures r.Some? ==> word <= t && r.value == (j, t[|word|..])
  {
    if word <= t then Some((j, t[|word|..])) else None
  }

  function ReadNumber(t: Text): (r: Option<(Json, Text)>)
    ensures r.Some? ==> |r.value.1| < |t|
  {
    var n := NumberSpan(t);
    if IsNumber(t[..n]) then Some((Num(t[..n]), t[n..])) else None
  }

  function ReadValue(t: Text): (r: Option<(Json, Text)>)
    ensures r.Some? ==> |r.value.1| < |t|
    decreases |t|, 1
  {
    var s := SkipBlanks(t);
    if s == [] then None
    else if s[0] == NULL[0] then ReadLiteral(s, NULL, Null)
    else if s[0] == TRUE[0] then ReadLiteral(s, TRUE, Bool(true))
    else if s[0] == FALSE[0] then ReadLiteral(s, FALSE, Bool(false))
    else if s[0] == QUOTE then
      match ReadString(s[1..])
      case Some((x, rest)) => Some((Str(x), rest))
      case None => None
    else if s[0] == OPEN_BRACKET then ReadArray(s[1..])
    else if s[0] == OPEN_BRACE then ReadObject(s[1..])
    else ReadNumber(s)
  }

  /** Reads the rest of an array after its opening bracket. */
  function ReadArray(t: Text): (r: Option<(Json, Text)>)
    ensures r.Some? ==> |r.value.1| < |t|
    decreases |t|, 3
  {
    match Expect(t, CLOSE_BRACKET)
    case Some(rest) => Some((Arr([]), rest))
    case None =>
      match ReadItems(t)
      case Some((xs, rest)) => Some((Arr(xs), rest))
      case None => None
  }

  /** Reads the rest of an object after its opening brace. */
  function ReadObject(t: Text): (r: Option<(Json, Text)>)
    ensures r.Some? ==> |r.value.1| < |t|
    decreases |t|, 3
  {
    match Expect(t, CLOSE_BRACE)
    case Some(rest) => Some((Obj([]), rest))
    case None =>
      match ReadMembers(t)
      case Some((ms, rest)) => Some((Obj(ms), rest))
      case None => None
  }

  /** One or more items and the closing bracket. */
  function ReadItems(t: Text): (r: Option<(seq<Json>, Text)>)
    ensures r.Some? ==> |r.value.1| < |t|
    decreases |t|, 2
  {
    match ReadValue(t)
    case None => None
    case Some((x, rest)) =>
      match Expect(rest, CLOSE_BRACKET)
      case Some(end) => Some(([x], end))
      case None =>
        match Expect(rest, COMMA)
        case None => None
        case Some(more) =>
          match ReadItems(more)
          case Some((xs, end)) => Some(([x] + xs, end))
          case None => None
  }

  /** One or more members and the closing brace. */
  function ReadMembers(t: Text): (r: Option<(seq<Member>, Text)>)
    ensures r.Some? ==> |r.value.1| < |t|
    decreases |t|, 2
  {
    match ReadMember(t)
    case None => None
    case Some((m, rest)) =>
      match Expect(rest, CLOSE_BRACE)
      case Some(end) => Some(([m], end))
      case None =>
        match Expect(rest, COMMA)
        case None => None
        case Some(more) =>
          match ReadMembers(more)
          case Some((ms, end)) => Some(([m] + ms, end))
          case None => None
  }

  function ReadMember(t: Text): (r: Option<(Member, Text)>)
    ensures r.Some? ==> |r.value.1| < |t|
    decreases |t|, 0
  {
    match Expect(t, QUOTE)
    case None => None
    case Some(s) =>
      match ReadString(s)
      case None => None
      case Some((key, rest)) =>
        match Expect(rest, COLON)
        case None => None
        case Some(after) =>
          match ReadValue(after)
          case Some((v, end)) => Some((Member(key, v), end))
          case None => None
  }

  /** Reads a whole JSON text. */
  function Parse(t: Text): Option<Json> {
    match ReadValue(t)
    case Some((j, rest)) => if SkipBlanks(rest) == [] then Some(j) else None
    case None => None
  }
}
