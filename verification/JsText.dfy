/** JavaScript strings, as the sequences of UTF-16 code units the language defines them to be.
    Lone surrogates are ordinary values, so every string the program can hold is one of these. */
module JsText {

  newtype CodeUnit = u: int | 0 <= u < 0x1_0000

  type Text = seq<CodeUnit>

  const QUOTE: CodeUnit := 0x22
  const BACKSLASH: CodeUnit := 0x5C
  const COMMA: CodeUnit := 0x2C
  const COLON: CodeUnit := 0x3A
  const DASH: CodeUnit := 0x2D
  const PLUS: CodeUnit := 0x2B
  const DOT: CodeUnit := 0x2E
  const SLASH: CodeUnit := 0x2F
  const STAR: CodeUnit := 0x2A
  const QUESTION: CodeUnit := 0x3F
  const UNDERSCORE: CodeUnit := 0x5F
  const OPEN_BRACE: CodeUnit := 0x7B
  const CLOSE_BRACE: CodeUnit := 0x7D
  const OPEN_BRACKET: CodeUnit := 0x5B
  const CLOSE_BRACKET: CodeUnit := 0x5D

  predicate IsDigit(c: CodeUnit) { 0x30 <= c <= 0x39 }

  predicate IsLower(c: CodeUnit) { 0x61 <= c <= 0x7A }

  predicate IsUpper(c: CodeUnit) { 0x41 <= c <= 0x5A }

  predicate IsHighSurrogate(c: CodeUnit) { 0xD800 <= c <= 0xDBFF }

  predicate IsLowSurrogate(c: CodeUnit) { 0xDC00 <= c <= 0xDFFF }

  /** How many units the next code point takes: two for a surrogate pair. */
  function Width(s: Text): (n: nat)
    requires s != []
    ensures 1 <= n <= |s|
  {
    if |s| >= 2 && IsHighSurrogate(s[0]) && IsLowSurrogate(s[1]) then 2 else 1
  }

  /** LineTerminator of ECMA-262 section 12.3. */
  predicate IsLineTerminator(c: CodeUnit) { c == 0x0A || c == 0x0D || c == 0x2028 || c == 0x2029 }

  /** What `\s` and `trim` treat as blank: WhiteSpace and LineTerminator of ECMA-262
      sections 12.2 and 12.3. */
  predicate IsBlank(c: CodeUnit) {
    || 0x09 <= c <= 0x0D || c == 0x20 || c == 0xA0 || c == 0x1680 || 0x2000 <= c <= 0x200A
    || c == 0x2028 || c == 0x2029 || c == 0x202F || c == 0x205F || c == 0x3000 || c == 0xFEFF
  }

  function TrimStart(s: Text): Text {
    if s != [] && IsBlank(s[0]) then TrimStart(s[1..]) else s
  }

  function TrimEnd(s: Text): Text {
    if s != [] && IsBlank(s[|s| - 1]) then TrimEnd(s[..|s| - 1]) else s
  }

  function Trim(s: Text): Text { TrimEnd(TrimStart(s)) }

  /** The lower-case mapping of one code unit, exact wherever the result has an ASCII part:
      besides A to Z those are U+0130 (to `i` and a combining dot) and U+212A (to `k`).
      Every other unit is left alone; all callers drop or replace what is not ASCII. */
  function LowerUnit(c: CodeUnit): Text {
    if IsUpper(c) then [c + 0x20]
    else if c == 0x130 then [0x69, 0x307]
    else if c == 0x212A then [0x6B]
    else [c]
  }

  function ToLowerCase(s: Text): Text {
    if s == [] then [] else LowerUnit(s[0]) + ToLowerCase(s[1..])
  }

  /** `String(n)`. */
  function Decimal(n: nat): Text {
    (if n < 10 then [] else Decimal(n / 10)) + [0x30 + (n % 10) as CodeUnit]
  }

  /** Joins the parts with a one-unit separator. */
  function Join(parts: seq<Text>, separator: CodeUnit): Text {
    if parts == [] then []
    else if |parts| == 1 then parts[0]
    else parts[0] + [separator] + Join(parts[1..], separator)
  }

  /** `text.split(separator)`: the stretches between separators, at least one. */
  function Split(t: Text, separator: CodeUnit): (r: seq<Text>)
    ensures r != []
  {
    if t == [] then [[]]
    else
      var rest := Split(t[1..], separator);
      if t[0] == separator then [[]] + rest else [[t[0]] + rest[0]] + rest[1..]
  }
}
