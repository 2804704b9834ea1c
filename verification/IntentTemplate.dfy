/** Turning a recipe's template and a form into an intent: defaults filled in, `{{ path }}` holes
    looked up and rendered. `None` stands for every error the source throws. */
module IntentTemplate {
  import opened JsText
  import opened Utf8
  import opened JsonValues
  import opened StableSort
  import opened CanonicalJson

  // "properties", "default", "formData", "constraints", "stepLibrary", "primitives"
  const PROPERTIES: Text := [0x70, 0x72, 0x6F, 0x70, 0x65, 0x72, 0x74, 0x69, 0x65, 0x73]
  const DEFAULT: Text := [0x64, 0x65, 0x66, 0x61, 0x75, 0x6C, 0x74]
  const FORM_DATA: Text := [0x66, 0x6F, 0x72, 0x6D, 0x44, 0x61, 0x74, 0x61]
  const CONSTRAINTS: Text := [0x63, 0x6F, 0x6E, 0x73, 0x74, 0x72, 0x61, 0x69, 0x6E, 0x74, 0x73]
  const STEP_LIBRARY: Text := [0x73, 0x74, 0x65, 0x70, 0x4C, 0x69, 0x62, 0x72, 0x61, 0x72, 0x79]
  const PRIMITIVES: Text := [0x70, 0x72, 0x69, 0x6D, 0x69, 0x74, 0x69, 0x76, 0x65, 0x73]
  // "[object Object]"
  const OBJECT_TEXT: Text :=
    [0x5B, 0x6F, 0x62, 0x6A, 0x65, 0x63, 0x74, 0x20, 0x4F, 0x62, 0x6A, 0x65, 0x63, 0x74, 0x5D]

  // ----- defaults -----

  function IndexEntries(xs: seq<Json>, from: nat): seq<Member> {
    if xs == [] then [] else [Member(Decimal(from), xs[0])] + IndexEntries(xs[1..], from + 1)
  }

  /** `Object.entries` of the schema's properties; an array counts, with its indexes as keys. */
  function PropertyEntries(schema: seq<Member>): seq<Member> {
    match Lookup(schema, PROPERTIES)
    case Some(Obj(ms)) => ms
    case Some(Arr(xs)) => IndexEntries(xs, 0)
    case _ => []
  }

  /** The default a property declares, if it is an object that has one. */
  function DefaultOf(prop: Json): Option<Json> {
    if prop.Obj? then Lookup(prop.members, DEFAULT) else None
  }

  function FillDefaults(entries: seq<Member>, form: seq<Member>): seq<Member> {
    if entries == [] then form
    else
      var e := entries[0];
      var next := if Lookup(form, e.key).None? && DefaultOf(e.val).Some? then form + [Member(e.key, DefaultOf(e.val).value)] else form;
      FillDefaults(entries[1..], next)
  }

  method ApplySchemaDefaults(schema: seq<Member>, form: seq<Member>) returns (next: seq<Member>)
    ensures next == FillDefaults(PropertyEntries(schema), form)
  {
    next := form;
    var entries := PropertyEntries(schema);
    for k := 0 to |entries|
      invariant FillDefaults(entries[k..], next) == FillDefaults(entries, form)
    {
      assert entries[k..][1..] == entries[k + 1..];
      if Lookup(next, entries[k].key).Some? { continue; }
      if !entries[k].val.Obj? { continue; }
      if Lookup(entries[k].val.members, DEFAULT).None? { continue; }
      next := next + [Member(entries[k].key, Lookup(entries[k].val.members, DEFAULT).value)];
    }
  }

  // ----- paths -----

  function Segments(path: Text): seq<Text> { Split(path, DOT) }

  /** `None` is `undefined`: a segment of something that is no object, or of no such key. */
  function Follow(current: Json, segments: seq<Text>): Option<Json>
    decreases |segments|
  {
    if segments == [] then Some(current)
    else if !current.Obj? then None
    else
      match Lookup(current.members, segments[0])
      case None => None
      case Some(next) => Follow(next, segments[1..])
  }

  method ReadPath(root: Json, path: Text) returns (found: Option<Json>)
    ensures found == Follow(root, Segments(path))
  {
    var segments := Segments(path);
    var current := root;
    for k := 0 to |segments|
      invariant Follow(current, segments[k..]) == Follow(root, segments)
    {
      assert segments[k..][1..] == segments[k + 1..];
      if !current.Obj? { return None; }
      var next := Lookup(current.members, segments[k]);
      if next.None? { return None; }
      current := next.value;
    }
    return Some(current);
  }

  // ----- rendering -----

  /** `String(value)`: an array joins its items, a null item as nothing; an object says only that. */
  function StringOf(j: Json): Text {
    match j
    case Null => NULL
    case Bool(b) => if b then TRUE else FALSE
    case Num(n) => n
    case Str(s) => s
    case Arr(xs) => JoinItems(xs)
    case Obj(_) => OBJECT_TEXT
  }

  function JoinItems(xs: seq<Json>): Text {
    if xs == [] then []
    else
      var first := if xs[0].Null? then [] else StringOf(xs[0]);
      if |xs| == 1 then first else first + [COMMA] + JoinItems(xs[1..])
  }

  predicate IsPathUnit(c: CodeUnit) { IsLower(c) || IsUpper(c) || IsDigit(c) || c == UNDERSCORE || c == DOT }

  function PathSpan(t: Text): (n: nat)
    ensures n <= |t|
  {
    if t != [] && IsPathUnit(t[0]) then 1 + PathSpan(t[1..]) else 0
  }

  /** `\{\{\s*([a-zA-Z0-9_.]+)\s*\}\}` at the head of the text: the path and what follows. Blanks and
      path units are disjoint, so the match is the only one. */
  function HoleAt(t: Text): (r: Option<(Text, Text)>)
    ensures r.Some? ==> |r.value.1| < |t|
  {
    if |t| < 2 || t[0] != OPEN_BRACE || t[1] != OPEN_BRACE then None
    else
      var body := TrimStart(t[2..]);
      TrimStartShrinks(t[2..]);
      var n := PathSpan(body);
      var close := TrimStart(body[n..]);
      TrimStartShrinks(body[n..]);
      if n > 0 && |close| >= 2 && close[0] == CLOSE_BRACE && close[1] == CLOSE_BRACE then Some((body[..n], close[2..])) else None
  }

  lemma {:induction false} TrimStartShrinks(t: Text)
    ensures |TrimStart(t)| <= |t|
  {
    if t != [] { TrimStartShrinks(t[1..]); }
  }

  /** Replaces every hole, leftmost first, by the text of what its path finds. */
  function RenderText(t: Text, scope: Json): Option<Text>
    decreases |t|
  {
    if t == [] then Some([])
    else
      match HoleAt(t)
      case None =>
        (match RenderText(t[1..], scope) case None => None case Some(rest) => Some([t[0]] + rest))
      case Some((path, after)) =>
        match Follow(scope, Segments(path))
        case None => None
        case Some(found) => match RenderText(after, scope) case None => None case Some(rest) => Some(StringOf(found) + rest)
  }

  /** A string that is one whole hole renders to the value itself, any other string to text. */
  function RenderValue(le: Collation, v: Json, scope: Json): Option<Json>
    decreases v
  {
    match v
    case Str(s) =>
      if HoleAt(s).Some? && HoleAt(s).value.1 == [] then
        match Follow(scope, Segments(HoleAt(s).value.0))
        case None => None
        case Some(found) => Parse(Canonicalize(le, found))
      else (match RenderText(s, scope) case None => None case Some(t) => Some(Str(t)))
    case Arr(xs) => (match RenderItems(le, xs, scope) case None => None case Some(ys) => Some(Arr(ys)))
    case Obj(ms) => (match RenderMembers(le, ms, scope) case None => None case Some(ns) => Some(Obj(ns)))
    case _ => Some(v)
  }

  function RenderItems(le: Collation, xs: seq<Json>, scope: Json): Option<seq<Json>>
    decreases xs
  {
    if xs == [] then Some([])
    else
      match (RenderValue(le, xs[0], scope), RenderItems(le, xs[1..], scope))
      case (Some(y), Some(ys)) => Some([y] + ys)
      case _ => None
  }

  function RenderMembers(le: Collation, ms: seq<Member>, scope: Json): Option<seq<Member>>
    decreases ms
  {
    if ms == [] then Some([])
    else
      match (RenderValue(le, ms[0].val, scope), RenderMembers(le, ms[1..], scope))
      case (Some(y), Some(ns)) => Some([Member(ms[0].key, y)] + ns)
      case _ => None
  }

  // ----- the intent -----

  /** `{ ...object, key: value }`. */
  function SetMember(ms: seq<Member>, key: Text, val: Json): seq<Member> {
    if ms == [] then [Member(key, val)]
    else if ms[0].key == key then [Member(key, val)] + ms[1..]
    else [ms[0]] + SetMember(ms[1..], key, val)
  }

  /** The step library's primitive names, in the order the source lists them. */
  const STEP_LIBRARY_PRIMITIVES: seq<Text> := [
    [0x43, 0x6F, 0x6C, 0x6C, 0x65, 0x63, 0x74],             // Collect
    [0x46, 0x65, 0x74, 0x63, 0x68],                         // Fetch
    [0x45, 0x78, 0x74, 0x72, 0x61, 0x63, 0x74],             // Extract
    [0x4E, 0x6F, 0x72, 0x6D, 0x61, 0x6C, 0x69, 0x7A, 0x65], // Normalize
    [0x44, 0x65, 0x63, 0x69, 0x64, 0x65],                   // Decide
    [0x41, 0x63, 0x74],                                     // Act
    [0x52, 0x65, 0x70, 0x6F, 0x72, 0x74],                   // Report
    [0x4C, 0x65, 0x67, 0x61, 0x63, 0x79]                    // Legacy
  ]

  function Strings(texts: seq<Text>): seq<Json> {
    if texts == [] then [] else [Str(texts[0])] + Strings(texts[1..])
  }

  predicate AreCanonicalPrimitives(xs: seq<Json>) {
    forall i :: 0 <= i < |xs| ==> xs[i].Str? && xs[i].s in STEP_LIBRARY_PRIMITIVES
  }

  /** The list the constraints name, all the primitives if they name none. */
  function ResolveStepLibrary(constraints: seq<Member>): Option<seq<Json>> {
    match Lookup(constraints, STEP_LIBRARY)
    case Some(Obj(ms)) =>
      (match Lookup(ms, PRIMITIVES)
       case Some(Arr(xs)) => if xs != [] && AreCanonicalPrimitives(xs) then Some(xs) else None
       case _ => None)
    case _ => Some(Strings(STEP_LIBRARY_PRIMITIVES))
  }

  /** The stored recipe's part that matters here. */
  datatype Recipe = Recipe(formSchema: seq<Member>, intentTmpl: Json)

  /** `valid` is the intent contract; whatever it is, it looks at a value and not at member order. */
  function InstantiateIntent(le: Collation, valid: Value -> bool, recipe: Recipe, formData: Json): Option<Json> {
    if !formData.Obj? then None
    else
      var filled := FillDefaults(PropertyEntries(recipe.formSchema), formData.members);
      var scope := Obj([Member(FORM_DATA, Obj(filled))]);
      match RenderValue(le, recipe.intentTmpl, scope)
      case None => None
      case Some(rendered) =>
        match Parse(Canonicalize(le, rendered))
        case None => None
        case Some(intent) => if valid(Meaning(intent)) then WithStepLibrary(intent) else None
  }

  function WithStepLibrary(intent: Json): Option<Json> {
    if !intent.Obj? then None
    else
      match Lookup(intent.members, CONSTRAINTS)
      case Some(Obj(constraints)) =>
        (match ResolveStepLibrary(constraints)
         case None => None
         case Some(primitives) =>
           var library := Obj([Member(PRIMITIVES, Arr(primitives))]);
           Some(Obj(SetMember(intent.members, CONSTRAINTS, Obj(SetMember(constraints, STEP_LIBRARY, library))))))
      case _ => None
  }

  /** `intentHash`: the digest of the intent's canonical text. */
  function IntentHash(sha: Hash, le: Collation, valid: Value -> bool, recipe: Recipe, formData: Json): Option<Text> {
    match InstantiateIntent(le, valid, recipe, formData)
    case None => None
    case Some(intent) => Some(Sha256(sha, le, Raw(Canonicalize(le, intent))))
  }
}
