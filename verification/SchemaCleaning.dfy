// What the JSON Schema cleaner computes, as functions on JSON values.
// The recursion follows the source: inlining a reference moves to a definition
// with that reference on the stack, everything else moves to a smaller value.
module SchemaCleaning {
  import opened Wrappers
  import opened Json
  import JsonPointer

  datatype Strategy = Gemini | Anthropic | OpenAI | Conservative {

    function Unsupported(): set<string> {
      match this
      case Gemini => GEMINI_UNSUPPORTED
      case Anthropic => {"$ref", "$defs", "definitions"}
      case OpenAI => {}
      case Conservative => {"$ref", "$defs", "definitions", "additionalProperties"}
    }
  }

  const GEMINI_UNSUPPORTED: set<string> := {
    "$ref", "$schema", "$id", "$defs", "definitions",
    "additionalProperties", "patternProperties",
    "minLength", "maxLength", "pattern", "format",
    "minimum", "maximum", "multipleOf",
    "minItems", "maxItems", "uniqueItems",
    "minProperties", "maxProperties", "examples"
  }

  const META_KEYS: seq<string> := ["description", "title", "default"]

  type Fields = map<string, Json>

  // What stays fixed during one cleaning: the collected definitions and the strategy.
  datatype Context = Context(defs: Fields, strategy: Strategy)

  // ---------------------------------------------------------------- references

  function DefsUnder(o: Fields, key: string): Fields {
    if key in o && o[key].Obj? then o[key].fields else map[]
  }

  // `extract_defs`: entries of "definitions" are inserted last and win.
  function ExtractDefs(o: Fields): Fields {
    DefsUnder(o, "$defs") + DefsUnder(o, "definitions")
  }

  function StripPrefix(s: string, prefix: string): Option<string> {
    if prefix <= s then Some(s[|prefix|..]) else None
  }

  function ParseLocalRef(ref: string): Option<string> {
    match StripPrefix(ref, "#/$defs/")
    case Some(segment) => Some(JsonPointer.Decode(segment))
    case None =>
      match StripPrefix(ref, "#/definitions/")
      case Some(segment) => Some(JsonPointer.Decode(segment))
      case None => None
  }

  lemma ParseOfLocalRef(key: string, segment: string)
    requires key == "$defs" || key == "definitions"
    ensures ParseLocalRef("#/" + key + "/" + segment) == Some(JsonPointer.Decode(segment))
  {
    var ref := "#/" + key + "/" + segment;
    if key == "$defs" {
      assert ref == "#/$defs/" + segment;
      assert ref[|"#/$defs/"|..] == segment;
    } else {
      assert ref == "#/definitions/" + segment;
      assert ref[2] == 'd';
      assert !("#/$defs/" <= ref);
      assert ref[|"#/definitions/"|..] == segment;
    }
  }

  // The reference leads to a collected definition.
  predicate Resolves(ref: string, defs: Fields) {
    var name := ParseLocalRef(ref);
    name.Some? && name.value in defs
  }

  function Definition(ref: string, defs: Fields): Json
    requires Resolves(ref, defs)
  {
    defs[ParseLocalRef(ref).value]
  }

  // ------------------------------------------------------- termination measure

  // Every string that occurs under a "$ref" member, at any depth.
  ghost function Refs(j: Json): set<string> {
    match j
    case Obj(o) =>
      (if HasString(o, "$ref") then {o["$ref"].s} else {}) + (set k, r | k in o && r in Refs(o[k]) :: r)
    case Arr(items) => set i, r | 0 <= i < |items| && r in Refs(items[i]) :: r
    case _ => {}
  }

  ghost function DefRefs(defs: Fields): set<string> {
    set k, r | k in defs && r in Refs(defs[k]) :: r
  }

  // The references that may still be inlined below `j`.  Following one of them
  // removes it for good, so cyclic definitions cannot recurse for ever.
  ghost function Open(j: Json, c: Context, stack: set<string>): set<string> {
    (Refs(j) + DefRefs(c.defs)) - stack
  }

  // ----------------------------------------------------------- small operations

  // Metadata of `source` that `preserve_meta` writes over the target.
  function Meta(source: Fields): Fields {
    map k | k in META_KEYS && k in source :: source[k]
  }

  function PreserveMeta(source: Fields, target: Json): Json {
    match target
    case Obj(o) => Obj(o + Meta(source))
    case _ => target
  }

  predicate IsNullSchema(v: Json) {
    v.Obj? &&
    var o := v.fields;
    || ("const" in o && o["const"] == Null)
    || (HasArray(o, "enum") && o["enum"].items == [Null])
    || ("type" in o && o["type"] == Str("null"))
  }

  function NonNull(variants: seq<Json>): seq<Json> {
    if variants == [] then []
    else (if IsNullSchema(variants[0]) then [] else [variants[0]]) + NonNull(variants[1..])
  }

  // The literal a variant pins down, from `const` or a one-element `enum`.
  function LiteralOf(v: Json): Option<Json> {
    if !v.Obj? then None
    else if "const" in v.fields then Some(v.fields["const"])
    else if HasArray(v.fields, "enum") && |v.fields["enum"].items| == 1 then Some(v.fields["enum"].items[0])
    else None
  }

  predicate IsLiteral(v: Json) {
    LiteralOf(v).Some? && HasString(v.fields, "type")
  }

  function TypeName(v: Json): string
    requires IsLiteral(v)
  {
    v.fields["type"].s
  }

  predicate FlattensToEnum(variants: seq<Json>) {
    && variants != []
    && (forall i | 0 <= i < |variants| :: IsLiteral(variants[i]))
    && (forall i | 0 <= i < |variants| :: TypeName(variants[i]) == TypeName(variants[0]))
  }

  function EnumOf(variants: seq<Json>): Json
    requires FlattensToEnum(variants)
  {
    Obj(map[
      "type" := Str(TypeName(variants[0])),
      "enum" := Arr(seq(|variants|, i requires 0 <= i < |variants| => LiteralOf(variants[i]).value))])
  }

  // `try_simplify_union` after the variants were cleaned: one survivor, one enum, or no change.
  function UnionDecision(cleaned: seq<Json>): Option<Json> {
    var kept := NonNull(cleaned);
    if |kept| == 1 then Some(kept[0])
    else if FlattensToEnum(kept) then Some(EnumOf(kept))
    else None
  }

  function WithoutNullType(types: seq<Json>): seq<Json> {
    if types == [] then []
    else (if types[0] == Str("null") then [] else [types[0]]) + WithoutNullType(types[1..])
  }

  function CleanTypeArray(types: seq<Json>): Json {
    var kept := WithoutNullType(types);
    if |kept| == 0 then Str("null") else if |kept| == 1 then kept[0] else Arr(kept)
  }

  predicate HasUnion(o: Fields) {
    "anyOf" in o || "oneOf" in o
  }

  function UnionKey(o: Fields): string {
    if "anyOf" in o then "anyOf" else "oneOf"
  }

  // ------------------------------------------------------------------ cleaning

  function Clean(j: Json, c: Context, stack: set<string>): Json
    decreases Open(j, c, stack), j, 4
  {
    match j
    case Obj(o) => CleanObject(o, c, stack)
    case Arr(items) => Arr(CleanAll(items, c, stack))
    case _ => j
  }

  function CleanAll(items: seq<Json>, c: Context, stack: set<string>): (r: seq<Json>)
    ensures |r| == |items|
    decreases Open(Arr(items), c, stack), Arr(items), 1
  {
    seq(|items|, i requires 0 <= i < |items| => Clean(items[i], c, stack))
  }

  function CleanObject(o: Fields, c: Context, stack: set<string>): Json
    decreases Open(Obj(o), c, stack), Obj(o), 3
  {
    if HasString(o, "$ref") then ResolveRef(o, c, stack)
    else
      match SimplifyUnion(o, c, stack)
      case Some(simplified) => simplified
      case None => Obj(CleanFields(o, c, stack))
  }

  // A reference already on the stack, or one that leads nowhere, becomes `{}`
  // with the metadata of the referring object.
  function ResolveRef(o: Fields, c: Context, stack: set<string>): Json
    requires HasString(o, "$ref")
    decreases Open(Obj(o), c, stack), Obj(o), 2
  {
    var ref := o["$ref"].s;
    if ref !in stack && Resolves(ref, c.defs) then
      PreserveMeta(o, Clean(Definition(ref, c.defs), c, stack + {ref}))
    else PreserveMeta(o, Obj(map[]))
  }

  function SimplifyUnion(o: Fields, c: Context, stack: set<string>): Option<Json>
    decreases Open(Obj(o), c, stack), Obj(o), 2
  {
    if HasUnion(o) && o[UnionKey(o)].Arr? then
      var chosen :- UnionDecision(CleanAll(o[UnionKey(o)].items, c, stack));
      Some(PreserveMeta(o, chosen))
    else None
  }

  // Member names of the rebuilt object: supported ones, `const` turned into
  // `enum`, and `type` dropped next to a union.
  predicate Kept(k: string, o: Fields, strategy: Strategy) {
    k in o && k !in strategy.Unsupported() && k != "const" && !(k == "type" && HasUnion(o))
  }

  function OutKeys(o: Fields, strategy: Strategy): set<string> {
    (set k | k in o && Kept(k, o, strategy)) + (if "const" in o then {"enum"} else {})
  }

  // When both are present, `enum` is visited after `const` and overwrites it.
  function CleanFields(o: Fields, c: Context, stack: set<string>): Fields
    decreases Open(Obj(o), c, stack), Obj(o), 2
  {
    map k | k in OutKeys(o, c.strategy) ::
      if k == "enum" && "enum" !in o then Arr([o["const"]]) else CleanField(k, o[k], c, stack)
  }

  function CleanField(k: string, v: Json, c: Context, stack: set<string>): Json
    decreases Open(v, c, stack), v, 5
  {
    if k == "type" && v.Arr? then CleanTypeArray(v.items)
    else if k == "properties" then
      if v.Obj? then Obj(CleanProperties(v.fields, c, stack)) else v
    else if k == "anyOf" || k == "oneOf" || k == "allOf" then
      if v.Arr? then Arr(CleanAll(v.items, c, stack)) else v
    else Clean(v, c, stack)
  }

  function CleanProperties(props: Fields, c: Context, stack: set<string>): Fields
    decreases Open(Obj(props), c, stack), Obj(props), 1
  {
    map p | p in props :: Clean(props[p], c, stack)
  }

  lemma CleanWithoutUnion(o: Fields, c: Context, stack: set<string>)
    requires !HasString(o, "$ref") && !HasUnion(o)
    ensures Clean(Obj(o), c, stack) == Obj(CleanFields(o, c, stack))
  {
    assert SimplifyUnion(o, c, stack) == None;
    assert Clean(Obj(o), c, stack) == CleanObject(o, c, stack);
  }

  // `SchemaCleanr::clean`.
  function CleanSchema(schema: Json, strategy: Strategy): Json {
    Clean(schema, RootContext(schema, strategy), {})
  }

  function RootContext(schema: Json, strategy: Strategy): Context {
    Context(if schema.Obj? then ExtractDefs(schema.fields) else map[], strategy)
  }
}
