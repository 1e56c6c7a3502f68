// What a schema means: the part of JSON Schema 2020-12 that the cleaner
// rewrites (Validation 6.1.1 type, 6.1.2 enum, 6.1.3 const; Core 8.2.3.1 $ref,
// 10.2.1.1 allOf, 10.2.1.2 anyOf, 10.2.1.3 oneOf, 10.3.1.2 items, 10.3.2.1
// properties, 10.3.2.2 patternProperties, 10.3.2.3 additionalProperties, 4.3.2 Boolean
// schemas, 8.2.1 $id) with references as RFC 6901 section 6 reads them.
module SchemaValidity {
  import opened Wrappers
  import opened Json
  import opened SchemaCleaning
  import JsonPointer

  // How the parts outside this vocabulary are read.  Nothing is assumed about
  // these functions, so a result holds for each meaning they can express: a
  // keyword of its own is judged by its value and its companions, one that
  // depends on its surroundings by the document and the whole schema object.
  datatype Reading = Reading(
    other: (string, Json, Fields, Json) -> bool,  // keyword, its value, companions, instance
    whole: (string, Json, Fields, Json) -> bool,  // keyword, document, schema object, instance
    patterned: (Json, string) -> bool,    // value of `patternProperties`, property name
    external: (string, Json) -> bool,     // reference that leads out of the document, instance
    exhausted: bool)                      // verdict when the reference fuel runs out

  const ANNOTATIONS: set<string> := {
    "description", "title", "default", "examples", "$comment", "$schema", "$id", "$defs", "definitions", "$ref"
  }

  // Keywords whose meaning depends on each other (Core 10.2.2, 10.3.1.3).
  const COMPANIONS: set<string> := {"if", "then", "else", "contains", "minContains", "maxContains"}

  // Keywords whose meaning depends on what other keywords do, in the same
  // object or elsewhere (Core 8.2.3.2, 11.2, 11.3).
  const SURROUNDED: set<string> := {"unevaluatedProperties", "unevaluatedItems", "$dynamicRef", "$recursiveRef"}

  function Companions(o: Fields): Fields {
    map k | k in o && k in COMPANIONS :: o[k]
  }

  // The schema object without the metadata that never validates anything.
  function Speaking(o: Fields): Fields {
    o - {"description", "title", "default"}
  }

  // ------------------------------------------------------------- references

  // The token before the next "/" and what follows it.
  function FirstToken(pointer: string): string {
    if pointer == "" || pointer[0] == '/' then "" else [pointer[0]] + FirstToken(pointer[1..])
  }

  function AfterToken(pointer: string): (rest: string)
    ensures |rest| <= |pointer|
  {
    if pointer == "" || pointer[0] == '/' then pointer else AfterToken(pointer[1..])
  }

  // RFC 6901 evaluation through objects.
  function Navigate(j: Json, pointer: string): Option<Json>
    decreases |pointer|
  {
    if pointer == "" then Some(j)
    else if pointer[0] != '/' || !j.Obj? then None
    else
      var name := JsonPointer.Decode(FirstToken(pointer[1..]));
      if name in j.fields then Navigate(j.fields[name], AfterToken(pointer[1..])) else None
  }

  function HexDigit(ch: char): Option<nat> {
    if '0' <= ch <= '9' then Some(ch as int - '0' as int)
    else if 'A' <= ch <= 'F' then Some(ch as int - 'A' as int + 10)
    else if 'a' <= ch <= 'f' then Some(ch as int - 'a' as int + 10)
    else None
  }

  // The octet that a percent escape at the start of the text stands for.
  function Octet(s: string): (b: Option<nat>)
    ensures b.Some? ==> |s| >= 3 && b.value < 256
  {
    if |s| < 3 || s[0] != '%' then None
    else
      var high :- HexDigit(s[1]);
      var low :- HexDigit(s[2]);
      Some(16 * high + low)
  }

  // Six bits of a UTF-8 continuation octet.
  function Continuation(s: string): (b: Option<nat>)
    ensures b.Some? ==> |s| >= 3 && b.value < 64
  {
    var b :- Octet(s);
    if 0x80 <= b < 0xC0 then Some(b - 0x80) else None
  }

  // The escaped UTF-8 character at the start of the text, and what follows it.
  function Escaped(s: string): (r: Option<(char, string)>)
    ensures r.Some? ==> |r.value.1| < |s|
  {
    var b :- Octet(s);
    if b < 0x80 then Some((b as char, s[3..]))
    else
      var b1 :- Continuation(s[3..]);
      if 0xC2 <= b < 0xE0 then Some((((b - 0xC0) * 64 + b1) as char, s[6..]))
      else
        var b2 :- Continuation(s[6..]);
        if 0xE0 <= b < 0xF0 then
          var code := ((b - 0xE0) * 64 + b1) * 64 + b2;
          if 0x800 <= code && !(0xD800 <= code < 0xE000) then Some((code as char, s[9..])) else None
        else
          var b3 :- Continuation(s[9..]);
          var code := (((b - 0xF0) * 64 + b1) * 64 + b2) * 64 + b3;
          if 0xF0 <= b && 0x10000 <= code < 0x110000 then Some((code as char, s[12..])) else None
  }

  // RFC 3986 section 2.1: the text without its percent escapes.
  function PercentDecode(s: string): Option<string>
    decreases |s|
  {
    if s == "" then Some("")
    else if s[0] == '%' then
      var escaped :- Escaped(s);
      var rest :- PercentDecode(escaped.1);
      Some([escaped.0] + rest)
    else
      var rest :- PercentDecode(s[1..]);
      Some([s[0]] + rest)
  }

  // What a reference within the document points to, if it is a JSON pointer.
  function Target(root: Json, ref: string): Option<Json> {
    if "#" <= ref then
      var pointer :- PercentDecode(ref[1..]);
      Navigate(root, pointer)
    else None
  }

  // A schema object with an identifier of its own: references in it and below
  // it start at that object.
  predicate IsResource(o: Fields) {
    HasString(o, "$id") && o["$id"].s != "" && o["$id"].s[0] != '#'
  }

  // Metadata of the object is no place for a reference to lead to.
  function Scope(root: Json, o: Fields): Json {
    if IsResource(o) then Obj(Speaking(o)) else root
  }

  // --------------------------------------------------------------- keywords

  predicate TypeIs(t: string, x: Json) {
    match x
    case Null => t == "null"
    case Bool(_) => t == "boolean"
    case Num(n) => t == "number" || (t == "integer" && n == n.Floor as real)
    case Str(_) => t == "string"
    case Arr(_) => t == "array"
    case Obj(_) => t == "object"
  }

  predicate TypeAllows(t: Json, x: Json) {
    match t
    case Str(name) => TypeIs(name, x)
    case Arr(names) => exists i | 0 <= i < |names| :: names[i].Str? && TypeIs(names[i].s, x)
    case _ => true
  }

  function PropertyNames(o: Fields): set<string> {
    if "properties" in o && o["properties"].Obj? then o["properties"].fields.Keys else {}
  }

  // Properties that `properties` and `patternProperties` speak about.
  predicate Covered(rd: Reading, o: Fields, p: string) {
    p in PropertyNames(o) || ("patternProperties" in o && rd.patterned(o["patternProperties"], p))
  }

  // Elements that `prefixItems` speaks about (Core 10.3.1.1).
  function PrefixLength(o: Fields): nat {
    if HasArray(o, "prefixItems") then |o["prefixItems"].items| else 0
  }

  // `n` bounds the number of references followed one inside the other.
  ghost predicate Valid(rd: Reading, root: Json, n: nat, s: Json, x: Json)
    decreases n, s, 2
  {
    match s
    case Bool(b) => b
    case Obj(o) => Meets(rd, Scope(root, o), n, o, x)
    case _ => true
  }

  // All members of the object hold, read in the resource `root`.
  ghost predicate Meets(rd: Reading, root: Json, n: nat, o: Fields, x: Json)
    decreases n, Obj(o), 1
  {
    && (HasString(o, "$ref") ==> RefHolds(rd, root, n, o, x))
    && forall k | k in o :: Holds(rd, root, n, o, k, x)
  }

  ghost predicate RefHolds(rd: Reading, root: Json, n: nat, o: Fields, x: Json)
    requires HasString(o, "$ref")
    decreases n, Obj(o), 0
  {
    var ref := o["$ref"].s;
    match Target(root, ref)
    case None => rd.external(ref, x)
    case Some(target) => if n == 0 then rd.exhausted else Valid(rd, root, n - 1, target, x)
  }

  ghost predicate Holds(rd: Reading, root: Json, n: nat, o: Fields, k: string, x: Json)
    requires k in o
    decreases n, Obj(o), 0
  {
    var v := o[k];
    if k in ANNOTATIONS then true
    else if k == "type" then TypeAllows(v, x)
    else if k == "enum" then v.Arr? ==> x in v.items
    else if k == "const" then x == v
    else if k == "allOf" then v.Arr? ==> forall i | 0 <= i < |v.items| :: Valid(rd, root, n, v.items[i], x)
    else if k == "anyOf" then v.Arr? ==> exists i | 0 <= i < |v.items| :: Valid(rd, root, n, v.items[i], x)
    else if k == "oneOf" then
      v.Arr? ==> exists i | 0 <= i < |v.items| ::
        Valid(rd, root, n, v.items[i], x) &&
        forall i' | 0 <= i' < |v.items| && i' != i :: !Valid(rd, root, n, v.items[i'], x)
    else if k == "items" then x.Arr? ==> forall i | PrefixLength(o) <= i < |x.items| :: Valid(rd, root, n, v, x.items[i])
    else if k == "properties" then
      v.Obj? && x.Obj? ==> forall p | p in v.fields && p in x.fields :: Valid(rd, root, n, v.fields[p], x.fields[p])
    else if k == "additionalProperties" then
      x.Obj? ==> forall p | p in x.fields && !Covered(rd, o, p) :: Valid(rd, root, n, v, x.fields[p])
    else if k in SURROUNDED then rd.whole(k, root, Speaking(o), x)
    else rd.other(k, v, Companions(o), x)
  }

  lemma MemberHolds(rd: Reading, root: Json, n: nat, o: Fields, k: string, x: Json)
    requires k in o && Valid(rd, root, n, Obj(o), x)
    ensures Holds(rd, Scope(root, o), n, o, k, x)
  {
    assert Meets(rd, Scope(root, o), n, o, x);
  }

  // Three keywords need no document.
  predicate Says(o: Fields, k: string, x: Json)
    requires k in o
  {
    if k == "type" then TypeAllows(o[k], x)
    else if k == "enum" then o[k].Arr? ==> x in o[k].items
    else x == o[k]
  }

  lemma HoldsWhenSaid(rd: Reading, root: Json, n: nat, o: Fields, k: string, x: Json)
    requires k in o && (k == "type" || k == "enum" || k == "const")
    ensures Holds(rd, root, n, o, k, x) <==> Says(o, k, x)
  {
  }

  lemma ValidSays(rd: Reading, root: Json, n: nat, o: Fields, k: string, x: Json)
    requires k in o && (k == "type" || k == "enum" || k == "const") && Valid(rd, root, n, Obj(o), x)
    ensures Says(o, k, x)
  {
    MemberHolds(rd, root, n, o, k, x);
    HoldsWhenSaid(rd, Scope(root, o), n, o, k, x);
  }
}
