// Where cleaning does not weaken, and when references resolve to their targets.
module SchemaLimits {
  import opened Wrappers
  import opened Json
  import opened SchemaCleaning
  import opened SchemaNormalForm
  import opened SchemaIdempotence
  import opened SchemaValidity
  import opened SchemaSteps
  import opened SchemaFixedPoints
  import JsonPointer

  lemma {:induction false} TokenSplit(token: string, rest: string)
    requires '/' !in token && (rest == "" || rest[0] == '/')
    ensures FirstToken(token + rest) == token && AfterToken(token + rest) == rest
  {
    if token == "" {
      assert token + rest == rest;
    } else {
      assert (token + rest)[1..] == token[1..] + rest;
      TokenSplit(token[1..], rest);
      assert token == [token[0]] + token[1..];
    }
  }

  // Walking on from a table of definitions along the rest of a pointer.
  function Walk(defs: Fields, rest: string): Option<Json> {
    var name := JsonPointer.Decode(FirstToken(rest));
    if name in defs then Navigate(defs[name], AfterToken(rest)) else None
  }

  lemma NavigateInto(j: Json, key: string, rest: string)
    requires '/' !in key && '~' !in key
    ensures Navigate(j, "/" + (key + ("/" + rest))) ==
            if j.Obj? && key in j.fields then Navigate(j.fields[key], "/" + rest) else None
  {
    var pointer := "/" + (key + ("/" + rest));
    assert pointer[1..] == key + ("/" + rest);
    TokenSplit(key, "/" + rest);
    JsonPointer.DecodeWithoutTilde(key);
  }

  lemma {:induction false} PlainPrefix(plain: string, rest: string)
    requires '%' !in plain
    ensures PercentDecode(plain + rest) ==
            match PercentDecode(rest) { case Some(decoded) => Some(plain + decoded) case None => None }
  {
    if plain == "" {
      assert plain + rest == rest;
      assert PercentDecode(rest).Some? ==> plain + PercentDecode(rest).value == PercentDecode(rest).value;
    } else {
      PlainPrefix(plain[1..], rest);
      assert (plain + rest)[1..] == plain[1..] + rest;
      PrefixAgain(plain, PercentDecode(rest));
    }
  }

  lemma PrefixAgain(plain: string, decoded: Option<string>)
    requires plain != ""
    ensures decoded.Some? ==> [plain[0]] + (plain[1..] + decoded.value) == plain + decoded.value
  {
  }

  lemma PlainText(plain: string)
    requires '%' !in plain
    ensures PercentDecode(plain) == Some(plain)
  {
    PlainPrefix(plain, "");
    assert plain + "" == plain;
  }

  // What the rest of a reference means below a table of definitions: escapes are
  // decoded before the pointer is split (RFC 6901 section 6).
  function Pointed(defs: Fields, rest: string): Option<Json> {
    var pointer :- PercentDecode(rest);
    Walk(defs, pointer)
  }

  // Evaluation of "#/<key>/<rest>", where the rest may hold slashes and escapes.
  lemma TargetOfLocalRef(here: Fields, key: string, rest: string)
    requires '/' !in key && '~' !in key && '%' !in key
    ensures Target(Obj(here), "#/" + key + "/" + rest) == Pointed(DefsUnder(here, key), rest)
  {
    var prefix := "/" + key + "/";
    assert ("#/" + key + "/" + rest)[1..] == prefix + rest;
    PlainPrefix(prefix, rest);
    if PercentDecode(rest).Some? {
      var pointer := PercentDecode(rest).value;
      assert prefix + pointer == "/" + (key + ("/" + pointer));
      NavigateInto(Obj(here), key, pointer);
      assert ("/" + pointer)[1..] == pointer;
    }
  }

  // The definition the cleaner takes: the whole rest is one name, and entries of
  // "definitions" win.
  function Winner(o: Fields, rest: string): Json
    requires JsonPointer.Decode(rest) in ExtractDefs(o)
  {
    var name := JsonPointer.Decode(rest);
    if name in DefsUnder(o, "definitions") then DefsUnder(o, "definitions")[name] else DefsUnder(o, "$defs")[name]
  }

  // Exactly when a local reference that the cleaner resolves, whatever its rest
  // and whatever resource of the document it stands in, is inlined from where it
  // points: the decoded rest, walked token by token from the section of its
  // resource, leads to the entry of the document that the raw rest names.
  lemma ResolutionIsFaithfulIff(here: Fields, o: Fields, key: string, rest: string, strategy: Strategy)
    requires key == "$defs" || key == "definitions"
    requires Resolves("#/" + key + "/" + rest, ExtractDefs(o))
    ensures JsonPointer.Decode(rest) in ExtractDefs(o)
    ensures Faithful(Obj(here), "#/" + key + "/" + rest, RootContext(Obj(o), strategy)) <==>
            Pointed(DefsUnder(here, key), rest) == Some(Winner(o, rest))
  {
    ParseOfLocalRef(key, rest);
    TargetOfLocalRef(here, key, rest);
  }

  // For a rest that decodes to one token, that token must name an entry of the
  // section equal to the one the cleaner takes.
  lemma OneSegmentIsFaithfulIff(here: Fields, o: Fields, key: string, segment: string, strategy: Strategy)
    requires key == "$defs" || key == "definitions"
    requires Resolves("#/" + key + "/" + segment, ExtractDefs(o))
    requires PercentDecode(segment).Some? && '/' !in PercentDecode(segment).value
    ensures var (name, section) := (JsonPointer.Decode(PercentDecode(segment).value), DefsUnder(here, key));
            JsonPointer.Decode(segment) in ExtractDefs(o) &&
            (Faithful(Obj(here), "#/" + key + "/" + segment, RootContext(Obj(o), strategy)) <==>
             name in section && section[name] == Winner(o, segment))
  {
    ResolutionIsFaithfulIff(here, o, key, segment, strategy);
    var token := PercentDecode(segment).value;
    assert token + "" == token;
    TokenSplit(token, "");
  }

  // With neither escapes nor a nested resource: a "#/$defs/..." reference must
  // not be shadowed by a different entry of "definitions", and a
  // "#/definitions/..." reference must name an entry of "definitions" itself.
  lemma PlainSegmentIsFaithfulIff(o: Fields, key: string, segment: string, strategy: Strategy)
    requires key == "$defs" || key == "definitions"
    requires '/' !in segment && '%' !in segment && Resolves("#/" + key + "/" + segment, ExtractDefs(o))
    ensures var name := JsonPointer.Decode(segment);
            var (local, legacy) := (DefsUnder(o, "$defs"), DefsUnder(o, "definitions"));
            Faithful(Obj(o), "#/" + key + "/" + segment, RootContext(Obj(o), strategy)) <==>
              if key == "$defs" then name in local && (name in legacy ==> legacy[name] == local[name])
              else name in legacy
  {
    PlainText(segment);
    OneSegmentIsFaithfulIff(o, o, key, segment, strategy);
  }

  // For a rest of several tokens: the first one must name a definition of the
  // section, and the walk from there must end at the entry named by the whole.
  lemma NestedIsFaithfulIff(here: Fields, o: Fields, key: string, rest: string, first: string, more: string, strategy: Strategy)
    requires key == "$defs" || key == "definitions"
    requires PercentDecode(rest) == Some(first + ("/" + more))
    requires '/' !in first && Resolves("#/" + key + "/" + rest, ExtractDefs(o))
    ensures var (name, section) := (JsonPointer.Decode(first), DefsUnder(here, key));
            JsonPointer.Decode(rest) in ExtractDefs(o) &&
            (Faithful(Obj(here), "#/" + key + "/" + rest, RootContext(Obj(o), strategy)) <==>
             name in section && Navigate(section[name], "/" + more) == Some(Winner(o, rest)))
  {
    ResolutionIsFaithfulIff(here, o, key, rest, strategy);
    TokenSplit(first, "/" + more);
  }

  // -------------------------------------------------------------- witnesses

  function TypeSchema(name: string): Json {
    Obj(map["type" := Str(name)])
  }

  // A schema with one keyword means that keyword.
  lemma OneKeyword(rd: Reading, root: Json, n: nat, o: Fields, k: string, x: Json)
    requires o.Keys == {k} && k != "$ref" && k != "$id"
    ensures Valid(rd, root, n, Obj(o), x) <==> Holds(rd, root, n, o, k, x)
  {
    assert Scope(root, o) == root;
    assert Valid(rd, root, n, Obj(o), x) <==> Meets(rd, root, n, o, x);
  }

  lemma HoldsType(rd: Reading, root: Json, n: nat, o: Fields, x: Json)
    requires "type" in o
    ensures Holds(rd, root, n, o, "type", x) <==> TypeAllows(o["type"], x)
  {
  }

  lemma TypeSchemaMeaning(rd: Reading, root: Json, n: nat, name: string, x: Json)
    ensures Valid(rd, root, n, TypeSchema(name), x) <==> TypeIs(name, x)
  {
    var o := TypeSchema(name).fields;
    OneKeyword(rd, root, n, o, "type", x);
    HoldsType(rd, root, n, o, x);
  }

  lemma CleanTypeSchema(name: string, c: Context, stack: set<string>)
    ensures Clean(TypeSchema(name), c, stack) == TypeSchema(name)
  {
    var o := TypeSchema(name).fields;
    CleanWithoutUnion(o, c, stack);
    assert OutKeys(o, c.strategy) == {"type"};
    assert CleanFields(o, c, stack)["type"] == CleanField("type", o["type"], c, stack) == o["type"];
    assert CleanFields(o, c, stack) == o;
  }

  lemma NoMeta(o: Fields)
    requires "description" !in o && "title" !in o && "default" !in o
    ensures Meta(o) == map[]
  {
    forall k | k in META_KEYS
      ensures k !in o
    {
      assert k == "description" || k == "title" || k == "default";
    }
  }

  lemma OnlyReference(rd: Reading, root: Json, n: nat, o: Fields, x: Json)
    requires HasString(o, "$ref") && o.Keys <= ANNOTATIONS
    ensures Valid(rd, root, n, Obj(o), x) <==> RefHolds(rd, Scope(root, o), n, o, x)
  {
    assert Valid(rd, root, n, Obj(o), x) <==> Meets(rd, Scope(root, o), n, o, x);
  }

  // The reference points at a string schema, and the cleaner takes an integer schema.
  predicate Misread(o: Fields, ref: string) {
    && o.Keys <= ANNOTATIONS && "description" !in o && "title" !in o && "default" !in o && "$id" !in o
    && "$ref" in o && o["$ref"] == Str(ref) && Target(Obj(o), ref) == Some(TypeSchema("string"))
    && Resolves(ref, ExtractDefs(o)) && Definition(ref, ExtractDefs(o)) == TypeSchema("integer")
  }

  lemma CleanMisread(o: Fields, ref: string, strategy: Strategy)
    requires Misread(o, ref)
    ensures CleanSchema(Obj(o), strategy) == TypeSchema("integer")
  {
    var c := RootContext(Obj(o), strategy);
    CleanTypeSchema("integer", c, {} + {ref});
    InlinedResult(o, c, {});
    NoMeta(o);
    assert TypeSchema("integer").fields + map[] == TypeSchema("integer").fields;
  }

  lemma InlinedResult(o: Fields, c: Context, stack: set<string>)
    requires HasString(o, "$ref") && o["$ref"].s !in stack && Resolves(o["$ref"].s, c.defs)
    ensures Clean(Obj(o), c, stack)
         == PreserveMeta(o, Clean(Definition(o["$ref"].s, c.defs), c, stack + {o["$ref"].s}))
  {
    assert Clean(Obj(o), c, stack) == ResolveRef(o, c, stack);
  }

  // A string that was valid no longer is.
  lemma MisreadIsNotWeakened(w: Reader, o: Fields, ref: string, strategy: Strategy)
    requires Misread(o, ref) && w.root == Obj(o) && w.n > 0
    ensures w.Before(w.root, Str("a")) && !w.After(CleanSchema(w.root, strategy), Str("a"))
  {
    MisreadHolds(w, o, ref);
    OnlyReference(w.rd, w.root, w.n, o, Str("a"));
    CleanMisread(o, ref, strategy);
    TypeSchemaMeaning(w.rd, w.root', w.n', "integer", Str("a"));
  }

  lemma MisreadHolds(w: Reader, o: Fields, ref: string)
    requires Misread(o, ref) && w.root == Obj(o) && w.n > 0
    ensures RefHolds(w.rd, w.root, w.n, o, Str("a"))
  {
    StringIsString(w.rd, w.root, w.n - 1);
    TargetDecides(w.rd, w.root, w.n, o, ref, TypeSchema("string"), Str("a"));
  }

  lemma StringIsString(rd: Reading, root: Json, n: nat)
    ensures Valid(rd, root, n, TypeSchema("string"), Str("a"))
  {
    TypeSchemaMeaning(rd, root, n, "string", Str("a"));
  }

  lemma TargetDecides(rd: Reading, root: Json, n: nat, o: Fields, ref: string, target: Json, x: Json)
    requires "$ref" in o && o["$ref"] == Str(ref) && Target(root, ref) == Some(target) && n > 0
    ensures RefHolds(rd, root, n, o, x) <==> Valid(rd, root, n - 1, target, x)
  {
  }

  // A document whose reference is shadowed: "#/$defs/X" is a string schema, the
  // legacy entry of the same name is an integer schema.
  predicate Shadowed(o: Fields) {
    && o.Keys == {"$ref", "$defs", "definitions"}
    && o["$ref"] == Str("#/$defs/X")
    && o["$defs"] == Obj(map["X" := TypeSchema("string")])
    && o["definitions"] == Obj(map["X" := TypeSchema("integer")])
  }

  lemma ShadowedReferenceIsNotWeakened(w: Reader, o: Fields, strategy: Strategy)
    requires Shadowed(o) && w.root == Obj(o) && w.n > 0
    ensures w.Before(w.root, Str("a")) && !w.After(CleanSchema(w.root, strategy), Str("a"))
  {
    ShadowedTarget(o);
    MisreadIsNotWeakened(w, o, "#/$defs/X", strategy);
  }

  lemma ShadowedTarget(o: Fields)
    requires Shadowed(o)
    ensures Target(Obj(o), "#/$defs/X") == Some(TypeSchema("string"))
    ensures Resolves("#/$defs/X", ExtractDefs(o)) && Definition("#/$defs/X", ExtractDefs(o)) == TypeSchema("integer")
  {
    assert "#/" + "$defs" + "/" + "X" == "#/$defs/X";
    JsonPointer.DecodeWithoutTilde("X");
    ParseOfLocalRef("$defs", "X");
    TargetOfLocalRef(o, "$defs", "X");
    PlainText("X");
    TokenSplit("X", "");
    assert "X" + "" == "X";
  }

  // A document with a definition called "A/B": "#/$defs/A/B" points into "A".
  predicate Slashed(o: Fields) {
    && o.Keys == {"$ref", "$defs"}
    && o["$ref"] == Str("#/$defs/A/B")
    && o["$defs"] == Obj(map["A" := Obj(map["B" := TypeSchema("string")]), "A/B" := TypeSchema("integer")])
  }

  lemma SlashedReferenceIsNotWeakened(w: Reader, o: Fields, strategy: Strategy)
    requires Slashed(o) && w.root == Obj(o) && w.n > 0
    ensures w.Before(w.root, Str("a")) && !w.After(CleanSchema(w.root, strategy), Str("a"))
  {
    SlashedTarget(o);
    SlashedLookup(o);
    MisreadIsNotWeakened(w, o, "#/$defs/A/B", strategy);
  }

  lemma SlashedTarget(o: Fields)
    requires Slashed(o)
    ensures Target(Obj(o), "#/$defs/A/B") == Some(TypeSchema("string"))
  {
    assert "#/" + "$defs" + "/" + "A/B" == "#/$defs/A/B";
    TargetOfLocalRef(o, "$defs", "A/B");
    PlainText("A/B");
    SlashedWalk(DefsUnder(o, "$defs"), map["B" := TypeSchema("string")]);
  }

  lemma SlashedLookup(o: Fields)
    requires Slashed(o)
    ensures Resolves("#/$defs/A/B", ExtractDefs(o)) && Definition("#/$defs/A/B", ExtractDefs(o)) == TypeSchema("integer")
  {
    assert "#/" + "$defs" + "/" + "A/B" == "#/$defs/A/B";
    JsonPointer.DecodeWithoutTilde("A/B");
    ParseOfLocalRef("$defs", "A/B");
    assert ExtractDefs(o)["A/B"] == TypeSchema("integer");
  }

  lemma SlashedWalk(defs: Fields, a: Fields)
    requires "A" in defs && defs["A"] == Obj(a) && "B" in a
    ensures Walk(defs, "A/B") == Some(a["B"])
  {
    JsonPointer.DecodeWithoutTilde("A");
    assert "A" + "/B" == "A/B";
    TokenSplit("A", "/B");
    assert "/" + "B" == "/B";
    OneStep(Obj(a), "B");
  }

  lemma OneStep(j: Json, name: string)
    requires '/' !in name && '~' !in name && j.Obj? && name in j.fields
    ensures Navigate(j, "/" + name) == Some(j.fields[name])
  {
    assert ("/" + name)[1..] == name + "";
    TokenSplit(name, "");
    JsonPointer.DecodeWithoutTilde(name);
  }

  // A document with a definition whose name looks like an escape: "%41" is "A".
  predicate LooksEscaped(o: Fields) {
    && o.Keys == {"$ref", "$defs"}
    && o["$ref"] == Str("#/$defs/%41")
    && o["$defs"] == Obj(map["A" := TypeSchema("string"), "%41" := TypeSchema("integer")])
  }

  lemma EscapedReferenceIsNotWeakened(w: Reader, o: Fields, strategy: Strategy)
    requires LooksEscaped(o) && w.root == Obj(o) && w.n > 0
    ensures w.Before(w.root, Str("a")) && !w.After(CleanSchema(w.root, strategy), Str("a"))
  {
    EscapedTarget(o);
    EscapedLookup(o);
    MisreadIsNotWeakened(w, o, "#/$defs/%41", strategy);
  }

  lemma EscapedTarget(o: Fields)
    requires LooksEscaped(o)
    ensures Target(Obj(o), "#/$defs/%41") == Some(TypeSchema("string"))
  {
    assert "#/" + "$defs" + "/" + "%41" == "#/$defs/%41";
    TargetOfLocalRef(o, "$defs", "%41");
    DecodesToLetter("%41");
    JsonPointer.DecodeWithoutTilde("A");
    TokenSplit("A", "");
    assert "A" + "" == "A";
  }

  lemma DecodesToLetter(s: string)
    requires s == "%41"
    ensures PercentDecode(s) == Some("A")
  {
    assert s[3..] == "" && PercentDecode("") == Some("");
    assert Escaped(s) == Some(('A', ""));
    assert ['A'] + "" == "A";
  }

  lemma EscapedLookup(o: Fields)
    requires LooksEscaped(o)
    ensures Resolves("#/$defs/%41", ExtractDefs(o)) && Definition("#/$defs/%41", ExtractDefs(o)) == TypeSchema("integer")
  {
    assert "#/" + "$defs" + "/" + "%41" == "#/$defs/%41";
    JsonPointer.DecodeWithoutTilde("%41");
    ParseOfLocalRef("$defs", "%41");
    assert ExtractDefs(o)["%41"] == TypeSchema("integer");
  }

  // A document with a resource of its own inside: the reference in it means the
  // string schema next to it, and the cleaner takes the entry of the document.
  predicate Embeds(o: Fields, inner: Fields) {
    && o.Keys == {"$defs", "allOf"} && inner.Keys == {"$id", "$ref", "$defs"}
    && o["$defs"] == Obj(map["X" := TypeSchema("integer")]) && o["allOf"] == Arr([Obj(inner)])
    && IsResource(inner) && inner["$ref"] == Str("#/$defs/X") && inner["$defs"] == Obj(map["X" := TypeSchema("string")])
  }

  lemma EmbeddedResourceIsNotWeakened(w: Reader, o: Fields, inner: Fields, strategy: Strategy)
    requires Embeds(o, inner) && w.root == Obj(o) && w.n > 0
    ensures w.Before(w.root, Str("a")) && !w.After(CleanSchema(w.root, strategy), Str("a"))
  {
    var x := Str("a");
    EmbeddedTarget(inner);
    TypeSchemaMeaning(w.rd, Scope(w.root, inner), w.n - 1, "string", x);
    OnlyReference(w.rd, w.root, w.n, inner, x);
    AllOfOne(w.rd, w.root, w.n, o, Obj(inner), x);
    CleanEmbedding(o, inner, RootContext(Obj(o), strategy));
    TypeSchemaMeaning(w.rd, w.root', w.n', "integer", x);
    AllOfOne(w.rd, w.root', w.n', CleanSchema(w.root, strategy).fields, TypeSchema("integer"), x);
  }

  lemma AllOfOne(rd: Reading, root: Json, n: nat, o: Fields, only: Json, x: Json)
    requires "allOf" in o && o["allOf"] == Arr([only]) && o.Keys <= {"$defs", "allOf"}
    ensures Valid(rd, root, n, Obj(o), x) <==> Valid(rd, root, n, only, x)
  {
    assert Scope(root, o) == root;
    assert Valid(rd, root, n, Obj(o), x) <==> Meets(rd, root, n, o, x);
    assert Holds(rd, root, n, o, "allOf", x) <==> Valid(rd, root, n, [only][0], x);
  }

  lemma EmbeddedTarget(inner: Fields)
    requires inner.Keys == {"$id", "$ref", "$defs"} && inner["$defs"] == Obj(map["X" := TypeSchema("string")])
    ensures Target(Obj(Speaking(inner)), "#/$defs/X") == Some(TypeSchema("string"))
  {
    assert "#/" + "$defs" + "/" + "X" == "#/$defs/X";
    TargetOfLocalRef(Speaking(inner), "$defs", "X");
    PlainText("X");
    JsonPointer.DecodeWithoutTilde("X");
    TokenSplit("X", "");
    assert "X" + "" == "X";
  }

  lemma CleanEmbedding(o: Fields, inner: Fields, c: Context)
    requires Embeds(o, inner) && c.defs == ExtractDefs(o)
    ensures var r := Clean(Obj(o), c, {});
            r.Obj? && r.fields.Keys <= {"$defs", "allOf"} && "allOf" in r.fields && r.fields["allOf"] == Arr([TypeSchema("integer")])
  {
    CleanInner(inner, c);
    CleanWithoutUnion(o, c, {});
    assert Kept("allOf", o, c.strategy);
    assert CleanAll([Obj(inner)], c, {}) == [TypeSchema("integer")];
    assert CleanFields(o, c, {})["allOf"] == CleanField("allOf", o["allOf"], c, {}) == Arr([TypeSchema("integer")]);
  }

  lemma CleanInner(inner: Fields, c: Context)
    requires inner.Keys == {"$id", "$ref", "$defs"} && inner["$ref"] == Str("#/$defs/X")
    requires "X" in c.defs && c.defs["X"] == TypeSchema("integer")
    ensures Clean(Obj(inner), c, {}) == TypeSchema("integer")
  {
    var ref := "#/$defs/X";
    assert "#/" + "$defs" + "/" + "X" == ref;
    JsonPointer.DecodeWithoutTilde("X");
    ParseOfLocalRef("$defs", "X");
    CleanTypeSchema("integer", c, {} + {ref});
    InlinedResult(inner, c, {});
    NoMeta(inner);
    assert TypeSchema("integer").fields + map[] == TypeSchema("integer").fields;
  }

  // An `enum` is cleaned entry by entry, as if its entries were schemas.  Exactly
  // when it still admits every null-free instance it admitted: each such entry
  // must be the cleaned form of some entry, itself if it is stable.
  lemma EnumStaysIff(w: Reader, o: Fields, c: Context, stack: set<string>)
    requires HasArray(o, "enum")
    ensures var (items, r) := (o["enum"].items, CleanFields(o, c, stack));
            && "enum" in r
            && ((forall x | NullFree(x) && Holds(w.rd, w.root, w.n, o, "enum", x) :: Holds(w.rd, w.root', w.n', r, "enum", x)) <==>
                forall i | 0 <= i < |items| && NullFree(items[i]) :: items[i] in CleanAll(items, c, stack))
  {
    var (items, r) := (o["enum"].items, CleanFields(o, c, stack));
    assert Kept("enum", o, c.strategy);
    assert r["enum"] == CleanField("enum", o["enum"], c, stack) == Arr(CleanAll(items, c, stack));
    forall x
      ensures Holds(w.rd, w.root, w.n, o, "enum", x) <==> x in items
      ensures Holds(w.rd, w.root', w.n', r, "enum", x) <==> x in CleanAll(items, c, stack)
    {
      HoldsWhenSaid(w.rd, w.root, w.n, o, "enum", x);
      HoldsWhenSaid(w.rd, w.root', w.n', r, "enum", x);
    }
    AdmittedIff(w, o, r, items, CleanAll(items, c, stack));
  }

  lemma AdmittedIff(w: Reader, o: Fields, r: Fields, items: seq<Json>, cleaned: seq<Json>)
    requires "enum" in o && "enum" in r
    requires forall x :: Holds(w.rd, w.root, w.n, o, "enum", x) <==> x in items
    requires forall x :: Holds(w.rd, w.root', w.n', r, "enum", x) <==> x in cleaned
    ensures (forall x | NullFree(x) && Holds(w.rd, w.root, w.n, o, "enum", x) :: Holds(w.rd, w.root', w.n', r, "enum", x)) <==>
            forall i | 0 <= i < |items| && NullFree(items[i]) :: items[i] in cleaned
  {
    if forall x | NullFree(x) && Holds(w.rd, w.root, w.n, o, "enum", x) :: Holds(w.rd, w.root', w.n', r, "enum", x) {
      forall i | 0 <= i < |items| && NullFree(items[i])
        ensures items[i] in cleaned
      {
        assert Holds(w.rd, w.root, w.n, o, "enum", items[i]);
      }
    }
  }

  // For a single entry: exactly if it is stable.
  lemma OneEntryStaysIff(w: Reader, o: Fields, entry: Json, c: Context, stack: set<string>)
    requires "enum" in o && o["enum"] == Arr([entry]) && NullFree(entry) && RefsFit(entry, c)
    ensures var r := CleanFields(o, c, stack);
            && "enum" in r
            && ((forall x | NullFree(x) && Holds(w.rd, w.root, w.n, o, "enum", x) :: Holds(w.rd, w.root', w.n', r, "enum", x)) <==>
                Stable(entry, c.strategy))
  {
    EnumStaysIff(w, o, c, stack);
    FixedIffStable(entry, c, stack);
    assert CleanAll([entry], c, stack) == [Clean(entry, c, stack)];
    assert forall i | 0 <= i < |[entry]| :: [entry][i] == entry;
    assert [entry][0] == entry;
  }

  // Stability of every entry is more than is needed: the second entry here is not
  // stable, but it is what the first one, which holds null, is cleaned to.
  function NullableUnion(d: Json): Fields {
    map["anyOf" := Arr([Obj(map["enum" := Arr([Null])]), Obj(map[])]), "default" := d]
  }

  lemma UnstableEntryMayStay(w: Reader, o: Fields, c: Context)
    requires var d := Obj(map["const" := Num(1.0)]);
             "enum" in o && o["enum"] == Arr([Obj(NullableUnion(d)), Obj(map["default" := d])])
    ensures !Stable(o["enum"].items[1], c.strategy)
    ensures var r := CleanFields(o, c, {});
            && "enum" in r
            && forall x | NullFree(x) && Holds(w.rd, w.root, w.n, o, "enum", x) :: Holds(w.rd, w.root', w.n', r, "enum", x)
  {
    var d := Obj(map["const" := Num(1.0)]);
    var (first, second) := (Obj(NullableUnion(d)), Obj(map["default" := d]));
    CleanNullableUnion(d, c);
    HoldsNull(NullableUnion(d), d);
    assert "default" in second.fields && !StableMember("default", d, c.strategy);
    var cleaned := CleanAll([first, second], c, {});
    assert cleaned[0] == second;
    forall i | 0 <= i < |o["enum"].items| && NullFree(o["enum"].items[i])
      ensures o["enum"].items[i] in cleaned
    {
    }
    EnumStaysIff(w, o, c, {});
  }

  lemma HoldsNull(o: Fields, d: Json)
    requires o == NullableUnion(d)
    ensures !NullFree(Obj(o))
  {
    var variants := o["anyOf"].items;
    var literal: Fields := map["enum" := Arr([Null])];
    assert !NullFree([Null][0]);
    assert !NullFree(literal["enum"]);
    assert variants[0] == Obj(literal) && !NullFree(variants[0]);
    assert !NullFree(o["anyOf"]);
  }

  lemma CleanNullableUnion(d: Json, c: Context)
    ensures Clean(Obj(NullableUnion(d)), c, {}) == Obj(map["default" := d])
  {
    var o := NullableUnion(d);
    var literal: Fields, empty: Fields := map["enum" := Arr([Null])], map[];
    CleanEnum(literal, Null, c);
    assert Clean(Null, c, {}) == Null;
    CleanWithoutUnion(empty, c, {});
    assert OutKeys(empty, c.strategy) == {};
    assert CleanFields(empty, c, {}) == map[];
    assert CleanFields(literal, c, {}) == literal;
    var cleaned := CleanAll([Obj(literal), Obj(empty)], c, {});
    assert cleaned == [Obj(literal), Obj(empty)];
    OneOfTwo(Obj(literal), Obj(empty));
    SurvivorWithMeta(o, empty, c);
  }

  lemma OneOfTwo(gone: Json, other: Json)
    requires IsNullSchema(gone) && !IsNullSchema(other)
    ensures UnionDecision([gone, other]) == Some(other)
  {
    assert [gone, other][1..] == [other] && [other][1..] == [];
    assert NonNull([other]) == [other];
    assert NonNull([gone, other]) == [other];
  }

  // An entry that looks like a `const` schema is rewritten, under every strategy.
  lemma RewrittenEntryIsNotWeakened(w: Reader, strategy: Strategy)
    requires w.root == Obj(map["enum" := Arr([Obj(map["const" := Num(1.0)])])])
    ensures var x := Obj(map["const" := Num(1.0)]); w.Before(w.root, x) && !w.After(CleanSchema(w.root, strategy), x)
  {
    var x := Obj(map["const" := Num(1.0)]);
    var (o, c) := (w.root.fields, RootContext(w.root, strategy));
    OnlyEnum(w.rd, w.root, w.n, o, x);
    assert [x][0] == x;
    CleanEnum(o, x, c);
    var r := CleanFields(o, c, {});
    OnlyEnum(w.rd, w.root', w.n', r, x);
    OnlyConst(Num(1.0), c, {});
    NotTheEntry(x.fields);
  }

  lemma OnlyEnum(rd: Reading, root: Json, n: nat, o: Fields, x: Json)
    requires o.Keys == {"enum"} && o["enum"].Arr?
    ensures Valid(rd, root, n, Obj(o), x) <==> x in o["enum"].items
  {
    OneKeyword(rd, root, n, o, "enum", x);
    HoldsWhenSaid(rd, root, n, o, "enum", x);
  }

  lemma CleanEnum(o: Fields, entry: Json, c: Context)
    requires o.Keys == {"enum"} && o["enum"] == Arr([entry])
    ensures Clean(Obj(o), c, {}) == Obj(CleanFields(o, c, {}))
    ensures CleanFields(o, c, {}).Keys == {"enum"} && CleanFields(o, c, {})["enum"] == Arr([Clean(entry, c, {})])
  {
    CleanWithoutUnion(o, c, {});
    assert Kept("enum", o, c.strategy);
    assert OutKeys(o, c.strategy) == {"enum"};
    assert CleanFields(o, c, {})["enum"] == CleanField("enum", o["enum"], c, {}) == Arr(CleanAll([entry], c, {}));
    assert CleanAll([entry], c, {}) == [Clean(entry, c, {})];
  }

  lemma NotTheEntry(entry: Fields)
    requires entry == map["const" := Num(1.0)]
    ensures Obj(entry) !in [Obj(map["enum" := Arr([Num(1.0)])])]
  {
    var other: Fields := map["enum" := Arr([Num(1.0)])];
    assert "const" in entry && "const" !in other;
  }

  // A `oneOf` left behind: Gemini drops the length bound that told the two
  // variants apart, so an instance that matched one of them now matches both.
  function LongString(): Fields {
    map["type" := Str("string"), "minLength" := Num(5.0)]
  }

  function OneOf(variants: seq<Json>): Json {
    Obj(map["oneOf" := Arr(variants)])
  }

  lemma OneOfAccepts(rd: Reading, root: Json, n: nat, o: Fields, x: Json)
    requires o.Keys == {"oneOf"} && o["oneOf"].Arr? && |o["oneOf"].items| == 2
    requires !Valid(rd, root, n, o["oneOf"].items[0], x) && Valid(rd, root, n, o["oneOf"].items[1], x)
    ensures Valid(rd, root, n, Obj(o), x)
  {
    var items := o["oneOf"].items;
    forall i' | 0 <= i' < |items| && i' != 1
      ensures !Valid(rd, root, n, items[i'], x)
    {
      assert i' == 0;
    }
    OneKeyword(rd, root, n, o, "oneOf", x);
  }

  lemma OneOfRejects(rd: Reading, root: Json, n: nat, o: Fields, x: Json)
    requires o.Keys == {"oneOf"} && o["oneOf"].Arr? && |o["oneOf"].items| == 2
    requires Valid(rd, root, n, o["oneOf"].items[0], x) && Valid(rd, root, n, o["oneOf"].items[1], x)
    ensures !Valid(rd, root, n, Obj(o), x)
  {
    OneKeyword(rd, root, n, o, "oneOf", x);
  }

  lemma LeftoverOneOfIsNotWeakened(w: Reader)
    requires w.root == OneOf([Obj(LongString()), TypeSchema("string")])
    requires !w.rd.other("minLength", Num(5.0), map[], Str("a"))
    ensures w.Before(w.root, Str("a")) && !w.After(CleanSchema(w.root, Gemini), Str("a"))
  {
    var x := Str("a");
    TypeSchemaMeaning(w.rd, w.root, w.n, "string", x);
    LongStringRejects(w);
    OneOfAccepts(w.rd, w.root, w.n, w.root.fields, x);
    CleanLeftover();
    TypeSchemaMeaning(w.rd, w.root', w.n', "string", x);
    OneOfRejects(w.rd, w.root', w.n', OneOf([TypeSchema("string"), TypeSchema("string")]).fields, x);
  }

  lemma LongStringRejects(w: Reader)
    requires !w.rd.other("minLength", Num(5.0), map[], Str("a"))
    ensures !w.Before(Obj(LongString()), Str("a"))
  {
    if w.Before(Obj(LongString()), Str("a")) {
      MemberHolds(w.rd, w.root, w.n, LongString(), "minLength", Str("a"));
    }
  }

  lemma CleanLongString(c: Context)
    requires c.strategy == Gemini
    ensures Clean(Obj(LongString()), c, {}) == TypeSchema("string")
  {
    var o := LongString();
    CleanWithoutUnion(o, c, {});
    assert OutKeys(o, Gemini) == {"type"};
    assert CleanFields(o, c, {})["type"] == CleanField("type", Str("string"), c, {}) == Str("string");
    assert CleanFields(o, c, {}) == TypeSchema("string").fields;
  }

  lemma CleanLeftover()
    ensures CleanSchema(OneOf([Obj(LongString()), TypeSchema("string")]), Gemini)
         == OneOf([TypeSchema("string"), TypeSchema("string")])
  {
    var variants := [Obj(LongString()), TypeSchema("string")];
    var both := [TypeSchema("string"), TypeSchema("string")];
    var c := RootContext(OneOf(variants), Gemini);
    CleanTypeSchema("string", c, {});
    CleanLongString(c);
    assert CleanAll(variants, c, {}) == both;
    TwoStringsStayApart();
    LeftoverIsKept(map["oneOf" := Arr(variants)], variants, both, c);
  }

  lemma TwoStringsStayApart()
    ensures UnionDecision([TypeSchema("string"), TypeSchema("string")]) == None
  {
    var both := [TypeSchema("string"), TypeSchema("string")];
    assert both[1..][1..] == [];
    assert NonNull(both[1..]) == both[1..];
    assert NonNull(both) == both;
    assert !IsLiteral(both[0]);
  }

  lemma LeftoverIsKept(o: Fields, variants: seq<Json>, both: seq<Json>, c: Context)
    requires o == map["oneOf" := Arr(variants)] && CleanAll(variants, c, {}) == both
    requires UnionDecision(both) == None
    ensures Clean(Obj(o), c, {}) == Obj(map["oneOf" := Arr(both)])
  {
    assert SimplifyUnion(o, c, {}) == None;
    assert Clean(Obj(o), c, {}) == Obj(CleanFields(o, c, {}));
    assert OutKeys(o, c.strategy) == {"oneOf"} by {
      assert Kept("oneOf", o, c.strategy);
    }
    assert CleanFields(o, c, {})["oneOf"] == CleanField("oneOf", Arr(variants), c, {});
  }

  // Null is stripped on purpose: a nullable type stops accepting null.
  lemma NullIsStripped(w: Reader, name: string, c: Context, stack: set<string>)
    requires name != "null"
    ensures var nullable := Obj(map["type" := Arr([Str(name), Str("null")])]);
            w.Before(nullable, Null) && !w.After(Clean(nullable, c, stack), Null)
  {
    var o: Fields := map["type" := Arr([Str(name), Str("null")])];
    OneKeyword(w.rd, w.root, w.n, o, "type", Null);
    HoldsType(w.rd, w.root, w.n, o, Null);
    assert TypeAllows(o["type"], Null) by {
      assert o["type"].items[1] == Str("null") && TypeIs("null", Null);
    }
    assert WithoutNullType([Str("null")]) == [];
    assert o["type"].items[1..] == [Str("null")];
    assert WithoutNullType(o["type"].items) == [Str(name)];
    OnlyTypeArray(o["type"].items, c, stack);
    TypeSchemaMeaning(w.rd, w.root', w.n', name, Null);
  }
}
