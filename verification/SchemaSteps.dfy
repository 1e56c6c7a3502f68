// What the single steps of the cleaner do to validity: metadata, null variants,
// flattened literals, type arrays, and the members other keywords look at.
module SchemaSteps {
  import opened Wrappers
  import opened Json
  import opened SchemaCleaning
  import opened SchemaNormalForm
  import opened SchemaIdempotence
  import opened SchemaValidity

  // The cleaner inlines what the reference really points to.
  predicate Faithful(root: Json, ref: string, c: Context)
    requires Resolves(ref, c.defs)
  {
    Target(root, ref) == Some(Definition(ref, c.defs))
  }

  // The two readings compared: the original document with its fuel, and the
  // cleaned schema read in any document with any fuel.
  datatype Reader = Reader(rd: Reading, root: Json, n: nat, root': Json, n': nat) {
    ghost predicate Before(s: Json, x: Json) {
      Valid(rd, root, n, s, x)
    }

    ghost predicate After(s: Json, x: Json) {
      Valid(rd, root', n', s, x)
    }

    // Fuel for every reference that can still be inlined, unless running out
    // means invalid and nothing turns on a variant being invalid.
    ghost predicate Fuelled(budget: set<string>, full: bool) {
      rd.exhausted || full ==> |budget| <= n
    }

    // The same, read in the resource that a schema object starts.
    function In(o: Fields): Reader {
      this.(root := Scope(root, o))
    }

    function Out(r: Fields): Reader {
      this.(root' := Scope(root', r))
    }

    ghost predicate MeetsBefore(o: Fields, x: Json) {
      Meets(rd, root, n, o, x)
    }

    ghost predicate MeetsAfter(r: Fields, x: Json) {
      Meets(rd, root', n', r, x)
    }

    function Deeper(): Reader
      requires n > 0
    {
      this.(n := n - 1)
    }
  }

  lemma MetaIsAnnotation(w: Reader, source: Fields, target: Json, x: Json)
    requires w.After(target, x)
    ensures w.After(PreserveMeta(source, target), x)
  {
    if target.Obj? {
      var o := target.fields;
      SameScope(w, source, o);
      MetaMembersHold(w.Out(o), source, o, x);
    }
  }

  lemma SameScope(w: Reader, source: Fields, o: Fields)
    ensures Scope(w.root', o + Meta(source)) == Scope(w.root', o)
    ensures w.Out(o + Meta(source)) == w.Out(o)
  {
    MetaIsNoSibling(w.rd, source, o);
    MetaKeys(source);
    assert "$id" !in Meta(source);
  }

  lemma MetaMembersHold(w: Reader, source: Fields, o: Fields, x: Json)
    requires w.MeetsAfter(o, x)
    ensures w.MeetsAfter(o + Meta(source), x)
  {
    var r := o + Meta(source);
    forall k | k in r
      ensures Holds(w.rd, w.root', w.n', r, k, x)
    {
      MetaMemberHolds(w, source, o, k, x);
    }
    if HasString(r, "$ref") {
      MetaMemberHolds(w, source, o, "$ref", x);
      assert RefHolds(w.rd, w.root', w.n', o, x);
      assert RefHolds(w.rd, w.root', w.n', r, x);
    }
  }

  lemma MetaKeys(source: Fields)
    ensures Meta(source).Keys <= {"description", "title", "default"}
  {
    assert forall k | k in META_KEYS :: k == "description" || k == "title" || k == "default";
  }

  lemma SameCompanions(o: Fields, r: Fields)
    requires forall k | k in COMPANIONS :: (k in r <==> k in o) && (k in o ==> r[k] == o[k])
    ensures Companions(r) == Companions(o)
  {
  }

  lemma MetaIsNoCompanion(o: Fields, m: Fields)
    requires m.Keys <= {"description", "title", "default"}
    ensures Companions(o + m) == Companions(o)
  {
    assert COMPANIONS !! {"description", "title", "default"};
    SameCompanions(o, o + m);
  }

  lemma MetaIsNoSibling(rd: Reading, source: Fields, o: Fields)
    ensures var r := o + Meta(source);
            && Companions(r) == Companions(o) && PrefixLength(r) == PrefixLength(o) && Speaking(r) == Speaking(o)
            && PropertyNames(r) == PropertyNames(o) && forall p :: Covered(rd, r, p) <==> Covered(rd, o, p)
  {
    MetaKeys(source);
    MetaIsNoCompanion(o, Meta(source));
    assert "properties" !in Meta(source) && "patternProperties" !in Meta(source) && "prefixItems" !in Meta(source);
  }

  lemma MetaMemberHolds(w: Reader, source: Fields, o: Fields, k: string, x: Json)
    requires w.MeetsAfter(o, x) && k in o + Meta(source)
    ensures Holds(w.rd, w.root', w.n', o + Meta(source), k, x)
    ensures k == "$ref" ==> k in o && (o + Meta(source))[k] == o[k]
  {
    if k in Meta(source) {
      MetaKeysAreOrdinary(k, Gemini);
      assert k in ANNOTATIONS;
    } else {
      assert Holds(w.rd, w.root', w.n', o, k, x);
      MetaIsNoSibling(w.rd, source, o);
    }
  }

  lemma {:induction false} NonNullKeeps(variants: seq<Json>, v: Json)
    requires v in variants && !IsNullSchema(v)
    ensures v in NonNull(variants)
  {
    if variants[0] != v {
      NonNullKeeps(variants[1..], v);
    }
  }

  // A schema the cleaner takes for the null type accepts only null.
  lemma NullSchemaRejects(w: Reader, v: Json, x: Json)
    requires IsNullSchema(v) && x != Null
    ensures !w.After(v, x)
  {
    var o := v.fields;
    var k := if "const" in o && o["const"] == Null then "const"
      else if HasArray(o, "enum") && o["enum"].items == [Null] then "enum" else "type";
    assert !Says(o, k, x);
    if w.After(v, x) {
      ValidSays(w.rd, w.root', w.n', o, k, x);
    }
  }

  lemma EnumAccepts(w: Reader, variants: seq<Json>, i: nat, x: Json)
    requires FlattensToEnum(variants) && i < |variants|
    requires w.After(variants[i], x)
    ensures w.After(EnumOf(variants), x)
  {
    var v := variants[i].fields;
    assert IsLiteral(variants[i]);
    ValidSays(w.rd, w.root', w.n', v, "type", x);
    ValidSays(w.rd, w.root', w.n', v, if "const" in v then "const" else "enum", x);
    assert x == LiteralOf(variants[i]).value;
    var o := EnumOf(variants).fields;
    assert o["enum"].items[i] == x;
    TypeAndEnumSuffice(w, o, x);
  }

  lemma TypeAndEnumSuffice(w: Reader, o: Fields, x: Json)
    requires o.Keys == {"type", "enum"} && Says(o, "type", x) && Says(o, "enum", x)
    ensures w.After(Obj(o), x)
  {
    HoldsWhenSaid(w.rd, w.root', w.n', o, "type", x);
    HoldsWhenSaid(w.rd, w.root', w.n', o, "enum", x);
    assert w.MeetsAfter(o, x);
  }

  lemma DecisionAccepts(w: Reader, cleaned: seq<Json>, i: nat, x: Json)
    requires i < |cleaned| && w.After(cleaned[i], x) && x != Null
    requires UnionDecision(cleaned).Some?
    ensures w.After(UnionDecision(cleaned).value, x)
  {
    if IsNullSchema(cleaned[i]) {
      NullSchemaRejects(w, cleaned[i], x);
    }
    NonNullKeeps(cleaned, cleaned[i]);
    var kept := NonNull(cleaned);
    var k :| 0 <= k < |kept| && kept[k] == cleaned[i];
    if |kept| != 1 {
      EnumAccepts(w, kept, k, x);
    }
  }

  lemma {:induction false} WithoutNullTypeKeeps(types: seq<Json>, t: Json)
    requires t in types && t != Str("null")
    ensures t in WithoutNullType(types)
  {
    if types[0] != t {
      WithoutNullTypeKeeps(types[1..], t);
    }
  }

  lemma TypeArrayAccepts(types: seq<Json>, x: Json)
    requires TypeAllows(Arr(types), x) && x != Null
    ensures TypeAllows(CleanTypeArray(types), x)
  {
    var i :| 0 <= i < |types| && types[i].Str? && TypeIs(types[i].s, x);
    WithoutNullTypeKeeps(types, types[i]);
    var kept := WithoutNullType(types);
    var k :| 0 <= k < |kept| && kept[k] == types[i];
  }

  lemma RenamedConstAccepts(w: Reader, o: Fields, c: Context, stack: set<string>, x: Json)
    requires "const" in o && "enum" !in o && x == o["const"]
    ensures var r := CleanFields(o, c, stack); "enum" in r && Holds(w.rd, w.root', w.n', r, "enum", x)
  {
    assert CleanFields(o, c, stack)["enum"].items == [o["const"]];
  }

  lemma SamePropertyNames(o: Fields, c: Context, stack: set<string>)
    ensures PropertyNames(CleanFields(o, c, stack)) == PropertyNames(o)
  {
    var r := CleanFields(o, c, stack);
    if "properties" in o {
      assert Kept("properties", o, c.strategy);
      var v := o["properties"];
      assert r["properties"] == CleanField("properties", v, c, stack);
      assert v.Obj? ==> CleanProperties(v.fields, c, stack).Keys == v.fields.Keys;
    } else {
      assert "properties" !in OutKeys(o, c.strategy);
    }
  }

  // ---------------------------------------------------------------- siblings

  // Members that the meaning of other keywords refers to.
  const SIBLINGS: set<string> := COMPANIONS + {"patternProperties", "prefixItems"}

  // Some object in the value has a member that refers to the document it is
  // read in.
  predicate Dynamic(j: Json) {
    match j
    case Obj(o) => exists k | k in o :: k == "$dynamicRef" || k == "$recursiveRef" || Dynamic(o[k])
    case Arr(items) => exists i | 0 <= i < |items| :: Dynamic(items[i])
    case _ => false
  }

  // The value of a keyword outside the vocabulary, or of `enum`: a pass leaves
  // it alone, so it means what it meant.
  ghost predicate Foreign(k: string, v: Json, strategy: Strategy) {
    k !in SURROUNDED && Stable(v, strategy) && (k != "enum" ==> !Dynamic(v))
  }

  ghost predicate StableSiblings(o: Fields, strategy: Strategy) {
    forall k | k in o && k in SIBLINGS && Kept(k, o, strategy) :: Stable(o[k], strategy)
  }

  lemma SiblingField(o: Fields, k: string, c: Context, stack: set<string>)
    requires k in SIBLINGS && (Kept(k, o, c.strategy) ==> Stable(o[k], c.strategy))
    ensures var r := CleanFields(o, c, stack); (k in r <==> Kept(k, o, c.strategy)) && (k in r ==> r[k] == o[k])
  {
    if Kept(k, o, c.strategy) {
      assert CleanFields(o, c, stack)[k] == CleanField(k, o[k], c, stack) == Clean(o[k], c, stack);
      StableIsFixed(o[k], c, stack);
    }
  }

  lemma SiblingsAreSupported(k: string, o: Fields, strategy: Strategy)
    requires k in SIBLINGS && k in o && !Kept(k, o, strategy)
    ensures k == "patternProperties" && "additionalProperties" in strategy.Unsupported()
  {
  }

  // The cleaned object has the same companions, the same prefix and, where
  // `additionalProperties` is kept, covers the same properties.
  lemma SiblingsStay(rd: Reading, o: Fields, c: Context, stack: set<string>)
    requires StableSiblings(o, c.strategy)
    ensures var r := CleanFields(o, c, stack);
            && Companions(r) == Companions(o) && PrefixLength(r) == PrefixLength(o)
            && (Kept("additionalProperties", o, c.strategy) ==> forall p :: Covered(rd, r, p) <==> Covered(rd, o, p))
  {
    var r := CleanFields(o, c, stack);
    SamePropertyNames(o, c, stack);
    forall k | k in SIBLINGS
      ensures k in r ==> k in o && r[k] == o[k]
      ensures k in o && k !in r ==> k == "patternProperties" && "additionalProperties" in c.strategy.Unsupported()
    {
      SiblingField(o, k, c, stack);
      if k in o && !Kept(k, o, c.strategy) {
        SiblingsAreSupported(k, o, c.strategy);
      }
    }
    assert "patternProperties" !in COMPANIONS;
    SameCompanions(o, r);
  }
}
