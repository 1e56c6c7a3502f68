// Cleaning preserves meaning where nothing is lost: if no keyword that says
// something is dropped and no cycle is cut, a null-free instance is valid after
// cleaning exactly when it was valid before.
module SchemaExactness {
  import opened Wrappers
  import opened Json
  import opened SchemaCleaning
  import opened SchemaNormalForm
  import opened SchemaIdempotence
  import opened SchemaValidity
  import opened SchemaSteps

  // A variant that says no more than its type and its one literal.
  predicate OnlyLiteral(v: Json) {
    v.Obj? && v.fields.Keys <= {"type", "enum"} + (ANNOTATIONS - {"$ref"})
  }

  // A simplified union says nothing besides its variants, is not a `oneOf`
  // between several of them, and is flattened only from bare literals.
  ghost predicate LosslessUnion(o: Fields, cleaned: seq<Json>) {
    var kept := NonNull(cleaned);
    && o.Keys <= ANNOTATIONS + {UnionKey(o)}
    && (UnionKey(o) == "anyOf" || |kept| == 1)
    && (|kept| != 1 ==> forall i | 0 <= i < |kept| :: OnlyLiteral(kept[i]))
  }

  ghost predicate Lossless(root: Json, j: Json, c: Context, stack: set<string>)
    decreases Open(j, c, stack), j, 4
  {
    match j
    case Obj(o) => LosslessObject(Scope(root, o), o, c, stack)
    case _ => true
  }

  // Local references of the object start at the resource `root`.
  ghost predicate LosslessObject(root: Json, o: Fields, c: Context, stack: set<string>)
    decreases Open(Obj(o), c, stack), Obj(o), 3
  {
    if HasString(o, "$ref") then
      var ref := o["$ref"].s;
      && o.Keys <= ANNOTATIONS
      && ref !in stack && Resolves(ref, c.defs) && Faithful(root, ref, c)
      && Lossless(root, Definition(ref, c.defs), c, stack + {ref})
    else
      && (forall k | k in o :: k in ANNOTATIONS || Kept(k, o, c.strategy) || (k == "const" && "enum" !in o))
      && (forall k | k in o && Kept(k, o, c.strategy) :: LosslessMember(root, k, o[k], c, stack))
      && (SimplifyUnion(o, c, stack).Some? ==> LosslessUnion(o, CleanAll(o[UnionKey(o)].items, c, stack)))
  }

  ghost predicate LosslessMember(root: Json, k: string, v: Json, c: Context, stack: set<string>)
    decreases Open(v, c, stack), v, 5
  {
    if k == "type" then !v.Obj? && (v.Arr? ==> forall i | 0 <= i < |v.items| :: v.items[i].Str?)
    else if k == "$ref" then !v.Obj?
    else if k in ANNOTATIONS then true
    else if k == "properties" then v.Obj? ==> forall p | p in v.fields :: Lossless(root, v.fields[p], c, stack)
    else if IsUnionKey(k) then v.Arr? ==> forall i | 0 <= i < |v.items| :: Lossless(root, v.items[i], c, stack)
    else if k == "items" || k == "additionalProperties" then Lossless(root, v, c, stack)
    else Foreign(k, v, c.strategy)
  }

  // ------------------------------------------------------------ small steps

  lemma MetaIsInvisible(w: Reader, source: Fields, target: Json, x: Json)
    ensures w.After(PreserveMeta(source, target), x) <==> w.After(target, x)
  {
    if w.After(target, x) {
      MetaIsAnnotation(w, source, target, x);
    }
    if target.Obj? && w.After(PreserveMeta(source, target), x) {
      SameScope(w, source, target.fields);
      MetaCanGo(w.Out(target.fields), source, target.fields, x);
    }
  }

  lemma MetaCanGo(w: Reader, source: Fields, o: Fields, x: Json)
    requires w.MeetsAfter(o + Meta(source), x)
    ensures w.MeetsAfter(o, x)
  {
    var r := o + Meta(source);
    MetaIsNoSibling(w.rd, source, o);
    forall k | k in Meta(source)
      ensures k in ANNOTATIONS && k != "$ref"
    {
      MetaKeysAreOrdinary(k, Gemini);
    }
    forall k | k in o
      ensures Holds(w.rd, w.root', w.n', o, k, x)
    {
      assert Holds(w.rd, w.root', w.n', r, k, x);
    }
    if HasString(o, "$ref") {
      assert RefHolds(w.rd, w.root', w.n', r, x);
      assert RefHolds(w.rd, w.root', w.n', o, x);
    }
  }

  // What the flattened enum accepts, one of the literals accepts.
  lemma EnumPicks(w: Reader, variants: seq<Json>, x: Json) returns (i: nat)
    requires FlattensToEnum(variants) && forall i | 0 <= i < |variants| :: OnlyLiteral(variants[i])
    requires w.After(EnumOf(variants), x)
    ensures i < |variants| && w.After(variants[i], x)
  {
    i := EnumMember(w, variants, x);
    LiteralAccepts(w, variants[i], x);
  }

  lemma EnumMember(w: Reader, variants: seq<Json>, x: Json) returns (i: nat)
    requires FlattensToEnum(variants) && w.After(EnumOf(variants), x)
    ensures i < |variants| && LiteralOf(variants[i]) == Some(x) && TypeIs(TypeName(variants[i]), x)
  {
    var o := EnumOf(variants).fields;
    ValidSays(w.rd, w.root', w.n', o, "type", x);
    ValidSays(w.rd, w.root', w.n', o, "enum", x);
    i :| i < |variants| && o["enum"].items[i] == x;
  }

  lemma LiteralAccepts(w: Reader, v: Json, x: Json)
    requires OnlyLiteral(v) && IsLiteral(v) && LiteralOf(v) == Some(x) && TypeIs(TypeName(v), x)
    ensures w.After(v, x)
  {
    var o := v.fields;
    assert "const" !in o && "$ref" !in o;
    forall k | k in o
      ensures Holds(w.rd, Scope(w.root', o), w.n', o, k, x)
    {
    }
  }

  // The type array without null admits the same null-free instances.
  lemma TypeArrayIsExact(types: seq<Json>, x: Json)
    requires x != Null && forall i | 0 <= i < |types| :: types[i].Str?
    ensures TypeAllows(CleanTypeArray(types), x) <==> TypeAllows(Arr(types), x)
  {
    if TypeAllows(Arr(types), x) {
      TypeArrayAccepts(types, x);
    }
    WithoutNullTypeIsIdempotent(types);
    var kept := WithoutNullType(types);
    assert forall i | 0 <= i < |kept| :: kept[i] in types;
    if TypeAllows(CleanTypeArray(types), x) {
      assert |kept| != 0;
      var i :| 0 <= i < |kept| && kept[i].Str? && TypeIs(kept[i].s, x);
      assert kept[i] in types;
    }
  }

  // ------------------------------------------------------------- main proof

  lemma {:induction false} CleanIsExact(w: Reader, j: Json, c: Context, stack: set<string>, budget: set<string>, x: Json)
    requires Lossless(w.root, j, c, stack) && NullFree(x)
    requires Open(j, c, stack) <= budget && |budget| <= w.n
    ensures w.Before(j, x) <==> w.After(Clean(j, c, stack), x)
    decreases budget, j, 4
  {
    match j
    case Obj(o) =>
      if HasString(o, "$ref") {
        RefIsExact(w.In(o), o, c, stack, budget, x);
      } else if SimplifyUnion(o, c, stack).Some? {
        UnionIsExact(w.In(o), o, c, stack, budget, x);
      } else {
        FieldsAreExact(w.In(o), o, c, stack, budget, x);
      }
    case _ =>
  }

  lemma {:induction false} RefIsExact(w: Reader, o: Fields, c: Context, stack: set<string>, budget: set<string>, x: Json)
    requires HasString(o, "$ref") && LosslessObject(w.root, o, c, stack) && NullFree(x)
    requires Open(Obj(o), c, stack) <= budget && |budget| <= w.n
    ensures w.MeetsBefore(o, x) <==> w.After(Clean(Obj(o), c, stack), x)
    decreases budget, Obj(o), 3
  {
    var ref := o["$ref"].s;
    var d := Definition(ref, c.defs);
    assert ref in Refs(Obj(o));
    assert ref in budget;
    assert w.MeetsBefore(o, x) <==> w.Deeper().Before(d, x) by {
      AnnotatedReference(w, o, x, d);
    }
    CleanIsExact(w.Deeper(), d, c, stack + {ref}, budget - {ref}, x);
    MetaIsInvisible(w, o, Clean(d, c, stack + {ref}), x);
    assert Clean(Obj(o), c, stack) == ResolveRef(o, c, stack);
  }

  lemma AnnotatedReference(w: Reader, o: Fields, x: Json, d: Json)
    requires HasString(o, "$ref") && o.Keys <= ANNOTATIONS && w.n > 0 && Target(w.root, o["$ref"].s) == Some(d)
    ensures w.MeetsBefore(o, x) <==> w.Deeper().Before(d, x)
  {
    assert RefHolds(w.rd, w.root, w.n, o, x) <==> w.Deeper().Before(d, x);
    assert forall k | k in o :: Holds(w.rd, w.root, w.n, o, k, x);
  }

  lemma OnlyUnionSpeaks(w: Reader, o: Fields, key: string, x: Json)
    requires !HasString(o, "$ref") && key in o && o.Keys <= ANNOTATIONS + {key}
    ensures w.MeetsBefore(o, x) <==> Holds(w.rd, w.root, w.n, o, key, x)
  {
    assert forall k | k in o && k != key :: Holds(w.rd, w.root, w.n, o, k, x);
  }

  lemma {:induction false} UnionIsExact(w: Reader, o: Fields, c: Context, stack: set<string>, budget: set<string>, x: Json)
    requires !HasString(o, "$ref") && SimplifyUnion(o, c, stack).Some?
    requires LosslessObject(w.root, o, c, stack) && NullFree(x)
    requires Open(Obj(o), c, stack) <= budget && |budget| <= w.n
    ensures w.MeetsBefore(o, x) <==> w.After(Clean(Obj(o), c, stack), x)
    decreases budget, Obj(o), 3
  {
    var key := UnionKey(o);
    var variants := o[key].items;
    var cleaned := CleanAll(variants, c, stack);
    assert Kept(key, o, c.strategy) && LosslessMember(w.root, key, o[key], c, stack);
    VariantsAreExact(w, o[key], c, stack, budget, x);
    OnlyUnionSpeaks(w, o, key, x);
    DecisionIsExact(w, o, cleaned, x);
    MetaIsInvisible(w, o, UnionDecision(cleaned).value, x);
  }

  lemma {:induction false} VariantsAreExact(w: Reader, v: Json, c: Context, stack: set<string>, budget: set<string>, x: Json)
    requires v.Arr? && (forall i | 0 <= i < |v.items| :: Lossless(w.root, v.items[i], c, stack)) && NullFree(x)
    requires Open(v, c, stack) <= budget && |budget| <= w.n
    ensures forall i | 0 <= i < |v.items| :: w.Before(v.items[i], x) <==> w.After(CleanAll(v.items, c, stack)[i], x)
    decreases budget, v, 4
  {
    forall i | 0 <= i < |v.items|
      ensures w.Before(v.items[i], x) <==> w.After(CleanAll(v.items, c, stack)[i], x)
    {
      CleanIsExact(w, v.items[i], c, stack, budget, x);
    }
  }

  // The union and its simplified form agree once the variants do.
  lemma DecisionIsExact(w: Reader, o: Fields, cleaned: seq<Json>, x: Json)
    requires HasUnion(o) && o[UnionKey(o)].Arr? && |cleaned| == |o[UnionKey(o)].items| && x != Null
    requires forall i | 0 <= i < |cleaned| :: w.Before(o[UnionKey(o)].items[i], x) <==> w.After(cleaned[i], x)
    requires UnionDecision(cleaned).Some? && LosslessUnion(o, cleaned)
    ensures Holds(w.rd, w.root, w.n, o, UnionKey(o), x) <==> w.After(UnionDecision(cleaned).value, x)
  {
    if Holds(w.rd, w.root, w.n, o, UnionKey(o), x) {
      var i := HoldingVariant(w, o, UnionKey(o), x);
      DecisionAccepts(w, cleaned, i, x);
    }
    if w.After(UnionDecision(cleaned).value, x) {
      var i := DecisionPicks(w, cleaned, x);
      VariantHolds(w, o, UnionKey(o), i, x);
    }
  }

  lemma HoldingVariant(w: Reader, o: Fields, key: string, x: Json) returns (i: nat)
    requires (key == "anyOf" || key == "oneOf") && key in o && o[key].Arr? && Holds(w.rd, w.root, w.n, o, key, x)
    ensures i < |o[key].items| && w.Before(o[key].items[i], x)
  {
    i :| i < |o[key].items| && w.Before(o[key].items[i], x);
  }

  lemma VariantHolds(w: Reader, o: Fields, key: string, i: nat, x: Json)
    requires (key == "anyOf" || key == "oneOf") && key in o && o[key].Arr? && i < |o[key].items|
    requires w.Before(o[key].items[i], x)
    requires key == "oneOf" ==> forall k | 0 <= k < |o[key].items| && k != i :: !w.Before(o[key].items[k], x)
    ensures Holds(w.rd, w.root, w.n, o, key, x)
  {
    assert Valid(w.rd, w.root, w.n, o[key].items[i], x);
  }

  // Some variant accepts what the decision accepts; a lone survivor is the only one.
  lemma DecisionPicks(w: Reader, cleaned: seq<Json>, x: Json) returns (i: nat)
    requires UnionDecision(cleaned).Some? && w.After(UnionDecision(cleaned).value, x) && x != Null
    requires |NonNull(cleaned)| != 1 ==> forall i | 0 <= i < |NonNull(cleaned)| :: OnlyLiteral(NonNull(cleaned)[i])
    ensures i < |cleaned| && w.After(cleaned[i], x)
    ensures |NonNull(cleaned)| == 1 ==> forall k | 0 <= k < |cleaned| && k != i :: !w.After(cleaned[k], x)
  {
    var kept := NonNull(cleaned);
    if |kept| == 1 {
      i := SingleSurvivor(cleaned);
      forall k | 0 <= k < |cleaned| && k != i
        ensures !w.After(cleaned[k], x)
      {
        NullSchemaRejects(w, cleaned[k], x);
      }
    } else {
      NonNullIsSublist(cleaned);
      var k := EnumPicks(w, kept, x);
      assert kept[k] in kept;
      i :| i < |cleaned| && cleaned[i] == kept[k];
    }
  }

  lemma {:induction false} FieldsAreExact(w: Reader, o: Fields, c: Context, stack: set<string>, budget: set<string>, x: Json)
    requires !HasString(o, "$ref") && SimplifyUnion(o, c, stack).None?
    requires LosslessObject(w.root, o, c, stack) && NullFree(x)
    requires Open(Obj(o), c, stack) <= budget && |budget| <= w.n
    ensures w.MeetsBefore(o, x) <==> w.After(Clean(Obj(o), c, stack), x)
    decreases budget, Obj(o), 3
  {
    var r := CleanFields(o, c, stack);
    assert Clean(Obj(o), c, stack) == Obj(r);
    LosslessSiblings(w.root, o, c, stack);
    var v := w.Out(r);
    forall k | k in o
      ensures Matched(v, o, r, c, k, x)
    {
      if Kept(k, o, c.strategy) {
        assert LosslessMember(w.root, k, o[k], c, stack);
        assert Open(o[k], c, stack) <= Open(Obj(o), c, stack);
        MemberIsExact(v, o, k, c, stack, budget, x);
      }
    }
    if v.MeetsBefore(o, x) {
      FieldsForward(v, o, r, c, stack, x);
    }
    if v.MeetsAfter(r, x) {
      FieldsBackward(v, o, r, c, stack, x);
    }
  }

  lemma SiblingIsForeign(k: string)
    requires k in SIBLINGS
    ensures k != "type" && k != "$ref" && k !in ANNOTATIONS && k != "properties" && !IsUnionKey(k)
    ensures k != "items" && k != "additionalProperties"
  {
  }

  lemma LosslessSiblings(root: Json, o: Fields, c: Context, stack: set<string>)
    requires forall k | k in o && Kept(k, o, c.strategy) :: LosslessMember(root, k, o[k], c, stack)
    ensures StableSiblings(o, c.strategy)
  {
    forall k | k in o && k in SIBLINGS && Kept(k, o, c.strategy)
      ensures Stable(o[k], c.strategy)
    {
      SiblingIsForeign(k);
      assert LosslessMember(root, k, o[k], c, stack);
    }
  }

  ghost predicate MemberAgrees(w: Reader, o: Fields, r: Fields, k: string, x: Json)
    requires k in o
  {
    && k in r
    && (Holds(w.rd, w.root, w.n, o, k, x) <==> Holds(w.rd, w.root', w.n', r, k, x))
    && (k == "$ref" ==> !r[k].Str?)
  }

  // Every member has a counterpart in the result that says the same.
  ghost predicate Matched(w: Reader, o: Fields, r: Fields, c: Context, k: string, x: Json)
    requires k in o
  {
    && (k in ANNOTATIONS || Kept(k, o, c.strategy) || (k == "const" && "enum" !in o))
    && (Kept(k, o, c.strategy) ==> MemberAgrees(w, o, r, k, x))
  }

  lemma FieldsForward(w: Reader, o: Fields, r: Fields, c: Context, stack: set<string>, x: Json)
    requires !HasString(o, "$ref") && r == CleanFields(o, c, stack)
    requires (forall k | k in o :: Matched(w, o, r, c, k, x)) && w.MeetsBefore(o, x)
    ensures w.MeetsAfter(r, x)
  {
    assert "const" in o ==> Matched(w, o, r, c, "const", x);
    forall k | k in r
      ensures Holds(w.rd, w.root', w.n', r, k, x) && (k == "$ref" ==> !r[k].Str?)
    {
      assert k in o ==> Matched(w, o, r, c, k, x);
      OutputHolds(w, o, r, c, stack, k, x);
    }
  }

  lemma FieldsBackward(w: Reader, o: Fields, r: Fields, c: Context, stack: set<string>, x: Json)
    requires !HasString(o, "$ref") && r == CleanFields(o, c, stack)
    requires (forall k | k in o :: Matched(w, o, r, c, k, x)) && w.MeetsAfter(r, x)
    ensures w.MeetsBefore(o, x)
  {
    forall k | k in o
      ensures Holds(w.rd, w.root, w.n, o, k, x)
    {
      assert Matched(w, o, r, c, k, x);
      InputHolds(w, o, r, c, stack, k, x);
    }
  }

  lemma RenamedConstAgrees(w: Reader, o: Fields, r: Fields, c: Context, stack: set<string>, x: Json)
    requires r == CleanFields(o, c, stack) && "const" in o && "enum" !in o
    ensures "enum" in r && (Holds(w.rd, w.root, w.n, o, "const", x) <==> Holds(w.rd, w.root', w.n', r, "enum", x))
  {
    assert r["enum"].items == [o["const"]];
  }

  lemma OutputHolds(w: Reader, o: Fields, r: Fields, c: Context, stack: set<string>, k: string, x: Json)
    requires r == CleanFields(o, c, stack) && k in r && w.MeetsBefore(o, x)
    requires k in o ==> Matched(w, o, r, c, k, x)
    requires "const" in o ==> Matched(w, o, r, c, "const", x)
    ensures Holds(w.rd, w.root', w.n', r, k, x) && (k == "$ref" ==> !r[k].Str?)
  {
    if Kept(k, o, c.strategy) {
      assert Holds(w.rd, w.root, w.n, o, k, x);
    } else {
      RenamedConstAgrees(w, o, r, c, stack, x);
      assert Holds(w.rd, w.root, w.n, o, "const", x);
    }
  }

  lemma InputHolds(w: Reader, o: Fields, r: Fields, c: Context, stack: set<string>, k: string, x: Json)
    requires r == CleanFields(o, c, stack) && k in o && w.MeetsAfter(r, x)
    requires Matched(w, o, r, c, k, x)
    ensures Holds(w.rd, w.root, w.n, o, k, x)
  {
    if Kept(k, o, c.strategy) {
      assert Holds(w.rd, w.root', w.n', r, k, x);
    } else if k !in ANNOTATIONS {
      RenamedConstAgrees(w, o, r, c, stack, x);
      assert Holds(w.rd, w.root', w.n', r, "enum", x);
    }
  }

  lemma {:induction false} MemberIsExact(w: Reader, o: Fields, k: string, c: Context, stack: set<string>, budget: set<string>, x: Json)
    requires !HasString(o, "$ref") && k in o && Kept(k, o, c.strategy)
    requires LosslessMember(w.root, k, o[k], c, stack) && StableSiblings(o, c.strategy) && NullFree(x)
    requires Open(o[k], c, stack) <= budget && |budget| <= w.n
    ensures MemberAgrees(w, o, CleanFields(o, c, stack), k, x)
    decreases budget, o[k], 6
  {
    var r := CleanFields(o, c, stack);
    var v := o[k];
    assert k in r && r[k] == CleanField(k, v, c, stack);
    if k == "type" {
      if v.Arr? {
        TypeArrayIsExact(v.items, x);
      } else {
        assert Clean(v, c, stack) == v;
      }
    } else if k == "$ref" {
      CleanKeepsNonString(v, c, stack);
    } else if k in ANNOTATIONS {
    } else if IsUnionKey(k) {
      if v.Arr? {
        assert r[k] == Arr(CleanAll(v.items, c, stack));
        VariantsAreExact(w, v, c, stack, budget, x);
        SameVerdicts(w, o, r, k, x);
      }
    } else if k == "properties" {
      if v.Obj? && x.Obj? {
        assert r[k] == Obj(CleanProperties(v.fields, c, stack));
        PropertiesAreExact(w, v, c, stack, budget, x);
      }
    } else if k == "items" || k == "additionalProperties" {
      SiblingsStay(w.rd, o, c, stack);
      PartsAreExact(w, v, c, stack, budget);
      PartsAgree(w, o, r, k, c, stack, x);
    } else {
      SiblingsStay(w.rd, o, c, stack);
      StableIsFixed(v, c, stack);
    }
  }

  lemma {:induction false} PropertiesAreExact(w: Reader, v: Json, c: Context, stack: set<string>, budget: set<string>, x: Json)
    requires v.Obj? && x.Obj? && NullFree(x) && forall p | p in v.fields :: Lossless(w.root, v.fields[p], c, stack)
    requires Open(v, c, stack) <= budget && |budget| <= w.n
    ensures forall p | p in v.fields && p in x.fields ::
              w.Before(v.fields[p], x.fields[p]) <==> w.After(CleanProperties(v.fields, c, stack)[p], x.fields[p])
    decreases budget, v, 5
  {
    forall p | p in v.fields && p in x.fields
      ensures w.Before(v.fields[p], x.fields[p]) <==> w.After(CleanProperties(v.fields, c, stack)[p], x.fields[p])
    {
      CleanIsExact(w, v.fields[p], c, stack, budget, x.fields[p]);
    }
  }

  // One schema, applied to several parts of the instance.
  lemma {:induction false} PartsAreExact(w: Reader, v: Json, c: Context, stack: set<string>, budget: set<string>)
    requires Lossless(w.root, v, c, stack) && Open(v, c, stack) <= budget && |budget| <= w.n
    ensures forall x | NullFree(x) :: w.Before(v, x) <==> w.After(Clean(v, c, stack), x)
    decreases budget, v, 5
  {
    forall x | NullFree(x)
      ensures w.Before(v, x) <==> w.After(Clean(v, c, stack), x)
    {
      CleanIsExact(w, v, c, stack, budget, x);
    }
  }

  lemma PartsAgree(w: Reader, o: Fields, r: Fields, k: string, c: Context, stack: set<string>, x: Json)
    requires (k == "items" || k == "additionalProperties") && k in o && k in r && r[k] == Clean(o[k], c, stack)
    requires NullFree(x) && forall y | NullFree(y) :: w.Before(o[k], y) <==> w.After(r[k], y)
    requires PrefixLength(r) == PrefixLength(o)
    requires k == "additionalProperties" ==> forall p :: Covered(w.rd, r, p) <==> Covered(w.rd, o, p)
    ensures Holds(w.rd, w.root, w.n, o, k, x) <==> Holds(w.rd, w.root', w.n', r, k, x)
  {
    if k == "items" && x.Arr? {
      forall i | 0 <= i < |x.items|
        ensures w.Before(o[k], x.items[i]) <==> w.After(r[k], x.items[i])
      {
      }
    } else if k == "additionalProperties" && x.Obj? {
      forall p | p in x.fields
        ensures w.Before(o[k], x.fields[p]) <==> w.After(r[k], x.fields[p])
      {
      }
    }
  }

  // A union left in place agrees once its variants do, `oneOf` included.
  lemma SameVerdicts(w: Reader, o: Fields, r: Fields, k: string, x: Json)
    requires IsUnionKey(k) && k in o && k in r && o[k].Arr? && r[k].Arr? && |o[k].items| == |r[k].items|
    requires forall i | 0 <= i < |o[k].items| :: w.Before(o[k].items[i], x) <==> w.After(r[k].items[i], x)
    ensures Holds(w.rd, w.root, w.n, o, k, x) <==> Holds(w.rd, w.root', w.n', r, k, x)
  {
    var before, after := Document(w.rd, w.root, w.n), Document(w.rd, w.root', w.n');
    forall i | 0 <= i < |o[k].items|
      ensures before.Accepts(o[k].items[i], x) == after.Accepts(r[k].items[i], x)
    {
      assert w.Before(o[k].items[i], x) <==> w.After(r[k].items[i], x);
    }
    if Holds(w.rd, w.root, w.n, o, k, x) {
      VerdictsCarry(before, o, after, r, k, x);
    }
    if Holds(w.rd, w.root', w.n', r, k, x) {
      VerdictsCarry(after, r, before, o, k, x);
    }
  }

  datatype Document = Document(rd: Reading, root: Json, n: nat) {
    ghost predicate Accepts(s: Json, x: Json) {
      Valid(rd, root, n, s, x)
    }
  }

  lemma VerdictsCarry(d: Document, o: Fields, d': Document, r: Fields, k: string, x: Json)
    requires IsUnionKey(k) && k in o && k in r && o[k].Arr? && r[k].Arr? && |o[k].items| == |r[k].items|
    requires forall i | 0 <= i < |o[k].items| :: d.Accepts(o[k].items[i], x) == d'.Accepts(r[k].items[i], x)
    requires Holds(d.rd, d.root, d.n, o, k, x)
    ensures Holds(d'.rd, d'.root, d'.n, r, k, x)
  {
    var (variants, cleaned) := (o[k].items, r[k].items);
    if k == "anyOf" {
      var i :| 0 <= i < |variants| && d.Accepts(variants[i], x);
      assert d'.Accepts(cleaned[i], x);
    } else if k == "oneOf" {
      var i :| 0 <= i < |variants| && d.Accepts(variants[i], x) &&
        forall i' | 0 <= i' < |variants| && i' != i :: !d.Accepts(variants[i'], x);
      assert d'.Accepts(cleaned[i], x);
      forall i' | 0 <= i' < |cleaned| && i' != i
        ensures !Valid(d'.rd, d'.root, d'.n, cleaned[i'], x)
      {
        assert !d.Accepts(variants[i'], x);
      }
    } else {
      forall i | 0 <= i < |cleaned|
        ensures Valid(d'.rd, d'.root, d'.n, cleaned[i], x)
      {
        assert d.Accepts(variants[i], x);
      }
    }
  }

  // Main result, for a whole document under any strategy.
  lemma CleanSchemaIsExact(w: Reader, strategy: Strategy, x: Json)
    requires var c := RootContext(w.root, strategy);
             Lossless(w.root, w.root, c, {}) && |Open(w.root, c, {})| <= w.n
    requires NullFree(x)
    ensures w.Before(w.root, x) <==> w.After(CleanSchema(w.root, strategy), x)
  {
    var c := RootContext(w.root, strategy);
    CleanIsExact(w, w.root, c, {}, Open(w.root, c, {}), x);
  }
}
