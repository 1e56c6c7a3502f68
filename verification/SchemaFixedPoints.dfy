// Exactly which schemas a pass leaves alone, and from that exactly when a
// second pass changes what the first one copied uncleaned.
module SchemaFixedPoints {
  import opened Json
  import opened SchemaCleaning
  import opened SchemaNormalForm
  import opened SchemaIdempotence

  // ------------------------------------------------------------ union depth

  function Max(a: nat, b: nat): nat {
    if a >= b then a else b
  }

  // How deep unions are nested inside each other.
  ghost function UnionDepth(j: Json): nat
    decreases j, 0
  {
    match j
    case Obj(o) => 1 + Max(DepthUnder(o, "anyOf"), DepthUnder(o, "oneOf"))
    case _ => 0
  }

  ghost function DepthUnder(o: Fields, key: string): nat
    decreases Obj(o), -1
  {
    if HasArray(o, key) then Deepest(o[key], |o[key].items|) else 0
  }

  ghost function Deepest(union: Json, n: nat): (d: nat)
    requires union.Arr? && n <= |union.items|
    ensures forall i | 0 <= i < n :: UnionDepth(union.items[i]) <= d
    decreases union, n
  {
    if n == 0 then 0 else Max(Deepest(union, n - 1), UnionDepth(union.items[n - 1]))
  }

  lemma {:induction false} DeepestBounded(union: Json, n: nat, d: nat)
    requires union.Arr? && n <= |union.items| && forall i | 0 <= i < n :: UnionDepth(union.items[i]) <= d
    ensures Deepest(union, n) <= d
  {
    if n > 0 {
      DeepestBounded(union, n - 1, d);
    }
  }

  lemma VariantIsShallower(o: Fields, key: string, i: nat)
    requires (key == "anyOf" || key == "oneOf") && HasArray(o, key) && i < |o[key].items|
    ensures UnionDepth(o[key].items[i]) < UnionDepth(Obj(o))
  {
    assert UnionDepth(o[key].items[i]) <= DepthUnder(o, key);
  }

  lemma MetaKeepsDepth(source: Fields, target: Json)
    ensures UnionDepth(PreserveMeta(source, target)) == UnionDepth(target)
  {
    if target.Obj? {
      var r := target.fields + Meta(source);
      forall key | key == "anyOf" || key == "oneOf"
        ensures DepthUnder(r, key) == DepthUnder(target.fields, key)
      {
        if key in Meta(source) {
          MetaKeysAreOrdinary(key, Gemini);
        }
      }
    }
  }

  // Cleaning a schema in normal form never nests unions deeper.
  lemma {:induction false} CleanIsNoDeeper(j: Json, c: Context, stack: set<string>)
    requires NormalForm(j, c.strategy)
    ensures UnionDepth(Clean(j, c, stack)) <= UnionDepth(j)
    decreases j, 1
  {
    if j.Obj? {
      var o := j.fields;
      if SimplifyUnion(o, c, stack).Some? {
        SimplifiedIsNoDeeper(o, c, stack);
      } else {
        MembersAreNoDeeper(o, "anyOf", c, stack);
        MembersAreNoDeeper(o, "oneOf", c, stack);
      }
    }
  }

  lemma {:induction false} SimplifiedIsNoDeeper(o: Fields, c: Context, stack: set<string>)
    requires NormalForm(Obj(o), c.strategy) && SimplifyUnion(o, c, stack).Some?
    ensures UnionDepth(SimplifyUnion(o, c, stack).value) <= UnionDepth(Obj(o))
    decreases Obj(o), 0
  {
    var key := UnionKey(o);
    var variants := o[key].items;
    var cleaned := CleanAll(variants, c, stack);
    var kept := NonNull(cleaned);
    MetaKeepsDepth(o, UnionDecision(cleaned).value);
    if |kept| == 1 {
      var i := SurvivorIndex(cleaned);
      assert NormalMember(key, o[key], c.strategy);
      CleanIsNoDeeper(variants[i], c, stack);
      VariantIsShallower(o, key, i);
    }
  }

  lemma SurvivorIndex(cleaned: seq<Json>) returns (i: nat)
    requires |NonNull(cleaned)| == 1
    ensures i < |cleaned| && cleaned[i] == NonNull(cleaned)[0]
  {
    NonNullIsSublist(cleaned);
    assert NonNull(cleaned)[0] in NonNull(cleaned);
    i :| i < |cleaned| && cleaned[i] == NonNull(cleaned)[0];
  }

  lemma {:induction false} MembersAreNoDeeper(o: Fields, key: string, c: Context, stack: set<string>)
    requires NormalForm(Obj(o), c.strategy) && (key == "anyOf" || key == "oneOf")
    ensures DepthUnder(CleanFields(o, c, stack), key) <= DepthUnder(o, key)
    decreases Obj(o), 0
  {
    var r := CleanFields(o, c, stack);
    if HasArray(o, key) {
      assert r[key] == CleanField(key, o[key], c, stack) == Arr(CleanAll(o[key].items, c, stack));
      forall i | 0 <= i < |r[key].items|
        ensures UnionDepth(r[key].items[i]) <= DepthUnder(o, key)
      {
        assert NormalMember(key, o[key], c.strategy);
        CleanIsNoDeeper(o[key].items[i], c, stack);
      }
      DeepestBounded(r[key], |r[key].items|, DepthUnder(o, key));
    } else if key in r {
      assert r[key] == CleanField(key, o[key], c, stack) == o[key];
    }
  }

  // -------------------------------------------------------------- fixed points

  // A union that simplifies is never returned unchanged.
  lemma SimplifiedIsDifferent(o: Fields, c: Context, stack: set<string>)
    requires NormalForm(Obj(o), c.strategy) && SimplifyUnion(o, c, stack).Some?
    ensures SimplifyUnion(o, c, stack).value != Obj(o)
  {
    var key := UnionKey(o);
    var variants := o[key].items;
    var cleaned := CleanAll(variants, c, stack);
    var chosen := UnionDecision(cleaned).value;
    if PreserveMeta(o, chosen) == Obj(o) {
      if key in Meta(o) {
        MetaKeysAreOrdinary(key, Gemini);
      }
      assert chosen.Obj? && key in chosen.fields && chosen.fields[key] == o[key];
      assert |NonNull(cleaned)| == 1;
      var i := SurvivorIndex(cleaned);
      assert NormalMember(key, o[key], c.strategy);
      CleanIsNoDeeper(variants[i], c, stack);
      VariantIsShallower(chosen.fields, key, i);
    }
  }

  // Main result 1: in any context, a pass returns a schema unchanged exactly
  // when the schema has the stable shape.
  lemma FixedIffStable(j: Json, c: Context, stack: set<string>)
    requires RefsFit(j, c)
    ensures Clean(j, c, stack) == j <==> Stable(j, c.strategy)
  {
    if Stable(j, c.strategy) {
      StableIsFixed(j, c, stack);
    } else if Clean(j, c, stack) == j {
      FixedIsStable(j, c, stack);
    }
  }

  // Under OpenAI the hypothesis on `$ref` members is needed: a reference whose
  // definition collapses to that same reference is left alone, yet not stable.
  lemma LoopedReferenceIsFixed(ref: string, c: Context)
    requires c.strategy.OpenAI? && Resolves(ref, c.defs) && Definition(ref, c.defs) == Obj(Collapsing(ref))
    ensures var j := Obj(map["$ref" := Str(ref)]); Clean(j, c, {}) == j && !Stable(j, c.strategy)
  {
    var o: Fields := map["$ref" := Str(ref)];
    CollapsesToReference(ref, c, {} + {ref});
    assert Clean(Obj(o), c, {}) == ResolveRef(o, c, {}) == PreserveMeta(o, Obj(o));
    assert Meta(o) == map[] by {
      forall k | k in META_KEYS
        ensures k !in o
      {
        MetaKeysAreOrdinary(k, OpenAI);
      }
    }
    assert o + Meta(o) == o;
  }

  lemma {:induction false} FixedIsStable(j: Json, c: Context, stack: set<string>)
    requires RefsFit(j, c) && Clean(j, c, stack) == j
    ensures Stable(j, c.strategy)
    decreases j, 1
  {
    CleanIsNormal(j, c, stack);
    match j
    case Obj(o) =>
      if SimplifyUnion(o, c, stack).Some? {
        assert Clean(j, c, stack) == SimplifyUnion(o, c, stack).value;
        SimplifiedIsDifferent(o, c, stack);
      } else {
        FixedFieldsAreStable(o, c, stack);
      }
    case Arr(items) =>
      forall i | 0 <= i < |items|
        ensures Stable(items[i], c.strategy)
      {
        assert CleanAll(items, c, stack)[i] == Clean(items[i], c, stack);
        FixedIsStable(items[i], c, stack);
      }
    case _ =>
  }

  lemma {:induction false} FixedFieldsAreStable(o: Fields, c: Context, stack: set<string>)
    requires RefsFit(Obj(o), c) && NormalForm(Obj(o), c.strategy)
    requires SimplifyUnion(o, c, stack).None? && CleanFields(o, c, stack) == o
    ensures Stable(Obj(o), c.strategy)
    decreases Obj(o), 0
  {
    forall k | k in o
      ensures Kept(k, o, c.strategy) && StableMember(k, o[k], c.strategy)
    {
      assert k in OutKeys(o, c.strategy);
      assert CleanField(k, o[k], c, stack) == o[k];
      FixedMemberIsStable(o, k, c, stack);
    }
    if HasUnion(o) && o[UnionKey(o)].Arr? {
      var key := UnionKey(o);
      assert CleanField(key, o[key], c, stack) == Arr(CleanAll(o[key].items, c, stack));
    }
  }

  lemma {:induction false} FixedMemberIsStable(o: Fields, k: string, c: Context, stack: set<string>)
    requires k in o && RefsFit(Obj(o), c) && CleanField(k, o[k], c, stack) == o[k]
    ensures StableMember(k, o[k], c.strategy)
    decreases o[k], 2
  {
    var v := o[k];
    assert c.strategy.OpenAI? ==> PlainMember(k, v);
    if k == "type" && v.Arr? {
    } else if k == "properties" {
      if v.Obj? {
        forall p | p in v.fields
          ensures Stable(v.fields[p], c.strategy)
        {
          assert CleanProperties(v.fields, c, stack)[p] == Clean(v.fields[p], c, stack);
          FixedIsStable(v.fields[p], c, stack);
        }
      }
    } else if IsUnionKey(k) {
      if v.Arr? {
        forall i | 0 <= i < |v.items|
          ensures Stable(v.items[i], c.strategy)
        {
          assert CleanAll(v.items, c, stack)[i] == Clean(v.items[i], c, stack);
          FixedIsStable(v.items[i], c, stack);
        }
      }
    } else {
      FixedIsStable(v, c, stack);
    }
  }

  // ---------------------------------------------------------- the second pass

  // Main result 2: exactly when a second pass changes nothing, for every
  // document: everything the first pass copied and kept is stable.
  lemma CleanTwiceIff(schema: Json, strategy: Strategy)
    requires var once := CleanSchema(schema, strategy); RefsFit(once, RootContext(once, strategy))
    ensures var once := CleanSchema(schema, strategy);
            CleanSchema(once, strategy) == once <==> Settled(schema, RootContext(schema, strategy), {}, {})
  {
    var once := CleanSchema(schema, strategy);
    SecondPassIff(schema, RootContext(schema, strategy), {}, RootContext(once, strategy), {});
  }

  lemma SecondPassIff(j: Json, c: Context, stack: set<string>, c': Context, stack': set<string>)
    requires c'.strategy == c.strategy && RefsFit(Clean(j, c, stack), c')
    ensures var once := Clean(j, c, stack); Clean(once, c', stack') == once <==> Settled(j, c, stack, {})
  {
    CleanIsStableIff(j, c, stack, {});
    NothingHidden(Clean(j, c, stack), c.strategy);
    FixedIffStable(Clean(j, c, stack), c', stack');
  }

  // The four places where a pass copies, one by one.  After a reference was
  // replaced, by a settled definition or by the cycle breaker:
  lemma ReferenceTwiceIff(o: Fields, c: Context, stack: set<string>, c': Context, stack': set<string>)
    requires HasString(o, "$ref") && c'.strategy == c.strategy
    requires var ref := o["$ref"].s;
             ref !in stack && Resolves(ref, c.defs) ==> Settled(Definition(ref, c.defs), c, stack + {ref}, Meta(o).Keys)
    requires var once := Clean(Obj(o), c, stack); once.Obj? && RefsFit(once, c')
    ensures var once := Clean(Obj(o), c, stack);
            Clean(once, c', stack') == once <==> MetaStable(o, c.strategy)
  {
    SecondPassIff(Obj(o), c, stack, c', stack');
    assert {} + Meta(o).Keys == Meta(o).Keys;
    assert Clean(Obj(o), c, stack) == ResolveRef(o, c, stack);
  }

  // After a union was simplified to an object, by settled variants:
  lemma UnionTwiceIff(o: Fields, c: Context, stack: set<string>, c': Context, stack': set<string>)
    requires !HasString(o, "$ref") && SimplifyUnion(o, c, stack).Some? && c'.strategy == c.strategy
    requires forall i | 0 <= i < |o[UnionKey(o)].items| ::
               Settled(o[UnionKey(o)].items[i], c, stack, Meta(o).Keys) && Settled(o[UnionKey(o)].items[i], c, stack, {})
    requires var once := Clean(Obj(o), c, stack); once.Obj? && RefsFit(once, c')
    ensures var once := Clean(Obj(o), c, stack);
            Clean(once, c', stack') == once <==> MetaStable(o, c.strategy)
  {
    var cleaned := CleanAll(o[UnionKey(o)].items, c, stack);
    SecondPassIff(Obj(o), c, stack, c', stack');
    assert {} + Meta(o).Keys == Meta(o).Keys;
    ItemsAreStableIff(o[UnionKey(o)].items, c, stack);
    NonNullIsSublist(cleaned);
    LiteralsOfStable(NonNull(cleaned), c.strategy);
  }

  // After a lone `const` was renamed:
  lemma ConstTwiceIff(literal: Json, c: Context, stack: set<string>, c': Context, stack': set<string>)
    requires c'.strategy == c.strategy && RefsFit(Obj(map["enum" := Arr([literal])]), c')
    ensures var once := Clean(Obj(map["const" := literal]), c, stack);
            && once == Obj(map["enum" := Arr([literal])])
            && (Clean(once, c', stack') == once <==> Stable(literal, c.strategy))
  {
    OnlyConst(literal, c, stack);
    SecondPassIff(Obj(map["const" := literal]), c, stack, c', stack');
    LoneConstSettlesIff(map["const" := literal], c, stack);
  }

  lemma LoneConstSettlesIff(o: Fields, c: Context, stack: set<string>)
    requires o.Keys == {"const"}
    ensures Settled(Obj(o), c, stack, {}) <==> Stable(o["const"], c.strategy)
  {
    assert SimplifyUnion(o, c, stack).None?;
    assert forall k | k in o :: !Kept(k, o, c.strategy);
  }

  // A lone entry that may stand under `type` for good: an array of at least two
  // entries and no "null", or a stable value.
  ghost predicate LastingEntry(v: Json, strategy: Strategy) {
    if v.Arr? then |v.items| >= 2 && Str("null") !in v.items else Stable(v, strategy)
  }

  lemma {:induction false} NothingToDrop(types: seq<Json>)
    ensures |WithoutNullType(types)| <= |types|
    ensures |WithoutNullType(types)| == |types| <==> Str("null") !in types
    ensures Str("null") !in types ==> WithoutNullType(types) == types
    ensures Str("null") !in WithoutNullType(types)
  {
    if types != [] {
      NothingToDrop(types[1..]);
      assert types == [types[0]] + types[1..];
    }
  }

  lemma ArrayIsLastingIff(types: seq<Json>)
    ensures CleanTypeArray(types) == Arr(types) <==> |types| >= 2 && Str("null") !in types
  {
    NothingToDrop(types);
    WithoutNullTypeIsIdempotent(types);
    var kept := WithoutNullType(types);
    if |kept| == 1 {
      assert kept[0] in types;
      assert kept[0] < Arr(types);
    }
  }

  lemma LeftoverIsStableIff(types: seq<Json>, strategy: Strategy)
    ensures var kept := WithoutNullType(types);
            StableMember("type", CleanTypeArray(types), strategy) <==> (|kept| == 1 ==> LastingEntry(kept[0], strategy))
  {
    var kept := WithoutNullType(types);
    NothingToDrop(types);
    if |kept| >= 2 {
      ArrayIsLastingIff(kept);
    } else if |kept| == 1 && kept[0].Arr? {
      ArrayIsLastingIff(kept[0].items);
    }
  }

  // After a `type` array was cleaned; only an array with one entry besides
  // "null" can fail:
  lemma TypeArrayTwiceIff(types: seq<Json>, c: Context, stack: set<string>, c': Context, stack': set<string>)
    requires c'.strategy == c.strategy
    requires RefsFit(Obj(map["type" := CleanTypeArray(types)]), c')
    ensures var once := Clean(Obj(map["type" := Arr(types)]), c, stack);
            var kept := WithoutNullType(types);
            Clean(once, c', stack') == once <==> (|kept| == 1 ==> LastingEntry(kept[0], c.strategy))
  {
    OnlyTypeArray(types, c, stack);
    var once: Fields := map["type" := CleanTypeArray(types)];
    FixedIffStable(Obj(once), c', stack');
    OnlyTypeIsStable(once, c.strategy);
    LeftoverIsStableIff(types, c.strategy);
  }

  lemma OnlyTypeIsStable(o: Fields, strategy: Strategy)
    requires o.Keys == {"type"}
    ensures Stable(Obj(o), strategy) <==> StableMember("type", o["type"], strategy)
  {
  }
}
