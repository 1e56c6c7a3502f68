// The shape of cleaned schemas: no reference, no `const`, no unsupported
// keyword at any schema position.
module SchemaNormalForm {
  import opened Wrappers
  import opened Json
  import opened SchemaCleaning

  // Members that hold instances, annotations or type names rather than schemas.
  const DATA_KEYS: set<string> := {"type", "enum", "description", "title", "default"}

  predicate IsUnionKey(k: string) {
    k == "anyOf" || k == "oneOf" || k == "allOf"
  }

  ghost predicate NormalForm(j: Json, strategy: Strategy)
    decreases j, 1
  {
    match j
    case Obj(o) =>
      && !HasString(o, "$ref")
      && "const" !in o
      && (forall k | k in o :: k !in strategy.Unsupported())
      && (forall k | k in o :: NormalMember(k, o[k], strategy))
    case Arr(items) => forall i | 0 <= i < |items| :: NormalForm(items[i], strategy)
    case _ => true
  }

  // Property names and data are not schema positions; everything else is.
  ghost predicate NormalMember(k: string, v: Json, strategy: Strategy)
    decreases v, 2
  {
    if k in DATA_KEYS then true
    else if k == "properties" then v.Obj? ==> forall p | p in v.fields :: NormalForm(v.fields[p], strategy)
    else if IsUnionKey(k) then v.Arr? ==> forall i | 0 <= i < |v.items| :: NormalForm(v.items[i], strategy)
    else NormalForm(v, strategy)
  }

  // No `$ref` member holds an object.  Only the OpenAI strategy keeps a
  // non-string `$ref`, cleans it like any other member, and may get a string.
  ghost predicate PlainRefs(j: Json)
    decreases j, 1
  {
    match j
    case Obj(o) => ("$ref" in o ==> !o["$ref"].Obj?) && forall k | k in o :: PlainMember(k, o[k])
    case Arr(items) => forall i | 0 <= i < |items| :: PlainRefs(items[i])
    case _ => true
  }

  ghost predicate PlainMember(k: string, v: Json)
    decreases v, 2
  {
    if k == "properties" then v.Obj? ==> forall p | p in v.fields :: PlainRefs(v.fields[p])
    else if IsUnionKey(k) then v.Arr? ==> forall i | 0 <= i < |v.items| :: PlainRefs(v.items[i])
    else PlainRefs(v)
  }

  ghost predicate RefsFit(j: Json, c: Context) {
    c.strategy.OpenAI? ==> PlainRefs(j) && forall name | name in c.defs :: PlainRefs(c.defs[name])
  }

  lemma MetaKeysAreOrdinary(k: string, strategy: Strategy)
    requires k in META_KEYS
    ensures k in DATA_KEYS && k !in strategy.Unsupported() && !IsUnionKey(k)
    ensures k != "$ref" && k != "const" && k != "type" && k != "enum" && k != "properties"
  {
    assert k == "description" || k == "title" || k == "default";
  }

  lemma MetaIsData(source: Fields, strategy: Strategy)
    ensures forall k | k in Meta(source) ::
              k in DATA_KEYS && k !in strategy.Unsupported() && k != "$ref" && k != "const"
  {
    forall k | k in Meta(source)
      ensures k in DATA_KEYS && k !in strategy.Unsupported() && k != "$ref" && k != "const"
    {
      MetaKeysAreOrdinary(k, strategy);
    }
  }

  lemma DataChangesNothing(o: Fields, m: Fields, strategy: Strategy)
    requires forall k | k in m :: k in DATA_KEYS && k !in strategy.Unsupported() && k != "$ref" && k != "const"
    requires NormalForm(Obj(o), strategy) || NormalForm(Obj(o + m), strategy)
    ensures NormalForm(Obj(o), strategy) && NormalForm(Obj(o + m), strategy)
  {
    var r := o + m;
    forall k | k in o && k !in m
      ensures k in r && r[k] == o[k]
    {
    }
    forall k | k in o
      ensures NormalMember(k, o[k], strategy) && k !in strategy.Unsupported()
    {
      assert k in r;
    }
  }

  lemma PreserveMetaNormalIff(source: Fields, target: Json, strategy: Strategy)
    ensures NormalForm(PreserveMeta(source, target), strategy) <==> NormalForm(target, strategy)
  {
    if target.Obj? {
      MetaIsData(source, strategy);
      if NormalForm(target, strategy) || NormalForm(PreserveMeta(source, target), strategy) {
        DataChangesNothing(target.fields, Meta(source), strategy);
      }
    }
  }

  lemma {:induction false} NonNullIsSublist(variants: seq<Json>)
    ensures forall v | v in NonNull(variants) :: v in variants && !IsNullSchema(v)
  {
    if variants != [] {
      NonNullIsSublist(variants[1..]);
    }
  }

  lemma {:induction false} AllNull(variants: seq<Json>)
    requires NonNull(variants) == []
    ensures forall k | 0 <= k < |variants| :: IsNullSchema(variants[k])
  {
    if variants != [] {
      AllNull(variants[1..]);
    }
  }

  // The one variant left, and where it was.
  lemma {:induction false} SingleSurvivor(variants: seq<Json>) returns (i: nat)
    requires |NonNull(variants)| == 1
    ensures i < |variants| && NonNull(variants) == [variants[i]] && !IsNullSchema(variants[i])
    ensures forall k | 0 <= k < |variants| && k != i :: IsNullSchema(variants[k])
  {
    if IsNullSchema(variants[0]) {
      var tail := SingleSurvivor(variants[1..]);
      i := tail + 1;
    } else {
      i := 0;
      AllNull(variants[1..]);
    }
  }

  lemma EnumIsNormal(variants: seq<Json>, strategy: Strategy)
    requires FlattensToEnum(variants)
    ensures NormalForm(EnumOf(variants), strategy)
  {
    assert EnumOf(variants).fields.Keys == {"type", "enum"};
  }

  // A string, a reference whose definition leads to a string, or a union whose
  // lone survivor does.
  ghost predicate LeadsToString(j: Json, c: Context, stack: set<string>)
    decreases Open(j, c, stack), j, 4
  {
    match j
    case Str(_) => true
    case Obj(o) =>
      if HasString(o, "$ref") then
        var ref := o["$ref"].s;
        ref !in stack && Resolves(ref, c.defs) && LeadsToString(Definition(ref, c.defs), c, stack + {ref})
      else HasUnion(o) && o[UnionKey(o)].Arr? && SurvivorLeadsToString(o[UnionKey(o)], c, stack)
    case _ => false
  }

  ghost predicate SurvivorLeadsToString(union: Json, c: Context, stack: set<string>)
    requires union.Arr?
    decreases Open(union, c, stack), union, 5
  {
    var cleaned := CleanAll(union.items, c, stack);
    |NonNull(cleaned)| == 1 &&
    exists i | 0 <= i < |union.items| && !IsNullSchema(cleaned[i]) :: LeadsToString(union.items[i], c, stack)
  }

  lemma {:induction false} LeadsToStringIff(j: Json, c: Context, stack: set<string>)
    ensures Clean(j, c, stack).Str? <==> LeadsToString(j, c, stack)
    decreases Open(j, c, stack), j, 4
  {
    match j
    case Obj(o) =>
      if HasString(o, "$ref") {
        var ref := o["$ref"].s;
        assert Clean(j, c, stack) == ResolveRef(o, c, stack);
        if ref !in stack && Resolves(ref, c.defs) {
          LeadsToStringIff(Definition(ref, c.defs), c, stack + {ref});
        }
      } else if HasUnion(o) && o[UnionKey(o)].Arr? {
        SurvivorIff(o, c, stack);
      } else {
        assert SimplifyUnion(o, c, stack).None?;
        assert Clean(j, c, stack) == CleanObject(o, c, stack);
      }
    case _ =>
  }

  lemma {:induction false} SurvivorIff(o: Fields, c: Context, stack: set<string>)
    requires !HasString(o, "$ref") && HasUnion(o) && o[UnionKey(o)].Arr?
    ensures Clean(Obj(o), c, stack).Str? <==> SurvivorLeadsToString(o[UnionKey(o)], c, stack)
    decreases Open(Obj(o), c, stack), Obj(o), 3
  {
    var variants := o[UnionKey(o)].items;
    var cleaned := CleanAll(variants, c, stack);
    if |NonNull(cleaned)| == 1 {
      var i := SingleSurvivor(cleaned);
      VariantIsInside(o, UnionKey(o), i, c, stack);
      LeadsToStringIff(variants[i], c, stack);
      assert SimplifyUnion(o, c, stack) == Some(PreserveMeta(o, cleaned[i]));
    }
    assert Clean(Obj(o), c, stack) == CleanObject(o, c, stack);
  }

  // Along the path that the cleaner takes, no kept `$ref` member leads to a
  // string: through references, through the lone survivor of a union, and into
  // every schema position of a rebuilt object.
  ghost predicate NoCollapse(j: Json, c: Context, stack: set<string>)
    decreases Open(j, c, stack), j, 4
  {
    match j
    case Obj(o) =>
      if HasString(o, "$ref") then
        var ref := o["$ref"].s;
        ref !in stack && Resolves(ref, c.defs) ==> NoCollapse(Definition(ref, c.defs), c, stack + {ref})
      else if SimplifyUnion(o, c, stack).Some? then
        |NonNull(CleanAll(o[UnionKey(o)].items, c, stack))| == 1 ==> SurvivorNoCollapse(o[UnionKey(o)], c, stack)
      else
        && (Kept("$ref", o, c.strategy) ==> !LeadsToString(o["$ref"], c, stack))
        && forall k | k in o && Kept(k, o, c.strategy) :: NoCollapseMember(k, o[k], c, stack)
    case Arr(items) => forall i | 0 <= i < |items| :: NoCollapse(items[i], c, stack)
    case _ => true
  }

  ghost predicate SurvivorNoCollapse(union: Json, c: Context, stack: set<string>)
    requires union.Arr?
    decreases Open(union, c, stack), union, 5
  {
    forall i | 0 <= i < |union.items| && !IsNullSchema(CleanAll(union.items, c, stack)[i]) ::
      NoCollapse(union.items[i], c, stack)
  }

  ghost predicate NoCollapseMember(k: string, v: Json, c: Context, stack: set<string>)
    decreases Open(v, c, stack), v, 5
  {
    if k in DATA_KEYS then true
    else if k == "properties" then v.Obj? ==> forall p | p in v.fields :: NoCollapse(v.fields[p], c, stack)
    else if IsUnionKey(k) then v.Arr? ==> forall i | 0 <= i < |v.items| :: NoCollapse(v.items[i], c, stack)
    else NoCollapse(v, c, stack)
  }

  // Main result: exactly when every schema position of the output is in normal
  // form, for every input, context and strategy.
  lemma {:induction false} CleanIsNormalIff(j: Json, c: Context, stack: set<string>)
    ensures NormalForm(Clean(j, c, stack), c.strategy) <==> NoCollapse(j, c, stack)
    decreases Open(j, c, stack), j, 4
  {
    match j
    case Obj(o) =>
      if HasString(o, "$ref") {
        var ref := o["$ref"].s;
        assert Clean(j, c, stack) == ResolveRef(o, c, stack);
        if ref !in stack && Resolves(ref, c.defs) {
          var d := Definition(ref, c.defs);
          CleanIsNormalIff(d, c, stack + {ref});
          PreserveMetaNormalIff(o, Clean(d, c, stack + {ref}), c.strategy);
        } else {
          PreserveMetaNormalIff(o, Obj(map[]), c.strategy);
        }
      } else if SimplifyUnion(o, c, stack).Some? {
        SimplifiedIsNormalIff(o, c, stack);
      } else {
        FieldsAreNormalIff(o, c, stack);
      }
    case Arr(items) => CleanAllIsNormalIff(items, c, stack);
    case _ =>
  }

  lemma VariantIsInside(o: Fields, key: string, i: nat, c: Context, stack: set<string>)
    requires HasArray(o, key) && i < |o[key].items|
    ensures Open(o[key].items[i], c, stack) <= Open(Obj(o), c, stack) && o[key].items[i] < Obj(o)
  {
    assert Open(o[key].items[i], c, stack) <= Open(o[key], c, stack) <= Open(Obj(o), c, stack);
    assert o[key].items[i] < o[key];
  }

  lemma {:induction false} SimplifiedIsNormalIff(o: Fields, c: Context, stack: set<string>)
    requires !HasString(o, "$ref") && SimplifyUnion(o, c, stack).Some?
    ensures NormalForm(Clean(Obj(o), c, stack), c.strategy) <==> NoCollapse(Obj(o), c, stack)
    decreases Open(Obj(o), c, stack), Obj(o), 3
  {
    var variants := o[UnionKey(o)].items;
    var cleaned := CleanAll(variants, c, stack);
    PreserveMetaNormalIff(o, UnionDecision(cleaned).value, c.strategy);
    assert Clean(Obj(o), c, stack) == SimplifyUnion(o, c, stack).value;
    if |NonNull(cleaned)| == 1 {
      var i := SingleSurvivor(cleaned);
      VariantIsInside(o, UnionKey(o), i, c, stack);
      CleanIsNormalIff(variants[i], c, stack);
    } else {
      EnumIsNormal(NonNull(cleaned), c.strategy);
    }
  }

  lemma {:induction false} CleanAllIsNormalIff(items: seq<Json>, c: Context, stack: set<string>)
    ensures forall i | 0 <= i < |items| ::
              NormalForm(CleanAll(items, c, stack)[i], c.strategy) <==> NoCollapse(items[i], c, stack)
    decreases Open(Arr(items), c, stack), Arr(items), 1
  {
    forall i | 0 <= i < |items|
      ensures NormalForm(CleanAll(items, c, stack)[i], c.strategy) <==> NoCollapse(items[i], c, stack)
    {
      CleanIsNormalIff(items[i], c, stack);
    }
  }

  lemma {:induction false} FieldsAreNormalIff(o: Fields, c: Context, stack: set<string>)
    requires !HasString(o, "$ref") && SimplifyUnion(o, c, stack).None?
    ensures NormalForm(Clean(Obj(o), c, stack), c.strategy) <==> NoCollapse(Obj(o), c, stack)
    decreases Open(Obj(o), c, stack), Obj(o), 2
  {
    var r := CleanFields(o, c, stack);
    assert Clean(Obj(o), c, stack) == Obj(r);
    forall k | k in o && Kept(k, o, c.strategy)
      ensures k in r && (NormalMember(k, r[k], c.strategy) <==> NoCollapseMember(k, o[k], c, stack))
    {
      assert r[k] == CleanField(k, o[k], c, stack);
      FieldIsNormalIff(k, o[k], c, stack);
    }
    OutputKeywords(o, c, stack);
  }

  // What the keys of a rebuilt object are.
  lemma OutputKeywords(o: Fields, c: Context, stack: set<string>)
    requires !HasString(o, "$ref")
    ensures var r := CleanFields(o, c, stack);
            && "const" !in r && (forall k | k in r :: k !in c.strategy.Unsupported())
            && (forall k | k in r :: (k in o && Kept(k, o, c.strategy)) || k in DATA_KEYS)
            && (HasString(r, "$ref") <==> Kept("$ref", o, c.strategy) && LeadsToString(o["$ref"], c, stack))
  {
    var r := CleanFields(o, c, stack);
    assert "enum" !in c.strategy.Unsupported();
    if Kept("$ref", o, c.strategy) {
      assert r["$ref"] == CleanField("$ref", o["$ref"], c, stack) == Clean(o["$ref"], c, stack);
      LeadsToStringIff(o["$ref"], c, stack);
    }
  }

  lemma {:induction false} FieldIsNormalIff(k: string, v: Json, c: Context, stack: set<string>)
    ensures NormalMember(k, CleanField(k, v, c, stack), c.strategy) <==> NoCollapseMember(k, v, c, stack)
    decreases Open(v, c, stack), v, 5
  {
    if k in DATA_KEYS {
    } else if k == "properties" {
      if v.Obj? {
        forall p | p in v.fields
          ensures NormalForm(CleanProperties(v.fields, c, stack)[p], c.strategy) <==> NoCollapse(v.fields[p], c, stack)
        {
          CleanIsNormalIff(v.fields[p], c, stack);
        }
      }
    } else if IsUnionKey(k) {
      if v.Arr? {
        CleanAllIsNormalIff(v.items, c, stack);
      }
    } else {
      CleanIsNormalIff(v, c, stack);
    }
  }

  lemma CleanSchemaIsNormalIff(schema: Json, strategy: Strategy)
    ensures NormalForm(CleanSchema(schema, strategy), strategy) <==> NoCollapse(schema, RootContext(schema, strategy), {})
  {
    CleanIsNormalIff(schema, RootContext(schema, strategy), {});
  }

  // `$ref` members that are not objects never collapse, and only OpenAI keeps any.
  lemma {:induction false} PlainNeverCollapses(j: Json, c: Context, stack: set<string>)
    requires RefsFit(j, c)
    ensures NoCollapse(j, c, stack)
    decreases Open(j, c, stack), j, 4
  {
    match j
    case Obj(o) =>
      if HasString(o, "$ref") {
        var ref := o["$ref"].s;
        if ref !in stack && Resolves(ref, c.defs) {
          PlainNeverCollapses(Definition(ref, c.defs), c, stack + {ref});
        }
      } else if SimplifyUnion(o, c, stack).Some? {
        var key := UnionKey(o);
        assert c.strategy.OpenAI? ==> PlainMember(key, o[key]);
        PlainItemsNeverCollapse(o[key].items, c, stack);
      } else {
        forall k | k in o && Kept(k, o, c.strategy)
          ensures NoCollapseMember(k, o[k], c, stack)
        {
          assert c.strategy.OpenAI? ==> PlainMember(k, o[k]);
          PlainMemberNeverCollapses(k, o[k], c, stack);
        }
        if Kept("$ref", o, c.strategy) {
          assert !o["$ref"].Obj? && !o["$ref"].Str?;
        }
      }
    case Arr(items) => PlainItemsNeverCollapse(items, c, stack);
    case _ =>
  }

  lemma {:induction false} PlainItemsNeverCollapse(items: seq<Json>, c: Context, stack: set<string>)
    requires forall i | 0 <= i < |items| :: RefsFit(items[i], c)
    ensures forall i | 0 <= i < |items| :: NoCollapse(items[i], c, stack)
    decreases Open(Arr(items), c, stack), Arr(items), 1
  {
    forall i | 0 <= i < |items|
      ensures NoCollapse(items[i], c, stack)
    {
      PlainNeverCollapses(items[i], c, stack);
    }
  }

  lemma {:induction false} PlainMemberNeverCollapses(k: string, v: Json, c: Context, stack: set<string>)
    requires c.strategy.OpenAI? ==> PlainMember(k, v) && forall name | name in c.defs :: PlainRefs(c.defs[name])
    ensures NoCollapseMember(k, v, c, stack)
    decreases Open(v, c, stack), v, 5
  {
    if k in DATA_KEYS {
    } else if k == "properties" {
      if v.Obj? {
        forall p | p in v.fields
          ensures NoCollapse(v.fields[p], c, stack)
        {
          PlainNeverCollapses(v.fields[p], c, stack);
        }
      }
    } else if IsUnionKey(k) {
      if v.Arr? {
        PlainItemsNeverCollapse(v.items, c, stack);
      }
    } else {
      PlainNeverCollapses(v, c, stack);
    }
  }

  lemma CleanIsNormal(j: Json, c: Context, stack: set<string>)
    requires RefsFit(j, c)
    ensures NormalForm(Clean(j, c, stack), c.strategy)
  {
    PlainNeverCollapses(j, c, stack);
    CleanIsNormalIff(j, c, stack);
  }

  // No output holds `const`, whatever the input.
  lemma {:induction false} NoConstLeft(j: Json, c: Context, stack: set<string>)
    ensures Clean(j, c, stack).Obj? ==> "const" !in Clean(j, c, stack).fields
    decreases Open(j, c, stack), j, 4
  {
    if j.Obj? {
      var o := j.fields;
      if "const" in Meta(o) {
        MetaKeysAreOrdinary("const", c.strategy);
      }
      if HasString(o, "$ref") {
        var ref := o["$ref"].s;
        assert Clean(j, c, stack) == ResolveRef(o, c, stack);
        if ref !in stack && Resolves(ref, c.defs) {
          NoConstLeft(Definition(ref, c.defs), c, stack + {ref});
        }
      } else if SimplifyUnion(o, c, stack).Some? {
        var variants := o[UnionKey(o)].items;
        var cleaned := CleanAll(variants, c, stack);
        assert Clean(j, c, stack) == PreserveMeta(o, UnionDecision(cleaned).value);
        if |NonNull(cleaned)| == 1 {
          var i := SingleSurvivor(cleaned);
          VariantIsInside(o, UnionKey(o), i, c, stack);
          NoConstLeft(variants[i], c, stack);
        }
      } else {
        OutputKeywords(o, c, stack);
      }
    }
  }

  // The `const` tests of the union helpers never decide anything about a
  // cleaned variant: only `enum` and `type` do.
  lemma ConstTestsNeverFire(j: Json, c: Context, stack: set<string>)
    ensures var v := Clean(j, c, stack);
            && (IsNullSchema(v) <==>
                 v.Obj? && ((HasArray(v.fields, "enum") && v.fields["enum"].items == [Null])
                            || ("type" in v.fields && v.fields["type"] == Str("null"))))
            && (LiteralOf(v).Some? ==>
                 HasArray(v.fields, "enum") && v.fields["enum"].items == [LiteralOf(v).value])
  {
    NoConstLeft(j, c, stack);
  }

  // Without the hypothesis the OpenAI output can still carry a string `$ref`:
  // an object under `$ref` is cleaned like a schema and may collapse to a string.
  function Collapsing(ref: string): Fields {
    map["$ref" := Obj(map["anyOf" := Arr([Str(ref)])])]
  }

  lemma CollapsesToReference(ref: string, c: Context, stack: set<string>)
    requires c.strategy.OpenAI?
    ensures Clean(Obj(Collapsing(ref)), c, stack) == Obj(map["$ref" := Str(ref)])
  {
    var inner := map["anyOf" := Arr([Str(ref)])];
    var o := Collapsing(ref);
    assert CleanAll([Str(ref)], c, stack) == [Str(ref)];
    assert NonNull([Str(ref)]) == [Str(ref)];
    assert SimplifyUnion(inner, c, stack) == Some(Str(ref));
    assert Clean(Obj(inner), c, stack) == CleanObject(inner, c, stack) == Str(ref);
    assert CleanFields(o, c, stack)["$ref"] == CleanField("$ref", Obj(inner), c, stack);
    assert OutKeys(o, OpenAI) == {"$ref"};
    assert CleanFields(o, c, stack) == map["$ref" := Str(ref)];
    CleanWithoutUnion(o, c, stack);
  }

  lemma OpenAIMayEmitReference(ref: string)
    ensures !NormalForm(CleanSchema(Obj(Collapsing(ref)), OpenAI), OpenAI)
  {
    CollapsesToReference(ref, RootContext(Obj(Collapsing(ref)), OpenAI), {});
  }
}
