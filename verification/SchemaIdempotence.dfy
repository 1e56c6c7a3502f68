// Cleaning twice is cleaning once.  `Stable` describes the fixed points of the
// cleaner by their shape alone; cleaned schemas have that shape.
module SchemaIdempotence {
  import opened Wrappers
  import opened Json
  import opened SchemaCleaning
  import opened SchemaNormalForm

  // ----------------------------------------------------------- fixed points

  // A schema on which a pass has nothing to do: in particular its union, if it
  // has one, neither collapses to one variant nor flattens to an enum.
  ghost predicate Stable(j: Json, strategy: Strategy)
    decreases j, 1
  {
    match j
    case Obj(o) =>
      && !HasString(o, "$ref")
      && "const" !in o
      && (forall k | k in o :: k !in strategy.Unsupported())
      && (HasUnion(o) ==> "type" !in o)
      && (HasUnion(o) && o[UnionKey(o)].Arr? ==> UnionDecision(o[UnionKey(o)].items).None?)
      && (forall k | k in o :: StableMember(k, o[k], strategy))
    case Arr(items) => forall i | 0 <= i < |items| :: Stable(items[i], strategy)
    case _ => true
  }

  ghost predicate StableMember(k: string, v: Json, strategy: Strategy)
    decreases v, 2
  {
    if k == "type" && v.Arr? then CleanTypeArray(v.items) == v
    else if k == "properties" then v.Obj? ==> forall p | p in v.fields :: Stable(v.fields[p], strategy)
    else if IsUnionKey(k) then v.Arr? ==> forall i | 0 <= i < |v.items| :: Stable(v.items[i], strategy)
    else Stable(v, strategy)
  }

  // Whatever the definitions and the stack, a pass returns a stable schema unchanged.
  lemma {:induction false} StableIsFixed(j: Json, c: Context, stack: set<string>)
    requires Stable(j, c.strategy)
    ensures Clean(j, c, stack) == j
    decreases j, 1
  {
    match j
    case Obj(o) =>
      forall k | k in o
        ensures CleanField(k, o[k], c, stack) == o[k]
      {
        StableMemberIsFixed(k, o[k], c, stack);
      }
      if HasUnion(o) && o[UnionKey(o)].Arr? {
        var key := UnionKey(o);
        assert CleanField(key, o[key], c, stack) == Arr(CleanAll(o[key].items, c, stack));
      }
      assert SimplifyUnion(o, c, stack) == None;
      assert OutKeys(o, c.strategy) == o.Keys;
      assert CleanFields(o, c, stack) == o;
    case Arr(items) =>
      forall i | 0 <= i < |items|
        ensures Clean(items[i], c, stack) == items[i]
      {
        StableIsFixed(items[i], c, stack);
      }
      assert CleanAll(items, c, stack) == items;
    case _ =>
  }

  lemma {:induction false} StableMemberIsFixed(k: string, v: Json, c: Context, stack: set<string>)
    requires StableMember(k, v, c.strategy)
    ensures CleanField(k, v, c, stack) == v
    decreases v, 2
  {
    if k == "type" && v.Arr? {
    } else if k == "properties" {
      if v.Obj? {
        forall p | p in v.fields
          ensures Clean(v.fields[p], c, stack) == v.fields[p]
        {
          StableIsFixed(v.fields[p], c, stack);
        }
        assert CleanProperties(v.fields, c, stack) == v.fields;
      }
    } else if IsUnionKey(k) {
      if v.Arr? {
        forall i | 0 <= i < |v.items|
          ensures Clean(v.items[i], c, stack) == v.items[i]
        {
          StableIsFixed(v.items[i], c, stack);
        }
        assert CleanAll(v.items, c, stack) == v.items;
      }
    } else {
      StableIsFixed(v, c, stack);
    }
  }

  lemma {:induction false} InertIsStable(j: Json, strategy: Strategy)
    requires Inert(j)
    ensures Stable(j, strategy)
  {
    if j.Arr? {
      forall i | 0 <= i < |j.items|
        ensures Stable(j.items[i], strategy)
      {
        InertIsStable(j.items[i], strategy);
      }
    }
  }

  lemma {:induction false} WithoutNullTypeIsIdempotent(types: seq<Json>)
    ensures var kept := WithoutNullType(types);
            WithoutNullType(kept) == kept && forall t | t in kept :: t in types
  {
    if types != [] {
      WithoutNullTypeIsIdempotent(types[1..]);
      var kept, rest := WithoutNullType(types), WithoutNullType(types[1..]);
      if types[0] == Str("null") {
        assert kept == rest;
      } else {
        assert kept == [types[0]] + rest && kept[1..] == rest;
      }
    }
  }

  lemma CleanKeepsNonString(v: Json, c: Context, stack: set<string>)
    requires !v.Str? && !v.Obj?
    ensures !CleanField("$ref", v, c, stack).Str?
  {
    assert CleanField("$ref", v, c, stack) == Clean(v, c, stack);
  }

  // The rebuilt object meets the same union decision as the original: none.
  lemma SameUnionDecision(o: Fields, c: Context, stack: set<string>)
    requires SimplifyUnion(o, c, stack).None?
    ensures var r := CleanFields(o, c, stack);
            && (HasUnion(r) <==> HasUnion(o))
            && (HasUnion(r) ==> "type" !in r)
            && (HasUnion(r) && r[UnionKey(r)].Arr? ==> UnionDecision(r[UnionKey(r)].items).None?)
  {
    var r := CleanFields(o, c, stack);
    assert "anyOf" in o ==> Kept("anyOf", o, c.strategy);
    assert "oneOf" in o ==> Kept("oneOf", o, c.strategy);
    if HasUnion(o) {
      var key := UnionKey(o);
      assert key in r && r[key] == CleanField(key, o[key], c, stack);
    }
  }

  // ------------------------------------------------ what the first pass copies

  const META: set<string> := {"description", "title", "default"}

  lemma MetaWithin(source: Fields)
    ensures Meta(source).Keys <= META
  {
    assert forall k | k in META_KEYS :: k in META;
  }

  // Stable but for top-level metadata that is about to be overwritten.
  ghost predicate StableApart(t: Json, hidden: set<string>, strategy: Strategy) {
    match t
    case Obj(o) => Framed(o, strategy) && forall k | k in o && k !in hidden :: StableMember(k, o[k], strategy)
    case _ => Stable(t, strategy)
  }

  // The conditions of `Stable` on an object that are not about one member.
  ghost predicate Framed(o: Fields, strategy: Strategy) {
    && !HasString(o, "$ref")
    && "const" !in o
    && (forall k | k in o :: k !in strategy.Unsupported())
    && (HasUnion(o) ==> "type" !in o)
    && (HasUnion(o) && o[UnionKey(o)].Arr? ==> UnionDecision(o[UnionKey(o)].items).None?)
  }

  ghost predicate MetaStableApart(o: Fields, hidden: set<string>, strategy: Strategy) {
    forall k | k in META_KEYS && k in o && k !in hidden :: Stable(o[k], strategy)
  }

  ghost predicate LiteralsStable(variants: seq<Json>, strategy: Strategy) {
    forall i | 0 <= i < |variants| && LiteralOf(variants[i]).Some? :: Stable(LiteralOf(variants[i]).value, strategy)
  }

  // Along the path that one pass takes, everything it copies without cleaning
  // and does not overwrite again is stable: metadata next to a reference or a
  // simplified union, a `const`, literals, the entries of a `type` array.
  ghost predicate Settled(j: Json, c: Context, stack: set<string>, hidden: set<string>)
    decreases Open(j, c, stack), j, 4
  {
    match j
    case Obj(o) =>
      if HasString(o, "$ref") then
        var ref := o["$ref"].s;
        if ref !in stack && Resolves(ref, c.defs) then
          var d := Definition(ref, c.defs);
          && Settled(d, c, stack + {ref}, hidden + Meta(o).Keys)
          && (Clean(d, c, stack + {ref}).Obj? ==> MetaStableApart(o, hidden, c.strategy))
        else MetaStableApart(o, hidden, c.strategy)
      else if SimplifyUnion(o, c, stack).Some? then
        var cleaned := CleanAll(o[UnionKey(o)].items, c, stack);
        && (UnionDecision(cleaned).value.Obj? ==> MetaStableApart(o, hidden, c.strategy))
        && if |NonNull(cleaned)| == 1 then SurvivorSettled(o[UnionKey(o)], c, stack, hidden + Meta(o).Keys)
           else LiteralsStable(NonNull(cleaned), c.strategy)
      else
        && (Kept("$ref", o, c.strategy) ==> !LeadsToString(o["$ref"], c, stack))
        && ("const" in o && "enum" !in o ==> Stable(o["const"], c.strategy))
        && forall k | k in o && Kept(k, o, c.strategy) && k !in hidden :: SettledMember(k, o[k], c, stack)
    case Arr(items) => forall i | 0 <= i < |items| :: Settled(items[i], c, stack, {})
    case _ => true
  }

  ghost predicate SurvivorSettled(union: Json, c: Context, stack: set<string>, hidden: set<string>)
    requires union.Arr?
    decreases Open(union, c, stack), union, 5
  {
    forall i | 0 <= i < |union.items| && !IsNullSchema(CleanAll(union.items, c, stack)[i]) ::
      Settled(union.items[i], c, stack, hidden)
  }

  ghost predicate SettledMember(k: string, v: Json, c: Context, stack: set<string>)
    decreases Open(v, c, stack), v, 5
  {
    if k == "type" && v.Arr? then StableMember(k, CleanTypeArray(v.items), c.strategy)
    else if k == "type" && Clean(v, c, stack).Arr? then StableMember(k, Clean(v, c, stack), c.strategy)
    else if k == "properties" then v.Obj? ==> forall p | p in v.fields :: Settled(v.fields[p], c, stack, {})
    else if IsUnionKey(k) then v.Arr? ==> forall i | 0 <= i < |v.items| :: Settled(v.items[i], c, stack, {})
    else Settled(v, c, stack, {})
  }

  // ------------------------------------------------- when the output is stable

  lemma MetaOverwrites(source: Fields, o: Fields, hidden: set<string>, strategy: Strategy)
    ensures StableApart(Obj(o + Meta(source)), hidden, strategy) <==>
            StableApart(Obj(o), hidden + Meta(source).Keys, strategy) && MetaStableApart(source, hidden, strategy)
  {
    var m := Meta(source);
    MetaIsData(source, strategy);
    forall k | k in m
      ensures StableMember(k, m[k], strategy) <==> Stable(source[k], strategy)
      ensures k != "anyOf" && k != "oneOf" && k != "type"
    {
      MetaKeysAreOrdinary(k, strategy);
    }
    SameFrame(o, m, strategy);
    OnlyOthersCount(source, o, hidden, strategy);
  }

  lemma SameFrame(o: Fields, m: Fields, strategy: Strategy)
    requires "anyOf" !in m && "oneOf" !in m && "type" !in m && "$ref" !in m && "const" !in m
    requires forall k | k in m :: k !in strategy.Unsupported()
    ensures Framed(o + m, strategy) <==> Framed(o, strategy)
  {
    var r := o + m;
    assert HasUnion(r) == HasUnion(o);
    if HasUnion(o) {
      assert UnionKey(r) == UnionKey(o) && r[UnionKey(r)] == o[UnionKey(o)];
    }
    assert (forall k | k in r :: k !in strategy.Unsupported()) ==> forall k | k in o :: k in r;
  }

  lemma OnlyOthersCount(source: Fields, o: Fields, hidden: set<string>, strategy: Strategy)
    requires forall k | k in Meta(source) :: StableMember(k, Meta(source)[k], strategy) <==> Stable(source[k], strategy)
    ensures var r := o + Meta(source);
            (forall k | k in r && k !in hidden :: StableMember(k, r[k], strategy)) <==>
            (forall k | k in o && k !in hidden + Meta(source).Keys :: StableMember(k, o[k], strategy)) &&
            MetaStableApart(source, hidden, strategy)
  {
    var m := Meta(source);
    var r := o + m;
    assert forall k | k in o && k !in m :: k in r && r[k] == o[k];
    assert forall k | k in m :: k in r && r[k] == source[k];
    assert forall k | k in META_KEYS && k in source :: k in m;
  }

  lemma PreservedIsStableIff(source: Fields, target: Json, hidden: set<string>, strategy: Strategy)
    ensures StableApart(PreserveMeta(source, target), hidden, strategy) <==>
            StableApart(target, hidden + Meta(source).Keys, strategy) &&
            (target.Obj? ==> MetaStableApart(source, hidden, strategy))
  {
    if target.Obj? {
      MetaOverwrites(source, target.fields, hidden, strategy);
    }
  }

  lemma EnumIsStableIff(variants: seq<Json>, hidden: set<string>, strategy: Strategy)
    requires FlattensToEnum(variants) && hidden <= META
    ensures StableApart(EnumOf(variants), hidden, strategy) <==> LiteralsStable(variants, strategy)
  {
    var o := EnumOf(variants).fields;
    assert o.Keys == {"type", "enum"} && "type" !in hidden && "enum" !in hidden;
    EnumIsFramed(o, strategy);
    EnumValuesIff(variants, strategy);
  }

  lemma EnumIsFramed(o: Fields, strategy: Strategy)
    requires o.Keys == {"type", "enum"} && o["type"].Str?
    ensures Framed(o, strategy) && StableMember("type", o["type"], strategy)
  {
  }

  lemma EnumValuesIff(variants: seq<Json>, strategy: Strategy)
    requires FlattensToEnum(variants)
    ensures StableMember("enum", EnumOf(variants).fields["enum"], strategy) <==> LiteralsStable(variants, strategy)
  {
    var values := EnumOf(variants).fields["enum"].items;
    assert forall i | 0 <= i < |variants| :: LiteralOf(variants[i]) == Some(values[i]);
    assert Stable(Arr(values), strategy) <==> forall i | 0 <= i < |values| :: Stable(values[i], strategy);
  }

  // Main result: exactly when the output of a pass is stable, for every input,
  // context and strategy.
  lemma {:induction false} CleanIsStableIff(j: Json, c: Context, stack: set<string>, hidden: set<string>)
    requires hidden <= META
    ensures StableApart(Clean(j, c, stack), hidden, c.strategy) <==> Settled(j, c, stack, hidden)
    decreases Open(j, c, stack), j, 4
  {
    match j
    case Obj(o) =>
      MetaWithin(o);
      if HasString(o, "$ref") {
        ReferenceIsStableIff(o, c, stack, hidden);
      } else if SimplifyUnion(o, c, stack).Some? {
        SimplifiedIsStableIff(o, c, stack, hidden);
      } else {
        FieldsAreStableIff(o, c, stack, hidden);
      }
    case Arr(items) => ItemsAreStableIff(items, c, stack);
    case _ =>
  }

  lemma {:induction false} ReferenceIsStableIff(o: Fields, c: Context, stack: set<string>, hidden: set<string>)
    requires hidden <= META && Meta(o).Keys <= META && HasString(o, "$ref")
    ensures StableApart(Clean(Obj(o), c, stack), hidden, c.strategy) <==> Settled(Obj(o), c, stack, hidden)
    decreases Open(Obj(o), c, stack), Obj(o), 3
  {
    var ref := o["$ref"].s;
    assert Clean(Obj(o), c, stack) == ResolveRef(o, c, stack);
    if ref !in stack && Resolves(ref, c.defs) {
      var d := Definition(ref, c.defs);
      assert ref in Open(Obj(o), c, stack);
      CleanIsStableIff(d, c, stack + {ref}, hidden + Meta(o).Keys);
      PreservedIsStableIff(o, Clean(d, c, stack + {ref}), hidden, c.strategy);
    } else {
      PreservedIsStableIff(o, Obj(map[]), hidden, c.strategy);
    }
  }

  lemma {:induction false} SimplifiedIsStableIff(o: Fields, c: Context, stack: set<string>, hidden: set<string>)
    requires hidden <= META && Meta(o).Keys <= META && !HasString(o, "$ref") && SimplifyUnion(o, c, stack).Some?
    ensures StableApart(Clean(Obj(o), c, stack), hidden, c.strategy) <==> Settled(Obj(o), c, stack, hidden)
    decreases Open(Obj(o), c, stack), Obj(o), 3
  {
    var variants := o[UnionKey(o)].items;
    var cleaned := CleanAll(variants, c, stack);
    assert Clean(Obj(o), c, stack) == PreserveMeta(o, UnionDecision(cleaned).value);
    PreservedIsStableIff(o, UnionDecision(cleaned).value, hidden, c.strategy);
    if |NonNull(cleaned)| == 1 {
      var i := SingleSurvivor(cleaned);
      VariantIsInside(o, UnionKey(o), i, c, stack);
      CleanIsStableIff(variants[i], c, stack, hidden + Meta(o).Keys);
    } else {
      EnumIsStableIff(NonNull(cleaned), hidden + Meta(o).Keys, c.strategy);
    }
  }

  lemma {:induction false} ItemsAreStableIff(items: seq<Json>, c: Context, stack: set<string>)
    ensures forall i | 0 <= i < |items| ::
              Stable(CleanAll(items, c, stack)[i], c.strategy) <==> Settled(items[i], c, stack, {})
    decreases Open(Arr(items), c, stack), Arr(items), 1
  {
    forall i | 0 <= i < |items|
      ensures Stable(CleanAll(items, c, stack)[i], c.strategy) <==> Settled(items[i], c, stack, {})
    {
      CleanIsStableIff(items[i], c, stack, {});
      NothingHidden(Clean(items[i], c, stack), c.strategy);
    }
  }

  lemma NothingHidden(t: Json, strategy: Strategy)
    ensures StableApart(t, {}, strategy) <==> Stable(t, strategy)
  {
  }

  lemma {:induction false} FieldsAreStableIff(o: Fields, c: Context, stack: set<string>, hidden: set<string>)
    requires hidden <= META && !HasString(o, "$ref") && SimplifyUnion(o, c, stack).None?
    ensures StableApart(Clean(Obj(o), c, stack), hidden, c.strategy) <==> Settled(Obj(o), c, stack, hidden)
    decreases Open(Obj(o), c, stack), Obj(o), 2
  {
    var r := CleanFields(o, c, stack);
    assert Clean(Obj(o), c, stack) == Obj(r);
    FrameOfFields(o, c, stack);
    forall k | k in o && Kept(k, o, c.strategy)
      ensures k in r && (StableMember(k, r[k], c.strategy) <==> SettledMember(k, o[k], c, stack))
    {
      assert r[k] == CleanField(k, o[k], c, stack);
      FieldIsStableIff(k, o[k], c, stack);
    }
    RenamedConstIsStableIff(o, c, stack);
    MembersSettle(o, c, stack, hidden);
  }

  lemma FrameOfFields(o: Fields, c: Context, stack: set<string>)
    requires !HasString(o, "$ref") && SimplifyUnion(o, c, stack).None?
    ensures Framed(CleanFields(o, c, stack), c.strategy) <==>
            (Kept("$ref", o, c.strategy) ==> !LeadsToString(o["$ref"], c, stack))
  {
    OutputKeywords(o, c, stack);
    SameUnionDecision(o, c, stack);
  }

  lemma RenamedConstIsStableIff(o: Fields, c: Context, stack: set<string>)
    ensures "const" in o && "enum" !in o ==>
              var r := CleanFields(o, c, stack);
              "enum" in r && (StableMember("enum", r["enum"], c.strategy) <==> Stable(o["const"], c.strategy))
  {
    if "const" in o && "enum" !in o {
      assert CleanFields(o, c, stack)["enum"] == Arr([o["const"]]);
      assert Stable(Arr([o["const"]]), c.strategy) <==> Stable([o["const"]][0], c.strategy);
    }
  }

  // The keys of the result are the kept ones and the renamed `const`.
  lemma MembersSettle(o: Fields, c: Context, stack: set<string>, hidden: set<string>)
    requires hidden <= META
    requires var r := CleanFields(o, c, stack);
             forall k | k in o && Kept(k, o, c.strategy) ::
               k in r && (StableMember(k, r[k], c.strategy) <==> SettledMember(k, o[k], c, stack))
    requires var r := CleanFields(o, c, stack);
             "const" in o && "enum" !in o ==>
               "enum" in r && (StableMember("enum", r["enum"], c.strategy) <==> Stable(o["const"], c.strategy))
    ensures var r := CleanFields(o, c, stack);
            (forall k | k in r && k !in hidden :: StableMember(k, r[k], c.strategy)) <==>
            ("const" in o && "enum" !in o ==> Stable(o["const"], c.strategy)) &&
            forall k | k in o && Kept(k, o, c.strategy) && k !in hidden :: SettledMember(k, o[k], c, stack)
  {
    assert "enum" !in hidden;
    OutputMembers(o, c, stack);
  }

  lemma OutputMembers(o: Fields, c: Context, stack: set<string>)
    ensures forall k | k in CleanFields(o, c, stack) ::
              (k in o && Kept(k, o, c.strategy)) || (k == "enum" && "const" in o && "enum" !in o)
  {
    forall k | k in CleanFields(o, c, stack) && !(k in o && Kept(k, o, c.strategy))
      ensures k == "enum" && "const" in o && "enum" !in o
    {
      assert k in OutKeys(o, c.strategy);
      assert k == "enum";
    }
  }

  lemma {:induction false} FieldIsStableIff(k: string, v: Json, c: Context, stack: set<string>)
    ensures StableMember(k, CleanField(k, v, c, stack), c.strategy) <==> SettledMember(k, v, c, stack)
    decreases Open(v, c, stack), v, 5
  {
    if k == "type" && (v.Arr? || Clean(v, c, stack).Arr?) {
    } else if k == "properties" {
      if v.Obj? {
        forall p | p in v.fields
          ensures Stable(CleanProperties(v.fields, c, stack)[p], c.strategy) <==> Settled(v.fields[p], c, stack, {})
        {
          CleanIsStableIff(v.fields[p], c, stack, {});
          NothingHidden(Clean(v.fields[p], c, stack), c.strategy);
        }
      }
    } else if IsUnionKey(k) {
      if v.Arr? {
        ItemsAreStableIff(v.items, c, stack);
      }
    } else {
      CleanIsStableIff(v, c, stack, {});
      NothingHidden(Clean(v, c, stack), c.strategy);
    }
  }

  // Main result: if everything copied is stable, a second pass, with the
  // definitions it then sees, changes nothing.
  lemma CleanTwiceIsCleanOnce(schema: Json, strategy: Strategy)
    requires Settled(schema, RootContext(schema, strategy), {}, {})
    ensures var once := CleanSchema(schema, strategy); CleanSchema(once, strategy) == once
  {
    var once := CleanSchema(schema, strategy);
    CleanIsStableIff(schema, RootContext(schema, strategy), {}, {});
    NothingHidden(once, strategy);
    StableIsFixed(once, RootContext(once, strategy), {});
  }

  // --------------------------------------------------- well-formed documents

  ghost predicate MetaStable(o: Fields, strategy: Strategy) {
    forall k | k in META_KEYS && k in o :: Stable(o[k], strategy)
  }

  // Well-formed for the cleaner: what one pass copies without cleaning it
  // (metadata, a `const`, the entries of a `type` array) must be stable, as all
  // scalars are, since the next pass would clean it.
  ghost predicate Tame(j: Json, strategy: Strategy)
    decreases j, 1
  {
    match j
    case Obj(o) =>
      && (HasString(o, "$ref") || HasUnion(o) ==> MetaStable(o, strategy))
      && (HasString(o, "$ref") ||
           (&& (strategy.OpenAI? && "$ref" in o ==> !o["$ref"].Obj?)
            && ("const" in o && "enum" !in o ==> Stable(o["const"], strategy))
            && (forall k | k in o && Kept(k, o, strategy) :: TameMember(k, o[k], strategy))))
    case Arr(items) => forall i | 0 <= i < |items| :: Tame(items[i], strategy)
    case _ => true
  }

  ghost predicate TameMember(k: string, v: Json, strategy: Strategy)
    decreases v, 2
  {
    if k == "type" then (if v.Arr? then StableMember("type", CleanTypeArray(v.items), strategy) else !v.Obj?)
    else if k == "properties" then v.Obj? ==> forall p | p in v.fields :: Tame(v.fields[p], strategy)
    else if IsUnionKey(k) then v.Arr? ==> forall i | 0 <= i < |v.items| :: Tame(v.items[i], strategy)
    else Tame(v, strategy)
  }

  ghost predicate TameDefs(c: Context) {
    forall name | name in c.defs :: Tame(c.defs[name], c.strategy)
  }

  // Type arrays as JSON Schema has them, names and nothing else, are covered.
  lemma TypeNamesAreTame(types: seq<Json>, strategy: Strategy)
    requires forall i | 0 <= i < |types| :: types[i].Str?
    ensures TameMember("type", Arr(types), strategy)
  {
    WithoutNullTypeIsIdempotent(types);
    var kept := WithoutNullType(types);
    if |kept| == 1 {
      assert kept[0] in kept;
    }
  }

  // A document is settled if this holds of it and of its definitions, without
  // following the path of the cleaner; scalar metadata and literals suffice.
  lemma {:induction false} TameIsSettled(j: Json, c: Context, stack: set<string>, hidden: set<string>)
    requires Tame(j, c.strategy) && TameDefs(c) && hidden <= META
    ensures Settled(j, c, stack, hidden)
    decreases Open(j, c, stack), j, 4
  {
    match j
    case Obj(o) =>
      MetaWithin(o);
      if HasString(o, "$ref") {
        var ref := o["$ref"].s;
        if ref !in stack && Resolves(ref, c.defs) {
          assert ref in Open(j, c, stack);
          TameIsSettled(Definition(ref, c.defs), c, stack + {ref}, hidden + Meta(o).Keys);
        }
      } else if SimplifyUnion(o, c, stack).Some? {
        TameUnionIsSettled(o, c, stack, hidden);
      } else {
        forall k | k in o && Kept(k, o, c.strategy)
          ensures SettledMember(k, o[k], c, stack)
        {
          TameMemberIsSettled(k, o[k], c, stack);
        }
        if Kept("$ref", o, c.strategy) {
          CleanKeepsNonString(o["$ref"], c, stack);
        }
      }
    case Arr(items) => TameItemsAreSettled(items, c, stack, {});
    case _ =>
  }

  lemma {:induction false} TameItemsAreSettled(items: seq<Json>, c: Context, stack: set<string>, hidden: set<string>)
    requires (forall i | 0 <= i < |items| :: Tame(items[i], c.strategy)) && TameDefs(c) && hidden <= META
    ensures forall i | 0 <= i < |items| :: Settled(items[i], c, stack, hidden)
    decreases Open(Arr(items), c, stack), Arr(items), 1
  {
    forall i | 0 <= i < |items|
      ensures Settled(items[i], c, stack, hidden)
    {
      TameIsSettled(items[i], c, stack, hidden);
    }
  }

  lemma {:induction false} TameUnionIsSettled(o: Fields, c: Context, stack: set<string>, hidden: set<string>)
    requires !HasString(o, "$ref") && SimplifyUnion(o, c, stack).Some? && Meta(o).Keys <= META
    requires Tame(Obj(o), c.strategy) && TameDefs(c) && hidden <= META
    ensures Settled(Obj(o), c, stack, hidden)
    decreases Open(Obj(o), c, stack), Obj(o), 3
  {
    var key := UnionKey(o);
    TameVariants(o, c.strategy);
    var cleaned := CleanAll(o[key].items, c, stack);
    TameItemsAreSettled(o[key].items, c, stack, hidden + Meta(o).Keys);
    TameItemsAreSettled(o[key].items, c, stack, {});
    ItemsAreStableIff(o[key].items, c, stack);
    NonNullIsSublist(cleaned);
    LiteralsOfStable(NonNull(cleaned), c.strategy);
  }

  lemma UnionIsKept(o: Fields, strategy: Strategy)
    requires HasUnion(o)
    ensures Kept(UnionKey(o), o, strategy) && IsUnionKey(UnionKey(o))
  {
  }

  lemma TameVariants(o: Fields, strategy: Strategy)
    requires !HasString(o, "$ref") && HasUnion(o) && o[UnionKey(o)].Arr? && Tame(Obj(o), strategy)
    ensures MetaStable(o, strategy)
    ensures forall i | 0 <= i < |o[UnionKey(o)].items| :: Tame(o[UnionKey(o)].items[i], strategy)
  {
    UnionIsKept(o, strategy);
    assert TameMember(UnionKey(o), o[UnionKey(o)], strategy);
  }

  lemma LiteralsOfStable(variants: seq<Json>, strategy: Strategy)
    requires forall v | v in variants :: Stable(v, strategy)
    ensures LiteralsStable(variants, strategy)
  {
    forall i | 0 <= i < |variants| && LiteralOf(variants[i]).Some?
      ensures Stable(LiteralOf(variants[i]).value, strategy)
    {
      var v := variants[i];
      assert v in variants && "const" !in v.fields;
      assert StableMember("enum", v.fields["enum"], strategy);
    }
  }

  lemma {:induction false} TameMemberIsSettled(k: string, v: Json, c: Context, stack: set<string>)
    requires TameMember(k, v, c.strategy) && TameDefs(c)
    ensures SettledMember(k, v, c, stack)
    decreases Open(v, c, stack), v, 5
  {
    if k == "type" {
    } else if k == "properties" {
      if v.Obj? {
        forall p | p in v.fields
          ensures Settled(v.fields[p], c, stack, {})
        {
          TameIsSettled(v.fields[p], c, stack, {});
        }
      }
    } else if IsUnionKey(k) {
      if v.Arr? {
        TameItemsAreSettled(v.items, c, stack, {});
      }
    } else {
      TameIsSettled(v, c, stack, {});
    }
  }

  lemma WellFormedIsCleanedOnce(schema: Json, strategy: Strategy)
    requires Tame(schema, strategy) && TameDefs(RootContext(schema, strategy))
    ensures var once := CleanSchema(schema, strategy); CleanSchema(once, strategy) == once
  {
    TameIsSettled(schema, RootContext(schema, strategy), {}, {});
    CleanTwiceIsCleanOnce(schema, strategy);
  }

  // -------------------------------------------------------------- witnesses

  // Each copied value can fail.  An object-valued default that survives next to
  // a reference is cleaned only by the second pass...
  lemma CopiedDefaultIsCleanedLater(strategy: Strategy)
    ensures var once := CleanSchema(Obj(map["$ref" := Str("#"), "default" := Obj(map["const" := Null])]), strategy);
            CleanSchema(once, strategy) != once
  {
    var d: Fields := map["const" := Null];
    var o := map["$ref" := Str("#"), "default" := Obj(d)];
    var once := map["default" := Obj(d)];
    var c, c2 := RootContext(Obj(o), strategy), RootContext(Obj(once), strategy);
    assert CleanSchema(Obj(o), strategy) == Obj(once) by {
      assert Clean(Obj(o), c, {}) == ResolveRef(o, c, {});
      assert ResolveRef(o, c, {}) == PreserveMeta(o, Obj(map[]));
      assert map[] + Meta(o) == once;
    }
    ConstIsRewritten(c2);
    assert CleanField("default", Obj(d), c2, {}) == Clean(Obj(d), c2, {});
    ChangedMember(once, "default", c2);
  }

  // ... and so is an array nested in a `type` array, which the first pass unwraps.
  lemma NestedTypeArrayIsCleanedLater(strategy: Strategy)
    ensures var once := CleanSchema(Obj(map["type" := Arr([Arr([Str("null")])])]), strategy);
            CleanSchema(once, strategy) != once
  {
    var nested, unwrapped := Arr([Arr([Str("null")])]), Arr([Str("null")]);
    assert WithoutNullType([unwrapped]) == [unwrapped];
    assert WithoutNullType([Str("null")]) == [];
    OnlyTypeArray(nested.items, RootContext(Obj(map["type" := nested]), strategy), {});
    OnlyTypeArray(unwrapped.items, RootContext(Obj(map["type" := unwrapped]), strategy), {});
    assert map["type" := Str("null")]["type"] != map["type" := unwrapped]["type"];
  }

  lemma OnlyTypeArray(types: seq<Json>, c: Context, stack: set<string>)
    ensures Clean(Obj(map["type" := Arr(types)]), c, stack) == Obj(map["type" := CleanTypeArray(types)])
  {
    var o: Fields := map["type" := Arr(types)];
    CleanWithoutUnion(o, c, stack);
    assert OutKeys(o, c.strategy) == {"type"};
    assert CleanFields(o, c, stack)["type"] == CleanField("type", o["type"], c, stack) == CleanTypeArray(types);
    assert CleanFields(o, c, stack) == map["type" := CleanTypeArray(types)];
  }

  lemma OnlyConst(literal: Json, c: Context, stack: set<string>)
    ensures Clean(Obj(map["const" := literal]), c, stack) == Obj(map["enum" := Arr([literal])])
  {
    var o: Fields := map["const" := literal];
    CleanWithoutUnion(o, c, stack);
    assert OutKeys(o, c.strategy) == {"enum"};
    assert CleanFields(o, c, stack) == map["enum" := Arr([literal])];
  }

  // ... an object under a lone `const`, which the first pass copies into an `enum` ...
  lemma CopiedConstIsCleanedLater(strategy: Strategy)
    ensures var once := CleanSchema(Obj(map["const" := Obj(map["const" := Null])]), strategy);
            CleanSchema(once, strategy) != once
  {
    var literal := Obj(map["const" := Null]);
    var once: Fields := map["enum" := Arr([literal])];
    OnlyConst(literal, RootContext(Obj(map["const" := literal]), strategy), {});
    var c := RootContext(Obj(once), strategy);
    OnlyConst(Null, c, {});
    ConstIsRewritten(c);
    assert CleanField("enum", once["enum"], c, {}) == Arr(CleanAll([literal], c, {}));
    assert CleanAll([literal], c, {})[0] == Clean(literal, c, {});
    ChangedMember(once, "enum", c);
  }

  // A member that cleaning changes makes the object change, kept or not.
  lemma ChangedMember(o: Fields, k: string, c: Context)
    requires !HasString(o, "$ref") && !HasUnion(o)
    requires k in o && CleanField(k, o[k], c, {}) != o[k]
    ensures Clean(Obj(o), c, {}) != Obj(o)
  {
    CleanWithoutUnion(o, c, {});
    if k in CleanFields(o, c, {}) {
      assert CleanFields(o, c, {})[k] == CleanField(k, o[k], c, {});
    }
  }

  lemma ConstIsRewritten(c: Context)
    ensures Clean(Obj(map["const" := Null]), c, {}) != Obj(map["const" := Null])
  {
    OnlyConst(Null, c, {});
    var before: Fields, after: Fields := map["const" := Null], map["enum" := Arr([Null])];
    assert "enum" in after && "enum" !in before;
  }

  // ... and metadata next to a union that simplifies.
  lemma CopiedUnionMetaIsCleanedLater(strategy: Strategy)
    ensures var schema := Obj(map["anyOf" := Arr([Obj(map[])]), "default" := Obj(map["const" := Null])]);
            var once := CleanSchema(schema, strategy);
            CleanSchema(once, strategy) != once
  {
    var d := Obj(map["const" := Null]);
    var o: Fields := map["anyOf" := Arr([Obj(map[])]), "default" := d];
    OnlyUnionSurvivor(o, RootContext(Obj(o), strategy));
    var once: Fields := map["default" := d];
    var c := RootContext(Obj(once), strategy);
    ConstIsRewritten(c);
    assert CleanField("default", d, c, {}) == Clean(d, c, {});
    ChangedMember(once, "default", c);
  }

  lemma OnlyUnionSurvivor(o: Fields, c: Context)
    requires o.Keys == {"anyOf", "default"} && o["anyOf"] == Arr([Obj(map[])])
    ensures Clean(Obj(o), c, {}) == Obj(map["default" := o["default"]])
  {
    var empty: Fields := map[];
    CleanWithoutUnion(empty, c, {});
    assert OutKeys(empty, c.strategy) == {};
    assert CleanFields(empty, c, {}) == map[];
    var cleaned := CleanAll([Obj(empty)], c, {});
    assert cleaned == [Obj(empty)];
    assert NonNull(cleaned[1..]) == [] && NonNull(cleaned) == [Obj(empty)];
    assert UnionDecision(cleaned) == Some(Obj(empty));
    SurvivorWithMeta(o, empty, c);
  }

  lemma SurvivorWithMeta(o: Fields, empty: Fields, c: Context)
    requires o.Keys == {"anyOf", "default"} && o["anyOf"].Arr? && empty == map[]
    requires UnionDecision(CleanAll(o["anyOf"].items, c, {})) == Some(Obj(empty))
    ensures Clean(Obj(o), c, {}) == Obj(map["default" := o["default"]])
  {
    assert UnionKey(o) == "anyOf" && HasUnion(o) && "$ref" !in o;
    assert SimplifyUnion(o, c, {}) == Some(PreserveMeta(o, Obj(empty)));
    assert Clean(Obj(o), c, {}) == CleanObject(o, c, {});
    OnlyDefault(o);
    assert empty + Meta(o) == Meta(o);
  }

  lemma OnlyDefault(o: Fields)
    requires "default" in o && "description" !in o && "title" !in o
    ensures Meta(o) == map["default" := o["default"]]
  {
    assert forall k | k in META_KEYS :: k == "description" || k == "title" || k == "default";
    assert "default" in META_KEYS;
  }
}
