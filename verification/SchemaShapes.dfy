// What a caller sees come out of a cleaning, in terms of the keywords of the
// input: which members remain, what becomes of a reference, and when a union is
// taken apart, flattened or left alone.
module SchemaShapes {
  import opened Wrappers
  import opened Json
  import JsonPointer
  import opened SchemaCleaning
  import opened SchemaNormalForm
  import opened SchemaIdempotence

  // The keywords each provider is said not to support.
  predicate Removed(strategy: Strategy, k: string) {
    match strategy
    case Gemini =>
      k in {"$ref", "$schema", "$id", "$defs", "definitions", "additionalProperties", "patternProperties",
            "minLength", "maxLength", "pattern", "format", "minimum", "maximum", "multipleOf",
            "minItems", "maxItems", "uniqueItems", "minProperties", "maxProperties", "examples"}
    case Anthropic => k in {"$ref", "$defs", "definitions"}
    case OpenAI => false
    case Conservative => k in {"$ref", "$defs", "definitions", "additionalProperties"}
  }

  // A `type` array without "null": a lone name stands for itself, and nothing
  // but "null" is left if there was nothing else.
  ghost predicate IsCleanType(types: seq<Json>, t: Json) {
    exists at :: Picks(types, at, x => x != Str("null")) &&
      t == if |at| == 0 then Str("null") else if |at| == 1 then types[at[0]] else Arr(PickedFrom(types, at))
  }

  // `at` lists, in order, the positions of the elements that satisfy `keep`.
  ghost predicate Picks(items: seq<Json>, at: seq<nat>, keep: Json -> bool) {
    && (forall n | 0 <= n < |at| :: at[n] < |items|)
    && (forall n, m | 0 <= n < m < |at| :: at[n] < at[m])
    && (forall i: nat | i < |items| :: keep(items[i]) <==> i in at)
  }

  function PickedFrom(items: seq<Json>, at: seq<nat>): seq<Json>
    requires forall n | 0 <= n < |at| :: at[n] < |items|
  {
    seq(|at|, n requires 0 <= n < |at| => items[at[n]])
  }

  // The member `k` of a rebuilt object.
  ghost predicate IsCleanMember(k: string, v: Json, c: Context, stack: set<string>, r: Json) {
    if k == "type" && v.Arr? then IsCleanType(v.items, r)
    else if k == "properties" then
      if v.Obj? then
        r.Obj? && r.fields.Keys == v.fields.Keys && forall p | p in v.fields :: r.fields[p] == Clean(v.fields[p], c, stack)
      else r == v
    else if v.Arr? then
      r.Arr? && |r.items| == |v.items| && forall i | 0 <= i < |v.items| :: r.items[i] == Clean(v.items[i], c, stack)
    else if v.Obj? && !IsUnionKey(k) then r == Clean(v, c, stack)
    else r == v
  }

  // An object rebuilt member by member: unsupported keywords go, `const` becomes
  // a one-element `enum` unless there is an `enum`, and `type` gives way to a union.
  ghost predicate IsRebuilt(o: Fields, c: Context, stack: set<string>, r: Json) {
    && r.Obj?
    && (forall k :: k in r.fields <==>
          || (k in o && !Removed(c.strategy, k) && k != "const" && !(k == "type" && ("anyOf" in o || "oneOf" in o)))
          || (k == "enum" && "const" in o))
    && (forall k | k in r.fields && k in o && k != "const" :: IsCleanMember(k, o[k], c, stack, r.fields[k]))
    && ("const" in o && "enum" !in o ==> "enum" in r.fields && r.fields["enum"] == Arr([o["const"]]))
  }

  lemma RemovedIff(strategy: Strategy, k: string)
    ensures Removed(strategy, k) <==> k in strategy.Unsupported()
  {
  }

  lemma {:induction false} WithoutNullPicks(types: seq<Json>) returns (at: seq<nat>)
    ensures Picks(types, at, x => x != Str("null"))
    ensures PickedFrom(types, at) == WithoutNullType(types)
  {
    at := PicksOf(types, x => x != Str("null"));
    WithoutNullIsFilter(types);
    FilterPicks(types, x => x != Str("null"), at);
  }

  // ---------------------------------------------------------------- filters

  function Filter(items: seq<Json>, keep: Json -> bool): seq<Json> {
    if items == [] then []
    else
      var n := |items| - 1;
      Filter(items[..n], keep) + (if keep(items[n]) then [items[n]] else [])
  }

  lemma {:induction false} PicksOf(items: seq<Json>, keep: Json -> bool) returns (at: seq<nat>)
    ensures Picks(items, at, keep)
    decreases |items|
  {
    if items == [] {
      at := [];
    } else {
      var n := |items| - 1;
      var before := PicksOf(items[..n], keep);
      at := before + (if keep(items[n]) then [n] else []);
      assert forall i: nat | i < n :: items[..n][i] == items[i];
      assert forall i: nat :: i in at <==> i in before || (keep(items[n]) && i == n);
    }
  }

  // Such a list of positions picks what the filter keeps.
  lemma {:induction false} FilterPicks(items: seq<Json>, keep: Json -> bool, at: seq<nat>)
    requires Picks(items, at, keep)
    ensures PickedFrom(items, at) == Filter(items, keep)
    decreases |items|
  {
    if items == [] {
      NoneBelow(at, |items|);
    } else {
      var n := |items| - 1;
      if keep(items[n]) {
        LastKept(items, keep, at);
        FilterPicks(items[..n], keep, at[..|at| - 1]);
        PickedSnoc(items, at);
      } else {
        LastDropped(items, keep, at);
        FilterPicks(items[..n], keep, at);
        assert PickedFrom(items, at) == PickedFrom(items[..n], at);
      }
    }
  }

  lemma PickedSnoc(items: seq<Json>, at: seq<nat>)
    requires items != [] && at != [] && at[|at| - 1] == |items| - 1
    requires forall m | 0 <= m < |at| - 1 :: at[m] < |items| - 1
    ensures PickedFrom(items, at) == PickedFrom(items[..|items| - 1], at[..|at| - 1]) + [items[|items| - 1]]
  {
  }

  lemma LastKept(items: seq<Json>, keep: Json -> bool, at: seq<nat>)
    requires items != [] && Picks(items, at, keep) && keep(items[|items| - 1])
    ensures at != [] && at[|at| - 1] == |items| - 1
    ensures Picks(items[..|items| - 1], at[..|at| - 1], keep)
  {
    var n: nat := |items| - 1;
    assert n in at;
    EndsWith(at, n);
    var before := at[..|at| - 1];
    assert forall i: nat | i < n :: items[..n][i] == items[i];
    assert forall i: nat :: i in at <==> i in before || i == n;
  }

  lemma NoneBelow(at: seq<nat>, bound: nat)
    requires forall n | 0 <= n < |at| :: at[n] < bound
    ensures at != [] ==> bound > 0
  {
    if at != [] {
      assert at[0] < bound;
    }
  }

  lemma LastIsLargest(at: seq<nat>, m: nat)
    requires m < |at| && forall k, n | 0 <= k < n < |at| :: at[k] < at[n]
    ensures m < |at| - 1 ==> at[m] < at[|at| - 1]
  {
    if m < |at| - 1 {
      assert at[m] < at[|at| - 1];
    }
  }

  lemma EndsWith(at: seq<nat>, n: nat)
    requires n in at && forall m | 0 <= m < |at| :: at[m] <= n
    requires forall k, m | 0 <= k < m < |at| :: at[k] < at[m]
    ensures at == at[..|at| - 1] + [n]
    ensures forall i: nat :: i in at <==> i in at[..|at| - 1] || i == n
  {
    var m :| 0 <= m < |at| && at[m] == n;
    LastIsLargest(at, m);
  }

  lemma LastDropped(items: seq<Json>, keep: Json -> bool, at: seq<nat>)
    requires items != [] && Picks(items, at, keep) && !keep(items[|items| - 1])
    ensures Picks(items[..|items| - 1], at, keep)
  {
    var n: nat := |items| - 1;
    assert n !in at;
    assert forall i: nat | i < n :: items[..n][i] == items[i];
    assert forall m | 0 <= m < |at| :: at[m] in at;
  }

  lemma {:induction false} FilterFromFront(first: Json, rest: seq<Json>, keep: Json -> bool)
    ensures Filter([first] + rest, keep) == (if keep(first) then [first] else []) + Filter(rest, keep)
    decreases |rest|
  {
    var all := [first] + rest;
    var n := |all| - 1;
    if rest == [] {
      assert all[..n] == [];
    } else {
      assert all[..n] == [first] + rest[..n - 1] && all[n] == rest[n - 1];
      FilterFromFront(first, rest[..n - 1], keep);
    }
  }

  lemma {:induction false} WithoutNullIsFilter(types: seq<Json>)
    ensures WithoutNullType(types) == Filter(types, x => x != Str("null"))
  {
    if types != [] {
      WithoutNullIsFilter(types[1..]);
      FilterFromFront(types[0], types[1..], x => x != Str("null"));
      assert types == [types[0]] + types[1..];
    }
  }

  lemma {:induction false} NonNullIsFilter(variants: seq<Json>)
    ensures NonNull(variants) == Filter(variants, v => !IsNullSchema(v))
  {
    if variants != [] {
      NonNullIsFilter(variants[1..]);
      FilterFromFront(variants[0], variants[1..], v => !IsNullSchema(v));
      assert variants == [variants[0]] + variants[1..];
    }
  }

  // --------------------------------------------------------- rebuilt objects

  lemma CleanTypeIs(types: seq<Json>)
    ensures IsCleanType(types, CleanTypeArray(types))
  {
    var at := WithoutNullPicks(types);
    assert |at| == |WithoutNullType(types)|;
  }

  lemma FieldIsClean(k: string, v: Json, c: Context, stack: set<string>)
    ensures IsCleanMember(k, v, c, stack, CleanField(k, v, c, stack))
  {
    if k == "type" && v.Arr? {
      CleanTypeIs(v.items);
    } else if v.Arr? {
      assert Clean(v, c, stack) == Arr(CleanAll(v.items, c, stack));
    }
  }

  lemma FieldsAreRebuilt(o: Fields, c: Context, stack: set<string>)
    ensures IsRebuilt(o, c, stack, Obj(CleanFields(o, c, stack)))
  {
    var r := CleanFields(o, c, stack);
    forall k
      ensures Removed(c.strategy, k) <==> k in c.strategy.Unsupported()
    {
      RemovedIff(c.strategy, k);
    }
    KeysOfFields(o, c, stack);
    forall k | k in r && k in o && k != "const"
      ensures IsCleanMember(k, o[k], c, stack, r[k])
    {
      FieldIsClean(k, o[k], c, stack);
    }
  }

  lemma KeysOfFields(o: Fields, c: Context, stack: set<string>)
    requires forall k :: Removed(c.strategy, k) <==> k in c.strategy.Unsupported()
    ensures forall k :: k in CleanFields(o, c, stack) <==>
              || (k in o && !Removed(c.strategy, k) && k != "const" && !(k == "type" && ("anyOf" in o || "oneOf" in o)))
              || (k == "enum" && "const" in o)
  {
    forall k
      ensures Kept(k, o, c.strategy) <==>
              k in o && !Removed(c.strategy, k) && k != "const" && !(k == "type" && ("anyOf" in o || "oneOf" in o))
    {
    }
  }

  // An object with neither a reference nor a union.
  lemma PlainObjectIsRebuilt(o: Fields, c: Context, stack: set<string>)
    requires !HasString(o, "$ref") && "anyOf" !in o && "oneOf" !in o
    ensures IsRebuilt(o, c, stack, Clean(Obj(o), c, stack))
  {
    CleanWithoutUnion(o, c, stack);
    FieldsAreRebuilt(o, c, stack);
  }

  // ---------------------------------------------------------------- metadata

  predicate IsMetaKey(k: string) {
    k == "description" || k == "title" || k == "default"
  }

  // `r` is `t` with the metadata of `o` written over it, if it can carry any.
  ghost predicate CarriesMeta(o: Fields, t: Json, r: Json) {
    if !t.Obj? then r == t
    else
      && r.Obj?
      && (forall k :: k in r.fields <==> k in t.fields || (IsMetaKey(k) && k in o))
      && (forall k | k in r.fields :: r.fields[k] == if IsMetaKey(k) && k in o then o[k] else t.fields[k])
  }

  lemma PreservedCarriesMeta(o: Fields, t: Json)
    ensures CarriesMeta(o, t, PreserveMeta(o, t))
  {
    forall k
      ensures k in META_KEYS <==> IsMetaKey(k)
    {
      assert META_KEYS[0] == "description" && META_KEYS[1] == "title" && META_KEYS[2] == "default";
    }
  }

  // The definition a document holds under a name: a legacy one before another.
  function DefinitionIn(o: Fields, name: string): Option<Json> {
    if "definitions" in o && o["definitions"].Obj? && name in o["definitions"].fields then Some(o["definitions"].fields[name])
    else if "$defs" in o && o["$defs"].Obj? && name in o["$defs"].fields then Some(o["$defs"].fields[name])
    else None
  }

  lemma ResolvesByName(o: Fields, key: string, segment: string)
    requires key == "$defs" || key == "definitions"
    ensures var (ref, found) := ("#/" + key + "/" + segment, DefinitionIn(o, JsonPointer.DecodeInTwoSteps(segment)));
            && (Resolves(ref, ExtractDefs(o)) <==> found.Some?)
            && (found.Some? ==> Definition(ref, ExtractDefs(o)) == found.value)
  {
    ParseOfLocalRef(key, segment);
    JsonPointer.DecodeIsTwoStep(segment);
  }

  // A local reference, in either spelling, becomes the cleaned definition of that
  // name; one that is being inlined, or that names none, becomes an empty schema.
  // Its own metadata goes on top.
  lemma LocalReferenceIsReplaced(o: Fields, r: Fields, key: string, segment: string, strategy: Strategy, stack: set<string>)
    requires (key == "$defs" || key == "definitions") && "$ref" in r && r["$ref"] == Str("#/" + key + "/" + segment)
    ensures var (ref, c) := (r["$ref"].s, RootContext(Obj(o), strategy));
            var found := DefinitionIn(o, JsonPointer.DecodeInTwoSteps(segment));
            CarriesMeta(r,
              if found.Some? && ref !in stack then Clean(found.value, c, stack + {ref}) else Obj(map[]),
              Clean(Obj(r), c, stack))
  {
    ResolvesByName(o, key, segment);
    ReferenceIsReplaced(r, RootContext(Obj(o), strategy), stack);
  }

  // Every other reference is dropped.
  lemma OtherReferenceIsDropped(o: Fields, c: Context, stack: set<string>)
    requires HasString(o, "$ref") && !("#/$defs/" <= o["$ref"].s) && !("#/definitions/" <= o["$ref"].s)
    ensures CarriesMeta(o, Obj(map[]), Clean(Obj(o), c, stack))
  {
    ReferenceIsReplaced(o, c, stack);
  }

  lemma ReferenceIsReplaced(o: Fields, c: Context, stack: set<string>)
    requires HasString(o, "$ref")
    ensures var (ref, r) := (o["$ref"].s, Clean(Obj(o), c, stack));
            if ref !in stack && Resolves(ref, c.defs) then CarriesMeta(o, Clean(Definition(ref, c.defs), c, stack + {ref}), r)
            else CarriesMeta(o, Obj(map[]), r)
  {
    var ref := o["$ref"].s;
    assert Clean(Obj(o), c, stack) == ResolveRef(o, c, stack);
    if ref !in stack && Resolves(ref, c.defs) {
      PreservedCarriesMeta(o, Clean(Definition(ref, c.defs), c, stack + {ref}));
    } else {
      PreservedCarriesMeta(o, Obj(map[]));
    }
  }

  // ------------------------------------------------------------------ unions

  // A cleaned variant that admits null and nothing else.
  predicate SaysNull(v: Json) {
    v.Obj? && (("enum" in v.fields && v.fields["enum"] == Arr([Null])) || ("type" in v.fields && v.fields["type"] == Str("null")))
  }

  // A cleaned variant that pins down a type and one literal.
  predicate Pins(v: Json, t: string, x: Json) {
    v.Obj? && "type" in v.fields && v.fields["type"] == Str(t) && "enum" in v.fields && v.fields["enum"] == Arr([x])
  }

  ghost predicate PinsType(v: Json, t: string) {
    exists x :: Pins(v, t, x)
  }

  // `at` lists the variants of the union that are not null, after cleaning.
  ghost predicate Survivors(variants: seq<Json>, c: Context, stack: set<string>, at: seq<nat>) {
    Picks(CleanAll(variants, c, stack), at, v => !SaysNull(v))
  }

  lemma CleanedVariant(v: Json, c: Context, stack: set<string>)
    ensures var r := Clean(v, c, stack);
            && (IsNullSchema(r) <==> SaysNull(r))
            && (forall t, x :: Pins(r, t, x) <==> IsLiteral(r) && TypeName(r) == t && LiteralOf(r) == Some(x))
  {
    ConstTestsNeverFire(v, c, stack);
    NoConstLeft(v, c, stack);
    var r := Clean(v, c, stack);
    forall t, x
      ensures Pins(r, t, x) <==> IsLiteral(r) && TypeName(r) == t && LiteralOf(r) == Some(x)
    {
      if IsLiteral(r) {
        assert r.fields["enum"].items == [LiteralOf(r).value];
      }
    }
  }

  lemma SurvivorsAre(variants: seq<Json>, c: Context, stack: set<string>, at: seq<nat>)
    requires Survivors(variants, c, stack, at)
    ensures NonNull(CleanAll(variants, c, stack)) == PickedFrom(CleanAll(variants, c, stack), at)
  {
    var cleaned := CleanAll(variants, c, stack);
    forall i: nat | i < |cleaned|
      ensures !IsNullSchema(cleaned[i]) <==> i in at
    {
      CleanedVariant(variants[i], c, stack);
    }
    assert Picks(cleaned, at, v => !IsNullSchema(v));
    FilterPicks(cleaned, v => !IsNullSchema(v), at);
    NonNullIsFilter(cleaned);
  }

  ghost predicate HasVariants(o: Fields, key: string, variants: seq<Json>) {
    && !HasString(o, "$ref") && (key == "anyOf" || (key == "oneOf" && "anyOf" !in o))
    && key in o && o[key] == Arr(variants)
  }

  // One variant is left: it takes the place of the union.
  lemma LoneSurvivorIsTaken(o: Fields, key: string, variants: seq<Json>, c: Context, stack: set<string>, at: seq<nat>)
    requires HasVariants(o, key, variants) && Survivors(variants, c, stack, at) && |at| == 1
    ensures CarriesMeta(o, Clean(variants[at[0]], c, stack), Clean(Obj(o), c, stack))
  {
    var cleaned := CleanAll(variants, c, stack);
    SurvivorsAre(variants, c, stack, at);
    assert NonNull(cleaned) == [cleaned[at[0]]];
    UnionResult(o, key, variants, c, stack);
    PreservedCarriesMeta(o, cleaned[at[0]]);
  }

  lemma UnionResult(o: Fields, key: string, variants: seq<Json>, c: Context, stack: set<string>)
    requires HasVariants(o, key, variants)
    ensures var decision := UnionDecision(CleanAll(variants, c, stack));
            Clean(Obj(o), c, stack) ==
            if decision.Some? then PreserveMeta(o, decision.value) else Obj(CleanFields(o, c, stack))
  {
    assert UnionKey(o) == key && HasUnion(o);
    assert Clean(Obj(o), c, stack) == CleanObject(o, c, stack);
  }

  // Several variants are left, and all of them pin down literals of one type:
  // they become one `enum`, in their order.
  lemma LiteralsAreFlattened(
      o: Fields, key: string, variants: seq<Json>, c: Context, stack: set<string>, at: seq<nat>, t: string, values: seq<Json>)
    requires HasVariants(o, key, variants) && Survivors(variants, c, stack, at) && |at| >= 2 && |values| == |at|
    requires forall n | 0 <= n < |at| :: Pins(Clean(variants[at[n]], c, stack), t, values[n])
    ensures CarriesMeta(o, Obj(map["type" := Str(t), "enum" := Arr(values)]), Clean(Obj(o), c, stack))
  {
    var kept := NonNull(CleanAll(variants, c, stack));
    SurvivorsAre(variants, c, stack, at);
    forall n | 0 <= n < |kept|
      ensures IsLiteral(kept[n]) && TypeName(kept[n]) == t && LiteralOf(kept[n]) == Some(values[n])
    {
      CleanedVariant(variants[at[n]], c, stack);
    }
    assert EnumOf(kept).fields["enum"].items == values;
    assert EnumOf(kept) == Obj(map["type" := Str(t), "enum" := Arr(values)]);
    UnionResult(o, key, variants, c, stack);
    PreservedCarriesMeta(o, EnumOf(kept));
  }

  // They pin down no literals of one type: one of them none at all, or the two
  // of different types.
  ghost predicate Differ(a: Json, b: Json) {
    forall t :: !(PinsType(a, t) && PinsType(b, t))
  }

  // Otherwise the union stays: nothing is left of it, or several variants of
  // which one pins down no literal or two differ in their type.
  lemma OtherUnionsStay(
      o: Fields, key: string, variants: seq<Json>, c: Context, stack: set<string>, at: seq<nat>, n: nat, m: nat)
    requires HasVariants(o, key, variants) && Survivors(variants, c, stack, at) && |at| != 1
    requires at != [] ==> n < |at| && m < |at| && Differ(Clean(variants[at[n]], c, stack), Clean(variants[at[m]], c, stack))
    ensures IsRebuilt(o, c, stack, Clean(Obj(o), c, stack))
    ensures var r := Clean(Obj(o), c, stack);
            r.Obj? && key in r.fields && r.fields[key] == Arr(CleanAll(variants, c, stack))
  {
    NothingToFlatten(variants, c, stack, at, n, m);
    UndecidedStays(o, key, variants, c, stack);
  }

  // And with it stay its null variants.
  lemma NullVariantStays(
      o: Fields, key: string, variants: seq<Json>, c: Context, stack: set<string>, at: seq<nat>, n: nat, m: nat, i: nat)
    requires HasVariants(o, key, variants) && Survivors(variants, c, stack, at) && |at| != 1
    requires at != [] ==> n < |at| && m < |at| && Differ(Clean(variants[at[n]], c, stack), Clean(variants[at[m]], c, stack))
    requires i < |variants| && i !in at
    ensures var r := Clean(Obj(o), c, stack);
            r.Obj? && HasArray(r.fields, key) && i < |r.fields[key].items| && SaysNull(r.fields[key].items[i])
  {
    OtherUnionsStay(o, key, variants, c, stack, at, n, m);
    assert i in at <==> !SaysNull(CleanAll(variants, c, stack)[i]);
  }

  lemma UndecidedStays(o: Fields, key: string, variants: seq<Json>, c: Context, stack: set<string>)
    requires HasVariants(o, key, variants) && UnionDecision(CleanAll(variants, c, stack)) == None
    ensures IsRebuilt(o, c, stack, Clean(Obj(o), c, stack))
    ensures var r := Clean(Obj(o), c, stack);
            r.Obj? && key in r.fields && r.fields[key] == Arr(CleanAll(variants, c, stack))
  {
    UnionResult(o, key, variants, c, stack);
    FieldsAreRebuilt(o, c, stack);
    UnionField(o, key, variants, c, stack);
  }

  lemma UnionField(o: Fields, key: string, variants: seq<Json>, c: Context, stack: set<string>)
    requires (key == "anyOf" || key == "oneOf") && key in o && o[key] == Arr(variants)
    ensures var r := CleanFields(o, c, stack); key in r && r[key] == Arr(CleanAll(variants, c, stack))
  {
    assert Kept(key, o, c.strategy);
    assert CleanFields(o, c, stack)[key] == CleanField(key, o[key], c, stack) == Arr(CleanAll(variants, c, stack));
  }

  lemma NothingToFlatten(variants: seq<Json>, c: Context, stack: set<string>, at: seq<nat>, n: nat, m: nat)
    requires Survivors(variants, c, stack, at) && |at| != 1
    requires at != [] ==> n < |at| && m < |at| && Differ(Clean(variants[at[n]], c, stack), Clean(variants[at[m]], c, stack))
    ensures UnionDecision(CleanAll(variants, c, stack)) == None
  {
    var kept := NonNull(CleanAll(variants, c, stack));
    SurvivorsAre(variants, c, stack, at);
    if at != [] {
      CleanedVariant(variants[at[n]], c, stack);
      CleanedVariant(variants[at[m]], c, stack);
      NotOfOneType(kept, n, m);
    }
  }

  lemma NotOfOneType(kept: seq<Json>, n: nat, m: nat)
    requires n < |kept| && m < |kept| && Differ(kept[n], kept[m])
    requires forall i, t, x | i == n || i == m ::
               Pins(kept[i], t, x) <==> IsLiteral(kept[i]) && TypeName(kept[i]) == t && LiteralOf(kept[i]) == Some(x)
    ensures !FlattensToEnum(kept)
  {
    if IsLiteral(kept[n]) && IsLiteral(kept[m]) && TypeName(kept[n]) == TypeName(kept[m]) {
      var t := TypeName(kept[n]);
      assert Pins(kept[n], t, LiteralOf(kept[n]).value) && Pins(kept[m], t, LiteralOf(kept[m]).value);
      assert PinsType(kept[n], t) && PinsType(kept[m], t);
    }
  }

  // ------------------------------------------------ unions of typed literals

  // A choice as a schema writes it: null, or a literal under `const` or as the
  // only entry of an `enum`.
  datatype Choice = Nothing | AsConst(x: Json) | AsEnum(x: Json)

  function Written(t: string, choice: Choice): Json {
    match choice
    case Nothing => Obj(map["type" := Str("null")])
    case AsConst(x) => Obj(map["type" := Str(t), "const" := x])
    case AsEnum(x) => Obj(map["type" := Str(t), "enum" := Arr([x])])
  }

  function AllWritten(t: string, choices: seq<Choice>): seq<Json> {
    seq(|choices|, i requires 0 <= i < |choices| => Written(t, choices[i]))
  }

  // The literals of the choices, in order.
  function Literals(choices: seq<Choice>): seq<Json> {
    if choices == [] then []
    else
      var n := |choices| - 1;
      Literals(choices[..n]) + (if choices[n].Nothing? then [] else [choices[n].x])
  }

  // A `const` may be any value but null; an entry of an `enum` one that a pass
  // leaves alone.
  ghost predicate Usable(choice: Choice, strategy: Strategy) {
    !choice.Nothing? ==> choice.x != Null && (choice.AsEnum? ==> Stable(choice.x, strategy))
  }

  ghost predicate BecomesChoice(t: string, choice: Choice, r: Json) {
    if choice.Nothing? then SaysNull(r) else r == Pinned(t, choice.x) && !SaysNull(r)
  }

  lemma TypedEnum(r: Fields, t: string, x: Json)
    requires r.Keys == {"type", "enum"} && r["type"] == Str(t) && r["enum"] == Arr([x]) && t != "null" && x != Null
    ensures Obj(r) == Pinned(t, x) && !SaysNull(Obj(r))
  {
    assert r == Pinned(t, x).fields;
    assert [x][0] != [Null][0];
  }

  lemma ChoiceIsCleaned(t: string, choice: Choice, c: Context, stack: set<string>)
    requires t != "null" && Usable(choice, c.strategy)
    ensures BecomesChoice(t, choice, Clean(Written(t, choice), c, stack))
  {
    var o := Written(t, choice).fields;
    PlainObjectIsRebuilt(o, c, stack);
    if !choice.Nothing? {
      StaySupported(c.strategy);
      LiteralIsRebuilt(o, t, choice, c, stack, Clean(Obj(o), c, stack));
    } else {
      StaySupported(c.strategy);
    }
  }

  lemma StaySupported(strategy: Strategy)
    ensures !Removed(strategy, "type") && !Removed(strategy, "enum")
  {
  }

  lemma LiteralIsRebuilt(o: Fields, t: string, choice: Choice, c: Context, stack: set<string>, r: Json)
    requires t != "null" && !choice.Nothing? && Usable(choice, c.strategy) && Obj(o) == Written(t, choice)
    requires IsRebuilt(o, c, stack, r) && !Removed(c.strategy, "type") && !Removed(c.strategy, "enum")
    ensures r == Pinned(t, choice.x) && !SaysNull(r)
  {
    assert forall k :: k in r.fields <==> k == "type" || k == "enum";
    assert IsCleanMember("type", o["type"], c, stack, r.fields["type"]);
    if choice.AsEnum? {
      assert IsCleanMember("enum", o["enum"], c, stack, r.fields["enum"]);
      StableIsFixed(choice.x, c, stack);
      assert r.fields["enum"].items == [choice.x];
    }
    TypedEnum(r.fields, t, choice.x);
  }

  function Pinned(t: string, x: Json): Json {
    Obj(map["type" := Str(t), "enum" := Arr([x])])
  }

  // The cleaned variants without the null ones.
  lemma {:induction false} LiteralsAreLeft(t: string, choices: seq<Choice>, cleaned: seq<Json>)
    requires |cleaned| == |choices| && forall i | 0 <= i < |choices| :: BecomesChoice(t, choices[i], cleaned[i])
    ensures var left := Filter(cleaned, v => !SaysNull(v));
            |left| == |Literals(choices)| && forall n | 0 <= n < |left| :: left[n] == Pinned(t, Literals(choices)[n])
    decreases |choices|
  {
    if choices != [] {
      var n := |choices| - 1;
      LiteralsAreLeft(t, choices[..n], cleaned[..n]);
      assert BecomesChoice(t, choices[n], cleaned[n]);
    }
  }

  // A union of literals of one type, with or without null, becomes one `enum` of
  // that type with the literals in order, and keeps its metadata.
  lemma LiteralUnionBecomesEnum(o: Fields, key: string, t: string, choices: seq<Choice>, c: Context, stack: set<string>)
    requires t != "null" && Literals(choices) != [] && forall i | 0 <= i < |choices| :: Usable(choices[i], c.strategy)
    requires HasVariants(o, key, AllWritten(t, choices))
    ensures CarriesMeta(o, Obj(map["type" := Str(t), "enum" := Arr(Literals(choices))]), Clean(Obj(o), c, stack))
  {
    var variants := AllWritten(t, choices);
    var cleaned := CleanAll(variants, c, stack);
    forall i | 0 <= i < |choices|
      ensures BecomesChoice(t, choices[i], cleaned[i])
    {
      ChoiceIsCleaned(t, choices[i], c, stack);
    }
    var at := PicksOf(cleaned, v => !SaysNull(v));
    FilterPicks(cleaned, v => !SaysNull(v), at);
    LiteralsAreLeft(t, choices, cleaned);
    FlattenedOrLone(o, key, variants, c, stack, at, t, Literals(choices));
  }

  lemma FlattenedOrLone(
      o: Fields, key: string, variants: seq<Json>, c: Context, stack: set<string>, at: seq<nat>, t: string, values: seq<Json>)
    requires HasVariants(o, key, variants) && Survivors(variants, c, stack, at) && |values| == |at| >= 1
    requires forall n | 0 <= n < |at| :: PickedFrom(CleanAll(variants, c, stack), at)[n] == Pinned(t, values[n])
    ensures CarriesMeta(o, Obj(map["type" := Str(t), "enum" := Arr(values)]), Clean(Obj(o), c, stack))
  {
    forall n | 0 <= n < |at|
      ensures Clean(variants[at[n]], c, stack) == Pinned(t, values[n])
    {
      assert PickedFrom(CleanAll(variants, c, stack), at)[n] == Pinned(t, values[n]);
    }
    if |at| == 1 {
      LoneSurvivorIsTaken(o, key, variants, c, stack, at);
      assert values == [values[0]];
    } else {
      LiteralsAreFlattened(o, key, variants, c, stack, at, t, values);
    }
  }

  // The same for a whole document under any strategy.
  lemma LiteralDocumentBecomesEnum(o: Fields, key: string, t: string, choices: seq<Choice>, strategy: Strategy)
    requires t != "null" && Literals(choices) != [] && forall i | 0 <= i < |choices| :: Usable(choices[i], strategy)
    requires HasVariants(o, key, AllWritten(t, choices))
    ensures CarriesMeta(o, Obj(map["type" := Str(t), "enum" := Arr(Literals(choices))]), CleanSchema(Obj(o), strategy))
  {
    LiteralUnionBecomesEnum(o, key, t, choices, RootContext(Obj(o), strategy), {});
  }

  // The smallest such union, outright.
  lemma TwoLiteralsBecomeEnum(o: Fields, t: string, x: Json, y: Json, strategy: Strategy)
    requires t != "null" && x != Null && y != Null && o.Keys == {"anyOf"}
    requires o["anyOf"] == Arr([Obj(map["type" := Str(t), "const" := x]), Obj(map["type" := Str(t), "const" := y])])
    ensures CleanSchema(Obj(o), strategy) == Obj(map["type" := Str(t), "enum" := Arr([x, y])])
  {
    var choices := [AsConst(x), AsConst(y)];
    assert AllWritten(t, choices) == o["anyOf"].items;
    LiteralsSnoc([], AsConst(x));
    LiteralsSnoc([AsConst(x)], AsConst(y));
    assert choices == [AsConst(x)] + [AsConst(y)] && [AsConst(x)] == [] + [AsConst(x)];
    LiteralDocumentBecomesEnum(o, "anyOf", t, choices, strategy);
    NothingCarried(o, Obj(map["type" := Str(t), "enum" := Arr([x, y])]), CleanSchema(Obj(o), strategy));
  }

  lemma LiteralsSnoc(choices: seq<Choice>, last: Choice)
    ensures Literals(choices + [last]) == Literals(choices) + if last.Nothing? then [] else [last.x]
  {
    assert (choices + [last])[..|choices|] == choices;
  }

  lemma NothingCarried(o: Fields, t: Json, r: Json)
    requires CarriesMeta(o, t, r) && forall k | k in o :: !IsMetaKey(k)
    ensures r == t
  {
    if t.Obj? {
      assert r.fields == t.fields;
    }
  }

  // --------------------------------------------------- unions without types

  function Untyped(x: Json): Json {
    Obj(map["const" := x])
  }

  function OnlyEntry(x: Json): Json {
    Obj(map["enum" := Arr([x])])
  }

  lemma UntypedIsCleaned(x: Json, c: Context, stack: set<string>)
    requires x != Null
    ensures Clean(Untyped(x), c, stack) == OnlyEntry(x) && !SaysNull(OnlyEntry(x))
  {
    var r := Clean(Untyped(x), c, stack);
    PlainObjectIsRebuilt(Untyped(x).fields, c, stack);
    assert forall k :: k in r.fields <==> k == "enum";
    assert r.fields == OnlyEntry(x).fields;
    assert [x][0] != [Null][0];
  }

  lemma UntypedPinsNothing(x: Json)
    ensures Differ(OnlyEntry(x), OnlyEntry(x))
  {
  }

  // Literals without a `type` beside them are not flattened, even if all are of
  // one type: each becomes an `enum` of its own.
  lemma UntypedLiteralsStay(o: Fields, key: string, values: seq<Json>, variants: seq<Json>, c: Context, stack: set<string>)
    requires |values| >= 2 && |variants| == |values| && HasVariants(o, key, variants)
    requires forall i | 0 <= i < |values| :: values[i] != Null && variants[i] == Untyped(values[i])
    ensures var r := Clean(Obj(o), c, stack);
            && r.Obj? && HasArray(r.fields, key) && |r.fields[key].items| == |values|
            && forall i | 0 <= i < |values| :: r.fields[key].items[i] == OnlyEntry(values[i])
  {
    var cleaned := CleanAll(variants, c, stack);
    forall i | 0 <= i < |values|
      ensures cleaned[i] == OnlyEntry(values[i]) && !SaysNull(cleaned[i])
    {
      UntypedIsCleaned(values[i], c, stack);
    }
    var at: seq<nat> := seq(|values|, i requires 0 <= i < |values| => i);
    AllAreKept(cleaned, at);
    UntypedPinsNothing(values[0]);
    OtherUnionsStay(o, key, variants, c, stack, at, 0, 0);
  }

  lemma AllAreKept(cleaned: seq<Json>, at: seq<nat>)
    requires |at| == |cleaned| && forall i | 0 <= i < |cleaned| :: at[i] == i && !SaysNull(cleaned[i])
    ensures Picks(cleaned, at, v => !SaysNull(v))
  {
    forall i: nat | i < |cleaned|
      ensures i in at
    {
      assert at[i] == i;
    }
  }
}
