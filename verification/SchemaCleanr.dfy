// The cleaner as the source runs it: one shared, mutable reference stack and
// loops that fill their results.  Every method returns what the functions of
// SchemaCleaning compute and hands the stack back exactly as it received it.
module SchemaCleanr {
  import opened Wrappers
  import opened Json
  import opened StringOrder
  import opened SchemaCleaning

  // `ref_stack: &mut HashSet<String>`.
  class RefStack {
    var refs: set<string>

    constructor ()
      ensures refs == {}
    {
      refs := {};
    }
  }

  method CleanTop(schema: Json, strategy: Strategy) returns (cleaned: Json)
    ensures cleaned == CleanSchema(schema, strategy)
  {
    var stack := new RefStack();
    cleaned := CleanWithDefs(schema, RootContext(schema, strategy), stack);
  }

  method CleanWithDefs(schema: Json, c: Context, stack: RefStack) returns (cleaned: Json)
    modifies stack
    ensures stack.refs == old(stack.refs)
    ensures cleaned == Clean(schema, c, old(stack.refs))
    decreases Open(schema, c, stack.refs), schema, 4
  {
    match schema
    case Obj(o) => cleaned := CleanObjectInto(o, c, stack);
    case Arr(items) =>
      var all := CleanEach(items, c, stack);
      cleaned := Arr(all);
    case _ => cleaned := schema;
  }

  method CleanEach(items: seq<Json>, c: Context, stack: RefStack) returns (cleaned: seq<Json>)
    modifies stack
    ensures stack.refs == old(stack.refs)
    ensures cleaned == CleanAll(items, c, old(stack.refs))
    decreases Open(Arr(items), c, stack.refs), Arr(items), 1
  {
    cleaned := [];
    for i := 0 to |items|
      invariant stack.refs == old(stack.refs)
      invariant cleaned == CleanAll(items, c, old(stack.refs))[..i]
    {
      var next := CleanWithDefs(items[i], c, stack);
      cleaned := cleaned + [next];
    }
  }

  method CleanObjectInto(o: Fields, c: Context, stack: RefStack) returns (cleaned: Json)
    modifies stack
    ensures stack.refs == old(stack.refs)
    ensures cleaned == CleanObject(o, c, old(stack.refs))
    decreases Open(Obj(o), c, stack.refs), Obj(o), 3
  {
    if HasString(o, "$ref") {
      cleaned := ResolveRefOn(o, c, stack);
      return;
    }
    if HasUnion(o) {
      var simplified := TrySimplifyUnion(o, c, stack);
      if simplified.Some? {
        return simplified.value;
      }
    }
    var fields := FillFields(o, c, stack);
    cleaned := Obj(fields);
  }

  // Keys already visited by the ordered loop come before all keys still to visit.
  ghost predicate VisitedFirst(done: set<string>, rest: set<string>) {
    forall d, r | d in done && r in rest :: Less(d, r)
  }

  lemma VisitsInOrder(done: set<string>, rest: set<string>, key: string)
    requires VisitedFirst(done, rest) && IsLeast(key, rest)
    ensures VisitedFirst(done + {key}, rest - {key})
    ensures (done + {key}) + (rest - {key}) == done + rest
  {
  }

  // What the loop has inserted once it has visited the keys in `done`.
  ghost predicate FilledFor(cleaned: Fields, done: set<string>, o: Fields, c: Context, stack: set<string>)
    requires done <= o.Keys
  {
    && (forall k :: k in cleaned <==>
         (k in done && Kept(k, o, c.strategy)) || (k == "enum" && "const" in done && "const" in o))
    && (forall k | k in cleaned ::
         cleaned[k] == if k == "enum" && "enum" !in done then Arr([o["const"]]) else CleanField(k, o[k], c, stack))
  }

  // A kept key other than `const` is inserted under its own name.
  lemma MemberFills(cleaned: Fields, done: set<string>, key: string, o: Fields, c: Context, stack: set<string>)
    requires done <= o.Keys && key in o && key !in done && Kept(key, o, c.strategy)
    requires FilledFor(cleaned, done, o, c, stack)
    ensures FilledFor(cleaned[key := CleanField(key, o[key], c, stack)], done + {key}, o, c, stack)
  {
  }

  // `const` is inserted under the name `enum`, before any `enum` is visited.
  lemma ConstFills(cleaned: Fields, done: set<string>, o: Fields, c: Context, stack: set<string>)
    requires done <= o.Keys && "const" in o && "const" !in done && "enum" !in done
    requires FilledFor(cleaned, done, o, c, stack)
    ensures FilledFor(cleaned["enum" := Arr([o["const"]])], done + {"const"}, o, c, stack)
  {
  }

  lemma SkippedFills(cleaned: Fields, done: set<string>, key: string, o: Fields, c: Context, stack: set<string>)
    requires done <= o.Keys && key in o && key !in done && key != "const" && !Kept(key, o, c.strategy)
    requires FilledFor(cleaned, done, o, c, stack)
    ensures FilledFor(cleaned, done + {key}, o, c, stack)
  {
  }

  lemma ConstComesBeforeEnum(done: set<string>, rest: set<string>)
    requires VisitedFirst(done, rest) && "const" in rest
    ensures "enum" !in done
  {
    assert Less("const", "enum");
    LessAsymmetric("const", "enum");
  }

  lemma FilledIsCleanFields(cleaned: Fields, o: Fields, c: Context, stack: set<string>)
    requires FilledFor(cleaned, o.Keys, o, c, stack)
    ensures cleaned == CleanFields(o, c, stack)
  {
    assert cleaned.Keys == OutKeys(o, c.strategy);
  }

  method FillFields(o: Fields, c: Context, stack: RefStack) returns (cleaned: Fields)
    modifies stack
    ensures stack.refs == old(stack.refs)
    ensures cleaned == CleanFields(o, c, old(stack.refs))
    decreases Open(Obj(o), c, stack.refs), Obj(o), 2
  {
    cleaned := map[];
    var rest := o.Keys;
    ghost var done := {};
    while rest != {}
      invariant done + rest == o.Keys && done !! rest
      invariant VisitedFirst(done, rest)
      invariant stack.refs == old(stack.refs)
      invariant FilledFor(cleaned, done, o, c, old(stack.refs))
      decreases rest
    {
      LeastExists(rest);
      var key :| key in rest && IsLeast(key, rest);
      VisitsInOrder(done, rest, key);
      if key == "const" {
        ConstComesBeforeEnum(done, rest);
      }
      cleaned := FillMember(key, o, cleaned, c, stack, done);
      rest := rest - {key};
      done := done + {key};
    }
    assert done == o.Keys;
    FilledIsCleanFields(cleaned, o, c, stack.refs);
  }

  // One round of the loop over the entries.
  method FillMember(key: string, o: Fields, before: Fields, c: Context, stack: RefStack, ghost done: set<string>)
    returns (cleaned: Fields)
    requires done <= o.Keys && key in o && key !in done && (key == "const" ==> "enum" !in done)
    requires FilledFor(before, done, o, c, stack.refs)
    modifies stack
    ensures stack.refs == old(stack.refs)
    ensures FilledFor(cleaned, done + {key}, o, c, old(stack.refs))
    decreases Open(Obj(o), c, stack.refs), Obj(o), 1
  {
    cleaned := before;
    var value := o[key];
    if key in c.strategy.Unsupported() {
      SkippedFills(cleaned, done, key, o, c, stack.refs);
    } else if key == "const" {
      ConstFills(cleaned, done, o, c, stack.refs);
      cleaned := cleaned["enum" := Arr([value])];
    } else if key == "type" && HasUnion(o) {
      // the union defines the type
      SkippedFills(cleaned, done, key, o, c, stack.refs);
    } else {
      MemberFills(cleaned, done, key, o, c, stack.refs);
      var field := FillField(key, value, c, stack);
      cleaned := cleaned[key := field];
    }
  }

  method FillField(key: string, value: Json, c: Context, stack: RefStack) returns (cleaned: Json)
    modifies stack
    ensures stack.refs == old(stack.refs)
    ensures cleaned == CleanField(key, value, c, old(stack.refs))
    decreases Open(value, c, stack.refs), value, 5
  {
    if key == "type" && value.Arr? {
      cleaned := CleanTypeArray(value.items);
    } else if key == "properties" {
      if value.Obj? {
        var props := FillProperties(value.fields, c, stack);
        cleaned := Obj(props);
      } else {
        cleaned := value;
      }
    } else if key == "anyOf" || key == "oneOf" || key == "allOf" {
      if value.Arr? {
        var variants := CleanEach(value.items, c, stack);
        cleaned := Arr(variants);
      } else {
        cleaned := value;
      }
    } else {
      cleaned := CleanWithDefs(value, c, stack);
    }
  }

  method FillProperties(props: Fields, c: Context, stack: RefStack) returns (cleaned: Fields)
    modifies stack
    ensures stack.refs == old(stack.refs)
    ensures cleaned == CleanProperties(props, c, old(stack.refs))
    decreases Open(Obj(props), c, stack.refs), Obj(props), 1
  {
    cleaned := map[];
    var rest := props.Keys;
    while rest != {}
      invariant rest <= props.Keys
      invariant stack.refs == old(stack.refs)
      invariant cleaned.Keys == props.Keys - rest
      invariant forall p | p in cleaned :: cleaned[p] == Clean(props[p], c, old(stack.refs))
      decreases rest
    {
      LeastExists(rest);
      var p :| p in rest && IsLeast(p, rest);
      var value := CleanWithDefs(props[p], c, stack);
      cleaned := cleaned[p := value];
      rest := rest - {p};
    }
  }

  method ResolveRefOn(o: Fields, c: Context, stack: RefStack) returns (cleaned: Json)
    requires HasString(o, "$ref")
    modifies stack
    ensures stack.refs == old(stack.refs)
    ensures cleaned == ResolveRef(o, c, old(stack.refs))
    decreases Open(Obj(o), c, stack.refs), Obj(o), 2
  {
    var ref := o["$ref"].s;
    if ref in stack.refs {
      cleaned := PreserveMetaOn(o, Obj(map[]));
      return;
    }
    var name := ParseLocalRef(ref);
    if name.Some? && name.value in c.defs {
      stack.refs := stack.refs + {ref};
      var inlined := CleanWithDefs(c.defs[name.value], c, stack);
      stack.refs := stack.refs - {ref};
      cleaned := PreserveMetaOn(o, inlined);
      return;
    }
    cleaned := PreserveMetaOn(o, Obj(map[]));
  }

  method TrySimplifyUnion(o: Fields, c: Context, stack: RefStack) returns (simplified: Option<Json>)
    modifies stack
    ensures stack.refs == old(stack.refs)
    ensures simplified == SimplifyUnion(o, c, old(stack.refs))
    decreases Open(Obj(o), c, stack.refs), Obj(o), 2
  {
    if !HasUnion(o) || !o[UnionKey(o)].Arr? {
      return None;
    }
    var cleaned := CleanEach(o[UnionKey(o)].items, c, stack);
    var kept := NonNull(cleaned);
    if |kept| == 1 {
      var chosen := PreserveMetaOn(o, kept[0]);
      return Some(chosen);
    }
    var flattened := TryFlattenLiteralUnion(kept);
    if flattened.Some? {
      var chosen := PreserveMetaOn(o, flattened.value);
      return Some(chosen);
    }
    return None;
  }

  // The loop collects literals and the common type, and gives up at the first
  // variant that is not a typed literal or disagrees on the type.
  method TryFlattenLiteralUnion(variants: seq<Json>) returns (flattened: Option<Json>)
    ensures flattened == if FlattensToEnum(variants) then Some(EnumOf(variants)) else None
  {
    if variants == [] {
      return None;
    }
    var allValues: seq<Json> := [];
    var commonType: Option<string> := None;
    for i := 0 to |variants|
      invariant |allValues| == i
      invariant forall k | 0 <= k < i :: IsLiteral(variants[k]) && allValues[k] == LiteralOf(variants[k]).value
      invariant forall k | 0 <= k < i :: TypeName(variants[k]) == TypeName(variants[0])
      invariant commonType == if i == 0 then None else Some(TypeName(variants[0]))
    {
      var literal := LiteralOf(variants[i]);
      if literal.None? || !HasString(variants[i].fields, "type") {
        return None;
      }
      var variantType := variants[i].fields["type"].s;
      if commonType.Some? && commonType.value != variantType {
        return None;
      }
      commonType := Some(variantType);
      allValues := allValues + [literal.value];
    }
    flattened := Some(Obj(map["type" := Str(commonType.value), "enum" := Arr(allValues)]));
    assert allValues == EnumOf(variants).fields["enum"].items;
  }

  // The metadata of the first `count` keys.
  ghost function MetaUpTo(source: Fields, count: nat): Fields
    requires count <= |META_KEYS|
  {
    if count == 0 then map[]
    else
      var key := META_KEYS[count - 1];
      MetaUpTo(source, count - 1) + (if key in source then map[key := source[key]] else map[])
  }

  lemma MetaUpToIsMeta(source: Fields)
    ensures MetaUpTo(source, |META_KEYS|) == Meta(source)
  {
    assert MetaUpTo(source, 0) == map[];
    assert MetaUpTo(source, 1) == if "description" in source then map["description" := source["description"]] else map[];
    var two := MetaUpTo(source, 2);
    forall k | k in META_KEYS
      ensures k == "description" || k == "title" || k == "default"
    {
    }
  }

  lemma MetaStep(target: Fields, source: Fields, i: nat)
    requires i < |META_KEYS|
    ensures var key := META_KEYS[i];
            var before := target + MetaUpTo(source, i);
            target + MetaUpTo(source, i + 1) == if key in source then before[key := source[key]] else before
  {
  }

  // The loop over the three metadata keys that edits its target.
  method PreserveMetaOn(source: Fields, target: Json) returns (result: Json)
    ensures result == PreserveMeta(source, target)
  {
    if !target.Obj? {
      return target;
    }
    var fields := target.fields;
    for i := 0 to |META_KEYS|
      invariant fields == target.fields + MetaUpTo(source, i)
    {
      var key := META_KEYS[i];
      MetaStep(target.fields, source, i);
      if key in source {
        fields := fields[key := source[key]];
      }
    }
    MetaUpToIsMeta(source);
    result := Obj(fields);
  }
}
