// Cleaning only weakens: what was valid before and contains no null is valid after.
module SchemaWeakening {
  import opened Json
  import opened SchemaCleaning
  import opened SchemaNormalForm
  import opened SchemaIdempotence
  import opened SchemaValidity
  import opened SchemaSteps
  import opened SchemaExactness

  // A `oneOf` that stays where it is.
  predicate LeftoverOneOf(k: string, o: Fields, c: Context, stack: set<string>) {
    k == "oneOf" && HasArray(o, k) && SimplifyUnion(o, c, stack).None?
  }

  // What the result needs of each node the cleaner visits: references resolve
  // to their targets, a `oneOf` stays behind only if its variants lose nothing,
  // a pass leaves kept keywords outside the vocabulary (and `enum`) alone and they
  // do not depend on their surroundings, and `type` and `$ref` are not objects.  With
  // `full`, references never run out of fuel, as a leftover `oneOf` needs.
  ghost predicate Positive(root: Json, j: Json, c: Context, stack: set<string>, full: bool)
    decreases Open(j, c, stack), j, 4
  {
    match j
    case Obj(o) => PositiveObject(Scope(root, o), o, c, stack, full)
    case _ => true
  }

  // Local references of the object start at the resource `root`.
  ghost predicate PositiveObject(root: Json, o: Fields, c: Context, stack: set<string>, full: bool)
    decreases Open(Obj(o), c, stack), Obj(o), 3
  {
    if HasString(o, "$ref") then
      var ref := o["$ref"].s;
      ref !in stack && Resolves(ref, c.defs) ==>
        Faithful(root, ref, c) && Positive(root, Definition(ref, c.defs), c, stack + {ref}, full)
    else
      && (forall k | k in o && Kept(k, o, c.strategy) && !LeftoverOneOf(k, o, c, stack) ::
            PositiveMember(root, k, o[k], c, stack, full))
      && (LeftoverOneOf("oneOf", o, c, stack) ==>
            full && forall i | 0 <= i < |o["oneOf"].items| :: Lossless(root, o["oneOf"].items[i], c, stack))
  }

  ghost predicate PositiveMember(root: Json, k: string, v: Json, c: Context, stack: set<string>, full: bool)
    decreases Open(v, c, stack), v, 5
  {
    if k == "type" || k == "$ref" then !v.Obj?
    else if k in ANNOTATIONS then true
    else if k == "properties" then v.Obj? ==> forall p | p in v.fields :: Positive(root, v.fields[p], c, stack, full)
    else if IsUnionKey(k) then v.Arr? ==> forall i | 0 <= i < |v.items| :: Positive(root, v.items[i], c, stack, full)
    else if k == "items" || k == "additionalProperties" then Positive(root, v, c, stack, full)
    else Foreign(k, v, c.strategy)
  }

  // ---------------------------------------------------------------- main proof

  lemma {:induction false} CleanWeakens(w: Reader, j: Json, c: Context, stack: set<string>, budget: set<string>, full: bool, x: Json)
    requires Positive(w.root, j, c, stack, full) && NullFree(x)
    requires Open(j, c, stack) <= budget && w.Fuelled(budget, full)
    requires w.Before(j, x)
    ensures w.After(Clean(j, c, stack), x)
    decreases budget, j, 4
  {
    match j
    case Obj(o) =>
      if HasString(o, "$ref") {
        RefWeakens(w.In(o), o, c, stack, budget, full, x);
      } else if SimplifyUnion(o, c, stack).Some? {
        UnionWeakens(w.In(o), o, c, stack, budget, full, x);
      } else {
        FieldsWeaken(w.In(o), o, c, stack, budget, full, x);
      }
    case _ =>
  }

  lemma {:induction false} RefWeakens(w: Reader, o: Fields, c: Context, stack: set<string>, budget: set<string>, full: bool, x: Json)
    requires HasString(o, "$ref")
    requires PositiveObject(w.root, o, c, stack, full) && NullFree(x)
    requires Open(Obj(o), c, stack) <= budget && w.Fuelled(budget, full)
    requires w.MeetsBefore(o, x)
    ensures w.After(Clean(Obj(o), c, stack), x)
    decreases budget, Obj(o), 3
  {
    var ref := o["$ref"].s;
    assert Clean(Obj(o), c, stack) == ResolveRef(o, c, stack);
    if ref !in stack && Resolves(ref, c.defs) {
      var d := Definition(ref, c.defs);
      FollowReference(w, o, c, stack, budget, full, x);
      CleanWeakens(w.Deeper(), d, c, stack + {ref}, budget - {ref}, full, x);
      MetaIsAnnotation(w, o, Clean(d, c, stack + {ref}), x);
    } else {
      MetaIsAnnotation(w, o, Obj(map[]), x);
    }
  }

  // The instance is valid under the definition with one unit of fuel less, and
  // the reference leaves the budget.
  lemma FollowReference(w: Reader, o: Fields, c: Context, stack: set<string>, budget: set<string>, full: bool, x: Json)
    requires HasString(o, "$ref") && o["$ref"].s !in stack && Resolves(o["$ref"].s, c.defs)
    requires PositiveObject(w.root, o, c, stack, full)
    requires Open(Obj(o), c, stack) <= budget && w.Fuelled(budget, full)
    requires w.MeetsBefore(o, x)
    ensures var ref := o["$ref"].s;
            var d := Definition(ref, c.defs);
            && ref in budget
            && w.n > 0
            && w.Deeper().Before(d, x)
            && w.Deeper().Fuelled(budget - {ref}, full)
            && Positive(w.root, d, c, stack + {ref}, full)
            && Open(d, c, stack + {ref}) <= budget - {ref}
  {
    var ref := o["$ref"].s;
    assert ref in Refs(Obj(o));
    assert RefHolds(w.rd, w.root, w.n, o, x);
  }

  lemma {:induction false} UnionWeakens(w: Reader, o: Fields, c: Context, stack: set<string>, budget: set<string>, full: bool, x: Json)
    requires !HasString(o, "$ref") && SimplifyUnion(o, c, stack).Some?
    requires PositiveObject(w.root, o, c, stack, full) && NullFree(x)
    requires Open(Obj(o), c, stack) <= budget && w.Fuelled(budget, full)
    requires w.MeetsBefore(o, x)
    ensures w.After(Clean(Obj(o), c, stack), x)
    decreases budget, Obj(o), 3
  {
    var variants := o[UnionKey(o)].items;
    var i := ValidVariant(w, o, c, stack, full, x);
    CleanWeakens(w, variants[i], c, stack, budget, full, x);
    DecisionAccepts(w, CleanAll(variants, c, stack), i, x);
    MetaIsAnnotation(w, o, UnionDecision(CleanAll(variants, c, stack)).value, x);
  }

  // One of the variants accepts the instance, and everything said about the
  // union holds of it.
  lemma ValidVariant(w: Reader, o: Fields, c: Context, stack: set<string>, full: bool, x: Json) returns (i: nat)
    requires !HasString(o, "$ref") && SimplifyUnion(o, c, stack).Some?
    requires PositiveObject(w.root, o, c, stack, full) && w.MeetsBefore(o, x)
    ensures i < |o[UnionKey(o)].items|
    ensures var v := o[UnionKey(o)].items[i];
            w.Before(v, x) && Positive(w.root, v, c, stack, full) && Open(v, c, stack) <= Open(Obj(o), c, stack) && v < Obj(o)
  {
    var key := UnionKey(o);
    KeptMemberFits(w, o, key, c, stack, full, x);
    i := VariantOf(w, o, key, c, stack, full, x);
  }

  lemma VariantOf(w: Reader, o: Fields, key: string, c: Context, stack: set<string>, full: bool, x: Json) returns (i: nat)
    requires (key == "anyOf" || key == "oneOf") && key in o && o[key].Arr?
    requires Holds(w.rd, w.root, w.n, o, key, x) && PositiveMember(w.root, key, o[key], c, stack, full)
    ensures i < |o[key].items|
    ensures var v := o[key].items[i];
            w.Before(v, x) && Positive(w.root, v, c, stack, full) && Open(v, c, stack) <= Open(o[key], c, stack) && v < Obj(o)
  {
    var variants := o[key].items;
    i :| i < |variants| && w.Before(variants[i], x);
    assert variants[i] < o[key];
  }

  lemma {:induction false} FieldsWeaken(w: Reader, o: Fields, c: Context, stack: set<string>, budget: set<string>, full: bool, x: Json)
    requires !HasString(o, "$ref") && SimplifyUnion(o, c, stack).None?
    requires PositiveObject(w.root, o, c, stack, full) && NullFree(x)
    requires Open(Obj(o), c, stack) <= budget && w.Fuelled(budget, full)
    requires w.MeetsBefore(o, x)
    ensures w.After(Clean(Obj(o), c, stack), x)
    decreases budget, Obj(o), 3, 1
  {
    var r := CleanFields(o, c, stack);
    assert Clean(Obj(o), c, stack) == Obj(r);
    FieldsMeet(w.Out(r), o, c, stack, budget, full, x);
  }

  // The rebuilt object, read in any resource.
  lemma {:induction false} FieldsMeet(w: Reader, o: Fields, c: Context, stack: set<string>, budget: set<string>, full: bool, x: Json)
    requires !HasString(o, "$ref") && SimplifyUnion(o, c, stack).None?
    requires PositiveObject(w.root, o, c, stack, full) && NullFree(x)
    requires Open(Obj(o), c, stack) <= budget && w.Fuelled(budget, full)
    requires w.MeetsBefore(o, x)
    ensures w.MeetsAfter(CleanFields(o, c, stack), x)
    decreases budget, Obj(o), 3, 0
  {
    var r := CleanFields(o, c, stack);
    forall k | k in r
      ensures MemberStaysValid(w, r, k, x)
    {
      OutputMemberWeakens(w, o, k, c, stack, budget, full, x);
    }
  }

  lemma {:induction false} OutputMemberWeakens(w: Reader, o: Fields, k: string, c: Context, stack: set<string>, budget: set<string>, full: bool, x: Json)
    requires !HasString(o, "$ref") && k in OutKeys(o, c.strategy) && SimplifyUnion(o, c, stack).None?
    requires PositiveObject(w.root, o, c, stack, full) && NullFree(x)
    requires Open(Obj(o), c, stack) <= budget && w.Fuelled(budget, full)
    requires w.MeetsBefore(o, x)
    ensures MemberStaysValid(w, CleanFields(o, c, stack), k, x)
    decreases budget, Obj(o), 2
  {
    if k == "enum" && "enum" !in o {
      assert Holds(w.rd, w.root, w.n, o, "const", x);
      RenamedConstAccepts(w, o, c, stack, x);
    } else if LeftoverOneOf(k, o, c, stack) {
      LeftoverIsLossless(w, o, c, stack, full, x);
      LeftoverOneOfStays(w, o, c, stack, budget, x);
    } else {
      KeptMemberFits(w, o, k, c, stack, full, x);
      PositiveSiblings(w.root, o, c, stack, full);
      MemberWeakens(w, o, k, c, stack, budget, full, x);
    }
  }

  lemma PositiveSiblings(root: Json, o: Fields, c: Context, stack: set<string>, full: bool)
    requires !HasString(o, "$ref") && PositiveObject(root, o, c, stack, full)
    ensures StableSiblings(o, c.strategy)
  {
    forall k | k in o && k in SIBLINGS && Kept(k, o, c.strategy)
      ensures Stable(o[k], c.strategy)
    {
      SiblingIsForeign(k);
      assert PositiveMember(root, k, o[k], c, stack, full);
    }
  }

  lemma LeftoverIsLossless(w: Reader, o: Fields, c: Context, stack: set<string>, full: bool, x: Json)
    requires !HasString(o, "$ref") && LeftoverOneOf("oneOf", o, c, stack) && Kept("oneOf", o, c.strategy)
    requires PositiveObject(w.root, o, c, stack, full) && w.MeetsBefore(o, x)
    ensures full && Holds(w.rd, w.root, w.n, o, "oneOf", x) && Open(o["oneOf"], c, stack) <= Open(Obj(o), c, stack)
    ensures forall i | 0 <= i < |o["oneOf"].items| :: Lossless(w.root, o["oneOf"].items[i], c, stack)
  {
  }

  // Exactly one lossless variant accepts before, so exactly one does after.
  lemma LeftoverOneOfStays(w: Reader, o: Fields, c: Context, stack: set<string>, budget: set<string>, x: Json)
    requires LeftoverOneOf("oneOf", o, c, stack) && Kept("oneOf", o, c.strategy) && NullFree(x)
    requires forall i | 0 <= i < |o["oneOf"].items| :: Lossless(w.root, o["oneOf"].items[i], c, stack)
    requires Open(o["oneOf"], c, stack) <= budget && |budget| <= w.n && Holds(w.rd, w.root, w.n, o, "oneOf", x)
    ensures var r := CleanFields(o, c, stack); "oneOf" in r && Holds(w.rd, w.root', w.n', r, "oneOf", x)
  {
    var r := CleanFields(o, c, stack);
    assert r["oneOf"] == CleanField("oneOf", o["oneOf"], c, stack) == Arr(CleanAll(o["oneOf"].items, c, stack));
    VariantsAreExact(w, o["oneOf"], c, stack, budget, x);
    SameVerdicts(w, o, r, "oneOf", x);
  }

  // In general, a leftover `oneOf` one of whose variants accepted an instance
  // holds of it after cleaning exactly when no other cleaned variant accepts it.
  lemma LeftoverOneOfIff(w: Reader, o: Fields, c: Context, stack: set<string>, budget: set<string>, full: bool, i: nat, x: Json)
    requires LeftoverOneOf("oneOf", o, c, stack) && Kept("oneOf", o, c.strategy) && i < |o["oneOf"].items|
    requires Positive(w.root, o["oneOf"].items[i], c, stack, full) && NullFree(x)
    requires Open(o["oneOf"], c, stack) <= budget && w.Fuelled(budget, full) && w.Before(o["oneOf"].items[i], x)
    ensures var r := CleanFields(o, c, stack);
            && "oneOf" in r && r["oneOf"] == Arr(CleanAll(o["oneOf"].items, c, stack))
            && (Holds(w.rd, w.root', w.n', r, "oneOf", x) <==>
                forall k | 0 <= k < |r["oneOf"].items| && k != i :: !w.After(r["oneOf"].items[k], x))
  {
    var r := CleanFields(o, c, stack);
    assert r["oneOf"] == CleanField("oneOf", o["oneOf"], c, stack) == Arr(CleanAll(o["oneOf"].items, c, stack));
    CleanWeakens(w, o["oneOf"].items[i], c, stack, budget, full, x);
    OnlyOneAccepts(w, r, i, x);
  }

  lemma OnlyOneAccepts(w: Reader, r: Fields, i: nat, x: Json)
    requires HasArray(r, "oneOf") && i < |r["oneOf"].items| && w.After(r["oneOf"].items[i], x)
    ensures Holds(w.rd, w.root', w.n', r, "oneOf", x) <==>
            forall k | 0 <= k < |r["oneOf"].items| && k != i :: !w.After(r["oneOf"].items[k], x)
  {
    var cleaned := r["oneOf"].items;
    if Holds(w.rd, w.root', w.n', r, "oneOf", x) {
      var j := OnlyAccepting(w, r, x);
      assert i == j;
    }
    if forall k | 0 <= k < |cleaned| && k != i :: !w.After(cleaned[k], x) {
      OneOfHolds(w, r, i, x);
    }
  }

  lemma OnlyAccepting(w: Reader, r: Fields, x: Json) returns (j: nat)
    requires HasArray(r, "oneOf") && Holds(w.rd, w.root', w.n', r, "oneOf", x)
    ensures j < |r["oneOf"].items| && w.After(r["oneOf"].items[j], x)
    ensures forall k | 0 <= k < |r["oneOf"].items| && k != j :: !w.After(r["oneOf"].items[k], x)
  {
    var cleaned := r["oneOf"].items;
    j :| j < |cleaned| && Valid(w.rd, w.root', w.n', cleaned[j], x) &&
      forall k | 0 <= k < |cleaned| && k != j :: !Valid(w.rd, w.root', w.n', cleaned[k], x);
  }

  lemma OneOfHolds(w: Reader, r: Fields, j: nat, x: Json)
    requires HasArray(r, "oneOf") && j < |r["oneOf"].items| && w.After(r["oneOf"].items[j], x)
    requires forall k | 0 <= k < |r["oneOf"].items| && k != j :: !w.After(r["oneOf"].items[k], x)
    ensures Holds(w.rd, w.root', w.n', r, "oneOf", x)
  {
    var cleaned := r["oneOf"].items;
    forall k | 0 <= k < |cleaned| && k != j
      ensures !Valid(w.rd, w.root', w.n', cleaned[k], x)
    {
      assert !w.After(cleaned[k], x);
    }
    assert Valid(w.rd, w.root', w.n', cleaned[j], x);
  }

  lemma KeptMemberFits(w: Reader, o: Fields, k: string, c: Context, stack: set<string>, full: bool, x: Json)
    requires !HasString(o, "$ref") && k in OutKeys(o, c.strategy) && (k == "enum" ==> "enum" in o)
    requires !LeftoverOneOf(k, o, c, stack)
    requires PositiveObject(w.root, o, c, stack, full) && w.MeetsBefore(o, x)
    ensures Kept(k, o, c.strategy) && PositiveMember(w.root, k, o[k], c, stack, full)
    ensures Holds(w.rd, w.root, w.n, o, k, x)
    ensures Open(o[k], c, stack) <= Open(Obj(o), c, stack)
  {
  }

  // The member is in the cleaned object and says no more than before.
  ghost predicate MemberStaysValid(w: Reader, r: Fields, k: string, x: Json) {
    k in r && Holds(w.rd, w.root', w.n', r, k, x) && (k == "$ref" ==> !r[k].Str?)
  }

  predicate HoldsSchemas(k: string) {
    k == "properties" || IsUnionKey(k) || k == "items" || k == "additionalProperties"
  }

  lemma {:induction false} MemberWeakens(w: Reader, o: Fields, k: string, c: Context, stack: set<string>, budget: set<string>, full: bool, x: Json)
    requires !HasString(o, "$ref") && k in o && Kept(k, o, c.strategy) && !(k == "oneOf" && o[k].Arr?)
    requires StableSiblings(o, c.strategy)
    requires PositiveMember(w.root, k, o[k], c, stack, full) && NullFree(x)
    requires Open(o[k], c, stack) <= budget && w.Fuelled(budget, full)
    requires Holds(w.rd, w.root, w.n, o, k, x)
    ensures MemberStaysValid(w, CleanFields(o, c, stack), k, x)
    decreases budget, o[k], 6
  {
    if !HoldsSchemas(k) {
      LeafStaysValid(w, o, k, c, stack, full, x);
    } else if k == "properties" {
      if o[k].Obj? && x.Obj? {
        PropertiesWeaken(w, o[k], c, stack, budget, full, x);
      }
      PropertiesStayValid(w, o, c, stack, x);
    } else if IsUnionKey(k) {
      if o[k].Arr? {
        VariantsWeaken(w, o[k], c, stack, budget, full, x);
      }
      UnionStaysValid(w, o, k, c, stack, x);
    } else {
      SubschemaIsPositive(w.root, k, o[k], c, stack, full);
      PartsWeaken(w, o[k], c, stack, budget, full);
      PartsStayValid(w, o, k, c, stack, x);
    }
  }

  lemma SubschemaIsPositive(root: Json, k: string, v: Json, c: Context, stack: set<string>, full: bool)
    requires (k == "items" || k == "additionalProperties") && PositiveMember(root, k, v, c, stack, full)
    ensures Positive(root, v, c, stack, full)
  {
  }

  lemma FieldAt(o: Fields, k: string, c: Context, stack: set<string>)
    requires Kept(k, o, c.strategy)
    ensures k in CleanFields(o, c, stack) && CleanFields(o, c, stack)[k] == CleanField(k, o[k], c, stack)
  {
  }

  lemma {:induction false} PropertiesWeaken(w: Reader, v: Json, c: Context, stack: set<string>, budget: set<string>, full: bool, x: Json)
    requires v.Obj? && x.Obj? && NullFree(x) && forall p | p in v.fields :: Positive(w.root, v.fields[p], c, stack, full)
    requires Open(v, c, stack) <= budget && w.Fuelled(budget, full)
    ensures forall p | p in v.fields && p in x.fields && w.Before(v.fields[p], x.fields[p]) ::
              w.After(CleanProperties(v.fields, c, stack)[p], x.fields[p])
    decreases budget, v, 5
  {
    forall p | p in v.fields && p in x.fields && w.Before(v.fields[p], x.fields[p])
      ensures w.After(CleanProperties(v.fields, c, stack)[p], x.fields[p])
    {
      CleanWeakens(w, v.fields[p], c, stack, budget, full, x.fields[p]);
    }
  }

  lemma {:induction false} VariantsWeaken(w: Reader, v: Json, c: Context, stack: set<string>, budget: set<string>, full: bool, x: Json)
    requires v.Arr? && (forall i | 0 <= i < |v.items| :: Positive(w.root, v.items[i], c, stack, full)) && NullFree(x)
    requires Open(v, c, stack) <= budget && w.Fuelled(budget, full)
    ensures forall i | 0 <= i < |v.items| && w.Before(v.items[i], x) :: w.After(CleanAll(v.items, c, stack)[i], x)
    decreases budget, v, 5
  {
    forall i | 0 <= i < |v.items| && w.Before(v.items[i], x)
      ensures w.After(CleanAll(v.items, c, stack)[i], x)
    {
      CleanWeakens(w, v.items[i], c, stack, budget, full, x);
    }
  }

  lemma PropertiesStayValid(w: Reader, o: Fields, c: Context, stack: set<string>, x: Json)
    requires Kept("properties", o, c.strategy) && Holds(w.rd, w.root, w.n, o, "properties", x)
    requires var v := o["properties"];
             v.Obj? && x.Obj? ==> forall p | p in v.fields && p in x.fields && w.Before(v.fields[p], x.fields[p]) ::
               w.After(CleanProperties(v.fields, c, stack)[p], x.fields[p])
    ensures MemberStaysValid(w, CleanFields(o, c, stack), "properties", x)
  {
    FieldAt(o, "properties", c, stack);
    var (v, r) := (o["properties"], CleanFields(o, c, stack));
    if v.Obj? && x.Obj? {
      forall p | p in r["properties"].fields && p in x.fields
        ensures w.After(r["properties"].fields[p], x.fields[p])
      {
        assert w.Before(v.fields[p], x.fields[p]);
      }
    }
  }

  lemma UnionStaysValid(w: Reader, o: Fields, k: string, c: Context, stack: set<string>, x: Json)
    requires IsUnionKey(k) && Kept(k, o, c.strategy) && !(k == "oneOf" && o[k].Arr?)
    requires o[k].Arr? ==> forall i | 0 <= i < |o[k].items| && w.Before(o[k].items[i], x) ::
               w.After(CleanAll(o[k].items, c, stack)[i], x)
    requires Holds(w.rd, w.root, w.n, o, k, x)
    ensures MemberStaysValid(w, CleanFields(o, c, stack), k, x)
  {
    FieldAt(o, k, c, stack);
    var r := CleanFields(o, c, stack);
    if !o[k].Arr? {
    } else if k == "anyOf" {
      var i :| 0 <= i < |o[k].items| && w.Before(o[k].items[i], x);
      assert w.After(r[k].items[i], x);
    } else {
      forall i | 0 <= i < |o[k].items|
        ensures w.After(r[k].items[i], x)
      {
        assert w.Before(o[k].items[i], x);
      }
    }
  }

  // Members that hold no schema the vocabulary knows.
  lemma LeafStaysValid(w: Reader, o: Fields, k: string, c: Context, stack: set<string>, full: bool, x: Json)
    requires !HasString(o, "$ref") && Kept(k, o, c.strategy) && !HoldsSchemas(k) && StableSiblings(o, c.strategy)
    requires PositiveMember(w.root, k, o[k], c, stack, full) && x != Null
    requires Holds(w.rd, w.root, w.n, o, k, x)
    ensures MemberStaysValid(w, CleanFields(o, c, stack), k, x)
  {
    FieldAt(o, k, c, stack);
    if k == "type" {
      TypeStaysValid(w, o, CleanFields(o, c, stack), c, stack, x);
    } else if k == "$ref" {
      CleanKeepsNonString(o[k], c, stack);
    } else if k !in ANNOTATIONS {
      SiblingsStay(w.rd, o, c, stack);
      StableIsFixed(o[k], c, stack);
    }
  }

  lemma TypeStaysValid(w: Reader, o: Fields, r: Fields, c: Context, stack: set<string>, x: Json)
    requires "type" in o && "type" in r && r["type"] == CleanField("type", o["type"], c, stack) && !o["type"].Obj? && x != Null
    requires Holds(w.rd, w.root, w.n, o, "type", x)
    ensures Holds(w.rd, w.root', w.n', r, "type", x)
  {
    var v := o["type"];
    assert TypeAllows(v, x);
    if v.Arr? {
      TypeArrayAccepts(v.items, x);
    } else {
      assert Clean(v, c, stack) == v;
    }
  }

  ghost predicate Carries(w: Reader, before: Json, after: Json) {
    forall x | NullFree(x) && w.Before(before, x) :: w.After(after, x)
  }

  // One schema, applied to several parts of the instance.
  lemma {:induction false} PartsWeaken(w: Reader, v: Json, c: Context, stack: set<string>, budget: set<string>, full: bool)
    requires Positive(w.root, v, c, stack, full) && Open(v, c, stack) <= budget && w.Fuelled(budget, full)
    ensures Carries(w, v, Clean(v, c, stack))
    decreases budget, v, 5
  {
    forall x | NullFree(x) && w.Before(v, x)
      ensures w.After(Clean(v, c, stack), x)
    {
      CleanWeakens(w, v, c, stack, budget, full, x);
    }
  }

  lemma PartsStayValid(w: Reader, o: Fields, k: string, c: Context, stack: set<string>, x: Json)
    requires (k == "items" || k == "additionalProperties") && Kept(k, o, c.strategy) && StableSiblings(o, c.strategy)
    requires NullFree(x) && Carries(w, o[k], Clean(o[k], c, stack))
    requires Holds(w.rd, w.root, w.n, o, k, x)
    ensures MemberStaysValid(w, CleanFields(o, c, stack), k, x)
  {
    FieldAt(o, k, c, stack);
    SiblingsStay(w.rd, o, c, stack);
    SamePartsStayValid(w, o, CleanFields(o, c, stack), k, x);
  }

  lemma SamePartsStayValid(w: Reader, o: Fields, r: Fields, k: string, x: Json)
    requires (k == "items" || k == "additionalProperties") && k in o && k in r
    requires NullFree(x) && Carries(w, o[k], r[k])
    requires PrefixLength(r) == PrefixLength(o)
    requires k == "additionalProperties" ==> forall p :: Covered(w.rd, r, p) <==> Covered(w.rd, o, p)
    requires Holds(w.rd, w.root, w.n, o, k, x)
    ensures Holds(w.rd, w.root', w.n', r, k, x)
  {
    if k == "items" && x.Arr? {
      forall i | PrefixLength(o) <= i < |x.items|
        ensures w.After(r[k], x.items[i])
      {
        assert w.Before(o[k], x.items[i]);
      }
    } else if k == "additionalProperties" && x.Obj? {
      forall p | p in x.fields && !Covered(w.rd, o, p)
        ensures w.After(r[k], x.fields[p])
      {
        assert w.Before(o[k], x.fields[p]);
      }
    }
  }

  // Main result, for a whole document under any strategy.
  lemma CleanSchemaWeakens(w: Reader, strategy: Strategy, full: bool, x: Json)
    requires var c := RootContext(w.root, strategy);
             Positive(w.root, w.root, c, {}, full) && w.Fuelled(Open(w.root, c, {}), full)
    requires NullFree(x) && w.Before(w.root, x)
    ensures w.After(CleanSchema(w.root, strategy), x)
  {
    var c := RootContext(w.root, strategy);
    CleanWeakens(w, w.root, c, {}, Open(w.root, c, {}), full, x);
  }
}
