// `unevaluatedProperties: false` reads what its neighbours evaluate, so dropping
// a neighbour can make the schema stricter.  Exactly when it does, for schema
// objects whose evaluated properties come from the three property keywords.
module SchemaUnevaluated {
  import opened Json
  import opened SchemaCleaning
  import opened SchemaValidity
  import opened SchemaSteps
  import opened SchemaWeakening

  const UNEVALUATED := "unevaluatedProperties"

  // Keywords through which evaluated properties also come from elsewhere.
  const APPLICATORS: set<string> := {
    "$ref", "$dynamicRef", "$recursiveRef", "anyOf", "oneOf", "allOf", "if", "then", "else", "dependentSchemas"
  }

  predicate Flat(o: Fields) {
    UNEVALUATED in o && o[UNEVALUATED] == Bool(false) && o.Keys !! APPLICATORS
  }

  // Core 11.3: every property is spoken about by a neighbour.
  predicate AllEvaluated(rd: Reading, o: Fields, x: Json) {
    x.Obj? && "additionalProperties" !in o ==> forall p | p in x.fields :: Covered(rd, o, p)
  }

  ghost predicate ReadsUnevaluated(rd: Reading) {
    forall root, o: Fields, x | Flat(o) :: rd.whole(UNEVALUATED, root, Speaking(o), x) <==> AllEvaluated(rd, o, x)
  }

  // There is such a reading, for every reading of patterns.
  lemma ReadingExists(base: Reading) returns (rd: Reading)
    ensures ReadsUnevaluated(rd) && rd == base.(whole := rd.whole)
  {
    rd := base.(whole := (k, root, o, x) => AllEvaluated(base, o, x));
    forall root, o: Fields, x | Flat(o)
      ensures rd.whole(UNEVALUATED, root, Speaking(o), x) <==> AllEvaluated(rd, o, x)
    {
      SpeakingKeepsCoverage(base, rd, o, x);
    }
  }

  lemma SpeakingKeepsCoverage(base: Reading, rd: Reading, o: Fields, x: Json)
    requires rd.patterned == base.patterned
    ensures AllEvaluated(base, Speaking(o), x) <==> AllEvaluated(rd, o, x)
  {
    if x.Obj? {
      assert forall p | p in x.fields :: Covered(base, Speaking(o), p) == Covered(rd, o, p);
    }
  }

  predicate OwnKeywords(b: Fields) {
    b.Keys !! SURROUNDED && "$ref" !in b
  }

  function With(b: Fields): Fields {
    b[UNEVALUATED := Bool(false)]
  }

  lemma UnevaluatedIsSurrounded()
    ensures UNEVALUATED in SURROUNDED && UNEVALUATED !in ANNOTATIONS && UNEVALUATED !in COMPANIONS
    ensures UNEVALUATED != "type" && UNEVALUATED != "enum" && UNEVALUATED != "const" && UNEVALUATED != "items"
    ensures UNEVALUATED != "allOf" && UNEVALUATED != "anyOf" && UNEVALUATED != "oneOf"
    ensures UNEVALUATED != "properties" && UNEVALUATED != "additionalProperties"
  {
  }

  lemma HoldsWhenAllEvaluated(rd: Reading, root: Json, n: nat, o: Fields, x: Json)
    requires Flat(o) && ReadsUnevaluated(rd)
    ensures Holds(rd, root, n, o, UNEVALUATED, x) <==> AllEvaluated(rd, o, x)
  {
    UnevaluatedIsSurrounded();
    assert rd.whole(UNEVALUATED, root, Speaking(o), x) <==> AllEvaluated(rd, o, x);
  }

  // The keyword adds exactly its own condition.
  lemma AddsItsCondition(rd: Reading, root: Json, n: nat, b: Fields, x: Json)
    requires OwnKeywords(b) && Flat(With(b)) && ReadsUnevaluated(rd)
    ensures Meets(rd, root, n, With(b), x) <==> Meets(rd, root, n, b, x) && AllEvaluated(rd, With(b), x)
  {
    HoldsWhenAllEvaluated(rd, root, n, With(b), x);
    SameNeighbours(rd, b);
    forall k | k in b
      ensures Holds(rd, root, n, With(b), k, x) <==> Holds(rd, root, n, b, k, x)
    {
      UnevaluatedIsSurrounded();
      SameMeaning(rd, root, n, With(b), b, k, x);
    }
    OneMore(rd, root, n, b, x);
  }

  ghost predicate AllHold(rd: Reading, root: Json, n: nat, o: Fields, keys: set<string>, x: Json)
    requires keys <= o.Keys
  {
    forall k | k in keys :: Holds(rd, root, n, o, k, x)
  }

  lemma AllAreMet(rd: Reading, root: Json, n: nat, o: Fields, x: Json)
    requires "$ref" !in o
    ensures Meets(rd, root, n, o, x) <==> AllHold(rd, root, n, o, o.Keys, x)
  {
  }

  lemma OneMore(rd: Reading, root: Json, n: nat, b: Fields, x: Json)
    requires OwnKeywords(b)
    requires forall k | k in b :: Holds(rd, root, n, With(b), k, x) <==> Holds(rd, root, n, b, k, x)
    ensures Meets(rd, root, n, With(b), x) <==>
            Meets(rd, root, n, b, x) && Holds(rd, root, n, With(b), UNEVALUATED, x)
  {
    AllAreMet(rd, root, n, b, x);
    AllAreMet(rd, root, n, With(b), x);
    assert With(b).Keys == b.Keys + {UNEVALUATED};
    SplitOff(rd, root, n, With(b), b.Keys, UNEVALUATED, x);
    SameOnKeys(rd, root, n, With(b), b, b.Keys, x);
  }

  lemma SplitOff(rd: Reading, root: Json, n: nat, o: Fields, keys: set<string>, k: string, x: Json)
    requires o.Keys == keys + {k}
    ensures AllHold(rd, root, n, o, o.Keys, x) <==> AllHold(rd, root, n, o, keys, x) && Holds(rd, root, n, o, k, x)
  {
  }

  lemma SameOnKeys(rd: Reading, root: Json, n: nat, o: Fields, b: Fields, keys: set<string>, x: Json)
    requires keys <= o.Keys && keys <= b.Keys
    requires forall k | k in keys :: Holds(rd, root, n, o, k, x) <==> Holds(rd, root, n, b, k, x)
    ensures AllHold(rd, root, n, o, keys, x) <==> AllHold(rd, root, n, b, keys, x)
  {
  }

  lemma SameNeighbours(rd: Reading, b: Fields)
    ensures Companions(With(b)) == Companions(b) && PrefixLength(With(b)) == PrefixLength(b)
    ensures forall p :: Covered(rd, With(b), p) <==> Covered(rd, b, p)
  {
    UnevaluatedIsSurrounded();
    SameCompanions(b, With(b));
    assert PropertyNames(With(b)) == PropertyNames(b);
  }

  // A keyword means the same next to the same neighbours.
  lemma SameMeaning(rd: Reading, root: Json, n: nat, o: Fields, b: Fields, k: string, x: Json)
    requires k in o && k in b && o[k] == b[k] && k !in SURROUNDED
    requires Companions(o) == Companions(b) && PrefixLength(o) == PrefixLength(b)
    requires forall p :: Covered(rd, o, p) <==> Covered(rd, b, p)
    ensures Holds(rd, root, n, o, k, x) <==> Holds(rd, root, n, b, k, x)
  {
    if k == "additionalProperties" && x.Obj? {
      assert forall p | p in x.fields :: Covered(rd, o, p) <==> Covered(rd, b, p);
    }
  }

  lemma UnevaluatedIsKept(o: Fields, strategy: Strategy)
    requires UNEVALUATED in o
    ensures Kept(UNEVALUATED, o, strategy)
  {
  }

  lemma NoUnion(o: Fields)
    requires o.Keys !! APPLICATORS
    ensures !HasString(o, "$ref") && !HasUnion(o)
  {
    assert "anyOf" in APPLICATORS && "oneOf" in APPLICATORS && "$ref" in APPLICATORS;
  }

  lemma OneMoreKey(b: Fields, c: Context)
    requires b.Keys !! SURROUNDED && !HasUnion(b)
    ensures OutKeys(With(b), c.strategy) == OutKeys(b, c.strategy) + {UNEVALUATED}
  {
    UnevaluatedIsKept(With(b), c.strategy);
    UnevaluatedIsSurrounded();
    forall k
      ensures Kept(k, With(b), c.strategy) <==> Kept(k, b, c.strategy) || k == UNEVALUATED
    {
    }
  }

  // The cleaned object is that of the rest, plus the keyword.
  lemma CleanedBesides(b: Fields, c: Context, stack: set<string>)
    requires OwnKeywords(b) && Flat(With(b))
    ensures Clean(Obj(b), c, stack) == Obj(CleanFields(b, c, stack))
    ensures Clean(Obj(With(b)), c, stack) == Obj(With(CleanFields(b, c, stack)))
  {
    NoUnion(With(b));
    NoUnion(b);
    CleanWithoutUnion(b, c, stack);
    CleanWithoutUnion(With(b), c, stack);
    OneMoreKey(b, c);
    OneMoreField(b, c, stack);
  }

  lemma OneMoreField(b: Fields, c: Context, stack: set<string>)
    requires OutKeys(With(b), c.strategy) == OutKeys(b, c.strategy) + {UNEVALUATED} && b.Keys !! SURROUNDED
    ensures CleanFields(With(b), c, stack) == With(CleanFields(b, c, stack))
  {
    UnevaluatedIsSurrounded();
    assert CleanField(UNEVALUATED, Bool(false), c, stack) == Bool(false);
    forall k | k in OutKeys(b, c.strategy)
      ensures k != UNEVALUATED && CleanFields(With(b), c, stack)[k] == CleanFields(b, c, stack)[k]
    {
    }
  }

  // What still speaks about a property after cleaning.
  predicate StillCovered(rd: Reading, o: Fields, strategy: Strategy, p: string) {
    p in PropertyNames(o) || (Kept("patternProperties", o, strategy) && rd.patterned(o["patternProperties"], p))
  }

  // `additionalProperties` is kept, or every property is still spoken about.
  predicate HarmlessDrop(rd: Reading, o: Fields, strategy: Strategy, x: Json) {
    x.Obj? && !Kept("additionalProperties", o, strategy) ==> forall p | p in x.fields :: StillCovered(rd, o, strategy, p)
  }

  lemma CoveredAfter(rd: Reading, o: Fields, c: Context, stack: set<string>, p: string)
    requires StableSiblings(o, c.strategy)
    ensures Covered(rd, CleanFields(o, c, stack), p) <==> StillCovered(rd, o, c.strategy, p)
  {
    SamePropertyNames(o, c, stack);
    SiblingField(o, "patternProperties", c, stack);
  }

  lemma CleanedKeywords(b: Fields, c: Context, stack: set<string>)
    requires OwnKeywords(b) && Flat(With(b))
    ensures OwnKeywords(CleanFields(b, c, stack)) && Flat(With(CleanFields(b, c, stack)))
    ensures "additionalProperties" in CleanFields(b, c, stack) <==> Kept("additionalProperties", b, c.strategy)
  {
    assert "enum" !in SURROUNDED && "enum" !in APPLICATORS;
    assert forall k | k in OutKeys(b, c.strategy) :: k in b || k == "enum";
  }

  // Main result: for an instance that was valid, the dropped neighbours are
  // harmless exactly if `additionalProperties` is kept or every property is
  // still spoken about.
  lemma UnevaluatedDropIff(w: Reader, b: Fields, c: Context, stack: set<string>, budget: set<string>, full: bool, x: Json)
    requires OwnKeywords(b) && Flat(With(b)) && ReadsUnevaluated(w.rd)
    requires PositiveObject(Scope(w.root, With(b)), b, c, stack, full) && NullFree(x)
    requires Open(Obj(b), c, stack) <= budget && w.Fuelled(budget, full)
    requires w.Before(Obj(With(b)), x)
    ensures w.After(Clean(Obj(With(b)), c, stack), x) <==> HarmlessDrop(w.rd, b, c.strategy, x)
  {
    var v := w.In(With(b)).Out(With(CleanFields(b, c, stack)));
    RestStaysValid(v, b, c, stack, budget, full, x);
    ConditionAfter(w, b, c, stack, x);
  }

  // The rest holds of the instance, so the keyword's own condition decides.
  lemma ConditionAfter(w: Reader, b: Fields, c: Context, stack: set<string>, x: Json)
    requires OwnKeywords(b) && Flat(With(b)) && ReadsUnevaluated(w.rd) && StableSiblings(b, c.strategy)
    requires var r := CleanFields(b, c, stack); w.Out(With(r)).MeetsAfter(r, x)
    ensures w.After(Clean(Obj(With(b)), c, stack), x) <==> HarmlessDrop(w.rd, b, c.strategy, x)
  {
    var r := CleanFields(b, c, stack);
    CleanedBesides(b, c, stack);
    CleanedKeywords(b, c, stack);
    AddsItsCondition(w.rd, Scope(w.root', With(r)), w.n', r, x);
    SameConditionAfter(w.rd, b, c, stack, x);
  }

  lemma RestStaysValid(w: Reader, b: Fields, c: Context, stack: set<string>, budget: set<string>, full: bool, x: Json)
    requires OwnKeywords(b) && Flat(With(b)) && ReadsUnevaluated(w.rd)
    requires PositiveObject(w.root, b, c, stack, full) && NullFree(x)
    requires Open(Obj(b), c, stack) <= budget && w.Fuelled(budget, full)
    requires w.MeetsBefore(With(b), x)
    ensures w.MeetsAfter(CleanFields(b, c, stack), x) && StableSiblings(b, c.strategy)
  {
    AddsItsCondition(w.rd, w.root, w.n, b, x);
    NoUnion(With(b));
    NoUnion(b);
    assert SimplifyUnion(b, c, stack).None?;
    FieldsMeet(w, b, c, stack, budget, full, x);
    PositiveSiblings(w.root, b, c, stack, full);
  }

  lemma SameConditionAfter(rd: Reading, b: Fields, c: Context, stack: set<string>, x: Json)
    requires OwnKeywords(b) && Flat(With(b)) && StableSiblings(b, c.strategy)
    ensures AllEvaluated(rd, With(CleanFields(b, c, stack)), x) <==> HarmlessDrop(rd, b, c.strategy, x)
  {
    var r := CleanFields(b, c, stack);
    CleanedKeywords(b, c, stack);
    forall p
      ensures Covered(rd, With(r), p) <==> StillCovered(rd, b, c.strategy, p)
    {
      CoveredAfter(rd, b, c, stack, p);
    }
  }

  // Witness: one named property, all others allowed, none left unevaluated.
  function OpenObject(): Fields {
    map["properties" := Obj(map["a" := Bool(true)]), "additionalProperties" := Bool(true)]
  }

  lemma UnevaluatedIsStrengthened(w: Reader, strategy: Strategy)
    requires w.root == Obj(With(OpenObject())) && ReadsUnevaluated(w.rd)
    requires strategy == Gemini || strategy == Conservative
    ensures var x := Obj(map["b" := Num(1.0)]); w.Before(w.root, x) && !w.After(CleanSchema(w.root, strategy), x)
  {
    var (c, x) := (RootContext(w.root, strategy), Obj(map["b" := Num(1.0)]));
    OpenObjectIsPlain(w, c);
    OpenObjectAccepts(w, x);
    NoReferences(w.root, strategy);
    NotStillCovered(w.rd, strategy);
    DroppedNeighbourShows(w, OpenObject(), c, "b", x);
  }

  // One property that only the dropped keyword spoke about is enough.
  lemma DroppedNeighbourShows(w: Reader, b: Fields, c: Context, p: string, x: Json)
    requires OwnKeywords(b) && Flat(With(b)) && ReadsUnevaluated(w.rd) && PositiveObject(w.root, b, c, {}, false)
    requires Open(Obj(b), c, {}) == {} && w.Before(Obj(With(b)), x) && x == Obj(map[p := Num(1.0)]) && "$id" !in b
    requires !Kept("additionalProperties", b, c.strategy) && !StillCovered(w.rd, b, c.strategy, p)
    ensures !w.After(Clean(Obj(With(b)), c, {}), x)
  {
    assert NullFree(x) && p in x.fields;
    UnevaluatedDropIff(w, b, c, {}, {}, false, x);
  }

  lemma NotStillCovered(rd: Reading, strategy: Strategy)
    ensures !StillCovered(rd, OpenObject(), strategy, "b")
  {
  }

  lemma OpenObjectIsPlain(w: Reader, c: Context)
    requires c.strategy == Gemini || c.strategy == Conservative
    ensures var b := OpenObject();
            && OwnKeywords(b) && Flat(With(b))
            && PositiveObject(w.root, b, c, {}, false) && !Kept("additionalProperties", b, c.strategy)
  {
    var b := OpenObject();
    assert SimplifyUnion(b, c, {}).None?;
    assert PositiveMember(w.root, "properties", b["properties"], c, {}, false);
  }

  lemma OpenObjectAccepts(w: Reader, x: Json)
    requires x == Obj(map["b" := Num(1.0)]) && ReadsUnevaluated(w.rd) && Flat(With(OpenObject()))
    requires OwnKeywords(OpenObject())
    ensures w.Before(Obj(With(OpenObject())), x)
  {
    var b := OpenObject();
    assert Holds(w.rd, w.root, w.n, b, "properties", x) && Holds(w.rd, w.root, w.n, b, "additionalProperties", x);
    AddsItsCondition(w.rd, w.root, w.n, b, x);
    assert w.In(With(b)) == w;
    assert w.MeetsBefore(With(b), x);
  }

  lemma NoReferences(root: Json, strategy: Strategy)
    requires root == Obj(With(OpenObject()))
    ensures Open(Obj(OpenObject()), RootContext(root, strategy), {}) == {}
  {
    var b := OpenObject();
    assert Refs(b["properties"].fields["a"]) == {};
    assert Refs(b["properties"]) == {};
    assert Refs(b["additionalProperties"]) == {};
    assert Refs(Obj(b)) == {};
    assert ExtractDefs(root.fields) == map[];
    assert DefRefs(map[]) == {};
  }
}
