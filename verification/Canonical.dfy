// `canonicalize_json_for_tool_signature` on JSON texts whose member order is
// visible: it decides equality up to key order.
module Canonical {
  import opened StringOrder
  import opened Json

  // A JSON value with its members in some order.
  datatype Ordered =
    | Atom(value: Json)
    | List(items: seq<Ordered>)
    | Record(members: seq<(string, Ordered)>)

  ghost predicate DistinctKeys(members: seq<(string, Ordered)>) {
    forall i, j | 0 <= i < j < |members| :: members[i].0 != members[j].0
  }

  // Keys are distinct in every object, and atoms are scalars.
  ghost predicate WellFormed(v: Ordered) {
    match v
    case Atom(j) => !j.Obj? && !j.Arr?
    case List(items) => forall i | 0 <= i < |items| :: WellFormed(items[i])
    case Record(members) => DistinctKeys(members) && forall i | 0 <= i < |members| :: WellFormed(members[i].1)
  }

  ghost function Keys(members: seq<(string, Ordered)>): set<string> {
    set i | 0 <= i < |members| :: members[i].0
  }

  // Position of the member that `Map::get` returns.
  function IndexOf(members: seq<(string, Ordered)>, key: string): (i: nat)
    requires exists i :: 0 <= i < |members| && members[i].0 == key
    ensures i < |members| && members[i].0 == key
  {
    if members[0].0 == key then 0
    else
      assert exists i :: 0 <= i < |members[1..]| && members[1..][i].0 == key by {
        var i :| 0 <= i < |members| && members[i].0 == key;
        assert members[1..][i - 1].0 == key;
      }
      1 + IndexOf(members[1..], key)
  }

  lemma IndexIsUnique(members: seq<(string, Ordered)>, i: nat)
    requires DistinctKeys(members) && i < |members|
    ensures IndexOf(members, members[i].0) == i
  {
  }

  // The nested finite map a value stands for.
  ghost function Meaning(v: Ordered): Json
    decreases v
  {
    match v
    case Atom(j) => j
    case List(items) => Arr(seq(|items|, i requires 0 <= i < |items| => Meaning(items[i])))
    case Record(members) => Obj(map k | k in Keys(members) :: Meaning(members[IndexOf(members, k)].1))
  }

  // The canonical form: members sorted by key, recursively.
  ghost function Canonical(v: Ordered): Ordered
    decreases v
  {
    match v
    case Atom(_) => v
    case List(items) => List(seq(|items|, i requires 0 <= i < |items| => Canonical(items[i])))
    case Record(members) =>
      var keys := Sorted(Keys(members));
      Record(seq(|keys|, i requires 0 <= i < |keys| =>
        assert keys[i] in keys;
        (keys[i], Canonical(members[IndexOf(members, keys[i])].1))))
  }

  // ---------------------------------------------------------------- the loop

  method Canonicalize(v: Ordered) returns (c: Ordered)
    ensures c == Canonical(v)
    decreases v, 1
  {
    match v
    case Atom(_) => c := v;
    case List(items) => c := CanonicalizeItems(items);
    case Record(members) => c := CanonicalizeMembers(members);
  }

  method CanonicalizeItems(items: seq<Ordered>) returns (c: Ordered)
    ensures c == Canonical(List(items))
    decreases List(items), 0
  {
    var mapped: seq<Ordered> := [];
    for i := 0 to |items|
      invariant |mapped| == i
      invariant forall k | 0 <= k < i :: mapped[k] == Canonical(items[k])
    {
      var next := Canonicalize(items[i]);
      mapped := mapped + [next];
    }
    c := List(mapped);
    assert mapped == Canonical(List(items)).items;
  }

  ghost predicate CanonicalPairs(members: seq<(string, Ordered)>, keys: seq<string>, ordered: seq<(string, Ordered)>)
    requires forall k | k in keys :: k in Keys(members)
  {
    |ordered| <= |keys| &&
    forall i | 0 <= i < |ordered| ::
      keys[i] in keys && assert keys[i] in Keys(members);
      ordered[i] == (keys[i], Canonical(members[IndexOf(members, keys[i])].1))
  }

  lemma PairPushed(members: seq<(string, Ordered)>, keys: seq<string>, ordered: seq<(string, Ordered)>, child: Ordered)
    requires (forall k | k in keys :: k in Keys(members)) && CanonicalPairs(members, keys, ordered) && |ordered| < |keys|
    requires assert keys[|ordered|] in keys; child == Canonical(members[IndexOf(members, keys[|ordered|])].1)
    ensures CanonicalPairs(members, keys, ordered + [(keys[|ordered|], child)])
  {
  }

  method CanonicalizeMembers(members: seq<(string, Ordered)>) returns (c: Ordered)
    ensures c == Canonical(Record(members))
    decreases Record(members), 0
  {
    var keySet := set i | 0 <= i < |members| :: members[i].0;
    assert keySet == Keys(members);
    var keys := SortKeys(keySet);
    var ordered: seq<(string, Ordered)> := [];
    for i := 0 to |keys|
      invariant |ordered| == i
      invariant CanonicalPairs(members, keys, ordered)
    {
      assert keys[i] in keys;
      var child := Canonicalize(members[IndexOf(members, keys[i])].1);
      PairPushed(members, keys, ordered, child);
      ordered := ordered + [(keys[i], child)];
    }
    c := Record(ordered);
    OrderedIsCanonical(members, keys, ordered);
  }

  lemma OrderedIsCanonical(members: seq<(string, Ordered)>, keys: seq<string>, ordered: seq<(string, Ordered)>)
    requires keys == Sorted(Keys(members)) && |ordered| == |keys|
    requires (forall k | k in keys :: k in Keys(members)) && CanonicalPairs(members, keys, ordered)
    ensures Record(ordered) == Canonical(Record(members))
  {
    assert ordered == Canonical(Record(members)).members;
  }

  // ------------------------------------------------------------- the theorem

  lemma {:induction false} CanonicalKeys(members: seq<(string, Ordered)>)
    ensures var c := Canonical(Record(members));
            && Keys(c.members) == Keys(members)
            && |c.members| == |Sorted(Keys(members))|
            && DistinctKeys(c.members)
            && forall k | k in Keys(members) ::
                 k in Keys(c.members) && c.members[IndexOf(c.members, k)].1 == Canonical(members[IndexOf(members, k)].1)
  {
    var c := Canonical(Record(members));
    var keys := Sorted(Keys(members));
    forall i, j | 0 <= i < j < |keys|
      ensures keys[i] != keys[j]
    {
      LessIrreflexive(keys[i]);
    }
    forall k | k in Keys(members)
      ensures k in Keys(c.members)
    {
      var i :| 0 <= i < |keys| && keys[i] == k;
      assert c.members[i].0 == k;
    }
    forall k | k in Keys(c.members)
      ensures k in Keys(members)
    {
      var i :| 0 <= i < |c.members| && c.members[i].0 == k;
      assert keys[i] in keys;
    }
  }

  // Canonicalizing changes the order of members only.
  lemma {:induction false} CanonicalKeepsMeaning(v: Ordered)
    requires WellFormed(v)
    ensures WellFormed(Canonical(v)) && Meaning(Canonical(v)) == Meaning(v)
    decreases v, 1
  {
    match v
    case Atom(_) =>
    case List(items) =>
      forall i | 0 <= i < |items|
        ensures WellFormed(Canonical(items[i])) && Meaning(Canonical(items[i])) == Meaning(items[i])
      {
        CanonicalKeepsMeaning(items[i]);
      }
      assert Meaning(Canonical(v)).items == Meaning(v).items;
    case Record(members) => SortingKeepsMeaning(members);
  }

  lemma {:induction false} SortingKeepsMeaning(members: seq<(string, Ordered)>)
    requires WellFormed(Record(members))
    ensures var r := Record(members); WellFormed(Canonical(r)) && Meaning(Canonical(r)) == Meaning(r)
    decreases Record(members), 0
  {
    CanonicalKeys(members);
    var c := Canonical(Record(members)).members;
    forall k | k in Keys(members)
      ensures k in Keys(c)
      ensures WellFormed(c[IndexOf(c, k)].1)
      ensures Meaning(c[IndexOf(c, k)].1) == Meaning(members[IndexOf(members, k)].1)
    {
      CanonicalKeepsMeaning(members[IndexOf(members, k)].1);
    }
    WellFormedByKey(c);
    SameMeaningByKey(c, members);
  }

  lemma WellFormedByKey(c: seq<(string, Ordered)>)
    requires DistinctKeys(c) && forall k | k in Keys(c) :: WellFormed(c[IndexOf(c, k)].1)
    ensures WellFormed(Record(c))
  {
    forall i | 0 <= i < |c|
      ensures WellFormed(c[i].1)
    {
      assert c[i].0 in Keys(c);
      IndexIsUnique(c, i);
    }
  }

  lemma SameMeaningByKey(xs: seq<(string, Ordered)>, ys: seq<(string, Ordered)>)
    requires Keys(xs) == Keys(ys)
    requires forall k | k in Keys(xs) :: Meaning(xs[IndexOf(xs, k)].1) == Meaning(ys[IndexOf(ys, k)].1)
    ensures Meaning(Record(xs)) == Meaning(Record(ys))
  {
  }

  // The canonical form depends on the meaning alone.
  lemma {:induction false} MeaningFixesCanonical(a: Ordered, b: Ordered)
    requires WellFormed(a) && WellFormed(b) && Meaning(a) == Meaning(b)
    ensures Canonical(a) == Canonical(b)
    decreases a, 1
  {
    match (a, b)
    case (List(xs), List(ys)) => MeaningFixesItems(xs, ys);
    case (Record(xs), Record(ys)) => MeaningFixesMembers(xs, ys);
    case _ =>
  }

  lemma {:induction false} MeaningFixesItems(xs: seq<Ordered>, ys: seq<Ordered>)
    requires WellFormed(List(xs)) && WellFormed(List(ys)) && Meaning(List(xs)) == Meaning(List(ys))
    ensures Canonical(List(xs)) == Canonical(List(ys))
    decreases List(xs), 0
  {
    var (ms, ns) := (Meaning(List(xs)).items, Meaning(List(ys)).items);
    assert |xs| == |ms| == |ns| == |ys|;
    forall i | 0 <= i < |xs|
      ensures Canonical(xs[i]) == Canonical(ys[i])
    {
      assert ms[i] == Meaning(xs[i]) && ns[i] == Meaning(ys[i]);
      MeaningFixesCanonical(xs[i], ys[i]);
    }
    assert Canonical(List(xs)).items == Canonical(List(ys)).items;
  }

  lemma {:induction false} MeaningFixesMembers(xs: seq<(string, Ordered)>, ys: seq<(string, Ordered)>)
    requires WellFormed(Record(xs)) && WellFormed(Record(ys)) && Meaning(Record(xs)) == Meaning(Record(ys))
    ensures Canonical(Record(xs)) == Canonical(Record(ys))
    decreases Record(xs), 0
  {
    var (ms, ns) := (Meaning(Record(xs)).fields, Meaning(Record(ys)).fields);
    assert Keys(xs) == ms.Keys == ns.Keys == Keys(ys);
    forall k | k in Keys(xs)
      ensures Canonical(xs[IndexOf(xs, k)].1) == Canonical(ys[IndexOf(ys, k)].1)
    {
      assert ms[k] == Meaning(xs[IndexOf(xs, k)].1) && ns[k] == Meaning(ys[IndexOf(ys, k)].1);
      MeaningFixesCanonical(xs[IndexOf(xs, k)].1, ys[IndexOf(ys, k)].1);
    }
    var keys := Sorted(Keys(xs));
    forall i | 0 <= i < |keys|
      ensures Canonical(Record(xs)).members[i] == Canonical(Record(ys)).members[i]
    {
      assert keys[i] in keys;
    }
  }

  // Main result: two values have the same canonical form exactly when they are
  // equal up to the order of members.
  lemma CanonicalDecidesEquality(a: Ordered, b: Ordered)
    requires WellFormed(a) && WellFormed(b)
    ensures Canonical(a) == Canonical(b) <==> Meaning(a) == Meaning(b)
  {
    CanonicalKeepsMeaning(a);
    CanonicalKeepsMeaning(b);
    if Meaning(a) == Meaning(b) {
      MeaningFixesCanonical(a, b);
    }
  }

  // The members of every object, at every depth, come in ascending key order.
  ghost predicate InKeyOrder(v: Ordered) {
    match v
    case Atom(_) => true
    case List(items) => forall i | 0 <= i < |items| :: InKeyOrder(items[i])
    case Record(members) => KeysAscend(members) && forall i | 0 <= i < |members| :: InKeyOrder(members[i].1)
  }

  ghost predicate KeysAscend(members: seq<(string, Ordered)>) {
    forall i, j | 0 <= i < j < |members| :: Less(members[i].0, members[j].0)
  }

  lemma {:induction false} CanonicalIsInKeyOrder(v: Ordered)
    ensures InKeyOrder(Canonical(v))
    decreases v
  {
    match v
    case Atom(_) =>
    case List(items) =>
      forall i | 0 <= i < |items|
        ensures InKeyOrder(Canonical(items[i]))
      {
        CanonicalIsInKeyOrder(items[i]);
      }
    case Record(members) =>
      var keys := Sorted(Keys(members));
      forall i | 0 <= i < |keys|
        ensures keys[i] in Keys(members) && InKeyOrder(Canonical(members[IndexOf(members, keys[i])].1))
      {
        assert keys[i] in keys;
        CanonicalIsInKeyOrder(members[IndexOf(members, keys[i])].1);
      }
      var c := Canonical(v).members;
      assert KeysAscend(c);
  }

  lemma {:induction false} OrderedIsUnchanged(v: Ordered)
    requires WellFormed(v) && InKeyOrder(v)
    ensures Canonical(v) == v
    decreases v
  {
    match v
    case Atom(_) =>
    case List(items) =>
      forall i | 0 <= i < |items|
        ensures Canonical(items[i]) == items[i]
      {
        OrderedIsUnchanged(items[i]);
      }
      assert Canonical(v).items == items;
    case Record(members) =>
      AscendingKeysAreSorted(members);
      forall i | 0 <= i < |members|
        ensures Canonical(v).members[i] == members[i]
      {
        OrderedIsUnchanged(members[i].1);
        IndexIsUnique(members, i);
      }
      assert Canonical(v).members == members;
  }

  lemma AscendingKeysAreSorted(members: seq<(string, Ordered)>)
    requires KeysAscend(members)
    ensures var keys := Sorted(Keys(members)); |keys| == |members| && forall i | 0 <= i < |keys| :: keys[i] == members[i].0
  {
    var keys := seq(|members|, i requires 0 <= i < |members| => members[i].0);
    AscendingUnique(keys);
    assert (set k | k in keys) == Keys(members) by {
      forall k | k in Keys(members)
        ensures k in keys
      {
        var i :| 0 <= i < |members| && members[i].0 == k;
        assert keys[i] == k;
      }
    }
  }

  // What the canonical form is: the only value with the same members whose keys
  // are in ascending order at every depth.
  lemma CanonicalIffOrdered(v: Ordered, c: Ordered)
    requires WellFormed(v)
    ensures c == Canonical(v) <==> WellFormed(c) && InKeyOrder(c) && Meaning(c) == Meaning(v)
  {
    CanonicalKeepsMeaning(v);
    CanonicalIsInKeyOrder(v);
    if WellFormed(c) && InKeyOrder(c) && Meaning(c) == Meaning(v) {
      OrderedIsUnchanged(c);
      MeaningFixesCanonical(c, v);
    }
  }

  lemma CanonicalIsIdempotent(v: Ordered)
    requires WellFormed(v)
    ensures Canonical(Canonical(v)) == Canonical(v)
  {
    CanonicalKeepsMeaning(v);
    MeaningFixesCanonical(Canonical(v), v);
  }
}
