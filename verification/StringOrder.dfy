// Lexicographic order on strings by code point (Rust's `Ord for str`, which
// compares UTF-8 bytes and therefore agrees with code-point order), and the
// ascending enumeration of a finite key set.  A serde_json object is a BTreeMap,
// so every loop over its entries visits the keys in this order.
module StringOrder {
  import opened Text

  predicate Less(a: string, b: string) {
    if b == [] then false
    else if a == [] then true
    else a[0] < b[0] || (a[0] == b[0] && Less(a[1..], b[1..]))
  }

  // The first difference decides, and a proper prefix comes first.
  lemma {:induction false} LessAt(a: string, b: string, i: nat)
    requires i <= |a| && i <= |b| && a[..i] == b[..i]
    requires if i < |a| && i < |b| then a[i] < b[i] else |a| < |b|
    ensures Less(a, b)
  {
    if i > 0 {
      assert a[0] == a[..i][0] == b[..i][0] == b[0];
      assert a[1..][..i - 1] == a[..i][1..] && b[1..][..i - 1] == b[..i][1..];
      LessAt(a[1..], b[1..], i - 1);
    }
  }

  lemma {:induction false} LessIrreflexive(a: string)
    ensures !Less(a, a)
  {
    if a != [] {
      LessIrreflexive(a[1..]);
    }
  }

  lemma {:induction false} LessTransitive(a: string, b: string, c: string)
    requires Less(a, b) && Less(b, c)
    ensures Less(a, c)
  {
    if a != [] && a[0] == b[0] && b[0] == c[0] {
      LessTransitive(a[1..], b[1..], c[1..]);
    }
  }

  lemma {:induction false} LessConnected(a: string, b: string)
    requires a != b
    ensures Less(a, b) || Less(b, a)
  {
    if a != [] && b != [] && a[0] == b[0] {
      assert a == [a[0]] + a[1..] && b == [b[0]] + b[1..];
      LessConnected(a[1..], b[1..]);
    }
  }

  lemma LessAsymmetric(a: string, b: string)
    requires Less(a, b)
    ensures !Less(b, a)
  {
    if Less(b, a) {
      LessTransitive(a, b, a);
      LessIrreflexive(a);
    }
  }

  // `k` is the first key an ordered iteration over `keys` meets.
  predicate IsLeast(k: string, keys: set<string>) {
    k in keys && forall other | other in keys && other != k :: Less(k, other)
  }

  lemma {:induction false} LeastExists(keys: set<string>)
    requires keys != {}
    ensures exists k :: IsLeast(k, keys)
    decreases keys
  {
    var k :| k in keys;
    if keys == {k} {
      assert IsLeast(k, keys);
    } else {
      LeastExists(keys - {k});
      var m :| IsLeast(m, keys - {k});
      LessConnected(k, m);
      if Less(m, k) {
        assert IsLeast(m, keys);
      } else {
        forall other | other in keys && other != k
          ensures Less(k, other)
        {
          if other != m {
            LessTransitive(k, m, other);
          }
        }
        assert IsLeast(k, keys);
      }
    }
  }

  lemma LeastUnique(keys: set<string>, a: string, b: string)
    requires IsLeast(a, keys) && IsLeast(b, keys)
    ensures a == b
  {
    if a != b {
      LessAsymmetric(a, b);
    }
  }

  ghost function Least(keys: set<string>): (k: string)
    requires keys != {}
    ensures IsLeast(k, keys)
  {
    LeastExists(keys);
    var k :| IsLeast(k, keys);
    k
  }

  ghost predicate Ascending(keys: seq<string>) {
    forall i, j | 0 <= i < j < |keys| :: Less(keys[i], keys[j])
  }

  ghost function Sorted(keys: set<string>): (r: seq<string>)
    ensures forall k :: k in r <==> k in keys
    ensures Ascending(r)
    decreases keys
  {
    if keys == {} then []
    else
      var k := Least(keys);
      [k] + Sorted(keys - {k})
  }

  // An ascending enumeration is determined by the set it enumerates: sorting
  // the same key set always gives the same sequence.
  lemma {:induction false} AscendingUnique(keys: seq<string>)
    requires Ascending(keys)
    ensures keys == Sorted(set k | k in keys)
    decreases |keys|
  {
    var all := set k | k in keys;
    if keys != [] {
      assert keys[0] in all;
      assert IsLeast(keys[0], all);
      LeastUnique(all, keys[0], Least(all));
      LessIrreflexive(keys[0]);
      assert keys == [keys[0]] + keys[1..];
      assert keys[0] !in keys[1..];
      assert (set k | k in keys[1..]) == all - {keys[0]};
      AscendingUnique(keys[1..]);
    }
  }

  // Sorting the keys of a map.
  method SortKeys(keys: set<string>) returns (sorted: seq<string>)
    ensures sorted == Sorted(keys)
  {
    sorted := [];
    var rest := keys;
    while rest != {}
      invariant sorted + Sorted(rest) == Sorted(keys)
      decreases rest
    {
      LeastExists(rest);
      var k :| k in rest && IsLeast(k, rest);
      LeastUnique(rest, k, Least(rest));
      Associative(sorted, [k], Sorted(rest - {k}));
      sorted := sorted + [k];
      rest := rest - {k};
    }
  }
}
