// Facts about finite sets and maps that several components share.
module Collections {
  import opened Wrappers

  lemma {:induction false} SubsetSize<T>(a: set<T>, b: set<T>)
    requires a <= b
    ensures |a| <= |b|
    decreases a
  {
    if a != {} {
      var x :| x in a;
      SubsetSize(a - {x}, b - {x});
    }
  }

  // A key with the smallest time, as `min_by_key` picks one.
  predicate Oldest(victim: string, times: map<string, int>) {
    victim in times && forall k | k in times :: times[victim] <= times[k]
  }

  lemma {:induction false} OldestExists(times: map<string, int>)
    requires times.Keys != {}
    ensures exists v :: Oldest(v, times)
    decreases times.Keys
  {
    var k :| k in times;
    var rest := times - {k};
    assert forall other | other in times :: other == k || (other in rest && rest[other] == times[other]);
    if rest.Keys == {} {
      assert Oldest(k, times);
    } else {
      OldestExists(rest);
      var v :| Oldest(v, rest);
      assert Oldest(if times[k] <= times[v] then k else v, times);
    }
  }

  // The map without the evicted key, if one was evicted.
  function Without<V>(m: map<string, V>, key: Option<string>): map<string, V> {
    if key.Some? then m - {key.value} else m
  }
}
