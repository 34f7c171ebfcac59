/** Finite sets and the sequences that list them. */
module Sets {
  /** `keys` lists each element of `all` exactly once. */
  ghost predicate Enumerates<T(!new)>(keys: seq<T>, all: set<T>) {
    && (forall i, j :: 0 <= i < j < |keys| ==> keys[i] != keys[j])
    && (forall k :: k in keys <==> k in all)
  }

  lemma {:induction false} EnumerationSize<T(!new)>(keys: seq<T>, all: set<T>)
    requires Enumerates(keys, all)
    ensures |keys| == |all|
  {
    if keys == [] {
      assert all == {};
    } else {
      var last := keys[|keys| - 1];
      var init := keys[..|keys| - 1];
      assert keys == init + [last];
      assert last in keys && last !in init;
      EnumerationSize(init, all - {last});
    }
  }

  lemma {:induction false} SubsetSize<T>(a: set<T>, b: set<T>)
    requires a <= b
    ensures |a| <= |b|
  {
    if a != {} {
      var x :| x in a;
      SubsetSize(a - {x}, b - {x});
    }
  }
}
