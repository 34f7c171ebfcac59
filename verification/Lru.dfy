/**
 lruResults (orchestrator/lru.go): a map from key to list element and a list
 of the same elements, most recently used first. The elements are objects
 shared by both; the list operations are container/list's.
 */
module Lru {
  import opened Jobs
  import opened Sets

  datatype ResultEntry = ResultEntry(resultBytes: Bytes, errorMsg: string, coldStartMs: int, executionMs: int)

  datatype Pair = Pair(key: string, value: ResultEntry)

  class Element {
    const key: string
    var value: ResultEntry

    constructor (key: string, value: ResultEntry)
      ensures this.key == key && this.value == value
    {
      this.key, this.value := key, value;
    }
  }

  // ---- the cache as a list of pairs ------------------------------------------

  function Without(c: seq<Pair>, key: string): seq<Pair> {
    if c == [] then [] else (if c[0].key == key then [] else [c[0]]) + Without(c[1..], key)
  }

  function Find(c: seq<Pair>, key: string): Option<ResultEntry> {
    if c == [] then None else if c[0].key == key then Some(c[0].value) else Find(c[1..], key)
  }

  function Take<T>(n: nat, s: seq<T>): seq<T> {
    if |s| <= n then s else s[..n]
  }

  function PutPair(cap: nat, c: seq<Pair>, key: string, value: ResultEntry): seq<Pair> {
    Take(cap, [Pair(key, value)] + Without(c, key))
  }

  function GetPair(c: seq<Pair>, key: string): seq<Pair> {
    match Find(c, key)
    case Some(value) => [Pair(key, value)] + Without(c, key)
    case None => c
  }

  ghost predicate DistinctKeys(c: seq<Pair>) {
    forall i, j :: 0 <= i < j < |c| ==> c[i].key != c[j].key
  }

  lemma {:induction false} WithoutAbsent(c: seq<Pair>, key: string)
    requires forall i :: 0 <= i < |c| ==> c[i].key != key
    ensures Without(c, key) == c && Find(c, key) == None
  {
    if c != [] {
      WithoutAbsent(c[1..], key);
    }
  }

  lemma {:induction false} WithoutAt(c: seq<Pair>, i: nat)
    requires i < |c| && DistinctKeys(c)
    ensures Without(c, c[i].key) == c[..i] + c[i + 1..]
    ensures Find(c, c[i].key) == Some(c[i].value)
  {
    if i == 0 {
      WithoutAbsent(c[1..], c[0].key);
    } else {
      WithoutAt(c[1..], i - 1);
      assert c[1..][..i - 1] == c[1..i];
    }
  }

  // ---- map and list agree ----------------------------------------------------

  ghost predicate Linked(items: map<string, Element>, order: seq<Element>) {
    && (forall i, j :: 0 <= i < j < |order| ==> order[i].key != order[j].key)
    && (forall i :: 0 <= i < |order| ==> order[i].key in items && items[order[i].key] == order[i])
    && (forall k :: k in items ==> items[k].key == k && items[k] in order)
  }

  function Front<T>(s: seq<T>, i: nat): (r: seq<T>)
    requires i < |s|
    ensures |r| == |s|
  {
    [s[i]] + (s[..i] + s[i + 1..])
  }

  lemma FrontIsGet(c: seq<Pair>, i: nat)
    requires i < |c| && DistinctKeys(c)
    ensures Find(c, c[i].key) == Some(c[i].value)
    ensures Front(c, i) == GetPair(c, c[i].key)
  {
    WithoutAt(c, i);
  }

  lemma FrontIsPut(cap: nat, c: seq<Pair>, i: nat, value: ResultEntry)
    requires i < |c| <= cap && DistinctKeys(c)
    ensures Front(c[i := Pair(c[i].key, value)], i) == PutPair(cap, c, c[i].key, value)
  {
    WithoutAt(c, i);
    var c' := c[i := Pair(c[i].key, value)];
    assert c'[..i] == c[..i] && c'[i + 1..] == c[i + 1..];
  }

  lemma FrontAt<T>(s: seq<T>, i: nat, j: nat)
    requires i < |s| && j < |s|
    ensures Front(s, i)[j] == s[if j == 0 then i else if j <= i then j - 1 else j]
  {
  }

  lemma FrontHas<T>(s: seq<T>, i: nat, x: T)
    requires i < |s| && x in s
    ensures x in Front(s, i)
  {
    assert s == s[..i] + [s[i]] + s[i + 1..];
  }

  lemma FrontLinked(items: map<string, Element>, order: seq<Element>, i: nat)
    requires Linked(items, order) && i < |order|
    ensures Linked(items, Front(order, i))
  {
    var order' := Front(order, i);
    forall k | k in items
      ensures items[k] in order'
    {
      FrontHas(order, i, items[k]);
    }
    forall a | 0 <= a < |order'|
      ensures order'[a].key in items && items[order'[a].key] == order'[a]
    {
      FrontAt(order, i, a);
    }
    forall a, b | 0 <= a < b < |order'|
      ensures order'[a].key != order'[b].key
    {
      FrontAt(order, i, a);
      FrontAt(order, i, b);
    }
  }

  lemma FrontMirrors(order: seq<Element>, contents: seq<Pair>, i: nat)
    requires |contents| == |order| && i < |order|
    requires forall j :: 0 <= j < |order| ==> contents[j] == Pair(order[j].key, order[j].value)
    ensures forall j :: 0 <= j < |order| ==> Front(contents, i)[j] == Pair(Front(order, i)[j].key, Front(order, i)[j].value)
  {
    forall j | 0 <= j < |order|
      ensures Front(contents, i)[j] == Pair(Front(order, i)[j].key, Front(order, i)[j].value)
    {
      FrontAt(order, i, j);
      FrontAt(contents, i, j);
    }
  }

  lemma PushLinked(items: map<string, Element>, order: seq<Element>, el: Element)
    requires Linked(items, order) && el.key !in items
    ensures Linked(items[el.key := el], [el] + order)
  {
    forall k | k in items
      ensures items[k] in [el] + order
    {
      assert items[k] in order;
    }
  }

  lemma PopLinked(items: map<string, Element>, order: seq<Element>)
    requires Linked(items, order) && order != []
    ensures Linked(items - {order[|order| - 1].key}, order[..|order| - 1])
  {
    var n := |order| - 1;
    assert order == order[..n] + [order[n]];
    forall k | k in items && k != order[n].key
      ensures items[k] in order[..n]
    {
      assert items[k] in order;
    }
  }

  lemma {:induction false} LinkedSize(items: map<string, Element>, order: seq<Element>)
    requires Linked(items, order)
    ensures |items| == |order|
  {
    if order == [] {
      assert items == map[];
    } else {
      PopLinked(items, order);
      LinkedSize(items - {order[|order| - 1].key}, order[..|order| - 1]);
      assert (items - {order[|order| - 1].key}).Keys == items.Keys - {order[|order| - 1].key};
    }
  }

  class LruResults {
    const cap: nat
    var items: map<string, Element>
    var order: seq<Element>
    ghost var contents: seq<Pair>  // what the cache holds, most recently used first

    /** The cache is in order, except that it may be one over capacity. */
    ghost predicate Mirrored()
      reads this, order
    {
      && Linked(items, order)
      && |contents| == |order|
      && forall i :: 0 <= i < |order| ==> contents[i] == Pair(order[i].key, order[i].value)
    }

    ghost predicate Valid()
      reads this, order
    {
      1 <= cap && |order| <= cap && Mirrored()
    }

    constructor (capacity: int)
      ensures Valid() && contents == []
      ensures cap == if capacity < 1 then 1 else capacity
    {
      cap := if capacity < 1 then 1 else capacity;
      items, order, contents := map[], [], [];
    }

    /** Where the element of a cached key sits in the list. */
    method Position(key: string) returns (i: nat)
      requires Mirrored() && key in items
      ensures i < |order| && order[i] == items[key] && contents[i].key == key
      ensures DistinctKeys(contents)
    {
      assert items[key] in order;
      i :| i < |order| && order[i] == items[key];
    }

    /** Overwrites the value inside the element at `i`. */
    method SetValue(i: nat, value: ResultEntry)
      requires Mirrored() && i < |order|
      modifies order[i], this`contents
      ensures Mirrored()
      ensures contents == old(contents)[i := Pair(old(contents)[i].key, value)]
    {
      order[i].value := value;
      contents := contents[i := Pair(contents[i].key, value)];
    }

    /** list.MoveToFront of the element at `i`. */
    method MoveToFront(i: nat)
      requires Mirrored() && i < |order|
      modifies this`order, this`contents
      ensures Mirrored()
      ensures contents == Front(old(contents), i)
      ensures forall e :: e in order ==> e in old(order)
    {
      FrontLinked(items, order, i);
      FrontMirrors(order, contents, i);
      order, contents := Front(order, i), Front(contents, i);
    }

    method Put(key: string, value: ResultEntry)
      requires Valid()
      modifies this, order
      ensures Valid()
      ensures contents == PutPair(cap, old(contents), key, value)
      ensures forall e :: e in order ==> e in old(order) || fresh(e)
    {
      if key in items {
        var i := Position(key);
        FrontIsPut(cap, contents, i, value);
        SetValue(i, value);
        MoveToFront(i);
        return;
      }
      WithoutAbsent(contents, key);
      PushFront(key, value);
      if |order| > cap {
        RemoveBack();
      }
    }

    /** list.PushFront of a new element, and its map entry. */
    method PushFront(key: string, value: ResultEntry)
      requires Mirrored() && key !in items
      modifies this
      ensures Mirrored()
      ensures contents == [Pair(key, value)] + old(contents)
      ensures forall e :: e in order ==> e in old(order) || fresh(e)
    {
      var el := new Element(key, value);
      PushLinked(items, order, el);
      order, items := [el] + order, items[key := el];
      contents := [Pair(key, value)] + contents;
      forall i | 0 <= i < |order|
        ensures contents[i] == Pair(order[i].key, order[i].value)
      {
        assert i > 0 ==> order[i] == old(order)[i - 1] && contents[i] == old(contents)[i - 1];
      }
    }

    /** list.Remove of list.Back, and of its map entry. */
    method RemoveBack()
      requires Mirrored() && order != []
      modifies this
      ensures Mirrored()
      ensures contents == old(contents)[..|old(contents)| - 1]
      ensures forall e :: e in order ==> e in old(order)
    {
      var oldest := order[|order| - 1];
      PopLinked(items, order);
      order, items := order[..|order| - 1], items - {oldest.key};
      contents := contents[..|contents| - 1];
    }

    method Get(key: string) returns (r: Option<ResultEntry>)
      requires Valid()
      modifies this`order, this`contents
      ensures Valid()
      ensures r == Find(old(contents), key)
      ensures contents == GetPair(old(contents), key)
      ensures forall e :: e in order ==> e in old(order)
    {
      if key !in items {
        WithoutAbsent(contents, key);
        return None;
      }
      var i := Position(key);
      var el := order[i];
      FrontIsGet(contents, i);
      MoveToFront(i);
      r := Some(el.value);
    }

    method Len() returns (n: nat)
      requires Valid()
      ensures n == |contents| == |items| <= cap
    {
      LinkedSize(items, order);
      n := |order|;
    }
  }

  // ---- the cache and its history ---------------------------------------------

  datatype Op = Put(key: string, value: ResultEntry) | Get(key: string)

  function Cache(cap: nat, ops: seq<Op>): seq<Pair> {
    if ops == [] then [] else
    var c := Cache(cap, ops[..|ops| - 1]);
    match ops[|ops| - 1]
    case Put(key, value) => PutPair(cap, c, key, value)
    case Get(key) => GetPair(c, key)
  }

  /** Any sequence of calls on a new cache leaves what the fold says. */
  method Replay(capacity: int, ops: seq<Op>) returns (lru: LruResults)
    ensures lru.Valid() && lru.cap == if capacity < 1 then 1 else capacity
    ensures lru.contents == Cache(lru.cap, ops)
  {
    lru := new LruResults(capacity);
    for i := 0 to |ops|
      invariant fresh(lru) && lru.Valid() && lru.cap == if capacity < 1 then 1 else capacity
      invariant forall e :: e in lru.order ==> fresh(e)
      invariant lru.contents == Cache(lru.cap, ops[..i])
    {
      assert ops[..i + 1][..i] == ops[..i];
      match ops[i]
      case Put(key, value) => lru.Put(key, value);
      case Get(key) => var _ := lru.Get(key);
    }
    assert ops[..|ops|] == ops;
  }

  /** The keys touched, in order: every Put, and every Get that hit. */
  function Touches(cap: nat, ops: seq<Op>): seq<string> {
    if ops == [] then [] else
    var t, op := Touches(cap, ops[..|ops| - 1]), ops[|ops| - 1];
    if op.Put? || Find(Cache(cap, ops[..|ops| - 1]), op.key).Some? then t + [op.key] else t
  }

  /** The distinct keys touched after the last touch of `key`. */
  function Since(touches: seq<string>, key: string): set<string> {
    if touches == [] || touches[|touches| - 1] == key then {}
    else Since(touches[..|touches| - 1], key) + {touches[|touches| - 1]}
  }

  function LastPut(ops: seq<Op>, key: string): Option<ResultEntry> {
    if ops == [] then None
    else if ops[|ops| - 1].Put? && ops[|ops| - 1].key == key then Some(ops[|ops| - 1].value)
    else LastPut(ops[..|ops| - 1], key)
  }

  function Keys(c: seq<Pair>): (k: seq<string>)
    ensures |k| == |c| && forall i :: 0 <= i < |k| ==> k[i] == c[i].key
  {
    seq(|c|, i requires 0 <= i < |c| => c[i].key)
  }

  function KeySet(ks: seq<string>): set<string> {
    set k | k in ks
  }

  /** The cached keys against the touches alone: ranks are recency, and whatever is missing has `cap` newer keys. */
  ghost predicate Ranked(cap: nat, ks: seq<string>, touches: seq<string>) {
    && |ks| <= cap
    && (forall i, j :: 0 <= i < j < |ks| ==> ks[i] != ks[j])
    && (forall i :: 0 <= i < |ks| ==> ks[i] in touches && Since(touches, ks[i]) == KeySet(ks[..i]))
    && (forall k :: k in touches && k !in ks ==> |Since(touches, k)| >= cap)
  }

  lemma SinceTouch(touches: seq<string>, key: string, k: string)
    ensures Since(touches + [key], k) == if k == key then {} else Since(touches, k) + {key}
    ensures k in touches + [key] <==> k in touches || k == key
  {
    assert (touches + [key])[..|touches|] == touches;
  }

  lemma {:induction false} KeySetSize(ks: seq<string>)
    requires forall i, j :: 0 <= i < j < |ks| ==> ks[i] != ks[j]
    ensures |KeySet(ks)| == |ks|
  {
    if ks != [] {
      var n := |ks| - 1;
      KeySetSize(ks[..n]);
      assert KeySet(ks) == KeySet(ks[..n]) + {ks[n]};
      assert ks[n] !in ks[..n];
    }
  }

  /** Keys not cached stay old enough whatever is touched. */
  lemma MissingStayMissing(cap: nat, ks: seq<string>, touches: seq<string>, key: string, k: string)
    requires Ranked(cap, ks, touches) && k in touches && k !in ks && k != key
    ensures |Since(touches + [key], k)| >= cap
  {
    SinceTouch(touches, key, k);
    SubsetSize(Since(touches, k), Since(touches, k) + {key});
  }

  lemma TouchHit(cap: nat, ks: seq<string>, touches: seq<string>, i: nat)
    requires Ranked(cap, ks, touches) && i < |ks|
    ensures Ranked(cap, Front(ks, i), touches + [ks[i]])
  {
    var ks', touches' := Front(ks, i), touches + [ks[i]];
    forall j | 0 <= j < |ks'|
      ensures ks'[j] in touches' && Since(touches', ks'[j]) == KeySet(ks'[..j])
    {
      FrontAt(ks, i, j);
      SinceTouch(touches, ks[i], ks'[j]);
      FrontPrefix(ks, i, j);
    }
    forall k | k in touches' && k !in ks'
      ensures |Since(touches', k)| >= cap
    {
      SinceTouch(touches, ks[i], k);
      FrontMembers(ks, i);
      MissingStayMissing(cap, ks, touches, ks[i], k);
    }
    forall a, b | 0 <= a < b < |ks'|
      ensures ks'[a] != ks'[b]
    {
      FrontAt(ks, i, a);
      FrontAt(ks, i, b);
    }
  }

  lemma FrontMembers(ks: seq<string>, i: nat)
    requires i < |ks|
    ensures forall k :: k in ks <==> k in Front(ks, i)
  {
    assert ks == ks[..i] + [ks[i]] + ks[i + 1..];
  }

  lemma FrontPrefix(ks: seq<string>, i: nat, j: nat)
    requires i < |ks| && j < |ks|
    ensures KeySet(Front(ks, i)[..j]) == if j == 0 then {} else KeySet(ks[..if j <= i then j - 1 else j]) + {ks[i]}
  {
    if 0 < j <= i {
      assert Front(ks, i)[..j] == [ks[i]] + ks[..j - 1];
    } else if j > i {
      assert Front(ks, i)[..j + 0] == ([ks[i]] + (ks[..i] + ks[i + 1..]))[..j];
      assert j > 0 ==> Front(ks, i)[..j] == [ks[i]] + (ks[..i] + ks[i + 1..j]);
      assert ks[..j] == ks[..i] + [ks[i]] + ks[i + 1..j];
    }
  }

  lemma StaysIn(cap: nat, ks: seq<string>, key: string, i: nat)
    requires i < |ks| && i + 1 < cap
    ensures ks[i] in Take(cap, [key] + ks)
  {
    assert Take(cap, [key] + ks)[i + 1] == ks[i];
  }

  /** The key pushed out of a full cache is old enough from then on. */
  lemma EvictedIsOld(cap: nat, ks: seq<string>, touches: seq<string>, key: string, k: string)
    requires Ranked(cap, ks, touches) && key !in ks && 1 <= cap
    requires k in ks && k !in Take(cap, [key] + ks)
    ensures |Since(touches + [key], k)| >= cap
  {
    var i :| 0 <= i < |ks| && ks[i] == k;
    if i + 1 < cap {
      StaysIn(cap, ks, key, i);
    }
    SinceTouch(touches, key, k);
    KeySetSize(ks[..i]);
    assert key !in ks[..i];
  }

  /** The ranks after a key that was not cached is pushed in front. */
  lemma MissRank(ks: seq<string>, touches: seq<string>, key: string, j: nat)
    requires j < |ks| && ks[j] in touches && ks[j] != key && Since(touches, ks[j]) == KeySet(ks[..j])
    ensures ks[j] in touches + [key] && Since(touches + [key], ks[j]) == KeySet([key] + ks[..j])
  {
    SinceTouch(touches, key, ks[j]);
  }

  lemma MissLeavesOut(cap: nat, ks: seq<string>, touches: seq<string>, key: string, k: string)
    requires Ranked(cap, ks, touches) && key !in ks && 1 <= cap
    requires k in touches + [key] && k !in Take(cap, [key] + ks)
    ensures |Since(touches + [key], k)| >= cap
  {
    assert Take(cap, [key] + ks)[0] == key;
    SinceTouch(touches, key, k);
    if k in ks {
      EvictedIsOld(cap, ks, touches, key, k);
    } else {
      MissingStayMissing(cap, ks, touches, key, k);
    }
  }

  lemma Pushed(cap: nat, ks: seq<string>, key: string, j: nat)
    requires 0 < j < |Take(cap, [key] + ks)|
    ensures Take(cap, [key] + ks)[j] == ks[j - 1]
    ensures Take(cap, [key] + ks)[..j] == [key] + ks[..j - 1]
  {
  }

  lemma TouchMiss(cap: nat, ks: seq<string>, touches: seq<string>, key: string)
    requires Ranked(cap, ks, touches) && key !in ks && 1 <= cap
    ensures Ranked(cap, Take(cap, [key] + ks), touches + [key])
  {
    var ks', touches' := Take(cap, [key] + ks), touches + [key];
    forall j | 0 <= j < |ks'|
      ensures ks'[j] in touches' && Since(touches', ks'[j]) == KeySet(ks'[..j])
    {
      if j == 0 {
        SinceTouch(touches, key, key);
      } else {
        Pushed(cap, ks, key, j);
        MissRank(ks, touches, key, j - 1);
      }
    }
    forall k | k in touches' && k !in ks'
      ensures |Since(touches', k)| >= cap
    {
      MissLeavesOut(cap, ks, touches, key, k);
    }
  }

  lemma PutHit(cap: nat, c: seq<Pair>, i: nat, value: ResultEntry)
    requires i < |c| <= cap && DistinctKeys(c)
    ensures Keys(PutPair(cap, c, c[i].key, value)) == Front(Keys(c), i)
    ensures PutPair(cap, c, c[i].key, value) == [Pair(c[i].key, value)] + (c[..i] + c[i + 1..])
  {
    WithoutAt(c, i);
    assert Keys(c[..i] + c[i + 1..]) == Keys(c)[..i] + Keys(c)[i + 1..];
    assert Keys([Pair(c[i].key, value)] + (c[..i] + c[i + 1..])) == [c[i].key] + Keys(c[..i] + c[i + 1..]);
  }

  lemma KeysOfPush(c: seq<Pair>, p: Pair)
    ensures Keys([p] + c) == [p.key] + Keys(c)
  {
  }

  lemma PutMiss(cap: nat, c: seq<Pair>, key: string, value: ResultEntry)
    requires forall i :: 0 <= i < |c| ==> c[i].key != key
    ensures Keys(PutPair(cap, c, key, value)) == Take(cap, [key] + Keys(c))
    ensures PutPair(cap, c, key, value) == Take(cap, [Pair(key, value)] + c)
  {
    WithoutAbsent(c, key);
    var full := [Pair(key, value)] + c;
    KeysOfPush(c, Pair(key, value));
    assert Keys(Take(cap, full)) == Take(cap, Keys(full));
  }

  lemma PutRanked(cap: nat, c: seq<Pair>, touches: seq<string>, key: string, value: ResultEntry)
    requires 1 <= cap && DistinctKeys(c) && Ranked(cap, Keys(c), touches)
    ensures Ranked(cap, Keys(PutPair(cap, c, key, value)), touches + [key])
  {
    if i :| 0 <= i < |c| && c[i].key == key {
      PutHit(cap, c, i, value);
      TouchHit(cap, Keys(c), touches, i);
    } else {
      PutMiss(cap, c, key, value);
      TouchMiss(cap, Keys(c), touches, key);
    }
  }

  lemma PutMembers(cap: nat, c: seq<Pair>, key: string, value: ResultEntry, p: Pair)
    requires |c| <= cap && DistinctKeys(c) && p in PutPair(cap, c, key, value)
    ensures p == Pair(key, value) || (p.key != key && p in c)
  {
    if i :| 0 <= i < |c| && c[i].key == key {
      PutHit(cap, c, i, value);
    } else {
      PutMiss(cap, c, key, value);
    }
  }

  lemma {:induction false} FindIn(c: seq<Pair>, key: string)
    ensures Find(c, key).None? <==> key !in Keys(c)
    ensures Find(c, key).Some? ==> Pair(key, Find(c, key).value) in c
  {
    if c != [] {
      FindIn(c[1..], key);
      assert Keys(c) == [c[0].key] + Keys(c[1..]);
    }
  }

  /** A hit re-puts what is there. */
  lemma GetIsPut(cap: nat, c: seq<Pair>, key: string)
    requires |c| <= cap && DistinctKeys(c) && Find(c, key).Some?
    ensures GetPair(c, key) == PutPair(cap, c, key, Find(c, key).value)
  {
    FindIn(c, key);
    var i :| 0 <= i < |c| && c[i] == Pair(key, Find(c, key).value);
    PutHit(cap, c, i, c[i].value);
    WithoutAt(c, i);
  }

  lemma {:induction false} CacheIsRanked(cap: nat, ops: seq<Op>)
    requires 1 <= cap
    ensures Ranked(cap, Keys(Cache(cap, ops)), Touches(cap, ops)) && DistinctKeys(Cache(cap, ops))
  {
    if ops != [] {
      var n := |ops| - 1;
      var c, op := Cache(cap, ops[..n]), ops[n];
      CacheIsRanked(cap, ops[..n]);
      if op.Put? {
        PutRanked(cap, c, Touches(cap, ops[..n]), op.key, op.value);
      } else if Find(c, op.key).Some? {
        GetIsPut(cap, c, op.key);
        PutRanked(cap, c, Touches(cap, ops[..n]), op.key, Find(c, op.key).value);
      }
      RankedDistinct(cap, Cache(cap, ops), Touches(cap, ops));
    }
  }

  lemma {:induction false} CacheHoldsLastPut(cap: nat, ops: seq<Op>, p: Pair)
    requires 1 <= cap && p in Cache(cap, ops)
    ensures LastPut(ops, p.key) == Some(p.value)
  {
    if ops != [] {
      var n := |ops| - 1;
      var c, op := Cache(cap, ops[..n]), ops[n];
      CacheIsRanked(cap, ops[..n]);
      if op.Put? {
        PutMembers(cap, c, op.key, op.value, p);
      } else if Find(c, op.key).Some? {
        GetIsPut(cap, c, op.key);
        PutMembers(cap, c, op.key, Find(c, op.key).value, p);
        FindIn(c, op.key);
      }
      if p in c {
        CacheHoldsLastPut(cap, ops[..n], p);
      }
    }
  }

  lemma RankedDistinct(cap: nat, c: seq<Pair>, touches: seq<string>)
    requires Ranked(cap, Keys(c), touches)
    ensures DistinctKeys(c)
  {
    forall i, j | 0 <= i < j < |c|
      ensures c[i].key != c[j].key
    {
      assert Keys(c)[i] != Keys(c)[j];
    }
  }

  /**
   Stack distance: a key is cached exactly when it was touched and fewer than
   `cap` other keys were touched since; then it sits at that rank, with the
   value last put.
   */
  lemma CachedIffRecent(cap: nat, ops: seq<Op>, key: string)
    requires 1 <= cap
    ensures Find(Cache(cap, ops), key).Some? <==>
            key in Touches(cap, ops) && |Since(Touches(cap, ops), key)| < cap
    ensures Find(Cache(cap, ops), key).Some? ==>
              && LastPut(ops, key) == Find(Cache(cap, ops), key)
              && |Since(Touches(cap, ops), key)| < |Cache(cap, ops)|
              && Cache(cap, ops)[|Since(Touches(cap, ops), key)|].key == key
  {
    var c, touches := Cache(cap, ops), Touches(cap, ops);
    CacheIsRanked(cap, ops);
    FindIn(c, key);
    if Find(c, key).Some? {
      CacheHoldsLastPut(cap, ops, Pair(key, Find(c, key).value));
      var i :| 0 <= i < |c| && c[i] == Pair(key, Find(c, key).value);
      KeySetSize(Keys(c)[..i]);
      assert Keys(c)[i] == key;
    }
  }
}
