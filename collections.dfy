/** The array and Map idioms the engine is built from: `filter`, `slice(0, n)`,
    a stable `sort` by a descending key, `reduce` sums, and the insertion-ordered
    `Map` that groups items by a key (`if (!m.has(k)) m.set(k, []); m.get(k).push(x)`). */
module Collections {
  import opened Wrappers

  /** `xs.filter(p)`. */
  function Filter<T>(xs: seq<T>, p: T -> bool): (r: seq<T>)
    ensures |r| <= |xs|
    ensures forall y :: y in r ==> y in xs && p(y)
    ensures forall x :: x in xs && p(x) ==> x in r
    ensures forall k :: 0 <= k < |r| ==> r[k] in xs && p(r[k])
  {
    if xs == [] then []
    else
      var r := Filter(xs[..|xs| - 1], p);
      var x := xs[|xs| - 1];
      assert forall y :: y in xs ==> y in xs[..|xs| - 1] || y == x;
      if p(x) then r + [x] else r
  }

  /** Filtering keeps the values of `f` pairwise distinct. */
  lemma {:induction false} FilterDistinct<T, U>(xs: seq<T>, p: T -> bool, f: T -> U)
    requires forall i, j :: 0 <= i < j < |xs| ==> f(xs[i]) != f(xs[j])
    ensures forall i, j :: 0 <= i < j < |Filter(xs, p)| ==> f(Filter(xs, p)[i]) != f(Filter(xs, p)[j])
  {
    if xs != [] {
      var init := xs[..|xs| - 1];
      var x := xs[|xs| - 1];
      FilterDistinct(init, p, f);
      forall y | y in Filter(init, p) ensures f(y) != f(x) {
        var k :| 0 <= k < |init| && init[k] == y;
      }
    }
  }

  /** `xs.slice(0, n)`. */
  function Take<T>(xs: seq<T>, n: nat): (r: seq<T>)
    ensures |r| == if n < |xs| then n else |xs|
    ensures r == xs[..|r|]
  {
    if n < |xs| then xs[..n] else xs
  }

  /** `xs.some(hit)` where looking at an item throws unless `ok` holds of it: `Some(true)`
      at the first hit, `None` when an item reached before any hit throws. */
  function SomeOrThrow<T>(xs: seq<T>, ok: T -> bool, hit: T -> bool): Option<bool> {
    if xs == [] then Some(false)
    else if !ok(xs[0]) then None
    else if hit(xs[0]) then Some(true)
    else SomeOrThrow(xs[1..], ok, hit)
  }

  /** The first `k` items were looked at without a throw and none was a hit. */
  ghost predicate CleanPrefix<T>(xs: seq<T>, ok: T -> bool, hit: T -> bool, k: nat)
    requires k <= |xs|
  {
    forall j :: 0 <= j < k ==> ok(xs[j]) && !hit(xs[j])
  }

  /** `some` answers `false` exactly when no item throws and none is a hit. */
  lemma {:induction false} SomeOrThrowFalse<T>(xs: seq<T>, ok: T -> bool, hit: T -> bool)
    ensures SomeOrThrow(xs, ok, hit) == Some(false) <==> CleanPrefix(xs, ok, hit, |xs|)
  {
    if xs != [] && ok(xs[0]) && !hit(xs[0]) {
      SomeOrThrowFalse(xs[1..], ok, hit);
      assert forall j :: 0 < j < |xs| ==> xs[j] == xs[1..][j - 1];
    }
  }

  /** `some` throws exactly when some item throws before any hit is met. */
  lemma {:induction false} SomeOrThrowNone<T>(xs: seq<T>, ok: T -> bool, hit: T -> bool)
    ensures SomeOrThrow(xs, ok, hit).None? <==>
      exists k :: 0 <= k < |xs| && !ok(xs[k]) && CleanPrefix(xs, ok, hit, k)
  {
    if xs != [] {
      var rest := xs[1..];
      if !ok(xs[0]) {
        assert CleanPrefix(xs, ok, hit, 0);
      } else if hit(xs[0]) {
        forall k | 0 < k < |xs| ensures !CleanPrefix(xs, ok, hit, k) {
          assert !(ok(xs[0]) && !hit(xs[0]));
        }
      } else {
        SomeOrThrowNone(rest, ok, hit);
        forall k | 0 < k <= |xs|
          ensures CleanPrefix(xs, ok, hit, k) <==> CleanPrefix(rest, ok, hit, k - 1)
        {
          assert forall j :: 0 < j < k ==> xs[j] == rest[j - 1];
        }
        if SomeOrThrow(xs, ok, hit).None? {
          var k :| 0 <= k < |rest| && !ok(rest[k]) && CleanPrefix(rest, ok, hit, k);
          assert xs[k + 1] == rest[k];
        }
        forall k | 0 <= k < |xs| && !ok(xs[k]) && CleanPrefix(xs, ok, hit, k)
          ensures SomeOrThrow(xs, ok, hit).None?
        {
          assert rest[k - 1] == xs[k];
        }
      }
    }
  }

  /** `xs.reduce((s, x) => s + f(x), 0)`. */
  function Sum<T>(xs: seq<T>, f: T -> int): int {
    if xs == [] then 0 else Sum(xs[..|xs| - 1], f) + f(xs[|xs| - 1])
  }

  /** `xs.map(f)`. */
  function Map<T, U>(xs: seq<T>, f: T -> U): (r: seq<U>)
    ensures |r| == |xs|
    ensures forall i :: 0 <= i < |xs| ==> r[i] == f(xs[i])
  {
    if xs == [] then [] else Map(xs[..|xs| - 1], f) + [f(xs[|xs| - 1])]
  }

  /** `xs.forEach(x => { const y = f(x); if (y) out.push(y); })`: the results `f` produces,
      in order. */
  function FilterMap<T, U>(xs: seq<T>, f: T -> Option<U>): seq<U> {
    if xs == [] then []
    else
      var rest := FilterMap(xs[..|xs| - 1], f);
      match f(xs[|xs| - 1])
      case Some(y) => rest + [y]
      case None => rest
  }

  lemma PrefixSnoc<T>(xs: seq<T>, j: nat)
    requires j < |xs|
    ensures xs[..j + 1] == xs[..j] + [xs[j]]
  {
  }

  lemma AppendAssoc<T>(a: seq<T>, b: seq<T>, c: seq<T>, t: seq<T>)
    requires a + (b + c) == t
    ensures (a + b) + c == t
  {
    assert (a + b) + c == a + (b + c);
  }

  lemma FilterSnoc<T>(xs: seq<T>, x: T, p: T -> bool)
    ensures Filter(xs + [x], p) == Filter(xs, p) + (if p(x) then [x] else [])
  {
    assert (xs + [x])[..|xs|] == xs;
  }

  lemma FilterMapSnoc<T, U>(xs: seq<T>, x: T, f: T -> Option<U>)
    ensures FilterMap(xs + [x], f) == FilterMap(xs, f) + (if f(x).Some? then [f(x).value] else [])
  {
    assert (xs + [x])[..|xs|] == xs;
  }

  /** Mapping first does not change what a filter keeps when `f` leaves every kept element
      as it is and never moves an element across the filter. */
  lemma {:induction false} FilterAfterMap<T>(xs: seq<T>, f: T -> T, p: T -> bool)
    requires forall x :: x in xs ==> (p(f(x)) <==> p(x)) && (p(x) ==> f(x) == x)
    ensures Filter(Map(xs, f), p) == Filter(xs, p)
  {
    if xs != [] {
      var init := xs[..|xs| - 1];
      assert forall x :: x in init ==> x in xs;
      var last := xs[|xs| - 1];
      assert last in xs;
      FilterAfterMap(init, f, p);
      var m := Map(xs, f);
      assert m[..|m| - 1] == Map(init, f);
      assert Filter(m, p) == if p(f(last)) then Filter(Map(init, f), p) + [f(last)] else Filter(Map(init, f), p);
    }
  }

  lemma {:induction false} SumAppend<T>(a: seq<T>, b: seq<T>, f: T -> int)
    ensures Sum(a + b, f) == Sum(a, f) + Sum(b, f)
  {
    if b == [] {
      assert a + b == a;
    } else {
      SumAppend(a, b[..|b| - 1], f);
      assert (a + b)[..|a + b| - 1] == a + b[..|b| - 1];
    }
  }

  lemma SumCons<T>(x: T, xs: seq<T>, f: T -> int)
    ensures Sum([x] + xs, f) == f(x) + Sum(xs, f)
  {
    SumAppend([x], xs, f);
    assert [x][..0] == [];
  }

  /** Taking one term out of a sum. */
  lemma SumRemove<T>(b: seq<T>, i: nat, f: T -> int)
    requires i < |b|
    ensures Sum(b, f) == Sum(b[..i] + b[i + 1..], f) + f(b[i])
  {
    assert b == b[..i] + ([b[i]] + b[i + 1..]);
    SumAppend(b[..i], b[i + 1..], f);
    SumAppend(b[..i], [b[i]] + b[i + 1..], f);
    SumCons(b[i], b[i + 1..], f);
  }

  lemma MultisetRemove<T>(b: seq<T>, i: nat)
    requires i < |b|
    ensures multiset(b[..i] + b[i + 1..]) == multiset(b) - multiset{b[i]}
  {
    assert b == b[..i] + [b[i]] + b[i + 1..];
  }

  /** The order of the terms does not change a sum. */
  lemma {:induction false} SumPerm<T>(a: seq<T>, b: seq<T>, f: T -> int)
    requires multiset(a) == multiset(b)
    ensures Sum(a, f) == Sum(b, f)
  {
    if a == [] {
      assert |b| == |multiset(b)| == 0;
    } else {
      var x := a[|a| - 1];
      MultisetRemove(a, |a| - 1);
      assert x in multiset(b);
      var i :| 0 <= i < |b| && b[i] == x;
      MultisetRemove(b, i);
      assert a[..|a| - 1] + a[|a|..] == a[..|a| - 1];
      SumPerm(a[..|a| - 1], b[..i] + b[i + 1..], f);
      SumRemove(b, i, f);
    }
  }

  /** Every result comes from some element. */
  lemma {:induction false} FilterMapSource<T, U>(xs: seq<T>, f: T -> Option<U>, y: U)
    requires y in FilterMap(xs, f)
    ensures exists k :: 0 <= k < |xs| && f(xs[k]) == Some(y)
  {
    var init := xs[..|xs| - 1];
    if y in FilterMap(init, f) {
      FilterMapSource(init, f, y);
      var k :| 0 <= k < |init| && f(init[k]) == Some(y);
      assert xs[k] == init[k];
    }
  }

  /** Every element the function keeps contributes its result. */
  lemma {:induction false} FilterMapComplete<T, U>(xs: seq<T>, f: T -> Option<U>, k: nat)
    requires k < |xs| && f(xs[k]).Some?
    ensures f(xs[k]).value in FilterMap(xs, f)
  {
    if k < |xs| - 1 {
      FilterMapComplete(xs[..|xs| - 1], f, k);
    }
  }

  // ---------------------------------------------------------------------------
  // Stable sort by a key, largest first: `xs.sort((a, b) => m(b) - m(a))`.

  ghost predicate SortedDesc<T>(s: seq<T>, m: T -> real) {
    forall i, j :: 0 <= i < j < |s| ==> m(s[i]) >= m(s[j])
  }

  /** Places `x` in front of the first element that ranks no higher than it. */
  function InsertDesc<T(==)>(x: T, s: seq<T>, m: T -> real): (r: seq<T>)
    ensures multiset(r) == multiset(s) + multiset{x}
    ensures |r| == |s| + 1
    ensures r[0] == x || (s != [] && r[0] == s[0])
  {
    if s == [] then [x]
    else if m(x) >= m(s[0]) then [x] + s
    else
      var t := InsertDesc(x, s[1..], m);
      assert s == [s[0]] + s[1..];
      [s[0]] + t
  }

  /** Inserting into a sorted sequence keeps it sorted. */
  lemma {:induction false} InsertDescSorted<T>(x: T, s: seq<T>, m: T -> real)
    requires SortedDesc(s, m)
    ensures SortedDesc(InsertDesc(x, s, m), m)
  {
    if s != [] && m(x) < m(s[0]) {
      var t := InsertDesc(x, s[1..], m);
      InsertDescSorted(x, s[1..], m);
      assert m(t[0]) <= m(s[0]);
      forall k | 0 <= k < |t| ensures m(t[k]) <= m(s[0]) {
        assert m(t[k]) <= m(t[0]);
      }
    }
  }

  /** Insertion sort; equal keys keep their input order, as `Array.prototype.sort` does. */
  function SortDesc<T(==)>(xs: seq<T>, m: T -> real): (r: seq<T>)
    ensures multiset(r) == multiset(xs)
    ensures |r| == |xs|
    ensures SortedDesc(r, m)
  {
    if xs == [] then []
    else
      assert xs == [xs[0]] + xs[1..];
      InsertDescSorted(xs[0], SortDesc(xs[1..], m), m);
      InsertDesc(xs[0], SortDesc(xs[1..], m), m)
  }

  lemma SortedDescTake<T>(s: seq<T>, m: T -> real, n: nat)
    requires SortedDesc(s, m)
    ensures SortedDesc(Take(s, n), m)
  {
  }

  // ---------------------------------------------------------------------------
  // Insertion-ordered grouping, the semantics of a JavaScript `Map` filled by pushes.

  datatype Bucket<K, V> = Bucket(key: K, items: seq<V>)

  /** The distinct keys, in the order of their first occurrence (a `Map`'s key order). */
  function KeysInOrder<K(==), V>(xs: seq<V>, key: V -> K): (ks: seq<K>)
    ensures forall i, j :: 0 <= i < j < |ks| ==> ks[i] != ks[j]
    ensures forall i :: 0 <= i < |xs| ==> key(xs[i]) in ks
  {
    if xs == [] then []
    else
      var ks := KeysInOrder(xs[..|xs| - 1], key);
      var k := key(xs[|xs| - 1]);
      assert forall i :: 0 <= i < |xs| - 1 ==> xs[..|xs| - 1][i] == xs[i];
      if k in ks then ks else ks + [k]
  }

  /** Every key is the key of some item. */
  lemma {:induction false} KeysInOrderSound<K, V>(xs: seq<V>, key: V -> K, k: K)
    requires k in KeysInOrder(xs, key)
    ensures exists i :: 0 <= i < |xs| && key(xs[i]) == k
  {
    var init := xs[..|xs| - 1];
    if k in KeysInOrder(init, key) {
      KeysInOrderSound(init, key, k);
      var i :| 0 <= i < |init| && key(init[i]) == k;
      assert xs[i] == init[i];
    } else {
      assert key(xs[|xs| - 1]) == k;
    }
  }

  /** There are no more keys than items. */
  lemma {:induction false} KeysInOrderBound<K, V>(xs: seq<V>, key: V -> K)
    ensures |KeysInOrder(xs, key)| <= |xs|
  {
    if xs != [] {
      KeysInOrderBound(xs[..|xs| - 1], key);
    }
  }

  /** The items filed under `k`, in input order. */
  function ItemsWithKey<K(==), V>(xs: seq<V>, key: V -> K, k: K): (r: seq<V>)
    ensures |r| <= |xs|
    ensures forall y :: y in r ==> y in xs && key(y) == k
  {
    if xs == [] then []
    else
      var r := ItemsWithKey(xs[..|xs| - 1], key, k);
      var x := xs[|xs| - 1];
      if key(x) == k then r + [x] else r
  }

  /** `Array.from(map.entries())` after every item was pushed under its key. */
  function GroupBy<K(==), V>(xs: seq<V>, key: V -> K): (r: seq<Bucket<K, V>>)
    ensures |r| == |KeysInOrder(xs, key)|
    ensures forall i :: 0 <= i < |r| ==>
      r[i] == Bucket(KeysInOrder(xs, key)[i], ItemsWithKey(xs, key, KeysInOrder(xs, key)[i]))
  {
    var ks := KeysInOrder(xs, key);
    seq(|ks|, i requires 0 <= i < |ks| => Bucket(ks[i], ItemsWithKey(xs, key, ks[i])))
  }

  lemma KeysInOrderAppend<K, V>(xs: seq<V>, key: V -> K, x: V)
    ensures KeysInOrder(xs + [x], key)
         == var ks := KeysInOrder(xs, key); if key(x) in ks then ks else ks + [key(x)]
    ensures forall k :: ItemsWithKey(xs + [x], key, k)
                     == ItemsWithKey(xs, key, k) + (if key(x) == k then [x] else [])
  {
    assert (xs + [x])[..|xs|] == xs;
  }

  /** A key has items exactly when it is one of the keys. */
  lemma {:induction false} ItemsWithKeyEmpty<K, V>(xs: seq<V>, key: V -> K, k: K)
    ensures ItemsWithKey(xs, key, k) == [] <==> k !in KeysInOrder(xs, key)
  {
    if xs != [] {
      ItemsWithKeyEmpty(xs[..|xs| - 1], key, k);
    }
  }

  /** No bucket is empty, the keys are distinct, and every item sits in its key's bucket. */
  lemma GroupByShape<K, V>(xs: seq<V>, key: V -> K)
    ensures forall i :: 0 <= i < |GroupBy(xs, key)| ==> GroupBy(xs, key)[i].items != []
    ensures forall i, j :: 0 <= i < j < |GroupBy(xs, key)| ==>
              GroupBy(xs, key)[i].key != GroupBy(xs, key)[j].key
    ensures forall i :: 0 <= i < |GroupBy(xs, key)| ==>
              forall y :: y in GroupBy(xs, key)[i].items ==> y in xs && key(y) == GroupBy(xs, key)[i].key
    ensures forall x :: x in xs ==>
              (exists i :: 0 <= i < |GroupBy(xs, key)| &&
                 GroupBy(xs, key)[i].key == key(x) && x in GroupBy(xs, key)[i].items)
  {
    var ks := KeysInOrder(xs, key);
    var g := GroupBy(xs, key);
    forall i | 0 <= i < |g| ensures g[i].items != [] {
      ItemsWithKeyEmpty(xs, key, ks[i]);
    }
    forall x | x in xs
      ensures exists i :: 0 <= i < |g| && g[i].key == key(x) && x in g[i].items
    {
      var n :| 0 <= n < |xs| && xs[n] == x;
      assert key(xs[n]) in ks;
      var i :| 0 <= i < |ks| && ks[i] == key(x);
      ItemsWithKeyMember(xs, key, n);
      assert g[i].key == key(x) && x in g[i].items;
    }
  }

  lemma {:induction false} ItemsWithKeyMember<K, V>(xs: seq<V>, key: V -> K, n: nat)
    requires n < |xs|
    ensures xs[n] in ItemsWithKey(xs, key, key(xs[n]))
  {
    if n < |xs| - 1 {
      ItemsWithKeyMember(xs[..|xs| - 1], key, n);
    }
  }

  /** A bucket holds exactly the items with its key, and its key occurs. */
  lemma GroupByBucket<K, V>(xs: seq<V>, key: V -> K, b: Bucket<K, V>)
    requires b in GroupBy(xs, key)
    ensures b.items == ItemsWithKey(xs, key, b.key)
    ensures exists i :: 0 <= i < |xs| && key(xs[i]) == b.key
  {
    var ks := KeysInOrder(xs, key);
    var g := GroupBy(xs, key);
    var i :| 0 <= i < |g| && g[i] == b;
    KeysInOrderSound(xs, key, ks[i]);
  }

  /** The item that introduces a key heads that key's bucket. */
  lemma {:induction false} FirstWithKey<K, V>(xs: seq<V>, key: V -> K, n: nat)
    requires n < |xs|
    requires forall j :: 0 <= j < n ==> key(xs[j]) != key(xs[n])
    ensures ItemsWithKey(xs, key, key(xs[n])) != []
    ensures ItemsWithKey(xs, key, key(xs[n]))[0] == xs[n]
  {
    var init := xs[..|xs| - 1];
    if n < |xs| - 1 {
      assert init[n] == xs[n];
      FirstWithKey(init, key, n);
    } else {
      NoItemsWithKey(init, key, key(xs[n]));
    }
  }

  /** A key no item carries files nothing. */
  lemma {:induction false} NoItemsWithKey<K, V>(xs: seq<V>, key: V -> K, k: K)
    requires forall y :: y in xs ==> key(y) != k
    ensures ItemsWithKey(xs, key, k) == []
  {
    if xs != [] {
      assert xs[|xs| - 1] in xs;
      NoItemsWithKey(xs[..|xs| - 1], key, k);
    }
  }

  /** Every key that occurs has its bucket. */
  lemma GroupByKey<K, V>(xs: seq<V>, key: V -> K, n: nat)
    requires n < |xs|
    ensures Bucket(key(xs[n]), ItemsWithKey(xs, key, key(xs[n]))) in GroupBy(xs, key)
  {
    var ks := KeysInOrder(xs, key);
    var i :| 0 <= i < |ks| && ks[i] == key(xs[n]);
    assert GroupBy(xs, key)[i] == Bucket(ks[i], ItemsWithKey(xs, key, ks[i]));
  }

  /** Sorting keeps exactly the elements it was given. */
  lemma SortDescMembers<T>(xs: seq<T>, m: T -> real)
    ensures forall x :: x in SortDesc(xs, m) <==> x in xs
  {
    var r := SortDesc(xs, m);
    forall x ensures x in r <==> x in xs {
      assert x in r <==> x in multiset(r);
      assert x in xs <==> x in multiset(xs);
    }
  }

  /** Sorting and cutting to `n` selects the best: every element left out ranks no higher
      than any element returned, and is left out only when `n` elements were returned;
      when there are at most `n` elements, all of them are returned. */
  lemma TopSelection<T>(xs: seq<T>, m: T -> real, n: nat)
    ensures var top := Take(SortDesc(xs, m), n);
      && (|xs| <= n ==> forall x :: x in xs ==> x in top)
      && forall x :: x in xs && x !in top ==>
           |top| == n && forall t :: t in top ==> m(t) >= m(x)
  {
    var sorted := SortDesc(xs, m);
    var top := Take(sorted, n);
    SortDescMembers(xs, m);
    forall x | x in xs && x !in top
      ensures |top| == n && forall t :: t in top ==> m(t) >= m(x)
    {
      var j :| 0 <= j < |sorted| && sorted[j] == x;
      assert j >= |top|;
      forall t | t in top ensures m(t) >= m(x) {
        var i :| 0 <= i < |top| && top[i] == t;
        assert sorted[i] == t;
      }
    }
  }

  /** The buckets kept by `keep`, sorted by `m` and cut to `n`: at most `n`, sorted, each a
      bucket of the grouping that `keep` accepts and whose items all carry its key; a kept
      bucket is left out only when `n` were returned, each ranking at least as high as it. */
  lemma TopBuckets<K, V>(xs: seq<V>, key: V -> K, keep: Bucket<K, V> -> bool, m: Bucket<K, V> -> real, n: nat)
    ensures var top := Take(SortDesc(Filter(GroupBy(xs, key), keep), m), n);
      && |top| <= n
      && SortedDesc(top, m)
      && (forall b :: b in top ==>
           && b in GroupBy(xs, key) && keep(b)
           && b.items == ItemsWithKey(xs, key, b.key)
           && forall y :: y in b.items ==> y in xs && key(y) == b.key)
      && forall b :: b in GroupBy(xs, key) && keep(b) && b !in top ==>
           |top| == n && forall t :: t in top ==> m(t) >= m(b)
  {
    TopSelection(Filter(GroupBy(xs, key), keep), m, n);
    var kept := Filter(GroupBy(xs, key), keep);
    var sorted := SortDesc(kept, m);
    var top := Take(sorted, n);
    SortDescMembers(kept, m);
    SortedDescTake(sorted, m, n);
    forall b | b in top
      ensures keep(b) && b.items == ItemsWithKey(xs, key, b.key)
    {
      assert b in sorted;
      GroupByBucket(xs, key, b);
    }
  }

  /** The state of `Map` building after the items `xs`: `order` is the map's key order and
      `m` holds each key's items. */
  ghost predicate GroupState<K(!new), V>(xs: seq<V>, key: V -> K, order: seq<K>, m: map<K, seq<V>>) {
    && order == KeysInOrder(xs, key)
    && (forall k :: k in m <==> k in order)
    && (forall k :: k in m ==> m[k] == ItemsWithKey(xs, key, k))
  }

  /** Pushing one more item keeps the state. */
  lemma GroupStateStep<K(!new), V>(xs: seq<V>, key: V -> K, x: V, order: seq<K>, m: map<K, seq<V>>,
                                 order': seq<K>, m': map<K, seq<V>>)
    requires GroupState(xs, key, order, m)
    requires order' == if key(x) in m then order else order + [key(x)]
    requires m' == m[key(x) := (if key(x) in m then m[key(x)] else []) + [x]]
    ensures GroupState(xs + [x], key, order', m')
  {
    KeysInOrderAppend(xs, key, x);
    if key(x) !in m {
      ItemsWithKeyEmpty(xs, key, key(x));
    }
  }

  /** The finished state lists the buckets of `GroupBy`. */
  lemma GroupStateResult<K(!new), V>(xs: seq<V>, key: V -> K, order: seq<K>, m: map<K, seq<V>>,
                                   r: seq<Bucket<K, V>>)
    requires GroupState(xs, key, order, m)
    requires |r| == |order| && forall j :: 0 <= j < |r| ==> r[j] == Bucket(order[j], m[order[j]])
    ensures r == GroupBy(xs, key)
  {
  }

  /** `if (!m.has(k)) m.set(k, []); m.get(k).push(x)` for the key `k` of `x`. */
  method PushInto<K(==,!new), V>(ghost xs: seq<V>, key: V -> K, k: K, x: V, order: seq<K>, m: map<K, seq<V>>)
    returns (order': seq<K>, m': map<K, seq<V>>)
    requires k == key(x)
    requires GroupState(xs, key, order, m)
    ensures GroupState(xs + [x], key, order', m')
  {
    var items := if k in m then m[k] else [];
    order' := if k in m then order else order + [k];
    m' := m[k := items + [x]];
    GroupStateStep(xs, key, x, order, m, order', m');
  }

  /** The entries of the finished map, in key order. */
  method Entries<K(==,!new), V>(ghost xs: seq<V>, key: V -> K, order: seq<K>, m: map<K, seq<V>>)
    returns (r: seq<Bucket<K, V>>)
    requires GroupState(xs, key, order, m)
    ensures r == GroupBy(xs, key)
  {
    r := seq(|order|, j requires 0 <= j < |order| => Bucket(order[j], m[order[j]]));
    GroupStateResult(xs, key, order, m, r);
  }

  /** `Map` building, as the source does it: look the key up, create its entry on first
      sight, push the item. */
  method GroupInto<K(==,!new), V>(xs: seq<V>, key: V -> K) returns (r: seq<Bucket<K, V>>)
    ensures r == GroupBy(xs, key)
  {
    var order: seq<K> := [];
    var m: map<K, seq<V>> := map[];
    for i := 0 to |xs|
      invariant GroupState(xs[..i], key, order, m)
    {
      order, m := PushInto(xs[..i], key, key(xs[i]), xs[i], order, m);
      assert xs[..i + 1] == xs[..i] + [xs[i]];
    }
    assert xs[..|xs|] == xs;
    r := Entries(xs, key, order, m);
  }

  // ---------------------------------------------------------------------------
  // Sums over a grouping equal the sum over the items.

  function SumBuckets<K, V>(bs: seq<Bucket<K, V>>, f: V -> int): int {
    if bs == [] then 0 else Sum(bs[0].items, f) + SumBuckets(bs[1..], f)
  }

  function SumOverKeys<K(==), V>(xs: seq<V>, key: V -> K, ks: seq<K>, f: V -> int): int {
    if ks == [] then 0 else Sum(ItemsWithKey(xs, key, ks[0]), f) + SumOverKeys(xs, key, ks[1..], f)
  }

  lemma {:induction false} SumOverKeysAppend<K, V>(xs: seq<V>, key: V -> K, x: V, ks: seq<K>, f: V -> int)
    requires forall i, j :: 0 <= i < j < |ks| ==> ks[i] != ks[j]
    ensures SumOverKeys(xs + [x], key, ks, f)
         == SumOverKeys(xs, key, ks, f) + (if key(x) in ks then f(x) else 0)
  {
    KeysInOrderAppend(xs, key, x);
    if ks != [] {
      SumOverKeysAppend(xs, key, x, ks[1..], f);
      var items := ItemsWithKey(xs, key, ks[0]);
      if key(x) == ks[0] {
        assert (items + [x])[..|items|] == items;
        assert key(x) !in ks[1..];
      } else {
        assert key(x) in ks <==> key(x) in ks[1..];
      }
    }
  }

  lemma {:induction false} SumOverKeysAll<K, V>(xs: seq<V>, key: V -> K, ks: seq<K>, f: V -> int)
    requires forall i, j :: 0 <= i < j < |ks| ==> ks[i] != ks[j]
    requires forall i :: 0 <= i < |xs| ==> key(xs[i]) in ks
    ensures SumOverKeys(xs, key, ks, f) == Sum(xs, f)
  {
    if xs == [] {
      SumOverKeysEmpty(key, ks, f);
    } else {
      var init := xs[..|xs| - 1];
      var x := xs[|xs| - 1];
      assert forall i :: 0 <= i < |init| ==> init[i] == xs[i];
      SumOverKeysAll(init, key, ks, f);
      assert init + [x] == xs;
      SumOverKeysAppend(init, key, x, ks, f);
    }
  }

  lemma {:induction false} SumOverKeysEmpty<K, V>(key: V -> K, ks: seq<K>, f: V -> int)
    ensures SumOverKeys([], key, ks, f) == 0
  {
    if ks != [] {
      SumOverKeysEmpty(key, ks[1..], f);
    }
  }

  lemma {:induction false} SumBucketsOverKeys<K, V>(xs: seq<V>, key: V -> K, ks: seq<K>, bs: seq<Bucket<K, V>>, f: V -> int)
    requires |bs| == |ks|
    requires forall i :: 0 <= i < |ks| ==> bs[i] == Bucket(ks[i], ItemsWithKey(xs, key, ks[i]))
    ensures SumBuckets(bs, f) == SumOverKeys(xs, key, ks, f)
  {
    if ks != [] {
      SumBucketsOverKeys(xs, key, ks[1..], bs[1..], f);
    }
  }

  /** Summing one value per key, each the sum of that key's items, is summing over the keys. */
  lemma {:induction false} SumMapOverKeys<K, V, W>(xs: seq<V>, key: V -> K, ks: seq<K>, g: K -> W, h: W -> int, f: V -> int)
    requires forall k :: k in ks ==> h(g(k)) == Sum(ItemsWithKey(xs, key, k), f)
    ensures Sum(Map(ks, g), h) == SumOverKeys(xs, key, ks, f)
  {
    if ks != [] {
      assert Map(ks, g) == [g(ks[0])] + Map(ks[1..], g);
      SumCons(g(ks[0]), Map(ks[1..], g), h);
      SumMapOverKeys(xs, key, ks[1..], g, h, f);
    }
  }

  /** Summing one value per bucket, each the sum of that bucket's items, is summing over
      the buckets. */
  lemma {:induction false} SumMapBuckets<K, V, W>(bs: seq<Bucket<K, V>>, g: Bucket<K, V> -> W, h: W -> int, f: V -> int)
    requires forall b :: b in bs ==> h(g(b)) == Sum(b.items, f)
    ensures Sum(Map(bs, g), h) == SumBuckets(bs, f)
  {
    if bs != [] {
      assert Map(bs, g) == [g(bs[0])] + Map(bs[1..], g);
      SumCons(g(bs[0]), Map(bs[1..], g), h);
      SumMapBuckets(bs[1..], g, h, f);
    }
  }

  /** A sum of ones counts. */
  lemma {:induction false} SumOnes<T>(xs: seq<T>, f: T -> int)
    requires forall x :: x in xs ==> f(x) == 1
    ensures Sum(xs, f) == |xs|
  {
    if xs != [] {
      assert forall x :: x in xs[..|xs| - 1] ==> x in xs;
      SumOnes(xs[..|xs| - 1], f);
    }
  }

  /** An element occurs at most once in a sequence without repetitions. */
  lemma {:induction false} DistinctCount<T>(a: seq<T>, x: T)
    requires forall i, j :: 0 <= i < j < |a| ==> a[i] != a[j]
    ensures multiset(a)[x] <= 1
  {
    if a != [] {
      var init := a[..|a| - 1];
      assert a == init + [a[|a| - 1]];
      DistinctCount(init, x);
      if x == a[|a| - 1] {
        assert x !in init;
      }
    }
  }

  /** Reordering a sequence without repetitions gives one without repetitions. */
  lemma DistinctPerm<T>(a: seq<T>, b: seq<T>)
    requires multiset(a) == multiset(b)
    requires forall i, j :: 0 <= i < j < |a| ==> a[i] != a[j]
    ensures forall i, j :: 0 <= i < j < |b| ==> b[i] != b[j]
  {
    forall i, j | 0 <= i < j < |b| ensures b[i] != b[j] {
      if b[i] == b[j] {
        assert b == b[..i] + [b[i]] + b[i + 1..j] + [b[j]] + b[j + 1..];
        assert multiset(b)[b[i]] >= 2;
        DistinctCount(a, b[i]);
      }
    }
  }

  /** Grouping loses and duplicates nothing: the bucket sums add up to the total. */
  lemma GroupBySum<K, V>(xs: seq<V>, key: V -> K, f: V -> int)
    ensures SumBuckets(GroupBy(xs, key), f) == Sum(xs, f)
  {
    var ks := KeysInOrder(xs, key);
    SumBucketsOverKeys(xs, key, ks, GroupBy(xs, key), f);
    SumOverKeysAll(xs, key, ks, f);
  }
}
