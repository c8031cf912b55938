/**
  * The JavaScript array and `Map` idioms the content layer is built from:
  * `filter`, `find`, the stable `sort` with a "descending by key" comparator,
  * `new Map(xs.map(x => [key(x), x]))`, and the "get ?? [] then push" and
  * "get ?? 0 then + 1" grouping loops. Each is a recursive function with the
  * properties the callers rely on.
  */
module Seqs {
  import opened Wrappers

  // ---------------------------------------------------------------------------
  // filter

  /** `xs.filter(p)`: the elements satisfying `p`, in their original order. */
  function Filter<T>(xs: seq<T>, p: T -> bool): (r: seq<T>)
    ensures |r| <= |xs|
    ensures forall i :: 0 <= i < |r| ==> r[i] in xs && p(r[i])
    ensures forall i :: 0 <= i < |xs| && p(xs[i]) ==> xs[i] in r
  {
    if xs == [] then []
    else
      var rest := Filter(xs[1..], p);
      assert forall i :: 0 < i < |xs| ==> xs[i] == xs[1..][i - 1];
      if p(xs[0]) then [xs[0]] + rest else rest
  }

  /** `filter` keeps every element satisfying `p` as many times as it occurs, and nothing else. */
  lemma {:induction false} FilterMultiset<T>(xs: seq<T>, p: T -> bool)
    ensures forall x :: multiset(Filter(xs, p))[x] == if p(x) then multiset(xs)[x] else 0
  {
    if xs != [] {
      FilterMultiset(xs[1..], p);
      assert xs == [xs[0]] + xs[1..];
    }
  }

  /** Filtering commutes with taking a tie class: `filter` keeps the relative order of what it keeps. */
  lemma {:induction false} FilterWithKey<T>(xs: seq<T>, p: T -> bool, key: T -> int, k: int)
    ensures WithKey(Filter(xs, p), key, k) == Filter(WithKey(xs, key, k), p)
  {
    if xs != [] {
      FilterWithKey(xs[1..], p, key, k);
      var rest := Filter(xs[1..], p);
      var h := if key(xs[0]) == k then [xs[0]] else [];
      assert WithKey(xs, key, k) == h + WithKey(xs[1..], key, k);
      FilterAppend(h, WithKey(xs[1..], key, k), p);
      if p(xs[0]) {
        assert ([xs[0]] + rest)[1..] == rest;
      }
    }
  }

  lemma {:induction false} FilterAppend<T>(xs: seq<T>, ys: seq<T>, p: T -> bool)
    ensures Filter(xs + ys, p) == Filter(xs, p) + Filter(ys, p)
  {
    if xs != [] {
      var zs := xs + ys;
      assert zs[0] == xs[0] && zs[1..] == xs[1..] + ys;
      FilterAppend(xs[1..], ys, p);
      var h := if p(xs[0]) then [xs[0]] else [];
      assert Filter(zs, p) == h + Filter(xs[1..] + ys, p);
      assert Filter(xs, p) == h + Filter(xs[1..], p);
      assert h + (Filter(xs[1..], p) + Filter(ys, p)) == (h + Filter(xs[1..], p)) + Filter(ys, p);
    } else {
      assert xs + ys == ys;
    }
  }

  /** Keeping a sub-list preserves a descending order: `filter` is order-preserving. */
  lemma {:induction false} FilterKeepsOrder<T>(xs: seq<T>, p: T -> bool, key: T -> int)
    requires NonIncreasing(xs, key)
    ensures NonIncreasing(Filter(xs, p), key)
  {
    if xs != [] {
      NonIncreasingTail(xs, key);
      FilterKeepsOrder(xs[1..], p, key);
      var rest := Filter(xs[1..], p);
      if p(xs[0]) {
        forall i | 0 <= i < |rest| ensures key(xs[0]) >= key(rest[i]) {
          var j :| 0 <= j < |xs[1..]| && xs[1..][j] == rest[i];
          assert xs[j + 1] == rest[i];
        }
        PrependNonIncreasing(xs[0], rest, key);
      }
    }
  }

  // ---------------------------------------------------------------------------
  // map

  /** `xs.map(f)` */
  function MapSeq<T, U>(xs: seq<T>, f: T -> U): (r: seq<U>)
    ensures |r| == |xs|
    ensures forall i :: 0 <= i < |xs| ==> r[i] == f(xs[i])
  {
    if xs == [] then [] else [f(xs[0])] + MapSeq(xs[1..], f)
  }

  /** `xs.map(f).filter(y => y !== null)`, with `null` written `None`. */
  function FilterMap<T, U>(xs: seq<T>, f: T -> Option<U>): (r: seq<U>)
    ensures |r| <= |xs|
  {
    if xs == [] then []
    else (if f(xs[0]).Some? then [f(xs[0]).value] else []) + FilterMap(xs[1..], f)
  }

  /** The elements `f` does not map to `null`. */
  function IsPresent<T, U>(f: T -> Option<U>): T -> bool { (x: T) => f(x).Some? }

  /**
    * Mapping then dropping the nulls keeps one entry per element `f` maps
    * to a value, in order: entry `k` is the value of the `k`-th such element.
    */
  lemma {:induction false} FilterMapSpec<T, U>(xs: seq<T>, f: T -> Option<U>)
    ensures |FilterMap(xs, f)| == |Filter(xs, IsPresent(f))|
    ensures forall k :: 0 <= k < |FilterMap(xs, f)| ==> f(Filter(xs, IsPresent(f))[k]) == Some(FilterMap(xs, f)[k])
  {
    if xs != [] {
      FilterMapSpec(xs[1..], f);
      var p := IsPresent(f);
      var kept := Filter(xs[1..], p);
      var rest := FilterMap(xs[1..], f);
      if f(xs[0]).Some? {
        assert Filter(xs, p) == [xs[0]] + kept;
        assert FilterMap(xs, f) == [f(xs[0]).value] + rest;
        forall k | 0 < k < |FilterMap(xs, f)| ensures f(Filter(xs, p)[k]) == Some(FilterMap(xs, f)[k]) {
          assert Filter(xs, p)[k] == kept[k - 1];
          assert FilterMap(xs, f)[k] == rest[k - 1];
        }
      } else {
        assert Filter(xs, p) == kept;
        assert FilterMap(xs, f) == rest;
      }
    }
  }

  // ---------------------------------------------------------------------------
  // find

  /** The index `xs.find(p)` stops at: the first element satisfying `p`, if any. */
  function FirstIndex<T>(xs: seq<T>, p: T -> bool): (r: Option<nat>)
    ensures r.Some? ==> r.value < |xs| && p(xs[r.value])
    ensures r.Some? ==> forall j :: 0 <= j < r.value ==> !p(xs[j])
    ensures r.None? <==> forall j :: 0 <= j < |xs| ==> !p(xs[j])
  {
    if xs == [] then None
    else if p(xs[0]) then Some(0)
    else
      match FirstIndex(xs[1..], p)
      case None => None
      case Some(i) => Some(i + 1)
  }

  // ---------------------------------------------------------------------------
  // stable sort, descending by an integer key

  /** Every element's key is at least the key of every later element. */
  ghost predicate NonIncreasing<T>(xs: seq<T>, key: T -> int) {
    forall i, j :: 0 <= i < j < |xs| ==> key(xs[i]) >= key(xs[j])
  }

  /** An element whose key bounds every key of a descending list may go in front of it. */
  lemma PrependNonIncreasing<T>(x: T, xs: seq<T>, key: T -> int)
    requires NonIncreasing(xs, key)
    requires forall j :: 0 <= j < |xs| ==> key(x) >= key(xs[j])
    ensures NonIncreasing([x] + xs, key)
  {
    var r := [x] + xs;
    forall i, j | 0 <= i < j < |r| ensures key(r[i]) >= key(r[j]) {
      assert r[j] == xs[j - 1];
      if i > 0 {
        assert r[i] == xs[i - 1];
      }
    }
  }

  /** A bound on every key of `ys` and on `key(x)` bounds every key of a permutation of `ys + [x]`. */
  lemma BoundByMultiset<T>(r: seq<T>, ys: seq<T>, x: T, key: T -> int, bound: int)
    requires multiset(r) == multiset(ys) + multiset{x}
    requires key(x) <= bound
    requires forall j :: 0 <= j < |ys| ==> key(ys[j]) <= bound
    ensures forall j :: 0 <= j < |r| ==> key(r[j]) <= bound
  {
    forall j | 0 <= j < |r| ensures key(r[j]) <= bound {
      assert r[j] in multiset(r);
      if r[j] != x {
        assert r[j] in multiset(ys);
        var k :| 0 <= k < |ys| && ys[k] == r[j];
      }
    }
  }

  lemma NonIncreasingTail<T>(xs: seq<T>, key: T -> int)
    requires xs != [] && NonIncreasing(xs, key)
    ensures NonIncreasing(xs[1..], key)
  {
    forall i, j | 0 <= i < j < |xs| - 1 ensures key(xs[1..][i]) >= key(xs[1..][j]) {
      assert xs[1..][i] == xs[i + 1] && xs[1..][j] == xs[j + 1];
    }
  }

  /** Inserts `x` after every element whose key is at least `key(x)`. */
  function InsertDesc<T>(x: T, xs: seq<T>, key: T -> int): (r: seq<T>)
    ensures |r| == |xs| + 1
  {
    if xs == [] then [x]
    else if key(x) > key(xs[0]) then [x] + xs
    else [xs[0]] + InsertDesc(x, xs[1..], key)
  }

  /** Insertion adds `x` and loses nothing. */
  lemma {:induction false} InsertDescPermutes<T>(x: T, xs: seq<T>, key: T -> int)
    ensures multiset(InsertDesc(x, xs, key)) == multiset(xs) + multiset{x}
  {
    if xs != [] && key(x) <= key(xs[0]) {
      InsertDescPermutes(x, xs[1..], key);
      assert xs == [xs[0]] + xs[1..];
    }
  }

  /** Insertion into a descending list keeps it descending. */
  lemma {:induction false} InsertDescSorted<T>(x: T, xs: seq<T>, key: T -> int)
    requires NonIncreasing(xs, key)
    ensures NonIncreasing(InsertDesc(x, xs, key), key)
  {
    if xs == [] {
    } else if key(x) > key(xs[0]) {
      PrependNonIncreasing(x, xs, key);
    } else {
      NonIncreasingTail(xs, key);
      var rest := InsertDesc(x, xs[1..], key);
      InsertDescSorted(x, xs[1..], key);
      InsertDescPermutes(x, xs[1..], key);
      BoundByMultiset(rest, xs[1..], x, key, key(xs[0]));
      PrependNonIncreasing(xs[0], rest, key);
    }
  }

  /**
    * `xs.sort((a, b) => key(b) - key(a))`. JavaScript's sort is stable, so
    * this is an insertion sort that places each later element after the
    * earlier ones of equal key.
    */
  function SortDesc<T>(xs: seq<T>, key: T -> int): (r: seq<T>)
    ensures |r| == |xs|
  {
    if xs == [] then []
    else InsertDesc(xs[|xs| - 1], SortDesc(xs[..|xs| - 1], key), key)
  }

  /** The sorted list is a permutation of the input. */
  lemma {:induction false} SortDescPermutes<T>(xs: seq<T>, key: T -> int)
    ensures multiset(SortDesc(xs, key)) == multiset(xs)
    ensures |SortDesc(xs, key)| == |xs|
  {
    if xs != [] {
      var init, last := xs[..|xs| - 1], xs[|xs| - 1];
      SortDescPermutes(init, key);
      InsertDescPermutes(last, SortDesc(init, key), key);
      assert xs == init + [last];
    }
  }

  /** Every element of the sorted list sits at some position of the input. */
  lemma SortDescFrom<T>(xs: seq<T>, key: T -> int, j: int)
    requires 0 <= j < |SortDesc(xs, key)|
    ensures exists i :: 0 <= i < |xs| && SortDesc(xs, key)[j] == xs[i]
  {
    SortDescPermutes(xs, key);
    assert SortDesc(xs, key)[j] in multiset(xs);
  }

  /** The sorted list is in descending key order. */
  lemma {:induction false} SortDescSorted<T>(xs: seq<T>, key: T -> int)
    ensures NonIncreasing(SortDesc(xs, key), key)
  {
    if xs != [] {
      SortDescSorted(xs[..|xs| - 1], key);
      InsertDescSorted(xs[|xs| - 1], SortDesc(xs[..|xs| - 1], key), key);
    }
  }

  /** The elements whose key is `k`, in order: the tie class of `k`. */
  function WithKey<T>(xs: seq<T>, key: T -> int, k: int): seq<T> {
    if xs == [] then []
    else (if key(xs[0]) == k then [xs[0]] else []) + WithKey(xs[1..], key, k)
  }

  lemma {:induction false} WithKeyAppend<T>(xs: seq<T>, y: T, key: T -> int, k: int)
    ensures WithKey(xs + [y], key, k) == WithKey(xs, key, k) + (if key(y) == k then [y] else [])
  {
    if xs != [] {
      assert (xs + [y])[1..] == xs[1..] + [y];
      WithKeyAppend(xs[1..], y, key, k);
    }
  }

  lemma {:induction false} WithKeyNone<T>(xs: seq<T>, key: T -> int, k: int)
    requires forall j :: 0 <= j < |xs| ==> key(xs[j]) < k
    ensures WithKey(xs, key, k) == []
  {
    if xs != [] {
      WithKeyNone(xs[1..], key, k);
    }
  }

  lemma {:induction false} InsertDescStable<T>(x: T, xs: seq<T>, key: T -> int, k: int)
    requires NonIncreasing(xs, key)
    ensures WithKey(InsertDesc(x, xs, key), key, k)
         == WithKey(xs, key, k) + (if key(x) == k then [x] else [])
  {
    if xs == [] {
    } else if key(x) > key(xs[0]) {
      if key(x) == k {
        WithKeyNone(xs, key, k);
      }
      assert ([x] + xs)[1..] == xs;
    } else {
      NonIncreasingTail(xs, key);
      var rest := InsertDesc(x, xs[1..], key);
      assert InsertDesc(x, xs, key) == [xs[0]] + rest;
      InsertDescStable(x, xs[1..], key, k);
      var h := if key(xs[0]) == k then [xs[0]] else [];
      assert ([xs[0]] + rest)[1..] == rest;
      assert WithKey([xs[0]] + rest, key, k) == h + WithKey(rest, key, k);
      assert WithKey(xs, key, k) == h + WithKey(xs[1..], key, k);
    }
  }

  /** The sort is stable: each tie class keeps its original order. */
  lemma {:induction false} SortDescStable<T>(xs: seq<T>, key: T -> int, k: int)
    ensures WithKey(SortDesc(xs, key), key, k) == WithKey(xs, key, k)
  {
    if xs != [] {
      var init, last := xs[..|xs| - 1], xs[|xs| - 1];
      SortDescStable(init, key, k);
      SortDescSorted(init, key);
      InsertDescStable(last, SortDesc(init, key), key, k);
      WithKeyAppend(init, last, key, k);
      assert xs == init + [last];
    }
  }

  // ---------------------------------------------------------------------------
  // Map building

  /** `new Map(xs.map(x => [key(x), x]))`: a later element overwrites an earlier one of equal key. */
  function IndexBy<T>(xs: seq<T>, key: T -> int): (m: map<int, T>)
    ensures forall i :: 0 <= i < |xs| ==> key(xs[i]) in m
    ensures forall k :: k in m ==> key(m[k]) == k && m[k] in xs
  {
    if xs == [] then map[]
    else
      var last := xs[|xs| - 1];
      assert xs == xs[..|xs| - 1] + [last];
      IndexBy(xs[..|xs| - 1], key)[key(last) := last]
  }

  /** The element a key maps to is the LAST element with that key. */
  lemma {:induction false} IndexByLast<T>(xs: seq<T>, key: T -> int, i: nat)
    requires i < |xs|
    requires forall j :: i < j < |xs| ==> key(xs[j]) != key(xs[i])
    ensures IndexBy(xs, key)[key(xs[i])] == xs[i]
  {
    if i < |xs| - 1 {
      IndexByLast(xs[..|xs| - 1], key, i);
    }
  }

  /** The number of elements whose key is `k`. */
  function CountKey<T>(xs: seq<T>, key: T -> int, k: int): nat {
    if xs == [] then 0
    else CountKey(xs[..|xs| - 1], key, k) + (if key(xs[|xs| - 1]) == k then 1 else 0)
  }

  /** The values of the elements whose key is `k`, in order. */
  function Collect<T, V>(xs: seq<T>, key: T -> int, val: T -> V, k: int): seq<V> {
    if xs == [] then []
    else
      var last := xs[|xs| - 1];
      Collect(xs[..|xs| - 1], key, val, k) + (if key(last) == k then [val(last)] else [])
  }

  /** The loop `list = m.get(key(x)) ?? []; list.push(val(x)); m.set(key(x), list)` over all of `xs`. */
  function GroupBy<T, V>(xs: seq<T>, key: T -> int, val: T -> V): (m: map<int, seq<V>>)
    ensures forall k :: k in m ==> 0 < |m[k]| <= |xs|
  {
    if xs == [] then map[]
    else
      var m := GroupBy(xs[..|xs| - 1], key, val);
      var k := key(xs[|xs| - 1]);
      m[k := (if k in m then m[k] else []) + [val(xs[|xs| - 1])]]
  }

  /**
    * A key is grouped exactly when some element has it, and its list holds
    * the values of those elements in order.
    */
  lemma {:induction false} GroupBySpec<T, V>(xs: seq<T>, key: T -> int, val: T -> V, k: int)
    ensures k in GroupBy(xs, key, val) <==> Collect(xs, key, val, k) != []
    ensures k in GroupBy(xs, key, val) ==> GroupBy(xs, key, val)[k] == Collect(xs, key, val, k)
  {
    if xs != [] {
      GroupBySpec(xs[..|xs| - 1], key, val, k);
    }
  }

  /** The loop `m.set(key(x), (m.get(key(x)) ?? 0) + 1)` over all of `xs`. */
  function CountBy<T>(xs: seq<T>, key: T -> int): (m: map<int, nat>)
    ensures forall k :: k in m ==> 0 < m[k] <= |xs|
  {
    if xs == [] then map[]
    else
      var m := CountBy(xs[..|xs| - 1], key);
      var k := key(xs[|xs| - 1]);
      m[k := (if k in m then m[k] else 0) + 1]
  }

  /** A key is counted exactly when some element has it, with the number of those elements. */
  lemma {:induction false} CountBySpec<T>(xs: seq<T>, key: T -> int, k: int)
    ensures k in CountBy(xs, key) <==> CountKey(xs, key, k) > 0
    ensures k in CountBy(xs, key) ==> CountBy(xs, key)[k] == CountKey(xs, key, k)
  {
    if xs != [] {
      CountBySpec(xs[..|xs| - 1], key, k);
    }
  }

  /** A group is as long as the number of elements with its key. */
  lemma {:induction false} CollectCount<T, V>(xs: seq<T>, key: T -> int, val: T -> V, k: int)
    ensures |Collect(xs, key, val, k)| == CountKey(xs, key, k)
  {
    if xs != [] {
      CollectCount(xs[..|xs| - 1], key, val, k);
    }
  }

  /** Some value of the group of `k` satisfies `q` iff some element with key `k` has such a value. */
  lemma {:induction false} CollectExists<T, V>(xs: seq<T>, key: T -> int, val: T -> V, k: int, q: V -> bool)
    ensures (exists j :: 0 <= j < |Collect(xs, key, val, k)| && q(Collect(xs, key, val, k)[j]))
        <==> (exists i :: 0 <= i < |xs| && key(xs[i]) == k && q(val(xs[i])))
  {
    if xs != [] {
      var init, last := xs[..|xs| - 1], xs[|xs| - 1];
      CollectExists(init, key, val, k, q);
      var c0 := Collect(init, key, val, k);
      var c := Collect(xs, key, val, k);
      if exists i :: 0 <= i < |xs| && key(xs[i]) == k && q(val(xs[i])) {
        var i :| 0 <= i < |xs| && key(xs[i]) == k && q(val(xs[i]));
        if i < |xs| - 1 {
          assert init[i] == xs[i];
          var j :| 0 <= j < |c0| && q(c0[j]);
          assert c[j] == c0[j];
        } else {
          assert c[|c| - 1] == val(last);
        }
      }
      if exists j :: 0 <= j < |c| && q(c[j]) {
        var j :| 0 <= j < |c| && q(c[j]);
        if j < |c0| {
          assert c0[j] == c[j];
          var i :| 0 <= i < |init| && key(init[i]) == k && q(val(init[i]));
          assert xs[i] == init[i];
        } else {
          assert key(last) == k && c[j] == val(last);
          assert xs[|xs| - 1] == last;
        }
      }
    }
  }
}
