/** The LINQ operators the services use on lists: `Where`, `OrderBy` and
    `OrderByDescending` over an integer key (a timestamp), `Min`/`Max` over a
    non-empty sequence of keys, and `Sum`. */
module Sequences {
  import opened Wrappers

  /** LINQ `Where`: the elements satisfying `p`, in order. */
  function Filter<T(==,!new)>(s: seq<T>, p: T -> bool): (r: seq<T>)
    ensures |r| <= |s|
    ensures forall k :: 0 <= k < |r| ==> p(r[k])
    ensures forall x :: multiset(r)[x] == if p(x) then multiset(s)[x] else 0
  {
    if s == [] then []
    else
      var init, last := s[..|s| - 1], s[|s| - 1];
      assert s == init + [last];
      Filter(init, p) + (if p(last) then [last] else [])
  }

  /** `Where` keeps the input order: filtering a concatenation filters each
      part in turn, and a single element is kept exactly when it satisfies
      the predicate. */
  lemma {:induction false} FilterConcat<T(!new)>(a: seq<T>, b: seq<T>, p: T -> bool)
    ensures Filter(a + b, p) == Filter(a, p) + Filter(b, p)
    decreases |b|
  {
    if b == [] {
      assert a + b == a;
    } else {
      var init, last := b[..|b| - 1], b[|b| - 1];
      var ab := a + b;
      assert ab != [] && ab[..|ab| - 1] == a + init && ab[|ab| - 1] == last;
      FilterLast(ab, p);
      FilterLast(b, p);
      FilterConcat(a, init, p);
      var fa, fi, tail := Filter(a, p), Filter(init, p), if p(last) then [last] else [];
      assert Filter(ab, p) == fa + fi + tail;
      assert Filter(b, p) == fi + tail;
      ConcatAssoc(fa, fi, tail);
    }
  }

  lemma ConcatAssoc<T>(x: seq<T>, y: seq<T>, z: seq<T>)
    ensures x + y + z == x + (y + z)
  {
  }

  /** The unfolding of `Filter` at the last element. */
  lemma FilterLast<T(!new)>(s: seq<T>, p: T -> bool)
    requires s != []
    ensures Filter(s, p) == Filter(s[..|s| - 1], p) + if p(s[|s| - 1]) then [s[|s| - 1]] else []
  {
  }

  /** A single element is kept exactly when it satisfies the predicate. */
  lemma FilterOne<T(!new)>(x: T, p: T -> bool)
    ensures Filter([x], p) == if p(x) then [x] else []
  {
    assert [x][..0] == [];
  }

  /** Filters by two predicates that agree everywhere keep the same elements. */
  lemma {:induction false} FilterSame<T(!new)>(s: seq<T>, p: T -> bool, q: T -> bool)
    requires forall x :: p(x) == q(x)
    ensures Filter(s, p) == Filter(s, q)
  {
    if s != [] {
      FilterSame(s[..|s| - 1], p, q);
    }
  }

  /** The elements whose key is `v`: the ties a stable sort keeps in input order. */
  function KeyIs<T>(key: T -> int, v: int): T -> bool {
    x => key(x) == v
  }

  /** LINQ `Sum` of `key` over the elements. */
  function SumBy<T>(s: seq<T>, key: T -> int): int
  {
    if s == [] then 0 else SumBy(s[..|s| - 1], key) + key(s[|s| - 1])
  }

  lemma {:induction false} SumByConcat<T>(s: seq<T>, t: seq<T>, key: T -> int)
    ensures SumBy(s + t, key) == SumBy(s, key) + SumBy(t, key)
  {
    if t != [] {
      assert (s + t)[..|s + t| - 1] == s + t[..|t| - 1];
      SumByConcat(s, t[..|t| - 1], key);
    } else {
      assert s + t == s;
    }
  }

  /** The sum does not depend on the order of the elements. */
  lemma {:induction false} SumByPermutation<T>(a: seq<T>, b: seq<T>, key: T -> int)
    requires multiset(a) == multiset(b)
    ensures SumBy(a, key) == SumBy(b, key)
  {
    if a != [] {
      var init, x := a[..|a| - 1], a[|a| - 1];
      assert a == init + [x];
      assert x in multiset(b);
      var i :| 0 <= i < |b| && b[i] == x;
      var rest := b[..i] + b[i + 1..];
      assert b == b[..i] + [x] + b[i + 1..];
      assert multiset(b) == multiset(b[..i]) + multiset{x} + multiset(b[i + 1..]);
      assert multiset(a) == multiset(init) + multiset{x};
      assert multiset(rest) == multiset(b[..i]) + multiset(b[i + 1..]);
      assert multiset(rest) + multiset{x} == multiset(init) + multiset{x};
      assert multiset(rest) == multiset(init) by {
        forall y ensures multiset(rest)[y] == multiset(init)[y] {
          assert (multiset(rest) + multiset{x})[y] == (multiset(init) + multiset{x})[y];
        }
      }
      SumByPermutation(init, rest, key);
      SumByConcat(b[..i] + [x], b[i + 1..], key);
      SumByConcat(b[..i], [x], key);
      SumByConcat(b[..i], b[i + 1..], key);
      assert SumBy([x], key) == key(x) by {
        assert [x][..0] == [];
      }
    }
  }

  /** The distinct elements in order of first occurrence (the keys of LINQ `GroupBy`). */
  function Distinct<T(==)>(s: seq<T>): seq<T>
  {
    if s == [] then []
    else
      var prev := Distinct(s[..|s| - 1]);
      if s[|s| - 1] in prev then prev else prev + [s[|s| - 1]]
  }

  /** `Distinct` keeps each element of the input exactly once. */
  lemma {:induction false} DistinctElements<T>(s: seq<T>)
    ensures forall x :: x in Distinct(s) <==> x in s
    ensures forall i, j :: 0 <= i < j < |Distinct(s)| ==> Distinct(s)[i] != Distinct(s)[j]
  {
    if s != [] {
      var init := s[..|s| - 1];
      assert s == init + [s[|s| - 1]];
      DistinctElements(init);
    }
  }

  /** `Distinct` lists the elements in order of first occurrence: each one
      occurs in the input, and an earlier one occurs there before any
      occurrence of a later one. */
  lemma {:induction false} DistinctOrder<T>(s: seq<T>)
    ensures forall i :: 0 <= i < |Distinct(s)| ==> Distinct(s)[i] in s
    ensures forall i, j, k :: 0 <= i < j < |Distinct(s)| && 0 <= k < |s| && s[k] == Distinct(s)[j] ==> Distinct(s)[i] in s[..k]
  {
    if s != [] {
      var init, last := s[..|s| - 1], s[|s| - 1];
      assert s == init + [last];
      DistinctElements(init);
      DistinctOrder(init);
      var prev, r := Distinct(init), Distinct(s);
      assert r == prev || r == prev + [last];
      forall i | 0 <= i < |r| ensures r[i] in s {
        if i < |prev| {
          assert r[i] == prev[i] && prev[i] in init;
        }
      }
      forall i, j, k | 0 <= i < j < |r| && 0 <= k < |s| && s[k] == r[j] ensures r[i] in s[..k] {
        assert r[i] == prev[i] && prev[i] in init;
        if k < |init| {
          assert s[..k] == init[..k] && init[k] == r[j] && init[k] in init;
          assert r[j] in prev;
          assert j < |prev| && prev[j] == r[j];
          assert prev[i] in init[..k];
        } else {
          assert s[..k] == init;
        }
      }
    }
  }

  /** Non-decreasing by `key`. */
  predicate SortedBy<T>(s: seq<T>, key: T -> int) {
    forall i, j :: 0 <= i < j < |s| ==> key(s[i]) <= key(s[j])
  }

  /** Non-increasing by `key`. */
  predicate SortedDescBy<T>(s: seq<T>, key: T -> int) {
    forall i, j :: 0 <= i < j < |s| ==> key(s[i]) >= key(s[j])
  }

  /** The keys of `s`, in order. */
  function KeysOf<T>(s: seq<T>, key: T -> int): (r: seq<int>)
    ensures |r| == |s|
    ensures forall i :: 0 <= i < |s| ==> r[i] == key(s[i])
  {
    seq(|s|, i requires 0 <= i < |s| => key(s[i]))
  }

  /** Places `x` in front of the first element whose key is not smaller, so
      that `x` precedes the elements of equal key that follow it in the input. */
  function InsertBy<T(==)>(x: T, s: seq<T>, key: T -> int): (r: seq<T>)
    requires SortedBy(s, key)
    ensures SortedBy(r, key)
    ensures multiset(r) == multiset(s) + multiset{x}
    ensures |r| == |s| + 1
  {
    if s == [] || key(x) <= key(s[0]) then
      SortedCons(x, s, key);
      [x] + s
    else
      var rest := InsertBy(x, s[1..], key);
      InsertBehind(x, s, key, rest);
      [s[0]] + rest
  }

  /** An element no greater than the head of a sorted sequence can go in front of it. */
  lemma SortedCons<T>(x: T, s: seq<T>, key: T -> int)
    requires SortedBy(s, key)
    requires s == [] || key(x) <= key(s[0])
    ensures SortedBy([x] + s, key)
  {
    forall i, j | 0 <= i < j < |[x] + s| ensures key(([x] + s)[i]) <= key(([x] + s)[j]) {
      if i == 0 && j > 1 {
        assert key(s[0]) <= key(s[j - 1]);
      }
    }
  }

  /** The step of `InsertBy` that keeps the head and inserts further on. */
  lemma InsertBehind<T>(x: T, s: seq<T>, key: T -> int, rest: seq<T>)
    requires SortedBy(s, key) && s != [] && key(s[0]) < key(x)
    requires SortedBy(rest, key) && multiset(rest) == multiset(s[1..]) + multiset{x}
    ensures SortedBy([s[0]] + rest, key)
    ensures multiset([s[0]] + rest) == multiset(s) + multiset{x}
  {
    assert s == [s[0]] + s[1..];
    forall j | 0 <= j < |rest| ensures key(s[0]) <= key(rest[j]) {
      assert rest[j] in multiset(rest);
      if rest[j] != x {
        assert rest[j] in multiset(s[1..]);
        var i :| 0 <= i < |s[1..]| && s[1..][i] == rest[j];
        assert s[1 + i] == rest[j];
      }
    }
    if rest != [] {
      SortedCons(s[0], rest, key);
    }
  }

  /** LINQ `OrderBy`: a stable insertion sort by ascending key. */
  function OrderBy<T(==,!new)>(s: seq<T>, key: T -> int): (r: seq<T>)
    ensures SortedBy(r, key)
    ensures multiset(r) == multiset(s)
    ensures |r| == |s|
    ensures forall v :: Filter(r, KeyIs(key, v)) == Filter(s, KeyIs(key, v))
  {
    if s == [] then []
    else
      assert s == [s[0]] + s[1..];
      var rest := OrderBy(s[1..], key);
      InsertStable(s, rest, key);
      InsertBy(s[0], rest, key)
  }

  /** `InsertBy` puts `x` after the elements of smaller key and in front of
      those of the same key. */
  lemma {:induction false} InsertByStable<T(!new)>(x: T, s: seq<T>, key: T -> int, v: int)
    requires SortedBy(s, key)
    ensures Filter(InsertBy(x, s, key), KeyIs(key, v)) == (if key(x) == v then [x] else []) + Filter(s, KeyIs(key, v))
    decreases |s|
  {
    var p := KeyIs(key, v);
    var lead := if key(x) == v then [x] else [];
    FilterOne(x, p);
    if s == [] || key(x) <= key(s[0]) {
      assert InsertBy(x, s, key) == [x] + s;
      FilterConcat([x], s, p);
    } else {
      assert s == [s[0]] + s[1..];
      var ins := InsertBy(x, s[1..], key);
      assert InsertBy(x, s, key) == [s[0]] + ins;
      InsertByStable(x, s[1..], key, v);
      FilterConcat([s[0]], ins, p);
      FilterConcat([s[0]], s[1..], p);
      FilterOne(s[0], p);
      var head, tail := Filter([s[0]], p), Filter(s[1..], p);
      assert Filter(InsertBy(x, s, key), p) == head + (lead + tail);
      assert Filter(s, p) == head + tail;
      assert head == [] || lead == [];
      SwapEmpty(head, lead, tail);
    }
  }

  /** Of two sequences one of which is empty, either may go first. */
  lemma SwapEmpty<T>(head: seq<T>, lead: seq<T>, tail: seq<T>)
    requires head == [] || lead == []
    ensures head + (lead + tail) == lead + (head + tail)
  {
    if head == [] {
      assert head + (lead + tail) == lead + tail;
    } else {
      assert lead + (head + tail) == head + tail;
    }
  }

  /** Inserting the head into the stably sorted tail keeps every run of ties
      in input order. */
  lemma InsertStable<T(!new)>(s: seq<T>, rest: seq<T>, key: T -> int)
    requires s != [] && SortedBy(rest, key)
    requires forall v :: Filter(rest, KeyIs(key, v)) == Filter(s[1..], KeyIs(key, v))
    ensures forall v :: Filter(InsertBy(s[0], rest, key), KeyIs(key, v)) == Filter(s, KeyIs(key, v))
  {
    forall v ensures Filter(InsertBy(s[0], rest, key), KeyIs(key, v)) == Filter(s, KeyIs(key, v)) {
      InsertHeadStable(s, rest, key, v);
    }
  }

  lemma InsertHeadStable<T(!new)>(s: seq<T>, rest: seq<T>, key: T -> int, v: int)
    requires s != [] && SortedBy(rest, key)
    requires Filter(rest, KeyIs(key, v)) == Filter(s[1..], KeyIs(key, v))
    ensures Filter(InsertBy(s[0], rest, key), KeyIs(key, v)) == Filter(s, KeyIs(key, v))
  {
    assert s == [s[0]] + s[1..];
    InsertByStable(s[0], rest, key, v);
    FilterConcat([s[0]], s[1..], KeyIs(key, v));
    FilterOne(s[0], KeyIs(key, v));
  }

  /** The key negated, so that ascending by it is descending by `key`. */
  function Negated<T>(key: T -> int): T -> int {
    x => -key(x)
  }

  /** LINQ `OrderByDescending`: the stable ascending sort by the negated key. */
  function OrderByDescending<T(==,!new)>(s: seq<T>, key: T -> int): (r: seq<T>)
    ensures SortedDescBy(r, key)
    ensures multiset(r) == multiset(s)
    ensures |r| == |s|
    ensures forall v :: Filter(r, KeyIs(key, v)) == Filter(s, KeyIs(key, v))
  {
    var r := OrderBy(s, Negated(key));
    assert forall i, j :: 0 <= i < j < |r| ==> Negated(key)(r[i]) <= Negated(key)(r[j]);
    NegatedTies(r, s, key);
    r
  }

  /** Ties under the negated key are ties under the key. */
  lemma NegatedTies<T(!new)>(r: seq<T>, s: seq<T>, key: T -> int)
    requires forall w :: Filter(r, KeyIs(Negated(key), w)) == Filter(s, KeyIs(Negated(key), w))
    ensures forall v :: Filter(r, KeyIs(key, v)) == Filter(s, KeyIs(key, v))
  {
    forall v ensures Filter(r, KeyIs(key, v)) == Filter(s, KeyIs(key, v)) {
      FilterSame(r, KeyIs(key, v), KeyIs(Negated(key), -v));
      FilterSame(s, KeyIs(key, v), KeyIs(Negated(key), -v));
      assert Filter(r, KeyIs(Negated(key), -v)) == Filter(s, KeyIs(Negated(key), -v));
    }
  }

  /** LINQ `Take`: the first `n` elements, or all when there are fewer. */
  function Take<T>(s: seq<T>, n: nat): (r: seq<T>)
    ensures |r| == if |s| < n then |s| else n
    ensures r <= s
  {
    s[..if |s| < n then |s| else n]
  }

  /** `OrderByDescending(key).Take(n)` keeps `n` elements (or all), newest
      first, and leaves out none with a larger key than one it keeps; of the
      elements sharing a key it keeps the earliest in input order, in that
      order. */
  lemma TopByKey<T(!new)>(s: seq<T>, n: nat, key: T -> int)
    ensures var r := Take(OrderByDescending(s, key), n);
      && |r| == (if |s| < n then |s| else n)
      && SortedDescBy(r, key)
      && multiset(r) <= multiset(s)
      && (forall x, k :: x in multiset(s) - multiset(r) && 0 <= k < |r| ==> key(x) <= key(r[k]))
      && forall v :: Filter(r, KeyIs(key, v)) <= Filter(s, KeyIs(key, v))
  {
    var sorted := OrderByDescending(s, key);
    TakeSorted(sorted, n, key);
  }

  /** The first `n` of a sequence sorted descending are sorted, nothing left
      out has a larger key than one kept, and the kept ties lead their run. */
  lemma TakeSorted<T(!new)>(sorted: seq<T>, n: nat, key: T -> int)
    requires SortedDescBy(sorted, key)
    ensures var r := Take(sorted, n);
      && SortedDescBy(r, key)
      && multiset(r) <= multiset(sorted)
      && (forall x, k :: x in multiset(sorted) - multiset(r) && 0 <= k < |r| ==> key(x) <= key(r[k]))
      && forall v :: Filter(r, KeyIs(key, v)) <= Filter(sorted, KeyIs(key, v))
  {
    var m := if |sorted| < n then |sorted| else n;
    var r := Take(sorted, n);
    var rest := sorted[m..];
    assert sorted == r + rest;
    assert multiset(sorted) == multiset(r) + multiset(rest);
    forall i, j | 0 <= i < j < |r| ensures key(r[i]) >= key(r[j]) {
      assert r[i] == sorted[i] && r[j] == sorted[j];
    }
    DroppedNotLarger(sorted, r, rest, key);
    forall v ensures Filter(r, KeyIs(key, v)) <= Filter(sorted, KeyIs(key, v)) {
      FilterConcat(r, rest, KeyIs(key, v));
    }
  }

  /** When a sequence sorted descending is split in two, nothing in the
      second part has a larger key than anything in the first. */
  lemma DroppedNotLarger<T>(sorted: seq<T>, kept: seq<T>, dropped: seq<T>, key: T -> int)
    requires SortedDescBy(sorted, key) && sorted == kept + dropped
    ensures forall x, k :: x in multiset(dropped) && 0 <= k < |kept| ==> key(x) <= key(kept[k])
  {
    forall x, k | x in multiset(dropped) && 0 <= k < |kept| ensures key(x) <= key(kept[k]) {
      var j :| 0 <= j < |dropped| && dropped[j] == x;
      assert sorted[|kept| + j] == x && sorted[k] == kept[k];
    }
  }

  /** LINQ `Min` over a non-empty sequence. */
  function MinOf(s: seq<int>): (m: int)
    requires |s| > 0
    ensures m in s
    ensures forall x :: x in s ==> m <= x
  {
    if |s| == 1 then s[0]
    else
      assert s == [s[0]] + s[1..];
      var r := MinOf(s[1..]);
      if s[0] <= r then s[0] else r
  }

  /** LINQ `Max` over a non-empty sequence. */
  function MaxOf(s: seq<int>): (m: int)
    requires |s| > 0
    ensures m in s
    ensures forall x :: x in s ==> x <= m
  {
    if |s| == 1 then s[0]
    else
      assert s == [s[0]] + s[1..];
      var r := MaxOf(s[1..]);
      if s[0] >= r then s[0] else r
  }

  /** In a sequence sorted ascending, every key lies between the first and the last. */
  lemma SortedBetween<T>(s: seq<T>, key: T -> int, j: int)
    requires SortedBy(s, key) && 0 <= j < |s|
    ensures key(s[0]) <= key(s[j]) <= key(s[|s| - 1])
  {
    if 0 < j { assert key(s[0]) <= key(s[j]); }
    if j < |s| - 1 { assert key(s[j]) <= key(s[|s| - 1]); }
  }

  /** A sorted rearrangement of `a` starts at a least key of `a` and ends at a greatest one. */
  lemma SortedPermutationBounds<T>(a: seq<T>, b: seq<T>, key: T -> int)
    requires multiset(a) == multiset(b) && SortedBy(b, key) && |b| > 0
    ensures forall k :: 0 <= k < |a| ==> key(b[0]) <= key(a[k]) <= key(b[|b| - 1])
    ensures b[0] in a && b[|b| - 1] in a
  {
    forall k | 0 <= k < |a| ensures key(b[0]) <= key(a[k]) <= key(b[|b| - 1]) {
      assert a[k] in multiset(b);
      var j :| 0 <= j < |b| && b[j] == a[k];
      SortedBetween(b, key, j);
    }
    assert b[0] in multiset(a);
    assert b[|b| - 1] in multiset(a);
  }

  /** In a sequence sorted ascending, the least key is the first one and the
      greatest the last one. */
  lemma SortedBounds<T>(s: seq<T>, key: T -> int)
    requires SortedBy(s, key) && |s| > 0
    ensures MinOf(KeysOf(s, key)) == key(s[0])
    ensures MaxOf(KeysOf(s, key)) == key(s[|s| - 1])
  {
    var ks := KeysOf(s, key);
    var lo, hi := MinOf(ks), MaxOf(ks);
    assert ks[0] in ks && ks[|s| - 1] in ks;
    var i :| 0 <= i < |ks| && ks[i] == lo;
    var j :| 0 <= j < |ks| && ks[j] == hi;
    assert key(s[0]) <= key(s[i]);
    assert key(s[j]) <= key(s[|s| - 1]);
  }

  /** The present results of `f` over the keys, in key order (a `foreach`
      that adds an element for some keys). */
  function Collect<K, R>(keys: seq<K>, f: K -> Option<R>): (r: seq<R>)
    ensures |r| <= |keys|
  {
    if keys == [] then []
    else
      var last := f(keys[|keys| - 1]);
      Collect(keys[..|keys| - 1], f) + if last.Some? then [last.value] else []
  }

  lemma CollectStep<K, R>(keys: seq<K>, k: K, f: K -> Option<R>)
    ensures Collect(keys + [k], f) == Collect(keys, f) + if f(k).Some? then [f(k).value] else []
  {
    assert (keys + [k])[..|keys|] == keys;
  }

  /** One more key of the same list. */
  lemma CollectPrefixStep<K, R>(keys: seq<K>, i: int, f: K -> Option<R>)
    requires 0 <= i < |keys|
    ensures Collect(keys[..i + 1], f) == Collect(keys[..i], f) + if f(keys[i]).Some? then [f(keys[i]).value] else []
  {
    assert keys[..i + 1] == keys[..i] + [keys[i]];
    CollectStep(keys[..i], keys[i], f);
  }

  /** Some key yields `r`. */
  ghost predicate Yields<K(!new), R>(keys: seq<K>, f: K -> Option<R>, r: R) {
    exists k :: k in keys && f(k) == Some(r)
  }

  /** Every element is collected from some key, and every present result is collected. */
  lemma {:induction false} CollectElements<K(!new), R>(keys: seq<K>, f: K -> Option<R>)
    ensures forall i :: 0 <= i < |Collect(keys, f)| ==> Yields(keys, f, Collect(keys, f)[i])
    ensures forall k :: k in keys && f(k).Some? ==> f(k).value in Collect(keys, f)
  {
    if keys != [] {
      var init, last := keys[..|keys| - 1], keys[|keys| - 1];
      assert keys == init + [last];
      CollectElements(init, f);
      var prev := Collect(init, f);
      var rs := Collect(keys, f);
      forall i | 0 <= i < |rs| ensures Yields(keys, f, rs[i]) {
        if i < |prev| {
          assert Yields(init, f, prev[i]);
          var k :| k in init && f(k) == Some(prev[i]);
          assert k in keys && rs[i] == prev[i];
        } else {
          assert last in keys && f(last) == Some(rs[i]);
        }
      }
    }
  }

  /** A key with a result contributes it. */
  lemma {:induction false} CollectIncludes<K, R>(keys: seq<K>, f: K -> Option<R>, k: K)
    requires k in keys && f(k).Some?
    ensures f(k).value in Collect(keys, f)
  {
    var init := keys[..|keys| - 1];
    if k != keys[|keys| - 1] {
      assert keys == init + [keys[|keys| - 1]];
      CollectIncludes(init, f, k);
    }
  }

  /** Over distinct keys, elements that name the key they came from are distinct. */
  lemma {:induction false} CollectDistinct<K(!new), R>(keys: seq<K>, f: K -> Option<R>, tag: R -> K)
    requires forall i, j :: 0 <= i < j < |keys| ==> keys[i] != keys[j]
    requires forall k :: k in keys && f(k).Some? ==> tag(f(k).value) == k
    ensures forall i, j :: 0 <= i < j < |Collect(keys, f)| ==> tag(Collect(keys, f)[i]) != tag(Collect(keys, f)[j])
  {
    if keys != [] {
      var init := keys[..|keys| - 1];
      var last := keys[|keys| - 1];
      assert keys == init + [last];
      CollectDistinct(init, f, tag);
      var prev := Collect(init, f);
      forall i | 0 <= i < |prev| ensures tag(prev[i]) != last {
        CollectElements(init, f);
        assert Yields(init, f, prev[i]);
        var k :| k in init && f(k) == Some(prev[i]);
      }
    }
  }
}
