/**
 * The LINQ operators that the pool code composes: `Where` over positions, a stable
 * `OrderBy`/`ThenBy` chain (keys compared lexicographically, `false` before `true`),
 * and `Take`.
 */
module Ordering {

  /** Strict lexicographic order on composite keys. */
  predicate Less(a: seq<int>, b: seq<int>)
  {
    if |b| == 0 then false
    else if |a| == 0 then true
    else a[0] < b[0] || (a[0] == b[0] && Less(a[1..], b[1..]))
  }

  lemma {:induction false} LessIrreflexive(a: seq<int>)
    ensures !Less(a, a)
  {
    if |a| > 0 { LessIrreflexive(a[1..]); }
  }

  lemma {:induction false} LessTransitive(a: seq<int>, b: seq<int>, c: seq<int>)
    requires Less(a, b) && Less(b, c)
    ensures Less(a, c)
  {
    if |a| > 0 && a[0] == b[0] && b[0] == c[0] {
      LessTransitive(a[1..], b[1..], c[1..]);
    }
  }

  lemma {:induction false} LessTotal(a: seq<int>, b: seq<int>)
    ensures Less(a, b) || a == b || Less(b, a)
  {
    if |a| > 0 && |b| > 0 && a[0] == b[0] {
      LessTotal(a[1..], b[1..]);
      if a[1..] == b[1..] {
        assert a == [a[0]] + a[1..] && b == [b[0]] + b[1..];
      }
    }
  }

  /** `false` sorts before `true`, as `OrderBy` on a boolean does. */
  function Bit(b: bool): int
  {
    if b then 1 else 0
  }

  ghost predicate InRange(xs: seq<nat>, n: nat)
  {
    forall k :: 0 <= k < |xs| ==> xs[k] < n
  }

  ghost predicate Distinct<T>(xs: seq<T>)
  {
    forall p, q :: 0 <= p < q < |xs| ==> xs[p] != xs[q]
  }

  /** In a list without repeats every element occurs once. */
  lemma {:induction false} DistinctOnce<T>(xs: seq<T>)
    requires Distinct(xs)
    ensures forall v :: multiset(xs)[v] <= 1
  {
    if xs != [] {
      var init := xs[..|xs| - 1];
      var x := xs[|xs| - 1];
      assert xs == init + [x];
      DistinctOnce(init);
      forall p | 0 <= p < |init| ensures init[p] != x {
        assert init[p] == xs[p];
      }
      assert multiset(init)[x] == 0;
    }
  }

  /** A list in which every element occurs once has no repeats. */
  lemma OnceDistinct<T>(xs: seq<T>)
    requires forall v :: multiset(xs)[v] <= 1
    ensures Distinct(xs)
  {
    forall p, q | 0 <= p < q < |xs| ensures xs[p] != xs[q] {
      var v := xs[q];
      assert xs == xs[..q] + [v] + xs[q + 1..];
      assert xs[p] in multiset(xs[..q]);
      assert multiset(xs)[v] == multiset(xs[..q])[v] + 1 + multiset(xs[q + 1..])[v];
    }
  }

  /** No later position has a key smaller than an earlier one. */
  ghost predicate Sorted(xs: seq<nat>, keys: seq<seq<int>>)
    requires InRange(xs, |keys|)
  {
    forall p, q :: 0 <= p < q < |xs| ==> !Less(keys[xs[q]], keys[xs[p]])
  }

  /** Places `x` after every element whose key is not larger than its own. */
  function Insert(x: nat, sorted: seq<nat>, keys: seq<seq<int>>): (r: seq<nat>)
    requires x < |keys| && InRange(sorted, |keys|)
    ensures |r| == |sorted| + 1 && multiset(r) == multiset(sorted) + multiset{x}
    ensures InRange(r, |keys|)
  {
    if sorted == [] then [x]
    else if Less(keys[x], keys[sorted[0]]) then [x] + sorted
    else
      var rest := Insert(x, sorted[1..], keys);
      assert sorted == [sorted[0]] + sorted[1..];
      [sorted[0]] + rest
  }

  lemma {:induction false} InsertSorted(x: nat, sorted: seq<nat>, keys: seq<seq<int>>)
    requires x < |keys| && InRange(sorted, |keys|)
    requires Sorted(sorted, keys)
    ensures Sorted(Insert(x, sorted, keys), keys)
    decreases |sorted|
  {
    var r := Insert(x, sorted, keys);
    if sorted == [] {
    } else if Less(keys[x], keys[sorted[0]]) {
      forall p, q | 0 <= p < q < |r| ensures !Less(keys[r[q]], keys[r[p]]) {
        if p == 0 {
          if Less(keys[r[q]], keys[x]) {
            LessTransitive(keys[r[q]], keys[x], keys[sorted[0]]);
            if q == 1 { LessIrreflexive(keys[sorted[0]]); }
          }
        }
      }
    } else {
      var rest := Insert(x, sorted[1..], keys);
      InsertSorted(x, sorted[1..], keys);
      forall p, q | 0 <= p < q < |r| ensures !Less(keys[r[q]], keys[r[p]]) {
        if p == 0 {
          var y := r[q];
          assert y in multiset(rest);
          assert y == x || y in sorted[1..];
          if y != x {
            var k :| 0 <= k < |sorted[1..]| && sorted[1..][k] == y;
            assert sorted[k + 1] == y;
          }
        }
      }
    }
  }

  /** `OrderBy`: a stable sort of positions by their keys. */
  function SortBy(xs: seq<nat>, keys: seq<seq<int>>): (r: seq<nat>)
    requires InRange(xs, |keys|)
    ensures |r| == |xs| && multiset(r) == multiset(xs)
    ensures InRange(r, |keys|)
    ensures Sorted(r, keys)
  {
    if xs == [] then []
    else
      var init := xs[..|xs| - 1];
      assert xs == init + [xs[|xs| - 1]];
      var s := SortBy(init, keys);
      InsertSorted(xs[|xs| - 1], s, keys);
      Insert(xs[|xs| - 1], s, keys)
  }

  /** Sorting keeps the elements and does not introduce repeats. */
  lemma {:induction false} SortByMembers(xs: seq<nat>, keys: seq<seq<int>>)
    requires InRange(xs, |keys|)
    ensures forall x :: x in SortBy(xs, keys) <==> x in xs
    ensures Distinct(xs) ==> Distinct(SortBy(xs, keys))
  {
    var r := SortBy(xs, keys);
    forall x ensures x in r <==> x in xs {
      assert x in r <==> x in multiset(r);
      assert x in xs <==> x in multiset(xs);
    }
    if Distinct(xs) {
      DistinctOnce(xs);
      OnceDistinct(r);
    }
  }

  ghost predicate Increasing(xs: seq<nat>)
  {
    forall k, l :: 0 <= k < l < |xs| ==> xs[k] < xs[l]
  }

  /** Elements with equal keys appear in increasing position order. */
  ghost predicate TiesInOrder(r: seq<nat>, keys: seq<seq<int>>)
    requires InRange(r, |keys|)
  {
    forall p, q :: 0 <= p < q < |r| && keys[r[p]] == keys[r[q]] ==> r[p] < r[q]
  }

  /** Placing a key smaller than the first of a sorted list in front creates no tie. */
  lemma PrependStable(x: nat, sorted: seq<nat>, keys: seq<seq<int>>)
    requires x < |keys| && InRange(sorted, |keys|) && sorted != []
    requires Sorted(sorted, keys) && TiesInOrder(sorted, keys)
    requires Less(keys[x], keys[sorted[0]])
    ensures InRange([x] + sorted, |keys|) && TiesInOrder([x] + sorted, keys)
  {
    var r := [x] + sorted;
    forall k | 0 <= k < |sorted| ensures keys[sorted[k]] != keys[x] {
      var a, b, c := keys[x], keys[sorted[0]], keys[sorted[k]];
      if k > 0 {
        assert !Less(c, b);
        LessTotal(b, c);
        if Less(b, c) { LessTransitive(a, b, c); }
      }
      LessIrreflexive(a);
    }
    forall p, q | 0 <= p < q < |r| ensures keys[r[p]] == keys[r[q]] ==> r[p] < r[q] {
      assert r[q] == sorted[q - 1];
      if p > 0 {
        assert r[p] == sorted[p - 1];
      }
    }
  }

  /** The tail of an ordered list is ordered. */
  lemma TailOrdered(sorted: seq<nat>, keys: seq<seq<int>>)
    requires InRange(sorted, |keys|) && sorted != []
    requires Sorted(sorted, keys) && TiesInOrder(sorted, keys)
    ensures InRange(sorted[1..], |keys|)
    ensures Sorted(sorted[1..], keys) && TiesInOrder(sorted[1..], keys)
  {
    var t := sorted[1..];
    forall p, q | 0 <= p < q < |t| ensures !Less(keys[t[q]], keys[t[p]]) {
      assert t[p] == sorted[p + 1] && t[q] == sorted[q + 1];
    }
    forall p, q | 0 <= p < q < |t| && keys[t[p]] == keys[t[q]] ensures t[p] < t[q] {
      assert t[p] == sorted[p + 1] && t[q] == sorted[q + 1];
    }
  }

  /** A head smaller than every later element with its key keeps ties in order. */
  lemma ConsStable(h: nat, rest: seq<nat>, keys: seq<seq<int>>)
    requires h < |keys| && InRange(rest, |keys|) && TiesInOrder(rest, keys)
    requires forall k :: 0 <= k < |rest| && keys[rest[k]] == keys[h] ==> h < rest[k]
    ensures InRange([h] + rest, |keys|) && TiesInOrder([h] + rest, keys)
  {
    var r := [h] + rest;
    forall p, q | 0 <= p < q < |r| && keys[r[p]] == keys[r[q]] ensures r[p] < r[q] {
      assert r[q] == rest[q - 1];
      if p > 0 {
        assert r[p] == rest[p - 1];
      }
    }
  }

  /** Inserting a position larger than all present ones puts it after its ties. */
  lemma {:induction false} InsertStable(x: nat, sorted: seq<nat>, keys: seq<seq<int>>)
    requires x < |keys| && InRange(sorted, |keys|)
    requires Sorted(sorted, keys) && TiesInOrder(sorted, keys)
    requires forall k :: 0 <= k < |sorted| ==> sorted[k] < x
    ensures TiesInOrder(Insert(x, sorted, keys), keys)
    decreases |sorted|
  {
    if sorted == [] {
    } else if Less(keys[x], keys[sorted[0]]) {
      PrependStable(x, sorted, keys);
    } else {
      var h, tail := sorted[0], sorted[1..];
      var rest := Insert(x, tail, keys);
      TailOrdered(sorted, keys);
      InsertStable(x, tail, keys);
      forall k | 0 <= k < |rest| && keys[rest[k]] == keys[h] ensures h < rest[k] {
        var y := rest[k];
        assert y in multiset(rest);
        if y != x {
          assert y in multiset(tail);
          var i :| 0 <= i < |tail| && tail[i] == y;
          assert sorted[i + 1] == y;
        }
      }
      ConsStable(h, rest, keys);
    }
  }

  /** `OrderBy` is stable: sorting increasing positions keeps ties in position order. */
  lemma {:induction false} SortByStable(xs: seq<nat>, keys: seq<seq<int>>)
    requires InRange(xs, |keys|) && Increasing(xs)
    ensures TiesInOrder(SortBy(xs, keys), keys)
  {
    if xs != [] {
      var init := xs[..|xs| - 1];
      var x := xs[|xs| - 1];
      SortByStable(init, keys);
      var s := SortBy(init, keys);
      forall k | 0 <= k < |s| ensures s[k] < x {
        assert s[k] in multiset(init);
        var i :| 0 <= i < |init| && init[i] == s[k];
      }
      InsertStable(x, s, keys);
    }
  }

  /** `Take(n)`: the first `n` elements, all of them if there are fewer, none if `n` is not positive. */
  function Take<T>(xs: seq<T>, n: int): (r: seq<T>)
    ensures |r| == if n <= 0 then 0 else if |xs| <= n then |xs| else n
    ensures r == xs[..|r|]
  {
    if n <= 0 then [] else if |xs| <= n then xs else xs[..n]
  }

  /**
   * Taking the first `n` of a sorted list picks the most urgent: every element left out
   * has a key no smaller than any element taken, and the taken ones are themselves in order.
   */
  lemma {:induction false} TakeBest(xs: seq<nat>, keys: seq<seq<int>>, n: int)
    requires InRange(xs, |keys|)
    ensures InRange(Take(SortBy(xs, keys), n), |keys|)
    ensures Sorted(Take(SortBy(xs, keys), n), keys)
    ensures forall j, b ::
      j in xs && j !in Take(SortBy(xs, keys), n) && b in Take(SortBy(xs, keys), n) ==> !Less(keys[j], keys[b])
  {
    var r := SortBy(xs, keys);
    var t := Take(r, n);
    forall j, b | j in xs && j !in t && b in t ensures !Less(keys[j], keys[b]) {
      assert j in multiset(xs);
      assert j in r;
      var q :| 0 <= q < |r| && r[q] == j;
      var p :| 0 <= p < |t| && t[p] == b;
      assert r[p] == b;
    }
  }

  /** Among elements with equal keys, the ones taken precede in position order the ones left out. */
  lemma {:induction false} TakeBestTies(xs: seq<nat>, keys: seq<seq<int>>, n: int)
    requires InRange(xs, |keys|) && Increasing(xs)
    ensures InRange(Take(SortBy(xs, keys), n), |keys|)
    ensures forall j, b ::
      j in xs && j !in Take(SortBy(xs, keys), n) && b in Take(SortBy(xs, keys), n) && keys[j] == keys[b] ==> b < j
  {
    var r := SortBy(xs, keys);
    var t := Take(r, n);
    SortByStable(xs, keys);
    forall j, b | j in xs && j !in t && b in t && keys[j] == keys[b] ensures b < j {
      assert j in multiset(xs);
      assert j in r;
      var q :| 0 <= q < |r| && r[q] == j;
      var p :| 0 <= p < |t| && t[p] == b;
      assert r[p] == b;
      assert p < q;
    }
  }

  /** `Where`: the positions, in order, whose element satisfies `p`. */
  function Where<T>(xs: seq<T>, p: T -> bool): (r: seq<nat>)
    ensures InRange(r, |xs|)
    ensures forall k :: 0 <= k < |r| ==> p(xs[r[k]])
    ensures forall i :: i in r <==> 0 <= i < |xs| && p(xs[i])
    ensures forall k, l :: 0 <= k < l < |r| ==> r[k] < r[l]
  {
    if xs == [] then []
    else
      var init := xs[..|xs| - 1];
      var r := Where(init, p);
      assert forall k :: 0 <= k < |r| ==> xs[r[k]] == init[r[k]];
      if p(xs[|xs| - 1]) then r + [|xs| - 1] else r
  }

  /** `Where` keeps every position when every element qualifies, and none when none does. */
  lemma {:induction false} WhereAllNone<T>(xs: seq<T>, p: T -> bool)
    ensures (forall i :: 0 <= i < |xs| ==> p(xs[i])) ==> |Where(xs, p)| == |xs|
    ensures (forall i :: 0 <= i < |xs| ==> !p(xs[i])) ==> Where(xs, p) == []
  {
    if xs != [] {
      var init := xs[..|xs| - 1];
      assert forall i :: 0 <= i < |init| ==> init[i] == xs[i];
      WhereAllNone(init, p);
    }
  }

  /** In a sorted list, an element whose key is larger than every other element's comes last. */
  lemma SortedLargestLast(r: seq<nat>, keys: seq<seq<int>>, m: nat)
    requires InRange(r, |keys|) && Sorted(r, keys) && m in r
    requires forall x :: x in r && x != m ==> Less(keys[x], keys[m])
    ensures r[|r| - 1] == m
  {
    var q :| 0 <= q < |r| && r[q] == m;
    var last := r[|r| - 1];
    if q < |r| - 1 {
      assert !Less(keys[last], keys[m]);
    }
  }

  /** Without repeats, dropping the last element drops exactly that element. */
  lemma AllButLast<T>(r: seq<T>)
    requires |r| > 0 && Distinct(r)
    ensures forall x :: x in r[..|r| - 1] <==> x in r && x != r[|r| - 1]
  {
    var n := |r| - 1;
    forall x ensures x in r[..n] <==> x in r && x != r[n] {
      if x in r && x != r[n] {
        var q :| 0 <= q < |r| && r[q] == x;
        assert r[..n][q] == x;
      }
    }
  }

  /** `Where` lists each position once. */
  lemma WhereDistinct<T>(xs: seq<T>, p: T -> bool)
    ensures Distinct(Where(xs, p))
  {
  }

  lemma LessSingle(x: int, y: int)
    ensures Less([x], [y]) <==> x < y
  {
    assert [x][1..] == [] && [y][1..] == [];
  }

  lemma LessPair(x0: int, x1: int, y0: int, y1: int)
    ensures Less([x0, x1], [y0, y1]) <==> x0 < y0 || (x0 == y0 && x1 < y1)
  {
    assert [x0, x1][1..] == [x1] && [y0, y1][1..] == [y1];
    LessSingle(x1, y1);
  }

  /** The first few of a sorted list without repeats are members of it and have no repeats either. */
  lemma {:induction false} SortedSelection(xs: seq<nat>, keys: seq<seq<int>>, n: int)
    requires InRange(xs, |keys|) && Distinct(xs)
    ensures forall x :: x in Take(SortBy(xs, keys), n) ==> x in xs
    ensures Distinct(Take(SortBy(xs, keys), n))
  {
    SortByMembers(xs, keys);
    var r := SortBy(xs, keys);
    var t := Take(r, n);
    forall x | x in t ensures x in xs {
      var k :| 0 <= k < |t| && t[k] == x;
      assert r[k] == x;
    }
  }
}
