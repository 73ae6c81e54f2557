/** Optional values, finite sums and sorted id lists shared by every service model. */
module Basics {
  datatype Option<+T> = None | Some(value: T)

  lemma Regroup<T>(x: seq<T>, y: seq<T>, z: seq<T>)
    ensures (x + y) + z == x + (y + z)
  {
  }

  /** Adding one element to a list adds one to its count. */
  lemma CountAppend<T>(xs: seq<T>, e: T, f: T)
    ensures multiset(xs + [e])[f] == multiset(xs)[f] + if e == f then 1 else 0
  {
  }

  // ---------- sums over sequences ----------

  function Sum(xs: seq<int>): int {
    if xs == [] then 0 else Sum(xs[..|xs| - 1]) + xs[|xs| - 1]
  }

  lemma {:induction false} SumAppend(xs: seq<int>, ys: seq<int>)
    ensures Sum(xs + ys) == Sum(xs) + Sum(ys)
  {
    if ys == [] {
      assert xs + ys == xs;
    } else {
      assert (xs + ys)[..|xs + ys| - 1] == xs + ys[..|ys| - 1];
      SumAppend(xs, ys[..|ys| - 1]);
    }
  }

  /** Pointwise addition of two lists adds their sums. */
  lemma {:induction false} SumPointwise(xs: seq<int>, ys: seq<int>, zs: seq<int>)
    requires |xs| == |ys| == |zs|
    requires forall i :: 0 <= i < |xs| ==> zs[i] == xs[i] + ys[i]
    ensures Sum(zs) == Sum(xs) + Sum(ys)
  {
    if xs != [] {
      var n := |xs| - 1;
      SumPointwise(xs[..n], ys[..n], zs[..n]);
    }
  }

  lemma {:induction false} SumUpdate(xs: seq<int>, i: nat, v: int)
    requires i < |xs|
    ensures Sum(xs[i := v]) == Sum(xs) - xs[i] + v
  {
    var n := |xs| - 1;
    if i == n {
      assert xs[i := v][..n] == xs[..n];
    } else {
      assert xs[i := v][..n] == xs[..n][i := v];
      SumUpdate(xs[..n], i, v);
    }
  }

  /** A list of non-negative numbers bounds each of its elements. */
  lemma {:induction false} SumBoundsElement(xs: seq<int>, i: nat)
    requires i < |xs|
    requires forall k :: 0 <= k < |xs| ==> xs[k] >= 0
    ensures Sum(xs) >= xs[i]
  {
    SumNonNegative(xs[i := 0]);
    SumUpdate(xs, i, 0);
  }

  lemma {:induction false} SumNonNegative(xs: seq<int>)
    requires forall k :: 0 <= k < |xs| ==> xs[k] >= 0
    ensures Sum(xs) >= 0
  {
    if xs != [] {
      SumNonNegative(xs[..|xs| - 1]);
    }
  }

  lemma {:induction false} SumZero(xs: seq<int>)
    requires forall k :: 0 <= k < |xs| ==> xs[k] == 0
    ensures Sum(xs) == 0
  {
    if xs != [] {
      SumZero(xs[..|xs| - 1]);
    }
  }

  // ---------- sums over maps ----------

  ghost function MapSum(m: map<nat, int>): int
    decreases |m|
  {
    if m == map[] then 0
    else
      var k :| k in m;
      assert |m - {k}| < |m| by { assert (m - {k}).Keys == m.Keys - {k}; }
      m[k] + MapSum(m - {k})
  }

  /** The order in which keys are taken does not matter. */
  lemma {:induction false} MapSumRemove(m: map<nat, int>, k: nat)
    requires k in m
    ensures MapSum(m) == m[k] + MapSum(m - {k})
    decreases |m|
  {
    var j :| j in m && MapSum(m) == m[j] + MapSum(m - {j});
    if j != k {
      assert (m - {j}).Keys == m.Keys - {j};
      assert (m - {k}).Keys == m.Keys - {k};
      MapSumRemove(m - {j}, k);
      MapSumRemove(m - {k}, j);
      assert m - {j} - {k} == m - {k} - {j};
    }
  }

  lemma MapSumInsert(m: map<nat, int>, k: nat, v: int)
    requires k !in m
    ensures MapSum(m[k := v]) == MapSum(m) + v
  {
    MapSumRemove(m[k := v], k);
    assert m[k := v] - {k} == m;
  }

  lemma MapSumUpdate(m: map<nat, int>, k: nat, v: int)
    requires k in m
    ensures MapSum(m[k := v]) == MapSum(m) - m[k] + v
  {
    MapSumRemove(m[k := v], k);
    MapSumRemove(m, k);
    assert m[k := v] - {k} == m - {k};
  }

  lemma {:induction false} MapSumPointwise(m: map<nat, int>, d: map<nat, int>, r: map<nat, int>)
    requires m.Keys == d.Keys == r.Keys
    requires forall k :: k in m ==> r[k] == m[k] + d[k]
    ensures MapSum(r) == MapSum(m) + MapSum(d)
    decreases |m|
  {
    if m == map[] {
      assert d == map[] && r == map[];
    } else {
      var k :| k in m;
      MapSumRemove(m, k);
      MapSumRemove(d, k);
      MapSumRemove(r, k);
      assert (m - {k}).Keys == m.Keys - {k};
      assert (d - {k}).Keys == d.Keys - {k};
      assert (r - {k}).Keys == r.Keys - {k};
      MapSumPointwise(m - {k}, d - {k}, r - {k});
    }
  }

  lemma {:induction false} MapSumMonotone(m: map<nat, int>, n: map<nat, int>)
    requires m.Keys == n.Keys
    requires forall k :: k in m ==> m[k] <= n[k]
    ensures MapSum(m) <= MapSum(n)
    decreases |m|
  {
    if m == map[] {
      assert n == map[];
    } else {
      var k :| k in m;
      MapSumRemove(m, k);
      MapSumRemove(n, k);
      assert (m - {k}).Keys == m.Keys - {k};
      assert (n - {k}).Keys == n.Keys - {k};
      MapSumMonotone(m - {k}, n - {k});
    }
  }

  lemma {:induction false} MapSumZero(m: map<nat, int>)
    requires forall k :: k in m ==> m[k] == 0
    ensures MapSum(m) == 0
    decreases |m|
  {
    if m != map[] {
      var k :| k in m;
      MapSumRemove(m, k);
      assert (m - {k}).Keys == m.Keys - {k};
      MapSumZero(m - {k});
    }
  }

  /** Two pairs of maps that add up the same everywhere have the same sum. */
  lemma MapSumExchange(m: map<nat, int>, d: map<nat, int>, n: map<nat, int>, e: map<nat, int>)
    requires m.Keys == d.Keys == n.Keys == e.Keys
    requires forall k :: k in m ==> m[k] + d[k] == n[k] + e[k]
    ensures MapSum(m) + MapSum(d) == MapSum(n) + MapSum(e)
  {
    hide MapSum;
    var both := map k | k in m :: m[k] + d[k];
    MapSumPointwise(m, d, both);
    MapSumPointwise(n, e, both);
  }

  /** In a sum of zero every entry that is not zero has one of the opposite sign. */
  lemma MapSumOpposite(m: map<nat, int>, k: nat)
    requires MapSum(m) == 0 && k in m && m[k] != 0
    ensures exists j :: j in m && j != k && (m[k] > 0 ==> m[j] < 0) && (m[k] < 0 ==> m[j] > 0)
  {
    MapSumRemove(m, k);
    var rest := m - {k};
    var zeros := map j | j in rest :: 0;
    MapSumZero(zeros);
    if forall j :: j in rest ==> rest[j] >= 0 {
      MapSumMonotone(zeros, rest);
    }
    if forall j :: j in rest ==> rest[j] <= 0 {
      MapSumMonotone(rest, zeros);
    }
  }

  // ---------- sorted id lists ----------

  predicate Increasing(ids: seq<nat>) {
    forall i, j :: 0 <= i < j < |ids| ==> ids[i] < ids[j]
  }

  lemma {:induction false} LeastFrom(s: set<nat>, x: nat)
    requires x in s
    ensures exists m :: m in s && forall y :: y in s ==> m <= y
    decreases x
  {
    if y :| y in s && y < x {
      LeastFrom(s, y);
    } else {
      assert forall y :: y in s ==> x <= y;
    }
  }

  lemma LeastExists(s: set<nat>)
    requires s != {}
    ensures exists m :: m in s && forall x :: x in s ==> m <= x
  {
    var x :| x in s;
    LeastFrom(s, x);
  }

  lemma SortedCons(s: set<nat>, m: nat, rest: seq<nat>)
    requires m in s && (forall x :: x in s ==> m <= x) && Increasing(rest) && forall x :: x in s - {m} <==> x in rest
    ensures Increasing([m] + rest) && forall x :: x in s <==> x in [m] + rest
  {
    forall k | 0 <= k < |rest|
      ensures m < rest[k]
    {
      assert rest[k] in rest;
    }
  }

  /** The ids of a set in increasing order: the result of sorting the keys of a Map. */
  function Sorted(s: set<nat>): (ids: seq<nat>)
    ensures Increasing(ids)
    ensures forall x :: x in s <==> x in ids
  {
    if s == {} then []
    else
      LeastExists(s);
      var m :| m in s && forall x :: x in s ==> m <= x;
      var rest := Sorted(s - {m});
      SortedCons(s, m, rest);
      [m] + rest
  }

  lemma AllOneIsShort(ids: seq<nat>, x: nat)
    requires Increasing(ids) && forall k :: 0 <= k < |ids| ==> ids[k] == x
    ensures |ids| <= 1
  {
    if ids != [] {
      var first, last := ids[0], ids[|ids| - 1];
    }
  }

  lemma TwoAscending(ids: seq<nat>, x: nat, y: nat)
    requires Increasing(ids) && x < y && (forall k :: 0 <= k < |ids| ==> ids[k] == x || ids[k] == y) && x in ids && y in ids
    ensures ids == [x, y]
  {
    var i :| 0 <= i < |ids| && ids[i] == x;
    var j :| 0 <= j < |ids| && ids[j] == y;
    var first, next, last := ids[0], if |ids| > 1 then ids[1] else x, ids[|ids| - 1];
    assert first == x && last == y;
  }
}
