/**
 * Coordinate compression on one axis: the sorted distinct endpoints, the index of an
 * endpoint among them, the sizes of the cells between consecutive endpoints, and the
 * summation facts that let a sum over every integer coordinate be replaced by a sum over
 * cells weighted by their sizes.
 */
module Compression {

  /** Strictly increasing. */
  predicate Increasing(u: seq<int>)
  {
    forall i, j :: 0 <= i < j < |u| ==> u[i] < u[j]
  }

  /** Adds v to a strictly increasing sequence, keeping it strictly increasing. */
  function Insert(u: seq<int>, v: int): (r: seq<int>)
    requires Increasing(u)
    ensures Increasing(r)
    ensures forall w :: w in r <==> w in u || w == v
    ensures |r| > 0 && (r[0] == v || (|u| > 0 && r[0] == u[0]))
  {
    if u == [] then [v]
    else if v < u[0] then [v] + u
    else if v == u[0] then u
    else
      var rest := Insert(u[1..], v);
      assert forall w :: w in rest ==> u[0] < w by {
        forall w | w in rest ensures u[0] < w {
          if w != v {
            var k :| 1 <= k < |u| && u[k] == w;
          }
        }
      }
      assert forall k :: 0 <= k < |rest| ==> rest[k] in rest;
      [u[0]] + rest
  }

  /** `np.unique`: the distinct values of s in increasing order. */
  function Unique(s: seq<int>): (u: seq<int>)
    ensures Increasing(u)
    ensures forall w :: w in u <==> w in s
  {
    if s == [] then [] else Insert(Unique(s[..|s| - 1]), s[|s| - 1])
  }

  lemma FirstIsLeast(a: seq<int>, w: int)
    requires Increasing(a) && w in a
    ensures a[0] <= w
  {
    var j :| 0 <= j < |a| && a[j] == w;
    if j > 0 {
      assert a[0] < a[j];
    }
  }

  lemma LastIsGreatest(a: seq<int>, w: int)
    requires Increasing(a) && w in a
    ensures w <= a[|a| - 1]
  {
    var j :| 0 <= j < |a| && a[j] == w;
    if j < |a| - 1 {
      assert a[j] < a[|a| - 1];
    }
  }

  function Least(s: seq<int>): (m: int)
    requires |s| > 0
    ensures m in s && forall v :: v in s ==> m <= v
  {
    if |s| == 1 then s[0]
    else
      var m := Least(s[1..]);
      assert forall v :: v in s ==> v == s[0] || v in s[1..];
      if s[0] <= m then s[0] else m
  }

  function Greatest(s: seq<int>): (m: int)
    requires |s| > 0
    ensures m in s && forall v :: v in s ==> v <= m
  {
    if |s| == 1 then s[0]
    else
      var m := Greatest(s[1..]);
      assert forall v :: v in s ==> v == s[0] || v in s[1..];
      if s[0] >= m then s[0] else m
  }

  /** Only one strictly increasing sequence has a given set of elements. */
  lemma {:induction false} IncreasingDetermined(a: seq<int>, b: seq<int>)
    requires Increasing(a) && Increasing(b)
    requires forall w :: w in a <==> w in b
    ensures a == b
  {
    assert |a| > 0 ==> a[0] in a;
    assert |b| > 0 ==> b[0] in b;
    if a != [] && b != [] {
      FirstIsLeast(a, b[0]);
      FirstIsLeast(b, a[0]);
      forall w ensures w in a[1..] <==> w in b[1..] {
        if w in a[1..] {
          var i :| 1 <= i < |a| && a[i] == w;
          assert a[0] < w && w in a;
          var j :| 0 <= j < |b| && b[j] == w;
          assert j != 0;
          assert b[1..][j - 1] == w;
        }
        if w in b[1..] {
          var i :| 1 <= i < |b| && b[i] == w;
          assert b[0] < w && w in b;
          var j :| 0 <= j < |a| && a[j] == w;
          assert j != 0;
          assert a[1..][j - 1] == w;
        }
      }
      IncreasingDetermined(a[1..], b[1..]);
      assert a == [a[0]] + a[1..] && b == [b[0]] + b[1..];
    }
  }

  /** The inverse mapping of `np.unique(..., return_inverse=True)` for one value. */
  function Index(u: seq<int>, v: int): (i: nat)
    requires v in u
    ensures i < |u| && u[i] == v
  {
    if u[0] == v then 0 else 1 + Index(u[1..], v)
  }

  /**
   * Compressed half-open ranges select the same cells as the original ones: between the
   * indices of lo and hi lie exactly the unique values in [lo, hi).
   */
  lemma IndexOrder(u: seq<int>, lo: int, hi: int, i: nat)
    requires Increasing(u) && lo in u && hi in u && i < |u|
    ensures Index(u, lo) <= i < Index(u, hi) <==> lo <= u[i] < hi
  {
    var a, b := Index(u, lo), Index(u, hi);
    assert a < i ==> u[a] < u[i];
    assert i < a ==> u[i] < u[a];
    assert b < i ==> u[b] < u[i];
    assert i < b ==> u[i] < u[b];
  }

  /** `np.diff`: the sizes of the cells between consecutive unique values. */
  function Sizes(u: seq<int>): (d: seq<int>)
    requires |u| > 0
    ensures |d| == |u| - 1
    ensures forall i :: 0 <= i < |d| ==> u[i] + d[i] == u[i + 1]
    ensures Increasing(u) ==> forall i :: 0 <= i < |d| ==> d[i] > 0
  {
    seq(|u| - 1, i requires 0 <= i < |u| - 1 => u[i + 1] - u[i])
  }

  /** f(lo) + f(lo + 1) + ... + f(hi - 1). */
  function Sum(lo: int, hi: int, f: int -> int): int
    decreases hi - lo
  {
    if lo >= hi then 0 else f(lo) + Sum(lo + 1, hi, f)
  }

  lemma {:induction false} SumSplit(lo: int, mid: int, hi: int, f: int -> int)
    requires lo <= mid <= hi
    ensures Sum(lo, hi, f) == Sum(lo, mid, f) + Sum(mid, hi, f)
    decreases mid - lo
  {
    if lo < mid {
      SumSplit(lo + 1, mid, hi, f);
    }
  }

  lemma {:induction false} SumConst(lo: int, hi: int, f: int -> int, c: int)
    requires lo <= hi
    requires forall t :: lo <= t < hi ==> f(t) == c
    ensures Sum(lo, hi, f) == (hi - lo) * c
    decreases hi - lo
  {
    if lo < hi {
      SumConst(lo + 1, hi, f, c);
    }
  }

  lemma {:induction false} SumZero(lo: int, hi: int, f: int -> int)
    requires forall t :: lo <= t < hi ==> f(t) == 0
    ensures Sum(lo, hi, f) == 0
    decreases hi - lo
  {
    if lo < hi {
      SumZero(lo + 1, hi, f);
    }
  }

  lemma {:induction false} SumExt(lo: int, hi: int, f: int -> int, g: int -> int)
    requires forall t :: lo <= t < hi ==> f(t) == g(t)
    ensures Sum(lo, hi, f) == Sum(lo, hi, g)
    decreases hi - lo
  {
    if lo < hi {
      SumExt(lo + 1, hi, f, g);
    }
  }

  lemma {:induction false} SumNonNegative(lo: int, hi: int, f: int -> int)
    requires forall t :: lo <= t < hi ==> f(t) >= 0
    ensures Sum(lo, hi, f) >= 0
    decreases hi - lo
  {
    if lo < hi {
      SumNonNegative(lo + 1, hi, f);
    }
  }

  /** The cells from index i on, each counted as its size times f at its first value. */
  function Weighted(u: seq<int>, f: int -> int, i: nat): int
    decreases |u| - i
  {
    if i + 1 >= |u| then 0 else (u[i + 1] - u[i]) * f(u[i]) + Weighted(u, f, i + 1)
  }

  lemma {:induction false} WeightedExt(u: seq<int>, f: int -> int, g: int -> int, i: nat)
    requires forall k :: i <= k < |u| - 1 ==> f(u[k]) == g(u[k])
    ensures Weighted(u, f, i) == Weighted(u, g, i)
    decreases |u| - i
  {
    if i + 1 < |u| {
      WeightedExt(u, f, g, i + 1);
    }
  }

  lemma {:induction false} WeightedZero(u: seq<int>, f: int -> int, i: nat)
    requires forall k :: i <= k < |u| - 1 ==> f(u[k]) == 0
    ensures Weighted(u, f, i) == 0
    decreases |u| - i
  {
    if i + 1 < |u| {
      WeightedZero(u, f, i + 1);
    }
  }

  lemma {:induction false} WeightedNonNegative(u: seq<int>, f: int -> int, i: nat)
    requires Increasing(u)
    requires forall k :: i <= k < |u| - 1 ==> f(u[k]) >= 0
    ensures Weighted(u, f, i) >= 0
    decreases |u| - i
  {
    if i + 1 < |u| {
      assert u[i] < u[i + 1];
      WeightedNonNegative(u, f, i + 1);
    }
  }

  /** f takes one value on each cell [u[k], u[k + 1]). */
  predicate ConstantOnCells(u: seq<int>, f: int -> int)
  {
    forall k, t :: 0 <= k < |u| - 1 && u[k] <= t < u[k + 1] ==> f(t) == f(u[k])
  }

  lemma {:induction false} CellsSum(u: seq<int>, f: int -> int, i: nat)
    requires Increasing(u) && i < |u| && ConstantOnCells(u, f)
    ensures Sum(u[i], u[|u| - 1], f) == Weighted(u, f, i)
    decreases |u| - i
  {
    if i + 1 < |u| {
      assert u[i] < u[i + 1];
      assert u[i + 1] <= u[|u| - 1] by {
        if i + 1 < |u| - 1 {
          assert u[i + 1] < u[|u| - 1];
        }
      }
      SumSplit(u[i], u[i + 1], u[|u| - 1], f);
      SumConst(u[i], u[i + 1], f, f(u[i]));
      CellsSum(u, f, i + 1);
    }
  }

  /**
   * Compression on one axis: a sum over every integer in [lo, hi) of a function that is
   * constant on each cell and zero outside the unique values' span is the size-weighted sum
   * over the cells.
   */
  lemma AxisCompress(lo: int, hi: int, u: seq<int>, f: int -> int)
    requires Increasing(u) && |u| > 0 && lo <= u[0] && u[|u| - 1] <= hi
    requires ConstantOnCells(u, f)
    requires forall t :: lo <= t < u[0] || u[|u| - 1] <= t < hi ==> f(t) == 0
    ensures Sum(lo, hi, f) == Weighted(u, f, 0)
  {
    assert u[0] <= u[|u| - 1] by {
      if |u| > 1 {
        assert u[0] < u[|u| - 1];
      }
    }
    SumSplit(lo, u[0], hi, f);
    SumSplit(u[0], u[|u| - 1], hi, f);
    SumConst(lo, u[0], f, 0);
    SumConst(u[|u| - 1], hi, f, 0);
    CellsSum(u, f, 0);
  }
}
