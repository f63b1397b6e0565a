/**
 * What a list of reboot steps means for the reactor: each integer cube (x, y, z) ends up
 * in the state of the last step whose cuboid contains it, and off when no step does. The
 * number of cubes that end up on, counted one integer coordinate at a time, is the reference
 * the compressed computation is proved against.
 */
module Cubes {
  import opened RebootParse
  import opened Compression

  datatype Axis = X | Y | Z

  function Along(st: Step, a: Axis): Range
  {
    match a
    case X => st.x
    case Y => st.y
    case Z => st.z
  }

  predicate Within(r: Range, t: int)
  {
    r.lo <= t < r.hi
  }

  predicate Covers(st: Step, x: int, y: int, z: int)
  {
    Within(st.x, x) && Within(st.y, y) && Within(st.z, z)
  }

  /** The state of cube (x, y, z) after all steps: that of the last step covering it. */
  function LastOn(steps: seq<Step>, x: int, y: int, z: int): bool
  {
    if steps == [] then false
    else if Covers(steps[|steps| - 1], x, y, z) then steps[|steps| - 1].on
    else LastOn(steps[..|steps| - 1], x, y, z)
  }

  /** No step after the i-th covers the cube. */
  predicate LastCovering(steps: seq<Step>, i: nat, x: int, y: int, z: int)
  {
    forall j :: i < j < |steps| ==> !Covers(steps[j], x, y, z)
  }

  /**
   * A cube is on exactly when some step covering it is "on" and no later step covers it;
   * in particular a cube no step covers is off.
   */
  lemma {:induction false} LastOnSpec(steps: seq<Step>, x: int, y: int, z: int)
    ensures LastOn(steps, x, y, z) <==>
      exists i :: 0 <= i < |steps| && Covers(steps[i], x, y, z) && steps[i].on && LastCovering(steps, i, x, y, z)
  {
    if steps != [] {
      var n := |steps| - 1;
      var init := steps[..n];
      LastOnSpec(init, x, y, z);
      if Covers(steps[n], x, y, z) {
        if steps[n].on {
          assert LastCovering(steps, n, x, y, z);
        } else {
          forall i | 0 <= i < |steps| && Covers(steps[i], x, y, z) && steps[i].on
            ensures exists j :: i < j < |steps| && Covers(steps[j], x, y, z)
          {
            assert i < n;
          }
        }
      } else {
        if LastOn(init, x, y, z) {
          var i :| 0 <= i < |init| && Covers(init[i], x, y, z) && init[i].on && LastCovering(init, i, x, y, z);
          assert steps[i] == init[i];
          assert LastCovering(steps, i, x, y, z) by {
            forall j | i < j < |steps| ensures !Covers(steps[j], x, y, z) {
              if j < n {
                assert steps[j] == init[j];
              }
            }
          }
        } else {
          forall i | 0 <= i < |steps| && Covers(steps[i], x, y, z) && steps[i].on
            ensures exists j :: i < j < |steps| && Covers(steps[j], x, y, z)
          {
            assert i < n && init[i] == steps[i];
            var j :| i < j < |init| && Covers(init[j], x, y, z);
            assert steps[j] == init[j];
          }
        }
      }
    }
  }

  /** The endpoints lo, hi of every step on one axis, step by step. */
  function Endpoints(steps: seq<Step>, a: Axis): (e: seq<int>)
    ensures |e| == 2 * |steps|
    ensures forall i :: 0 <= i < |steps| ==> Along(steps[i], a).lo in e && Along(steps[i], a).hi in e
  {
    if steps == [] then []
    else
      var init := Endpoints(steps[..|steps| - 1], a);
      var r := Along(steps[|steps| - 1], a);
      assert forall i :: 0 <= i < |steps| - 1 ==> steps[..|steps| - 1][i] == steps[i];
      init + [r.lo, r.hi]
  }

  /** The endpoints are exactly the bounds of the steps on that axis. */
  lemma {:induction false} EndpointsSpec(steps: seq<Step>, a: Axis, v: int)
    ensures v in Endpoints(steps, a) <==>
      exists i :: 0 <= i < |steps| && (v == Along(steps[i], a).lo || v == Along(steps[i], a).hi)
  {
    if steps != [] {
      var n := |steps| - 1;
      EndpointsSpec(steps[..n], a, v);
      assert forall i :: 0 <= i < n ==> steps[..n][i] == steps[i];
      var r := Along(steps[n], a);
      assert Endpoints(steps, a) == Endpoints(steps[..n], a) + [r.lo, r.hi];
    }
  }

  /** A box of integer cubes, one half-open range per axis. */
  datatype Box = Box(x: Range, y: Range, z: Range)

  function Side(b: Box, a: Axis): Range
  {
    match a
    case X => b.x
    case Y => b.y
    case Z => b.z
  }

  /** Every endpoint of every step lies within the box's bounds. */
  predicate Encloses(b: Box, steps: seq<Step>)
  {
    forall a, e :: e in Endpoints(steps, a) ==> Side(b, a).lo <= e <= Side(b, a).hi
  }

  /** A box encloses the steps whose bounds all lie within its own. */
  lemma BoundsEnclose(b: Box, steps: seq<Step>)
    requires forall i, a :: 0 <= i < |steps| ==>
      Side(b, a).lo <= Along(steps[i], a).lo <= Side(b, a).hi &&
      Side(b, a).lo <= Along(steps[i], a).hi <= Side(b, a).hi
    ensures Encloses(b, steps)
  {
    forall a, e | e in Endpoints(steps, a) ensures Side(b, a).lo <= e <= Side(b, a).hi {
      EndpointsSpec(steps, a, e);
    }
  }

  function Indicator(on: bool): int
  {
    if on then 1 else 0
  }

  /** Cube (x, y, z) as a 0/1 count, along the z axis. */
  function Line(steps: seq<Step>, x: int, y: int): int -> int
  {
    z => Indicator(LastOn(steps, x, y, z))
  }

  /** The cubes of column (x, y) that are on, along the y axis. */
  function Plane(steps: seq<Step>, zr: Range, x: int): int -> int
  {
    y => Sum(zr.lo, zr.hi, Line(steps, x, y))
  }

  function Volume(steps: seq<Step>, yr: Range, zr: Range): int -> int
  {
    x => Sum(yr.lo, yr.hi, Plane(steps, zr, x))
  }

  /** The number of integer cubes of the box that are on after all steps. */
  function CountIn(steps: seq<Step>, b: Box): int
  {
    Sum(b.x.lo, b.x.hi, Volume(steps, b.y, b.z))
  }

  /** The same count over compressed cells, each weighted by its size along each axis. */
  function CompressedPlane(steps: seq<Step>, uz: seq<int>, x: int): int -> int
  {
    y => Weighted(uz, Line(steps, x, y), 0)
  }

  function CompressedVolume(steps: seq<Step>, uy: seq<int>, uz: seq<int>): int -> int
  {
    x => Weighted(uy, CompressedPlane(steps, uz, x), 0)
  }

  function Compressed(steps: seq<Step>, ux: seq<int>, uy: seq<int>, uz: seq<int>): int
  {
    Weighted(ux, CompressedVolume(steps, uy, uz), 0)
  }

  lemma CountNonNegative(steps: seq<Step>, b: Box)
    ensures CountIn(steps, b) >= 0
  {
    forall x ensures Volume(steps, b.y, b.z)(x) >= 0 {
      forall y ensures Plane(steps, b.z, x)(y) >= 0 {
        SumNonNegative(b.z.lo, b.z.hi, Line(steps, x, y));
      }
      SumNonNegative(b.y.lo, b.y.hi, Plane(steps, b.z, x));
    }
    SumNonNegative(b.x.lo, b.x.hi, Volume(steps, b.y, b.z));
  }

  /** Two coordinates lie on the same side of every step's bounds on an axis. */
  predicate SameSide(steps: seq<Step>, a: Axis, t: int, t': int)
  {
    forall i :: 0 <= i < |steps| ==> (Within(Along(steps[i], a), t) <==> Within(Along(steps[i], a), t'))
  }

  /** The state of a cube depends only on which side of each step's bounds it lies. */
  lemma {:induction false} LastOnCongruent(steps: seq<Step>, x: int, y: int, z: int, x': int, y': int, z': int)
    requires SameSide(steps, X, x, x') && SameSide(steps, Y, y, y') && SameSide(steps, Z, z, z')
    ensures LastOn(steps, x, y, z) == LastOn(steps, x', y', z')
  {
    if steps != [] {
      var n := |steps| - 1;
      assert Along(steps[n], X) == steps[n].x && Along(steps[n], Y) == steps[n].y && Along(steps[n], Z) == steps[n].z;
      assert Covers(steps[n], x, y, z) == Covers(steps[n], x', y', z');
      var init := steps[..n];
      assert forall i :: 0 <= i < n ==> init[i] == steps[i];
      LastOnCongruent(init, x, y, z, x', y', z');
    }
  }

  /** The unique values u hold every endpoint of every step on axis a. */
  predicate Holds(steps: seq<Step>, a: Axis, u: seq<int>)
  {
    forall e :: e in Endpoints(steps, a) ==> e in u
  }

  /** Compression data for one axis: strictly increasing, nonempty, holding every endpoint. */
  predicate Compresses(steps: seq<Step>, a: Axis, u: seq<int>)
  {
    Increasing(u) && |u| > 0 && Holds(steps, a, u)
  }

  lemma CellSide(u: seq<int>, k: nat, t: int, e: int)
    requires Increasing(u) && e in u && k + 1 < |u| && u[k] <= t < u[k + 1]
    ensures e <= t <==> e <= u[k]
  {
    var p :| 0 <= p < |u| && u[p] == e;
    if p < k {
      assert u[p] < u[k];
    } else if p > k + 1 {
      assert u[k + 1] < u[p];
    }
  }

  /** Every coordinate of a cell lies on the same side of every bound as the cell's first. */
  lemma CellSameSide(steps: seq<Step>, a: Axis, u: seq<int>, k: nat, t: int)
    requires Compresses(steps, a, u) && k + 1 < |u| && u[k] <= t < u[k + 1]
    ensures SameSide(steps, a, t, u[k])
  {
    forall i | 0 <= i < |steps|
      ensures Within(Along(steps[i], a), t) <==> Within(Along(steps[i], a), u[k])
    {
      var r := Along(steps[i], a);
      CellSide(u, k, t, r.lo);
      CellSide(u, k, t, r.hi);
    }
  }

  /** No step covers a coordinate below the first or at or above the last unique value. */
  lemma OutsideSpan(steps: seq<Step>, a: Axis, u: seq<int>, t: int)
    requires Compresses(steps, a, u) && (t < u[0] || u[|u| - 1] <= t)
    ensures forall i :: 0 <= i < |steps| ==> !Within(Along(steps[i], a), t)
  {
    forall i | 0 <= i < |steps| ensures !Within(Along(steps[i], a), t) {
      var r := Along(steps[i], a);
      FirstIsLeast(u, r.lo);
      LastIsGreatest(u, r.hi);
    }
  }

  lemma SameSideSelf(steps: seq<Step>, a: Axis, t: int)
    ensures SameSide(steps, a, t, t)
  {
  }

  lemma OffOutside(steps: seq<Step>, a: Axis, u: seq<int>, x: int, y: int, z: int)
    requires Compresses(steps, a, u)
    requires var t := match a case X => x case Y => y case Z => z; t < u[0] || u[|u| - 1] <= t
    ensures !LastOn(steps, x, y, z)
  {
    OutsideSpan(steps, a, u, match a case X => x case Y => y case Z => z);
    assert forall i :: 0 <= i < |steps| ==> !Covers(steps[i], x, y, z);
    LastOnSpec(steps, x, y, z);
  }

  /** Lines whose coordinates lie on the same sides of all bounds have equal compressed counts. */
  lemma LinesAgree(steps: seq<Step>, uz: seq<int>, x: int, y: int, x': int, y': int)
    requires SameSide(steps, X, x, x') && SameSide(steps, Y, y, y')
    ensures Weighted(uz, Line(steps, x, y), 0) == Weighted(uz, Line(steps, x', y'), 0)
  {
    forall k | 0 <= k < |uz| - 1 ensures Line(steps, x, y)(uz[k]) == Line(steps, x', y')(uz[k]) {
      SameSideSelf(steps, Z, uz[k]);
      LastOnCongruent(steps, x, y, uz[k], x', y', uz[k]);
    }
    WeightedExt(uz, Line(steps, x, y), Line(steps, x', y'), 0);
  }

  lemma LineOff(steps: seq<Step>, a: Axis, u: seq<int>, uz: seq<int>, x: int, y: int)
    requires a != Z && Compresses(steps, a, u)
    requires var t := if a == X then x else y; t < u[0] || u[|u| - 1] <= t
    ensures Weighted(uz, Line(steps, x, y), 0) == 0
  {
    forall k | 0 <= k < |uz| - 1 ensures Line(steps, x, y)(uz[k]) == 0 {
      OffOutside(steps, a, u, x, y, uz[k]);
    }
    WeightedZero(uz, Line(steps, x, y), 0);
  }

  lemma CompressLine(steps: seq<Step>, uz: seq<int>, zr: Range, x: int, y: int)
    requires Compresses(steps, Z, uz) && zr.lo <= uz[0] && uz[|uz| - 1] <= zr.hi
    ensures Sum(zr.lo, zr.hi, Line(steps, x, y)) == Weighted(uz, Line(steps, x, y), 0)
  {
    var f := Line(steps, x, y);
    forall k, t | 0 <= k < |uz| - 1 && uz[k] <= t < uz[k + 1] ensures f(t) == f(uz[k]) {
      CellSameSide(steps, Z, uz, k, t);
      SameSideSelf(steps, X, x);
      SameSideSelf(steps, Y, y);
      LastOnCongruent(steps, x, y, t, x, y, uz[k]);
    }
    forall t | zr.lo <= t < uz[0] || uz[|uz| - 1] <= t < zr.hi ensures f(t) == 0 {
      OffOutside(steps, Z, uz, x, y, t);
    }
    AxisCompress(zr.lo, zr.hi, uz, f);
  }

  lemma CompressPlane(steps: seq<Step>, uy: seq<int>, uz: seq<int>, yr: Range, zr: Range, x: int)
    requires Compresses(steps, Y, uy) && yr.lo <= uy[0] && uy[|uy| - 1] <= yr.hi
    requires Compresses(steps, Z, uz) && zr.lo <= uz[0] && uz[|uz| - 1] <= zr.hi
    ensures Sum(yr.lo, yr.hi, Plane(steps, zr, x)) == Weighted(uy, CompressedPlane(steps, uz, x), 0)
  {
    var f, g := Plane(steps, zr, x), CompressedPlane(steps, uz, x);
    forall y | yr.lo <= y < yr.hi ensures f(y) == g(y) {
      CompressLine(steps, uz, zr, x, y);
    }
    SumExt(yr.lo, yr.hi, f, g);
    forall k, t | 0 <= k < |uy| - 1 && uy[k] <= t < uy[k + 1] ensures g(t) == g(uy[k]) {
      CellSameSide(steps, Y, uy, k, t);
      SameSideSelf(steps, X, x);
      LinesAgree(steps, uz, x, t, x, uy[k]);
    }
    forall t | yr.lo <= t < uy[0] || uy[|uy| - 1] <= t < yr.hi ensures g(t) == 0 {
      LineOff(steps, Y, uy, uz, x, t);
    }
    AxisCompress(yr.lo, yr.hi, uy, g);
  }

  /**
   * Compression is exact: for unique values holding every endpoint and a box reaching at
   * least as far, counting the box's cubes one by one equals the size-weighted sum over the
   * compressed cells.
   */
  lemma CompressVolume(steps: seq<Step>, ux: seq<int>, uy: seq<int>, uz: seq<int>, b: Box)
    requires Compresses(steps, X, ux) && b.x.lo <= ux[0] && ux[|ux| - 1] <= b.x.hi
    requires Compresses(steps, Y, uy) && b.y.lo <= uy[0] && uy[|uy| - 1] <= b.y.hi
    requires Compresses(steps, Z, uz) && b.z.lo <= uz[0] && uz[|uz| - 1] <= b.z.hi
    ensures CountIn(steps, b) == Compressed(steps, ux, uy, uz)
  {
    var f, g := Volume(steps, b.y, b.z), CompressedVolume(steps, uy, uz);
    forall x | b.x.lo <= x < b.x.hi ensures f(x) == g(x) {
      CompressPlane(steps, uy, uz, b.y, b.z, x);
    }
    SumExt(b.x.lo, b.x.hi, f, g);
    forall k, t | 0 <= k < |ux| - 1 && ux[k] <= t < ux[k + 1] ensures g(t) == g(ux[k]) {
      CellSameSide(steps, X, ux, k, t);
      forall j | 0 <= j < |uy| - 1
        ensures CompressedPlane(steps, uz, t)(uy[j]) == CompressedPlane(steps, uz, ux[k])(uy[j])
      {
        SameSideSelf(steps, Y, uy[j]);
        LinesAgree(steps, uz, t, uy[j], ux[k], uy[j]);
      }
      WeightedExt(uy, CompressedPlane(steps, uz, t), CompressedPlane(steps, uz, ux[k]), 0);
    }
    forall t | b.x.lo <= t < ux[0] || ux[|ux| - 1] <= t < b.x.hi ensures g(t) == 0 {
      forall j | 0 <= j < |uy| - 1 ensures CompressedPlane(steps, uz, t)(uy[j]) == 0 {
        LineOff(steps, X, ux, uz, t, uy[j]);
      }
      WeightedZero(uy, CompressedPlane(steps, uz, t), 0);
    }
    AxisCompress(b.x.lo, b.x.hi, ux, g);
  }

  /** Compression data made of endpoints only. */
  predicate Exact(steps: seq<Step>, a: Axis, u: seq<int>)
  {
    Compresses(steps, a, u) && forall w :: w in u ==> w in Endpoints(steps, a)
  }

  /** The sorted distinct endpoints on one axis compress it. */
  lemma UniqueExact(steps: seq<Step>, a: Axis)
    requires |steps| > 0
    ensures Exact(steps, a, Unique(Endpoints(steps, a)))
  {
    assert Along(steps[0], a).lo in Endpoints(steps, a);
  }

  /** The smallest box holding every endpoint. */
  function Hull(steps: seq<Step>): (b: Box)
    requires |steps| > 0
    ensures Encloses(b, steps)
  {
    var ex, ey, ez := Endpoints(steps, X), Endpoints(steps, Y), Endpoints(steps, Z);
    var b := Box(Range(Least(ex), Greatest(ex)), Range(Least(ey), Greatest(ey)), Range(Least(ez), Greatest(ez)));
    assert forall a, e :: e in Endpoints(steps, a) ==> Side(b, a).lo <= e <= Side(b, a).hi by {
      forall a, e | e in Endpoints(steps, a) ensures Side(b, a).lo <= e <= Side(b, a).hi {
        if a == X {
          assert Side(b, X) == Range(Least(ex), Greatest(ex));
        } else if a == Y {
          assert Side(b, Y) == Range(Least(ey), Greatest(ey));
        } else {
          assert Side(b, Z) == Range(Least(ez), Greatest(ez));
        }
      }
    }
    b
  }

  /** Without steps nothing is on. */
  lemma NoStepsNothingOn(b: Box)
    ensures CountIn([], b) == 0
  {
    forall x ensures Volume([], b.y, b.z)(x) == 0 {
      forall y ensures Plane([], b.z, x)(y) == 0 {
        SumZero(b.z.lo, b.z.hi, Line([], x, y));
      }
      SumZero(b.y.lo, b.y.hi, Plane([], b.z, x));
    }
    SumZero(b.x.lo, b.x.hi, Volume([], b.y, b.z));
  }

  lemma EnclosedSpan(steps: seq<Step>, b: Box, a: Axis, u: seq<int>)
    requires Exact(steps, a, u) && Encloses(b, steps)
    ensures Side(b, a).lo <= u[0] && u[|u| - 1] <= Side(b, a).hi
  {
    assert u[0] in u && u[|u| - 1] in u;
  }

  /** Any box holding every endpoint is counted exactly by the compressed cells. */
  lemma CountByCells(steps: seq<Step>, b: Box, ux: seq<int>, uy: seq<int>, uz: seq<int>)
    requires Exact(steps, X, ux) && Exact(steps, Y, uy) && Exact(steps, Z, uz) && Encloses(b, steps)
    ensures CountIn(steps, b) == Compressed(steps, ux, uy, uz)
  {
    EnclosedSpan(steps, b, X, ux);
    EnclosedSpan(steps, b, Y, uy);
    EnclosedSpan(steps, b, Z, uz);
    CompressVolume(steps, ux, uy, uz, b);
  }

  /** Any two boxes holding every endpoint contain the same number of cubes that are on. */
  lemma BoxIrrelevant(steps: seq<Step>, b: Box, b': Box)
    requires Encloses(b, steps) && Encloses(b', steps)
    ensures CountIn(steps, b) == CountIn(steps, b')
  {
    if steps == [] {
      NoStepsNothingOn(b);
      NoStepsNothingOn(b');
    } else {
      UniqueExact(steps, X);
      UniqueExact(steps, Y);
      UniqueExact(steps, Z);
      var ux, uy, uz := Unique(Endpoints(steps, X)), Unique(Endpoints(steps, Y)), Unique(Endpoints(steps, Z));
      CountByCells(steps, b, ux, uy, uz);
      CountByCells(steps, b', ux, uy, uz);
    }
  }
}
