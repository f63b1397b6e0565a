/**
 * count_active_cubes: the endpoints of the steps are compressed axis by axis, the steps are
 * painted in order onto a boolean grid over the compressed coordinates, and every cell that
 * is on counts with the product of its sizes along the three axes.
 */
module Reactor {
  import opened RebootParse
  import opened Compression
  import opened Cubes

  /** d holds the sizes of the cells between consecutive values of u. */
  predicate SizesOf(u: seq<int>, d: seq<int>)
  {
    |u| > 0 && |d| == |u| - 1 && forall i :: 0 <= i < |d| ==> d[i] == u[i + 1] - u[i]
  }

  /** The size weights cover the grid without its last index on each axis. */
  predicate Fits(g: array3<bool>, dx: seq<int>, dy: seq<int>, dz: seq<int>)
  {
    |dx| <= g.Length0 && |dy| <= g.Length1 && |dz| <= g.Length2
  }

  /** Cell (i, j, k) of `reactor[:-1, :-1, :-1] * grid_cell_sizes`. */
  function Cell(g: array3<bool>, dx: seq<int>, dy: seq<int>, dz: seq<int>, i: nat, j: nat, k: nat): int
    reads g
    requires Fits(g, dx, dy, dz) && i < |dx| && j < |dy| && k < |dz|
  {
    if g[i, j, k] then dx[i] * dy[j] * dz[k] else 0
  }

  /** The sum of the cells (i, j, k..) . */
  function RowTotal(g: array3<bool>, dx: seq<int>, dy: seq<int>, dz: seq<int>, i: nat, j: nat, k: nat): int
    reads g
    requires Fits(g, dx, dy, dz) && i < |dx| && j < |dy| && k <= |dz|
    decreases |dz| - k
  {
    if k == |dz| then 0 else Cell(g, dx, dy, dz, i, j, k) + RowTotal(g, dx, dy, dz, i, j, k + 1)
  }

  function PlaneTotal(g: array3<bool>, dx: seq<int>, dy: seq<int>, dz: seq<int>, i: nat, j: nat): int
    reads g
    requires Fits(g, dx, dy, dz) && i < |dx| && j <= |dy|
    decreases |dy| - j
  {
    if j == |dy| then 0 else RowTotal(g, dx, dy, dz, i, j, 0) + PlaneTotal(g, dx, dy, dz, i, j + 1)
  }

  /** `reactor64.sum()` from the plane i on. */
  function GridTotal(g: array3<bool>, dx: seq<int>, dy: seq<int>, dz: seq<int>, i: nat): int
    reads g
    requires Fits(g, dx, dy, dz) && i <= |dx|
    decreases |dx| - i
  {
    if i == |dx| then 0 else PlaneTotal(g, dx, dy, dz, i, 0) + GridTotal(g, dx, dy, dz, i + 1)
  }

  /** Every cell of the grid holds the state, after the steps, of its first cube. */
  predicate Painted(g: array3<bool>, steps: seq<Step>, ux: seq<int>, uy: seq<int>, uz: seq<int>)
    reads g
  {
    g.Length0 == |ux| && g.Length1 == |uy| && g.Length2 == |uz| &&
    forall i, j, k :: 0 <= i < |ux| && 0 <= j < |uy| && 0 <= k < |uz| ==>
      g[i, j, k] == LastOn(steps, ux[i], uy[j], uz[k])
  }

  lemma Distribute(a: int, b: int, c: int)
    ensures a * (b + c) == a * b + a * c
  {
  }

  lemma Factor(a: int, b: int, c: int, rest: int)
    ensures a * b * c + a * rest == a * (b * c + rest)
  {
  }

  lemma {:induction false} RowMatches(g: array3<bool>, steps: seq<Step>, ux: seq<int>, uy: seq<int>, uz: seq<int>,
                                     dx: seq<int>, dy: seq<int>, dz: seq<int>, i: nat, j: nat, k: nat)
    requires Painted(g, steps, ux, uy, uz) && SizesOf(ux, dx) && SizesOf(uy, dy) && SizesOf(uz, dz)
    requires i < |dx| && j < |dy| && k <= |dz|
    ensures RowTotal(g, dx, dy, dz, i, j, k) == dx[i] * dy[j] * Weighted(uz, Line(steps, ux[i], uy[j]), k)
    decreases |dz| - k
  {
    if k < |dz| {
      RowMatches(g, steps, ux, uy, uz, dx, dy, dz, i, j, k + 1);
      var c := Indicator(LastOn(steps, ux[i], uy[j], uz[k]));
      var rest := Weighted(uz, Line(steps, ux[i], uy[j]), k + 1);
      assert Cell(g, dx, dy, dz, i, j, k) == dx[i] * dy[j] * (dz[k] * c);
      Distribute(dx[i] * dy[j], dz[k] * c, rest);
    }
  }

  lemma {:induction false} PlaneMatches(g: array3<bool>, steps: seq<Step>, ux: seq<int>, uy: seq<int>, uz: seq<int>,
                                       dx: seq<int>, dy: seq<int>, dz: seq<int>, i: nat, j: nat)
    requires Painted(g, steps, ux, uy, uz) && SizesOf(ux, dx) && SizesOf(uy, dy) && SizesOf(uz, dz)
    requires i < |dx| && j <= |dy|
    ensures PlaneTotal(g, dx, dy, dz, i, j) == dx[i] * Weighted(uy, CompressedPlane(steps, uz, ux[i]), j)
    decreases |dy| - j
  {
    if j < |dy| {
      PlaneMatches(g, steps, ux, uy, uz, dx, dy, dz, i, j + 1);
      RowMatches(g, steps, ux, uy, uz, dx, dy, dz, i, j, 0);
      var c := Weighted(uz, Line(steps, ux[i], uy[j]), 0);
      var rest := Weighted(uy, CompressedPlane(steps, uz, ux[i]), j + 1);
      assert CompressedPlane(steps, uz, ux[i])(uy[j]) == c;
      assert Weighted(uy, CompressedPlane(steps, uz, ux[i]), j) == dy[j] * c + rest;
      Factor(dx[i], dy[j], c, rest);
    }
  }

  lemma {:induction false} GridMatches(g: array3<bool>, steps: seq<Step>, ux: seq<int>, uy: seq<int>, uz: seq<int>,
                                      dx: seq<int>, dy: seq<int>, dz: seq<int>, i: nat)
    requires Painted(g, steps, ux, uy, uz) && SizesOf(ux, dx) && SizesOf(uy, dy) && SizesOf(uz, dz)
    requires i <= |dx|
    ensures GridTotal(g, dx, dy, dz, i) == Weighted(ux, CompressedVolume(steps, uy, uz), i)
    decreases |dx| - i
  {
    if i < |dx| {
      GridMatches(g, steps, ux, uy, uz, dx, dy, dz, i + 1);
      PlaneMatches(g, steps, ux, uy, uz, dx, dy, dz, i, 0);
      assert CompressedVolume(steps, uy, uz)(ux[i]) == Weighted(uy, CompressedPlane(steps, uz, ux[i]), 0);
    }
  }

  /**
   * `reactor[x0:x1, y0:y1, z0:z1] = on`: exactly the cells of the compressed box take the
   * command; every other cell keeps its state.
   */
  method Paint(reactor: array3<bool>, x0: nat, x1: nat, y0: nat, y1: nat, z0: nat, z1: nat, on: bool)
    requires x1 <= reactor.Length0 && y1 <= reactor.Length1 && z1 <= reactor.Length2
    modifies reactor
    ensures forall i, j, k :: 0 <= i < reactor.Length0 && 0 <= j < reactor.Length1 && 0 <= k < reactor.Length2 ==>
      reactor[i, j, k] == if x0 <= i < x1 && y0 <= j < y1 && z0 <= k < z1 then on else old(reactor[i, j, k])
  {
    forall i, j, k | x0 <= i < x1 && y0 <= j < y1 && z0 <= k < z1 {
      reactor[i, j, k] := on;
    }
  }

  /** Both ends of step s on an axis are unique values, and the cells between their indices are those it spans. */
  lemma StepSpan(steps: seq<Step>, s: nat, a: Axis, u: seq<int>, i: nat)
    requires s < |steps| && Exact(steps, a, u) && i < |u|
    ensures Along(steps[s], a).lo in u && Along(steps[s], a).hi in u
    ensures Index(u, Along(steps[s], a).lo) <= i < Index(u, Along(steps[s], a).hi) <==> Within(Along(steps[s], a), u[i])
  {
    var r := Along(steps[s], a);
    assert r.lo in Endpoints(steps, a) && r.hi in Endpoints(steps, a);
    IndexOrder(u, r.lo, r.hi, i);
  }

  /** Step s decides the cubes it covers and leaves the others as the steps before it left them. */
  lemma LastOnStep(steps: seq<Step>, s: nat, x: int, y: int, z: int)
    requires s < |steps|
    ensures LastOn(steps[..s + 1], x, y, z) == if Covers(steps[s], x, y, z) then steps[s].on else LastOn(steps[..s], x, y, z)
  {
    assert steps[..s + 1][..s] == steps[..s];
    assert steps[..s + 1][s] == steps[s];
  }

  /** A cell's first cube is covered by a step exactly when the cell lies in the step's compressed box. */
  lemma PaintedCell(steps: seq<Step>, s: nat, ux: seq<int>, uy: seq<int>, uz: seq<int>, i: nat, j: nat, k: nat)
    requires s < |steps| && Exact(steps, X, ux) && Exact(steps, Y, uy) && Exact(steps, Z, uz)
    requires i < |ux| && j < |uy| && k < |uz|
    ensures var st := steps[s];
      st.x.lo in ux && st.x.hi in ux && st.y.lo in uy && st.y.hi in uy && st.z.lo in uz && st.z.hi in uz &&
      LastOn(steps[..s + 1], ux[i], uy[j], uz[k]) ==
        if Index(ux, st.x.lo) <= i < Index(ux, st.x.hi) && Index(uy, st.y.lo) <= j < Index(uy, st.y.hi)
          && Index(uz, st.z.lo) <= k < Index(uz, st.z.hi)
        then st.on else LastOn(steps[..s], ux[i], uy[j], uz[k])
  {
    var st := steps[s];
    assert Along(st, X) == st.x && Along(st, Y) == st.y && Along(st, Z) == st.z;
    StepSpan(steps, s, X, ux, i);
    StepSpan(steps, s, Y, uy, j);
    StepSpan(steps, s, Z, uz, k);
    LastOnStep(steps, s, ux[i], uy[j], uz[k]);
  }

  /** One pass of the loop over the steps: the s-th step painted over the first s. */
  method PaintStep(reactor: array3<bool>, steps: seq<Step>, s: nat, ux: seq<int>, uy: seq<int>, uz: seq<int>)
    requires s < |steps| && Exact(steps, X, ux) && Exact(steps, Y, uy) && Exact(steps, Z, uz)
    requires Painted(reactor, steps[..s], ux, uy, uz)
    modifies reactor
    ensures Painted(reactor, steps[..s + 1], ux, uy, uz)
  {
    var st := steps[s];
    PaintedCell(steps, s, ux, uy, uz, 0, 0, 0);
    Paint(reactor, Index(ux, st.x.lo), Index(ux, st.x.hi), Index(uy, st.y.lo), Index(uy, st.y.hi),
          Index(uz, st.z.lo), Index(uz, st.z.hi), st.on);
    forall i, j, k | 0 <= i < |ux| && 0 <= j < |uy| && 0 <= k < |uz|
      ensures reactor[i, j, k] == LastOn(steps[..s + 1], ux[i], uy[j], uz[k])
    {
      PaintedCell(steps, s, ux, uy, uz, i, j, k);
    }
  }

  /** The last compressed index on each axis is never on, so `[:-1]` drops no cube that is on. */
  lemma LastCellsOff(steps: seq<Step>, ux: seq<int>, uy: seq<int>, uz: seq<int>, x: int, y: int, z: int)
    requires Exact(steps, X, ux) && Exact(steps, Y, uy) && Exact(steps, Z, uz)
    ensures !LastOn(steps, ux[|ux| - 1], y, z)
    ensures !LastOn(steps, x, uy[|uy| - 1], z)
    ensures !LastOn(steps, x, y, uz[|uz| - 1])
  {
    OffOutside(steps, X, ux, ux[|ux| - 1], y, z);
    OffOutside(steps, Y, uy, x, uy[|uy| - 1], z);
    OffOutside(steps, Z, uz, x, y, uz[|uz| - 1]);
  }

  /**
   * count_active_cubes: the number of integer cubes that are on after all steps, counted in
   * any box that holds every step's bounds.
   */
  method CountActiveCubes(steps: seq<Step>) returns (total: int)
    requires |steps| > 0
    ensures forall b :: Encloses(b, steps) ==> total == CountIn(steps, b)
    ensures total >= 0
  {
    var ux, uy, uz := Unique(Endpoints(steps, X)), Unique(Endpoints(steps, Y)), Unique(Endpoints(steps, Z));
    UniqueExact(steps, X);
    UniqueExact(steps, Y);
    UniqueExact(steps, Z);
    var dx, dy, dz := Sizes(ux), Sizes(uy), Sizes(uz);
    var reactor := new bool[|ux|, |uy|, |uz|]((i, j, k) => false);
    for s := 0 to |steps|
      invariant Painted(reactor, steps[..s], ux, uy, uz)
    {
      PaintStep(reactor, steps, s, ux, uy, uz);
    }
    assert steps[..|steps|] == steps;
    total := GridTotal(reactor, dx, dy, dz, 0);
    GridMatches(reactor, steps, ux, uy, uz, dx, dy, dz, 0);
    forall b | Encloses(b, steps) ensures total == CountIn(steps, b) {
      CountByCells(steps, b, ux, uy, uz);
    }
    CountNonNegative(steps, Hull(steps));
  }
}
