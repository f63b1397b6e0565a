/**
 * Beacon positions, the Manhattan-distance hash of a beacon within its scan, and the
 * rigid transforms (signed axis permutation followed by an integer translation) that
 * relate scanner frames, together with their 4x4 homogeneous-matrix form.
 */
module Beacons {

  /** A beacon in homogeneous coordinates; scans read from the input always have w == 1. */
  datatype Point = Point(x: int, y: int, z: int, w: int)

  function Abs(v: int): nat
  {
    if v < 0 then -v else v
  }

  /** Sum of absolute differences over all four homogeneous columns. */
  function Dist(p: Point, q: Point): nat
  {
    Abs(p.x - q.x) + Abs(p.y - q.y) + Abs(p.z - q.z) + Abs(p.w - q.w)
  }

  /** The hash row of a reference beacon: its distance to every beacon of the list, in list order. */
  function BeaconHash(beacons: seq<Point>, reference: Point): (row: seq<nat>)
    ensures |row| == |beacons|
  {
    seq(|beacons|, j requires 0 <= j < |beacons| => Dist(beacons[j], reference))
  }

  /** The homogeneous column adds nothing when both points carry the same w. */
  lemma DistIsSpatialManhattan(p: Point, q: Point)
    requires p.w == q.w
    ensures Dist(p, q) == Abs(p.x - q.x) + Abs(p.y - q.y) + Abs(p.z - q.z)
  {
  }

  /** Every entry of a hash row is a spatial Manhattan distance, and a beacon's entry for itself is 0. */
  lemma HashEntries(beacons: seq<Point>, i: nat)
    requires i < |beacons|
    requires forall j :: 0 <= j < |beacons| ==> beacons[j].w == beacons[i].w
    ensures BeaconHash(beacons, beacons[i])[i] == 0
    ensures forall j :: 0 <= j < |beacons| ==>
      BeaconHash(beacons, beacons[i])[j]
        == Abs(beacons[j].x - beacons[i].x) + Abs(beacons[j].y - beacons[i].y) + Abs(beacons[j].z - beacons[i].z)
  {
  }

  // ---------------------------------------------------------------------------------
  // Rigid transforms

  /** The six permutations of the axes; XZY means output x, y, z take input x, z, y. */
  datatype Perm = XYZ | XZY | YXZ | YZX | ZXY | ZYX

  /** One of the 48 signed axis permutations: output axis k reads input axis Source(perm, k), negated if its flag is set. */
  datatype Rotation = Rotation(perm: Perm, negX: bool, negY: bool, negZ: bool)

  /** Rotation followed by translation; row-vector convention, as in `beacons @ T`. */
  datatype Transform = Transform(rot: Rotation, tx: int, ty: int, tz: int)

  /** The input axis (0, 1 or 2) that output axis k reads. */
  function Source(perm: Perm, k: nat): (a: nat)
    requires k < 3
    ensures a < 3
  {
    match perm
    case XYZ => k
    case XZY => if k == 0 then 0 else 3 - k
    case YXZ => if k == 2 then 2 else 1 - k
    case YZX => if k == 2 then 0 else k + 1
    case ZXY => if k == 0 then 2 else k - 1
    case ZYX => 2 - k
  }

  /** Coordinate a (0, 1, 2 or 3) of a point. */
  function Coord(p: Point, a: nat): int
    requires a < 4
  {
    if a == 0 then p.x else if a == 1 then p.y else if a == 2 then p.z else p.w
  }

  function Sign(neg: bool): int
  {
    if neg then -1 else 1
  }

  function Negated(r: Rotation, k: nat): bool
    requires k < 3
  {
    if k == 0 then r.negX else if k == 1 then r.negY else r.negZ
  }

  /** Output coordinate k of the rotated point. */
  function RotatedCoord(r: Rotation, p: Point, k: nat): int
    requires k < 3
  {
    if Negated(r, k) then -Coord(p, Source(r.perm, k)) else Coord(p, Source(r.perm, k))
  }

  /** The point mapped by the transform: rotated spatial part plus w times the translation; w is kept. */
  function Apply(t: Transform, p: Point): Point
  {
    Point(RotatedCoord(t.rot, p, 0) + p.w * t.tx,
          RotatedCoord(t.rot, p, 1) + p.w * t.ty,
          RotatedCoord(t.rot, p, 2) + p.w * t.tz,
          p.w)
  }

  function ApplyAll(t: Transform, ps: seq<Point>): (r: seq<Point>)
    ensures |r| == |ps|
  {
    seq(|ps|, i requires 0 <= i < |ps| => Apply(t, ps[i]))
  }

  /** Scanner 0's frame: `np.eye(4)`. */
  function Identity(): Transform
  {
    Transform(Rotation(XYZ, false, false, false), 0, 0, 0)
  }

  /** The last row of the matrix: the scanner's position in the reference frame. */
  function TranslationRow(t: Transform): Point
  {
    Point(t.tx, t.ty, t.tz, 1)
  }

  /** A transform never merges two beacons: equal images come from equal points. */
  lemma ApplyInjective(t: Transform, p: Point, q: Point)
    requires Apply(t, p) == Apply(t, q)
    ensures p == q
  {
    assert p.w == q.w;
    var r := t.rot;
    assert RotatedCoord(r, p, 0) == RotatedCoord(r, q, 0);
    assert RotatedCoord(r, p, 1) == RotatedCoord(r, q, 1);
    assert RotatedCoord(r, p, 2) == RotatedCoord(r, q, 2);
    assert Coord(p, Source(r.perm, 0)) == Coord(q, Source(r.perm, 0));
    assert Coord(p, Source(r.perm, 1)) == Coord(q, Source(r.perm, 1));
    assert Coord(p, Source(r.perm, 2)) == Coord(q, Source(r.perm, 2));
    match r.perm
    case XYZ =>
    case XZY =>
    case YXZ =>
    case YZX =>
    case ZXY =>
    case ZYX =>
  }

  /** Identity leaves every point unchanged (scan 0's beacons are already in the reference frame). */
  lemma IdentityIsNoOp(p: Point)
    ensures Apply(Identity(), p) == p
  {
  }

  /** The scanner's own origin is mapped onto the translation row. */
  lemma OriginMapsToTranslation(t: Transform)
    ensures Apply(t, Point(0, 0, 0, 1)) == TranslationRow(t)
  {
  }

  /** The difference of two points along each axis, as a nat. */
  function AxisGap(p: Point, q: Point, a: nat): nat
    requires a < 4
  {
    Abs(Coord(p, a) - Coord(q, a))
  }

  /** Each rotated coordinate difference is, up to sign, the difference along the axis it reads. */
  lemma RotatedDifference(r: Rotation, p: Point, q: Point, k: nat)
    requires k < 3
    ensures Abs(RotatedCoord(r, p, k) - RotatedCoord(r, q, k)) == AxisGap(p, q, Source(r.perm, k))
  {
  }

  /** A signed permutation preserves the spatial Manhattan length of a difference. */
  lemma RotationPreservesDistance(r: Rotation, p: Point, q: Point)
    ensures Abs(RotatedCoord(r, p, 0) - RotatedCoord(r, q, 0))
          + Abs(RotatedCoord(r, p, 1) - RotatedCoord(r, q, 1))
          + Abs(RotatedCoord(r, p, 2) - RotatedCoord(r, q, 2))
         == Abs(p.x - q.x) + Abs(p.y - q.y) + Abs(p.z - q.z)
  {
    RotatedDifference(r, p, q, 0);
    RotatedDifference(r, p, q, 1);
    RotatedDifference(r, p, q, 2);
    assert AxisGap(p, q, 0) == Abs(p.x - q.x) && AxisGap(p, q, 1) == Abs(p.y - q.y) && AxisGap(p, q, 2) == Abs(p.z - q.z);
    match r.perm
    case XYZ =>
    case XZY =>
    case YXZ =>
    case YZX =>
    case ZXY =>
    case ZYX =>
  }

  /** Rigid transforms preserve the distance of two points with the same w. */
  lemma TransformPreservesDistance(t: Transform, p: Point, q: Point)
    requires p.w == q.w
    ensures Dist(Apply(t, p), Apply(t, q)) == Dist(p, q)
  {
    RotationPreservesDistance(t.rot, p, q);
    var p', q' := Apply(t, p), Apply(t, q);
    assert p'.x - q'.x == RotatedCoord(t.rot, p, 0) - RotatedCoord(t.rot, q, 0);
    assert p'.y - q'.y == RotatedCoord(t.rot, p, 1) - RotatedCoord(t.rot, q, 1);
    assert p'.z - q'.z == RotatedCoord(t.rot, p, 2) - RotatedCoord(t.rot, q, 2);
  }

  /**
   * The hash row is invariant: moving a whole scan and its reference beacon by the same
   * signed axis permutation and integer translation leaves every entry unchanged.
   */
  lemma HashInvariant(t: Transform, beacons: seq<Point>, reference: Point)
    requires forall j :: 0 <= j < |beacons| ==> beacons[j].w == reference.w
    ensures BeaconHash(ApplyAll(t, beacons), Apply(t, reference)) == BeaconHash(beacons, reference)
  {
    forall j | 0 <= j < |beacons|
      ensures BeaconHash(ApplyAll(t, beacons), Apply(t, reference))[j] == BeaconHash(beacons, reference)[j]
    {
      TransformPreservesDistance(t, beacons[j], reference);
    }
  }

  // ---------------------------------------------------------------------------------
  // The 4x4 matrix view

  /** A 4x4 integer matrix, as a sequence of rows. */
  type Matrix = seq<seq<int>>

  predicate IsMatrix4(m: Matrix)
  {
    |m| == 4 && forall i :: 0 <= i < 4 ==> |m[i]| == 4
  }

  /** Entry [i][k] of a transform's matrix: in the rotation block, the sign of output k where it reads input i. */
  function Entry(t: Transform, i: nat, k: nat): int
    requires i < 4 && k < 4
  {
    if k == 3 then (if i == 3 then 1 else 0)
    else if i == 3 then (if k == 0 then t.tx else if k == 1 then t.ty else t.tz)
    else if Source(t.rot.perm, k) == i then Sign(Negated(t.rot, k))
    else 0
  }

  /** The homogeneous matrix of a transform. */
  function ToMatrix(t: Transform): (m: Matrix)
    ensures IsMatrix4(m)
  {
    seq(4, i requires 0 <= i < 4 => seq(4, k requires 0 <= k < 4 => Entry(t, i, k)))
  }

  /** Row vector times matrix: `p @ m`. */
  function RowTimes(p: Point, m: Matrix): Point
    requires IsMatrix4(m)
  {
    Point(p.x * m[0][0] + p.y * m[1][0] + p.z * m[2][0] + p.w * m[3][0],
          p.x * m[0][1] + p.y * m[1][1] + p.z * m[2][1] + p.w * m[3][1],
          p.x * m[0][2] + p.y * m[1][2] + p.z * m[2][2] + p.w * m[3][2],
          p.x * m[0][3] + p.y * m[1][3] + p.z * m[2][3] + p.w * m[3][3])
  }

  /** Exactly one of the three entries is nonzero, and it is 1 or -1. */
  predicate SignedUnit(a: int, b: int, c: int)
  {
    || (a in {-1, 1} && b == 0 && c == 0)
    || (a == 0 && b in {-1, 1} && c == 0)
    || (a == 0 && b == 0 && c in {-1, 1})
  }

  /** Every row and every column of the upper-left 3x3 block is a signed unit vector. */
  predicate SignedPermutationBlock(m: Matrix)
    requires IsMatrix4(m)
  {
    && (forall i :: 0 <= i < 3 ==> SignedUnit(m[i][0], m[i][1], m[i][2]))
    && (forall k :: 0 <= k < 3 ==> SignedUnit(m[0][k], m[1][k], m[2][k]))
  }

  /** Multiplying a homogeneous row by the matrix is the same as applying the transform. */
  lemma MatrixAgreesWithApply(t: Transform, p: Point)
    ensures RowTimes(p, ToMatrix(t)) == Apply(t, p)
  {
    var m := ToMatrix(t);
    assert m[3] == [t.tx, t.ty, t.tz, 1];
    assert m[0][3] == 0 && m[1][3] == 0 && m[2][3] == 0;
    forall k | 0 <= k < 3
      ensures p.x * m[0][k] + p.y * m[1][k] + p.z * m[2][k] == RotatedCoord(t.rot, p, k)
    {
      var s := Sign(Negated(t.rot, k));
      var a := Source(t.rot.perm, k);
      if a == 0 {
        assert m[0][k] == s && m[1][k] == 0 && m[2][k] == 0;
      } else if a == 1 {
        assert m[0][k] == 0 && m[1][k] == s && m[2][k] == 0;
      } else {
        assert m[0][k] == 0 && m[1][k] == 0 && m[2][k] == s;
      }
    }
  }

  /** The rotation block of every transform matrix is a signed permutation; its last column is (0, 0, 0, 1) and its last row the translation. */
  lemma MatrixShape(t: Transform)
    ensures SignedPermutationBlock(ToMatrix(t))
    ensures forall i :: 0 <= i < 4 ==> ToMatrix(t)[i][3] == (if i == 3 then 1 else 0)
    ensures ToMatrix(t)[3] == [t.tx, t.ty, t.tz, 1]
  {
    var m := ToMatrix(t);
    assert Sign(t.rot.negX) in {-1, 1} && Sign(t.rot.negY) in {-1, 1} && Sign(t.rot.negZ) in {-1, 1};
    forall i | 0 <= i < 3
      ensures SignedUnit(m[i][0], m[i][1], m[i][2])
      ensures SignedUnit(m[0][i], m[1][i], m[2][i])
    {
      assert m[i][0] == Entry(t, i, 0) && m[i][1] == Entry(t, i, 1) && m[i][2] == Entry(t, i, 2);
      assert m[0][i] == Entry(t, 0, i) && m[1][i] == Entry(t, 1, i) && m[2][i] == Entry(t, 2, i);
    }
  }

  /** The identity transform's matrix is `np.eye(4)`. */
  lemma IdentityMatrix()
    ensures ToMatrix(Identity()) == [[1, 0, 0, 0], [0, 1, 0, 0], [0, 0, 1, 0], [0, 0, 0, 1]]
  {
    var m := ToMatrix(Identity());
    assert forall i, k :: 0 <= i < 4 && 0 <= k < 4 ==> m[i][k] == (if i == k then 1 else 0);
    assert m[0] == [1, 0, 0, 0];
    assert m[1] == [0, 1, 0, 0];
    assert m[2] == [0, 0, 1, 0];
    assert m[3] == [0, 0, 0, 1];
  }
}
