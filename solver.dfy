/**
 * Transform solving between two overlapping scans: point correspondences come only from
 * hash values that are unique in both rows, and the transform is the signed axis
 * permutation plus translation that carries the first four target correspondences onto
 * the source correspondences expressed in the reference frame.
 */
module Solver {
  import opened Results
  import opened Beacons

  datatype SolveError =
    | TooFewCorrespondences   // fewer than four usable correspondences: no square system to solve
    | Singular                // the four target rows are linearly dependent
    | NoRigidFit              // no signed axis permutation and translation fits the four pairs

  /** The number of entries of the row equal to v (`len(np.nonzero(row == v)[0])`). */
  function Count(row: seq<nat>, v: nat): nat
  {
    if row == [] then 0 else Count(row[..|row| - 1], v) + (if row[|row| - 1] == v then 1 else 0)
  }

  /** The position of the first entry equal to v. */
  function FirstIndex(row: seq<nat>, v: nat): (k: nat)
    requires v in row
    ensures k < |row| && row[k] == v
    ensures forall k' :: 0 <= k' < k ==> row[k'] != v
  {
    if row[0] == v then 0 else 1 + FirstIndex(row[1..], v)
  }

  lemma {:induction false} CountZero(row: seq<nat>, v: nat)
    ensures Count(row, v) == 0 <==> v !in row
  {
    if row != [] {
      CountZero(row[..|row| - 1], v);
      assert row == row[..|row| - 1] + [row[|row| - 1]];
    }
  }

  /** A value that occurs once occurs only at its first index. */
  lemma {:induction false} CountOneUnique(row: seq<nat>, v: nat, k: nat)
    requires Count(row, v) == 1 && k < |row| && row[k] == v
    ensures v in row && k == FirstIndex(row, v)
  {
    var f := FirstIndex(row, v);
    if f != k {
      CountAtLeastTwo(row, v, if f < k then f else k, if f < k then k else f);
    }
  }

  lemma {:induction false} CountAtLeastTwo(row: seq<nat>, v: nat, a: nat, b: nat)
    requires a < b < |row| && row[a] == v && row[b] == v
    ensures Count(row, v) >= 2
  {
    var init := row[..|row| - 1];
    if b == |row| - 1 {
      CountZero(init, v);
      assert init[a] == v;
    } else {
      CountAtLeastTwo(init, v, a, b);
    }
  }

  /** A correspondence from source position i: its hash value is unique in both rows. */
  predicate Unique(src: seq<nat>, tgt: seq<nat>, i: nat)
    requires i < |src|
  {
    Count(src, src[i]) == 1 && Count(tgt, src[i]) == 1
  }

  /** The correspondences (source index, target index) among source positions below n, in source order. */
  function CorrespondencesUpTo(src: seq<nat>, tgt: seq<nat>, n: nat): seq<(nat, nat)>
    requires n <= |src|
    decreases n
  {
    if n == 0 then []
    else
      var prev := CorrespondencesUpTo(src, tgt, n - 1);
      if Unique(src, tgt, n - 1) then
        CountZero(tgt, src[n - 1]);
        prev + [(n - 1, FirstIndex(tgt, src[n - 1]))]
      else prev
  }

  function Correspondences(src: seq<nat>, tgt: seq<nat>): seq<(nat, nat)>
  {
    CorrespondencesUpTo(src, tgt, |src|)
  }

  /**
   * Each correspondence pairs the single source position and the single target position of
   * one hash value; every value that is unique on both sides gives one; source positions
   * strictly increase, so no value is used twice.
   */
  lemma {:induction false} CorrespondencesSpec(src: seq<nat>, tgt: seq<nat>, n: nat)
    requires n <= |src|
    ensures forall k :: 0 <= k < |CorrespondencesUpTo(src, tgt, n)| ==>
      var (i, j) := CorrespondencesUpTo(src, tgt, n)[k];
      i < n && j < |tgt| && src[i] == tgt[j] && Count(src, src[i]) == 1 && Count(tgt, tgt[j]) == 1
    ensures forall i :: 0 <= i < n && Unique(src, tgt, i) ==>
      exists k :: 0 <= k < |CorrespondencesUpTo(src, tgt, n)| && CorrespondencesUpTo(src, tgt, n)[k].0 == i
    ensures forall a, b :: 0 <= a < b < |CorrespondencesUpTo(src, tgt, n)| ==>
      CorrespondencesUpTo(src, tgt, n)[a].0 < CorrespondencesUpTo(src, tgt, n)[b].0
    decreases n
  {
    if n > 0 {
      CorrespondencesSpec(src, tgt, n - 1);
      var prev := CorrespondencesUpTo(src, tgt, n - 1);
      if Unique(src, tgt, n - 1) {
        var cur := CorrespondencesUpTo(src, tgt, n);
        assert cur[|prev|].0 == n - 1;
        forall i | 0 <= i < n && Unique(src, tgt, i)
          ensures exists k :: 0 <= k < |cur| && cur[k].0 == i
        {
          if i < n - 1 {
            var k :| 0 <= k < |prev| && prev[k].0 == i;
            assert cur[k] == prev[k];
          }
        }
      }
    }
  }

  /** The points of a scan at the given positions: `scan[id]` for each kept match. */
  function Pick(scan: seq<Point>, ids: seq<nat>): (r: seq<Point>)
    requires forall k :: 0 <= k < |ids| ==> ids[k] < |scan|
    ensures |r| == |ids|
  {
    seq(|ids|, k requires 0 <= k < |ids| => scan[ids[k]])
  }

  function Firsts(c: seq<(nat, nat)>): (r: seq<nat>)
    ensures |r| == |c|
  {
    seq(|c|, k requires 0 <= k < |c| => c[k].0)
  }

  function Seconds(c: seq<(nat, nat)>): (r: seq<nat>)
    ensures |r| == |c|
  {
    seq(|c|, k requires 0 <= k < |c| => c[k].1)
  }

  // ---------------------------------------------------------------------------------
  // Solving by enumeration of the signed axis permutations.

  const Perms: seq<Perm> := [XYZ, XZY, YXZ, YZX, ZXY, ZYX]

  /** Candidate k: permutation k / 8, sign flags from the bits of k % 8. */
  function RotationAt(k: nat): Rotation
    requires k < 48
  {
    Rotation(Perms[k / 8], (k / 4) % 2 == 1, (k / 2) % 2 == 1, k % 2 == 1)
  }

  function AllRotations(): (rs: seq<Rotation>)
    ensures |rs| == 48
  {
    seq(48, k requires 0 <= k < 48 => RotationAt(k))
  }

  function PermIndex(p: Perm): (k: nat)
    ensures k < 6 && Perms[k] == p
  {
    match p
    case XYZ => 0
    case XZY => 1
    case YXZ => 2
    case YZX => 3
    case ZXY => 4
    case ZYX => 5
  }

  function Bit(b: bool): nat
  {
    if b then 1 else 0
  }

  /** The enumeration lists every signed axis permutation. */
  lemma AllRotationsComplete(r: Rotation)
    ensures r in AllRotations()
  {
    var p := PermIndex(r.perm);
    var k := 8 * p + 4 * Bit(r.negX) + 2 * Bit(r.negY) + Bit(r.negZ);
    assert k / 8 == p;
    assert (k / 4) % 2 == Bit(r.negX);
    assert (k / 2) % 2 == Bit(r.negY);
    assert k % 2 == Bit(r.negZ);
    assert AllRotations()[k] == r;
  }

  /** The transform fits the sample: it maps the first four target points onto the first four source points. */
  predicate FitsSample(t: Transform, source: seq<Point>, target: seq<Point>)
    requires |source| >= 4 && |target| >= 4
  {
    forall k :: 0 <= k < 4 ==> Apply(t, target[k]) == source[k]
  }

  /** The translation that carries the rotated first target point onto the first source point (w == 1). */
  function Candidate(r: Rotation, s0: Point, t0: Point): Transform
  {
    Transform(r, s0.x - RotatedCoord(r, t0, 0), s0.y - RotatedCoord(r, t0, 1), s0.z - RotatedCoord(r, t0, 2))
  }

  /** The 48 candidate transforms that carry the first target point onto the first source point. */
  function Candidates(s0: Point, t0: Point): (cs: seq<Transform>)
    ensures |cs| == 48
  {
    seq(48, k requires 0 <= k < 48 => Candidate(RotationAt(k), s0, t0))
  }

  /** The first candidate in cs that fits the sample. */
  function Search(cs: seq<Transform>, source: seq<Point>, target: seq<Point>): Option<Transform>
    requires |source| >= 4 && |target| >= 4
  {
    if cs == [] then None
    else if FitsSample(cs[0], source, target) then Some(cs[0])
    else Search(cs[1..], source, target)
  }

  predicate Square(m: Matrix)
  {
    forall i :: 0 <= i < |m| ==> |m[i]| == |m|
  }

  /** m without its first row and column c. */
  function Minor(m: Matrix, c: nat): (r: Matrix)
    requires Square(m) && |m| > 0 && c < |m|
    ensures |r| == |m| - 1 && Square(r)
  {
    seq(|m| - 1, i requires 0 <= i < |m| - 1 => m[i + 1][..c] + m[i + 1][c + 1..])
  }

  /** Determinant by cofactor expansion along the first row. */
  function Det(m: Matrix): int
    requires Square(m)
    decreases |m|, 1
  {
    if |m| == 0 then 1 else Cofactors(m, |m|)
  }

  /** The first j terms of the cofactor expansion of m along its first row. */
  function Cofactors(m: Matrix, j: nat): int
    requires Square(m) && 0 < |m| && j <= |m|
    decreases |m|, 0, j
  {
    if j == 0 then 0
    else
      var sign := if (j - 1) % 2 == 0 then 1 else -1;
      Cofactors(m, j - 1) + sign * m[0][j - 1] * Det(Minor(m, j - 1))
  }

  function Row(p: Point): seq<int>
  {
    [p.x, p.y, p.z, p.w]
  }

  /** The 4x4 matrix whose rows are the first four points in homogeneous form. */
  function SampleMatrix(target: seq<Point>): (m: Matrix)
    requires |target| >= 4
    ensures |m| == 4 && Square(m)
  {
    [Row(target[0]), Row(target[1]), Row(target[2]), Row(target[3])]
  }

  /**
   * The solve on the first four correspondences: `target[:4] @ T == source[:4]`, with T
   * restricted to signed axis permutations and integer translations.
   */
  function Solve(source: seq<Point>, target: seq<Point>): Result<Transform, SolveError>
  {
    if |source| < 4 || |target| < 4 then Err(TooFewCorrespondences)
    else if Det(SampleMatrix(target)) == 0 then Err(Singular)
    else match Search(Candidates(source[0], target[0]), source, target)
      case Some(t) => Ok(t)
      case None => Err(NoRigidFit)
  }

  lemma {:induction false} SearchSound(cs: seq<Transform>, source: seq<Point>, target: seq<Point>)
    requires |source| >= 4 && |target| >= 4
    ensures Search(cs, source, target).Some? ==> FitsSample(Search(cs, source, target).value, source, target)
  {
    if cs != [] {
      SearchSound(cs[1..], source, target);
    }
  }

  lemma {:induction false} SearchComplete(cs: seq<Transform>, source: seq<Point>, target: seq<Point>, t: Transform)
    requires |source| >= 4 && |target| >= 4
    requires t in cs && FitsSample(t, source, target)
    ensures Search(cs, source, target).Some?
  {
    if cs[0] != t {
      SearchComplete(cs[1..], source, target, t);
    }
  }

  /** With w == 1, a transform that carries t0 onto s0 is the candidate of its own rotation. */
  lemma CandidateUnique(t: Transform, s0: Point, t0: Point)
    requires t0.w == 1 && Apply(t, t0) == s0
    ensures t in Candidates(s0, t0)
  {
    AllRotationsComplete(t.rot);
    var k :| 0 <= k < 48 && AllRotations()[k] == t.rot;
    assert Candidates(s0, t0)[k] == Candidate(t.rot, s0, t0) == t;
  }

  /** A solved transform maps the first four target correspondences onto the source correspondences. */
  lemma SolveSound(source: seq<Point>, target: seq<Point>)
    ensures Solve(source, target).Ok? ==>
      |source| >= 4 && |target| >= 4 && FitsSample(Solve(source, target).value, source, target)
  {
    if |source| >= 4 && |target| >= 4 {
      SearchSound(Candidates(source[0], target[0]), source, target);
    }
  }

  /** The NoRigidFit failure is genuine: no signed axis permutation and translation fits the sample. */
  lemma SolveComplete(source: seq<Point>, target: seq<Point>, t: Transform)
    requires |target| >= 1 && target[0].w == 1
    requires Solve(source, target) == Err(NoRigidFit)
    ensures !FitsSample(t, source, target)
  {
    if FitsSample(t, source, target) {
      CandidateUnique(t, source[0], target[0]);
      SearchComplete(Candidates(source[0], target[0]), source, target, t);
    }
  }

  /** Errors are exactly: fewer than four correspondences, a singular sample, or no fitting rigid transform. */
  lemma SolveErrors(source: seq<Point>, target: seq<Point>)
    ensures Solve(source, target) == Err(TooFewCorrespondences) <==> |source| < 4 || |target| < 4
    ensures Solve(source, target) == Err(Singular) <==>
      |source| >= 4 && |target| >= 4 && Det(SampleMatrix(target)) == 0
  {
  }

  /** The transform that find_transform returns for the given hash rows. */
  function TransformFor(sourceTransform: Transform, sourceScan: seq<Point>, targetScan: seq<Point>,
                        src: seq<nat>, tgt: seq<nat>): Result<Transform, SolveError>
    requires |src| == |sourceScan| && |tgt| == |targetScan|
  {
    var c := Correspondences(src, tgt);
    CorrespondencesSpec(src, tgt, |src|);
    Solve(ApplyAll(sourceTransform, Pick(sourceScan, Firsts(c))), Pick(targetScan, Seconds(c)))
  }

  /**
   * find_transform: collect the correspondences whose hash value is unique on both sides,
   * move the source points into the reference frame, and solve on the first four.
   */
  method FindTransform(sourceTransform: Transform, sourceScan: seq<Point>, targetScan: seq<Point>,
                       src: seq<nat>, tgt: seq<nat>) returns (r: Result<Transform, SolveError>)
    requires |src| == |sourceScan| && |tgt| == |targetScan|
    ensures r == TransformFor(sourceTransform, sourceScan, targetScan, src, tgt)
  {
    var sourceMatches: seq<Point> := [];
    var targetMatches: seq<Point> := [];
    for i := 0 to |src|
      invariant sourceMatches == (CorrespondencesSpec(src, tgt, i); Pick(sourceScan, Firsts(CorrespondencesUpTo(src, tgt, i))))
      invariant targetMatches == (CorrespondencesSpec(src, tgt, i); Pick(targetScan, Seconds(CorrespondencesUpTo(src, tgt, i))))
    {
      var v := src[i];
      if Count(src, v) == 1 && Count(tgt, v) == 1 {
        CountZero(tgt, v);
        sourceMatches := sourceMatches + [sourceScan[i]];
        targetMatches := targetMatches + [targetScan[FirstIndex(tgt, v)]];
      }
      CorrespondencesSpec(src, tgt, i + 1);
    }
    var sourceRef := ApplyAll(sourceTransform, sourceMatches);
    r := Solve(sourceRef, targetMatches);
  }

  /**
   * A transform found between two scans carries each of the first four target beacons of
   * the correspondences onto its partner source beacon in the reference frame; the pair
   * shares a hash value that occurs exactly once in each row.
   */
  lemma TransformForFits(sourceTransform: Transform, sourceScan: seq<Point>, targetScan: seq<Point>,
                         src: seq<nat>, tgt: seq<nat>)
    requires |src| == |sourceScan| && |tgt| == |targetScan|
    ensures var r := TransformFor(sourceTransform, sourceScan, targetScan, src, tgt);
      var c := Correspondences(src, tgt);
      r.Ok? ==> |c| >= 4 && forall k :: 0 <= k < 4 ==>
        c[k].0 < |src| && c[k].1 < |tgt| && src[c[k].0] == tgt[c[k].1] &&
        Count(src, src[c[k].0]) == 1 && Count(tgt, tgt[c[k].1]) == 1 &&
        Apply(r.value, targetScan[c[k].1]) == Apply(sourceTransform, sourceScan[c[k].0])
  {
    var c := Correspondences(src, tgt);
    CorrespondencesSpec(src, tgt, |src|);
    var sourceRef := ApplyAll(sourceTransform, Pick(sourceScan, Firsts(c)));
    var targetM := Pick(targetScan, Seconds(c));
    SolveSound(sourceRef, targetM);
  }
}
