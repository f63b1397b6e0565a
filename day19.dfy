/**
 * The day-19 pipeline: hash rows, overlaps, frame composition, then the two answers: the
 * number of distinct beacons once every scan is moved into scanner 0's frame, and the
 * largest Manhattan distance between two scanner positions.
 */
module Day19 {
  import opened Results
  import opened Beacons
  import opened Lookup
  import opened Overlaps
  import opened Solver
  import opened Composer

  // ---------------------------------------------------------------------------------
  // Part a: distinct transformed beacons

  function DistinctPoints(ps: seq<Point>): set<Point>
  {
    set p | p in ps
  }

  /** The beacons of the first n scans, each moved by its scan's transform, concatenated in scan order. */
  function Merged(scans: seq<seq<Point>>, transforms: map<nat, Transform>, n: nat): seq<Point>
    requires n <= |scans| && forall s :: 0 <= s < |scans| ==> s in transforms
  {
    if n == 0 then [] else Merged(scans, transforms, n - 1) + ApplyAll(transforms[n - 1], scans[n - 1])
  }

  /** The total number of beacon rows across the first n scans. */
  function Total(scans: seq<seq<Point>>, n: nat): nat
    requires n <= |scans|
  {
    if n == 0 then 0 else Total(scans, n - 1) + |scans[n - 1]|
  }

  /** `np.concatenate` of every `beacons @ scan_transforms[scan_id]`. */
  method MergeBeacons(scans: seq<seq<Point>>, transforms: map<nat, Transform>) returns (all: seq<Point>)
    requires forall s :: 0 <= s < |scans| ==> s in transforms
    ensures all == Merged(scans, transforms, |scans|)
  {
    all := [];
    for s := 0 to |scans|
      invariant all == Merged(scans, transforms, s)
    {
      all := all + ApplyAll(transforms[s], scans[s]);
    }
  }

  lemma {:induction false} MergedSize(scans: seq<seq<Point>>, transforms: map<nat, Transform>, n: nat)
    requires n <= |scans| && forall s :: 0 <= s < |scans| ==> s in transforms
    ensures |Merged(scans, transforms, n)| == Total(scans, n)
  {
    if n > 0 {
      MergedSize(scans, transforms, n - 1);
    }
  }

  /** A point is in the merged list exactly when some scan's transform maps one of its beacons onto it. */
  lemma {:induction false} MergedMembership(scans: seq<seq<Point>>, transforms: map<nat, Transform>, n: nat, p: Point)
    requires n <= |scans| && forall s :: 0 <= s < |scans| ==> s in transforms
    ensures p in Merged(scans, transforms, n) <==>
      exists s, i :: 0 <= s < n && 0 <= i < |scans[s]| && Apply(transforms[s], scans[s][i]) == p
  {
    if n > 0 {
      MergedMembership(scans, transforms, n - 1, p);
      var last := ApplyAll(transforms[n - 1], scans[n - 1]);
      assert Merged(scans, transforms, n) == Merged(scans, transforms, n - 1) + last;
      if p in last {
        var i :| 0 <= i < |last| && last[i] == p;
        assert Apply(transforms[n - 1], scans[n - 1][i]) == p;
      }
      if exists s, i :: 0 <= s < n && 0 <= i < |scans[s]| && Apply(transforms[s], scans[s][i]) == p {
        var s, i :| 0 <= s < n && 0 <= i < |scans[s]| && Apply(transforms[s], scans[s][i]) == p;
        if s == n - 1 {
          assert last[i] == p;
        }
      }
    }
  }

  /** There are never more distinct points than rows. */
  lemma {:induction false} DistinctAtMostLength(ps: seq<Point>)
    ensures |DistinctPoints(ps)| <= |ps|
  {
    if ps != [] {
      var init := ps[..|ps| - 1];
      DistinctAtMostLength(init);
      assert ps == init + [ps[|ps| - 1]];
      assert DistinctPoints(ps) == DistinctPoints(init) + {ps[|ps| - 1]};
    }
  }

  lemma {:induction false} SubsetSize(a: set<Point>, b: set<Point>)
    requires a <= b
    ensures |a| <= |b|
    decreases |b|
  {
    if a != {} {
      var x :| x in a;
      SubsetSize(a - {x}, b - {x});
    }
  }

  function Image(t: Transform, ps: set<Point>): set<Point>
  {
    set p | p in ps :: Apply(t, p)
  }

  /** A transform keeps the number of distinct beacons of a scan. */
  lemma {:induction false} ImageSize(t: Transform, ps: set<Point>)
    ensures |Image(t, ps)| == |ps|
    decreases |ps|
  {
    if ps != {} {
      var x :| x in ps;
      ImageSize(t, ps - {x});
      assert Image(t, ps) == Image(t, ps - {x}) + {Apply(t, x)};
      if Apply(t, x) in Image(t, ps - {x}) {
        var y :| y in ps - {x} && Apply(t, y) == Apply(t, x);
        ApplyInjective(t, x, y);
      }
    }
  }

  /**
   * The count of part a is bounded by the total number of beacon rows and is at least the
   * number of distinct beacons any single scan sees.
   */
  lemma UniqueCountBounds(scans: seq<seq<Point>>, transforms: map<nat, Transform>, s: nat)
    requires forall s :: 0 <= s < |scans| ==> s in transforms
    requires s < |scans|
    ensures |DistinctPoints(Merged(scans, transforms, |scans|))| <= Total(scans, |scans|)
    ensures |DistinctPoints(scans[s])| <= |DistinctPoints(Merged(scans, transforms, |scans|))|
  {
    var all := Merged(scans, transforms, |scans|);
    DistinctAtMostLength(all);
    MergedSize(scans, transforms, |scans|);
    forall p | p in Image(transforms[s], DistinctPoints(scans[s])) ensures p in DistinctPoints(all) {
      var q :| q in DistinctPoints(scans[s]) && Apply(transforms[s], q) == p;
      var i :| 0 <= i < |scans[s]| && scans[s][i] == q;
      MergedMembership(scans, transforms, |scans|, p);
    }
    ImageSize(transforms[s], DistinctPoints(scans[s]));
    SubsetSize(Image(transforms[s], DistinctPoints(scans[s])), DistinctPoints(all));
  }

  // ---------------------------------------------------------------------------------
  // Part b: day19_b

  /** Manhattan distance between the last rows of two transform matrices. */
  function ScannerDistance(a: Transform, b: Transform): nat
  {
    Dist(TranslationRow(a), TranslationRow(b))
  }

  function Max(a: nat, b: nat): nat
  {
    if a < b then b else a
  }

  /** max_dist after the pairs (a, b) that precede (i, j) in the double loop. */
  function PairMax(ts: seq<Transform>, i: nat, j: nat): nat
    requires i <= |ts| && j <= |ts| && (j > 0 ==> i < |ts|)
    decreases i, j
  {
    if j == 0 then (if i == 0 then 0 else PairMax(ts, i - 1, |ts|))
    else Max(PairMax(ts, i, j - 1), ScannerDistance(ts[i], ts[j - 1]))
  }

  /** The value day19_b returns. */
  function MaxPairs(ts: seq<Transform>): nat
  {
    PairMax(ts, |ts|, 0)
  }

  /** day19_b: the double loop over all ordered pairs, self-pairs included. */
  method MaxScannerDistance(ts: seq<Transform>) returns (maxDist: nat)
    ensures maxDist == MaxPairs(ts)
  {
    maxDist := 0;
    for i := 0 to |ts|
      invariant maxDist == PairMax(ts, i, 0)
    {
      for j := 0 to |ts|
        invariant maxDist == PairMax(ts, i, j)
      {
        maxDist := Max(maxDist, ScannerDistance(ts[i], ts[j]));
      }
      assert PairMax(ts, i + 1, 0) == PairMax(ts, i, |ts|);
    }
  }

  lemma {:induction false} PairMaxSpec(ts: seq<Transform>, i: nat, j: nat)
    requires i < |ts| && j <= |ts|
    ensures forall a, b :: 0 <= a < |ts| && 0 <= b < |ts| && (a < i || (a == i && b < j)) ==>
      ScannerDistance(ts[a], ts[b]) <= PairMax(ts, i, j)
    ensures PairMax(ts, i, j) == 0 ||
      exists a, b :: 0 <= a < |ts| && 0 <= b < |ts| && ScannerDistance(ts[a], ts[b]) == PairMax(ts, i, j)
    decreases i, j
  {
    if j == 0 {
      if i > 0 {
        PairMaxSpec(ts, i - 1, |ts|);
      }
    } else {
      PairMaxSpec(ts, i, j - 1);
    }
  }

  lemma ScannerDistanceSymmetric(a: Transform, b: Transform)
    ensures ScannerDistance(a, b) == ScannerDistance(b, a)
    ensures ScannerDistance(a, a) == 0
  {
  }

  /**
   * day19_b is the maximum distance over all ordered pairs: it bounds every pair and some
   * pair attains it; it is 0 when there are no scanners.
   */
  lemma MaxPairsSpec(ts: seq<Transform>)
    ensures forall a, b :: 0 <= a < |ts| && 0 <= b < |ts| ==> ScannerDistance(ts[a], ts[b]) <= MaxPairs(ts)
    ensures |ts| > 0 ==> exists a, b :: 0 <= a < |ts| && 0 <= b < |ts| && ScannerDistance(ts[a], ts[b]) == MaxPairs(ts)
    ensures |ts| == 0 ==> MaxPairs(ts) == 0
  {
    if |ts| > 0 {
      PairMaxSpec(ts, |ts| - 1, |ts|);
      assert MaxPairs(ts) == PairMax(ts, |ts| - 1, |ts|);
      if MaxPairs(ts) == 0 {
        assert ScannerDistance(ts[0], ts[0]) == 0;
      }
    }
  }

  /** A single scanner gives 0. */
  lemma MaxPairsSingle(t: Transform)
    ensures MaxPairs([t]) == 0
  {
    MaxPairsSpec([t]);
  }

  lemma MaxPairsLe(ts: seq<Transform>, us: seq<Transform>)
    requires |ts| > 0 && forall t :: t in ts ==> t in us
    ensures MaxPairs(ts) <= MaxPairs(us)
  {
    MaxPairsSpec(ts);
    var a, b :| 0 <= a < |ts| && 0 <= b < |ts| && ScannerDistance(ts[a], ts[b]) == MaxPairs(ts);
    assert ts[a] in us && ts[b] in us;
    var a' :| 0 <= a' < |us| && us[a'] == ts[a];
    var b' :| 0 <= b' < |us| && us[b'] == ts[b];
    MaxPairsSpec(us);
    assert ScannerDistance(us[a'], us[b']) <= MaxPairs(us);
  }

  lemma SameElementsEmpty(ts: seq<Transform>, us: seq<Transform>)
    requires forall t :: t in ts <==> t in us
    ensures |ts| > 0 ==> |us| > 0
  {
    if |ts| > 0 {
      assert ts[0] in us;
    }
  }

  /** Only the set of transforms matters, not the order in which the dictionary yields them. */
  lemma MaxPairsOrderFree(ts: seq<Transform>, us: seq<Transform>)
    requires forall t :: t in ts <==> t in us
    ensures MaxPairs(ts) == MaxPairs(us)
  {
    if |ts| > 0 {
      assert ts[0] in us;
      MaxPairsLe(ts, us);
      MaxPairsLe(us, ts);
    } else {
      SameElementsEmpty(us, ts);
    }
  }

  // ---------------------------------------------------------------------------------
  // The pipeline

  /** The transforms ordered by scan id. */
  function ByScan(transforms: map<nat, Transform>, n: nat): (ts: seq<Transform>)
    requires forall s :: 0 <= s < n ==> s in transforms
    ensures |ts| == n
  {
    seq(n, s requires 0 <= s < n => transforms[s])
  }

  /** build_lookup for every scan, as the loop of day19 does. */
  method BuildAllLookups(scans: seq<seq<Point>>) returns (rows: seq<seq<seq<nat>>>, sets: Sets)
    ensures LookupFits(scans, rows)
    ensures |sets| == |scans|
    ensures forall s :: 0 <= s < |scans| ==> |sets[s]| == |scans[s]|
    ensures forall s, i :: 0 <= s < |scans| && 0 <= i < |scans[s]| ==>
      rows[s][i] == BeaconHash(scans[s], scans[s][i]) && sets[s][i] == ValueSet(rows[s][i])
  {
    rows, sets := [], [];
    for s := 0 to |scans|
      invariant |rows| == s && |sets| == s
      invariant forall k :: 0 <= k < s ==> |rows[k]| == |scans[k]| && |sets[k]| == |scans[k]|
      invariant forall k, i :: 0 <= k < s && 0 <= i < |scans[k]| ==>
        rows[k][i] == BeaconHash(scans[k], scans[k][i]) && sets[k][i] == ValueSet(rows[k][i])
    {
      var lb, ls := BuildLookup(scans[s]);
      rows, sets := rows + [lb], sets + [ls];
    }
  }

  /**
   * Once every scan has a transform: the number of distinct beacons in scanner 0's frame
   * and the largest distance between two scanners.
   */
  method Summarize(scans: seq<seq<Point>>, transforms: map<nat, Transform>) returns (unique: nat, maxDist: nat)
    requires |scans| > 0 && forall s :: 0 <= s < |scans| ==> s in transforms
    ensures unique == |DistinctPoints(Merged(scans, transforms, |scans|))|
    ensures maxDist == MaxPairs(ByScan(transforms, |scans|))
    ensures unique <= Total(scans, |scans|)
    ensures forall s :: 0 <= s < |scans| ==> |DistinctPoints(scans[s])| <= unique
  {
    var all := MergeBeacons(scans, transforms);
    unique := |DistinctPoints(all)|;
    maxDist := MaxScannerDistance(ByScan(transforms, |scans|));
    forall s | 0 <= s < |scans| ensures |DistinctPoints(scans[s])| <= unique {
      UniqueCountBounds(scans, transforms, s);
    }
    UniqueCountBounds(scans, transforms, 0);
  }

  /**
   * day19: the number of distinct beacons in scanner 0's frame and the largest distance
   * between two scanners, or the failure of the frame composition. The ghost results are
   * the lookups, the overlap records, and the transforms known when the walk ended, with
   * their discovery order.
   */
  method Day19(scans: seq<seq<Point>>)
      returns (r: Result<(nat, nat), ComposeError>, ghost rows: seq<seq<seq<nat>>>, ghost sets: Sets,
               ghost records: seq<Overlap>, ghost transforms: map<nat, Transform>, ghost order: seq<nat>)
    ensures |sets| == |scans| && forall s :: 0 <= s < |scans| ==> |sets[s]| == |scans[s]|
    ensures LookupFits(scans, rows)
    ensures forall s, i :: 0 <= s < |scans| && 0 <= i < |scans[s]| ==>
      rows[s][i] == BeaconHash(scans[s], scans[s][i]) && sets[s][i] == ValueSet(rows[s][i])
    ensures records == SortByMatchBeacon(ScoresQ(sets, Shared(sets), |sets|))
    ensures RecordsFit(scans, records)
    ensures |scans| > 0 ==> Derived(scans, rows, records, transforms, order)
    ensures r.Ok? ==> transforms.Keys == AllScans(|scans|) && 0 in transforms && transforms[0] == Identity()
    ensures r.Ok? ==>
      r.value.0 == |DistinctPoints(Merged(scans, transforms, |scans|))| &&
      r.value.1 == MaxPairs(ByScan(transforms, |scans|))
    ensures r.Ok? ==> r.value.0 <= Total(scans, |scans|)
    ensures r.Ok? ==> forall s :: 0 <= s < |scans| ==> |DistinctPoints(scans[s])| <= r.value.0
    ensures r == Err(MissingConnections(0)) <==> 0 !in Connections(records)
    ensures r.Err? && r.error.MissingConnections? ==> r.error.scan !in Connections(records)
    ensures r.Err? && r.error.Disconnected? ==>
      r.error.reached == transforms.Keys && r.error.reached < AllScans(|scans|) && Closed(records, r.error.reached)
    ensures r.Err? && r.error.SolveFailed? ==>
      var (source, target) := (r.error.source, r.error.target);
      source in transforms && target !in transforms && HasEdge(records, source, target) &&
      EdgeTransform(scans, rows, records, transforms[source], source, target) == Err(r.error.reason)
    ensures |scans| <= 1 ==> r == Err(MissingConnections(0))
  {
    var hashRows, hashSets := BuildAllLookups(scans);
    rows, sets := hashRows, hashSets;
    var found, connections := FindScanOverlaps(hashSets);
    records := found;
    assert RecordsFit(scans, found) by {
      forall k | 0 <= k < |found| ensures Qualifies(hashSets, found[k]) {
        assert found[k] in found;
      }
    }
    var composed;
    composed, transforms, order := FindScanTransforms(scans, hashRows, found, connections);
    if composed.Err? {
      return Err(composed.error), rows, sets, records, transforms, order;
    }
    var unique, maxDist := Summarize(scans, composed.value);
    r := Ok((unique, maxDist));
  }
}
