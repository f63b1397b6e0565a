/** Per-scan lookup tables: one hash row and one distance set per reference beacon. */
module Lookup {
  import opened Beacons

  /** The distinct values of a hash row (`set(bh)`). */
  function ValueSet(row: seq<nat>): set<nat>
  {
    set v | v in row
  }

  /**
   * build_lookup: row i is the hash of the whole scan against beacon i, and set i holds
   * exactly the values of row i.
   */
  method BuildLookup(scan: seq<Point>) returns (rows: seq<seq<nat>>, sets: seq<set<nat>>)
    ensures |rows| == |scan| && |sets| == |scan|
    ensures forall i :: 0 <= i < |scan| ==> rows[i] == BeaconHash(scan, scan[i])
    ensures forall i :: 0 <= i < |scan| ==> sets[i] == ValueSet(rows[i])
  {
    rows, sets := [], [];
    for i := 0 to |scan|
      invariant |rows| == i && |sets| == i
      invariant forall k :: 0 <= k < i ==> rows[k] == BeaconHash(scan, scan[k])
      invariant forall k :: 0 <= k < i ==> sets[k] == ValueSet(rows[k])
    {
      var bh := BeaconHash(scan, scan[i]);
      rows := rows + [bh];
      sets := sets + [ValueSet(bh)];
    }
  }

  /** The table of hash rows is square and symmetric, with zeros on the diagonal. */
  lemma LookupSymmetric(scan: seq<Point>, i: nat, j: nat)
    requires i < |scan| && j < |scan|
    ensures |BeaconHash(scan, scan[i])| == |scan|
    ensures BeaconHash(scan, scan[i])[j] == BeaconHash(scan, scan[j])[i]
    ensures BeaconHash(scan, scan[i])[i] == 0
  {
  }

  /** A distance occurs in set i exactly when some beacon of the scan lies at that distance from beacon i. */
  lemma ValueSetMembership(scan: seq<Point>, i: nat, d: nat)
    requires i < |scan|
    ensures d in ValueSet(BeaconHash(scan, scan[i])) <==> exists j :: 0 <= j < |scan| && Dist(scan[j], scan[i]) == d
  {
    var row := BeaconHash(scan, scan[i]);
    if d in ValueSet(row) {
      var j :| 0 <= j < |row| && row[j] == d;
      assert Dist(scan[j], scan[i]) == d;
    }
    if exists j :: 0 <= j < |scan| && Dist(scan[j], scan[i]) == d {
      var j :| 0 <= j < |scan| && Dist(scan[j], scan[i]) == d;
      assert row[j] == d;
    }
  }

  /**
   * The distance sets are invariant: transforming the whole scan by one rigid transform
   * leaves every beacon's distance set unchanged, so overlapping scans can be compared
   * without knowing their orientation.
   */
  lemma SetInvariant(t: Transform, scan: seq<Point>, i: nat)
    requires i < |scan|
    requires forall j :: 0 <= j < |scan| ==> scan[j].w == scan[i].w
    ensures ValueSet(BeaconHash(ApplyAll(t, scan), ApplyAll(t, scan)[i])) == ValueSet(BeaconHash(scan, scan[i]))
  {
    HashInvariant(t, scan, scan[i]);
  }
}
