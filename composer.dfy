/**
 * find_scan_transforms: a breadth-first walk over the overlap graph from scan 0, solving
 * for the transform of each newly reached scan from the transform of the scan it was
 * reached from.
 */
module Composer {
  import opened Results
  import opened Beacons
  import opened Overlaps
  import opened Solver

  datatype ComposeError =
    | MissingConnections(scan: nat)                        // `connections[scan]` has no entry
    | Disconnected(reached: set<nat>)                      // `popleft` on an empty queue
    | SolveFailed(source: nat, target: nat, reason: SolveError)

  type Edge = (nat, nat)

  /** The hash rows have the shapes build_lookup gives them: one row per beacon, one entry per beacon. */
  predicate LookupFits(scans: seq<seq<Point>>, rows: seq<seq<seq<nat>>>)
  {
    |rows| == |scans| &&
    forall s :: 0 <= s < |scans| ==>
      |rows[s]| == |scans[s]| && forall i :: 0 <= i < |rows[s]| ==> |rows[s][i]| == |scans[s]|
  }

  /** Every overlap record refers to existing scans and beacons. */
  predicate RecordsFit(scans: seq<seq<Point>>, records: seq<Overlap>)
  {
    forall k :: 0 <= k < |records| ==>
      records[k].queryScan < |scans| && records[k].matchScan < |scans| &&
      records[k].queryBeacon < |scans[records[k].queryScan]| &&
      records[k].matchBeacon < |scans[records[k].matchScan]|
  }

  /** The position of the first record from scan q to scan m (`scdf[...].iloc[0]`). */
  function FirstRecord(records: seq<Overlap>, q: nat, m: nat): (k: nat)
    requires HasEdge(records, q, m)
    ensures k < |records| && records[k].queryScan == q && records[k].matchScan == m
    ensures forall k' :: 0 <= k' < k ==> !(records[k'].queryScan == q && records[k'].matchScan == m)
  {
    if records[0].queryScan == q && records[0].matchScan == m then 0
    else
      var w :| 0 <= w < |records| && records[w].queryScan == q && records[w].matchScan == m;
      assert records[1..][w - 1] == records[w];
      1 + FirstRecord(records[1..], q, m)
  }

  /** The hash rows of the first overlap record from scan p to scan s. */
  function EdgeRows(scans: seq<seq<Point>>, rows: seq<seq<seq<nat>>>, records: seq<Overlap>, p: nat, s: nat)
      : (r: (seq<nat>, seq<nat>))
    requires LookupFits(scans, rows) && RecordsFit(scans, records) && HasEdge(records, p, s)
    ensures p < |scans| && s < |scans| && |r.0| == |scans[p]| && |r.1| == |scans[s]|
  {
    var rec := records[FirstRecord(records, p, s)];
    (rows[p][rec.queryBeacon], rows[s][rec.matchBeacon])
  }

  /**
   * What find_transform returns for the edge from scan p, whose transform is known, to scan
   * s: the solve on the hash rows of the edge's first record.
   */
  function EdgeTransform(scans: seq<seq<Point>>, rows: seq<seq<seq<nat>>>, records: seq<Overlap>,
                         known: Transform, p: nat, s: nat): Result<Transform, SolveError>
    requires LookupFits(scans, rows) && RecordsFit(scans, records) && HasEdge(records, p, s)
  {
    var (src, tgt) := EdgeRows(scans, rows, records, p, s);
    TransformFor(known, scans[p], scans[s], src, tgt)
  }

  /**
   * Transform t of scan s fits its edge from scan p with transform known: the edge's first
   * record gives at least four correspondences, and t carries the first four target beacons
   * onto their partner beacons of scan p in the reference frame.
   */
  ghost predicate EdgeFits(scans: seq<seq<Point>>, rows: seq<seq<seq<nat>>>, records: seq<Overlap>,
                           known: Transform, p: nat, s: nat, t: Transform)
    requires LookupFits(scans, rows) && RecordsFit(scans, records) && HasEdge(records, p, s)
  {
    var (src, tgt) := EdgeRows(scans, rows, records, p, s);
    var c := Correspondences(src, tgt);
    |c| >= 4 && forall k :: 0 <= k < 4 ==>
      c[k].0 < |scans[p]| && c[k].1 < |scans[s]| && src[c[k].0] == tgt[c[k].1] &&
      Apply(t, scans[s][c[k].1]) == Apply(known, scans[p][c[k].0])
  }

  /** The scan ids 0 .. n-1. */
  function AllScans(n: nat): (r: set<nat>)
    ensures forall s: nat :: s in r <==> s < n
  {
    if n == 0 then {} else AllScans(n - 1) + {n - 1}
  }

  lemma {:induction false} AllScansSize(n: nat)
    ensures |AllScans(n)| == n
  {
    if n > 0 {
      AllScansSize(n - 1);
    }
  }

  lemma {:induction false} BoundedKeysSize(keys: set<nat>, n: nat)
    requires forall s :: s in keys ==> s < n
    ensures |keys| <= n
  {
    if n > 0 {
      BoundedKeysSize(keys - {n - 1}, n - 1);
    }
  }

  /** A set of scan ids below n with at least n elements holds them all. */
  lemma {:induction false} FullSubset(keys: set<nat>, n: nat)
    requires forall s :: s in keys ==> s < n
    requires |keys| >= n
    ensures keys == AllScans(n)
  {
    if n > 0 {
      if n - 1 in keys {
        FullSubset(keys - {n - 1}, n - 1);
      } else {
        BoundedKeysSize(keys, n - 1);
      }
    }
  }

  /** Scan order[k] was reached from an earlier scan order[a] it overlaps with, and its transform fits that edge. */
  ghost predicate HasParent(scans: seq<seq<Point>>, rows: seq<seq<seq<nat>>>, records: seq<Overlap>,
                            known: map<nat, Transform>, order: seq<nat>, k: nat)
    requires LookupFits(scans, rows) && RecordsFit(scans, records) && k < |order|
  {
    exists a :: 0 <= a < k && order[a] in known && order[k] in known && HasEdge(records, order[a], order[k]) &&
      EdgeFits(scans, rows, records, known[order[a]], order[a], order[k], known[order[k]])
  }

  /**
   * The transforms are derived along the order of discovery: scan 0 first with the identity,
   * and each later scan from an earlier one it overlaps with, fitting that edge. Each scan
   * appears once in the order: a stored transform is never replaced.
   */
  ghost predicate Derived(scans: seq<seq<Point>>, rows: seq<seq<seq<nat>>>, records: seq<Overlap>,
                          known: map<nat, Transform>, order: seq<nat>)
    requires LookupFits(scans, rows) && RecordsFit(scans, records)
  {
    |order| > 0 && order[0] == 0 && 0 in known && known[0] == Identity() &&
    (forall s :: s in known <==> s in order) && NoDuplicates(order) &&
    (forall s :: s in known ==> s < |scans|) &&
    (forall k :: 0 < k < |order| ==> HasParent(scans, rows, records, known, order, k))
  }

  /** Reaching a new scan from a known one keeps the transforms derived along the discovery order. */
  lemma DerivedExtend(scans: seq<seq<Point>>, rows: seq<seq<seq<nat>>>, records: seq<Overlap>,
                      known: map<nat, Transform>, order: seq<nat>, source: nat, target: nat, t: Transform)
    requires LookupFits(scans, rows) && RecordsFit(scans, records)
    requires Derived(scans, rows, records, known, order)
    requires source in known && target !in known && HasEdge(records, source, target)
    requires EdgeFits(scans, rows, records, known[source], source, target, t)
    ensures Derived(scans, rows, records, known[target := t], order + [target])
  {
    var known' := known[target := t];
    var order' := order + [target];
    var first := FirstRecord(records, source, target);
    assert target < |scans|;
    forall k | 0 < k < |order'|
      ensures HasParent(scans, rows, records, known', order', k)
    {
      if k < |order| {
        assert HasParent(scans, rows, records, known, order, k);
        var a :| 0 <= a < k && order[a] in known && order[k] in known && HasEdge(records, order[a], order[k]) &&
          EdgeFits(scans, rows, records, known[order[a]], order[a], order[k], known[order[k]]);
        assert order'[a] == order[a] && order'[k] == order[k];
        assert known'[order[a]] == known[order[a]] && known'[order[k]] == known[order[k]];
      } else {
        var a :| 0 <= a < |order| && order[a] == source;
        assert order'[a] == source && order'[k] == target;
        assert known'[source] == known[source] && known'[target] == t;
      }
    }
  }

  /** The set of scans is closed under overlap edges. */
  ghost predicate Closed(records: seq<Overlap>, reached: set<nat>)
  {
    forall p: nat, m: nat :: p in reached && HasEdge(records, p, m) ==> m in reached
  }

  /**
   * The queue holds edges out of known scans, and every edge out of a known scan either
   * leads to a known scan or is still queued.
   */
  ghost predicate Frontier(records: seq<Overlap>, known: set<nat>, queue: seq<Edge>)
  {
    (forall e :: e in queue ==> e.0 in known && HasEdge(records, e.0, e.1)) &&
    (forall p: nat, m: nat :: p in known && HasEdge(records, p, m) ==> m in known || (p, m) in queue)
  }

  lemma PopKnown(records: seq<Overlap>, known: set<nat>, queue: seq<Edge>)
    requires Frontier(records, known, queue) && queue != [] && queue[0].1 in known
    ensures Frontier(records, known, queue[1..])
  {
    forall p: nat, m: nat | p in known && HasEdge(records, p, m)
      ensures m in known || (p, m) in queue[1..]
    {
      if m !in known {
        var k :| 0 <= k < |queue| && queue[k] == (p, m);
        assert k != 0;
        assert queue[1..][k - 1] == (p, m);
      }
    }
  }

  lemma PopNew(records: seq<Overlap>, known: set<nat>, queue: seq<Edge>, matches: seq<nat>)
    requires Frontier(records, known, queue) && queue != [] && queue[0].1 !in known
    requires forall m: nat :: m in matches <==> HasEdge(records, queue[0].1, m)
    ensures Frontier(records, known + {queue[0].1}, queue[1..] + Pairs(queue[0].1, matches))
  {
    var target := queue[0].1;
    var known' := known + {target};
    var queue' := queue[1..] + Pairs(target, matches);
    forall e | e in queue' ensures e.0 in known' && HasEdge(records, e.0, e.1) {
      if e !in queue[1..] {
        var k :| 0 <= k < |queue'| && queue'[k] == e;
        assert queue'[k] == Pairs(target, matches)[k - |queue[1..]|];
      }
    }
    forall p: nat, m: nat | p in known' && HasEdge(records, p, m)
      ensures m in known' || (p, m) in queue'
    {
      if p == target {
        var k :| 0 <= k < |matches| && matches[k] == m;
        assert queue'[|queue[1..]| + k] == (p, m);
      } else if m !in known' {
        var k :| 0 <= k < |queue| && queue[k] == (p, m);
        assert k != 0;
        assert queue'[k - 1] == (p, m);
      }
    }
  }

  /** With the queue empty and scans still unreached, the reached scans form a closed proper subset. */
  lemma Exhausted(records: seq<Overlap>, known: set<nat>, n: nat)
    requires Frontier(records, known, [])
    requires forall s :: s in known ==> s < n
    requires |known| < n
    ensures known < AllScans(n) && Closed(records, known)
  {
    AllScansSize(n);
    assert known <= AllScans(n);
    assert known != AllScans(n);
  }

  function Pairs(source: nat, matches: seq<nat>): (r: seq<Edge>)
    ensures |r| == |matches|
  {
    seq(|matches|, k requires 0 <= k < |matches| => (source, matches[k]))
  }

  /** `for match in connections[source]: next_to_match.append((source, match))` */
  method Enqueue(queue: seq<Edge>, source: nat, matches: seq<nat>) returns (r: seq<Edge>)
    ensures r == queue + Pairs(source, matches)
    ensures forall e :: e in r <==> e in queue || (e.0 == source && e.1 in matches)
  {
    r := queue;
    for k := 0 to |matches|
      invariant r == queue + Pairs(source, matches[..k])
    {
      assert Pairs(source, matches[..k + 1]) == Pairs(source, matches[..k]) + [(source, matches[k])];
      r := r + [(source, matches[k])];
    }
    assert matches[..|matches|] == matches;
    forall e ensures e in r <==> e in queue || (e.0 == source && e.1 in matches) {
      if e !in queue && e.0 == source && e.1 in matches {
        var k :| 0 <= k < |matches| && matches[k] == e.1;
        assert r[|queue| + k] == e;
      }
    }
  }

  /** Solve the edge with the first overlap record between its two scans. */
  method SolveEdge(scans: seq<seq<Point>>, rows: seq<seq<seq<nat>>>, records: seq<Overlap>,
                   known: Transform, source: nat, target: nat) returns (found: Result<Transform, SolveError>)
    requires LookupFits(scans, rows) && RecordsFit(scans, records) && HasEdge(records, source, target)
    ensures found == EdgeTransform(scans, rows, records, known, source, target)
    ensures found.Ok? ==> EdgeFits(scans, rows, records, known, source, target, found.value)
  {
    var (src, tgt) := EdgeRows(scans, rows, records, source, target);
    found := FindTransform(known, scans[source], scans[target], src, tgt);
    TransformForFits(known, scans[source], scans[target], src, tgt);
  }

  /** The connections of scan q list exactly its overlap edges. */
  lemma EdgesOf(records: seq<Overlap>, q: nat)
    requires q in Connections(records)
    ensures forall m: nat :: m in Connections(records)[q] <==> HasEdge(records, q, m)
  {
    ConnectionsSpec(records);
  }

  /**
   * One turn of the while loop: pop the head edge; skip it when its target is known,
   * otherwise solve the target's transform, store it and queue the target's edges.
   */
  method Visit(scans: seq<seq<Point>>, rows: seq<seq<seq<nat>>>, records: seq<Overlap>,
               connections: map<nat, seq<nat>>, known: map<nat, Transform>, queue: seq<Edge>)
      returns (err: Option<ComposeError>, known': map<nat, Transform>, queue': seq<Edge>)
    requires LookupFits(scans, rows) && RecordsFit(scans, records)
    requires connections == Connections(records)
    requires Frontier(records, known.Keys, queue) && queue != []
    ensures err.None? ==> Frontier(records, known'.Keys, queue')
    ensures queue[0].1 in known ==> err.None? && known' == known && queue' == queue[1..]
    ensures queue[0].1 !in known ==>
      var found := EdgeTransform(scans, rows, records, known[queue[0].0], queue[0].0, queue[0].1);
      && (found.Err? ==> err == Some(SolveFailed(queue[0].0, queue[0].1, found.error)))
      && (found.Ok? && queue[0].1 !in connections ==> err == Some(MissingConnections(queue[0].1)))
      && (found.Ok? && queue[0].1 in connections ==>
            err.None? && known' == known[queue[0].1 := found.value] &&
            queue' == queue[1..] + Pairs(queue[0].1, connections[queue[0].1]))
    ensures err.None? && queue[0].1 !in known ==>
      EdgeFits(scans, rows, records, known[queue[0].0], queue[0].0, queue[0].1, known'[queue[0].1])
  {
    var source, target := queue[0].0, queue[0].1;
    known', queue' := known, queue;
    if target in known {
      PopKnown(records, known.Keys, queue);
      return None, known, queue[1..];
    }
    var found := SolveEdge(scans, rows, records, known[source], source, target);
    if found.Err? {
      return Some(SolveFailed(source, target, found.error)), known', queue';
    }
    if target !in connections {
      return Some(MissingConnections(target)), known', queue';
    }
    EdgesOf(records, target);
    PopNew(records, known.Keys, queue, connections[target]);
    err := None;
    known' := known[target := found.value];
    queue' := Enqueue(queue[1..], target, connections[target]);
  }

  /**
   * find_scan_transforms. On success every scan has a transform derived along the discovery
   * order. The ghost map `known` holds the transforms known when the walk ended, also when it
   * failed; a failure names the missing key, the closed set of reached scans, or the edge
   * whose solve failed and why.
   */
  method FindScanTransforms(scans: seq<seq<Point>>, rows: seq<seq<seq<nat>>>, records: seq<Overlap>,
                            connections: map<nat, seq<nat>>)
      returns (r: Result<map<nat, Transform>, ComposeError>, ghost known: map<nat, Transform>, ghost order: seq<nat>)
    requires LookupFits(scans, rows) && RecordsFit(scans, records)
    requires connections == Connections(records)
    ensures |scans| > 0 ==> Derived(scans, rows, records, known, order)
    ensures r.Ok? ==> r.value == known && known.Keys == AllScans(|scans|) && 0 in known && known[0] == Identity()
    ensures r == Err(MissingConnections(0)) <==> 0 !in connections
    ensures r.Err? && r.error.MissingConnections? ==> r.error.scan !in connections
    ensures r.Err? && r.error.Disconnected? ==>
      var reached := r.error.reached;
      reached == known.Keys && 0 in reached && reached < AllScans(|scans|) && Closed(records, reached)
    ensures r.Err? && r.error.SolveFailed? ==>
      var (source, target) := (r.error.source, r.error.target);
      source in known && target !in known && HasEdge(records, source, target) &&
      EdgeTransform(scans, rows, records, known[source], source, target) == Err(r.error.reason)
  {
    ConnectionsSpec(records);
    order := [0];
    var current: map<nat, Transform> := map[0 := Identity()];
    known := current;
    if 0 !in connections {
      return Err(MissingConnections(0)), known, order;
    }
    assert HasQuery(records, 0);
    var queue := Enqueue([], 0, connections[0]);
    while |current| < |scans|
      invariant Derived(scans, rows, records, current, order)
      invariant Frontier(records, current.Keys, queue)
      decreases |scans| - |current|, |queue|
    {
      if queue == [] {
        Exhausted(records, current.Keys, |scans|);
        return Err(Disconnected(current.Keys)), current, order;
      }
      var err, current', queue' := Visit(scans, rows, records, connections, current, queue);
      if err.Some? {
        return Err(err.value), current, order;
      }
      if queue[0].1 !in current {
        DerivedExtend(scans, rows, records, current, order, queue[0].0, queue[0].1, current'[queue[0].1]);
        order := order + [queue[0].1];
      }
      current, queue := current', queue';
    }
    FullSubset(current.Keys, |scans|);
    known := current;
    r := Ok(current);
  }
}
