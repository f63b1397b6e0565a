/**
 * Overlap finding: every pair of beacons from two different scans whose distance sets
 * share at least MinOverlap values is recorded; the records are then ordered by the
 * matched beacon index (descending, stable) and grouped into the overlap graph.
 */
module Overlaps {

  /** The minimum number of shared distances for two beacons to be considered the same beacon. */
  const MinOverlap: nat := 12

  /** One row of the score table: (query_scan_id, qs_lookup_id, match_scan_id, match_lookup_id, score). */
  datatype Overlap = Overlap(queryScan: nat, queryBeacon: nat, matchScan: nat, matchBeacon: nat, score: nat)

  /** The distance sets of every beacon of every scan: `scan_lookup_sets`. */
  type Sets = seq<seq<set<nat>>>

  predicate InRange(sets: Sets, q: nat, i: nat, m: nat, j: nat)
  {
    q < |sets| && i < |sets[q]| && m < |sets| && j < |sets[m]|
  }

  /**
   * A score for every (query scan, query beacon, match scan, match beacon). The loops below
   * are stated for any scorer, so that their proofs do not depend on how scores are computed.
   */
  type Scorer = (nat, nat, nat, nat) -> nat

  /** The number of distances two beacons' sets share: `len(qs_lookup_set & ms_lookup_set)`. */
  function Shared(sets: Sets): Scorer
  {
    (q: nat, i: nat, m: nat, j: nat) => if InRange(sets, q, i, m, j) then |sets[q][i] * sets[m][j]| else 0
  }

  /** The records the loops emit under a scorer: distinct scans, the record's score, and it reaches the threshold. */
  predicate Scored(sets: Sets, score: Scorer, r: Overlap)
  {
    && InRange(sets, r.queryScan, r.queryBeacon, r.matchScan, r.matchBeacon)
    && r.queryScan != r.matchScan
    && r.score == score(r.queryScan, r.queryBeacon, r.matchScan, r.matchBeacon)
    && r.score >= MinOverlap
  }

  /** The records the source emits: distinct scans, the score is the size of the intersection, and it reaches the threshold. */
  predicate Qualifies(sets: Sets, r: Overlap)
  {
    Scored(sets, Shared(sets), r)
  }

  // ---------------------------------------------------------------------------------
  // The records in the order the four nested loops append them.

  /** Innermost loop: candidate beacons j' < j of scan m. */
  function ScoresJ(sets: Sets, score: Scorer, q: nat, i: nat, m: nat, j: nat): seq<Overlap>
    requires q < |sets| && i < |sets[q]| && m < |sets| && j <= |sets[m]|
    decreases j
  {
    if j == 0 then []
    else if score(q, i, m, j - 1) >= MinOverlap then
      ScoresJ(sets, score, q, i, m, j - 1) + [Overlap(q, i, m, j - 1, score(q, i, m, j - 1))]
    else ScoresJ(sets, score, q, i, m, j - 1)
  }

  /** Third loop: the other scans m' < m. */
  function ScoresM(sets: Sets, score: Scorer, q: nat, i: nat, m: nat): seq<Overlap>
    requires q < |sets| && i < |sets[q]| && m <= |sets|
    decreases m
  {
    if m == 0 then []
    else if m - 1 == q then ScoresM(sets, score, q, i, m - 1)
    else ScoresM(sets, score, q, i, m - 1) + ScoresJ(sets, score, q, i, m - 1, |sets[m - 1]|)
  }

  /** Second loop: reference beacons i' < i of scan q. */
  function ScoresI(sets: Sets, score: Scorer, q: nat, i: nat): seq<Overlap>
    requires q < |sets| && i <= |sets[q]|
    decreases i
  {
    if i == 0 then [] else ScoresI(sets, score, q, i - 1) + ScoresM(sets, score, q, i - 1, |sets|)
  }

  /** Outer loop: query scans q' < q. */
  function ScoresQ(sets: Sets, score: Scorer, q: nat): seq<Overlap>
    requires q <= |sets|
    decreases q
  {
    if q == 0 then [] else ScoresQ(sets, score, q - 1) + ScoresI(sets, score, q - 1, |sets[q - 1]|)
  }

  /** No element occurs twice. */
  predicate NoDuplicates<T(==)>(s: seq<T>)
  {
    forall a, b :: 0 <= a < b < |s| ==> s[a] != s[b]
  }

  /** The number of times r occurs in s. */
  function Occurrences(s: seq<Overlap>, r: Overlap): nat
  {
    if s == [] then 0 else (if s[0] == r then 1 else 0) + Occurrences(s[1..], r)
  }

  lemma {:induction false} OccurrencesAppend(a: seq<Overlap>, b: seq<Overlap>, r: Overlap)
    ensures Occurrences(a + b, r) == Occurrences(a, r) + Occurrences(b, r)
  {
    if a == [] {
      assert a + b == b;
    } else {
      assert (a + b)[1..] == a[1..] + b;
      OccurrencesAppend(a[1..], b, r);
    }
  }

  lemma {:induction false} OccurrencesMultiset(s: seq<Overlap>, r: Overlap)
    ensures Occurrences(s, r) == multiset(s)[r]
  {
    if s != [] {
      assert s == [s[0]] + s[1..];
      OccurrencesMultiset(s[1..], r);
    }
  }

  /** Beacon i of scan q against beacons j' < j of scan m: each pair that reaches the threshold, once. */
  lemma {:induction false} ScoresJCount(sets: Sets, score: Scorer, q: nat, i: nat, m: nat, j: nat, r: Overlap)
    requires q < |sets| && i < |sets[q]| && m < |sets| && j <= |sets[m]|
    ensures Occurrences(ScoresJ(sets, score, q, i, m, j), r) ==
      if && r.queryScan == q && r.queryBeacon == i && r.matchScan == m && r.matchBeacon < j
         && r.score == score(q, i, m, r.matchBeacon) && r.score >= MinOverlap then 1 else 0
    decreases j
  {
    if j > 0 {
      ScoresJCount(sets, score, q, i, m, j - 1, r);
      if score(q, i, m, j - 1) >= MinOverlap {
        var record := Overlap(q, i, m, j - 1, score(q, i, m, j - 1));
        OccurrencesAppend(ScoresJ(sets, score, q, i, m, j - 1), [record], r);
        assert [record][1..] == [];
      }
    }
  }

  /** Beacon i of scan q against every beacon of the scans m' < m other than q. */
  lemma {:induction false} ScoresMCount(sets: Sets, score: Scorer, q: nat, i: nat, m: nat, r: Overlap)
    requires q < |sets| && i < |sets[q]| && m <= |sets|
    ensures Occurrences(ScoresM(sets, score, q, i, m), r) ==
      if Scored(sets, score, r) && r.queryScan == q && r.queryBeacon == i && r.matchScan < m then 1 else 0
    decreases m
  {
    if m > 0 {
      ScoresMCount(sets, score, q, i, m - 1, r);
      if m - 1 != q {
        ScoresJCount(sets, score, q, i, m - 1, |sets[m - 1]|, r);
        OccurrencesAppend(ScoresM(sets, score, q, i, m - 1), ScoresJ(sets, score, q, i, m - 1, |sets[m - 1]|), r);
      }
    }
  }

  /** The reference beacons i' < i of scan q. */
  lemma {:induction false} ScoresICount(sets: Sets, score: Scorer, q: nat, i: nat, r: Overlap)
    requires q < |sets| && i <= |sets[q]|
    ensures Occurrences(ScoresI(sets, score, q, i), r) ==
      if Scored(sets, score, r) && r.queryScan == q && r.queryBeacon < i then 1 else 0
    decreases i
  {
    if i > 0 {
      ScoresICount(sets, score, q, i - 1, r);
      ScoresMCount(sets, score, q, i - 1, |sets|, r);
      OccurrencesAppend(ScoresI(sets, score, q, i - 1), ScoresM(sets, score, q, i - 1, |sets|), r);
    }
  }

  /** The score table of the query scans q' < q holds each of their qualifying records exactly once. */
  lemma {:induction false} ScoresQCount(sets: Sets, score: Scorer, q: nat, r: Overlap)
    requires q <= |sets|
    ensures Occurrences(ScoresQ(sets, score, q), r) == if Scored(sets, score, r) && r.queryScan < q then 1 else 0
    decreases q
  {
    if q > 0 {
      ScoresQCount(sets, score, q - 1, r);
      ScoresICount(sets, score, q - 1, |sets[q - 1]|, r);
      OccurrencesAppend(ScoresQ(sets, score, q - 1), ScoresI(sets, score, q - 1, |sets[q - 1]|), r);
    }
  }

  /** With a single scan there is no other scan to match against: the reference-beacon loop emits nothing. */
  lemma {:induction false} LoneScanScoresI(sets: Sets, score: Scorer, i: nat)
    requires |sets| == 1 && i <= |sets[0]|
    ensures ScoresI(sets, score, 0, i) == []
    decreases i
  {
    if i > 0 {
      LoneScanScoresI(sets, score, i - 1);
      assert ScoresM(sets, score, 0, i - 1, 1) == [];
    }
  }

  /** At most one scan: the score table is empty. */
  lemma LoneScan(sets: Sets, score: Scorer)
    requires |sets| <= 1
    ensures ScoresQ(sets, score, |sets|) == []
  {
    if |sets| == 1 {
      LoneScanScoresI(sets, score, |sets[0]|);
    }
  }

  // ---------------------------------------------------------------------------------
  // `sorted(scores, key=lambda x: x[3], reverse=True)`: a stable sort, descending on matchBeacon.

  /** Insert x before the first element whose key is not greater than x's (keeps equal keys in input order). */
  function InsertDesc(x: Overlap, l: seq<Overlap>): seq<Overlap>
  {
    if l == [] || l[0].matchBeacon <= x.matchBeacon then [x] + l else [l[0]] + InsertDesc(x, l[1..])
  }

  function SortByMatchBeacon(s: seq<Overlap>): seq<Overlap>
  {
    if s == [] then [] else InsertDesc(s[0], SortByMatchBeacon(s[1..]))
  }

  predicate SortedDesc(s: seq<Overlap>)
  {
    forall a, b :: 0 <= a < b < |s| ==> s[a].matchBeacon >= s[b].matchBeacon
  }

  /** The records of s with the given key, in order. */
  function WithKey(s: seq<Overlap>, key: nat): seq<Overlap>
  {
    if s == [] then [] else (if s[0].matchBeacon == key then [s[0]] else []) + WithKey(s[1..], key)
  }

  lemma {:induction false} InsertDescSorted(x: Overlap, l: seq<Overlap>)
    requires SortedDesc(l)
    ensures SortedDesc(InsertDesc(x, l))
    ensures |InsertDesc(x, l)| == |l| + 1
    ensures forall k :: 0 <= k < |InsertDesc(x, l)| ==> InsertDesc(x, l)[k] == x || InsertDesc(x, l)[k] in l
    decreases |l|
  {
    if l != [] && l[0].matchBeacon > x.matchBeacon {
      InsertDescSorted(x, l[1..]);
      var rest := InsertDesc(x, l[1..]);
      forall k | 0 <= k < |rest| ensures rest[k].matchBeacon <= l[0].matchBeacon {
        if rest[k] != x {
          assert rest[k] in l[1..];
        }
      }
      forall k | 0 <= k < |InsertDesc(x, l)| ensures InsertDesc(x, l)[k] == x || InsertDesc(x, l)[k] in l {
        if k > 0 {
          assert InsertDesc(x, l)[k] == rest[k - 1];
        }
      }
    }
  }

  lemma {:induction false} InsertDescMultiset(x: Overlap, l: seq<Overlap>)
    ensures multiset(InsertDesc(x, l)) == multiset([x] + l)
    decreases |l|
  {
    if l != [] && l[0].matchBeacon > x.matchBeacon {
      InsertDescMultiset(x, l[1..]);
      assert l == [l[0]] + l[1..];
    }
  }

  lemma {:induction false} InsertDescWithKey(x: Overlap, l: seq<Overlap>, key: nat)
    ensures WithKey(InsertDesc(x, l), key) == WithKey([x] + l, key)
    decreases |l|
  {
    if l != [] && l[0].matchBeacon > x.matchBeacon {
      var rest := InsertDesc(x, l[1..]);
      InsertDescWithKey(x, l[1..], key);
      assert ([l[0]] + rest)[1..] == rest;
      assert ([x] + l[1..])[1..] == l[1..];
      assert ([x] + l)[1..] == l;
      if x.matchBeacon == key {
        assert l[0].matchBeacon != key;
      }
    }
  }

  /** The sort orders the records by matchBeacon, descending, keeps every record with its multiplicity, and is stable. */
  lemma {:induction false} SortSpec(s: seq<Overlap>)
    ensures SortedDesc(SortByMatchBeacon(s))
    ensures multiset(SortByMatchBeacon(s)) == multiset(s)
    ensures forall key :: WithKey(SortByMatchBeacon(s), key) == WithKey(s, key)
  {
    if s != [] {
      var rest := SortByMatchBeacon(s[1..]);
      SortSpec(s[1..]);
      InsertDescSorted(s[0], rest);
      InsertDescMultiset(s[0], rest);
      assert s == [s[0]] + s[1..];
      forall key ensures WithKey(SortByMatchBeacon(s), key) == WithKey(s, key) {
        InsertDescWithKey(s[0], rest, key);
        assert ([s[0]] + rest)[1..] == rest;
      }
    }
  }

  /** Two positions holding the same record make it occur at least twice. */
  lemma RepeatCountsTwice(t: seq<Overlap>, a: nat, b: nat)
    requires a < b < |t| && t[a] == t[b]
    ensures multiset(t)[t[a]] >= 2
  {
    var x := t[a];
    assert t == t[..b] + t[b..];
    assert t[..b][a] == x && t[b..][0] == x;
    assert x in multiset(t[..b]) && x in multiset(t[b..]);
  }

  // ---------------------------------------------------------------------------------
  // `groupby("query_scan_id").match_scan_id.unique()`

  predicate HasQuery(records: seq<Overlap>, q: nat)
  {
    exists k :: 0 <= k < |records| && records[k].queryScan == q
  }

  predicate HasEdge(records: seq<Overlap>, q: nat, m: nat)
  {
    exists k :: 0 <= k < |records| && records[k].queryScan == q && records[k].matchScan == m
  }

  /** For each query scan, its distinct match scans in order of first appearance. */
  function Connections(records: seq<Overlap>): map<nat, seq<nat>>
    decreases |records|
  {
    if records == [] then map[]
    else
      var c := Connections(records[..|records| - 1]);
      var r := records[|records| - 1];
      if r.queryScan !in c then c[r.queryScan := [r.matchScan]]
      else if r.matchScan in c[r.queryScan] then c
      else c[r.queryScan := c[r.queryScan] + [r.matchScan]]
  }

  /** connections has a key for every query scan that has a record, and lists exactly its match scans, each once. */
  lemma {:induction false} ConnectionsSpec(records: seq<Overlap>)
    ensures forall q :: q in Connections(records) <==> HasQuery(records, q)
    ensures forall q, m :: q in Connections(records) ==> (m in Connections(records)[q] <==> HasEdge(records, q, m))
    ensures forall q :: q in Connections(records) ==> NoDuplicates(Connections(records)[q])
    decreases |records|
  {
    if records != [] {
      var init := records[..|records| - 1];
      var r := records[|records| - 1];
      ConnectionsSpec(init);
      forall q ensures HasQuery(records, q) <==> HasQuery(init, q) || r.queryScan == q {
        if HasQuery(records, q) {
          var k :| 0 <= k < |records| && records[k].queryScan == q;
          if k < |init| { assert init[k] == records[k]; }
        }
        if HasQuery(init, q) {
          var k :| 0 <= k < |init| && init[k].queryScan == q;
          assert records[k] == init[k];
        }
      }
      forall q, m ensures HasEdge(records, q, m) <==> HasEdge(init, q, m) || (r.queryScan == q && r.matchScan == m) {
        if HasEdge(records, q, m) {
          var k :| 0 <= k < |records| && records[k].queryScan == q && records[k].matchScan == m;
          if k < |init| { assert init[k] == records[k]; }
        }
        if HasEdge(init, q, m) {
          var k :| 0 <= k < |init| && init[k].queryScan == q && init[k].matchScan == m;
          assert records[k] == init[k];
        }
      }
    }
  }

  // ---------------------------------------------------------------------------------

  /** Every record is mirrored: the intersection is symmetric and both orders of each scan pair are visited. */
  lemma MirrorQualifies(sets: Sets, r: Overlap)
    requires Qualifies(sets, r)
    ensures Qualifies(sets, Overlap(r.matchScan, r.matchBeacon, r.queryScan, r.queryBeacon, r.score))
  {
    assert InRange(sets, r.matchScan, r.matchBeacon, r.queryScan, r.queryBeacon);
    assert sets[r.queryScan][r.queryBeacon] * sets[r.matchScan][r.matchBeacon]
        == sets[r.matchScan][r.matchBeacon] * sets[r.queryScan][r.queryBeacon];
  }

  /** The sorted score table holds each qualifying record exactly once, in descending matchBeacon order. */
  lemma SortedRecords(sets: Sets, scores: seq<Overlap>)
    requires scores == ScoresQ(sets, Shared(sets), |sets|)
    ensures forall r :: r in SortByMatchBeacon(scores) <==> Qualifies(sets, r)
    ensures NoDuplicates(SortByMatchBeacon(scores))
    ensures SortedDesc(SortByMatchBeacon(scores))
  {
    var records := SortByMatchBeacon(scores);
    SortSpec(scores);
    forall r ensures multiset(records)[r] == if Qualifies(sets, r) then 1 else 0 {
      ScoresQCount(sets, Shared(sets), |sets|, r);
      OccurrencesMultiset(scores, r);
    }
    forall r ensures r in records <==> Qualifies(sets, r) {
      assert r in records <==> r in multiset(records);
    }
    forall a, b | 0 <= a < b < |records| ensures records[a] != records[b] {
      if records[a] == records[b] {
        RepeatCountsTwice(records, a, b);
      }
    }
  }

  /** The second loop of find_scan_overlaps: every reference beacon of scan q. */
  method ScoreQuery(sets: Sets, q: nat) returns (found: seq<Overlap>)
    requires q < |sets|
    ensures found == ScoresI(sets, Shared(sets), q, |sets[q]|)
  {
    found := [];
    for i := 0 to |sets[q]|
      invariant found == ScoresI(sets, Shared(sets), q, i)
    {
      var more := ScoreReference(sets, q, i);
      found := found + more;
    }
  }

  /** The two inner loops of find_scan_overlaps: reference beacon i of scan q against every beacon of every other scan. */
  method ScoreReference(sets: Sets, q: nat, i: nat) returns (found: seq<Overlap>)
    requires q < |sets| && i < |sets[q]|
    ensures found == ScoresM(sets, Shared(sets), q, i, |sets|)
  {
    found := [];
    for m := 0 to |sets|
      invariant found == ScoresM(sets, Shared(sets), q, i, m)
    {
      ghost var beforeM := found;
      if m != q {
        for j := 0 to |sets[m]|
          invariant found == beforeM + ScoresJ(sets, Shared(sets), q, i, m, j)
        {
          var score := |sets[q][i] * sets[m][j]|;
          assert score == Shared(sets)(q, i, m, j);
          if score >= MinOverlap {
            found := found + [Overlap(q, i, m, j, score)];
          }
        }
      }
    }
  }

  /**
   * find_scan_overlaps: the score table holds every qualifying beacon pair exactly once,
   * sorted by matchBeacon (descending), and connections groups it by query scan.
   */
  method FindScanOverlaps(sets: Sets) returns (records: seq<Overlap>, connections: map<nat, seq<nat>>)
    ensures records == SortByMatchBeacon(ScoresQ(sets, Shared(sets), |sets|))
    ensures forall r :: r in records <==> Qualifies(sets, r)
    ensures NoDuplicates(records)
    ensures SortedDesc(records)
    ensures connections == Connections(records)
    ensures |sets| <= 1 ==> records == [] && connections == map[]
  {
    var scores: seq<Overlap> := [];
    for q := 0 to |sets|
      invariant scores == ScoresQ(sets, Shared(sets), q)
    {
      var found := ScoreQuery(sets, q);
      scores := scores + found;
    }
    records := SortByMatchBeacon(scores);
    SortedRecords(sets, scores);
    connections := Connections(records);
    if |sets| <= 1 {
      LoneScan(sets, Shared(sets));
    }
  }
}
