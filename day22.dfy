/**
 * The Day 22 pipeline: every line is parsed into a reboot step; part a counts the cubes that
 * are on after only the steps lying in the region [-50, 50] on every axis, part b after all
 * steps.
 */
module Day22 {
  import opened Results
  import opened RebootParse
  import opened Compression
  import opened Cubes
  import opened Reactor

  /** The first line that does not parse, and why. */
  datatype LineError = LineError(line: nat, reason: ParseError)

  /** The parse results in order; the first failure decides the error. */
  function Collect(rs: seq<Result<Step, ParseError>>): (r: Result<seq<Step>, LineError>)
    ensures r.Ok? <==> forall i :: 0 <= i < |rs| ==> rs[i].Ok?
    ensures r.Ok? ==> |r.value| == |rs| && forall i :: 0 <= i < |rs| ==> rs[i] == Ok(r.value[i])
    ensures r.Err? ==>
      r.error.line < |rs| && rs[r.error.line] == Err(r.error.reason) &&
      forall j :: 0 <= j < r.error.line ==> rs[j].Ok?
  {
    if rs == [] then Ok([])
    else
      var n := |rs| - 1;
      assert forall i :: 0 <= i < n ==> rs[..n][i] == rs[i];
      match Collect(rs[..n])
      case Err(e) => Err(e)
      case Ok(steps) =>
        match rs[n]
        case Err(e) => Err(LineError(n, e))
        case Ok(st) => Ok(steps + [st])
  }

  /** Once a result is an error, every longer prefix fails with that result's error. */
  lemma {:induction false} CollectError(rs: seq<Result<Step, ParseError>>, i: nat, j: nat, e: ParseError)
    requires i < j <= |rs| && Collect(rs[..i]).Ok? && rs[i] == Err(e)
    ensures Collect(rs[..j]) == Err(LineError(i, e))
    decreases j
  {
    assert rs[..j][..j - 1] == rs[..j - 1];
    if j > i + 1 {
      CollectError(rs, i, j - 1, e);
    } else {
      assert rs[..i + 1][i] == rs[i];
    }
  }

  function Parses(lines: seq<String>): (rs: seq<Result<Step, ParseError>>)
  {
    seq(|lines|, i requires 0 <= i < |lines| => ParseLine(lines[i]))
  }

  /** All lines parsed in order; the first line that fails decides the error. */
  function ParseAll(lines: seq<String>): (r: Result<seq<Step>, LineError>)
    ensures r.Ok? <==> forall i :: 0 <= i < |lines| ==> ParseLine(lines[i]).Ok?
    ensures r.Ok? ==> |r.value| == |lines| && forall i :: 0 <= i < |lines| ==> ParseLine(lines[i]) == Ok(r.value[i])
    ensures r.Err? ==>
      r.error.line < |lines| && ParseLine(lines[r.error.line]) == Err(r.error.reason) &&
      forall j :: 0 <= j < r.error.line ==> ParseLine(lines[j]).Ok?
  {
    var rs := Parses(lines);
    assert forall i :: 0 <= i < |lines| ==> rs[i] == ParseLine(lines[i]);
    Collect(rs)
  }

  /** Lines that each parse to the corresponding step make up the parse of all of them. */
  lemma ParseAllOk(lines: seq<String>, steps: seq<Step>)
    requires |lines| == |steps| && forall i :: 0 <= i < |steps| ==> ParseLine(lines[i]) == Ok(steps[i])
    ensures ParseAll(lines) == Ok(steps)
  {
    var r := ParseAll(lines);
    assert forall i :: 0 <= i < |steps| ==> r.value[i] == steps[i];
    assert r.value == steps;
  }

  /** One more successful result extends the collected prefix by its value. */
  lemma CollectStep(rs: seq<Result<Step, ParseError>>, i: nat)
    requires i < |rs| && Collect(rs[..i]).Ok? && rs[i].Ok?
    ensures Collect(rs[..i + 1]) == Ok(Collect(rs[..i]).value + [rs[i].value])
  {
    assert rs[..i + 1][..i] == rs[..i];
  }

  /** read_reboot_steps without the file: the loop appending one parsed step per line. */
  method ReadRebootSteps(lines: seq<String>) returns (r: Result<seq<Step>, LineError>)
    ensures r == ParseAll(lines)
  {
    ghost var rs := Parses(lines);
    var steps: seq<Step> := [];
    for i := 0 to |lines|
      invariant Collect(rs[..i]) == Ok(steps)
    {
      var parsed := ParseLine(lines[i]);
      assert rs[i] == parsed;
      if parsed.Err? {
        CollectError(rs, i, |lines|, parsed.error);
        assert rs[..|lines|] == rs;
        return Err(LineError(i, parsed.error));
      }
      CollectStep(rs, i);
      steps := steps + [parsed.value];
    }
    assert rs[..|lines|] == rs;
    return Ok(steps);
  }

  /** `coords.min() >= -50 and coords.max() <= 51`, over both ends of all three ranges. */
  predicate InRegion(st: Step)
  {
    forall a :: -50 <= Along(st, a).lo <= 51 && -50 <= Along(st, a).hi <= 51
  }

  /** The part a comprehension: the steps inside the region, in their original order. */
  function RegionSteps(steps: seq<Step>): (r: seq<Step>)
    ensures |r| <= |steps|
    ensures forall st :: st in r <==> st in steps && InRegion(st)
  {
    if steps == [] then []
    else (if InRegion(steps[0]) then [steps[0]] else []) + RegionSteps(steps[1..])
  }

  /** The filter keeps the original order: filtering a concatenation filters each part. */
  lemma {:induction false} RegionStepsAppend(a: seq<Step>, b: seq<Step>)
    ensures RegionSteps(a + b) == RegionSteps(a) + RegionSteps(b)
  {
    if a != [] {
      assert (a + b)[0] == a[0] && (a + b)[1..] == a[1..] + b;
      RegionStepsAppend(a[1..], b);
    } else {
      assert a + b == b;
    }
  }

  /** Filtering twice is filtering once. */
  lemma {:induction false} RegionStepsIdempotent(steps: seq<Step>)
    ensures RegionSteps(RegionSteps(steps)) == RegionSteps(steps)
  {
    if steps != [] {
      var head := if InRegion(steps[0]) then [steps[0]] else [];
      RegionStepsIdempotent(steps[1..]);
      RegionStepsAppend(head, RegionSteps(steps[1..]));
      if InRegion(steps[0]) {
        assert RegionSteps(head) == head by {
          assert head[1..] == [];
        }
      }
    }
  }

  /** The region [-50, 50] on each axis, as a box of half-open ranges. */
  function Region(): Box
  {
    Box(Range(-50, 51), Range(-50, 51), Range(-50, 51))
  }

  lemma RegionEncloses(steps: seq<Step>)
    ensures Encloses(Region(), RegionSteps(steps))
  {
    var small := RegionSteps(steps);
    assert forall i :: 0 <= i < |small| ==> small[i] in small;
    BoundsEnclose(Region(), small);
  }

  datatype Day22Error =
    | BadLine(error: LineError)   // a line does not parse
    | EmptyRegion                 // no step lies in the region: the source fails unpacking zip()

  /**
   * day22: part a is the number of cubes of the region that are on after the steps lying in
   * it; part b is the number of cubes that are on after all steps, in any box holding them.
   */
  method Day22(lines: seq<String>) returns (r: Result<(int, int), Day22Error>)
    ensures ParseAll(lines).Err? <==> r.Err? && r.error.BadLine?
    ensures ParseAll(lines).Err? ==> r == Err(BadLine(ParseAll(lines).error))
    ensures r == Err(EmptyRegion) <==> ParseAll(lines).Ok? && RegionSteps(ParseAll(lines).value) == []
    ensures r.Ok? ==> var steps := ParseAll(lines).value;
      r.value.0 == CountIn(RegionSteps(steps), Region()) &&
      (forall b :: Encloses(b, steps) ==> r.value.1 == CountIn(steps, b)) &&
      r.value.0 >= 0 && r.value.1 >= 0
  {
    var parsed := ReadRebootSteps(lines);
    if parsed.Err? {
      return Err(BadLine(parsed.error));
    }
    var steps := parsed.value;
    var small := RegionSteps(steps);
    if small == [] {
      return Err(EmptyRegion);
    }
    RegionEncloses(steps);
    var a := CountActiveCubes(small);
    var b := CountActiveCubes(steps);
    return Ok((a, b));
  }
}
