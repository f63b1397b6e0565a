/** The example at the head of the Day 22 source file, counted through the model. */
module Day22Example {
  import opened Results
  import opened RebootParse
  import opened Compression
  import opened Cubes

  function ExampleSteps(): seq<Step>
  {
    [Step(true, Range(10, 13), Range(10, 13), Range(10, 13)),
     Step(true, Range(11, 14), Range(11, 14), Range(11, 14)),
     Step(false, Range(9, 12), Range(9, 12), Range(9, 12)),
     Step(true, Range(10, 11), Range(10, 11), Range(10, 11))]
  }
  /** The state of each cube after the example's steps, written out by hand. */
  predicate ExampleOn(x: int, y: int, z: int)
  {
    if 10 <= x < 11 && 10 <= y < 11 && 10 <= z < 11 then true
    else if 9 <= x < 12 && 9 <= y < 12 && 9 <= z < 12 then false
    else (11 <= x < 14 && 11 <= y < 14 && 11 <= z < 14) || (10 <= x < 13 && 10 <= y < 13 && 10 <= z < 13)
  }

  lemma ExampleState(x: int, y: int, z: int)
    ensures LastOn(ExampleSteps(), x, y, z) == ExampleOn(x, y, z)
  {
    var s := ExampleSteps();
    var s1, s2, s3 := s[..1], s[..2], s[..3];
    assert s1[..0] == [] && s2[..1] == s1 && s3[..2] == s2;
    assert LastOn(s1, x, y, z) == (Covers(s[0], x, y, z) && s[0].on);
    assert LastOn(s2, x, y, z) == if Covers(s[1], x, y, z) then s[1].on else LastOn(s1, x, y, z);
    assert LastOn(s3, x, y, z) == if Covers(s[2], x, y, z) then s[2].on else LastOn(s2, x, y, z);
    assert LastOn(s, x, y, z) == if Covers(s[3], x, y, z) then s[3].on else LastOn(s3, x, y, z);
  }

  lemma Unroll5(lo: int, f: int -> int)
    ensures Sum(lo, lo + 5, f) == f(lo) + f(lo + 1) + f(lo + 2) + f(lo + 3) + f(lo + 4)
  {
    assert Sum(lo + 5, lo + 5, f) == 0;
    assert Sum(lo + 4, lo + 5, f) == f(lo + 4);
    assert Sum(lo + 3, lo + 5, f) == f(lo + 3) + f(lo + 4);
    assert Sum(lo + 2, lo + 5, f) == f(lo + 2) + f(lo + 3) + f(lo + 4);
    assert Sum(lo + 1, lo + 5, f) == f(lo + 1) + f(lo + 2) + f(lo + 3) + f(lo + 4);
  }

  function ExampleBox(): Box
  {
    Box(Range(9, 14), Range(9, 14), Range(9, 14))
  }

  /** The number of cubes that are on in column (x, y) of the example's box. */
  function ColumnCount(x: int, y: int): int
    requires 9 <= x < 14 && 9 <= y < 14
  {
    [[0, 0, 0, 0, 0], [0, 2, 1, 3, 0], [0, 1, 2, 4, 3], [0, 3, 4, 4, 3], [0, 0, 3, 3, 3]][x - 9][y - 9]
  }

  lemma ExampleColumn(x: int, y: int)
    requires 9 <= x < 14 && 9 <= y < 14
    ensures Plane(ExampleSteps(), Range(9, 14), x)(y) == ColumnCount(x, y)
  {
    var s := ExampleSteps();
    forall z ensures Line(s, x, y)(z) == Indicator(ExampleOn(x, y, z)) {
      ExampleState(x, y, z);
    }
    Unroll5(9, Line(s, x, y));
  }

  lemma ExamplePlane(x: int)
    requires 9 <= x < 14
    ensures Volume(ExampleSteps(), Range(9, 14), Range(9, 14))(x) == [0, 6, 10, 14, 9][x - 9]
  {
    ExampleColumn(x, 9);
    ExampleColumn(x, 10);
    ExampleColumn(x, 11);
    ExampleColumn(x, 12);
    ExampleColumn(x, 13);
    Unroll5(9, Plane(ExampleSteps(), Range(9, 14), x));
    assert x == 9 || x == 10 || x == 11 || x == 12 || x == 13;
  }

  lemma ExampleEncloses()
    ensures Encloses(ExampleBox(), ExampleSteps())
  {
    BoundsEnclose(ExampleBox(), ExampleSteps());
  }

  /** After the example's four steps 39 cubes of the box around them are on. */
  lemma ExampleCount()
    ensures CountIn(ExampleSteps(), ExampleBox()) == 39
  {
    ExamplePlane(9);
    ExamplePlane(10);
    ExamplePlane(11);
    ExamplePlane(12);
    ExamplePlane(13);
    Unroll5(9, Volume(ExampleSteps(), Range(9, 14), Range(9, 14)));
  }

}
