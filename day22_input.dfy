/** The four lines of the example at the head of the Day 22 source file, and their parse. */
module Day22Input {
  import opened Results
  import opened RebootParse
  import opened Day22Example
  import Day22

  function ExampleLines(): seq<String>
  {
    ["on x=10..12,y=10..12,z=10..12",
     "on x=11..13,y=11..13,z=11..13",
     "off x=9..11,y=9..11,z=9..11",
     "on x=10..10,y=10..10,z=10..10"]
  }

  lemma Numerals()
    ensures IntToString(9) == "9" && IntToString(10) == "10" && IntToString(11) == "11"
    ensures IntToString(12) == "12" && IntToString(13) == "13"
  {
    assert NatToString(1) == "1";
  }

  lemma FormatsLine0()
    ensures FormatStep(Step(true, Range(10, 13), Range(10, 13), Range(10, 13))) == "on x=10..12,y=10..12,z=10..12"
  {
    Numerals();
  }

  lemma FormatsLine1()
    ensures FormatStep(Step(true, Range(11, 14), Range(11, 14), Range(11, 14))) == "on x=11..13,y=11..13,z=11..13"
  {
    Numerals();
  }

  lemma FormatsLine2()
    ensures FormatStep(Step(false, Range(9, 12), Range(9, 12), Range(9, 12))) == "off x=9..11,y=9..11,z=9..11"
  {
    Numerals();
  }

  lemma FormatsLine3()
    ensures FormatStep(Step(true, Range(10, 11), Range(10, 11), Range(10, 11))) == "on x=10..10,y=10..10,z=10..10"
  {
    Numerals();
  }

  /** Each example line is the input syntax of the corresponding step. */
  lemma ExampleFormats()
    ensures forall i :: 0 <= i < 4 ==> FormatStep(ExampleSteps()[i]) == ExampleLines()[i]
  {
    var lines, steps := ExampleLines(), ExampleSteps();
    FormatsLine0();
    FormatsLine1();
    FormatsLine2();
    FormatsLine3();
    assert steps[0] == Step(true, Range(10, 13), Range(10, 13), Range(10, 13));
    assert lines[0] == "on x=10..12,y=10..12,z=10..12";
    assert steps[1] == Step(true, Range(11, 14), Range(11, 14), Range(11, 14));
    assert lines[1] == "on x=11..13,y=11..13,z=11..13";
    assert steps[2] == Step(false, Range(9, 12), Range(9, 12), Range(9, 12));
    assert lines[2] == "off x=9..11,y=9..11,z=9..11";
    assert steps[3] == Step(true, Range(10, 11), Range(10, 11), Range(10, 11));
    assert lines[3] == "on x=10..10,y=10..10,z=10..10";
  }

  lemma ParsesLine(st: Step, line: String)
    requires FormatStep(st) == line
    ensures ParseLine(line) == Ok(st)
  {
    ParseFormatRoundTrip(st);
  }

  /** The example's lines parse to its four steps. */
  lemma ExampleParses()
    ensures Day22.ParseAll(ExampleLines()) == Ok(ExampleSteps())
  {
    var lines, steps := ExampleLines(), ExampleSteps();
    ExampleFormats();
    forall i | 0 <= i < 4 ensures ParseLine(lines[i]) == Ok(steps[i]) {
      ParsesLine(steps[i], lines[i]);
    }
    Day22.ParseAllOk(lines, steps);
  }

  lemma ExampleInRegion()
    ensures Day22.RegionSteps(ExampleSteps()) == ExampleSteps()
  {
    var s := ExampleSteps();
    assert Day22.InRegion(s[0]) && Day22.InRegion(s[1]) && Day22.InRegion(s[2]) && Day22.InRegion(s[3]);
    assert s[1..][1..][1..][1..] == [];
  }
}
