/** Both parts of the example, end to end. */
module Day22ExampleAnswers {
  import opened Results
  import opened Cubes
  import opened Day22Example
  import opened Day22Input
  import Day22

  /** Both parts of the example come to 39, as the source expects. */
  lemma ExampleBothParts()
    ensures Day22.ParseAll(ExampleLines()) == Ok(ExampleSteps())
    ensures Day22.RegionSteps(ExampleSteps()) == ExampleSteps()
    ensures CountIn(ExampleSteps(), Day22.Region()) == 39
    ensures forall b :: Encloses(b, ExampleSteps()) ==> CountIn(ExampleSteps(), b) == 39
  {
    ExampleParses();
    ExampleInRegion();
    ExampleEncloses();
    ExampleCount();
    var s := ExampleSteps();
    Day22.RegionEncloses(s);
    forall b | Encloses(b, s) ensures CountIn(s, b) == 39 {
      BoxIrrelevant(s, b, ExampleBox());
    }
  }
}
