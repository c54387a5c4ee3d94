/** PlanetsStatisticsAnalyzer: the attribute registry, the choice of an
    attribute through the stats interactor, and the Max/Min report. */
module StatisticsAnalyzer {
  import opened Wrappers
  import opened Exceptions
  import opened Int32Text
  import opened Planets
  import opened Effects
  import opened StatsUserInteraction
  import opened Extremum

  /** The attributes a user may choose. */
  datatype Property = Population | Diameter | SurfaceWater

  /** The accessor behind each registry entry; the diameter is always present. */
  function Value(property: Property, planet: Planet): Option<int> {
    match property
    case Population => planet.population
    case Diameter => Some(planet.diameter)
    case SurfaceWater => planet.surfaceWater
  }

  /** The registry's accessor as one function value, so that MaxBy, MinBy
      and the report all name the same key selector. */
  function Selector(property: Property): Planet -> Option<int> {
    planet => Value(property, planet)
  }

  /** The dictionary literal, in insertion order. */
  const Registry: seq<(string, Property)> :=
    [("population", Population), ("diameter", Diameter), ("surface water", SurfaceWater)]

  function RegistryKeys(): (keys: seq<string>)
    ensures |keys| == |Registry|
    ensures forall i :: 0 <= i < |Registry| ==> keys[i] == Registry[i].0
  {
    seq(|Registry|, i requires 0 <= i < |Registry| => Registry[i].0)
  }

  /** Dictionary lookup: an exact, case-sensitive key match. */
  function Find(entries: seq<(string, Property)>, key: string): (r: Option<Property>)
    ensures r.Some? <==> exists i :: 0 <= i < |entries| && entries[i].0 == key
    ensures r.Some? ==> exists i :: 0 <= i < |entries| && entries[i] == (key, r.value)
  {
    if |entries| == 0 then None
    else if entries[0].0 == key then Some(entries[0].1)
    else Find(entries[1..], key)
  }

  /** `userChoice is null || !ContainsKey(userChoice)` gives no property. */
  function Lookup(choice: Option<string>): (r: Option<Property>)
    ensures r.Some? <==> choice.Some? && choice.value in RegistryKeys()
    ensures r.Some? ==> (choice.value, r.value) in Registry
  {
    match choice
    case None => None
    case Some(key) => Find(Registry, key)
  }

  /** The registry has exactly three keys in this order, each tied to the
      matching planet field, and no others. */
  lemma RegistryShape()
    ensures RegistryKeys() == ["population", "diameter", "surface water"]
    ensures Lookup(Some("population")) == Some(Population)
    ensures Lookup(Some("diameter")) == Some(Diameter)
    ensures Lookup(Some("surface water")) == Some(SurfaceWater)
    ensures Lookup(Some("Diameter")) == None && Lookup(Some("")) == None
    ensures forall p :: Value(Diameter, p).Some?
  {
    assert RegistryKeys()[0] == "population" && RegistryKeys()[1] == "diameter";
  }

  /** The options message lists the registry keys in registry order, one per line. */
  lemma OptionsMessageListsKeys()
    ensures SplitOn('\n', Join(NewLine, RegistryKeys())) == ["population", "diameter", "surface water"]
  {
    RegistryShape();
    var keys := RegistryKeys();
    assert forall i :: 0 <= i < |keys| ==> '\n' !in keys[i];
    SplitJoinRoundTrip('\n', keys);
  }

  const InvalidChoice: string := "Invalid choice."

  /** String interpolation of an `int?`: null gives the empty string. */
  function Render(v: Option<int>): (s: string)
    ensures s == "" <==> v.None?
  {
    match v
    case None => ""
    case Some(n) => FormatInt32(n)
  }

  lemma RenderRoundTrip(n: int)
    requires InInt32(n)
    ensures ParseInt32(Render(Some(n))) == Success(n)
  {
    ParseFormatRoundTrip(n);
  }

  /** The fixed text before a line's value. */
  function LineHead(descriptor: string, propertyName: string): string {
    descriptor + " " + propertyName + " is: "
  }

  /** The fixed text after a line's value. */
  function LineTail(planetName: string): string {
    "(planet: " + planetName + ")"
  }

  /** One report line: `<descriptor> <property> is: <value>(planet: <name>)`.
      A null value leaves nothing between the head and the tail. */
  function StatisticLine(descriptor: string, propertyName: string, value: Option<int>, planetName: string)
    : (line: string)
    ensures |line| == |LineHead(descriptor, propertyName)| + |Render(value)| + |LineTail(planetName)|
    ensures value.None? ==> line == LineHead(descriptor, propertyName) + LineTail(planetName)
    ensures value.Some? ==> |line| > |LineHead(descriptor, propertyName)| + |LineTail(planetName)|
  {
    LineHead(descriptor, propertyName) + Render(value) + LineTail(planetName)
  }

  lemma ThreePartSlices(head: string, middle: string, tail: string)
    ensures var s := head + middle + tail;
      && s[..|head|] == head
      && s[|head|..|s| - |tail|] == middle
      && s[|s| - |tail|..] == tail
  {
  }

  /** A line can be cut back into its parts: the head, the value's text,
      which parses back to the planet's value, and the tail naming the planet. */
  lemma StatisticLineFields(descriptor: string, propertyName: string, n: int, planetName: string)
    requires InInt32(n)
    ensures var head := LineHead(descriptor, propertyName);
      var tail := LineTail(planetName);
      var line := StatisticLine(descriptor, propertyName, Some(n), planetName);
      && line[..|head|] == head
      && ParseInt32(line[|head|..|line| - |tail|]) == Success(n)
      && line[|line| - |tail|..] == tail
  {
    ThreePartSlices(LineHead(descriptor, propertyName), Render(Some(n)), LineTail(planetName));
    RenderRoundTrip(n);
  }

  function LineFor(dir: Direction, propertyName: string, property: Property, planet: Planet): string {
    StatisticLine(if dir == Max then "Max" else "Min", propertyName, Value(property, planet), planet.name)
  }

  /** The messages shown after the choice is read, or the exception that
      escapes: one "Invalid choice." line, or the Max line then the Min line,
      or InvalidOperation when there are no planets to compare. */
  function Report(planets: seq<Planet>, choice: Option<string>): (r: Result<seq<string>, Exception>)
    ensures Lookup(choice).None? <==> r == Success([InvalidChoice])
    ensures r.Failure? <==> Lookup(choice).Some? && planets == []
    ensures r.Failure? ==> r.error == InvalidOperation
    ensures r.Success? && Lookup(choice).Some? ==> |r.value| == 2
  {
    match Lookup(choice)
    case None => Success([InvalidChoice])
    case Some(property) =>
      if planets == [] then Failure(InvalidOperation)
      else
        var keys := KeysOf(planets, Selector(property));
        var highest := planets[ExtremumIndex(Max, keys)];
        var lowest := planets[ExtremumIndex(Min, keys)];
        Success([LineFor(Max, choice.value, property, highest), LineFor(Min, choice.value, property, lowest)])
  }

  /** For a valid choice, the Max line names the planet that MaxBy's
      description selects and the Min line the one MinBy's selects. */
  lemma ReportNamesExtremes(planets: seq<Planet>, choice: Option<string>)
    requires Lookup(choice).Some? && planets != []
    ensures var property := Lookup(choice).value;
      var keys := KeysOf(planets, Selector(property));
      exists kMax, kMin ::
        && IsExtremum(Max, keys, kMax) && IsExtremum(Min, keys, kMin)
        && Report(planets, choice) == Success([
             StatisticLine("Max", choice.value, keys[kMax], planets[kMax].name),
             StatisticLine("Min", choice.value, keys[kMin], planets[kMin].name)])
  {
    var keys := KeysOf(planets, Selector(Lookup(choice).value));
    ExtremumIndexIsExtremum(Max, keys);
    ExtremumIndexIsExtremum(Min, keys);
  }

  /** When no planet has the chosen attribute, both lines name the first
      planet and show an empty value. */
  lemma AllAbsentReportsFirstPlanet(planets: seq<Planet>, choice: Option<string>)
    requires Lookup(choice).Some? && planets != []
    requires forall i :: 0 <= i < |planets| ==> Value(Lookup(choice).value, planets[i]).None?
    ensures Report(planets, choice) == Success([
      StatisticLine("Max", choice.value, None, planets[0].name),
      StatisticLine("Min", choice.value, None, planets[0].name)])
  {
    var keys := KeysOf(planets, Selector(Lookup(choice).value));
    ExtremumIndexIsExtremum(Max, keys);
    ExtremumIndexIsExtremum(Min, keys);
  }

  lemma FormatTwoDigits(tens: nat, ones: nat)
    requires 1 <= tens < 10 && ones < 10
    ensures FormatInt32(tens * 10 + ones) == [DigitChar(tens), DigitChar(ones)]
  {
    var n := tens * 10 + ones;
    assert n / 10 == tens && n % 10 == ones;
    assert NatDigits(n) == NatDigits(tens) + [DigitChar(ones)];
  }

  lemma RenderTen()
    ensures Render(Some(10)) == "10"
  {
    FormatTwoDigits(1, 0);
  }

  lemma RenderTwenty()
    ensures Render(Some(20)) == "20"
  {
    FormatTwoDigits(2, 0);
  }

  lemma TieExampleIndexes()
    ensures ExtremumIndex(Max, [Some(10), Some(20), Some(20)]) == 1
    ensures ExtremumIndex(Min, [Some(10), Some(20), Some(20)]) == 0
  {
    var keys := [Some(10), Some(20), Some(20)];
    assert keys[..2] == [Some(10), Some(20)];
    assert keys[..2][..1] == [Some(10)];
  }

  lemma TieExampleMaxLine()
    ensures LineFor(Max, "diameter", Diameter, Planet("B", 20, None, None)) == "Max diameter is: 20(planet: B)"
  {
    RenderTwenty();
    assert "20(planet: B)" == "20" + "(planet: B)";
    assert "Max diameter is: 20(planet: B)" == "Max diameter is: " + "20(planet: B)";
  }

  lemma TieExampleMinLine()
    ensures LineFor(Min, "diameter", Diameter, Planet("A", 10, None, None)) == "Min diameter is: 10(planet: A)"
  {
    RenderTen();
    assert "10(planet: A)" == "10" + "(planet: A)";
    assert "Min diameter is: 10(planet: A)" == "Min diameter is: " + "10(planet: A)";
  }

  /** Three planets, two tied on the largest diameter: the first of the tied
      pair is reported for Max. */
  lemma DiameterTieExample()
    ensures var planets := [Planet("A", 10, None, None), Planet("B", 20, None, None), Planet("C", 20, None, None)];
      Report(planets, Some("diameter")) == Success([
        "Max diameter is: 20(planet: B)",
        "Min diameter is: 10(planet: A)"])
  {
    var planets := [Planet("A", 10, None, None), Planet("B", 20, None, None), Planet("C", 20, None, None)];
    RegistryShape();
    var keys := KeysOf(planets, Selector(Diameter));
    assert keys == [Some(10), Some(20), Some(20)];
    TieExampleIndexes();
    TieExampleMaxLine();
    TieExampleMinLine();
  }

  /** What the report of a valid choice is, line by line. */
  lemma ReportOfValidChoice(planets: seq<Planet>, choice: Option<string>)
    requires Lookup(choice).Some?
    ensures var property := Lookup(choice).value;
      var keys := KeysOf(planets, Selector(property));
      && (planets == [] ==> Report(planets, choice) == Failure(InvalidOperation))
      && (planets != [] ==>
           var lines := [LineFor(Max, choice.value, property, planets[ExtremumIndex(Max, keys)]),
                         LineFor(Min, choice.value, property, planets[ExtremumIndex(Min, keys)])];
           Report(planets, choice) == Success(lines) && ShownAll(lines) == [Shown(lines[0]), Shown(lines[1])])
  {
  }

  function ShownAll(lines: seq<string>): (events: seq<Event>)
    ensures |events| == |lines|
    ensures forall i :: 0 <= i < |lines| ==> events[i] == Shown(lines[i])
  {
    seq(|lines|, i requires 0 <= i < |lines| => Shown(lines[i]))
  }

  class PlanetsStatisticsAnalyzer {
    const interactor: PlanetsStatsUserInteractor

    constructor (interactor: PlanetsStatsUserInteractor)
      ensures this.interactor == interactor
    {
      this.interactor := interactor;
    }

    /** Offers the registry keys, reads one choice and shows the report;
        an exception from MaxBy is returned as `thrown`. */
    method Analyze(planets: seq<Planet>) returns (thrown: Option<Exception>)
      modifies interactor.user, interactor.user.trace
      ensures var choice := NextLine(old(interactor.user.pending));
        && interactor.user.pending == RestOfInput(old(interactor.user.pending))
        && match Report(planets, choice)
           case Success(lines) =>
             && thrown == None
             && interactor.user.trace.events
                == old(interactor.user.trace.events) + ChoiceEvents(RegistryKeys(), choice) + ShownAll(lines)
           case Failure(e) =>
             && thrown == Some(e)
             && interactor.user.trace.events
                == old(interactor.user.trace.events) + ChoiceEvents(RegistryKeys(), choice)
    {
      var choice := interactor.ChooseStatisticsToBeShown(RegistryKeys());
      var property := Lookup(choice);
      if property.None? {
        interactor.ShowMessage(InvalidChoice);
        thrown := None;
        assert ShownAll([InvalidChoice]) == [Shown(InvalidChoice)];
      } else {
        thrown := ShowStatistics(planets, choice.value, property.value);
        ReportOfValidChoice(planets, choice);
      }
    }

    /** The Max line, then the Min line; MaxBy throws on no planets. */
    method ShowStatistics(planets: seq<Planet>, propertyName: string, property: Property)
      returns (thrown: Option<Exception>)
      modifies interactor.user.trace
      ensures planets == [] ==> thrown == Some(InvalidOperation)
      ensures planets == [] ==> interactor.user.trace.events == old(interactor.user.trace.events)
      ensures planets != [] ==>
        var keys := KeysOf(planets, Selector(property));
        && thrown == None
        && interactor.user.trace.events == old(interactor.user.trace.events) + [
             Shown(LineFor(Max, propertyName, property, planets[ExtremumIndex(Max, keys)])),
             Shown(LineFor(Min, propertyName, property, planets[ExtremumIndex(Min, keys)]))]
    {
      var highest := ExtremumBy(Max, planets, Selector(property));
      if highest.Failure? {
        return Some(highest.error);
      }
      ShowStatistic(Max, highest.value, property, propertyName);
      var lowest := ExtremumBy(Min, planets, Selector(property));
      ShowStatistic(Min, lowest.value, property, propertyName);
      thrown := None;
    }

    method ShowStatistic(dir: Direction, planet: Planet, property: Property, propertyName: string)
      modifies interactor.user.trace
      ensures interactor.user.trace.events
              == old(interactor.user.trace.events) + [Shown(LineFor(dir, propertyName, property, planet))]
    {
      interactor.ShowMessage(LineFor(dir, propertyName, property, planet));
    }
  }
}
