/** The Planet value and its conversion from the data service's record
    (StartWars/Program.cs, the `Planet` record struct and `ToIntOrNull`). */
module Planets {
  import opened Wrappers
  import opened Exceptions
  import opened Int32Text

  /** An immutable planet: an `int` diameter and `int?` optional attributes. */
  datatype Planet = Planet(name: string, diameter: Int32, surfaceWater: Option<Int32>, population: Option<Int32>)

  /** The data service's record (the DTO class `Result`): every field is a
      string that JSON may leave null. */
  datatype PlanetDto = PlanetDto(
    name: Option<string>,
    diameter: Option<string>,
    population: Option<string>,
    surfaceWater: Option<string>)

  /** The constructor `Planet(name, diameter, surfaceWater, population)`:
      a null name throws; any other name, the empty one included, is kept. */
  function NewPlanet(name: Option<string>, diameter: Int32, surfaceWater: Option<Int32>, population: Option<Int32>)
    : (r: Result<Planet, Exception>)
    ensures r.Success? <==> name.Some?
    ensures r.Failure? ==> r.error == ArgumentNull("name")
    ensures r.Success? ==>
      && r.value.name == name.value
      && r.value.diameter == diameter
      && r.value.surfaceWater == surfaceWater
      && r.value.population == population
  {
    if name.None? then Failure(ArgumentNull("name"))
    else Success(Planet(name.value, diameter, surfaceWater, population))
  }

  /** `int.Parse(s)`: a null string throws ArgumentNullException for `s`. */
  function IntParse(s: Option<string>): (r: Result<int, Exception>)
    ensures s.None? ==> r == Failure(ArgumentNull("s"))
    ensures s.Some? ==> r == ParseInt32(s.value)
    ensures r.Success? ==> InInt32(r.value)
  {
    match s
    case None => Failure(ArgumentNull("s"))
    case Some(text) => ParseInt32(text)
  }

  /** `ToIntOrNull`: `int.TryParse`, with failure turned into null. It never
      throws, a null string included. */
  function ToIntOrNull(s: Option<string>): (r: Option<Int32>)
    ensures r.Some? <==> IntParse(s).Success?
    ensures r.Some? ==> r.value == IntParse(s).value && InInt32(r.value)
  {
    match IntParse(s)
    case Success(n) => Some(n)
    case Failure(_) => None
  }

  /** The explicit conversion `(Planet)planetDto`. The diameter is parsed
      strictly, first; population and surface water leniently; the null-name
      check of the constructor comes last. */
  function ToPlanet(dto: PlanetDto): (r: Result<Planet, Exception>)
    ensures r.Success? <==> IntParse(dto.diameter).Success? && dto.name.Some?
    ensures IntParse(dto.diameter).Failure? ==> r == Failure(IntParse(dto.diameter).error)
    ensures IntParse(dto.diameter).Success? && dto.name.None? ==> r == Failure(ArgumentNull("name"))
    ensures r.Success? ==>
      && r.value.name == dto.name.value
      && r.value.diameter == IntParse(dto.diameter).value
      && r.value.surfaceWater == ToIntOrNull(dto.surfaceWater)
      && r.value.population == ToIntOrNull(dto.population)
  {
    var name := dto.name;
    match IntParse(dto.diameter)
    case Failure(e) => Failure(e)
    case Success(diameter) =>
      var population := ToIntOrNull(dto.population);
      var surfaceWater := ToIntOrNull(dto.surfaceWater);
      NewPlanet(name, diameter, surfaceWater, population)
  }

  /** `(Planet)planetDto` where the record itself may be null: reading
      `planetDto.name` from a null record throws NullReferenceException. */
  function ToPlanetOrThrow(dto: Option<PlanetDto>): (r: Result<Planet, Exception>)
    ensures dto.None? ==> r == Failure(NullReference)
    ensures dto.Some? ==> r == ToPlanet(dto.value)
  {
    match dto
    case None => Failure(NullReference)
    case Some(record) => ToPlanet(record)
  }

  /** A text that starts with a letter, such as the service's "unknown",
      is an absent value and never an error. */
  lemma SentinelIsAbsent(s: string)
    requires |s| > 0 && ('a' <= s[0] <= 'z' || 'A' <= s[0] <= 'Z')
    ensures ToIntOrNull(Some(s)) == None
  {
    NonDigitIsFormatError(s, 0);
  }

  /** A record whose optional fields hold "unknown" converts whenever its
      name and diameter do, with both optional attributes absent. */
  lemma UnknownFieldsConvertToAbsent(name: string, diameter: string)
    requires ParseInt32(diameter).Success?
    ensures var r := ToPlanet(PlanetDto(Some(name), Some(diameter), Some("unknown"), Some("unknown")));
      r == Success(Planet(name, ParseInt32(diameter).value, None, None))
  {
    SentinelIsAbsent("unknown");
  }

  /** Writing a planet back as a record: numbers in decimal, absent values
      as the service's "unknown". */
  function ToDto(p: Planet): (dto: PlanetDto)
    ensures dto.name == Some(p.name)
  {
    PlanetDto(Some(p.name), Some(FormatInt32(p.diameter)), Optional(p.population), Optional(p.surfaceWater))
  }

  function Optional(v: Option<Int32>): Option<string> {
    match v
    case None => Some("unknown")
    case Some(n) => Some(FormatInt32(n))
  }

  lemma OptionalRoundTrip(v: Option<Int32>)
    ensures ToIntOrNull(Optional(v)) == v
  {
    match v
    case None => SentinelIsAbsent("unknown");
    case Some(n) => ParseFormatRoundTrip(n);
  }

  /** Every planet survives being written as a record and converted back. */
  lemma ToPlanetToDtoRoundTrip(p: Planet)
    ensures ToPlanet(ToDto(p)) == Success(p)
  {
    ParseFormatRoundTrip(p.diameter);
    OptionalRoundTrip(p.population);
    OptionalRoundTrip(p.surfaceWater);
  }
}
