/** PlanetsFromApiReader: one request to the live service, one fallback to
    the mock reader, then deserialisation and conversion of every record. */
module PlanetsReader {
  import opened Wrappers
  import opened Exceptions
  import opened Planets
  import opened Effects

  /** The deserialised document: its `results` array, whose elements JSON may leave null. */
  datatype Root = Root(results: seq<Option<PlanetDto>>)

  const BaseAddress: string := "https://swapi.dev/"
  const RequestUrl: string := "api/planets"

  const FallbackNotice: string := "API request was unsuccessful. Switching to mock data. Exception message: "

  /** The warning shown when the live service raises HttpRequestException:
      the fixed notice, then the exception's message unchanged. */
  function FallbackWarning(message: string): (warning: string)
    ensures |warning| == |FallbackNotice| + |message|
    ensures warning[..|FallbackNotice|] == FallbackNotice
    ensures warning[|FallbackNotice|..] == message
  {
    FallbackNotice + message
  }

  /** Converts every record in order; the first record that fails to
      convert decides the exception and nothing is returned. */
  function ConvertAll(dtos: seq<Option<PlanetDto>>): (r: Result<seq<Planet>, Exception>)
    ensures r.Success? <==> forall i :: 0 <= i < |dtos| ==> ToPlanetOrThrow(dtos[i]).Success?
    ensures r.Success? ==> |r.value| == |dtos|
    ensures r.Success? ==> forall i :: 0 <= i < |dtos| ==> r.value[i] == ToPlanetOrThrow(dtos[i]).value
    ensures r.Failure? ==> exists i :: 0 <= i < |dtos| && ToPlanetOrThrow(dtos[i]) == Failure(r.error)
                                     && forall j :: 0 <= j < i ==> ToPlanetOrThrow(dtos[j]).Success?
  {
    if |dtos| == 0 then Success([])
    else
      match ToPlanetOrThrow(dtos[0])
      case Failure(e) => Failure(e)
      case Success(p) =>
        match ConvertAll(dtos[1..])
        case Failure(e) => Failure(e)
        case Success(ps) => Success([p] + ps)
  }

  /** `ToPlanets`: a null root throws; otherwise every record is converted, in order. */
  function ToPlanets(root: Option<Root>): (r: Result<seq<Planet>, Exception>)
    ensures root.None? ==> r == Failure(ArgumentNull("root"))
    ensures root.Some? ==> r == ConvertAll(root.value.results)
  {
    match root
    case None => Failure(ArgumentNull("root"))
    case Some(document) => ConvertAll(document.results)
  }

  /** Deserialising the final text, then `ToPlanets`; a null text throws
      ArgumentNullException for `json`, malformed JSON a JsonException. */
  function Decode(json: Option<string>, deserialize: string -> Result<Option<Root>, Exception>)
    : (r: Result<seq<Planet>, Exception>)
    ensures json.None? ==> r == Failure(ArgumentNull("json"))
    ensures json.Some? && deserialize(json.value).Failure? ==> r == Failure(deserialize(json.value).error)
    ensures json.Some? && deserialize(json.value).Success? ==> r == ToPlanets(deserialize(json.value).value)
  {
    match json
    case None => Failure(ArgumentNull("json"))
    case Some(text) =>
      match deserialize(text)
      case Failure(e) => Failure(e)
      case Success(root) => ToPlanets(root)
  }

  /** What the mock reader's answer leads to: its body is decoded, and any
      exception it raises escapes. */
  function AfterFallback(fallback: FetchOutcome, deserialize: string -> Result<Option<Root>, Exception>)
    : (r: Result<seq<Planet>, Exception>)
    ensures fallback.Raised? ==> r == Failure(fallback.exception)
    ensures fallback == Fetched(None) ==> r == Failure(ArgumentNull("json"))
    ensures fallback.Fetched? ==> r == Decode(fallback.body, deserialize)
  {
    match fallback
    case Fetched(body) => Decode(body, deserialize)
    case Raised(e) => Failure(e)
  }

  class PlanetsFromApiReader {
    const api: ApiDataReader
    const mock: ApiDataReader
    const user: UserInteractor
    /** `JsonSerializer.Deserialize<Root>`: a root, a null root for the
        text "null", or a failure such as `Json` for text that is not JSON. */
    const deserialize: string -> Result<Option<Root>, Exception>

    /** The two readers and the user interactor record onto one trace. */
    ghost predicate Valid() {
      && api.port == Api && mock.port == Mock
      && api.trace == mock.trace == user.trace
    }

    constructor (api: ApiDataReader, mock: ApiDataReader, user: UserInteractor,
                 deserialize: string -> Result<Option<Root>, Exception>)
      requires api.port == Api && mock.port == Mock
      requires api.trace == mock.trace == user.trace
      ensures Valid()
      ensures this.api == api && this.mock == mock && this.user == user && this.deserialize == deserialize
    {
      this.api := api;
      this.mock := mock;
      this.user := user;
      this.deserialize := deserialize;
    }

    /** A non-null body from the live service is used alone. An
        HttpRequestException is reported once and then the mock reader is
        asked; a null body goes to the mock reader silently; any other
        exception escapes without consulting the mock reader. */
    method Read() returns (r: Result<seq<Planet>, Exception>)
      requires Valid()
      modifies api.trace
      ensures var primary := api.respond(BaseAddress, RequestUrl);
        var fallback := mock.respond(BaseAddress, RequestUrl);
        var asked := Requested(Api, BaseAddress, RequestUrl);
        var askedMock := Requested(Mock, BaseAddress, RequestUrl);
        match primary
        case Fetched(Some(json)) =>
          && api.trace.events == old(api.trace.events) + [asked]
          && r == Decode(Some(json), deserialize)
        case Fetched(None) =>
          && api.trace.events == old(api.trace.events) + [asked, askedMock]
          && r == AfterFallback(fallback, deserialize)
        case Raised(HttpRequest(message)) =>
          && api.trace.events == old(api.trace.events) + [asked, Shown(FallbackWarning(message)), askedMock]
          && r == AfterFallback(fallback, deserialize)
        case Raised(e) =>
          && api.trace.events == old(api.trace.events) + [asked]
          && r == Failure(e)
    {
      var json: Option<string> := None;
      var outcome := api.Read(BaseAddress, RequestUrl);
      match outcome {
        case Fetched(body) =>
          json := body;
        case Raised(HttpRequest(message)) =>
          user.ShowMessage(FallbackWarning(message));
        case Raised(e) =>
          return Failure(e);
      }
      if json.None? {
        var fallback := mock.Read(BaseAddress, RequestUrl);
        match fallback {
          case Fetched(body) =>
            json := body;
          case Raised(e) =>
            return Failure(e);
        }
      }
      r := Decode(json, deserialize);
    }
  }

  /** Writing planets out as records and converting them back gives the
      same planets, in the same order. */
  lemma ConvertAllRoundTrip(planets: seq<Planet>)
    ensures ConvertAll(seq(|planets|, i requires 0 <= i < |planets| => Some(ToDto(planets[i])))) == Success(planets)
  {
    var dtos := seq(|planets|, i requires 0 <= i < |planets| => Some(ToDto(planets[i])));
    forall i | 0 <= i < |planets|
      ensures ToPlanetOrThrow(dtos[i]) == Success(planets[i])
    {
      ToPlanetToDtoRoundTrip(planets[i]);
    }
    var r := ConvertAll(dtos);
    assert r.Success?;
    assert r.value == planets;
  }
}
