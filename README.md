# Star Wars planets statistics — a Dafny model

This project models the core of a small C# console program. The program fetches planet records from
the public Star Wars data service (`https://swapi.dev/`, path `api/planets`). When the service fails,
it falls back once to a mock data reader. It converts each record into an immutable `Planet`, lets
the user pick an attribute by name, and reports the planets with the largest and smallest value of
that attribute.

Modules, one per concern of the source:

- `Wrappers`, `Exceptions` (`wrappers.dfy`): `Option` for C# `null` and `int?`, `Result` for thrown
  exceptions, and the kinds of exception the code raises or lets escape.
- `Int32Text` (`int32_text.dfy`): the decimal text form of a 32-bit integer. It covers a simplified
  subset of what `int.Parse`/`int.TryParse` accept (an optional sign, then ASCII digits) and what
  `int.ToString` produces, with the round trip proved.
- `Planets` (`planets.dfy`): the `Planet` value, its null-checking constructor, `ToIntOrNull` and the
  explicit conversion from the service's record.
- `Effects` (`effects.dfy`): the ports. The user interactor and the two data readers are recording
  fakes. Each appends what it does to one shared `Trace`, so the order of messages, reads and
  requests is observable. A data reader answers with a function of its arguments, and the user
  interactor reads from a queue of input lines. An exhausted queue reads as `null`, as a console
  does at end of input.
- `StatsUserInteraction` (`stats_user_interaction.dfy`): the prompt/read protocol and `string.Join`.
- `Extremum` (`extremum.dfy`): .NET's `MaxBy`/`MinBy` with an `int?` key, as the library's two-phase
  loop (`SkipAbsent` for the leading null keys, then `ScanPresent`). It is proved against a spec function (`ExtremumIndex`). That function in turn is proved to
  meet a declarative description (`IsExtremum`) that is satisfied by exactly one index.
- `StatisticsAnalyzer` (`statistics_analyzer.dfy`): the attribute registry, the lookup, the report
  text and the `Analyze` method.
- `PlanetsReader` (`planets_reader.dfy`): the primary/fallback read, deserialisation as a parameter,
  and the order-preserving conversion of all records.

Behaviour of the code worth noting:

- A planet name is rejected only when null. The empty name is accepted.
- `MinBy` skips absent values just as `MaxBy` does. Absent is not ranked below present values.
- Only `HttpRequestException` from the live service leads to the fallback. Any other exception
  escapes, and the mock reader is not asked.
- An absent value is shown as the empty string, not as "unknown".

## Model

| member | source | states |
|---|---|---|
| `Int32Text.ParseInt32` | StartWars/Program.cs:198 | a parsed value is always within the 32-bit range; every failure is a format or an overflow error; empty text and a lone sign are format errors |
| `Int32Text.FormatInt32` | StartWars/App/PlanetsStatisticsAnalyzer.cs:65 | the rendering of an integer is never empty, starts with a digit exactly when the integer is not negative (otherwise with "-"), and its digits are non-empty with no leading zero |
| `Int32Text.ParseLiteral` | StartWars/Program.cs:198 | every literal (an optional sign matching the value's sign, any leading zeros, then the digits) parses to its value when that fits in 32 bits and to OverflowException otherwise, so "+7" and "007" give 7 and "-0" gives 0 |
| `Int32Text.ParseAcceptsOnlyLiterals` | StartWars/Program.cs:198 | conversely, every text that is not a format error is such a literal, and its parse is that literal's value or OverflowException |
| `Int32Text.FormatOutOfRangeOverflows` | StartWars/Program.cs:198 | an integer outside the 32-bit range, written out, is rejected with OverflowException, not as malformed |
| `Int32Text.ParseFormatRoundTrip` | StartWars/Program.cs:210 | parsing the rendering of any 32-bit integer gives back that integer |
| `Int32Text.NonDigitIsFormatError` | StartWars/Program.cs:210 | text with any character that is neither a digit nor a leading sign is rejected as a format error |
| `Planets.NewPlanet` | StartWars/Program.cs:180-193 | construction fails with ArgumentNullException("name") exactly when the name is null (the empty name is accepted); a built planet holds exactly the name, diameter, surface water and population passed, each in its own slot |
| `Planets.IntParse` | StartWars/Program.cs:198 | strict parsing of a null string fails with ArgumentNullException("s"); a non-null string gives exactly `ParseInt32`'s result, whose value `ParseLiteral` and `ParseAcceptsOnlyLiterals` pin down; a success is a 32-bit value |
| `Planets.ToIntOrNull` | StartWars/Program.cs:208-213 | never fails; gives the value exactly when strict parsing succeeds, and null otherwise, a null string included |
| `Planets.ToPlanet` | StartWars/Program.cs:195-204 | conversion succeeds iff the diameter parses and the name is non-null; a bad diameter's error wins over a null name; the name is the record's, the diameter is the parsed value, and surface water and population are the lenient parses of their own fields, not swapped |
| `Planets.ToPlanetOrThrow` | StartWars/Program.cs:195-197 | a null record fails with NullReferenceException when its name is read; any other record is converted as `ToPlanet` converts it |
| `Planets.SentinelIsAbsent` | StartWars/Program.cs:200-201 | a field text starting with a letter, such as "unknown", becomes an absent value and never an error |
| `Planets.UnknownFieldsConvertToAbsent` | StartWars/Program.cs:195-204 | a record with "unknown" population and surface water converts to a planet with both attributes absent |
| `Planets.ToPlanetToDtoRoundTrip` | StartWars/Program.cs:195-204 | every planet (its numbers are 32-bit by type), written back as a record (absent values as "unknown"), converts back to the same planet |
| `Effects.UserInteractor.ShowMessage` | StartWars/UserInteraction/IUserInteractor.cs:5 | appends exactly one shown message to the trace |
| `Effects.UserInteractor.ReadFromUser` | StartWars/UserInteraction/IUserInteractor.cs:6 | returns the next input line, or null at end of input, consumes it, and records the read |
| `Effects.ApiDataReader.Read` | StartWars/ApiDataReader.cs:5-14 | returns the port's answer for the given address and path and records one request with them |
| `StatsUserInteraction.Join` | StartWars/UserInteraction/PlanetsStatsUserInteractor.cs:20-22 | joining no items gives the empty string; otherwise the joined text starts with the first item and ends with the last |
| `StatsUserInteraction.SplitJoinRoundTrip` | StartWars/UserInteraction/PlanetsStatsUserInteractor.cs:19-22 | joining options on a separator that none contains can be undone by splitting, so every option is shown, in order |
| `StatsUserInteraction.PlanetsStatsUserInteractor.ChooseStatisticsToBeShown` | StartWars/UserInteraction/PlanetsStatsUserInteractor.cs:12-25 | shows a newline, the prompt and the options joined by newline, in that order, then reads exactly once and returns the line read unchanged, null included |
| `StatsUserInteraction.PlanetsStatsUserInteractor.ShowMessage` | StartWars/UserInteraction/PlanetsStatsUserInteractor.cs:35-38 | forwards the message unchanged: one shown event and nothing else |
| `Extremum.ExtremumBy` | StartWars/App/PlanetsStatisticsAnalyzer.cs:47-53 | fails with InvalidOperation exactly on an empty sequence; otherwise returns the element at the index the scan specification selects |
| `Extremum.ExtremumIndexIsExtremum` | StartWars/App/PlanetsStatisticsAnalyzer.cs:47-53 | the selected index has a present key that no present key beats, strictly beats every earlier present key, and is the first index when every key is absent |
| `Extremum.IsExtremumUnique` | StartWars/App/PlanetsStatisticsAnalyzer.cs:47-53 | at most one index meets that description, so the selection is determined |
| `Extremum.MaxByIsGreatestPresent` | StartWars/App/PlanetsStatisticsAnalyzer.cs:47 | Max reports a present value at least every present value, the earliest planet with that value; it reports an absent value exactly when all values are absent, and then the first planet |
| `Extremum.MinByIsLeastPresent` | StartWars/App/PlanetsStatisticsAnalyzer.cs:53 | Min reports a present value at most every present value, the earliest planet with that value, skipping absent values; it reports an absent value exactly when all values are absent, and then the first planet |
| `StatisticsAnalyzer.RegistryShape` | StartWars/App/PlanetsStatisticsAnalyzer.cs:16-22 | the registry keys are exactly "population", "diameter", "surface water" in that order, each mapped to its field; lookup is case-sensitive; the diameter is always present |
| `StatisticsAnalyzer.Find` | StartWars/App/PlanetsStatisticsAnalyzer.cs:28 | a key is found iff some entry has exactly that key, and the result is that entry's property |
| `StatisticsAnalyzer.Lookup` | StartWars/App/PlanetsStatisticsAnalyzer.cs:27-28 | a null choice or one that is not exactly a registry key gives no property; otherwise the registered property |
| `StatisticsAnalyzer.OptionsMessageListsKeys` | StartWars/App/PlanetsStatisticsAnalyzer.cs:24-25 | the options message splits back into the three registry keys, in registry order |
| `StatisticsAnalyzer.Render` | StartWars/App/PlanetsStatisticsAnalyzer.cs:65 | an absent value renders as the empty string, and only an absent value does |
| `StatisticsAnalyzer.RenderRoundTrip` | StartWars/App/PlanetsStatisticsAnalyzer.cs:65 | a rendered present value parses back to itself |
| `StatisticsAnalyzer.StatisticLine` | StartWars/App/PlanetsStatisticsAnalyzer.cs:64-66 | a line is as long as its head, value text and tail together, and it is the head followed directly by the tail exactly when the value is null |
| `StatisticsAnalyzer.StatisticLineFields` | StartWars/App/PlanetsStatisticsAnalyzer.cs:64-66 | a line with a 32-bit value cuts back into "<descriptor> <key> is: ", a middle that parses to the value, and "(planet: <name>)" |
| `StatisticsAnalyzer.Report` | StartWars/App/PlanetsStatisticsAnalyzer.cs:27-55 | an invalid choice gives exactly the one line "Invalid choice."; a valid choice gives exactly two lines, or InvalidOperation when there are no planets |
| `StatisticsAnalyzer.ReportNamesExtremes` | StartWars/App/PlanetsStatisticsAnalyzer.cs:45-66 | for a valid choice the lines are "Max ... is: v(planet: n)" then "Min ...", naming the planets that meet the Max and Min descriptions, with their values |
| `StatisticsAnalyzer.AllAbsentReportsFirstPlanet` | StartWars/App/PlanetsStatisticsAnalyzer.cs:45-55 | when no planet has the chosen attribute, both lines name the first planet with an empty value |
| `StatisticsAnalyzer.DiameterTieExample` | StartWars/App/PlanetsStatisticsAnalyzer.cs:45-66 | diameters 10, 20, 20 for A, B, C give "Max diameter is: 20(planet: B)" and "Min diameter is: 10(planet: A)" |
| `StatisticsAnalyzer.PlanetsStatisticsAnalyzer.Analyze` | StartWars/App/PlanetsStatisticsAnalyzer.cs:14-39 | offers the registry keys through the choice protocol, reads once, then shows exactly the report's lines, or shows nothing more and lets InvalidOperation escape |
| `StatisticsAnalyzer.PlanetsStatisticsAnalyzer.ShowStatistics` | StartWars/App/PlanetsStatisticsAnalyzer.cs:41-56 | the Max line is shown before the Min line; with no planets MaxBy throws and nothing is shown |
| `StatisticsAnalyzer.PlanetsStatisticsAnalyzer.ShowStatistic` | StartWars/App/PlanetsStatisticsAnalyzer.cs:58-67 | shows exactly one line naming the descriptor, the key, the planet's value and its name |
| `PlanetsReader.ConvertAll` | StartWars/DataAccess/PlanetsFromApiReader.cs:53-54 | succeeds iff every record converts, a null record failing with NullReferenceException; then the result has the records' length and element i is the conversion of record i; otherwise the error is that of the first record that fails |
| `PlanetsReader.ToPlanets` | StartWars/DataAccess/PlanetsFromApiReader.cs:45-55 | a null root fails with ArgumentNullException("root"); otherwise every record is converted in order |
| `PlanetsReader.FallbackWarning` | StartWars/DataAccess/PlanetsFromApiReader.cs:34-36 | the warning is the fixed notice "API request was unsuccessful. Switching to mock data. Exception message: " followed by exactly the exception's message |
| `PlanetsReader.AfterFallback` | StartWars/DataAccess/PlanetsFromApiReader.cs:38-42 | an exception from the mock reader escapes; a null text from it fails with ArgumentNullException("json"); a text is deserialised and converted |
| `PlanetsReader.Decode` | StartWars/DataAccess/PlanetsFromApiReader.cs:40-42 | a null final text fails with ArgumentNullException("json"), a deserialiser failure escapes, and otherwise the root goes to ToPlanets |
| `PlanetsReader.PlanetsFromApiReader.Read` | StartWars/DataAccess/PlanetsFromApiReader.cs:23-43 | both readers are asked with "https://swapi.dev/" and "api/planets"; a non-null body is used with no mock request and no message; a null body asks the mock once with no message; an HttpRequestException shows exactly one warning with its message and then asks the mock once; any other exception escapes without asking the mock |
| `PlanetsReader.ConvertAllRoundTrip` | StartWars/DataAccess/PlanetsFromApiReader.cs:53-54 | planets written out as records convert back to the same planets in the same order |

## Left out

- `PlanetsReader.ConvertAll`: conversion is eager and all-or-nothing. The source's `Select` is lazy: a
  bad diameter surfaces only when the caller enumerates the planets, and each enumeration converts
  again.
- `Int32Text.ParseInt32`: accepts only an optional `+`/`-` sign followed by ASCII digits. The
  leading and trailing white space, the trailing `'\0'` characters and the culture-specific signs
  that `int.Parse` also accepts are not modelled.
- `StatsUserInteraction.NewLine` is `"\n"`. On Windows `Environment.NewLine` is `"\r\n"`.
- JSON deserialisation (`System.Text.Json`) is an uninterpreted parameter that gives a root, a null
  root, or an exception. A null record inside `results` is modelled. A root whose `results` array is
  itself null is not modelled.
- The HTTP transport (`StartWars/ApiDataReader.cs`) and the mock data reader are abstract ports that
  answer with a fixed function of address and path.
- `async`/`Task`: the flow is sequential, so every operation is an ordinary method.
- `StartWars/App/StartWarsPlanetsApp.cs` (printing each planet with the record's `ToString`), the
  top-level try/catch in StartWars/Program.cs:6-19, `ConsoleUserInteractor` and
  `PlanetsStatsUserInteractor.Show`: console glue with no logic beyond call order.
- The older copies of the reader and analyzer in StartWars/Program.cs:51-171 duplicate the modelled
  classes but write to the console directly.
- Integer interpolation and `int.ToString` use the current culture. The model renders with a `-`
  sign and ASCII digits.
