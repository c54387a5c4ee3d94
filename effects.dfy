/** The ports the core talks through: the user interactor (`IUserInteractor`)
    and the two data readers (`IApiDataReader`), as recording fakes that
    append what happens to one shared trace. */
module Effects {
  import opened Wrappers
  import opened Exceptions

  /** Which of the two data readers was called. */
  datatype Port = Api | Mock

  /** One observable effect, in the order it happened. */
  datatype Event =
    | Shown(message: string)                                        // ShowMessage
    | ReadLine(line: Option<string>)                                // ReadFromUser
    | Requested(port: Port, baseAddress: string, requestUrl: string) // IApiDataReader.Read

  /** What one call of a data reader gives: a (possibly null) body, or a raised exception. */
  datatype FetchOutcome = Fetched(body: Option<string>) | Raised(exception: Exception)

  class Trace {
    var events: seq<Event>

    constructor ()
      ensures events == []
    {
      events := [];
    }
  }

  /** The next line a console would give: null once the input is exhausted. */
  function NextLine(pending: seq<string>): Option<string> {
    if pending == [] then None else Some(pending[0])
  }

  function RestOfInput(pending: seq<string>): (rest: seq<string>)
    ensures pending != [] ==> pending == [pending[0]] + rest
    ensures pending == [] ==> rest == []
  {
    if pending == [] then [] else pending[1..]
  }

  /** The user interactor: shows messages and reads the lines in `pending`. */
  class UserInteractor {
    const trace: Trace
    var pending: seq<string>

    constructor (trace: Trace, input: seq<string>)
      ensures this.trace == trace && pending == input
    {
      this.trace := trace;
      pending := input;
    }

    method ShowMessage(message: string)
      modifies trace
      ensures trace.events == old(trace.events) + [Shown(message)]
    {
      trace.events := trace.events + [Shown(message)];
    }

    method ReadFromUser() returns (line: Option<string>)
      modifies this, trace
      ensures line == NextLine(old(pending))
      ensures pending == RestOfInput(old(pending))
      ensures trace.events == old(trace.events) + [ReadLine(line)]
    {
      line := NextLine(pending);
      pending := RestOfInput(pending);
      trace.events := trace.events + [ReadLine(line)];
    }
  }

  /** A data reader: answers a request with `respond`, recording the request. */
  class ApiDataReader {
    const port: Port
    const trace: Trace
    const respond: (string, string) -> FetchOutcome

    constructor (port: Port, trace: Trace, respond: (string, string) -> FetchOutcome)
      ensures this.port == port && this.trace == trace && this.respond == respond
    {
      this.port := port;
      this.trace := trace;
      this.respond := respond;
    }

    method Read(baseAddress: string, requestUrl: string) returns (outcome: FetchOutcome)
      modifies trace
      ensures outcome == respond(baseAddress, requestUrl)
      ensures trace.events == old(trace.events) + [Requested(port, baseAddress, requestUrl)]
    {
      outcome := respond(baseAddress, requestUrl);
      trace.events := trace.events + [Requested(port, baseAddress, requestUrl)];
    }
  }
}
