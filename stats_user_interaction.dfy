/** The prompt/read protocol of PlanetsStatsUserInteractor. */
module StatsUserInteraction {
  import opened Wrappers
  import opened Effects

  /** `Environment.NewLine` as on Unix-like hosts. */
  const NewLine: string := "\n"

  const Prompt: string := "The statistics of which property would you like to see?"

  /** `string.Join(separator, items)`: no items give the empty string; the
      text starts with the first item and ends with the last. */
  function Join(separator: string, items: seq<string>): (joined: string)
    ensures |items| == 0 ==> joined == ""
    ensures |items| > 0 ==> items[0] <= joined
    ensures |items| > 0 ==> |items[|items| - 1]| <= |joined|
                            && joined[|joined| - |items[|items| - 1]|..] == items[|items| - 1]
  {
    if |items| == 0 then ""
    else if |items| == 1 then items[0]
    else items[0] + separator + Join(separator, items[1..])
  }

  /** Cuts `s` at every occurrence of `c`: the inverse of joining on `c`. */
  function SplitOn(c: char, s: string): (parts: seq<string>)
    ensures |parts| > 0
  {
    if |s| == 0 then [""]
    else
      var rest := SplitOn(c, s[1..]);
      if s[0] == c then [""] + rest else [[s[0]] + rest[0]] + rest[1..]
  }

  lemma {:induction false} SplitOnPrefix(c: char, x: string, t: string)
    requires c !in x
    ensures SplitOn(c, x + t) == [x + SplitOn(c, t)[0]] + SplitOn(c, t)[1..]
  {
    if |x| > 0 {
      assert (x + t)[1..] == x[1..] + t;
      SplitOnPrefix(c, x[1..], t);
      assert [x[0]] + (x[1..] + SplitOn(c, t)[0]) == x + SplitOn(c, t)[0];
    } else {
      var parts := SplitOn(c, t);
      assert x + t == t && x + parts[0] == parts[0];
      assert parts == [parts[0]] + parts[1..];
    }
  }

  /** Splitting the joined options on the separator gives back the options,
      in their order, whenever no option contains the separator. */
  lemma {:induction false} SplitJoinRoundTrip(c: char, items: seq<string>)
    requires |items| > 0
    requires forall i :: 0 <= i < |items| ==> c !in items[i]
    ensures SplitOn(c, Join([c], items)) == items
  {
    if |items| == 1 {
      SplitOnPrefix(c, items[0], "");
      assert items[0] + "" == items[0];
    } else {
      var tail := Join([c], items[1..]);
      var rest := [c] + tail;
      assert Join([c], items) == items[0] + rest by {
        assert items[0] + [c] + tail == items[0] + ([c] + tail);
      }
      SplitJoinRoundTrip(c, items[1..]);
      SplitOnPrefix(c, items[0], rest);
      assert rest[1..] == tail;
      assert SplitOn(c, rest) == [""] + items[1..];
      assert items[0] + "" == items[0];
      assert items == [items[0]] + items[1..];
    }
  }

  /** The events of one choice: a blank line, the prompt, the options one per
      line, then the one read. */
  function ChoiceEvents(options: seq<string>, choice: Option<string>): (events: seq<Event>)
    ensures |events| == 4
  {
    [Shown(NewLine), Shown(Prompt), Shown(Join(NewLine, options)), ReadLine(choice)]
  }

  class PlanetsStatsUserInteractor {
    const user: UserInteractor

    constructor (user: UserInteractor)
      ensures this.user == user
    {
      this.user := user;
    }

    /** Shows three messages, then reads once and returns what was read,
        null included. */
    method ChooseStatisticsToBeShown(options: seq<string>) returns (choice: Option<string>)
      modifies user, user.trace
      ensures choice == NextLine(old(user.pending))
      ensures user.pending == RestOfInput(old(user.pending))
      ensures user.trace.events == old(user.trace.events) + ChoiceEvents(options, choice)
    {
      user.ShowMessage(NewLine);
      user.ShowMessage(Prompt);
      user.ShowMessage(Join(NewLine, options));
      choice := user.ReadFromUser();
    }

    method ShowMessage(message: string)
      modifies user.trace
      ensures user.trace.events == old(user.trace.events) + [Shown(message)]
    {
      user.ShowMessage(message);
    }
  }
}
