/** The widget's state and its submit handler, as a pure transition: the
    state before the submission and the provider's answer in, the states the
    widget passes through out. */
module Widget {
  import opened Options
  import opened Text
  import opened Provider
  import opened Messages

  /** The widget's four state cells: the text typed so far, the stored
      record, the error line, and whether a request is in flight. */
  datatype State = State(
    location: string,
    weather: Option<WeatherData>,
    error: Option<string>,
    isLoading: bool)

  /** The state a freshly mounted widget starts in. */
  const Initial := State("", None, None, false)

  const EmptyLocationMessage := "Please Enter a Valid Location."
  const LookupFailedMessage := "City not Found. Please try again."

  /** What one submission does. `Rejected`: the input was blank and no
      request left the widget. `Sent`: exactly one request for `query` was
      issued; `inFlight` is the state shown while it is outstanding and
      `final` the state once it has settled. */
  datatype Submission =
    | Rejected(final: State)
    | Sent(query: string, inFlight: State, final: State)

  /** The state after the outstanding request settles with `outcome`. */
  function Settle(inFlight: State, outcome: Outcome): (r: State)
    ensures !r.isLoading && r.location == inFlight.location
    ensures Fetched(outcome).Some? ==> r.weather == Fetched(outcome) && r.error == inFlight.error
    ensures Fetched(outcome).None? ==> r.weather == None && r.error == Some(LookupFailedMessage)
  {
    match Fetched(outcome)
    case Some(data) => inFlight.(weather := Some(data), isLoading := false)
    case None => inFlight.(error := Some(LookupFailedMessage), weather := None, isLoading := false)
  }

  /** `handleSearch`. `outcome` is the provider's answer to the request for
      the trimmed text; it is consulted only when that request is issued. */
  function HandleSearch(w: State, outcome: Outcome): (s: Submission)
    // blank input: the fixed message, no record, nothing else touched
    ensures s.Rejected? <==> AllSpace(w.location)
    ensures s.Rejected? ==> s.final == w.(error := Some(EmptyLocationMessage), weather := None)
    // otherwise one request, for the trimmed text
    ensures s.Sent? ==> s.query != [] && IsTrimOf(w.location, s.query)
    ensures s.Sent? ==> s.inFlight == w.(isLoading := true, error := None)
    // and once it settles: the provider's record, or the failure message
    ensures s.Sent? ==> !s.final.isLoading && s.final.location == w.location
    ensures s.Sent? && Fetched(outcome).Some? ==>
              s.final.weather == Fetched(outcome) && s.final.error == None
    ensures s.Sent? && Fetched(outcome).None? ==>
              s.final.weather == None && s.final.error == Some(LookupFailedMessage)
  {
    var query := Trim(w.location);
    if query == "" then
      Rejected(w.(error := Some(EmptyLocationMessage), weather := None))
    else
      var inFlight := w.(isLoading := true, error := None);
      Sent(query, inFlight, Settle(inFlight, outcome))
  }

  /** On blank input the provider's answer cannot matter: no request went out. */
  lemma BlankInputIgnoresOutcome(w: State, o1: Outcome, o2: Outcome)
    requires AllSpace(w.location)
    ensures HandleSearch(w, o1) == HandleSearch(w, o2)
    ensures HandleSearch(w, o1).final.isLoading == w.isLoading
  {
  }

  /** Corollary of `HandleSearch`'s contract: the query is the same for every
      answer and for any text that trims to the same string, so surrounding
      white space never reaches the provider. */
  lemma QueryIsTrimmedText(w1: State, w2: State, o1: Outcome, o2: Outcome)
    requires Trim(w1.location) == Trim(w2.location)
    requires HandleSearch(w1, o1).Sent?
    ensures HandleSearch(w2, o2).Sent?
    ensures HandleSearch(w1, o1).query == HandleSearch(w2, o2).query
  {
  }

  /** Any failure wipes the previous record, whatever the earlier state. */
  lemma FailureClearsRecord(w: State, outcome: Outcome)
    requires !AllSpace(w.location)
    requires outcome.NetworkError? || (outcome.Responded? && !IsOk(outcome.status))
    ensures HandleSearch(w, outcome).final ==
            w.(weather := None, error := Some(LookupFailedMessage), isLoading := false)
  {
  }

  /** An example: a provider answer for Lahore at 22.5 degrees. */
  lemma LahoreExample(w: State)
    requires w.location == "  lahore "
    ensures var s := HandleSearch(w, Responded(200, Json(Some(Current(22.5, Some(Condition("Partly cloudy")))),
                                                        Some(Place("Lahore")))));
            s.Sent? && s.query == "lahore"
            && s.final.weather == Some(WeatherData(22.5, "Partly cloudy", "Lahore", "C"))
            && s.final.error == None && !s.final.isLoading
  {
    assert !IsSpace(w.location[2]);
    var q := HandleSearch(w, NetworkError).query;
    assert TrimmedAt(w.location, 2, 8) && w.location[2..8] == "lahore";
    TrimOfIsUnique(w.location, q, "lahore");
  }

  /** Everything the user can do to the widget, one at a time. */
  datatype Event =
    | Typed(text: string)
    | Submitted(outcome: Outcome)

  /** One event: typing replaces the text; submitting runs the handler to
      the settled state. */
  function Step(w: State, e: Event): (r: State)
    // typing touches the text and nothing else
    ensures e.Typed? ==> r.location == e.text && r.weather == w.weather
                         && r.error == w.error && r.isLoading == w.isLoading
    // a submission keeps the text and always shows an outcome of its own
    ensures e.Submitted? ==> r.location == w.location
    ensures e.Submitted? && AllSpace(w.location) ==>
              r.error == Some(EmptyLocationMessage) && r.weather == None
              && r.isLoading == w.isLoading
    ensures e.Submitted? && !AllSpace(w.location) ==>
              !r.isLoading && (r.weather.Some? <==> r.error == None)
  {
    match e
    case Typed(text) => w.(location := text)
    case Submitted(outcome) => HandleSearch(w, outcome).final
  }

  function Run(w: State, events: seq<Event>): State
    decreases |events|
  {
    if events == [] then w else Run(Step(w, events[0]), events[1..])
  }

  /** What holds of the widget whenever no request is outstanding: not
      loading, never both a record and an error, and every record in
      Celsius. */
  predicate AtRest(w: State) {
    && !w.isLoading
    && !(w.weather.Some? && w.error.Some?)
    && (w.weather.Some? ==> w.weather.value.unit == "C")
  }

  lemma StepKeepsAtRest(w: State, e: Event)
    requires AtRest(w)
    ensures AtRest(Step(w, e))
  {
  }

  /** From any resting state, any sequence of edits and settled submissions
      leaves the widget at rest. */
  lemma {:induction false} RunKeepsAtRest(w: State, events: seq<Event>)
    requires AtRest(w)
    ensures AtRest(Run(w, events))
    decreases |events|
  {
    if events != [] {
      StepKeepsAtRest(w, events[0]);
      RunKeepsAtRest(Step(w, events[0]), events[1..]);
    }
  }

  /** A shown record always gets a band sentence, never the placeholder. */
  lemma ShownTemperatureIsBanded(events: seq<Event>, shown: string)
    requires Run(Initial, events).weather.Some?
    ensures var data := Run(Initial, events).weather.value;
            TemperatureMessage(data.temperature, shown, data.unit)
              == Phrase(BandOf(data.temperature), shown)
  {
    RunKeepsAtRest(Initial, events);
  }
}
