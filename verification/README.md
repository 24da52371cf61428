# Weather widget — a Dafny model

This project models the logic inside the weather lookup widget of
`src/components/weather_widget.tsx`: the submit handler `handleSearch`, which
validates the typed place name, asks the weather provider about it once and
turns the answer into the widget's state, and the three pure formatters that
derive the displayed lines from a stored `WeatherData` record
(`getTemperatureMessage`, `getWeatherMessage`, `getLocationMessage`).

The model is functional. The widget's four React state cells form one
immutable `Widget.State`. A submission is the pure function
`Widget.HandleSearch`, which takes the state before the submit and the
provider's answer and returns a `Submission`:

- `Rejected(final)` when the input trims to nothing. No request is made.
- `Sent(query, inFlight, final)` otherwise. This is the single request's
  query, the state shown while the request is outstanding, and the settled
  state.

The provider's answer is the datatype `Provider.Outcome`: a transport
failure, or a status code with a body. The body keeps only the JSON members
the code reads, and an object that is absent is `None`.

Files:

- `options.dfy`: `Option`.
- `text.dfy`: `trim` over the exact ECMAScript white-space set, and ASCII
  lower-casing.
- `provider.dfy`: `WeatherData`, the provider's answer, and its translation
  into a record.
- `messages.dfy`: the three formatters.
- `widget.dfy`: the state, the submit handler, and a run of user events.

Two details of the code shape the model:

- Once the body has parsed as a JSON object, the code fails only when it
  reads a member of an absent or `null` `current`, `current.condition` or
  `location` object. A missing leaf gives `undefined` (see "Left out").
- The success path never clears `error` itself. The error was cleared just
  before the request was sent, and the model keeps exactly that order.

## Model

| member | source | states |
|---|---|---|
| Text.Trim | src/components/weather_widget.tsx:25 | the trimmed text meets the reference definition (a contiguous piece whose surroundings are white space and whose ends are not), and is empty exactly when the input is all white space |
| Text.TrimOfIsUnique | src/components/weather_widget.tsx:25 | at most one string meets the reference definition of trimming, so `Trim` is determined by it |
| Text.TrimIdempotent | src/components/weather_widget.tsx:25 | trimming an already trimmed location changes nothing |
| Text.Lower | src/components/weather_widget.tsx:78 | lower-casing keeps the length, yields a string with no capital A-Z, and matches the input up to case, so each capital becomes its own small letter and every other character is kept |
| Text.LowerIsUnique | src/components/weather_widget.tsx:78 | the lower-case string matching a text up to case is unique, so `Lower` is determined by that description |
| Text.MatchesIffLower | src/components/weather_widget.tsx:78 | against a lower-case word, matching up to case is the same as comparing the lower-cased text |
| Text.LowerIsLower | src/components/weather_widget.tsx:78 | lower-casing yields a lower-case string and leaves lower-case strings alone |
| Provider.Decode | src/components/weather_widget.tsx:41-47 | a record is built exactly when the body carries `current`, `current.condition` and `location`; its fields are `temp_c`, `condition.text` and `location.name` with unit "C", so the stored place is the provider's name |
| Provider.DecodeBodyOf | src/components/weather_widget.tsx:42-47 | every Celsius record is recovered unchanged from the provider body that carries it |
| Provider.IsOk | src/components/weather_widget.tsx:38 | a status is ok exactly when it is in the 2xx class (200 to 299) |
| Provider.Fetched | src/components/weather_widget.tsx:34-47 | a record results exactly when the response has an ok status (200 to 299) and a readable body; a transport error or a non-ok status yields none, whatever the body holds |
| Widget.Settle | src/components/weather_widget.tsx:38-55 | after settlement loading is off and the typed text is kept; success stores the record, any failure clears it and sets "City not Found. Please try again." |
| Widget.HandleSearch | src/components/weather_widget.tsx:22-56 | blank input (exactly the all-white-space texts) gives "Please Enter a Valid Location.", clears the record and touches nothing else; otherwise one request for the non-empty trimmed text, shown with loading on and error cleared, then settled with the record and no error, or with no record and the failure message, and loading off |
| Widget.BlankInputIgnoresOutcome | src/components/weather_widget.tsx:25-30 | on blank input the result is the same for every provider answer (no request went out) and loading is unchanged |
| Widget.QueryIsTrimmedText | src/components/weather_widget.tsx:25-37 | corollary of the handler contract: texts with the same trimmed form send the same query whatever the answers, so surrounding white space never reaches the provider |
| Widget.FailureClearsRecord | src/components/weather_widget.tsx:38-55 | a transport error or non-ok status on a non-blank submission leaves no record, the failure message and loading off, whatever the earlier state |
| Widget.LahoreExample | src/components/weather_widget.tsx:42-48 | "  lahore " sends the query "lahore"; the answer for Lahore at 22.5 stores {22.5, "Partly cloudy", "Lahore", "C"} with no error |
| Widget.Step | src/components/weather_widget.tsx:121-127 | typing (the input's change handler) replaces the text and nothing else; a submit (the form's submit handler) keeps the text, gives the blank-input message with no record and loading unchanged on blank text, and otherwise settles with loading off and either a record or an error |
| Widget.StepKeepsAtRest | src/components/weather_widget.tsx:22-56 | one edit or settled submission keeps the widget at rest: not loading, never both a record and an error, every record in Celsius |
| Widget.RunKeepsAtRest | src/components/weather_widget.tsx:17-56 | any sequence of edits and settled submissions from a resting state stays at rest |
| Widget.ShownTemperatureIsBanded | src/components/weather_widget.tsx:46 | a record the widget stores always gets a band sentence, never the other-unit placeholder |
| Messages.BandOf | src/components/weather_widget.tsx:59-70 | the chosen band's range contains the temperature |
| Messages.BandsPartition | src/components/weather_widget.tsx:59-70 | a temperature lies in a band exactly when that band is the one chosen, so the five ranges are disjoint and cover every temperature |
| Messages.BandOfMonotone | src/components/weather_widget.tsx:59-70 | a warmer temperature never gets a colder band |
| Messages.PhrasesDistinct | src/components/weather_widget.tsx:61-69 | different bands never give the same sentence for the same rendered temperature |
| Messages.TemperatureMessage | src/components/weather_widget.tsx:58-75 | with unit "C" the message is the sentence of a band containing the temperature; otherwise it is the rendered temperature followed by "°" and the unit |
| Messages.CelsiusMessageIffBand | src/components/weather_widget.tsx:59-70 | with unit "C" the message is a band's sentence exactly when the temperature lies in that band |
| Messages.NoDegreeBeforeEnd | src/components/weather_widget.tsx:61-73 | if the placeholder equals a band sentence around the same rendered temperature, no position up to the end of the rendered text holds a "°", because every band prefix is free of "°"; this is the step that rules such an equality out |
| Messages.OtherUnitNeverBanded | src/components/weather_widget.tsx:71-74 | with any unit but "C" the placeholder is returned, and it is never a band sentence around the same rendered temperature |
| Messages.WeatherMessage | src/components/weather_widget.tsx:77-100 | a description that spells one of the nine table words up to the case of its letters gets that word's sentence; a description that spells none of them comes back verbatim, casing included |
| Messages.MatchesVocabularyKey | src/components/weather_widget.tsx:78-96 | a description matches a table word up to case exactly when its lower-cased form is that word |
| Messages.SentencesAreLonger | src/components/weather_widget.tsx:79-96 | each table sentence is longer than its key |
| Messages.WeatherMessageRewritesIffKnown | src/components/weather_widget.tsx:78-98 | a description is rewritten exactly when its lower-case form is in the table |
| Messages.WeatherMessageIgnoresCase | src/components/weather_widget.tsx:78-96 | recognised descriptions that agree after lower-casing get the same sentence, the one their lower-case form gets |
| Messages.LocationMessage | src/components/weather_widget.tsx:102-107 | for hour 0..23 the message is the place followed by " at Night" exactly for hours 18..23 and 0..5, and by "  During the Day" (two spaces) exactly for 6..17 |
| Messages.SplitLocationMessage | src/components/weather_widget.tsx:106 | whatever it splits off reassembles into the message: a place followed by one of the two qualifiers |
| Messages.LocationMessageRoundTrip | src/components/weather_widget.tsx:102-107 | the place and whether it is night are read back unchanged from every location message |

## Left out

- The HTTP request itself, the URL and API-key construction, and JSON
  parsing (lines 35-37, 41). These are replaced by `Provider.Outcome`. The
  query is not URL-encoded in the code, and that is not modelled either.
- A body member that is present but empty (a missing `temp_c`, `text` or
  `name`). The code then stores `undefined` instead of failing. The body
  model always carries these leaves, and it has no JSON values of the wrong
  type.
- `Messages.TemperatureMessage`: the temperature is a Dafny `real`, so a
  JavaScript `NaN` is not modelled. In the code every comparison with `NaN`
  is false, which would pick the hot sentence.
- How JavaScript renders a number inside a message. The rendered text is a
  parameter (`shown`).
- `Messages.OtherUnitNeverBanded` compares the placeholder only with band
  sentences around the same rendered temperature.
- `Text.Lower`, and with it `Text.LowerIsLower` and `Messages.WeatherMessage`,
  uses ASCII lower-casing rather than `toLocaleLowerCase`. Non-ASCII
  capitals such as "É" are kept as they are. The vocabulary is plain ASCII
  without a "k", so outside a Turkish or Azerbaijani locale a description
  matches under one exactly when it matches under the other. The
  Turkish/Azerbaijani dotted and dotless i rules are not modelled.
- Reading the clock (line 103). The local hour is a parameter, limited to
  0..23 as `getHours` returns.
- React rendering, the card/input/button components and the icons (lines
  110-163). Typing is modelled only as the `Typed` event that replaces the
  text (lines 126-127).
- `console.error` on failure (line 50). It is diagnostic output only.
- Overlapping submissions and the race where the last answer wins. A
  submission is modelled as settling before the next event.
