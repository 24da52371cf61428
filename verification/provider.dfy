/** The one request the widget makes, seen from the widget's side: the
    provider's answer (or the transport failure) and the translation of a
    successful answer into the widget's own `WeatherData` record. */
module Provider {
  import opened Options

  /** The widget's internal weather record: temperature in the provider's
      scale, the free-text sky condition, the provider's name for the place,
      and the unit marker (always "C" when built by `Decode`). */
  datatype WeatherData = WeatherData(
    temperature: real,
    description: string,
    location: string,
    unit: string)

  /** The members of the provider's JSON body that the widget reads.
      `None` stands for an object member that is absent or `null`. */
  datatype Condition = Condition(text: string)
  datatype Current = Current(tempC: real, condition: Option<Condition>)
  datatype Place = Place(name: string)
  datatype Body =
    | NotJson
    | Json(current: Option<Current>, location: Option<Place>)

  /** What the request for one query string ends in. */
  datatype Outcome =
    | NetworkError
    | Responded(status: int, body: Body)

  /** `response.ok`: the Fetch standard's "ok status", 200 to 299 inclusive,
      which is the whole 2xx class of status codes. */
  predicate IsOk(status: int)
    ensures IsOk(status) <==> status / 100 == 2
  {
    200 <= status <= 299
  }

  /** The JSON body a provider sends for `data`: the inverse of `Decode`. */
  function BodyOf(data: WeatherData): Body {
    Json(Some(Current(data.temperature, Some(Condition(data.description)))),
         Some(Place(data.location)))
  }

  /** Builds the record from a body. Reading a member of an absent object
      throws, so a body missing `current`, `current.condition` or `location`
      yields `None`, as does a body that is not JSON at all. */
  function Decode(body: Body): (r: Option<WeatherData>)
    ensures r.Some? ==> r.value.unit == "C" && body == BodyOf(r.value)
    ensures r.None? ==> forall data :: body != BodyOf(data)
  {
    match body
    case NotJson => None
    case Json(current, place) =>
      if current.Some? && current.value.condition.Some? && place.Some? then
        Some(WeatherData(current.value.tempC, current.value.condition.value.text,
                         place.value.name, "C"))
      else
        None
  }

  /** The record a submission stores, or `None` when the request fails:
      a transport error, a status that is not ok (whatever the body says),
      or a body the record cannot be read from. */
  function Fetched(outcome: Outcome): (r: Option<WeatherData>)
    ensures r.Some? <==> outcome.Responded? && IsOk(outcome.status)
                         && exists data :: outcome.body == BodyOf(data) && data.unit == "C"
    ensures r.Some? ==> r.value.unit == "C" && outcome.body == BodyOf(r.value)
  {
    match outcome
    case NetworkError => None
    case Responded(status, body) =>
      if IsOk(status) then
        var r := Decode(body);
        assert r.Some? ==> r.value.unit == "C" && body == BodyOf(r.value);
        r
      else
        None
  }

  /** A record with unit "C" survives the trip through the provider's body. */
  lemma DecodeBodyOf(data: WeatherData)
    requires data.unit == "C"
    ensures Decode(BodyOf(data)) == Some(data)
  {
  }
}
