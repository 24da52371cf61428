/** The three display lines the widget derives from a stored record. */
module Messages {
  import opened Options
  import opened Text

  /* ---------------------------------------------------------------- */
  /* Temperature                                                        */
  /* ---------------------------------------------------------------- */

  /** The five Celsius bands, coldest first. */
  datatype Band = Freezing | QuiteCold | LightJacket | Pleasant | Hot {
    function Rank(): nat {
      match this
      case Freezing => 0
      case QuiteCold => 1
      case LightJacket => 2
      case Pleasant => 3
      case Hot => 4
    }
  }

  /** The range a band covers: boundaries 0, 10, 20 and 30, each band
      including its lower bound. */
  predicate InBand(t: real, b: Band) {
    match b
    case Freezing => t < 0.0
    case QuiteCold => 0.0 <= t < 10.0
    case LightJacket => 10.0 <= t < 20.0
    case Pleasant => 20.0 <= t < 30.0
    case Hot => 30.0 <= t
  }

  /** The band the chain of comparisons picks for `t`. */
  function BandOf(t: real): (b: Band)
    ensures InBand(t, b)
  {
    if t < 0.0 then Freezing
    else if t < 10.0 then QuiteCold
    else if t < 20.0 then LightJacket
    else if t < 30.0 then Pleasant
    else Hot
  }

  /** Text before the rendered temperature in a band's sentence. */
  function Prefix(b: Band): string {
    match b
    case Freezing => "It's Freezing at "
    case QuiteCold => "It's quite cold at "
    case LightJacket => "The temperature is "
    case Pleasant => "It's a pleasant "
    case Hot => "It's hot at "
  }

  /** Text after the rendered temperature in a band's sentence. */
  function Suffix(b: Band): string {
    match b
    case Freezing => "°C. Bundle up!"
    case QuiteCold => "°C. Wear warm clothes."
    case LightJacket => "°C. Comfortable for a light jacket."
    case Pleasant => "°C. Enjoy the nice weather!."
    case Hot => "°C. Stay hydrated."
  }

  /** A band's sentence around `shown`, the temperature as JavaScript
      renders it. */
  function Phrase(b: Band, shown: string): string {
    Prefix(b) + shown + Suffix(b)
  }

  /** `getTemperatureMessage`: a band's sentence for unit "C", otherwise the
      bare `<temperature>°<unit>` placeholder. */
  function TemperatureMessage(t: real, shown: string, unit: string): (r: string)
    ensures unit == "C" ==> exists b :: InBand(t, b) && r == Phrase(b, shown)
    ensures unit != "C" ==> |r| > |shown| && r[..|shown|] == shown && r[|shown|..] == "°" + unit
  {
    if unit == "C" then Phrase(BandOf(t), shown) else shown + "°" + unit
  }

  /** Every temperature lies in exactly one band. */
  lemma BandsPartition(t: real, b: Band)
    ensures InBand(t, b) <==> b == BandOf(t)
  {
  }

  /** Warmer never means a colder band. */
  lemma BandOfMonotone(t1: real, t2: real)
    requires t1 <= t2
    ensures BandOf(t1).Rank() <= BandOf(t2).Rank()
  {
  }

  /** Two bands never share a sentence, whatever the rendered temperature:
      the sentences already differ in their first six characters. */
  lemma PhrasesDistinct(b1: Band, b2: Band, shown: string)
    requires b1 != b2
    ensures Phrase(b1, shown) != Phrase(b2, shown)
  {
    assert Phrase(b1, shown)[..6] == Prefix(b1)[..6];
    assert Phrase(b2, shown)[..6] == Prefix(b2)[..6];
  }

  /** With unit "C" the message is a band's sentence exactly when `t` lies
      in that band. */
  lemma CelsiusMessageIffBand(t: real, shown: string, b: Band)
    ensures TemperatureMessage(t, shown, "C") == Phrase(b, shown) <==> InBand(t, b)
  {
    if b != BandOf(t) {
      PhrasesDistinct(b, BandOf(t), shown);
    }
  }

  /** When `shown + "°" + unit` equals `prefix + shown + rest` and `prefix`
      holds no '°', no position `j <= |shown|` of that string is a '°':
      each such position repeats one `|prefix|` earlier, down to a character
      of `prefix`. */
  lemma {:induction false} NoDegreeBeforeEnd(prefix: string, shown: string, rest: string,
                                             unit: string, j: nat)
    requires |prefix| > 0 && '°' !in prefix
    requires j <= |shown|
    ensures shown + "°" + unit == prefix + shown + rest ==> (prefix + shown + rest)[j] != '°'
    decreases j
  {
    var s := prefix + shown + rest;
    if shown + "°" + unit == s && j >= |prefix| {
      var k := j - |prefix|;
      assert s[j] == shown[k];
      assert (shown + "°" + unit)[k] == shown[k];
      NoDegreeBeforeEnd(prefix, shown, rest, unit, k);
    }
  }

  /** With any other unit the placeholder is returned, and it is never one of
      the band sentences around the same rendered temperature. */
  lemma OtherUnitNeverBanded(t: real, shown: string, unit: string, b: Band)
    requires unit != "C"
    ensures TemperatureMessage(t, shown, unit) == shown + "°" + unit
    ensures TemperatureMessage(t, shown, unit) != Phrase(b, shown)
  {
    assert '°' !in Prefix(b);
    NoDegreeBeforeEnd(Prefix(b), shown, Suffix(b), unit, |shown|);
    assert (shown + "°" + unit)[|shown|] == '°';
  }

  /* ---------------------------------------------------------------- */
  /* Sky condition                                                      */
  /* ---------------------------------------------------------------- */

  /** The provider conditions the widget recognises, in lower case, with the
      sentence shown for each. */
  const Vocabulary: map<string, string> := map[
    "sunny" := "It's a beautiful sunny day!",
    "partly cloudy" := "Expect some clouds and sunshine.",
    "cloudy" := "It's cloudy today.",
    "overcast" := "The sky is overcast.",
    "rain" := "Don't forget your umbrella! It's raining.",
    "thunderstorm" := "Thunderstorms are expected today.",
    "snow" := "Bundle up! It's snowing.",
    "mist" := "It's misty outside.",
    "fog" := "Be careful, there's fog outside."
  ]

  /** Every key of the table is written in lower case. */
  lemma VocabularyIsLower()
    ensures forall k :: k in Vocabulary ==> IsLower(k)
  {
  }

  /** A description matches a table key, ignoring case, exactly when its
      lower-case form is that key. */
  lemma MatchesVocabularyKey(description: string)
    ensures forall k :: k in Vocabulary ==>
              (MatchesIgnoringCase(description, k) <==> Lower(description) == k)
  {
    VocabularyIsLower();
    forall k | k in Vocabulary
      ensures MatchesIgnoringCase(description, k) <==> Lower(description) == k
    {
      MatchesIffLower(description, k);
    }
  }

  /** `getWeatherMessage`: the sentence for a recognised condition, matched
      without regard to case; any other description verbatim. */
  function WeatherMessage(description: string): (r: string)
    ensures forall k :: k in Vocabulary && MatchesIgnoringCase(description, k) ==>
              r == Vocabulary[k]
    ensures (forall k :: k in Vocabulary ==> !MatchesIgnoringCase(description, k)) ==>
              r == description
  {
    MatchesVocabularyKey(description);
    var key := Lower(description);
    if key in Vocabulary then Vocabulary[key] else description
  }

  /** Every sentence differs in length from its key, so no recognised
      description is left as it was. */
  lemma SentencesAreLonger()
    ensures forall k :: k in Vocabulary ==> |Vocabulary[k]| > |k|
  {
  }

  /** A description is rewritten exactly when its lower-case form is in the
      vocabulary. */
  lemma WeatherMessageRewritesIffKnown(description: string)
    ensures WeatherMessage(description) != description <==> Lower(description) in Vocabulary
  {
    SentencesAreLonger();
  }

  /** Descriptions that agree after lower-casing get the same message when
      recognised: the result depends on the lower-case form alone. */
  lemma WeatherMessageIgnoresCase(d1: string, d2: string)
    requires Lower(d1) == Lower(d2)
    requires Lower(d1) in Vocabulary
    ensures WeatherMessage(d1) == WeatherMessage(d2)
    ensures WeatherMessage(d1) == WeatherMessage(Lower(d1))
  {
    LowerIsLower(Lower(d1));
  }

  /* ---------------------------------------------------------------- */
  /* Place and time of day                                              */
  /* ---------------------------------------------------------------- */

  const NightSuffix := " at Night"
  const DaySuffix := "  During the Day"

  /** Night is from 18:00 up to 06:00 local time. */
  predicate IsNight(hour: int) {
    hour >= 18 || hour < 6
  }

  /** `getLocationMessage` with the local hour (0..23) passed in: the place
      followed by the night or the day qualifier. */
  function LocationMessage(location: string, hour: int): (r: string)
    requires 0 <= hour <= 23
    ensures |r| > |location| && r[..|location|] == location
    ensures r[|location|..] == NightSuffix <==> 18 <= hour || hour <= 5
    ensures r[|location|..] == DaySuffix <==> 6 <= hour <= 17
  {
    location + if IsNight(hour) then NightSuffix else DaySuffix
  }

  /** Recovers the place and the qualifier from a location message. */
  function SplitLocationMessage(m: string): (r: Option<(string, bool)>)
    ensures r.Some? ==> m == r.value.0 + if r.value.1 then NightSuffix else DaySuffix
  {
    if |m| >= |NightSuffix| && m[|m| - |NightSuffix|..] == NightSuffix then
      Some((m[..|m| - |NightSuffix|], true))
    else if |m| >= |DaySuffix| && m[|m| - |DaySuffix|..] == DaySuffix then
      Some((m[..|m| - |DaySuffix|], false))
    else
      None
  }

  /** The place and whether it is night can be read back from the message. */
  lemma LocationMessageRoundTrip(location: string, hour: int)
    requires 0 <= hour <= 23
    ensures SplitLocationMessage(LocationMessage(location, hour)) == Some((location, IsNight(hour)))
  {
    var m := LocationMessage(location, hour);
    if !IsNight(hour) {
      assert m[|m| - |NightSuffix|..] == DaySuffix[|DaySuffix| - |NightSuffix|..];
      assert m[|m| - |NightSuffix|..] != NightSuffix;
    }
  }
}
