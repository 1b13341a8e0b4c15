/** The per-sample half of the mapper: Kelvin to displayed temperature and
    the condition decision table (WeatherApiResponseMapper.kt:34-72, and the
    identical private copies in the legacy WeatherRepository.kt:53-91). */
module Classify {
  import opened Models
  import opened Text

  const IntMin: int := -0x8000_0000
  const IntMax: int := 0x7FFF_FFFF

  /** Kotlin's `Double.toInt()`: rounds toward zero, and values beyond the
      32-bit range saturate at its ends. */
  function ToInt(t: real): (n: int)
    ensures IntMin <= n <= IntMax
    ensures 0.0 <= t < (IntMax + 1) as real ==> n as real <= t < n as real + 1.0
    ensures (IntMin - 1) as real < t <= 0.0 ==> n as real - 1.0 < t <= n as real
    ensures t >= (IntMax + 1) as real ==> n == IntMax
    ensures t <= (IntMin - 1) as real ==> n == IntMin
  {
    if t >= IntMax as real then IntMax
    else if t <= IntMin as real then IntMin
    else if t >= 0.0 then t.Floor
    else -((-t).Floor)
  }

  /** Kotlin `Int` arithmetic: the mathematical value taken modulo 2^32 into
      the signed 32-bit range. */
  function WrapInt(x: int): (w: int)
    ensures IntMin <= w <= IntMax
    ensures (x - w) % 0x1_0000_0000 == 0
    ensures IntMin <= x <= IntMax ==> w == x
  {
    (x - IntMin) % 0x1_0000_0000 + IntMin
  }

  /** `temp.toInt() - 273`: the displayed temperature of a Kelvin reading. */
  function Celsius(kelvin: real): (c: int)
    ensures IntMin <= c <= IntMax
    ensures ToInt(kelvin) >= IntMin + 273 ==> c == ToInt(kelvin) - 273
    ensures ToInt(kelvin) < IntMin + 273 ==> c == ToInt(kelvin) - 273 + 0x1_0000_0000
  {
    WrapInt(ToInt(kelvin) - 273)
  }

  /** For every physically possible reading (non-negative, below 2^31 K) the
      displayed value is the Kelvin value truncated, minus 273: never above
      the reading minus 273, less than one below it, and so within
      (-0.85, 0.15] of the exact Celsius value kelvin - 273.15. */
  lemma KelvinToCelsius(kelvin: real)
    requires 0.0 <= kelvin < 0x8000_0000 as real
    ensures Celsius(kelvin) == kelvin.Floor - 273
    ensures Celsius(kelvin) as real <= kelvin - 273.0 < Celsius(kelvin) as real + 1.0
    ensures -0.85 < Celsius(kelvin) as real - (kelvin - 273.15) <= 0.15
  {
  }

  /** The readings the mapper's tests use: 295.15 K shows as 22, 293.15 K as 20. */
  lemma CelsiusExamples()
    ensures Celsius(295.15) == 22 && Celsius(293.15) == 20
  {
    KelvinToCelsius(295.15);
    KelvinToCelsius(293.15);
  }

  /** A label as the decision table compares it: lower-cased, then trimmed. */
  function Normalize(raw: string): (n: string)
    ensures |n| <= |raw|
    ensures forall k :: 0 <= k < |n| ==> !IsUpper(n[k])
    ensures n == [] || (!IsWhitespace(n[0]) && !IsWhitespace(n[|n| - 1]))
  {
    TrimKeepsNoUpper(Lowercase(raw));
    Trim(Lowercase(raw))
  }

  /** `determineWeatherType(main, description)`. The description is optional
      in the signature; a missing one reads as "". */
  function DetermineWeatherType(main: string, description: Option<string>): (t: WeatherType)
    ensures t == Rainy <==> Normalize(main) in {"rain", "drizzle", "thunderstorm"}
    ensures t == Cloudy <==>
              Normalize(main) == "clouds"
              && !(description.Some? && Contains(Normalize(description.value), "few"))
  {
    var mainLower := Normalize(main);
    var descLower := match description case Some(d) => Normalize(d) case None => "";
    if mainLower == "clear" then Sunny
    else if mainLower == "clouds" then
      if Contains(descLower, "few") then Sunny
      else if Contains(descLower, "scattered") then Cloudy
      else if Contains(descLower, "broken") then Cloudy
      else if Contains(descLower, "overcast") then Cloudy
      else Cloudy
    else if mainLower == "rain" || mainLower == "drizzle" || mainLower == "thunderstorm" then Rainy
    else Sunny
  }

  /** Normalizing an already normalized label changes nothing. */
  lemma NormalizeIdempotent(raw: string)
    ensures Normalize(Normalize(raw)) == Normalize(raw)
  {
    NormalFormFixed(Normalize(raw));
  }

  /** The classification depends on the primary label only through its
      normalized form: case and surrounding whitespace do not matter. */
  lemma CaseAndSpaceInsensitive(main: string, description: Option<string>)
    ensures DetermineWeatherType(main, description)
         == DetermineWeatherType(Normalize(main), description)
  {
    NormalizeIdempotent(main);
  }

  /** A label padded with whitespace normalizes like its lower-cased core. */
  lemma NormalizePadded(w1: string, x: string, w2: string)
    requires AllWhitespace(w1) && AllWhitespace(w2)
    ensures Normalize(w1 + x + w2) == Trim(Lowercase(x))
  {
    LowercasePadded(w1, x, w2);
    TrimPadded(w1, Lowercase(x), w2);
  }

  /** Two primary labels that differ only in the case of their ASCII letters
      and in the whitespace around them ("Clouds", " CLOUDS\n") fall in the
      same category, whatever the description. */
  lemma CaseAndPaddingIrrelevant(x: string, y: string, w1: string, w2: string, w3: string, w4: string,
                                 description: Option<string>)
    requires EqualIgnoringCase(x, y)
    requires AllWhitespace(w1) && AllWhitespace(w2) && AllWhitespace(w3) && AllWhitespace(w4)
    ensures DetermineWeatherType(w1 + x + w2, description) == DetermineWeatherType(w3 + y + w4, description)
  {
    NormalizePadded(w1, x, w2);
    NormalizePadded(w3, y, w4);
    LowercaseIgnoresCase(x, y);
  }

  /** Lower-casing a text without upper-case letters changes nothing. */
  lemma LowercaseFixed(s: string)
    requires forall k :: 0 <= k < |s| ==> !IsUpper(s[k])
    ensures Lowercase(s) == s
  {
  }

  /** A label that is already lower-case and trimmed is its own normal form. */
  lemma NormalFormFixed(raw: string)
    requires forall k :: 0 <= k < |raw| ==> !IsUpper(raw[k])
    requires raw == [] || (!IsWhitespace(raw[0]) && !IsWhitespace(raw[|raw| - 1]))
    ensures Normalize(raw) == raw
  {
    LowercaseFixed(raw);
  }

  /** The rows of the decision table on the labels the tests use. */
  lemma ClearIsSunny()
    ensures DetermineWeatherType("Clear", Some("clear sky")) == Sunny
  {
    assert Lowercase("Clear") == "clear";
    NormalFormFixed("clear");
  }

  /** The primary label of every cloud row of the tests. */
  lemma CloudsNormal()
    ensures Normalize("Clouds") == "clouds"
  {
    assert Lowercase("Clouds") == "clouds";
    NormalFormFixed("clouds");
  }

  lemma FewCloudsIsSunny()
    ensures DetermineWeatherType("Clouds", Some("few clouds")) == Sunny
  {
    CloudsNormal();
    FewCloudsNormal();
    PrefixContained("few clouds", "few");
    FewRow("Clouds", "few clouds", "few clouds");
  }

  lemma FewCloudsNormal()
    ensures Normalize("few clouds") == "few clouds"
  {
    NormalFormFixed("few clouds");
  }

  /** The few-clouds row of the table, for any labels that normalize to it. */
  lemma FewRow(main: string, description: string, normal: string)
    requires Normalize(main) == "clouds"
    requires Normalize(description) == normal && Contains(normal, "few")
    ensures DetermineWeatherType(main, Some(description)) == Sunny
  {
  }

  lemma ScatteredCloudsIsCloudy()
    ensures DetermineWeatherType("Clouds", Some("scattered clouds")) == Cloudy
  {
    CloudsNormal();
    ScatteredCloudsNormal();
    ScatteredHasNoFew();
    CloudyRow("Clouds", "scattered clouds", "scattered clouds");
  }

  lemma ScatteredHasNoFew()
    ensures !Contains("scattered clouds", "few")
  {
    AbsentInitial("scattered clouds", "few");
  }

  lemma ScatteredCloudsNormal()
    ensures Normalize("scattered clouds") == "scattered clouds"
  {
    NormalFormFixed("scattered clouds");
  }

  /** The Cloudy row of the table, for any labels that normalize to it. */
  lemma CloudyRow(main: string, description: string, normal: string)
    requires Normalize(main) == "clouds"
    requires Normalize(description) == normal && !Contains(normal, "few")
    ensures DetermineWeatherType(main, Some(description)) == Cloudy
  {
  }

  lemma RainIsRainy()
    ensures DetermineWeatherType("Rain", Some("light rain")) == Rainy
  {
    assert Lowercase("Rain") == "rain";
    NormalFormFixed("rain");
  }

  lemma UnknownLabelIsSunny()
    ensures DetermineWeatherType("Snow", Some("light snow")) == Sunny
    ensures DetermineWeatherType("", None) == Sunny
  {
    assert Lowercase("Snow") == "snow";
    NormalFormFixed("snow");
    NormalFormFixed("");
    assert "snow" != "rain" && "snow"[0] != "clouds"[0];
    OtherRow("Snow", Some("light snow"));
    OtherRow("", None);
  }

  /** The else row of the table: a primary label outside the table is Sunny. */
  lemma OtherRow(main: string, description: Option<string>)
    requires Normalize(main) != "clouds" && Normalize(main) != "rain"
    requires Normalize(main) != "drizzle" && Normalize(main) != "thunderstorm"
    ensures DetermineWeatherType(main, description) == Sunny
  {
  }

  /** The condition strings of the first `weather` entry, or "" when the list
      is empty (`firstOrNull()?.main ?: ""`). */
  function PrimaryLabel(item: ForecastItem): string {
    if item.weather == [] then "" else item.weather[0].main
  }

  function PrimaryDescription(item: ForecastItem): string {
    if item.weather == [] then "" else item.weather[0].description
  }

  /** `convertToWeatherForecast(item)`: the weekday of the sample, its
      displayed temperature, and the category of its FIRST weather entry;
      a sample without weather entries is Sunny. */
  function ConvertToWeatherForecast(item: ForecastItem, cal: Calendar): (f: WeatherForecast)
    ensures f.dayName == cal.dayName(item.dt)
    ensures f.temperature == Celsius(item.main.temp)
    ensures item.weather == [] ==> f.weatherType == Sunny
    ensures item.weather != [] ==>
              f.weatherType == DetermineWeatherType(item.weather[0].main, Some(item.weather[0].description))
  {
    var dayName := cal.dayName(item.dt);
    var temperature := Celsius(item.main.temp);
    var weatherType := DetermineWeatherType(PrimaryLabel(item), Some(PrimaryDescription(item)));
    WeatherForecast(dayName, temperature, weatherType)
  }
}
