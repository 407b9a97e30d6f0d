/** The current-weather tool: resolve the city, take the nearest interval of
    the provider's forecast as "current", convert to the preferred unit, and
    record the provider's city name in the session state on success. */
module Weather {
  import opened Wrappers
  import opened Preferences
  import opened Provider

  datatype TempUnit = Celsius | Fahrenheit

  /** The tool's status-tagged answer. On success, the fields the report
      sentence is built from. */
  datatype WeatherResult =
    | WeatherOk(cityName: string, description: string, temperature: real, unit: TempUnit)
    | WeatherError(message: string)

  function FromFahrenheit(f: real): real {
    (f - 32.0) * 5.0 / 9.0
  }

  /** `temp_celsius * 9/5 + 32`, exact: the conversion back gives the input. */
  function ToFahrenheit(c: real): (f: real)
    ensures FromFahrenheit(f) == c
  {
    c * 9.0 / 5.0 + 32.0
  }

  /** A warmer reading in Celsius is a warmer reading in Fahrenheit. */
  lemma FahrenheitMonotone(c: real, d: real)
    requires c < d
    ensures ToFahrenheit(c) < ToFahrenheit(d)
  {
  }

  lemma FahrenheitExamples()
    ensures ToFahrenheit(20.0) == 68.0
    ensures ToFahrenheit(-40.0) == -40.0
    ensures ToFahrenheit(100.0) == 212.0
  {
  }

  /** The tool as a function of its inputs: the city argument, the session
      state it reads, the geocoding hit (None for an empty answer) and the
      forecast endpoint's answer. */
  function CurrentWeather(city: string, state: State, geo: Option<GeoHit>, resp: ForecastResponse): (r: WeatherResult)
    ensures r.WeatherOk? <==> geo.Some? && resp.status == 200 && |resp.samples| > 0
    ensures geo.None? ==>
      r == WeatherError("City '" + EffectiveCity(city, state) + "' not found.")
    ensures geo.Some? && resp.status != 200 ==>
      r == WeatherError("Weather information for '" + EffectiveCity(city, state)
                        + "' is not available. API error: " + ApiMessage(resp))
    ensures r.WeatherOk? ==>
      && r.cityName == resp.cityName
      && r.description == resp.samples[0].description
      && (r.unit == Fahrenheit <==> Get(state, "user_preference_temperature_unit", "Celsius") == "Fahrenheit")
      && FromUnit(r.temperature, r.unit) == resp.samples[0].temp
  {
    var effective := EffectiveCity(city, state);
    if geo.None? then
      WeatherError("City '" + effective + "' not found.")
    else if resp.status == StatusOk then
      if |resp.samples| == 0 then
        // `data["list"][0]` raises IndexError, which the tool's handler reports
        WeatherError("Error retrieving weather for '" + effective + "': list index out of range")
      else
        var current := resp.samples[0];
        if PreferredUnit(state) == "Fahrenheit" then
          WeatherOk(resp.cityName, current.description, ToFahrenheit(current.temp), Fahrenheit)
        else
          WeatherOk(resp.cityName, current.description, current.temp, Celsius)
    else
      WeatherError("Weather information for '" + effective
                   + "' is not available. API error: " + ApiMessage(resp))
  }

  /** A temperature expressed in `unit`, back in degrees Celsius. */
  function FromUnit(t: real, unit: TempUnit): real {
    match unit
    case Celsius => t
    case Fahrenheit => FromFahrenheit(t)
  }

  /** The session state after the tool returned `r`: on success the one key
      `last_city_checked` now holds the provider's city name; nothing else
      changes, and on an error nothing changes at all. */
  function StateAfterWeather(state: State, r: WeatherResult): (after: State)
    ensures r.WeatherError? ==> after == state
    ensures r.WeatherOk? ==> "last_city_checked" in after && after["last_city_checked"] == r.cityName
    ensures forall k :: k != "last_city_checked" ==>
              (k in after <==> k in state) && (k in state ==> after[k] == state[k])
  {
    if r.WeatherOk? then state[LastCityKey := r.cityName] else state
  }

  /** A weather lookup never changes what later tool calls read: the preferred
      city, the preferred unit, and so the effective city of any argument. */
  lemma WeatherKeepsPreferences(state: State, r: WeatherResult, city: string)
    ensures PreferredCity(StateAfterWeather(state, r)) == PreferredCity(state)
    ensures PreferredUnit(StateAfterWeather(state, r)) == PreferredUnit(state)
    ensures EffectiveCity(city, StateAfterWeather(state, r)) == EffectiveCity(city, state)
  {
    assert CityKey != LastCityKey;
    assert UnitKey != LastCityKey;
  }
}
