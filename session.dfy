/** The tools as the agents call them: each receives the session whose state
    map it reads, and the current-weather tool writes back into it. The
    provider's answers and the current date are parameters. */
module Tools {
  import opened Wrappers
  import opened Preferences
  import opened Provider
  import opened Weather
  import opened Forecast
  import opened Timezones

  /** A session's tool context: its mutable preference store. */
  class Session {
    var state: State

    constructor (initial: State)
      ensures state == initial
    {
      state := initial;
    }

    /** `get_weather_stateful` (lines 28-120). Only a successful lookup changes
        the state, and then only `last_city_checked`. */
    method GetWeatherStateful(city: string, geo: Option<GeoHit>, resp: ForecastResponse)
      returns (r: WeatherResult)
      modifies this
      ensures r == CurrentWeather(city, old(state), geo, resp)
      ensures state == StateAfterWeather(old(state), r)
    {
      var preferredUnit := PreferredUnit(state);
      var effective := EffectiveCity(city, state);
      if geo.None? {
        r := WeatherError("City '" + effective + "' not found.");
        return;
      }
      if resp.status == StatusOk {
        if |resp.samples| == 0 {
          r := WeatherError("Error retrieving weather for '" + effective + "': list index out of range");
          return;
        }
        var current := resp.samples[0];
        var cityName := resp.cityName;
        if preferredUnit == "Fahrenheit" {
          r := WeatherOk(cityName, current.description, ToFahrenheit(current.temp), Fahrenheit);
        } else {
          r := WeatherOk(cityName, current.description, current.temp, Celsius);
        }
        state := state[LastCityKey := cityName];
      } else {
        r := WeatherError("Weather information for '" + effective
                          + "' is not available. API error: " + ApiMessage(resp));
      }
    }

    /** `get_weather_forecast` (lines 122-273), with `today` the current local
        date and `None` for an omitted `days` (default 3). It reads the state
        and never writes it. */
    method GetWeatherForecast(city: string, days: Option<int>, geo: Option<GeoHit>,
                              resp: ForecastResponse, today: int)
      returns (r: ForecastResult)
      ensures r == WeatherForecast(city, state, days, geo, resp, today)
    {
      var effective := EffectiveCity(city, state);
      var n := ClampDays(days.GetOr(DefaultDays));
      if geo.None? {
        r := ForecastError("City '" + effective + "' not found.");
        return;
      }
      var cityName := geo.value.name.GetOr(effective);
      if resp.status == StatusOk {
        var forecastDays := GroupByDay(resp.samples, today);
        var sortedDates := SortedKeys(forecastDays.Keys);
        sortedDates := sortedDates[..Min(n, |sortedDates|)];
        var daily := BuildDaily(forecastDays, sortedDates);
        if daily != [] {
          r := ForecastOk(cityName, daily);
        } else {
          r := ForecastError("No forecast data available for upcoming days in " + cityName + ".");
        }
      } else {
        r := ForecastError("Weather forecast for '" + effective
                           + "' is not available. API error: " + ApiMessage(resp));
      }
    }

    /** `get_current_time` (lines 276-398) up to the clock read: the key and
        timezone the city resolves to, or the error naming the city. */
    method GetCurrentTime(city: string) returns (r: TimeResult)
      ensures r == ResolveTimezone(CityTimezones, EffectiveCity(city, state), PreferredCity(state))
    {
      var preferred := PreferredCity(state);
      var effective := EffectiveCity(city, state);
      r := LookupTimezone(CityTimezones, effective, preferred);
    }
  }
}
