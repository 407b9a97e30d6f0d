# Multi-tool weather agent: the tool layer, in Dafny

This project models the tools that the weather assistant's agents call
(`multi_tool_agent/agent.py`):

- **Effective-city resolution.** An empty city argument, or `"default"` / `"preferred"` in any
  letter case, stands for the session's `user_preference_city`. When that key is absent it
  stands for `"Tunis"`.
- **Current weather** (`get_weather_stateful`). It resolves the city and takes the first interval
  of the provider's forecast as "current". It converts Celsius to Fahrenheit when the stored unit
  is exactly `"Fahrenheit"`. On success, and only then, it records the provider's city name under
  `last_city_checked` in the session state.
- **Forecast** (`get_weather_forecast`). It clamps the day count to [1, 5]. It groups the
  intervals by calendar day, skipping today and earlier. It sorts the days and keeps the first
  ones. Each day is reported by its first interval with an hour in [10, 14], or by its first
  interval when there is none. When nothing is left it reports "No forecast data available".
- **Time** (`get_current_time`). It resolves the city to a timezone through a cascade over a fixed
  table of 54 (city, timezone) pairs, in declaration order:
  1. a verbatim key, tried only for the preferred city;
  2. the first key equal to the query ignoring case;
  3. the first key that contains, or is contained in, the lower-cased query;
  4. otherwise an error naming the city.
- **Greeting and farewell** (`say_hello`, `say_goodbye`). These are fixed templates.

The outside world enters as parameters: the geocoding hit (`Option<GeoHit>`, `None` for an empty
answer), the forecast endpoint's answer (status, `city.name`, the interval list, the optional
error `message`) and the current local date. Each interval is given as its local date (a day
number), local hour, temperature in Celsius and description. The session's state is a
`map<string, string>` held in the `state` field of class `Tools.Session`.

Files, one module each:
- `text.dfy` holds ASCII lower-casing and Python's substring test.
- `preferences.dfy` holds the state keys, their defaults and effective-city resolution.
- `provider.dfy` holds the provider's answers as values.
- `weather.dfy` holds the current-weather tool as a function and the state it leaves.
- `forecast.dfy` holds the forecast algorithm. Its loops are methods, each proved equal to a
  specification function, and lemmas give that function's properties.
- `timezones.dfy` holds the table and the cascade. The scanning loop and the cascade are methods
  proved equal to specification functions.
- `greetings.dfy` holds the two canned replies.
- `session.dfy` holds the `Session` class whose methods are the three stateful tools.
- `wrappers.dfy` holds `Option`.

Facts about `agent.py` that the model depends on:
- The state keys are `user_preference_city` and `user_preference_temperature_unit` (lines 44-45, 139-140 and 286), with the defaults `"Tunis"` and `"Celsius"`.
- Only a stored unit of exactly `"Fahrenheit"` selects Fahrenheit (line 90). Any other value, `"fahrenheit"` included, means Celsius.
- The timezone table (lines 297-353) mixes lower-case keys such as `"new york"` with capitalised ones such as `"Tunis"` and `"Abu Dhabi"`. The verbatim step (lines 357-363) fires for a preferred city spelled `"Tunis"`, and gives the same key and timezone as the case-insensitive step (lines 364-381) would (`TunisEitherStep`).
- `"Yorks"` resolves to no timezone, because neither `"yorks"` nor `"new york"` contains the other (line 387, `YorksIsNotNewYork`).
- A day's representative is its first interval with an hour from 10 to 14 (lines 224-227). When there is none, it is the day's first interval (lines 229-231).
- The forecast reports the geocoding hit's `name`, or the effective city when that is absent (line 170). The current-weather tool reports the forecast endpoint's `city.name` (line 88).
- `days` defaults to 3 when the caller omits it (line 122). The model passes `None` for an omitted count.

## Model

| member | source | states |
|---|---|---|
| Text.Lower | multi_tool_agent/agent.py:53 | `s.lower()` keeps the length and lowers each character on its own: an ASCII capital becomes its small letter, every other character is kept |
| Text.Contains | multi_tool_agent/agent.py:387 | Python's `needle in hay` holds exactly when `needle` occurs at some offset of `hay` |
| Preferences.EffectiveCity | multi_tool_agent/agent.py:52-57 | the city looked up is the argument or the stored `user_preference_city` (default "Tunis"); an argument whose length is not 0, 7 or 9 is always used as given (the same code is at lines 144-149 and 289-294) |
| Preferences.LowerEqualsSpelling | multi_tool_agent/agent.py:53 | `s.lower() == word`, for a lower-case word, holds exactly when `s` spells the word letter by letter in either case |
| Preferences.EffectiveCityRule | multi_tool_agent/agent.py:45-57 | an empty city or any spelling of "default"/"preferred" becomes `state["user_preference_city"]`, or "Tunis" when that key is absent; any other city is used verbatim (the same rule as lines 141-149 and 286-294) |
| Preferences.EffectiveCityIdempotent | multi_tool_agent/agent.py:286-294 | when the stored preferred city is not itself a sentinel, the resolved city is never a sentinel and resolving it again changes nothing |
| Weather.ToFahrenheit | multi_tool_agent/agent.py:91-93 | the Fahrenheit value converts back exactly to the Celsius reading |
| Weather.FahrenheitMonotone | multi_tool_agent/agent.py:92 | the conversion preserves order |
| Weather.FahrenheitExamples | multi_tool_agent/agent.py:92 | 20 °C is 68 °F, -40 °C is -40 °F, 100 °C is 212 °F |
| Provider.ApiMessage | multi_tool_agent/agent.py:108 | the error body's `message` when present, otherwise "Unknown error" (the same expression is at line 261) |
| Weather.CurrentWeather | multi_tool_agent/agent.py:59-120 | success exactly when the city was geocoded, the status is 200 and the interval list is non-empty; the "not found" and "API error" messages name the effective city; on success the provider's city name and the first interval's description and temperature are reported, in Fahrenheit exactly when the stored unit is "Fahrenheit" |
| Weather.StateAfterWeather | multi_tool_agent/agent.py:99-113 | after an error the state is unchanged; after success `last_city_checked` holds the provider's city name and every other key keeps its presence and value |
| Weather.WeatherKeepsPreferences | multi_tool_agent/agent.py:102 | a weather lookup leaves the preferred city, the preferred unit and the effective city of any later call unchanged |
| Tools.Session.GetWeatherStateful | multi_tool_agent/agent.py:28-120 | the tool returns `CurrentWeather` of its inputs and the session state becomes `StateAfterWeather` of the old state |
| Forecast.ClampDays | multi_tool_agent/agent.py:152 | the day count is in [1, 5]: unchanged inside the range, 1 below it, 5 above it |
| Forecast.Bucket | multi_tool_agent/agent.py:189-211 | the per-day map after a prefix of the intervals: every key is a date after today and no day's list is empty |
| Forecast.GroupByDay | multi_tool_agent/agent.py:189-211 | the grouping loop builds exactly the per-day map `Bucket` |
| Forecast.BucketIsGrouping | multi_tool_agent/agent.py:196-211 | the grouped days are exactly the dates after today that some interval has, and each day's list is that date's intervals in input order, never empty |
| Forecast.SortedKeys | multi_tool_agent/agent.py:214 | `sorted(keys)` lists every key once, in strictly ascending order |
| Forecast.FirstMidday | multi_tool_agent/agent.py:224-227 | the index found is the first whose hour is in [10, 14], and none is found only when no hour is |
| Forecast.MiddayPick | multi_tool_agent/agent.py:222-231 | a non-empty day yields a reading at a position holding the first midday reading, or its first reading when it has no midday reading; an empty day yields none |
| Forecast.PickMidday | multi_tool_agent/agent.py:222-231 | the scan that stops at the first midday reading and falls back to the first reading computes `MiddayPick` |
| Forecast.DaysForEach | multi_tool_agent/agent.py:218-242 | when no day list is empty, each chosen date yields exactly one entry, in order, built from that day's pick |
| Forecast.BuildDaily | multi_tool_agent/agent.py:216-242 | the reporting loop over the chosen dates computes `DaysFor` |
| Forecast.ChosenDates | multi_tool_agent/agent.py:214 | `sorted(forecast_days.keys())[:days]` holds at most n dates, each a key of the map |
| Forecast.DaysFor | multi_tool_agent/agent.py:218-242 | the reporting loop yields at most one entry per date, and each entry's date is one of the dates |
| Forecast.Daily | multi_tool_agent/agent.py:187-242 | at most n days are reported, every one dated after today |
| Forecast.ChosenDatesEarliest | multi_tool_agent/agent.py:213-214 | the chosen dates are min(n, number of days) ascending dates, and a date left out is later than all n chosen |
| Forecast.DailyEntries | multi_tool_agent/agent.py:218-242 | there is one entry per chosen date, and each is that date's midday pick among its own intervals in input order |
| Forecast.DailyDates | multi_tool_agent/agent.py:218-242 | the k-th reported day carries the k-th chosen date |
| Forecast.DailyDatesAscendingFuture | multi_tool_agent/agent.py:187-214 | every reported date is strictly after today and is the date of some interval; dates strictly ascend (so are distinct); there are min(n, number of distinct future dates) of them |
| Forecast.DailyRepresentative | multi_tool_agent/agent.py:222-231 | each day is reported by the first interval of its date whose hour is in [10, 14], or by the date's first interval when none is |
| Forecast.DailyEarliestFirst | multi_tool_agent/agent.py:213-214 | a future date that is not reported means all n slots went to earlier dates |
| Forecast.WeatherForecast | multi_tool_agent/agent.py:122-266 | an omitted day count means 3, and the count is clamped to [1, 5]; the "not found" and "API error" messages name the effective city; a success reports the geocoded name (the effective city when absent) and the non-empty daily list for the clamped day count |
| Forecast.ForecastNoData | multi_tool_agent/agent.py:244-259 | with a geocoded city and status 200, the forecast fails exactly when no interval is after today, with "No forecast data available for upcoming days in <city>." |
| Forecast.ForecastIgnoresUnit | multi_tool_agent/agent.py:139-140 | changing the stored temperature unit does not change the forecast; temperatures stay in Celsius |
| Tools.Session.GetWeatherForecast | multi_tool_agent/agent.py:122-266 | with `None` for an omitted `days` (default 3), the tool, as the sequence of grouping, sorting, slicing and reporting steps, returns `WeatherForecast` of its inputs and the session state |
| Timezones.TableKeysNonEmpty | multi_tool_agent/agent.py:297-353 | the table has 54 entries and no empty key, so a key found by an exact step always passes `if exact_match:` |
| Timezones.FirstMatching | multi_tool_agent/agent.py:366-381 | the index found is the first, in table order, whose key the rule accepts; none is found only when no key is accepted |
| Timezones.Lookup | multi_tool_agent/agent.py:390 | the timezone of a key is the value of the first entry with that key |
| Timezones.PartialMatches | multi_tool_agent/agent.py:387 | the comprehension keeps only keys that contain, or are contained in, the lower-cased city, and has no more of them than the table has entries |
| Timezones.PartialMatchesFromTable | multi_tool_agent/agent.py:387-391 | the list comprehension holds table keys only, is non-empty exactly when some key partially matches, and starts with the first such key |
| Timezones.ScanIgnoringCase | multi_tool_agent/agent.py:377-381 | the loop that breaks at the first key equal to the query ignoring case finds exactly that key's index |
| Timezones.ResolveTimezone | multi_tool_agent/agent.py:355-398 | a resolved city is a key of the table, and its timezone is the dictionary's value for that key |
| Timezones.LookupTimezone | multi_tool_agent/agent.py:355-398 | the cascade as the tool runs it computes `ResolveTimezone` |
| Timezones.LookupAtFirst | multi_tool_agent/agent.py:390 | looking up the first accepted key gives that entry's own timezone |
| Timezones.ResolveIsTableEntry | multi_tool_agent/agent.py:383-391 | a resolved (key, timezone) pair is always an entry of the table |
| Timezones.ResolveFailsIffNoPartial | multi_tool_agent/agent.py:383-398 | the tool fails exactly when no key contains, or is contained in, the lower-cased city, and then answers "Sorry, I don't have timezone information for <city>. Try a major city." with the city as given |
| Timezones.ResolvePreferredVerbatim | multi_tool_agent/agent.py:357-363 | the preferred city, when it is a key verbatim, resolves to itself and its own timezone |
| Timezones.ResolveIgnoringCase | multi_tool_agent/agent.py:364-381 | otherwise the first key equal to the city ignoring case wins |
| Timezones.ResolvePartial | multi_tool_agent/agent.py:385-391 | with no exact match of either kind, the first key in table order that contains or is contained in the lower-cased city wins |
| Timezones.ResolveIgnoresCase | multi_tool_agent/agent.py:374-381 | for cities other than the preferred one, two spellings with the same lower case resolve alike or both fail |
| Timezones.TunisEitherStep | multi_tool_agent/agent.py:357-381 | "Tunis" resolves to ("Tunis", "Africa/Tunis") both as the preferred city, by the verbatim step, and as any other city, by the case-insensitive step, because no earlier key is "tunis" in another case |
| Timezones.NewYorkAnyCase | multi_tool_agent/agent.py:297-298 | "NEW YORK" resolves to the key "new york" and "America/New_York" |
| Timezones.YorksIsNotNewYork | multi_tool_agent/agent.py:387 | neither "yorks" nor "new york" contains the other |
| Tools.Session.GetCurrentTime | multi_tool_agent/agent.py:276-398 | the tool resolves the effective city against the table, with the stored preferred city as the preferred city |
| Greetings.SayHello | multi_tool_agent/agent.py:413-422 | the reply is "Hello, " + the name + "!", the name "There" by default, and the name can be read back from it |
| Greetings.SayGoodbye | multi_tool_agent/agent.py:424-426 | the farewell is the fixed text "Goodbye! Have a great day.", with no input and no state |
| Greetings.GreetingsDistinct | multi_tool_agent/agent.py:413-426 | different names give different greetings, and no greeting equals the farewell "Goodbye! Have a great day." |

## Left out

- The agent definitions and root-agent routing (multi_tool_agent/agent.py:431-551). A language model picks the handler by following instruction text, so there is no decision logic in code to model.
- `call_agent_async` and `run_stateful_conversation` (lines 556-639), and all of `agent_server.py`. These are asynchronous event-stream plumbing, the HTTP server, CORS, static files and session creation.
- The HTTP requests, the API key read from the environment, and JSON decoding. Their outcomes are parameters.
- Malformed provider payloads (missing `list`, `main`, `weather` or `city` fields) and the `except Exception` handlers they would reach, at lines 114-120 and 267-273. The one exception branch modelled is the current-weather tool indexing an empty interval list, which returns "Error retrieving weather for '<city>': list index out of range".
- Reading the clock, converting timestamps, and `ZoneInfo`. The current date and each interval's local date and hour are inputs. The time tool's result stops at the resolved key and timezone: the rendered local time (`now.strftime`, `city.title()`) and the `ZoneInfo` failure branch (lines 400-411) are not modelled.
- Report strings built from floats and dates: the one-decimal `:.1f` rendering, the `strftime("%A, %B %d")` dates, the success report sentence of the current weather, and the forecast report accumulated at lines 245-248. Results carry the structured fields those strings are built from. Temperatures are exact reals, not floats.
- Python's `str.lower()` is Unicode-aware. The model lowers ASCII letters only.
- The table is modelled as a sequence of pairs, and a lookup takes the first entry with a key. That is the dictionary's behaviour because the table's keys are distinct. Distinctness of the 54 keys is not proved; that no key is empty is (`TableKeysNonEmpty`).
- Concurrent calls on one session are not modelled. The source has no lock around the state, and each modelled call runs alone.
- The `print` logging.
