/** What the weather provider's two endpoints return, as values handed to the
    tools: the geocoding answer and the interval forecast. */
module Provider {
  import opened Wrappers

  /** The first geocoding hit: coordinates and, when present, its name. */
  datatype GeoHit = GeoHit(lat: real, lon: real, name: Option<string>)

  /** One forecast interval: the local calendar day (a day number), the local
      hour of its timestamp, the temperature in degrees Celsius and the text
      description of the weather. */
  datatype Sample = Sample(date: int, hour: int, temp: real, description: string)

  /** The forecast endpoint's answer: HTTP status, the `city.name` field, the
      `list` of intervals in the provider's order, and the optional `message`
      field of an error body. */
  datatype ForecastResponse = ForecastResponse(
    status: int,
    cityName: string,
    samples: seq<Sample>,
    message: Option<string>)

  const StatusOk := 200

  /** `data.get('message', 'Unknown error')` */
  function ApiMessage(resp: ForecastResponse): (m: string)
    ensures resp.message.Some? ==> m == resp.message.value
    ensures resp.message.None? ==> m == "Unknown error"
  {
    resp.message.GetOr("Unknown error")
  }
}
