/** `fetch_weather`: validate the coordinates, then (and only then) ask the
    forecast service; and `perform_fetch`, which keeps the last successful
    bundle for the detail popups. */
module Forecast {
  import opened Wrappers
  import opened Json

  datatype Coord = Coord(lat: real, lon: real)

  datatype FetchError =
    | LatitudeNotANumber      // float(latVal) raised; the message is Python's
    | LatitudeOutOfRange
    | LongitudeNotANumber     // float(lonVal) raised; the message is Python's
    | LongitudeOutOfRange
    | RequestFailed           // requests raised; "Failed to fetch data: ..."

  predicate LatitudeInRange(lat: real) {
    -90.0 <= lat <= 90.0
  }

  predicate LongitudeInRange(lon: real) {
    -180.0 <= lon <= 180.0
  }

  /** The two `try` blocks of `fetch_weather`, latitude first. Each input is
      the outcome of `float()` on what the caller passed (`None` = it raised). */
  function Validate(lat: Option<real>, lon: Option<real>): Result<Coord, FetchError> {
    if lat.None? then Failure(LatitudeNotANumber)
    else if !LatitudeInRange(lat.value) then Failure(LatitudeOutOfRange)
    else if lon.None? then Failure(LongitudeNotANumber)
    else if !LongitudeInRange(lon.value) then Failure(LongitudeOutOfRange)
    else Success(Coord(lat.value, lon.value))
  }

  /** Validation accepts exactly the numeric pairs inside both ranges, and an
      accepted pair is carried unchanged. */
  lemma ValidateAccepts(lat: Option<real>, lon: Option<real>)
    ensures Validate(lat, lon).Success? <==>
      lat.Some? && LatitudeInRange(lat.value) && lon.Some? && LongitudeInRange(lon.value)
    ensures Validate(lat, lon).Success? ==> Validate(lat, lon).value == Coord(lat.value, lon.value)
  {
  }

  /** A bad latitude is reported whatever the longitude is. */
  lemma ValidateLatitudeFirst(lat: Option<real>, lon: Option<real>, lon': Option<real>)
    requires lat.None? || !LatitudeInRange(lat.value)
    ensures Validate(lat, lon).Failure?
    ensures Validate(lat, lon) == Validate(lat, lon')
    ensures Validate(lat, lon).error == if lat.None? then LatitudeNotANumber else LatitudeOutOfRange
  {
  }

  /** A longitude error is reported only for a valid latitude. */
  lemma ValidateLongitudeError(lat: Option<real>, lon: Option<real>)
    ensures Validate(lat, lon).Failure? && Validate(lat, lon).error in {LongitudeNotANumber, LongitudeOutOfRange}
        <==> lat.Some? && LatitudeInRange(lat.value) && (lon.None? || !LongitudeInRange(lon.value))
  {
  }

  /** What `fetch_weather` returns on success: the validated coordinates and
      the six sections of the response, each `{}` when absent. */
  datatype Bundle = Bundle(
    coord: Coord,
    current: Value, currentUnits: Value,
    hourly: Value, hourlyUnits: Value,
    daily: Value, dailyUnits: Value)

  /** The request that was sent, if any, and what the call returned. */
  datatype Fetch = Fetch(request: Option<Coord>, result: Result<Bundle, FetchError>)

  /** `fetch_weather(latVal, lonVal)`. `response` is what the forecast
      service answers when asked: the decoded JSON object, or `None` when
      `requests` raises (timeout, HTTP error status, malformed body). */
  function FetchWeather(lat: Option<real>, lon: Option<real>, response: Option<map<string, Value>>): Fetch {
    match Validate(lat, lon)
    case Failure(e) => Fetch(None, Failure(e))
    case Success(c) =>
      match response
      case None => Fetch(Some(c), Failure(RequestFailed))
      case Some(data) =>
        var empty := Obj(map[]);
        Fetch(Some(c), Success(Bundle(c,
          GetOr(data, "current", empty), GetOr(data, "current_units", empty),
          GetOr(data, "hourly", empty), GetOr(data, "hourly_units", empty),
          GetOr(data, "daily", empty), GetOr(data, "daily_units", empty))))
  }

  /** No request is made for rejected input, and then the validation error
      is what is returned; valid input is sent exactly as validated. */
  lemma FetchSendsOnlyValidated(lat: Option<real>, lon: Option<real>, response: Option<map<string, Value>>)
    ensures var f := FetchWeather(lat, lon, response);
      && (f.request.None? <==> Validate(lat, lon).Failure?)
      && (f.request.None? ==> f.result == Failure(Validate(lat, lon).error))
      && (f.request.Some? ==> f.request.value == Coord(lat.value, lon.value))
  {
  }

  /** A successful fetch carries the coordinates that were requested and the
      six sections of the response, each `{}` when the response lacks it. */
  lemma FetchBundleCarriesRequest(lat: Option<real>, lon: Option<real>, data: map<string, Value>)
    requires Validate(lat, lon).Success?
    ensures var f := FetchWeather(lat, lon, Some(data));
      && f.result.Success? && f.request == Some(f.result.value.coord)
      && f.result.value.coord == Coord(lat.value, lon.value)
      && f.result.value.current == (if "current" in data then data["current"] else Obj(map[]))
      && f.result.value.currentUnits == (if "current_units" in data then data["current_units"] else Obj(map[]))
      && f.result.value.hourly == (if "hourly" in data then data["hourly"] else Obj(map[]))
      && f.result.value.hourlyUnits == (if "hourly_units" in data then data["hourly_units"] else Obj(map[]))
      && f.result.value.daily == (if "daily" in data then data["daily"] else Obj(map[]))
      && f.result.value.dailyUnits == (if "daily_units" in data then data["daily_units"] else Obj(map[]))
  {
  }

  /** Text of the status line that `perform_fetch` writes. */
  datatype Status =
    | Prompt          // "Enter coordinates or city and click Fetch"
    | Fetching        // "Fetching…"
    | Failed(error: FetchError)
    | Updated(coord: Coord)

  /** The controller's state: the status line and `last_bundle['data']`. */
  class AppState {
    var status: Status
    var lastBundle: Option<Bundle>

    constructor ()
      ensures status == Prompt && lastBundle == None
    {
      status := Prompt;
      lastBundle := None;
    }

    /** `perform_fetch(lat, lon)`. `rendersOk` says whether the three render
        calls return without raising; when one raises, the rest of the body
        is skipped, so the status stays "Fetching…" and the last bundle is
        kept. A fetch error is shown and also keeps the last bundle; only a
        fully rendered fetch replaces it, wholesale. */
    method PerformFetch(lat: Option<real>, lon: Option<real>, response: Option<map<string, Value>>, rendersOk: bool)
      modifies this
      ensures var f := FetchWeather(lat, lon, response);
        if f.result.Failure? then
          status == Failed(f.result.error) && lastBundle == old(lastBundle)
        else if !rendersOk then
          status == Fetching && lastBundle == old(lastBundle)
        else
          status == Updated(f.result.value.coord) && lastBundle == Some(f.result.value)
    {
      status := Fetching;
      var f := FetchWeather(lat, lon, response);
      if f.result.Failure? {
        status := Failed(f.result.error);
        return;
      }
      if !rendersOk {
        return;
      }
      lastBundle := Some(f.result.value);
      status := Updated(f.result.value.coord);
    }
  }
}
