/** The two forecast repositories: the layered `WeatherRepositoryImpl`
    (location data source, remote data source, mapper) and the older
    `WeatherRepository` that talks to the API service directly and carries
    its own copy of the mapping. Both turn "no location" and every thrown
    exception into a failed `Result`. */
module Repository {
  import opened Models
  import opened ResponseMapper

  /** The message of the failure reported when no location is available. */
  const LocationDisabled: string := "Please enable location"

  /** A device position in degrees. */
  datatype Location = Location(latitude: real, longitude: real)

  /** One call of the forecast endpoint: the query parameters it carried. */
  datatype Request = Request(lat: real, lon: real, appId: string)

  /** How a call of the forecast endpoint ended: with a decoded body, or by
      throwing (network error, HTTP error, malformed body). */
  datatype Outcome = Returned(response: WeatherApiResponse) | Threw(exception: Exception)

  /** The HTTP endpoint `data/2.5/forecast`. What the server answers is a
      fixed function of the query; every call is recorded in `requests`. */
  class WeatherApiService {
    const server: Request -> Outcome
    ghost var requests: seq<Request>

    constructor(server: Request -> Outcome)
      ensures this.server == server && requests == []
    {
      this.server := server;
      requests := [];
    }

    method GetWeatherForecast(lat: real, lon: real, appId: string) returns (o: Outcome)
      modifies this
      ensures requests == old(requests) + [Request(lat, lon, appId)]
      ensures o == server(Request(lat, lon, appId))
    {
      requests := requests + [Request(lat, lon, appId)];
      o := server(Request(lat, lon, appId));
    }
  }

  /** Forwards a position to the API service together with the build's
      API key. */
  class WeatherRemoteDataSource {
    const apiService: WeatherApiService
    const apiKey: string

    constructor(apiService: WeatherApiService, apiKey: string)
      ensures this.apiService == apiService && this.apiKey == apiKey
    {
      this.apiService := apiService;
      this.apiKey := apiKey;
    }

    method GetWeatherForecast(latitude: real, longitude: real) returns (o: Outcome)
      modifies apiService
      ensures apiService.requests == old(apiService.requests) + [Request(latitude, longitude, apiKey)]
      ensures o == apiService.server(Request(latitude, longitude, apiKey))
    {
      o := apiService.GetWeatherForecast(latitude, longitude, apiKey);
    }
  }

  /** The device location as the repositories see it: `fix` is None when the
      permission is missing, the provider has no fix, or it failed. */
  class LocationDataSource {
    const fix: Option<Location>

    constructor(fix: Option<Location>)
      ensures this.fix == fix
    {
      this.fix := fix;
    }

    method GetCurrentLocation() returns (l: Option<Location>)
      ensures l == fix
    {
      l := fix;
    }
  }

  /** The older location source, which reports a (latitude, longitude) pair. */
  class LocationProvider {
    const fix: Option<(real, real)>

    constructor(fix: Option<(real, real)>)
      ensures this.fix == fix
    {
      this.fix := fix;
    }

    method GetCurrentLocation() returns (l: Option<(real, real)>)
      ensures l == fix
    {
      l := fix;
    }
  }

  /** What a repository returns once the endpoint has answered for a given
      calendar: the caught exception, or the mapped forecast list. */
  function Answer(o: Outcome, cal: Calendar): (r: Result<seq<WeatherForecast>>)
    ensures o.Threw? ==> r == Failure(o.exception)
    ensures o.Returned? ==> r.Success? && |r.value| <= MaxDays
    ensures o.Returned? ==> (r.value == [] <==> o.response.list == [])
  {
    match o
    case Threw(e) => Failure(e)
    case Returned(response) =>
      MapToDomainSpec(response.list, cal);
      Success(MapToDomain(response.list, cal))
  }

  /** `WeatherRepositoryImpl`: location, then one remote call with that
      location, then `mapToDomain` of the response's list. */
  class WeatherRepositoryImpl {
    const remoteDataSource: WeatherRemoteDataSource
    const locationDataSource: LocationDataSource
    /** The default time zone and locale the mapper formats with. */
    const calendar: Calendar

    constructor(remoteDataSource: WeatherRemoteDataSource, locationDataSource: LocationDataSource, calendar: Calendar)
      ensures this.remoteDataSource == remoteDataSource
      ensures this.locationDataSource == locationDataSource
      ensures this.calendar == calendar
    {
      this.remoteDataSource := remoteDataSource;
      this.locationDataSource := locationDataSource;
      this.calendar := calendar;
    }

    /** Without a location: the "Please enable location" failure and no call
        of the endpoint. With one: exactly one call, carrying that
        location's latitude and longitude, and either the exception it threw
        or the mapped list. */
    method GetWeatherForecast() returns (r: Result<seq<WeatherForecast>>)
      modifies remoteDataSource.apiService
      ensures locationDataSource.fix.None? ==>
                && r == Failure(Exception(Some(LocationDisabled)))
                && remoteDataSource.apiService.requests == old(remoteDataSource.apiService.requests)
      ensures locationDataSource.fix.Some? ==>
                var q := Request(locationDataSource.fix.value.latitude,
                                 locationDataSource.fix.value.longitude,
                                 remoteDataSource.apiKey);
                && remoteDataSource.apiService.requests == old(remoteDataSource.apiService.requests) + [q]
                && r == Answer(remoteDataSource.apiService.server(q), calendar)
    {
      var location := locationDataSource.GetCurrentLocation();
      if location.None? {
        return Failure(Exception(Some(LocationDisabled)));
      }
      var response := remoteDataSource.GetWeatherForecast(location.value.latitude, location.value.longitude);
      match response
      case Threw(e) =>
        r := Failure(e);
      case Returned(body) =>
        r := Success(MapToDomain(body.list, calendar));
    }
  }

  /** The older `WeatherRepository`: the same flow against the API service
      directly, with its private copies of the grouping and conversion. */
  class WeatherRepository {
    const apiService: WeatherApiService
    const locationProvider: LocationProvider
    /** The build's API key. */
    const apiKey: string
    const calendar: Calendar

    constructor(apiService: WeatherApiService, locationProvider: LocationProvider, apiKey: string, calendar: Calendar)
      ensures this.apiService == apiService
      ensures this.locationProvider == locationProvider
      ensures this.apiKey == apiKey
      ensures this.calendar == calendar
    {
      this.apiService := apiService;
      this.locationProvider := locationProvider;
      this.apiKey := apiKey;
      this.calendar := calendar;
    }

    /** Groups, converts and cuts at five in its own steps, and so returns
        exactly what `WeatherRepositoryImpl` returns for the same location
        and server: the "Please enable location" failure without a call, or
        one call and its answer. */
    method GetWeatherForecast() returns (r: Result<seq<WeatherForecast>>)
      modifies apiService
      ensures locationProvider.fix.None? ==>
                && r == Failure(Exception(Some(LocationDisabled)))
                && apiService.requests == old(apiService.requests)
      ensures locationProvider.fix.Some? ==>
                var q := Request(locationProvider.fix.value.0, locationProvider.fix.value.1, apiKey);
                && apiService.requests == old(apiService.requests) + [q]
                && r == Answer(apiService.server(q), calendar)
    {
      var location := locationProvider.GetCurrentLocation();
      if location.None? {
        return Failure(Exception(Some(LocationDisabled)));
      }
      var response := apiService.GetWeatherForecast(location.value.0, location.value.1, apiKey);
      match response
      case Threw(e) =>
        r := Failure(e);
      case Returned(body) =>
        var dailyForecasts := GroupForecastsByDay(body.list, calendar);
        var forecasts := ConvertAll(dailyForecasts, calendar);
        r := Success(Take(forecasts, MaxDays));
    }
  }
}
