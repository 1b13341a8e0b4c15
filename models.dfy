/** The values the forecast pipeline consumes and produces: the decoded
    forecast payload, the per-day summary, and the environment the
    formatting depends on. None of these carry behaviour. */
module Models {

  datatype Option<+T> = None | Some(value: T)

  /** One `weather` entry of a sample: condition id, primary label, description. */
  datatype Weather = Weather(id: int, main: string, description: string)

  /** The `main` block of a sample. Temperatures are in Kelvin; the pipeline
      only compares and truncates them, so they are reals here. */
  datatype WeatherMain = WeatherMain(temp: real, tempMin: real, tempMax: real, humidity: int)

  /** One 3-hour sample; `dt` is the Unix time in seconds. */
  datatype ForecastItem = ForecastItem(dt: int, main: WeatherMain, weather: seq<Weather>, dtTxt: string)

  datatype Coord = Coord(lat: real, lon: real)
  datatype City = City(name: string, coord: Coord)

  /** The decoded body of the forecast endpoint. */
  datatype WeatherApiResponse = WeatherApiResponse(cod: string, list: seq<ForecastItem>, city: City)

  /** The display category of a day. */
  datatype WeatherType = Sunny | Cloudy | Rainy

  /** One day of the displayed forecast. */
  datatype WeatherForecast = WeatherForecast(dayName: string, temperature: int, weatherType: WeatherType)

  /** The device's default time zone and locale, as the two formatters the
      pipeline uses see them: `dayKey(dt)` is the "yyyy-MM-dd" local date of
      the instant `dt` (seconds), `dayName(dt)` its full weekday name ("EEEE").
      Nothing is assumed about either function. */
  datatype Calendar = Calendar(dayKey: int -> string, dayName: int -> string)

  /** A thrown exception, reduced to what the callers look at: its message,
      which may be null. */
  datatype Exception = Exception(message: Option<string>)

  /** Kotlin's `Result<T>`: a value or the exception that was caught. */
  datatype Result<+T> = Success(value: T) | Failure(exception: Exception)
}
