# WeatherApp forecast pipeline in Dafny

This project models the data path of the WeatherApp Android client and
proves properties about it:

- The **response mapper** (`WeatherApiResponseMapper`). It turns the 3-hour
  samples of the forecast endpoint into at most five daily forecasts:
  - it groups the samples by local calendar day;
  - it keeps the warmest sample of each day (the first one on a tie);
  - it orders the kept samples by time and cuts the list after five;
  - it converts each kept sample into a weekday name, a temperature and a
    display category.
- The **repositories**:
  - `WeatherRepositoryImpl` runs location, then one remote call, then the
    mapper.
  - The older `WeatherRepository` talks to the API service directly and has
    private copies of the grouping and conversion code. Lines 41-91 of that
    file are the same as lines 22-72 of the mapper, so the model defines that
    logic once, in `ResponseMapper` and `Classify`.
  - Both repositories turn a missing location, and every exception, into a
    failed `Result`.
- The **`WeatherViewModel`**. It starts in Loading and launches at most one
  load at a time. Without `forceRefresh` it ignores requests once forecasts
  are shown. It publishes Success, carrying the category of the first day as
  the background, or Error, carrying the exception's message.

Modules, one file each:

- `Models` (`models.dfy`): the decoded payload, the domain forecast,
  `Result`, and the calendar.
- `Text` (`text.dfy`): `lowercase`, `trim` and `contains`.
- `Classify` (`classify.dfy`): Kelvin to displayed degrees, and the condition
  decision table.
- `ResponseMapper` (`mapper.dfy`): `groupForecastsByDay` and `mapToDomain`.
- `Repository` (`repository.dfy`): the collaborators and both repositories.
- `ViewModel` (`viewmodel.dfy`): the UI state and the view model.

Modelling choices:

- **Calendar.** The device's default time zone and locale enter as a
  `Calendar` value. It holds two functions: `dayKey` (the `yyyy-MM-dd` local
  date of a timestamp) and `dayName` (its weekday name). Nothing is assumed
  about either function, so every mapper property holds in every zone and
  locale.
- **Collaborators.** The API service, the remote data source and both
  location sources are classes.
  - The server's answer is a fixed function of the query. It either returns
    a body or throws.
  - Every call of the endpoint is appended to a ghost `requests` log, so
    "no call" and "exactly one call with these coordinates" can be stated.
- **Arithmetic.**
  - Temperatures are `real`.
  - `Double.toInt()` is modelled with its truncation toward zero and its
    saturation at the 32-bit range.
  - `Int` subtraction wraps modulo 2^32.
- **View model.**
  - A launched load is split in two. `LoadWeatherForecast` holds the guard
    and the launch; under `Dispatchers.Main.immediate` the launched body sets
    Loading before it first suspends. `Complete(result)` is the rest of the
    body, run when the repository answers.
  - `jobActive` stands for `loadJob?.isActive == true`.

Where the source disagrees with itself, the model follows the code that is
actually called:

- `WeatherViewModel.kt` imports the flat `data.model.WeatherUiState`. That
  class has no `Loading`, `Success` or `Error` variants, yet the view model
  uses those variants. The model uses the sealed state of
  `presentation/model/WeatherUiState.kt`, which has exactly those variants.
- The older repository builds `WeatherForecast(dayName, temperature,
  weatherType)` without the `icon` field of `data.model.WeatherForecast`.
  The model uses the three-field domain forecast.

## Model

| member | source | states |
|---|---|---|
| `Text.Lowercase` | WeatherApp/app/src/main/java/com/example/weatherapp/data/mapper/WeatherApiResponseMapper.kt:52-53 | same length; every upper-case letter `A`-`Z` becomes its lower-case letter (32 code points on); every other character is unchanged; no upper-case letter remains |
| `Text.TrimStart` | WeatherApp/app/src/main/java/com/example/weatherapp/data/mapper/WeatherApiResponseMapper.kt:52-53 | the result is a suffix of the input; everything dropped is whitespace; the result does not start with whitespace |
| `Text.TrimEnd` | WeatherApp/app/src/main/java/com/example/weatherapp/data/mapper/WeatherApiResponseMapper.kt:52-53 | the result is a prefix of the input; everything dropped is whitespace; the result does not end with whitespace |
| `Text.Trim` | WeatherApp/app/src/main/java/com/example/weatherapp/data/mapper/WeatherApiResponseMapper.kt:52-53 | the result is a slice of the input with only whitespace around it, and neither starts nor ends with whitespace |
| `Text.TrimIdempotent` | WeatherApp/app/src/main/java/com/example/weatherapp/data/mapper/WeatherApiResponseMapper.kt:52-53 | trimming twice is trimming once |
| `Text.TrimUnique` | WeatherApp/app/src/main/java/com/example/weatherapp/data/mapper/WeatherApiResponseMapper.kt:52-53 | any slice of a text cut out by whitespace that neither starts nor ends with whitespace is the trim: `trim()` is determined by its contract |
| `Text.TrimPadded` | WeatherApp/app/src/main/java/com/example/weatherapp/data/mapper/WeatherApiResponseMapper.kt:52-53 | whitespace added on either side of a text does not change its trim |
| `Text.TrimKeepsNoUpper` | WeatherApp/app/src/main/java/com/example/weatherapp/data/mapper/WeatherApiResponseMapper.kt:52-53 | trimming a text without upper-case letters leaves none |
| `Text.LowercaseIgnoresCase` | WeatherApp/app/src/main/java/com/example/weatherapp/data/mapper/WeatherApiResponseMapper.kt:52-53 | two texts equal up to the case of their ASCII letters have the same lower-case form |
| `Text.LowercasePadded` | WeatherApp/app/src/main/java/com/example/weatherapp/data/mapper/WeatherApiResponseMapper.kt:52-53 | lower-casing leaves whitespace padding in place and unchanged |
| `Text.Contains` | WeatherApp/app/src/main/java/com/example/weatherapp/data/mapper/WeatherApiResponseMapper.kt:60-63 | holds exactly when the word occurs at some offset; never for a word longer than the text; always for the empty word |
| `Text.PrefixContained` | WeatherApp/app/src/main/java/com/example/weatherapp/data/mapper/WeatherApiResponseMapper.kt:60 | a text that starts with a word contains it |
| `Text.AbsentInitial` | WeatherApp/app/src/main/java/com/example/weatherapp/data/mapper/WeatherApiResponseMapper.kt:60 | a text without the first letter of a word does not contain the word |
| `Classify.ToInt` | WeatherApp/app/src/main/java/com/example/weatherapp/data/mapper/WeatherApiResponseMapper.kt:39 | stays in the 32-bit range; truncates toward zero inside the range; saturates at both ends outside it |
| `Classify.WrapInt` | WeatherApp/app/src/main/java/com/example/weatherapp/data/mapper/WeatherApiResponseMapper.kt:39 | stays in the 32-bit range; congruent to its input modulo 2^32; the identity inside the range |
| `Classify.Celsius` | WeatherApp/app/src/main/java/com/example/weatherapp/data/mapper/WeatherApiResponseMapper.kt:39 | the displayed value is always a 32-bit Int; it is the truncated reading minus 273, except that a truncated reading below -2^31 + 273 wraps around to the top of the range |
| `Classify.KelvinToCelsius` | WeatherApp/app/src/main/java/com/example/weatherapp/data/mapper/WeatherApiResponseMapper.kt:39 | for readings from 0 K up to 2^31 K the displayed value is floor(K) - 273, and lies within (-0.85, 0.15] of the exact Celsius value |
| `Classify.CelsiusExamples` | WeatherApp/app/src/test/java/com/example/weatherapp/data/mapper/WeatherApiResponseMapperTest.kt:110-136 | 295.15 K shows as 22 and 293.15 K shows as 20 |
| `Classify.DetermineWeatherType` | WeatherApp/app/src/main/java/com/example/weatherapp/data/mapper/WeatherApiResponseMapper.kt:51-72 | Rainy exactly for the normalized labels rain, drizzle and thunderstorm; Cloudy exactly for clouds when the normalized description does not contain "few"; Sunny otherwise |
| `Classify.Normalize` | WeatherApp/app/src/main/java/com/example/weatherapp/data/mapper/WeatherApiResponseMapper.kt:52-53 | the normalized label is no longer than the raw one, has no upper-case letter, and neither starts nor ends with whitespace |
| `Classify.NormalizeIdempotent` | WeatherApp/app/src/main/java/com/example/weatherapp/data/mapper/WeatherApiResponseMapper.kt:52-53 | lower-casing and trimming an already normalized label changes nothing |
| `Classify.CaseAndSpaceInsensitive` | WeatherApp/app/src/main/java/com/example/weatherapp/data/mapper/WeatherApiResponseMapper.kt:52-55 | the category depends on the label only through its normalized form |
| `Classify.NormalizePadded` | WeatherApp/app/src/main/java/com/example/weatherapp/data/mapper/WeatherApiResponseMapper.kt:52-53 | a label padded with whitespace normalizes to the trimmed lower-case form of its core |
| `Classify.CaseAndPaddingIrrelevant` | WeatherApp/app/src/main/java/com/example/weatherapp/data/mapper/WeatherApiResponseMapper.kt:51-55 | two primary labels that differ only in the case of their ASCII letters and in the whitespace around them get the same category, for every description |
| `Classify.ClearIsSunny` | WeatherApp/app/src/test/java/com/example/weatherapp/data/mapper/WeatherApiResponseMapperTest.kt:16-37 | Clear / clear sky is Sunny |
| `Classify.FewCloudsIsSunny` | WeatherApp/app/src/test/java/com/example/weatherapp/data/mapper/WeatherApiResponseMapperTest.kt:41-60 | Clouds / few clouds is Sunny |
| `Classify.ScatteredCloudsIsCloudy` | WeatherApp/app/src/test/java/com/example/weatherapp/data/mapper/WeatherApiResponseMapperTest.kt:64-83 | Clouds / scattered clouds is Cloudy |
| `Classify.RainIsRainy` | WeatherApp/app/src/test/java/com/example/weatherapp/data/mapper/WeatherApiResponseMapperTest.kt:87-106 | Rain / light rain is Rainy |
| `Classify.UnknownLabelIsSunny` | WeatherApp/app/src/main/java/com/example/weatherapp/data/mapper/WeatherApiResponseMapper.kt:70 | an unlisted label (Snow), and the empty label with no description, are Sunny |
| `Classify.ConvertToWeatherForecast` | WeatherApp/app/src/main/java/com/example/weatherapp/data/mapper/WeatherApiResponseMapper.kt:34-49 | the weekday of the sample; its displayed temperature; Sunny when it has no weather entry, otherwise the category of its first entry alone |
| `ResponseMapper.DayKeys` | WeatherApp/app/src/main/java/com/example/weatherapp/data/mapper/WeatherApiResponseMapper.kt:25-27 | the group keys are distinct, are exactly the local days of the input, and there is one per day |
| `ResponseMapper.FirstIndex` | WeatherApp/app/src/main/java/com/example/weatherapp/data/mapper/WeatherApiResponseMapper.kt:25-27 | the position of the first sample of a day: a sample of that day, with no sample of that day before it |
| `ResponseMapper.DayKeysInFirstOccurrenceOrder` | WeatherApp/app/src/main/java/com/example/weatherapp/data/mapper/WeatherApiResponseMapper.kt:25-27 | the keys of `groupBy` are days of the input, in the order of the first sample of each day |
| `ResponseMapper.DayGroup` | WeatherApp/app/src/main/java/com/example/weatherapp/data/mapper/WeatherApiResponseMapper.kt:25-27 | a group holds exactly the samples of its day; it is empty exactly when the day does not occur |
| `ResponseMapper.GroupByDay` | WeatherApp/app/src/main/java/com/example/weatherapp/data/mapper/WeatherApiResponseMapper.kt:25-27 | one non-empty group per local day; the group at each position holds exactly the samples of the key at that position |
| `ResponseMapper.MaxByTemp` | WeatherApp/app/src/main/java/com/example/weatherapp/data/mapper/WeatherApiResponseMapper.kt:30 | null exactly for an empty group; otherwise a member of the group that no member is warmer than |
| `ResponseMapper.WarmestPerGroup` | WeatherApp/app/src/main/java/com/example/weatherapp/data/mapper/WeatherApiResponseMapper.kt:29-31 | when no group is empty, exactly one maximum per group, in group order |
| `ResponseMapper.InsertByDt` | WeatherApp/app/src/main/java/com/example/weatherapp/data/mapper/WeatherApiResponseMapper.kt:31 | the result is the list with the element added, as a multiset |
| `ResponseMapper.InsertKeepsSorted` | WeatherApp/app/src/main/java/com/example/weatherapp/data/mapper/WeatherApiResponseMapper.kt:31 | inserting into a list ordered by time keeps it ordered |
| `ResponseMapper.SortByDt` | WeatherApp/app/src/main/java/com/example/weatherapp/data/mapper/WeatherApiResponseMapper.kt:31 | a permutation of the input, ordered by time |
| `ResponseMapper.Take` | WeatherApp/app/src/main/java/com/example/weatherapp/data/mapper/WeatherApiResponseMapper.kt:31 | `take(n)` (also at line 19): the first min(n, length) elements, each in its place |
| `ResponseMapper.FirstWarmestUnique` | WeatherApp/app/src/main/java/com/example/weatherapp/data/mapper/WeatherApiResponseMapper.kt:30 | at most one position is the first warmest sample of a day |
| `ResponseMapper.GroupMaxIsFirstWarmest` | WeatherApp/app/src/main/java/com/example/weatherapp/data/mapper/WeatherApiResponseMapper.kt:29-30 | the maximum of a day's group is the first warmest sample of that day in the input: nothing warmer, and everything earlier strictly cooler |
| `ResponseMapper.DayRepresentative` | WeatherApp/app/src/main/java/com/example/weatherapp/data/mapper/WeatherApiResponseMapper.kt:29-30 | the kept sample of a day is an input sample of that day, and the first warmest one |
| `ResponseMapper.RepresentativesPerDay` | WeatherApp/app/src/main/java/com/example/weatherapp/data/mapper/WeatherApiResponseMapper.kt:25-31 | before sorting there is exactly one sample per local day, in the order of the days, each the day's representative; no two share a day |
| `ResponseMapper.SortKeepsDaysDistinct` | WeatherApp/app/src/main/java/com/example/weatherapp/data/mapper/WeatherApiResponseMapper.kt:31 | sorting keeps the days distinct |
| `ResponseMapper.DailyCount` | WeatherApp/app/src/main/java/com/example/weatherapp/data/mapper/WeatherApiResponseMapper.kt:22-32 | the grouping returns min(5, number of local days) samples |
| `ResponseMapper.GroupForecastsByDay` | WeatherApp/app/src/main/java/com/example/weatherapp/data/mapper/WeatherApiResponseMapper.kt:22-32 | at most five entries, each a sample of the input; the full characterization is `GroupForecastsByDaySpec` |
| `ResponseMapper.GroupForecastsByDaySpec` | WeatherApp/app/src/main/java/com/example/weatherapp/data/mapper/WeatherApiResponseMapper.kt:22-32 | min(5, days) samples with distinct days; each is an input sample and its day's representative; strictly increasing in time; a day is missing only when five days with earlier representatives fill the list |
| `ResponseMapper.NoDaysIffNoItems` | WeatherApp/app/src/main/java/com/example/weatherapp/data/mapper/WeatherApiResponseMapper.kt:25-27 | an input has a local day exactly when it has a sample |
| `ResponseMapper.ConvertAll` | WeatherApp/app/src/main/java/com/example/weatherapp/data/mapper/WeatherApiResponseMapper.kt:17-18 | one forecast per entry, each the conversion of the entry at the same position |
| `ResponseMapper.MapToDomain` | WeatherApp/app/src/main/java/com/example/weatherapp/data/mapper/WeatherApiResponseMapper.kt:15-20 | at most five forecasts, each the conversion of a sample of the input; the full characterization is `MapToDomainSpec` |
| `ResponseMapper.MapToDomainSpec` | WeatherApp/app/src/main/java/com/example/weatherapp/data/mapper/WeatherApiResponseMapper.kt:15-20 | one converted forecast per grouped sample, in order (the second take(5) removes nothing); the length is min(5, days); empty exactly for empty input |
| `Repository.Answer` | WeatherApp/app/src/main/java/com/example/weatherapp/data/repository/WeatherRepositoryImpl.kt:27-32 | a thrown exception becomes a failure carrying it; a returned body becomes a success of at most five forecasts, empty exactly when the body's list is empty |
| `Repository.WeatherApiService.GetWeatherForecast` | WeatherApp/app/src/main/java/com/example/weatherapp/data/remote/WeatherApiService.kt:7-14 | one request with the given lat, lon and appid is logged; the answer is the server's answer to that request |
| `Repository.WeatherRemoteDataSource.GetWeatherForecast` | WeatherApp/app/src/main/java/com/example/weatherapp/data/remote/WeatherRemoteDataSource.kt:11-17 | forwards the position with the build's API key: exactly one request, and its answer |
| `Repository.LocationDataSource.GetCurrentLocation` | WeatherApp/app/src/main/java/com/example/weatherapp/data/local/LocationDataSource.kt:24-41 | stub of the location source, which is not modelled: returns the fix the source was built with (null standing for no permission, no fix or a failed client) |
| `Repository.LocationProvider.GetCurrentLocation` | WeatherApp/app/src/main/java/com/example/weatherapp/data/local/LocationProvider.kt:17-33 | stub of the older location source, which is not modelled: returns the (latitude, longitude) pair it was built with, or null |
| `Repository.WeatherRepositoryImpl.GetWeatherForecast` | WeatherApp/app/src/main/java/com/example/weatherapp/data/repository/WeatherRepositoryImpl.kt:17-33 | no location: the "Please enable location" failure and no request; otherwise exactly one request with the location's coordinates, then the thrown exception as a failure, or success with `mapToDomain` of the body's list |
| `Repository.WeatherRepository.GetWeatherForecast` | WeatherApp/app/src/main/java/com/example/weatherapp/data/repository/WeatherRepository.kt:20-39 | the same contract as the Impl, with the API key in the request; its own grouping, conversion and take(5) yield exactly `mapToDomain` |
| `ViewModel.StateFor` | WeatherApp/app/src/main/java/com/example/weatherapp/ui/viewmodel/WeatherViewModel.kt:40-57 | never Loading; Success exactly for a successful result, with the whole list and the first forecast's category (Sunny when the list is empty); otherwise Error with the message, or "Unknown error occurred" when there is none |
| `ViewModel.BackgroundIsEarliestDay` | WeatherApp/app/src/main/java/com/example/weatherapp/ui/viewmodel/WeatherViewModel.kt:42 | fed from the mapper, the background is the category of the first grouped sample (the earliest day), or Sunny for an empty feed |
| `ViewModel.WeatherViewModel.constructor` | WeatherApp/app/src/main/java/com/example/weatherapp/ui/viewmodel/WeatherViewModel.kt:24-27 | starts in Loading with no load running |
| `ViewModel.WeatherViewModel.LoadWeatherForecast` | WeatherApp/app/src/main/java/com/example/weatherapp/ui/viewmodel/WeatherViewModel.kt:29-38 | without force, nothing changes once Success is shown or while a load runs; otherwise (always with force, after cancelling) a new load is launched and Loading is shown; Loading is shown exactly while a load runs or before the first one |
| `ViewModel.WeatherViewModel.Complete` | WeatherApp/app/src/main/java/com/example/weatherapp/ui/viewmodel/WeatherViewModel.kt:40-57 | the running load publishes the state for its result and is no longer active, keeping the invariant |
| `ViewModel.LoadOnce` | WeatherApp/app/src/test/java/com/example/weatherapp/WeatherViewModelTest.kt:25-77 | a fresh screen that loads once shows exactly the state for the result |
| `ViewModel.LoadTwice` | WeatherApp/app/src/main/java/com/example/weatherapp/ui/viewmodel/WeatherViewModel.kt:29-37 | a plain second request keeps a shown success; after a failure, or when forced, the second result is shown |
| `ViewModel.RequestWhileLoading` | WeatherApp/app/src/main/java/com/example/weatherapp/ui/viewmodel/WeatherViewModel.kt:29-38 | a second request during a load, plain or forced, leaves a load running and Loading shown |

## Left out

- Android, Compose and Hilt: the screens, the DI modules, the use case and the
  icon mapper are outside this model. The view model of the presentation layer
  is not part of this model. Its test expects the outcomes that `StateFor`
  states: Success with the first forecast's category, Sunny for an empty
  list, and Error with the exception's message. There they are reached
  through `GetWeatherForecastUseCase`.
- Location: permission checks and the fused location client are reduced to the
  fix a location source yields (none when permission is missing, no fix exists
  or the client failed).
- Retrofit and JSON decoding: the endpoint is a function from the query to a
  decoded body or a thrown exception. HTTP status codes and the `cod` field are
  not inspected by the code either.
- `SimpleDateFormat` and `Calendar`: the local date key and the weekday name
  are the two functions of the `Calendar` value. Time zones, locales, and the
  `dt * 1000` millisecond conversion (a 64-bit product that cannot overflow for
  real timestamps) are not modelled further.
- `Text.Lowercase`: covers only the ASCII letters `A`-`Z`. Kotlin's
  `lowercase()` maps all Unicode letters with the invariant locale. The labels
  of the endpoint are ASCII.
- `Classify.ToInt`: temperatures are exact reals, so NaN and the infinities
  (which `toInt()` maps to 0 and the range ends) are not modelled.
- Coroutines and cancellation: `forceRefresh` marks the running load as
  finished and launches the next. The model does not capture what a cancelled
  load still does: the repository's `catch (e: Exception)` also catches the
  `CancellationException`, so on the real dispatcher a cancelled load can
  still publish an Error after the new load set Loading. Nor does it capture
  interleavings with other threads.
- The number of `mapToDomain` calls that the Impl test counts is not tracked.
  The model calls the mapper function once on the success path, and its result
  is the value returned.
