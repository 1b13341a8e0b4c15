/** The screen's `WeatherViewModel`: a state holder that starts in Loading,
    launches at most one load at a time, and turns the repository's result
    into Success (with the background category) or Error. */
module ViewModel {
  import Models
  import ResponseMapper
  import Classify

  /** What the screen shows. */
  datatype WeatherUiState =
    | Loading
    | Success(forecasts: seq<Models.WeatherForecast>, weatherType: Models.WeatherType)
    | Error(message: string)

  /** The message shown for a failure whose exception carries none. */
  const UnknownError: string := "Unknown error occurred"

  /** The state a finished load leaves behind: never Loading; Success
      exactly when the load succeeded, carrying the whole list and the first
      day's category (Sunny for an empty list); otherwise Error with the
      exception's message, or the fallback text when it has none. */
  function StateFor(result: Models.Result<seq<Models.WeatherForecast>>): (s: WeatherUiState)
    ensures !s.Loading?
    ensures s.Success? <==> result.Success?
    ensures s.Success? ==> s.forecasts == result.value
    ensures s.Success? && result.value == [] ==> s.weatherType == Models.Sunny
    ensures s.Success? && result.value != [] ==> s.weatherType == result.value[0].weatherType
    ensures s.Error? && result.exception.message.Some? ==> s.message == result.exception.message.value
    ensures s.Error? && result.exception.message.None? ==> s.message == UnknownError
  {
    match result
    case Success(forecasts) =>
      Success(forecasts, if forecasts == [] then Models.Sunny else forecasts[0].weatherType)
    case Failure(e) =>
      Error(match e.message case Some(m) => m case None => UnknownError)
  }

  /** Fed from the mapper, the background is the category of the first
      entry of `groupForecastsByDay` (the representative of the earliest
      day), and Sunny when the feed was empty. */
  lemma BackgroundIsEarliestDay(items: seq<Models.ForecastItem>, cal: Models.Calendar)
    ensures StateFor(Models.Success(ResponseMapper.MapToDomain(items, cal))).Success?
    ensures items == [] ==>
              StateFor(Models.Success(ResponseMapper.MapToDomain(items, cal))).weatherType == Models.Sunny
    ensures items != [] ==>
              && ResponseMapper.GroupForecastsByDay(items, cal) != []
              && StateFor(Models.Success(ResponseMapper.MapToDomain(items, cal))).weatherType
                 == Classify.ConvertToWeatherForecast(ResponseMapper.GroupForecastsByDay(items, cal)[0], cal).weatherType
  {
    ResponseMapper.MapToDomainSpec(items, cal);
  }

  class WeatherViewModel {
    var uiState: WeatherUiState
    /** `loadJob?.isActive == true`: a launched load has not finished. */
    var jobActive: bool
    /** How many loads have been launched. */
    ghost var launches: nat

    /** Loading is shown exactly while a load runs, and before the first one. */
    ghost predicate Valid()
      reads this
    {
      && (launches == 0 ==> uiState == Loading && !jobActive)
      && (jobActive ==> uiState == Loading)
      && (launches > 0 && !jobActive ==> !uiState.Loading?)
    }

    constructor()
      ensures Valid()
      ensures uiState == Loading && !jobActive && launches == 0
    {
      uiState := Loading;
      jobActive := false;
      launches := 0;
    }

    /** `loadWeatherForecast(forceRefresh)`. Without `forceRefresh` it does
        nothing while a load runs or once forecasts are shown; otherwise (and
        always with `forceRefresh`, which first cancels the running load) it
        launches a new load, which shows Loading at once. */
    method LoadWeatherForecast(forceRefresh: bool)
      requires Valid()
      modifies this
      ensures Valid()
      ensures !forceRefresh && (old(uiState).Success? || old(jobActive)) ==>
                uiState == old(uiState) && jobActive == old(jobActive) && launches == old(launches)
      ensures forceRefresh || !(old(uiState).Success? || old(jobActive)) ==>
                uiState == Loading && jobActive && launches == old(launches) + 1
    {
      if !forceRefresh {
        if uiState.Success? {
          return;
        }
        if jobActive {
          return;
        }
      } else {
        jobActive := false;
      }
      jobActive := true;
      launches := launches + 1;
      uiState := Loading;
    }

    /** The running load receives the repository's result and publishes it. */
    method Complete(result: Models.Result<seq<Models.WeatherForecast>>)
      requires Valid() && jobActive
      modifies this
      ensures Valid()
      ensures uiState == StateFor(result) && !jobActive && launches == old(launches)
    {
      uiState := StateFor(result);
      jobActive := false;
    }
  }

  /** A fresh screen that loads once and receives `result`. */
  method LoadOnce(result: Models.Result<seq<Models.WeatherForecast>>) returns (s: WeatherUiState)
    ensures s == StateFor(result)
  {
    var vm := new WeatherViewModel();
    vm.LoadWeatherForecast(false);
    vm.Complete(result);
    s := vm.uiState;
  }

  /** A fresh screen that loads, receives `first`, is asked to load again,
      and receives `second` if that launched a load. A plain second request
      is ignored after a success and retries after a failure; a forced one
      always reloads. */
  method LoadTwice(first: Models.Result<seq<Models.WeatherForecast>>, forceRefresh: bool,
                   second: Models.Result<seq<Models.WeatherForecast>>) returns (s: WeatherUiState)
    ensures !forceRefresh && first.Success? ==> s == StateFor(first)
    ensures forceRefresh || first.Failure? ==> s == StateFor(second)
  {
    var vm := new WeatherViewModel();
    vm.LoadWeatherForecast(false);
    vm.Complete(first);
    vm.LoadWeatherForecast(forceRefresh);
    if vm.jobActive {
      vm.Complete(second);
    }
    s := vm.uiState;
  }

  /** A second request while a load is running, plain or forced, leaves a
      load running and the screen showing Loading. */
  method RequestWhileLoading(forceRefresh: bool) returns (s: WeatherUiState, running: bool)
    ensures s == Loading && running
  {
    var vm := new WeatherViewModel();
    vm.LoadWeatherForecast(false);
    vm.LoadWeatherForecast(forceRefresh);
    s := vm.uiState;
    running := vm.jobActive;
  }
}
