/** `PortfolioViewModel` and `PortfolioUiState` as a state machine. Each
    event is one thing that can happen to the view model: the UI starts or
    stops collecting `uiState`, the holdings query emits or fails, the user
    toggles the summary or picks a tab, a refresh coroutine starts or ends.
    Interleavings of coroutines are the order of events in a trace. */
module PortfolioViewModel {
  import opened Common
  import opened Model
  import opened PortfolioSummaryCalc

  datatype PortfolioTab = Positions | Holdings

  datatype UiState =
    | Loading
    | Success(holdings: seq<PortfolioItem>, summary: PortfolioSummary, isSummaryExpanded: bool)
    | Error(message: string)

  const ProcessingErrorMessage := "Error processing portfolio data"
  const LoadingErrorMessage := "Error loading portfolio data"
  const RefreshErrorMessage := "Failed to refresh portfolio data"

  datatype ViewModel = ViewModel(
    isSummaryExpanded: bool,
    selectedTab: PortfolioTab,
    refreshError: Option<string>,
    hasInitialRefresh: bool,
    /** Refreshes the view model launched by itself (from `onStart`). */
    autoRefreshes: nat,
    /** Whether the upstream of `stateIn` is being collected. */
    collecting: bool,
    /** Whether the current collection ended through `catch`. */
    failed: bool,
    /** The latest holdings list of the current collection. */
    latestHoldings: Option<seq<PortfolioItem>>,
    /** The last state `distinctUntilChanged` let through in this collection. */
    lastEmitted: Option<UiState>,
    uiState: UiState)

  datatype Event =
    | Start
    | Stop
    | HoldingsEmitted(holdings: seq<PortfolioItem>)
    | HoldingsFailed(message: Option<string>)
    | ToggleSummaryExpanded
    | SetSelectedTab(tab: PortfolioTab)
    | RefreshStarted
    | RefreshFinished(result: Outcome<UnitResult>)

  /** A freshly constructed view model. */
  function Init(): (vm: ViewModel)
    ensures vm.uiState == Loading
    ensures !vm.isSummaryExpanded && vm.selectedTab == Holdings && vm.refreshError == None
    ensures !vm.hasInitialRefresh && vm.autoRefreshes == 0
  {
    ViewModel(false, Holdings, None, false, 0, false, false, None, None, Loading)
  }

  /** The body of `combine`: the summary the calculation returned, or the error the
      calculation threw. */
  function Combine(computed: Outcome<PortfolioSummary>, holdings: seq<PortfolioItem>, expanded: bool): (s: UiState)
    ensures s.Success? <==> computed.Returned?
    ensures s.Success? ==> s.holdings == holdings && s.summary == computed.value && s.isSummaryExpanded == expanded
    ensures s.Error? ==> s.message == computed.error.message.GetOr(ProcessingErrorMessage)
  {
    match computed
    case Returned(summary) => UiState.Success(holdings, summary, expanded)
    case Thrown(e) => Error(e.message.GetOr(ProcessingErrorMessage))
  }

  /** What `combine` produces with the summary use case, which always
      returns. */
  function Project(holdings: seq<PortfolioItem>, expanded: bool): (s: UiState)
    ensures s == Combine(Returned(Summarize(holdings)), holdings, expanded)
  {
    UiState.Success(holdings, Summarize(holdings), expanded)
  }

  /** The comparator given to `distinctUntilChanged`: two Success states
      whose fields all agree; any other pair always differs. */
  predicate Equivalent(prev: UiState, next: UiState) {
    prev.Success? && next.Success? &&
    prev.holdings == next.holdings && prev.isSummaryExpanded == next.isSummaryExpanded &&
    prev.summary == next.summary
  }

  /** Passes `candidate` through `distinctUntilChanged` into the state flow. */
  function Emit(vm: ViewModel, candidate: UiState): (r: ViewModel)
    ensures vm.lastEmitted.Some? && Equivalent(vm.lastEmitted.value, candidate) ==> r == vm
    ensures !(vm.lastEmitted.Some? && Equivalent(vm.lastEmitted.value, candidate)) ==>
      r.uiState == candidate && r.lastEmitted == Some(candidate)
    ensures r == vm.(lastEmitted := r.lastEmitted, uiState := r.uiState)
  {
    if vm.lastEmitted.Some? && Equivalent(vm.lastEmitted.value, candidate) then vm
    else vm.(lastEmitted := Some(candidate), uiState := candidate)
  }

  /** Emits the projection of the latest holdings, if the current collection
      has any. */
  function Recombine(vm: ViewModel): ViewModel {
    if vm.collecting && !vm.failed && vm.latestHoldings.Some? then
      Emit(vm, Project(vm.latestHoldings.value, vm.isSummaryExpanded))
    else vm
  }

  function Step(vm: ViewModel, ev: Event): (r: ViewModel)
    ensures r.isSummaryExpanded == (if ev.ToggleSummaryExpanded? then !vm.isSummaryExpanded else vm.isSummaryExpanded)
    ensures r.selectedTab == (if ev.SetSelectedTab? then ev.tab else vm.selectedTab)
    ensures ev.SetSelectedTab? || ev.RefreshStarted? || ev.RefreshFinished? ==> r.uiState == vm.uiState
    ensures r.autoRefreshes == vm.autoRefreshes + (if ev.Start? && !vm.collecting && !vm.hasInitialRefresh then 1 else 0)
    ensures !(ev.RefreshStarted? || ev.RefreshFinished?) ==> r.refreshError == vm.refreshError
  {
    match ev
    case Start =>
      if vm.collecting then vm
      else
        var launched := !vm.hasInitialRefresh;
        vm.(hasInitialRefresh := true,
            autoRefreshes := vm.autoRefreshes + (if launched then 1 else 0),
            collecting := true, failed := false, latestHoldings := None, lastEmitted := None)
    case Stop =>
      vm.(collecting := false, failed := false, latestHoldings := None, lastEmitted := None)
    case HoldingsEmitted(h) =>
      if vm.collecting && !vm.failed then Recombine(vm.(latestHoldings := Some(h))) else vm
    case HoldingsFailed(msg) =>
      if vm.collecting && !vm.failed then
        Emit(vm.(failed := true, latestHoldings := None), Error(msg.GetOr(LoadingErrorMessage)))
      else vm
    case ToggleSummaryExpanded =>
      Recombine(vm.(isSummaryExpanded := !vm.isSummaryExpanded))
    case SetSelectedTab(t) =>
      vm.(selectedTab := t)
    case RefreshStarted =>
      vm.(refreshError := None)
    case RefreshFinished(result) =>
      match result
      case Returned(Failure(e)) => vm.(refreshError := Some(e.message.GetOr(RefreshErrorMessage)))
      case _ => vm
  }

  /** The view model after a trace of events. */
  function Run(trace: seq<Event>): ViewModel {
    if |trace| == 0 then Init() else Step(Run(trace[..|trace| - 1]), trace[|trace| - 1])
  }

  /** What holds of every reachable view model. */
  predicate Consistent(vm: ViewModel) {
    && (vm.lastEmitted.Some? ==> vm.uiState == vm.lastEmitted.value)
    && (vm.uiState.Success? ==> vm.uiState.summary == Summarize(vm.uiState.holdings))
    && (vm.collecting && !vm.failed && vm.latestHoldings.Some? ==>
          vm.uiState == Project(vm.latestHoldings.value, vm.isSummaryExpanded))
    && (vm.collecting ==> vm.hasInitialRefresh)
    && vm.autoRefreshes == (if vm.hasInitialRefresh then 1 else 0)
  }

  /** The comparator only ever suppresses a state equal to the last one. */
  lemma EquivalentMeansEqual(a: UiState, b: UiState)
    ensures Equivalent(a, b) <==> a.Success? && a == b
  {
  }

  lemma StepKeepsConsistent(vm: ViewModel, ev: Event)
    requires Consistent(vm)
    ensures Consistent(Step(vm, ev))
  {
  }

  lemma {:induction false} ReachableIsConsistent(trace: seq<Event>)
    ensures Consistent(Run(trace))
  {
    if |trace| > 0 {
      ReachableIsConsistent(trace[..|trace| - 1]);
      StepKeepsConsistent(Run(trace[..|trace| - 1]), trace[|trace| - 1]);
    }
  }

  /** Every Success state on screen carries the summary of exactly the
      holdings it shows. */
  lemma ShownSummaryMatchesHoldings(trace: seq<Event>)
    ensures Run(trace).uiState.Success? ==>
      Run(trace).uiState.summary == Summarize(Run(trace).uiState.holdings)
  {
    ReachableIsConsistent(trace);
  }

  /** While holdings are flowing, the screen shows them with the current
      expansion flag. */
  lemma ShownStateTracksLatestHoldings(trace: seq<Event>)
    ensures var vm := Run(trace);
      vm.collecting && !vm.failed && vm.latestHoldings.Some? ==>
        vm.uiState == UiState.Success(vm.latestHoldings.value, Summarize(vm.latestHoldings.value), vm.isSummaryExpanded)
  {
    ReachableIsConsistent(trace);
  }

  /** The automatic refresh is launched at most once over the view model's
      life, and exactly when collection has started at least once. */
  lemma {:induction false} AutoRefreshAtMostOnce(trace: seq<Event>)
    ensures Run(trace).autoRefreshes <= 1
    ensures Run(trace).autoRefreshes == 1 <==> exists i :: 0 <= i < |trace| && trace[i] == Start
  {
    ReachableIsConsistent(trace);
    if |trace| > 0 {
      var prefix := trace[..|trace| - 1];
      AutoRefreshAtMostOnce(prefix);
      if exists i :: 0 <= i < |prefix| && prefix[i] == Start {
        var i :| 0 <= i < |prefix| && prefix[i] == Start;
        assert trace[i] == Start;
      }
      if exists i :: 0 <= i < |trace| && trace[i] == Start {
        var i :| 0 <= i < |trace| && trace[i] == Start;
        if i < |prefix| {
          assert prefix[i] == Start;
        }
      }
    }
  }

  /** The combine step never produces an error: the summary calculation
      always returns. */
  lemma ProjectionNeverErrors(holdings: seq<PortfolioItem>, expanded: bool)
    ensures Project(holdings, expanded).Success?
  {
  }

  /** Toggling twice restores the flag, and while holdings are flowing the
      shown state too. */
  lemma ToggleTwiceRestores(trace: seq<Event>)
    ensures var vm := Run(trace);
      var twice := Step(Step(vm, ToggleSummaryExpanded), ToggleSummaryExpanded);
      twice.isSummaryExpanded == vm.isSummaryExpanded &&
      (vm.collecting && !vm.failed && vm.latestHoldings.Some? ==> twice.uiState == vm.uiState)
  {
    ReachableIsConsistent(trace);
    var vm := Run(trace);
    StepKeepsConsistent(vm, ToggleSummaryExpanded);
    StepKeepsConsistent(Step(vm, ToggleSummaryExpanded), ToggleSummaryExpanded);
  }

  /** A refresh that starts and ends leaves the failure message of its own
      result, or none. */
  lemma RefreshErrorReflectsResult(vm: ViewModel, result: Outcome<UnitResult>)
    ensures var r := Step(Step(vm, RefreshStarted), RefreshFinished(result));
      (result.Returned? && result.value.Failure? ==>
        r.refreshError == Some(result.value.exception.message.GetOr(RefreshErrorMessage))) &&
      (!(result.Returned? && result.value.Failure?) ==> r.refreshError == None) &&
      r.uiState == vm.uiState
  {
  }

  /** An upstream failure shows its message, or the default one. */
  lemma UpstreamFailureShowsError(trace: seq<Event>, msg: Option<string>)
    requires Run(trace).collecting && !Run(trace).failed
    ensures Step(Run(trace), HoldingsFailed(msg)).uiState == Error(msg.GetOr(LoadingErrorMessage))
  {
    ReachableIsConsistent(trace);
  }

  /** Before anything is collected the screen shows Loading. */
  lemma {:induction false} LoadingUntilFirstEmission(trace: seq<Event>)
    requires forall i :: 0 <= i < |trace| ==> !trace[i].HoldingsEmitted? && !trace[i].HoldingsFailed?
    ensures Run(trace).uiState == Loading && Run(trace).latestHoldings == None
  {
    if |trace| > 0 {
      var prefix := trace[..|trace| - 1];
      assert forall i :: 0 <= i < |prefix| ==> prefix[i] == trace[i];
      LoadingUntilFirstEmission(prefix);
    }
  }
}
