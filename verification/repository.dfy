/** `PortfolioRepositoryImpl`: the offline-first refresh. Connectivity is a
    boolean input, the endpoint a script, and `saveError` says whether the
    write of fetched holdings throws (a failed write changes nothing). */
module PortfolioRepository {
  import opened Common
  import opened Model
  import opened HoldingMapper
  import opened HoldingDao
  import opened NetworkErrorHandler
  import opened PortfolioLocalDataSource
  import opened PortfolioRemoteDataSource

  const NoConnectionMessage := "No internet connection and no cached data available"
  const NoConnectionError := Exception(OtherException, Some(NoConnectionMessage))

  /** How `refreshHoldings()` ends (`Result<Unit>` returned, or an exception
      escaping), the table afterwards, and the requests made. */
  datatype Refresh = Refresh(result: Outcome<UnitResult>, store: Store, apiCalls: nat)

  /** The `catch` branch: rethrow a cancellation, otherwise succeed exactly
      when cached holdings exist. */
  function Recover(e: Exception, store: Store, apiCalls: nat): (r: Refresh)
    ensures r.store == store && r.apiCalls == apiCalls
    ensures r.result.Thrown? <==> IsCancellation(e)
    ensures r.result.Thrown? ==> r.result.error == e
    ensures !IsCancellation(e) ==> (r.result == Returned(Success) <==> |store| > 0)
    ensures !IsCancellation(e) && |store| == 0 ==> r.result == Returned(Failure(e))
  {
    if IsCancellation(e) then Refresh(Thrown(e), store, apiCalls)
    else if |store| == 0 then Refresh(Returned(Failure(e)), store, apiCalls)
    else Refresh(Returned(Success), store, apiCalls)
  }

  /** `refreshHoldings()`. */
  function RefreshHoldings(online: bool, api: nat -> Outcome<PortfolioResponse>,
                           saveError: Option<Exception>, store: Store): (r: Refresh)
    requires WellKeyed(store)
    ensures WellKeyed(r.store)
    ensures !online ==> r.apiCalls == 0 && r.store == store
    ensures !online ==> (r.result == Returned(Success) <==> |store| > 0)
    ensures !online && |store| == 0 ==> r.result == Returned(Failure(NoConnectionError))
    ensures online ==> 1 <= r.apiCalls <= 3
    ensures r.result.Thrown? ==> IsCancellation(r.result.error)
    ensures r.result.Returned? && r.result.value.Failure? ==> |store| == 0 && r.store == store
    ensures r.store == store || (online && r.result == Returned(Success))
    ensures forall s :: s in store ==> s in r.store
    ensures online ==> r.apiCalls == RetrySpec(DefaultRetryConfig, api).calls
    ensures var fetch := RetrySpec(DefaultRetryConfig, api).outcome;
      online && fetch.Returned? && saveError.None? ==>
        r.result == Returned(Success) && r.store == SaveHoldings(store, ResponseToDomain(fetch.value))
    ensures var fetch := RetrySpec(DefaultRetryConfig, api).outcome;
      online && fetch.Returned? && saveError.Some? ==>
        r.store == store &&
        (r.result.Thrown? <==> IsCancellation(saveError.value)) &&
        (!IsCancellation(saveError.value) && |store| == 0 ==> r.result == Returned(Failure(saveError.value)))
    ensures var fetch := RetrySpec(DefaultRetryConfig, api).outcome;
      online && fetch.Thrown? ==>
        r.store == store &&
        (r.result.Thrown? <==> IsCancellation(fetch.error)) &&
        (!IsCancellation(fetch.error) && |store| == 0 ==> r.result == Returned(Failure(fetch.error)))
  {
    if online then
      var fetched := PortfolioRemoteDataSource.GetPortfolioHoldings(api);
      assert fetched.calls >= 1 by {
        assert Budget(DefaultRetryConfig, 0) == 3;
      }
      match fetched.outcome
      case Returned(items) =>
        if saveError.Some? then Recover(saveError.value, store, fetched.calls)
        else Refresh(Returned(Success), SaveHoldings(store, items), fetched.calls)
      case Thrown(e) => Recover(e, store, fetched.calls)
    else if |store| == 0 then Refresh(Returned(Failure(NoConnectionError)), store, 0)
    else Refresh(Returned(Success), store, 0)
  }

  /** The same refresh written as the source runs it, reading the cache
      through `getHoldingsSync()` and fetching through the retry loop. */
  method RunRefreshHoldings(online: bool, api: nat -> Outcome<PortfolioResponse>,
                            saveError: Option<Exception>, store: Store) returns (r: Refresh)
    requires WellKeyed(store)
    ensures r == RefreshHoldings(online, api, saveError, store)
  {
    if online {
      var run := RetryWithExponentialBackoff(DefaultRetryConfig, api);
      match run.outcome {
        case Returned(response) =>
          if saveError.None? {
            return Refresh(Returned(Success), SaveHoldings(store, ResponseToDomain(response)), run.calls);
          }
          r := RecoverRun(saveError.value, store, run.calls);
        case Thrown(e) =>
          r := RecoverRun(e, store, run.calls);
      }
    } else {
      var cached := GetHoldingsSync(store);
      if |cached| == 0 {
        r := Refresh(Returned(Failure(NoConnectionError)), store, 0);
      } else {
        r := Refresh(Returned(Success), store, 0);
      }
    }
  }

  method RecoverRun(e: Exception, store: Store, apiCalls: nat) returns (r: Refresh)
    requires WellKeyed(store)
    ensures r == Recover(e, store, apiCalls)
  {
    if IsCancellation(e) {
      return Refresh(Thrown(e), store, apiCalls);
    }
    var cached := GetHoldingsSync(store);
    if |cached| == 0 {
      r := Refresh(Returned(Failure(e)), store, apiCalls);
    } else {
      r := Refresh(Returned(Success), store, apiCalls);
    }
  }

  /** `getPortfolioHoldings()`: the cached holdings, ascending by symbol. */
  method GetPortfolioHoldings(store: Store) returns (items: seq<PortfolioItem>)
    requires WellKeyed(store)
    ensures ListsDomain(items, store)
    ensures ItemsSortedBySymbol(items)
  {
    items := GetHoldings(store);
  }

  /** After a successful online refresh the table is the upsert of the
      fetched holdings: an empty response leaves it as it was, and the last
      fetched holding for each symbol reads back exactly as the remote
      source mapped it. */
  lemma FetchedHoldingsReadBack(api: nat -> Outcome<PortfolioResponse>, store: Store)
    requires WellKeyed(store)
    requires RetrySpec(DefaultRetryConfig, api).outcome.Returned?
    ensures var r := RefreshHoldings(true, api, None, store);
      var items := ResponseToDomain(RetrySpec(DefaultRetryConfig, api).outcome.value);
      && r.result == Returned(Success)
      && r.store == SaveHoldings(store, items)
      && (|items| == 0 ==> r.store == store)
      && (forall k :: 0 <= k < |items| && LastOfSymbol(items, k) ==>
            items[k].symbol in r.store && EntityToDomain(r.store[items[k].symbol]) == items[k])
  {
    var items := ResponseToDomain(RetrySpec(DefaultRetryConfig, api).outcome.value);
    var fetched := PortfolioRemoteDataSource.GetPortfolioHoldings(api);
    assert fetched.outcome.value == items;
    if |items| == 0 {
      assert items == [];
      SaveNothingChangesNothing(store);
    }
  }

  /** A failed request with holdings cached is a success that leaves the
      cache as it was. */
  lemma NetworkFailureFallsBackToCache(api: nat -> Outcome<PortfolioResponse>, store: Store)
    requires WellKeyed(store) && |store| > 0
    requires RetrySpec(DefaultRetryConfig, api).outcome.Thrown?
    requires !IsCancellation(RetrySpec(DefaultRetryConfig, api).outcome.error)
    ensures RefreshHoldings(true, api, None, store).result == Returned(Success)
    ensures RefreshHoldings(true, api, None, store).store == store
  {
  }

  /** A failed request with nothing cached returns that request's error. */
  lemma NetworkFailureWithoutCacheFails(api: nat -> Outcome<PortfolioResponse>)
    requires RetrySpec(DefaultRetryConfig, api).outcome.Thrown?
    requires !IsCancellation(RetrySpec(DefaultRetryConfig, api).outcome.error)
    ensures RefreshHoldings(true, api, None, map[]).result ==
      Returned(Failure(RetrySpec(DefaultRetryConfig, api).outcome.error))
  {
  }

  /** A cancellation of the first request escapes the refresh. */
  lemma CancellationEscapes(api: nat -> Outcome<PortfolioResponse>, store: Store)
    requires WellKeyed(store)
    requires api(0) == Thrown(Exception(CancellationException, None))
    ensures RefreshHoldings(true, api, None, store) ==
      Refresh(Thrown(Exception(CancellationException, None)), store, 1)
  {
  }

  /** A failing write after a successful fetch is handled like a failed
      fetch: cached holdings make it a success, the table is untouched. */
  lemma SaveFailureKeepsCache(api: nat -> Outcome<PortfolioResponse>, e: Exception, store: Store)
    requires WellKeyed(store) && |store| > 0 && !IsCancellation(e)
    requires RetrySpec(DefaultRetryConfig, api).outcome.Returned?
    ensures RefreshHoldings(true, api, Some(e), store).result == Returned(Success)
    ensures RefreshHoldings(true, api, Some(e), store).store == store
  {
  }
}
