/** `PortfolioRemoteDataSource`: one fetch of the holdings endpoint under the
    default retry policy. The endpoint is a script: `api(n)` is how the
    `n`-th request ends. */
module PortfolioRemoteDataSource {
  import opened Common
  import opened Decimals
  import opened Model
  import opened HoldingMapper
  import opened NetworkErrorHandler

  /** `response.data.userHolding.map { it.toDomain() }`. */
  function ResponseToDomain(response: PortfolioResponse): (items: seq<PortfolioItem>)
    ensures |items| == |response.data.userHolding|
    ensures forall k :: 0 <= k < |items| ==> items[k] == HoldingToDomain(response.data.userHolding[k])
  {
    var hs := response.data.userHolding;
    seq(|hs|, k requires 0 <= k < |hs| => HoldingToDomain(hs[k]))
  }

  /** `getPortfolioHoldings()`: the retried request, its response mapped to
      domain items. Every failure the retry surfaces (a cancellation
      included) is rethrown unchanged. */
  function GetPortfolioHoldings(api: nat -> Outcome<PortfolioResponse>): (r: RetryRun<seq<PortfolioItem>>)
    ensures r.calls == RetrySpec(DefaultRetryConfig, api).calls <= 3
    ensures r.delays == RetrySpec(DefaultRetryConfig, api).delays
    ensures RetrySpec(DefaultRetryConfig, api).outcome.Thrown? ==>
      r.outcome == Thrown(RetrySpec(DefaultRetryConfig, api).outcome.error)
    ensures RetrySpec(DefaultRetryConfig, api).outcome.Returned? ==>
      r.outcome == Returned(ResponseToDomain(RetrySpec(DefaultRetryConfig, api).outcome.value))
    ensures r.outcome.Returned? ==> forall k :: 0 <= k < |r.outcome.value| ==> IsDerived(r.outcome.value[k])
  {
    var run := RetrySpec(DefaultRetryConfig, api);
    match run.outcome
    case Returned(response) => RetryRun(Returned(ResponseToDomain(response)), run.calls, run.delays)
    case Thrown(e) => RetryRun(Thrown(e), run.calls, run.delays)
  }

  /** A first request that succeeds is the only one made, and its holdings
      come back mapped. */
  lemma FirstResponseIsUsed(api: nat -> Outcome<PortfolioResponse>)
    requires api(0).Returned?
    ensures GetPortfolioHoldings(api) == RetryRun(Returned(ResponseToDomain(api(0).value)), 1, [])
  {
  }

  /** Two I/O failures and then a success: three requests, backing off one
      and then two seconds, and the third response is used. */
  lemma RecoversOnThirdRequest(api: nat -> Outcome<PortfolioResponse>)
    requires api(0) == Thrown(Exception(SocketTimeoutException, None))
    requires api(1) == Thrown(Exception(IOException, Some("reset")))
    requires api(2).Returned?
    ensures GetPortfolioHoldings(api) == RetryRun(Returned(ResponseToDomain(api(2).value)), 3, [1000, 2000])
  {
    assert IsRetryable(DefaultRetryConfig, Exception(SocketTimeoutException, None)) by {
      assert IsInstance(SocketTimeoutException, IOException);
    }
    assert IsRetryable(DefaultRetryConfig, Exception(IOException, Some("reset"))) by {
      assert IsInstance(IOException, IOException);
    }
    assert NextDelay(DefaultRetryConfig, 1000, 0) == 1000;
    assert NextDelay(DefaultRetryConfig, 1000, 1) == 2000;
  }

  /** An error outside the retryable classes fails the fetch at once. */
  lemma NonRetryableFailsAtOnce(api: nat -> Outcome<PortfolioResponse>, msg: Option<string>)
    requires api(0) == Thrown(Exception(OtherException, msg))
    ensures GetPortfolioHoldings(api) == RetryRun(Thrown(Exception(OtherException, msg)), 1, [])
  {
    assert !IsRetryable(DefaultRetryConfig, Exception(OtherException, msg));
  }
}
