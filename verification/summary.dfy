/** `CalculatePortfolioSummaryUseCase`: a reduction of the holdings into five
    totals, all in hundredths. */
module PortfolioSummaryCalc {
  import opened Decimals
  import opened Model

  /** A left fold `acc + f(item)` from zero, as `List.fold` runs it. */
  function FoldSum(items: seq<PortfolioItem>, f: PortfolioItem -> int): int {
    if |items| == 0 then 0 else FoldSum(items[..|items| - 1], f) + f(items[|items| - 1])
  }

  function MarketValue(i: PortfolioItem): int { i.ltp * i.quantity }
  function CostBasis(i: PortfolioItem): int { i.avgPrice * i.quantity }
  function DayChange(i: PortfolioItem): int { (i.close - i.ltp) * i.quantity }

  /** `invoke(holdings)`. */
  function Summarize(items: seq<PortfolioItem>): (r: PortfolioSummary)
    ensures |items| == 0 ==> r == PortfolioSummary(0, 0, 0, 0, 0)
    ensures r.currentValue == FoldSum(items, MarketValue)
    ensures r.totalInvestment == FoldSum(items, CostBasis)
    ensures r.todayPnl == FoldSum(items, DayChange)
    ensures r.totalPnl == r.currentValue - r.totalInvestment
    ensures r.totalInvestment <= 0 ==> r.totalPnlPercentage == 0
    ensures r.totalInvestment > 0 ==>
      IsHalfUpQuotient(r.totalPnl * 10000, r.totalInvestment, r.totalPnlPercentage)
  {
    if |items| == 0 then
      PortfolioSummary(0, 0, 0, 0, 0)
    else
      var currentValue := FoldSum(items, MarketValue);
      var totalInvestment := FoldSum(items, CostBasis);
      var totalPnl := currentValue - totalInvestment;
      var totalPnlPercentage :=
        if totalInvestment > 0 then RatioAsPercent(totalPnl, totalInvestment) else 0;
      var todayPnl := FoldSum(items, DayChange);
      PortfolioSummary(currentValue, totalInvestment, totalPnl, totalPnlPercentage, todayPnl)
  }

  /** The fold distributes over concatenation. */
  lemma {:induction false} FoldSumConcat(a: seq<PortfolioItem>, b: seq<PortfolioItem>, f: PortfolioItem -> int)
    ensures FoldSum(a + b, f) == FoldSum(a, f) + FoldSum(b, f)
    decreases |b|
  {
    if |b| == 0 {
      assert a + b == a;
    } else {
      var b' := b[..|b| - 1];
      assert (a + b)[..|a + b| - 1] == a + b';
      assert (a + b)[|a + b| - 1] == b[|b| - 1];
      FoldSumConcat(a, b', f);
    }
  }

  /** The fold ignores the order of the items. */
  lemma {:induction false} FoldSumPermutation(a: seq<PortfolioItem>, b: seq<PortfolioItem>, f: PortfolioItem -> int)
    requires multiset(a) == multiset(b)
    ensures FoldSum(a, f) == FoldSum(b, f)
    decreases |a|
  {
    if |a| == 0 {
      assert |multiset(b)| == 0;
    } else {
      var n := |a| - 1;
      var x := a[n];
      assert a == a[..n] + [x];
      assert x in multiset(b);
      var j :| 0 <= j < |b| && b[j] == x;
      var rest := FoldSumRemove(b, j, f);
      assert multiset(a) == multiset(a[..n]) + multiset{x};
      MultisetCancel(multiset(a[..n]), multiset(rest), x);
      FoldSumPermutation(a[..n], rest, f);
    }
  }

  /** Taking out the item at `j` takes its value out of the fold and the
      item out of the multiset. */
  lemma FoldSumRemove(b: seq<PortfolioItem>, j: nat, f: PortfolioItem -> int) returns (rest: seq<PortfolioItem>)
    requires j < |b|
    ensures rest == b[..j] + b[j + 1..]
    ensures FoldSum(b, f) == FoldSum(rest, f) + f(b[j])
    ensures multiset(b) == multiset(rest) + multiset{b[j]}
  {
    rest := b[..j] + b[j + 1..];
    var x := b[j];
    assert b == b[..j] + [x] + b[j + 1..];
    FoldSumConcat(b[..j] + [x], b[j + 1..], f);
    FoldSumConcat(b[..j], [x], f);
    FoldSumConcat(b[..j], b[j + 1..], f);
    assert FoldSum([x], f) == f(x) by {
      assert [x][..0] == [];
    }
  }

  lemma MultisetCancel<T>(p: multiset<T>, q: multiset<T>, x: T)
    requires p + multiset{x} == q + multiset{x}
    ensures p == q
  {
    assert forall y :: p[y] == (p + multiset{x})[y] - multiset{x}[y];
    assert forall y :: q[y] == (q + multiset{x})[y] - multiset{x}[y];
  }

  /** Two lists that agree on every item's value under `f` fold alike. */
  lemma {:induction false} FoldSumPointwise(a: seq<PortfolioItem>, b: seq<PortfolioItem>, f: PortfolioItem -> int)
    requires |a| == |b|
    requires forall k :: 0 <= k < |a| ==> f(a[k]) == f(b[k])
    ensures FoldSum(a, f) == FoldSum(b, f)
    decreases |a|
  {
    if |a| > 0 {
      FoldSumPointwise(a[..|a| - 1], b[..|b| - 1], f);
    }
  }

  /** Current value, investment and today's P&L add up over concatenation. */
  lemma SummaryAdditive(a: seq<PortfolioItem>, b: seq<PortfolioItem>)
    ensures Summarize(a + b).currentValue == Summarize(a).currentValue + Summarize(b).currentValue
    ensures Summarize(a + b).totalInvestment == Summarize(a).totalInvestment + Summarize(b).totalInvestment
    ensures Summarize(a + b).todayPnl == Summarize(a).todayPnl + Summarize(b).todayPnl
    ensures Summarize(a + b).totalPnl == Summarize(a).totalPnl + Summarize(b).totalPnl
  {
    FoldSumConcat(a, b, MarketValue);
    FoldSumConcat(a, b, CostBasis);
    FoldSumConcat(a, b, DayChange);
  }

  /** Reordering the holdings changes no field of the summary. */
  lemma SummaryPermutationInvariant(a: seq<PortfolioItem>, b: seq<PortfolioItem>)
    requires multiset(a) == multiset(b)
    ensures Summarize(a) == Summarize(b)
  {
    assert |a| == |multiset(a)| == |multiset(b)| == |b|;
    FoldSumPermutation(a, b, MarketValue);
    FoldSumPermutation(a, b, CostBasis);
    FoldSumPermutation(a, b, DayChange);
  }

  /** Only prices and quantities are read: the items' own pnl and
      pnlPercentage never influence the summary. */
  lemma SummaryIgnoresItemPnl(a: seq<PortfolioItem>, b: seq<PortfolioItem>)
    requires |a| == |b|
    requires forall k :: 0 <= k < |a| ==>
      a[k].ltp == b[k].ltp && a[k].avgPrice == b[k].avgPrice &&
      a[k].close == b[k].close && a[k].quantity == b[k].quantity
    ensures Summarize(a) == Summarize(b)
  {
    FoldSumPointwise(a, b, MarketValue);
    FoldSumPointwise(a, b, CostBasis);
    FoldSumPointwise(a, b, DayChange);
  }

  /** One holding 100/90/95 of ten shares: 1000.00, 900.00, 100.00, 11.11%, -50.00.
      Two holdings 50/40/45 x5 and 100/110/105 x10: 1250.00, 1300.00, -50.00, -3.85%, 25.00. */
  lemma SummaryExamples()
    ensures Summarize([PortfolioItem("TEST", 10, 10000, 9000, 9500, 10000, 1111)])
         == PortfolioSummary(100000, 90000, 10000, 1111, -5000)
    ensures Summarize([PortfolioItem("STOCK1", 5, 5000, 4000, 4500, 5000, 2500),
                       PortfolioItem("STOCK2", 10, 10000, 11000, 10500, -10000, -909)])
         == PortfolioSummary(125000, 130000, -5000, -385, 2500)
  {
  }
}
