/** The records that flow through the portfolio pipeline.

    Monetary amounts are counts of hundredths (paise), percentages are counts
    of hundredths of a percent. Only the wire `Holding` carries raw decimals,
    because its prices have not yet been rounded. */
module Model {
  import opened Decimals

  /** One element of the endpoint's `userHolding` list. Its `Double` prices are
      taken as the decimals their `toString` spells. */
  datatype Holding = Holding(
    symbol: string,
    quantity: int,
    ltp: Decimal,
    avgPrice: Decimal,
    close: Decimal)

  datatype PortfolioData = PortfolioData(userHolding: seq<Holding>)

  /** The endpoint's JSON document `{ data: { userHolding: [...] } }`. */
  datatype PortfolioResponse = PortfolioResponse(data: PortfolioData)

  /** A cached row; `symbol` is its primary key. */
  datatype HoldingEntity = HoldingEntity(
    symbol: string,
    quantity: int,
    ltp: int,
    avgPrice: int,
    close: int)

  /** A holding as the domain sees it, with its derived P&L. */
  datatype PortfolioItem = PortfolioItem(
    symbol: string,
    quantity: int,
    ltp: int,
    avgPrice: int,
    close: int,
    pnl: int,
    pnlPercentage: int)

  datatype PortfolioSummary = PortfolioSummary(
    currentValue: int,
    totalInvestment: int,
    totalPnl: int,
    totalPnlPercentage: int,
    todayPnl: int)
}
