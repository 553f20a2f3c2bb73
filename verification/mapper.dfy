/** Conversions between the wire holding, the cached row and the domain item,
    with the per-holding P&L derived on the way. */
module HoldingMapper {
  import opened Decimals
  import opened Model

  /** A price rounded half-up to two decimals, in hundredths. */
  function ToCents(x: Decimal): (r: int)
    ensures IsHalfUpQuotient(Num(x) * 100, Den(x), r)
    ensures x.scale <= 2 ==> r == x.unscaled * Pow10(2 - x.scale)
  {
    SetScale(x, 2)
  }

  /** `(ltp - avgPrice) * quantity`, kept exact. */
  function Pnl(ltp: int, avgPrice: int, quantity: int): int {
    (ltp - avgPrice) * quantity
  }

  /** The P&L percentage of a position bought at `avgPrice` and now at `ltp`;
      zero when the average price is not positive. */
  function PnlPercentage(ltp: int, avgPrice: int): (r: int)
    ensures avgPrice <= 0 ==> r == 0
    ensures avgPrice > 0 ==> IsHalfUpQuotient((ltp - avgPrice) * 10000, avgPrice, r)
  {
    if avgPrice > 0 then RatioAsPercent(ltp - avgPrice, avgPrice) else 0
  }

  /** The item's stored P&L fields are the ones its prices and quantity imply. */
  predicate IsDerived(i: PortfolioItem) {
    && i.pnl == Pnl(i.ltp, i.avgPrice, i.quantity)
    && i.pnlPercentage == PnlPercentage(i.ltp, i.avgPrice)
  }

  /** `Holding.toEntity()`. */
  function ToEntity(h: Holding): (e: HoldingEntity)
    ensures e.symbol == h.symbol && e.quantity == h.quantity
    ensures IsHalfUpQuotient(Num(h.ltp) * 100, Den(h.ltp), e.ltp)
    ensures IsHalfUpQuotient(Num(h.avgPrice) * 100, Den(h.avgPrice), e.avgPrice)
    ensures IsHalfUpQuotient(Num(h.close) * 100, Den(h.close), e.close)
  {
    HoldingEntity(h.symbol, h.quantity, ToCents(h.ltp), ToCents(h.avgPrice), ToCents(h.close))
  }

  /** `HoldingEntity.toDomain()`: copies the row and derives its P&L. */
  function EntityToDomain(e: HoldingEntity): (i: PortfolioItem)
    ensures IsDerived(i)
    ensures i.symbol == e.symbol && i.quantity == e.quantity
    ensures i.ltp == e.ltp && i.avgPrice == e.avgPrice && i.close == e.close
  {
    PortfolioItem(e.symbol, e.quantity, e.ltp, e.avgPrice, e.close,
                  Pnl(e.ltp, e.avgPrice, e.quantity), PnlPercentage(e.ltp, e.avgPrice))
  }

  /** `Holding.toDomain()`: rounds the wire prices, then derives the P&L from
      the rounded prices. */
  function HoldingToDomain(h: Holding): (i: PortfolioItem)
    ensures IsDerived(i)
    ensures i.symbol == h.symbol && i.quantity == h.quantity
    ensures IsHalfUpQuotient(Num(h.ltp) * 100, Den(h.ltp), i.ltp)
    ensures IsHalfUpQuotient(Num(h.avgPrice) * 100, Den(h.avgPrice), i.avgPrice)
    ensures IsHalfUpQuotient(Num(h.close) * 100, Den(h.close), i.close)
  {
    var ltp := ToCents(h.ltp);
    var avgPrice := ToCents(h.avgPrice);
    var close := ToCents(h.close);
    PortfolioItem(h.symbol, h.quantity, ltp, avgPrice, close,
                  Pnl(ltp, avgPrice, h.quantity), PnlPercentage(ltp, avgPrice))
  }

  /** The direct conversion agrees with going through the cached row. */
  lemma HoldingToDomainViaEntity(h: Holding)
    ensures HoldingToDomain(h) == EntityToDomain(ToEntity(h))
  {
  }

  /** An item is a row's image exactly when its P&L fields are derived. */
  lemma {:induction false} DerivedItemsAreImages(i: PortfolioItem)
    ensures IsDerived(i) <==>
      i == EntityToDomain(HoldingEntity(i.symbol, i.quantity, i.ltp, i.avgPrice, i.close))
  {
  }

  /** The percentage depends on the prices only, never on the quantity. */
  lemma PercentageIgnoresQuantity(e1: HoldingEntity, e2: HoldingEntity)
    requires e1.ltp == e2.ltp && e1.avgPrice == e2.avgPrice
    ensures EntityToDomain(e1).pnlPercentage == EntityToDomain(e2).pnlPercentage
  {
  }

  /** A zero quantity has zero P&L whatever the prices. */
  lemma ZeroQuantityHasZeroPnl(e: HoldingEntity)
    requires e.quantity == 0
    ensures EntityToDomain(e).pnl == 0
  {
  }

  /** The sign of the P&L follows the price move, for a positive quantity. */
  lemma PnlSignFollowsPrice(e: HoldingEntity)
    requires e.quantity > 0
    ensures EntityToDomain(e).pnl > 0 <==> e.ltp > e.avgPrice
    ensures EntityToDomain(e).pnl < 0 <==> e.ltp < e.avgPrice
  {
    var d := e.ltp - e.avgPrice;
    if d > 0 {
      assert d * e.quantity > 0;
    } else if d < 0 {
      assert (-d) * e.quantity > 0;
    }
  }

  /** 100.123, 90.456, 95.789 round to 100.12, 90.46, 95.79. */
  lemma ToEntityRoundsToCents()
    ensures ToEntity(Holding("TEST", 10, Decimal(100123, 3), Decimal(90456, 3), Decimal(95789, 3)))
         == HoldingEntity("TEST", 10, 10012, 9046, 9579)
  {
  }

  /** A tie rounds up before any arithmetic: avgPrice 0.005 becomes 0.01, so
      against ltp 0.01 both the P&L and its percentage are zero. */
  lemma TieRoundsUpBeforeArithmetic()
    ensures HoldingToDomain(Holding("TEST", 1, Decimal(1, 2), Decimal(5, 3), Decimal(8, 3)))
         == PortfolioItem("TEST", 1, 1, 1, 1, 0, 0)
  {
  }

  /** 100 against 90 on ten shares: P&L 100.00, percentage 11.11. */
  lemma ProfitExample()
    ensures HoldingToDomain(Holding("TEST", 10, Decimal(1000, 1), Decimal(900, 1), Decimal(950, 1)))
         == PortfolioItem("TEST", 10, 10000, 9000, 9500, 10000, 1111)
  {
    assert ToCents(Decimal(1000, 1)) == 10000 && ToCents(Decimal(900, 1)) == 9000;
    HalfUpQuotientUnique(1000 * 10000, 9000, RatioAsPercent(1000, 9000), 1111);
  }

  /** 80 against 100 on ten shares: P&L -200.00, percentage -20.00. */
  lemma LossExample()
    ensures HoldingToDomain(Holding("TEST", 10, Decimal(800, 1), Decimal(1000, 1), Decimal(900, 1)))
         == PortfolioItem("TEST", 10, 8000, 10000, 9000, -20000, -2000)
  {
    assert ToCents(Decimal(800, 1)) == 8000 && ToCents(Decimal(1000, 1)) == 10000;
    HalfUpQuotientUnique(-2000 * 10000, 10000, RatioAsPercent(-2000, 10000), -2000);
  }

  /** A zero average price gives a zero percentage instead of a division. */
  lemma ZeroAveragePriceExample()
    ensures HoldingToDomain(Holding("TEST", 10, Decimal(1000, 1), Decimal(0, 1), Decimal(950, 1))).pnlPercentage == 0
  {
    assert ToCents(Decimal(0, 1)) == 0;
  }
}
