/**
 * The investor dashboard's statistics and per-investment ROI
 * (src/components/InvestorDashboard.tsx): four folds over the investor's
 * investment rows, stored only when the query returned data.
 */
module InvestorDashboard {
  import opened Schema
  import opened Seqs

  datatype InvestorStats = InvestorStats(
    totalInvested: real,
    totalEarnings: real,
    activeInvestments: nat,
    portfolioValue: real)

  /** The state the dashboard starts from. */
  const InitialStats: InvestorStats := InvestorStats(0.0, 0.0, 0, 0.0)

  /** `x || 0` on a nullable number. */
  function OrZero(x: Option<real>): real {
    x.GetOr(0.0)
  }

  function Invested(inv: InvestmentRow): real { inv.purchasePrice }
  function Earned(inv: InvestmentRow): real { OrZero(inv.totalEarnings) }
  function Valued(inv: InvestmentRow): real { inv.currentValue }
  function Gain(inv: InvestmentRow): real { inv.currentValue - inv.purchasePrice }
  predicate IsActive(inv: InvestmentRow) { inv.status == Some(InvestmentStatus.Active) }

  /** The four statistics of a list of investment rows. */
  function InvestorStatsOf(rows: seq<InvestmentRow>): (s: InvestorStats)
    ensures rows == [] ==> s == InitialStats
    ensures s.activeInvestments <= |rows|
    ensures s.activeInvestments == |rows| <==> forall i :: 0 <= i < |rows| ==> rows[i].status == Some(InvestmentStatus.Active)
  {
    InvestorStats(SumBy(rows, Invested), SumBy(rows, Earned), CountWhere(rows, IsActive), SumBy(rows, Valued))
  }

  /** `fetchStats` after the query: no data leaves the statistics as they were. */
  function RefreshInvestorStats(prev: InvestorStats, data: Option<seq<InvestmentRow>>): (s: InvestorStats)
    ensures data.None? ==> s == prev
    ensures data.Some? ==> s == InvestorStatsOf(data.value)
    ensures data == Some([]) ==> s == InitialStats
  {
    match data
    case None => prev
    case Some(rows) => InvestorStatsOf(rows)
  }

  /**
   * Each statistic grows by the new row's own contribution: a purchase
   * that adds an investment row adds its price to `totalInvested` and
   * `portfolioValue`, and counts it as active only if its status is active.
   */
  lemma InvestorStatsAfterInsert(rows: seq<InvestmentRow>, inv: InvestmentRow)
    ensures InvestorStatsOf(rows + [inv]).totalInvested == InvestorStatsOf(rows).totalInvested + inv.purchasePrice
    ensures InvestorStatsOf(rows + [inv]).totalEarnings == InvestorStatsOf(rows).totalEarnings + OrZero(inv.totalEarnings)
    ensures InvestorStatsOf(rows + [inv]).portfolioValue == InvestorStatsOf(rows).portfolioValue + inv.currentValue
    ensures InvestorStatsOf(rows + [inv]).activeInvestments
         == InvestorStatsOf(rows).activeInvestments + (if inv.status == Some(InvestmentStatus.Active) then 1 else 0)
  {
    SumByAppend(rows, [inv], Invested);
    SumByAppend(rows, [inv], Earned);
    SumByAppend(rows, [inv], Valued);
    CountWhereAppend(rows, [inv], IsActive);
    assert [inv][..0] == [];
  }

  /** The portfolio's gain over what was paid is the sum of the per-investment gains. */
  lemma PortfolioGain(rows: seq<InvestmentRow>)
    ensures InvestorStatsOf(rows).portfolioValue - InvestorStatsOf(rows).totalInvested == SumBy(rows, Gain)
  {
    SumByDifference(rows, Valued, Invested, Gain);
  }

  /**
   * Per-investment ROI: 0 when the purchase price is 0 (or missing),
   * otherwise the relative change of value, in percent.
   */
  function CalculateRoi(inv: InvestmentRow): (r: real)
    ensures inv.purchasePrice == 0.0 ==> r == 0.0
    ensures inv.purchasePrice != 0.0 ==> r * inv.purchasePrice == (inv.currentValue - inv.purchasePrice) * 100.0
    ensures inv.purchasePrice > 0.0 ==> (r >= 0.0 <==> inv.currentValue >= inv.purchasePrice)
    ensures inv.purchasePrice > 0.0 ==> (r == 0.0 <==> inv.currentValue == inv.purchasePrice)
  {
    if inv.purchasePrice == 0.0 then 0.0
    else (inv.currentValue - inv.purchasePrice) / inv.purchasePrice * 100.0
  }

  /**
   * When every holding was bought at a positive price and shows a
   * non-negative ROI badge, the portfolio is worth at least what was invested.
   */
  lemma NoLossPortfolio(rows: seq<InvestmentRow>)
    requires forall i :: 0 <= i < |rows| ==> rows[i].purchasePrice > 0.0 && CalculateRoi(rows[i]) >= 0.0
    ensures InvestorStatsOf(rows).portfolioValue >= InvestorStatsOf(rows).totalInvested
  {
    SumByMonotone(rows, Invested, Valued);
  }

  /** With no negative amounts in the rows, the totals are non-negative. */
  lemma InvestorTotalsNonNegative(rows: seq<InvestmentRow>)
    requires forall i :: 0 <= i < |rows| ==>
      rows[i].purchasePrice >= 0.0 && rows[i].currentValue >= 0.0 && OrZero(rows[i].totalEarnings) >= 0.0
    ensures InvestorStatsOf(rows).totalInvested >= 0.0
    ensures InvestorStatsOf(rows).totalEarnings >= 0.0
    ensures InvestorStatsOf(rows).portfolioValue >= 0.0
  {
    SumByNonNegative(rows, Invested);
    SumByNonNegative(rows, Earned);
    SumByNonNegative(rows, Valued);
  }
}
