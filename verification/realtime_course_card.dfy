/**
 * The live course card (src/components/RealtimeCourseCard.tsx): the share
 * purchase step `handleInvest` and the advertised course ROI.
 *
 * The card keeps its own copy of the course row (`courseData`); the
 * purchase checks and computes against that copy, then writes three times
 * to the store: an investment row, an `investment` transaction row, and
 * the course's new `available_shares`. The first failing write ends the
 * purchase; the writes before it stay.
 */
module RealtimeCourseCard {
  import opened Schema
  import opened Store
  import InvestorDashboard

  datatype AuthUser = AuthUser(id: string)

  /** The signed-in user and their profile, as the auth hook provides them. */
  datatype Session = Session(user: Option<AuthUser>, profile: Option<ProfileRow>)

  predicate SignedIn(session: Session) {
    session.user.Some? && session.profile.Some?
  }

  datatype WriteStep = InvestmentRowWrite | TransactionRowWrite | AvailabilityWrite

  /** The toast the purchase ends with. */
  datatype InvestOutcome =
    | AuthenticationRequired
    | InsufficientShares
    | InvestmentFailed(step: WriteStep)
    | Invested(totalCost: real)

  /** The database's answers to the three writes, in the order they are made. */
  datatype StoreResponses = StoreResponses(
    investmentInsert: InsertResponse,
    transactionInsert: InsertResponse,
    sharesUpdate: Ack)

  /** How many of the three writes succeed before the first failure. */
  function WritesCompleted(r: StoreResponses): (n: nat)
    ensures n <= 3
    ensures n == 3 <==> r.investmentInsert.Inserted? && r.transactionInsert.Inserted? && r.sharesUpdate.Written?
    ensures n == 0 <==> r.investmentInsert.Rejected?
    ensures n >= 1 <==> r.investmentInsert.Inserted?
    ensures n >= 2 <==> r.investmentInsert.Inserted? && r.transactionInsert.Inserted?
  {
    if r.investmentInsert.Rejected? then 0
    else if r.transactionInsert.Rejected? then 1
    else if r.sharesUpdate.WriteRejected? then 2
    else 3
  }

  /** The step the first failure happens at. */
  function FailedStep(r: StoreResponses): (step: WriteStep)
    requires WritesCompleted(r) < 3
    ensures step == InvestmentRowWrite <==> WritesCompleted(r) == 0
    ensures step == TransactionRowWrite <==> WritesCompleted(r) == 1
    ensures step == AvailabilityWrite <==> WritesCompleted(r) == 2
  {
    if r.investmentInsert.Rejected? then InvestmentRowWrite
    else if r.transactionInsert.Rejected? then TransactionRowWrite
    else AvailabilityWrite
  }

  /**
   * The quantity check: only more shares than the card shows as available
   * are refused, which is exactly what keeps the availability written back
   * from going negative.
   */
  predicate QuantityAdmitted(shares: int, course: CourseRow)
    ensures QuantityAdmitted(shares, course) <==> RemainingShares(course, shares) >= 0
  {
    !(shares > course.availableShares)
  }

  /** The `available_shares` written back after buying `shares`. */
  function RemainingShares(course: CourseRow, shares: int): int {
    course.availableShares - shares
  }

  /**
   * An admitted purchase leaves the availability within `[0, old)` exactly
   * when at least one share is bought; the check itself admits zero and
   * negative quantities, which leave availability unchanged or raise it.
   */
  lemma RemainingSharesRange(course: CourseRow, shares: int)
    requires QuantityAdmitted(shares, course)
    ensures 0 <= RemainingShares(course, shares) < course.availableShares <==> shares >= 1
    ensures shares <= 0 ==> RemainingShares(course, shares) >= course.availableShares
    ensures shares == 0 ==> RemainingShares(course, shares) == course.availableShares
    ensures shares < 0 ==> RemainingShares(course, shares) > course.availableShares
  {
  }

  /** The investment row inserted for a purchase. */
  function NewInvestment(buyerId: string, course: CourseRow, shares: int): (ins: InvestmentInsert)
    ensures ins.sharesOwned == shares
    ensures ins.purchasePrice == ins.currentValue == shares as real * course.sharePrice
    ensures ins.investorId == buyerId && ins.courseId == course.id
  {
    var totalCost := shares as real * course.sharePrice;
    Schema.InvestmentInsert(course.id, totalCost, None, buyerId, totalCost, None, shares, None, None, None)
  }

  /** The transaction row recorded for a purchase, linked to the investment row. */
  function NewTransaction(buyerId: string, course: CourseRow, investmentId: string, shares: int): (ins: TransactionInsert)
    ensures ins.kind == TransactionType.Investment
    ensures ins.amount == shares as real * course.sharePrice && ins.shares == Some(shares)
    ensures ins.userId == buyerId && ins.courseId == Some(course.id) && ins.investmentId == Some(investmentId)
  {
    Schema.TransactionInsert(shares as real * course.sharePrice, Some(course.id), None,
                      Some("Investment in " + course.title), None, Some(investmentId),
                      Some(shares), TransactionType.Investment, buyerId)
  }

  /**
   * A freshly bought investment is valued at what was paid, so its ROI
   * badge reads 0, and it adds the cost to both the invested total and
   * the portfolio value of the investor's dashboard.
   */
  lemma FreshInvestmentOnDashboard(rows: seq<InvestmentRow>, buyerId: string, course: CourseRow, shares: int, id: string)
    ensures var inv := InvestmentRowOf(NewInvestment(buyerId, course, shares), id);
      && InvestorDashboard.CalculateRoi(inv) == 0.0
      && InvestorDashboard.InvestorStatsOf(rows + [inv]).totalInvested
         == InvestorDashboard.InvestorStatsOf(rows).totalInvested + shares as real * course.sharePrice
      && InvestorDashboard.InvestorStatsOf(rows + [inv]).portfolioValue
         == InvestorDashboard.InvestorStatsOf(rows).portfolioValue + shares as real * course.sharePrice
  {
    var inv := InvestmentRowOf(NewInvestment(buyerId, course, shares), id);
    InvestorDashboard.InvestorStatsAfterInsert(rows, inv);
  }

  function SoldShares(c: CourseRow): int {
    c.totalShares - c.availableShares
  }

  /**
   * The advertised ROI: 0 unless the course has positive revenue; otherwise
   * the shareholders' part of the revenue over the price of the sold shares,
   * in percent. With nothing sold (or a zero price) that division has no
   * finite value (`None`).
   */
  function AdvertisedRoi(c: CourseRow): (r: Option<real>)
    ensures c.totalRevenue.GetOr(0.0) <= 0.0 ==> r == Some(0.0)
    ensures c.totalRevenue.GetOr(0.0) > 0.0 ==> (r.None? <==> c.sharePrice * SoldShares(c) as real == 0.0)
    ensures c.totalRevenue.GetOr(0.0) > 0.0 && r.Some? ==>
      r.value * (c.sharePrice * SoldShares(c) as real) == c.totalRevenue.GetOr(0.0) * c.revenueSharePercentage as real
    ensures c.totalRevenue.GetOr(0.0) > 0.0 && c.revenueSharePercentage > 0 && c.sharePrice > 0.0 && SoldShares(c) > 0 ==>
      r.Some? && r.value > 0.0
  {
    var revenue := c.totalRevenue.GetOr(0.0);
    if revenue > 0.0 then
      var invested := c.sharePrice * SoldShares(c) as real;
      if invested == 0.0 then None
      else
        var pool := revenue * c.revenueSharePercentage as real / 100.0;
        assert pool / invested * invested == pool;
        Some(pool / invested * 100.0)
    else Some(0.0)
  }

  class InvestCard {
    const store: Store
    var courseData: CourseRow
    var investing: bool
    var shares: int
    /** How many times `onInvestment` has been called. */
    var investmentNotices: nat

    constructor (store: Store, course: CourseRow)
      ensures this.store == store && courseData == course
      ensures !investing && shares == 1 && investmentNotices == 0
    {
      this.store := store;
      courseData := course;
      investing := false;
      shares := 1;
      investmentNotices := 0;
    }

    /** `handleInvest`. */
    method HandleInvest(session: Session, responses: StoreResponses) returns (outcome: InvestOutcome)
      modifies this`investing, this`shares, this`investmentNotices, store
      // refused before anything is written
      ensures !SignedIn(session) ==> outcome == AuthenticationRequired && unchanged(this) && unchanged(store)
      ensures SignedIn(session) && !QuantityAdmitted(old(shares), courseData) ==>
        outcome == InsufficientShares && unchanged(this) && unchanged(store)
      // admitted: the writes up to the first failure are made, none after it
      ensures SignedIn(session) && QuantityAdmitted(old(shares), courseData) ==>
        var buyer := session.user.value.id;
        var done := WritesCompleted(responses);
        && !investing
        && store.investments == old(store.investments)
             + (if done >= 1 then [InvestmentRowOf(NewInvestment(buyer, courseData, old(shares)), responses.investmentInsert.id)] else [])
        && store.transactions == old(store.transactions)
             + (if done >= 2 then [TransactionRowOf(NewTransaction(buyer, courseData, responses.investmentInsert.id, old(shares)), responses.transactionInsert.id)] else [])
        && store.courses == (if done == 3 then UpdateCoursesWhereId(old(store.courses), courseData.id, SetAvailableShares(RemainingShares(courseData, old(shares))))
                             else old(store.courses))
        && (done == 3 ==> outcome == Invested(old(shares) as real * courseData.sharePrice)
                          && shares == 1 && investmentNotices == old(investmentNotices) + 1)
        && (done < 3 ==> outcome == InvestmentFailed(FailedStep(responses))
                         && shares == old(shares) && investmentNotices == old(investmentNotices))
    {
      if !SignedIn(session) {
        return AuthenticationRequired;
      }
      if shares > courseData.availableShares {
        return InsufficientShares;
      }
      investing := true;
      var buyer := session.user.value.id;
      var totalCost := shares as real * courseData.sharePrice;

      var investment := store.InsertInvestment(NewInvestment(buyer, courseData, shares), responses.investmentInsert);
      if investment.None? {
        outcome := InvestmentFailed(InvestmentRowWrite);
      } else {
        var recorded := store.InsertTransaction(NewTransaction(buyer, courseData, investment.value.id, shares),
                                                responses.transactionInsert);
        if !recorded {
          outcome := InvestmentFailed(TransactionRowWrite);
        } else {
          var updated := store.UpdateCourse(courseData.id, SetAvailableShares(courseData.availableShares - shares),
                                            responses.sharesUpdate);
          if !updated {
            outcome := InvestmentFailed(AvailabilityWrite);
          } else {
            outcome := Invested(totalCost);
            shares := 1;
            investmentNotices := investmentNotices + 1;
          }
        }
      }
      investing := false;
    }
  }
}
