/**
 * The three tables the components write, as one sequential store. Each
 * insert or update is a single step whose success or failure (and, for an
 * insert, the id the database generates) is decided by the response given
 * to it; the network round trip itself is not modelled.
 */
module Store {
  import opened Schema

  /** What the database answers to an insert: the generated id, or an error. */
  datatype InsertResponse = Inserted(id: string) | Rejected

  /** What the database answers to an update. */
  datatype Ack = Written | WriteRejected

  /** The stored row for an insert: an id the insert leaves out is generated, and omitted columns are null. */
  function CourseRowOf(ins: CourseInsert, generatedId: string): CourseRow {
    CourseRow(ins.availableShares, ins.category, ins.createdAt, ins.creatorId, ins.description,
              ins.id.GetOr(generatedId), ins.imageUrl, ins.price, ins.revenueSharePercentage,
              ins.sharePrice, ins.status, ins.studentCount, ins.title, ins.totalRevenue,
              ins.totalShares, ins.updatedAt)
  }

  function InvestmentRowOf(ins: InvestmentInsert, generatedId: string): InvestmentRow {
    InvestmentRow(ins.courseId, ins.currentValue, ins.id.GetOr(generatedId), ins.investorId,
                  ins.purchasePrice, ins.purchasedAt, ins.sharesOwned, ins.status,
                  ins.totalEarnings, ins.updatedAt)
  }

  function TransactionRowOf(ins: TransactionInsert, generatedId: string): TransactionRow {
    TransactionRow(ins.amount, ins.courseId, ins.createdAt, ins.description,
                   ins.id.GetOr(generatedId), ins.investmentId, ins.shares, ins.kind, ins.userId)
  }

  /** `update(u).eq('id', id)`: every row with that id gets the update, the others stay as they are. */
  function UpdateCoursesWhereId(rows: seq<CourseRow>, id: string, u: CourseUpdate): (r: seq<CourseRow>)
    ensures |r| == |rows|
    ensures forall k :: 0 <= k < |rows| && rows[k].id != id ==> r[k] == rows[k]
    ensures forall k :: 0 <= k < |rows| && rows[k].id == id ==> r[k] == ApplyCourseUpdate(rows[k], u)
  {
    seq(|rows|, k requires 0 <= k < |rows| => if rows[k].id == id then ApplyCourseUpdate(rows[k], u) else rows[k])
  }

  class Store {
    var courses: seq<CourseRow>
    var investments: seq<InvestmentRow>
    var transactions: seq<TransactionRow>

    constructor ()
      ensures courses == [] && investments == [] && transactions == []
    {
      courses, investments, transactions := [], [], [];
    }

    method InsertCourse(ins: CourseInsert, response: InsertResponse) returns (ok: bool)
      modifies this`courses
      ensures ok <==> response.Inserted?
      ensures ok ==> courses == old(courses) + [CourseRowOf(ins, response.id)]
      ensures !ok ==> courses == old(courses)
    {
      ok := response.Inserted?;
      if ok {
        courses := courses + [CourseRowOf(ins, response.id)];
      }
    }

    /** `insert([ins]).select().single()`: the stored row comes back. */
    method InsertInvestment(ins: InvestmentInsert, response: InsertResponse) returns (row: Option<InvestmentRow>)
      modifies this`investments
      ensures row.Some? <==> response.Inserted?
      ensures row.Some? ==> row.value == InvestmentRowOf(ins, response.id)
      ensures row.Some? ==> investments == old(investments) + [row.value]
      ensures row.None? ==> investments == old(investments)
    {
      if response.Inserted? {
        var stored := InvestmentRowOf(ins, response.id);
        investments := investments + [stored];
        row := Some(stored);
      } else {
        row := None;
      }
    }

    method InsertTransaction(ins: TransactionInsert, response: InsertResponse) returns (ok: bool)
      modifies this`transactions
      ensures ok <==> response.Inserted?
      ensures ok ==> transactions == old(transactions) + [TransactionRowOf(ins, response.id)]
      ensures !ok ==> transactions == old(transactions)
    {
      ok := response.Inserted?;
      if ok {
        transactions := transactions + [TransactionRowOf(ins, response.id)];
      }
    }

    /** An update that matches no row is not an error: it changes nothing. */
    method UpdateCourse(id: string, u: CourseUpdate, response: Ack) returns (ok: bool)
      modifies this`courses
      ensures ok <==> response.Written?
      ensures ok ==> courses == UpdateCoursesWhereId(old(courses), id, u)
      ensures !ok ==> courses == old(courses)
    {
      ok := response.Written?;
      if ok {
        courses := UpdateCoursesWhereId(courses, id, u);
      }
    }
  }
}
