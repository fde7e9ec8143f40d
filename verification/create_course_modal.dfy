/**
 * The course creation dialog (src/components/CreateCourseModal.tsx):
 * `handleSubmit` builds the initial course row from the form, inserts it,
 * and on success clears the form and notifies its owner.
 *
 * The numeric fields are parsed from the form's strings before the row is
 * built; the parsed numbers are an input here (`ParsedForm`).
 */
module CreateCourseModal {
  import opened Schema
  import opened Store
  import CreatorDashboard
  import RealtimeCourseCard

  /** The form's seven text fields. */
  datatype CourseForm = CourseForm(
    title: string,
    description: string,
    price: string,
    category: string,
    totalShares: string,
    sharePrice: string,
    revenueSharePercentage: string)

  const EmptyForm: CourseForm := CourseForm("", "", "", "", "", "", "")

  /** `parseFloat(price)`, `parseInt(totalShares)`, `parseFloat(sharePrice)`, `parseInt(revenueSharePercentage)`. */
  datatype ParsedForm = ParsedForm(
    price: real,
    totalShares: int,
    sharePrice: real,
    revenueSharePercentage: int)

  /**
   * The course row the dialog inserts: every share is still available, the
   * course is active and belongs to the creator. The revenue share is taken
   * as parsed, with no 0..100 check.
   */
  function NewCourse(creatorId: string, form: CourseForm, parsed: ParsedForm): (ins: CourseInsert)
    ensures ins.availableShares == ins.totalShares == parsed.totalShares
    ensures ins.status == Some(CourseStatus.Active) && ins.creatorId == creatorId
    ensures ins.revenueSharePercentage == parsed.revenueSharePercentage
    ensures ins.title == form.title && ins.price == parsed.price && ins.sharePrice == parsed.sharePrice
  {
    CourseInsert(
      parsed.totalShares, Some(form.category), None, creatorId, Some(form.description), None, None,
      parsed.price, parsed.revenueSharePercentage, parsed.sharePrice, Some(CourseStatus.Active),
      None, form.title, None, parsed.totalShares, None)
  }

  /**
   * A new course has sold nothing: its advertised ROI is 0, and on its
   * creator's dashboard it adds one active course and no revenue or students.
   */
  lemma NewCourseOnDashboards(courses: seq<CourseRow>, creatorId: string, form: CourseForm, parsed: ParsedForm, id: string)
    ensures var row := CourseRowOf(NewCourse(creatorId, form, parsed), id);
      && RealtimeCourseCard.SoldShares(row) == 0
      && RealtimeCourseCard.AdvertisedRoi(row) == Some(0.0)
      && CreatorDashboard.CreatorStatsOf(courses + [row]).activeCourses
         == CreatorDashboard.CreatorStatsOf(courses).activeCourses + 1
      && CreatorDashboard.CreatorStatsOf(courses + [row]).totalRevenue
         == CreatorDashboard.CreatorStatsOf(courses).totalRevenue
      && CreatorDashboard.CreatorStatsOf(courses + [row]).totalStudents
         == CreatorDashboard.CreatorStatsOf(courses).totalStudents
  {
    var row := CourseRowOf(NewCourse(creatorId, form, parsed), id);
    CreatorDashboard.CreatorStatsAfterInsert(courses, row);
  }

  datatype SubmitOutcome = Created | CreationFailed

  class CourseDialog {
    const store: Store
    var formData: CourseForm
    var loading: bool
    /** How many times `onSuccess` has been called. */
    var successNotices: nat

    constructor (store: Store)
      ensures this.store == store && formData == EmptyForm && !loading && successNotices == 0
    {
      this.store := store;
      formData := EmptyForm;
      loading := false;
      successNotices := 0;
    }

    /**
     * `handleSubmit`. Without a signed-in user the row has no `creator_id`,
     * a column every course row must have, so the insert is refused.
     */
    method HandleSubmit(userId: Option<string>, parsed: ParsedForm, response: InsertResponse) returns (outcome: SubmitOutcome)
      modifies this`formData, this`loading, this`successNotices, store`courses
      ensures !loading
      ensures outcome == Created <==> userId.Some? && response.Inserted?
      ensures outcome == Created ==>
        && store.courses == old(store.courses) + [CourseRowOf(NewCourse(userId.value, old(formData), parsed), response.id)]
        && formData == EmptyForm
        && successNotices == old(successNotices) + 1
      ensures outcome == CreationFailed ==>
        && store.courses == old(store.courses)
        && formData == old(formData)
        && successNotices == old(successNotices)
    {
      loading := true;
      if userId.None? {
        outcome := CreationFailed;
      } else {
        var ok := store.InsertCourse(NewCourse(userId.value, formData, parsed), response);
        if ok {
          formData := EmptyForm;
          successNotices := successNotices + 1;
          outcome := Created;
        } else {
          outcome := CreationFailed;
        }
      }
      loading := false;
    }
  }
}
