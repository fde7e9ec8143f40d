/**
 * The creator dashboard's statistics (src/components/CreatorDashboard.tsx):
 * three folds over the creator's course rows and a constant rating.
 */
module CreatorDashboard {
  import opened Schema
  import opened Seqs

  datatype CreatorStats = CreatorStats(
    totalRevenue: real,
    totalStudents: int,
    activeCourses: nat,
    avgRating: real)

  /** The rating shown, whatever the data. */
  const AvgRating: real := 4.8

  function Revenue(c: CourseRow): real { c.totalRevenue.GetOr(0.0) }
  function Students(c: CourseRow): int { c.studentCount.GetOr(0) }
  predicate IsActive(c: CourseRow) { c.status == Some(CourseStatus.Active) }

  function CreatorStatsOf(courses: seq<CourseRow>): (s: CreatorStats)
    ensures courses == [] ==> s == CreatorStats(0.0, 0, 0, AvgRating)
    ensures s.activeCourses <= |courses|
    ensures s.activeCourses == 0 <==> forall i :: 0 <= i < |courses| ==> courses[i].status != Some(CourseStatus.Active)
    ensures s.avgRating == AvgRating
  {
    CreatorStats(SumBy(courses, Revenue), SumByInt(courses, Students), CountWhere(courses, IsActive), AvgRating)
  }

  /** `fetchStats` after the query: no courses object leaves the statistics as they were. */
  function RefreshCreatorStats(prev: CreatorStats, data: Option<seq<CourseRow>>): (s: CreatorStats)
    ensures data.None? ==> s == prev
    ensures data.Some? ==> s == CreatorStatsOf(data.value)
    ensures data == Some([]) ==> s == CreatorStats(0.0, 0, 0, AvgRating)
  {
    match data
    case None => prev
    case Some(courses) => CreatorStatsOf(courses)
  }

  /** A new course row adds its revenue and students, and one active course if it is active. */
  lemma CreatorStatsAfterInsert(courses: seq<CourseRow>, c: CourseRow)
    ensures CreatorStatsOf(courses + [c]).totalRevenue == CreatorStatsOf(courses).totalRevenue + c.totalRevenue.GetOr(0.0)
    ensures CreatorStatsOf(courses + [c]).totalStudents == CreatorStatsOf(courses).totalStudents + c.studentCount.GetOr(0)
    ensures CreatorStatsOf(courses + [c]).activeCourses
         == CreatorStatsOf(courses).activeCourses + (if c.status == Some(CourseStatus.Active) then 1 else 0)
  {
    SumByAppend(courses, [c], Revenue);
    SumByIntAppend(courses, [c], Students);
    CountWhereAppend(courses, [c], IsActive);
    assert [c][..0] == [];
  }

  /** With no negative revenue in the rows, the total revenue is non-negative. */
  lemma CreatorRevenueNonNegative(courses: seq<CourseRow>)
    requires forall i :: 0 <= i < |courses| ==> courses[i].totalRevenue.GetOr(0.0) >= 0.0
    ensures CreatorStatsOf(courses).totalRevenue >= 0.0
  {
    SumByNonNegative(courses, Revenue);
  }
}
