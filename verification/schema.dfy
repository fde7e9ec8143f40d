/**
 * The database schema of the marketplace: the four enumerations, their
 * constant value lists, and the row / insert / update shapes of the
 * `courses`, `investments`, `transactions` and `profiles` tables
 * (src/integrations/supabase/types.ts).
 *
 * A column typed `T | null` is an `Option<T>`; a column an insert or
 * update may leave out (`col?: T`) is an `Option<T>` as well, and a
 * nullable column an update may leave out is an `Option<Option<T>>`
 * (absent = keep, `Some(None)` = set to null). Money columns are `real`,
 * share counts and percentages `int`; timestamps and uuids are strings.
 */
module Schema {

  datatype Option<+T> = None | Some(value: T) {
    function GetOr(default: T): T {
      match this
      case Some(v) => v
      case None => default
    }
  }

  // ---------------------------------------------------------------------
  // Enumerations and their constant lists

  datatype CourseStatus = Draft | Active | Paused | Completed {
    function Label(): string {
      match this
      case Draft => "draft"
      case Active => "active"
      case Paused => "paused"
      case Completed => "completed"
    }
  }

  datatype InvestmentStatus = Active | Sold | Pending {
    function Label(): string {
      match this
      case Active => "active"
      case Sold => "sold"
      case Pending => "pending"
    }
  }

  datatype TransactionType = CoursePurchase | Investment | RevenueShare | ShareSale {
    function Label(): string {
      match this
      case CoursePurchase => "course_purchase"
      case Investment => "investment"
      case RevenueShare => "revenue_share"
      case ShareSale => "share_sale"
    }
  }

  datatype UserRole = Creator | Investor | Admin {
    function Label(): string {
      match this
      case Creator => "creator"
      case Investor => "investor"
      case Admin => "admin"
    }
  }

  /** The enumerations in declaration order. */
  const CourseStatuses: seq<CourseStatus> := [Draft, CourseStatus.Active, Paused, Completed]
  const InvestmentStatuses: seq<InvestmentStatus> := [InvestmentStatus.Active, Sold, Pending]
  const TransactionTypes: seq<TransactionType> := [CoursePurchase, Investment, RevenueShare, ShareSale]
  const UserRoles: seq<UserRole> := [Creator, Investor, Admin]

  /** The exported `Constants.public.Enums` arrays. */
  const CourseStatusValues: seq<string> := ["draft", "active", "paused", "completed"]
  const InvestmentStatusValues: seq<string> := ["active", "sold", "pending"]
  const TransactionTypeValues: seq<string> := ["course_purchase", "investment", "revenue_share", "share_sale"]
  const UserRoleValues: seq<string> := ["creator", "investor", "admin"]

  /** Reading a stored label back: only the listed labels are statuses. */
  function ParseCourseStatus(s: string): (r: Option<CourseStatus>)
    ensures r.Some? <==> s in CourseStatusValues
    ensures r.Some? ==> r.value.Label() == s
  {
    if s == "draft" then Some(Draft)
    else if s == "active" then Some(CourseStatus.Active)
    else if s == "paused" then Some(Paused)
    else if s == "completed" then Some(Completed)
    else None
  }

  function ParseInvestmentStatus(s: string): (r: Option<InvestmentStatus>)
    ensures r.Some? <==> s in InvestmentStatusValues
    ensures r.Some? ==> r.value.Label() == s
  {
    if s == "active" then Some(InvestmentStatus.Active)
    else if s == "sold" then Some(Sold)
    else if s == "pending" then Some(Pending)
    else None
  }

  function ParseTransactionType(s: string): (r: Option<TransactionType>)
    ensures r.Some? <==> s in TransactionTypeValues
    ensures r.Some? ==> r.value.Label() == s
  {
    if s == "course_purchase" then Some(CoursePurchase)
    else if s == "investment" then Some(Investment)
    else if s == "revenue_share" then Some(RevenueShare)
    else if s == "share_sale" then Some(ShareSale)
    else None
  }

  function ParseUserRole(s: string): (r: Option<UserRole>)
    ensures r.Some? <==> s in UserRoleValues
    ensures r.Some? ==> r.value.Label() == s
  {
    if s == "creator" then Some(Creator)
    else if s == "investor" then Some(Investor)
    else if s == "admin" then Some(Admin)
    else None
  }

  /** `Constants` lists exactly the labels of `course_status`, in declaration order. */
  lemma CourseStatusConstants()
    ensures |CourseStatuses| == |CourseStatusValues|
    ensures forall i :: 0 <= i < |CourseStatuses| ==> CourseStatuses[i].Label() == CourseStatusValues[i]
    ensures forall st: CourseStatus :: st in CourseStatuses && ParseCourseStatus(st.Label()) == Some(st)
  {
    forall st: CourseStatus ensures st in CourseStatuses && ParseCourseStatus(st.Label()) == Some(st) {
      match st
      case Draft => assert CourseStatuses[0] == st;
      case Active => assert CourseStatuses[1] == st;
      case Paused => assert CourseStatuses[2] == st;
      case Completed => assert CourseStatuses[3] == st;
    }
  }

  lemma InvestmentStatusConstants()
    ensures |InvestmentStatuses| == |InvestmentStatusValues|
    ensures forall i :: 0 <= i < |InvestmentStatuses| ==> InvestmentStatuses[i].Label() == InvestmentStatusValues[i]
    ensures forall st: InvestmentStatus :: st in InvestmentStatuses && ParseInvestmentStatus(st.Label()) == Some(st)
  {
    forall st: InvestmentStatus ensures st in InvestmentStatuses && ParseInvestmentStatus(st.Label()) == Some(st) {
      match st
      case Active => assert InvestmentStatuses[0] == st;
      case Sold => assert InvestmentStatuses[1] == st;
      case Pending => assert InvestmentStatuses[2] == st;
    }
  }

  lemma TransactionTypeConstants()
    ensures |TransactionTypes| == |TransactionTypeValues|
    ensures forall i :: 0 <= i < |TransactionTypes| ==> TransactionTypes[i].Label() == TransactionTypeValues[i]
    ensures forall t: TransactionType :: t in TransactionTypes && ParseTransactionType(t.Label()) == Some(t)
  {
    forall t: TransactionType ensures t in TransactionTypes && ParseTransactionType(t.Label()) == Some(t) {
      match t
      case CoursePurchase => assert TransactionTypes[0] == t;
      case Investment => assert TransactionTypes[1] == t;
      case RevenueShare => assert TransactionTypes[2] == t;
      case ShareSale => assert TransactionTypes[3] == t;
    }
  }

  lemma UserRoleConstants()
    ensures |UserRoles| == |UserRoleValues|
    ensures forall i :: 0 <= i < |UserRoles| ==> UserRoles[i].Label() == UserRoleValues[i]
    ensures forall role: UserRole :: role in UserRoles && ParseUserRole(role.Label()) == Some(role)
  {
    forall role: UserRole ensures role in UserRoles && ParseUserRole(role.Label()) == Some(role) {
      match role
      case Creator => assert UserRoles[0] == role;
      case Investor => assert UserRoles[1] == role;
      case Admin => assert UserRoles[2] == role;
    }
  }

  // ---------------------------------------------------------------------
  // courses

  datatype CourseRow = CourseRow(
    availableShares: int,
    category: Option<string>,
    createdAt: Option<string>,
    creatorId: string,
    description: Option<string>,
    id: string,
    imageUrl: Option<string>,
    price: real,
    revenueSharePercentage: int,
    sharePrice: real,
    status: Option<CourseStatus>,
    studentCount: Option<int>,
    title: string,
    totalRevenue: Option<real>,
    totalShares: int,
    updatedAt: Option<string>)

  /** An insert must supply the seven non-optional columns; the rest may be left out. */
  datatype CourseInsert = CourseInsert(
    availableShares: int,
    category: Option<string>,
    createdAt: Option<string>,
    creatorId: string,
    description: Option<string>,
    id: Option<string>,
    imageUrl: Option<string>,
    price: real,
    revenueSharePercentage: int,
    sharePrice: real,
    status: Option<CourseStatus>,
    studentCount: Option<int>,
    title: string,
    totalRevenue: Option<real>,
    totalShares: int,
    updatedAt: Option<string>)

  /** Every column of an update is optional. */
  datatype CourseUpdate = CourseUpdate(
    availableShares: Option<int>,
    category: Option<Option<string>>,
    createdAt: Option<Option<string>>,
    creatorId: Option<string>,
    description: Option<Option<string>>,
    id: Option<string>,
    imageUrl: Option<Option<string>>,
    price: Option<real>,
    revenueSharePercentage: Option<int>,
    sharePrice: Option<real>,
    status: Option<Option<CourseStatus>>,
    studentCount: Option<Option<int>>,
    title: Option<string>,
    totalRevenue: Option<Option<real>>,
    totalShares: Option<int>,
    updatedAt: Option<Option<string>>)

  const NoCourseChange: CourseUpdate :=
    CourseUpdate(None, None, None, None, None, None, None, None, None, None, None, None, None, None, None, None)

  /** The update `{ available_shares: n }`. */
  function SetAvailableShares(n: int): CourseUpdate {
    NoCourseChange.(availableShares := Some(n))
  }

  /** An update overwrites exactly the columns it supplies. */
  function ApplyCourseUpdate(row: CourseRow, u: CourseUpdate): (r: CourseRow)
    ensures u == NoCourseChange ==> r == row
    ensures (u.availableShares.Some? ==> r.availableShares == u.availableShares.value) && (u.availableShares.None? ==> r.availableShares == row.availableShares)
    ensures (u.category.Some? ==> r.category == u.category.value) && (u.category.None? ==> r.category == row.category)
    ensures (u.createdAt.Some? ==> r.createdAt == u.createdAt.value) && (u.createdAt.None? ==> r.createdAt == row.createdAt)
    ensures (u.creatorId.Some? ==> r.creatorId == u.creatorId.value) && (u.creatorId.None? ==> r.creatorId == row.creatorId)
    ensures (u.description.Some? ==> r.description == u.description.value) && (u.description.None? ==> r.description == row.description)
    ensures (u.id.Some? ==> r.id == u.id.value) && (u.id.None? ==> r.id == row.id)
    ensures (u.imageUrl.Some? ==> r.imageUrl == u.imageUrl.value) && (u.imageUrl.None? ==> r.imageUrl == row.imageUrl)
    ensures (u.price.Some? ==> r.price == u.price.value) && (u.price.None? ==> r.price == row.price)
    ensures (u.revenueSharePercentage.Some? ==> r.revenueSharePercentage == u.revenueSharePercentage.value) && (u.revenueSharePercentage.None? ==> r.revenueSharePercentage == row.revenueSharePercentage)
    ensures (u.sharePrice.Some? ==> r.sharePrice == u.sharePrice.value) && (u.sharePrice.None? ==> r.sharePrice == row.sharePrice)
    ensures (u.status.Some? ==> r.status == u.status.value) && (u.status.None? ==> r.status == row.status)
    ensures (u.studentCount.Some? ==> r.studentCount == u.studentCount.value) && (u.studentCount.None? ==> r.studentCount == row.studentCount)
    ensures (u.title.Some? ==> r.title == u.title.value) && (u.title.None? ==> r.title == row.title)
    ensures (u.totalRevenue.Some? ==> r.totalRevenue == u.totalRevenue.value) && (u.totalRevenue.None? ==> r.totalRevenue == row.totalRevenue)
    ensures (u.totalShares.Some? ==> r.totalShares == u.totalShares.value) && (u.totalShares.None? ==> r.totalShares == row.totalShares)
    ensures (u.updatedAt.Some? ==> r.updatedAt == u.updatedAt.value) && (u.updatedAt.None? ==> r.updatedAt == row.updatedAt)
  {
    CourseRow(
      u.availableShares.GetOr(row.availableShares),
      u.category.GetOr(row.category),
      u.createdAt.GetOr(row.createdAt),
      u.creatorId.GetOr(row.creatorId),
      u.description.GetOr(row.description),
      u.id.GetOr(row.id),
      u.imageUrl.GetOr(row.imageUrl),
      u.price.GetOr(row.price),
      u.revenueSharePercentage.GetOr(row.revenueSharePercentage),
      u.sharePrice.GetOr(row.sharePrice),
      u.status.GetOr(row.status),
      u.studentCount.GetOr(row.studentCount),
      u.title.GetOr(row.title),
      u.totalRevenue.GetOr(row.totalRevenue),
      u.totalShares.GetOr(row.totalShares),
      u.updatedAt.GetOr(row.updatedAt))
  }

  /** Applying the same update again changes nothing more. */
  lemma ApplyCourseUpdateIdempotent(row: CourseRow, u: CourseUpdate)
    ensures ApplyCourseUpdate(ApplyCourseUpdate(row, u), u) == ApplyCourseUpdate(row, u)
  {
  }

  /** Setting `available_shares` changes that column and nothing else; applying it twice is applying it once. */
  lemma SetAvailableSharesOnly(row: CourseRow, n: int)
    ensures ApplyCourseUpdate(row, SetAvailableShares(n)) == row.(availableShares := n)
    ensures ApplyCourseUpdate(ApplyCourseUpdate(row, SetAvailableShares(n)), SetAvailableShares(n))
         == ApplyCourseUpdate(row, SetAvailableShares(n))
  {
  }

  // ---------------------------------------------------------------------
  // investments

  datatype InvestmentRow = InvestmentRow(
    courseId: string,
    currentValue: real,
    id: string,
    investorId: string,
    purchasePrice: real,
    purchasedAt: Option<string>,
    sharesOwned: int,
    status: Option<InvestmentStatus>,
    totalEarnings: Option<real>,
    updatedAt: Option<string>)

  datatype InvestmentInsert = InvestmentInsert(
    courseId: string,
    currentValue: real,
    id: Option<string>,
    investorId: string,
    purchasePrice: real,
    purchasedAt: Option<string>,
    sharesOwned: int,
    status: Option<InvestmentStatus>,
    totalEarnings: Option<real>,
    updatedAt: Option<string>)

  // ---------------------------------------------------------------------
  // transactions (the column `type` is called `kind` here)

  datatype TransactionRow = TransactionRow(
    amount: real,
    courseId: Option<string>,
    createdAt: Option<string>,
    description: Option<string>,
    id: string,
    investmentId: Option<string>,
    shares: Option<int>,
    kind: TransactionType,
    userId: string)

  datatype TransactionInsert = TransactionInsert(
    amount: real,
    courseId: Option<string>,
    createdAt: Option<string>,
    description: Option<string>,
    id: Option<string>,
    investmentId: Option<string>,
    shares: Option<int>,
    kind: TransactionType,
    userId: string)

  // ---------------------------------------------------------------------
  // profiles

  datatype ProfileRow = ProfileRow(
    avatarUrl: Option<string>,
    bio: Option<string>,
    createdAt: Option<string>,
    fullName: Option<string>,
    id: string,
    role: Option<UserRole>,
    totalEarned: Option<real>,
    totalInvested: Option<real>,
    updatedAt: Option<string>,
    username: Option<string>)
}
