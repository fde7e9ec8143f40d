# Course share marketplace — a Dafny model of its core

The product lets creators list courses and sell "shares" in each
course's future revenue. Investors buy those shares from a course card.
Two dashboards and a marketplace page summarise the data. The
repository is mostly React pages over a hosted Postgres database. This
model covers the parts of it that compute or change something:

- **The share purchase step.** This is `handleInvest` on the live course
  card. It checks the session and the quantity. It then makes three
  writes in order: an investment row, an `investment` transaction row,
  and the course's new `available_shares`. The first failing write ends
  the purchase, and the writes before it are not undone.
- **Course creation.** The creation dialog builds the initial course
  row. Every share starts out available, and the status starts as
  `active`.
- **The derived figures.** These are the advertised course ROI, the
  per-investment ROI, the investor and creator dashboard totals, the
  sold-shares percentage, and the colour tier of the ROI badge.
- **The marketplace listing.** This is a case-insensitive search,
  then a category filter, then a stable sort on one of three keys.
- **The schema.** This covers the four enumerations and their constant
  lists, and the row, insert and update shapes of the tables above.

Files:

- `schema.dfy`: module `Schema`, the schema.
- `store.dfy`: module `Store`, class `Store.Store`. These are the three
  tables as sequences. Each insert or update is one step. Whether it
  succeeds, and which id the database generates, is a parameter.
- `realtime_course_card.dfy`: module `RealtimeCourseCard`. It holds
  class `InvestCard`, with the card's state and `HandleInvest`, and the
  advertised ROI.
- `create_course_modal.dfy`: module `CreateCourseModal`. It holds class
  `CourseDialog`, with the form state and `HandleSubmit`.
- `investor_dashboard.dfy` and `creator_dashboard.dfy`: the statistics
  folds.
- `course_card.dfy` and `marketplace.dfy`: the listing card and the
  listing pipeline.
- `seqs.dfy`: the array operations the above are built from. These are
  `reduce` as a left-folded sum, `filter(...).length`, `filter`, and a
  stable sort by an integer key.

Modelling choices:

- Money columns are `real`. Share counts and percentages are `int`.
  The listing card's fields are `int`.
- A nullable column is an `Option`.
- A division whose JavaScript result would be `NaN` or `Infinity` gives
  `None`.

### What the code does not do

- There is no reservation and no rollback. A failed transaction insert
  leaves the investment row in place and leaves `available_shares`
  unchanged.
- Every purchase inserts a new investment row. Repeated purchases of
  one course are never merged.
- Nothing distributes revenue to holders.
- Quantities of zero or less are not rejected. The only check is
  `shares > available_shares`.
- The guard and the new availability use the card's own copy of the
  course row, not the stored row.

## Model

| member | source | states |
|---|---|---|
| Schema.ParseCourseStatus | src/integrations/supabase/types.ts:236 | A label reads as a course status iff it is one of draft/active/paused/completed, and the status's label is that string |
| Schema.ParseInvestmentStatus | src/integrations/supabase/types.ts:237 | A label reads as an investment status iff it is one of active/sold/pending, and it reads back to its own label |
| Schema.ParseTransactionType | src/integrations/supabase/types.ts:238-242 | A label reads as a transaction type iff it is one of course_purchase/investment/revenue_share/share_sale, and it reads back to its own label |
| Schema.ParseUserRole | src/integrations/supabase/types.ts:243 | A label reads as a role iff it is one of creator/investor/admin, and it reads back to its own label |
| Schema.CourseStatusConstants | src/integrations/supabase/types.ts:359 | `Constants` lists exactly the course_status labels, in declaration order, and every status parses back from its label |
| Schema.InvestmentStatusConstants | src/integrations/supabase/types.ts:360 | `Constants` lists exactly the investment_status labels, in declaration order; every status round-trips |
| Schema.TransactionTypeConstants | src/integrations/supabase/types.ts:361-366 | `Constants` lists exactly the transaction_type labels, in declaration order; every type round-trips |
| Schema.UserRoleConstants | src/integrations/supabase/types.ts:367 | `Constants` lists exactly the user_role labels, in declaration order; every role round-trips |
| Schema.ApplyCourseUpdate | src/integrations/supabase/types.ts:49-66 | For each of the sixteen columns, a supplied value replaces the row's and an omitted one keeps it; the update that supplies nothing leaves the row as it was |
| Schema.ApplyCourseUpdateIdempotent | src/integrations/supabase/types.ts:49-66 | Applying the same update a second time changes nothing more |
| Schema.SetAvailableSharesOnly | src/components/RealtimeCourseCard.tsx:107-109 | The `{ available_shares }` update changes that column and no other, and applying it twice equals applying it once |
| Store.UpdateCoursesWhereId | src/components/RealtimeCourseCard.tsx:105-110 | Updating where `id` matches keeps the table's length and changes only rows with that id; a missing id changes nothing |
| Store.Store.InsertCourse | src/components/CreateCourseModal.tsx:37-50 | A course insert appends exactly the stored row when accepted and leaves the table as it was when refused |
| Store.Store.InsertInvestment | src/components/RealtimeCourseCard.tsx:75-87 | An investment insert returns the stored row and appends it when accepted; when refused, it returns nothing and the table is unchanged |
| Store.Store.InsertTransaction | src/components/RealtimeCourseCard.tsx:90-102 | A transaction insert appends exactly the stored row when accepted; the table is unchanged when refused |
| Store.Store.UpdateCourse | src/components/RealtimeCourseCard.tsx:105-112 | A course update applies to the matching rows when accepted; the table is unchanged when refused |
| RealtimeCourseCard.InvestCard.constructor | src/components/RealtimeCourseCard.tsx:17-19 | The card starts from the given course row, not investing, with a quantity of 1 |
| RealtimeCourseCard.InvestCard.HandleInvest | src/components/RealtimeCourseCard.tsx:50-130 | No user or no profile: authentication is required and nothing changes. More shares than available: refused and nothing changes. Otherwise the investment row, the transaction row and the availability update are written in that order, each only if all before it succeeded. Earlier writes stay after a failure. The outcome names the failing step. On full success the cost is shares × share_price, the quantity resets to 1 and `onInvestment` is called once. `investing` is false afterwards in every admitted case |
| RealtimeCourseCard.WritesCompleted | src/components/RealtimeCourseCard.tsx:87-112 | The number of writes that succeed before the first failure: at least 1 iff the investment insert succeeds, at least 2 iff the transaction insert succeeds too, 3 iff all three succeed |
| RealtimeCourseCard.FailedStep | src/components/RealtimeCourseCard.tsx:87-126 | The failure reported is the investment insert iff no write succeeded, the transaction insert iff exactly one did, and the availability update iff exactly two did |
| RealtimeCourseCard.QuantityAdmitted | src/components/RealtimeCourseCard.tsx:60 | A quantity is admitted exactly when the availability written back for it is not negative |
| RealtimeCourseCard.NewInvestment | src/components/RealtimeCourseCard.tsx:72-83 | The investment row owns the bought shares, has purchase price = current value = shares × share price, and references the buyer and the course |
| RealtimeCourseCard.NewTransaction | src/components/RealtimeCourseCard.tsx:91-100 | The transaction is of type `investment`, its amount is the total cost and its shares the quantity, and it links the buyer, the course and the new investment |
| RealtimeCourseCard.RemainingSharesRange | src/components/RealtimeCourseCard.tsx:60-108 | For an admitted quantity, the new availability lies in [0, old) iff at least one share is bought; zero quantities leave it equal, and negative ones raise it |
| RealtimeCourseCard.FreshInvestmentOnDashboard | src/components/RealtimeCourseCard.tsx:77-83 | A newly bought investment shows 0 % ROI and raises the investor's invested total and portfolio value by exactly its cost |
| RealtimeCourseCard.AdvertisedRoi | src/components/RealtimeCourseCard.tsx:132-134 | 0 when revenue is absent or ≤ 0. Otherwise it is the shareholders' revenue part over share_price × sold shares, in percent. It is undefined exactly when that product is 0, and positive for positive revenue, share, price and sales |
| CreateCourseModal.NewCourse | src/components/CreateCourseModal.tsx:39-50 | The new course has available_shares = total_shares, status `active`, the user as creator, and the revenue share exactly as entered (no 0–100 check) |
| CreateCourseModal.NewCourseOnDashboards | src/components/CreateCourseModal.tsx:45-49 | A created course has sold nothing, advertises 0 % ROI, and adds one active course and no revenue or students to its creator's totals |
| CreateCourseModal.CourseDialog.constructor | src/components/CreateCourseModal.tsx:19-28 | The dialog starts with every form field empty and not loading |
| CreateCourseModal.CourseDialog.HandleSubmit | src/components/CreateCourseModal.tsx:32-79 | On an accepted insert, the new course row is appended, every field is reset to "" and `onSuccess` is called once. On an error, the table and the form are unchanged and `onSuccess` is not called. `loading` is false afterwards either way |
| InvestorDashboard.InvestorStatsOf | src/components/InvestorDashboard.tsx:80-83 | The active-investment count never exceeds the number of investments, and equals it iff every investment is active |
| InvestorDashboard.RefreshInvestorStats | src/components/InvestorDashboard.tsx:79-91 | No data leaves the statistics unchanged. Otherwise they become exactly the four folds of the returned rows, so an empty result resets them to zero |
| InvestorDashboard.InvestorStatsAfterInsert | src/components/InvestorDashboard.tsx:80-83 | One more row adds its purchase price, its earnings (null as 0) and its current value to the three sums, and adds one to the count iff it is active |
| InvestorDashboard.PortfolioGain | src/components/InvestorDashboard.tsx:80-82 | Portfolio value minus total invested is the sum of the per-investment gains |
| InvestorDashboard.CalculateRoi | src/components/InvestorDashboard.tsx:94-97 | 0 when the purchase price is 0. Otherwise ROI × price = (value − price) × 100. For a positive price it is ≥ 0 iff value ≥ price, and 0 iff value = price |
| InvestorDashboard.NoLossPortfolio | src/components/InvestorDashboard.tsx:80-97 | If every holding has a positive price and a non-negative ROI, the portfolio value is at least the total invested |
| InvestorDashboard.InvestorTotalsNonNegative | src/components/InvestorDashboard.tsx:80-82 | With no negative amounts in the rows, the three sums are non-negative |
| CreatorDashboard.CreatorStatsOf | src/components/CreatorDashboard.tsx:73-81 | Active courses never exceed the course count, and are 0 iff no course is active. The rating is the constant 4.8 whatever the data |
| CreatorDashboard.RefreshCreatorStats | src/components/CreatorDashboard.tsx:72-83 | No courses object leaves the statistics unchanged. Otherwise they become exactly the three folds of the returned rows with rating 4.8, so an empty result gives zeros and 4.8 |
| CreatorDashboard.CreatorStatsAfterInsert | src/components/CreatorDashboard.tsx:73-75 | One more course adds its revenue (null as 0) and its students (null as 0), and adds one active course iff its status is active |
| CreatorDashboard.CreatorRevenueNonNegative | src/components/CreatorDashboard.tsx:73 | With no negative revenue in the rows, the total revenue is non-negative |
| CourseCard.SharesPercentage | src/components/CourseCard.tsx:36 | Undefined iff total is 0. Otherwise percentage × total = sold × 100. It lies in [0, 100] when 0 ≤ available ≤ total. It is 0 when nothing is sold and 100 when sold out |
| CourseCard.RoiTier | src/components/CourseCard.tsx:54-58 | Green iff roi > 200, yellow iff 100 < roi ≤ 200, blue iff roi ≤ 100 (exhaustive and exclusive) |
| CourseCard.RoiTierMonotone | src/components/CourseCard.tsx:54-58 | A higher ROI never gets a lower tier |
| Seqs.SumByAppend | src/components/InvestorDashboard.tsx:80-82 | A `reduce` sum over two lists joined is the sum of the two sums |
| Seqs.SumByIntAppend | src/components/CreatorDashboard.tsx:74 | The integer `reduce` sum over two lists joined is the sum of the two sums |
| Seqs.CountWhereAppend | src/components/CreatorDashboard.tsx:75 | `filter(p).length` over two lists joined is the sum of the two counts |
| Seqs.CountWhere | src/components/InvestorDashboard.tsx:83 | `filter(p).length` is at most the length; it equals it iff p holds everywhere, and is 0 iff p holds nowhere |
| Seqs.Filter | src/pages/marketplace.tsx:112-118 | Keeps exactly the elements satisfying the predicate: each kept one satisfies it, each satisfying one is kept, and the result is a sub-multiset of the input |
| Seqs.FilterAppend | src/pages/marketplace.tsx:112-118 | Filtering two lists joined is joining their filters, so the kept elements stay in input order |
| Seqs.FilterSingleton | src/pages/marketplace.tsx:112-118 | A one-element list is kept iff the predicate holds of its element |
| Seqs.SortByKey | src/pages/marketplace.tsx:119-124 | The sort's result is ordered by the key and is a permutation of its input |
| Seqs.SortByConstantKey | src/pages/marketplace.tsx:123 | When every key is equal the stable sort returns its input unchanged |
| Seqs.SortByKeyStable | src/pages/marketplace.tsx:119-124 | The sort is stable: for every key value, the elements with that key come out in their input order |
| Marketplace.Lower | src/pages/marketplace.tsx:113-117 | `toLowerCase` keeps the length, turns each ASCII capital into its own lower-case letter, and keeps every other character in place |
| Marketplace.LowerIdempotent | src/pages/marketplace.tsx:113-117 | Lower-casing twice is lower-casing once |
| Marketplace.SearchIgnoresCase | src/pages/marketplace.tsx:113-114 | A search term and its lower-cased form match exactly the same courses |
| Marketplace.ContainsOccurrence | src/pages/marketplace.tsx:113-114 | `includes` holds exactly when the term occurs at some position of the text |
| Marketplace.Compare | src/pages/marketplace.tsx:119-124 | The comparator is the difference of a key: −roi, share price, −students, or 0 for any other sort |
| Marketplace.Matching | src/pages/marketplace.tsx:111-118 | After the two filters, every course matches search and category, every matching course is kept, and nothing is added |
| Marketplace.MatchingAppend | src/pages/marketplace.tsx:111-118 | The two filters keep the array's order: a joined list is matched part by part |
| Marketplace.MatchingSingleton | src/pages/marketplace.tsx:111-118 | One course is kept iff it matches both the search and the category |
| Marketplace.SortedByKeyIsComparatorOrder | src/pages/marketplace.tsx:119-124 | Ordered by the key means ordered by the page's comparator: it is ≤ 0 for every earlier/later pair |
| Marketplace.FilteredCourses | src/pages/marketplace.tsx:111-124 | Every listed course contains the lower-cased term in its title or creator and has the selected category (or `all`). Every such course is listed. Nothing else is added, and the count is at most the input's. Neighbours are in the comparator's order |
| Marketplace.ListingIsPermutation | src/pages/marketplace.tsx:111-124 | The listing is a permutation of the filtered courses and keeps every copy of each matching course |
| Marketplace.EmptyQueryListsEverything | src/pages/marketplace.tsx:112-118 | An empty search with category `all` lists every course |
| Marketplace.ListingOrder | src/pages/marketplace.tsx:120-122 | `roi` gives non-increasing ROI, `price` non-decreasing share price, `students` non-increasing students |
| Marketplace.ListingStable | src/pages/marketplace.tsx:111-124 | Courses that the chosen sort ties (equal key) are listed in the order the filters left them |
| Marketplace.OtherSortKeepsOrder | src/pages/marketplace.tsx:123 | Any other sort key leaves the filtered order unchanged |

## Left out

- The realtime subscriptions on the card and both dashboards are not modelled. Neither are the queries that load rows. The dashboards' folds take the query result as an input, `None` standing for no data.
- Network I/O is not modelled. Each database write is one step whose success and generated id are parameters. The error message shown in a toast is reduced to the failing step.
- Concurrency is not modelled: two cards can read the same `available_shares` and oversell. The model is one sequential step.
- Database column defaults are not part of the repository. Columns an insert omits are stored as null. For example, a new investment's `status` and `total_earnings` are null, so the model does not say whether a new investment counts as active.
- With no signed-in user, the creation dialog sends no `creator_id`. The model treats that insert as refused, because every course row must have a creator.
- Floating point is not modelled. Money is `real` and exact. `toFixed(1)`, `toLocaleString` and `Intl.NumberFormat` formatting are left out. Parsing the form's strings is left out: the parsed numbers are an input to the dialog.
- CreateCourseModal.ParsedForm: a `NaN` from `parseInt` or `parseFloat` is not represented, because its fields hold only numbers. In the source a `NaN` is sent as null into a column that must not be null. The model can stand for that only by a refused insert response.
- Marketplace.Lower: `toLowerCase` is modelled on ASCII letters only. Characters outside A-Z are kept as they are, so Unicode case mapping is not modelled.
- The card's local state updates are not modelled. These are the `courseData` refresh from the subscription and the `investing` flag while the writes are in flight. Only the state after the step is stated.
- JSX, toasts, the role check that shows the purchase panel, the disabled button, the mock data on the pages and the `StatsCard` trend colour are all presentation.
- The TypeScript helper types `Tables`, `TablesInsert`, `TablesUpdate` and `CompositeTypes` are not modelled. Neither are the update shapes of `investments` and `transactions`, which nothing in the core uses.
