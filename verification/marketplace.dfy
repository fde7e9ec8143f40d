/**
 * The marketplace listing (src/pages/marketplace.tsx): the course list is
 * narrowed by a case-insensitive search on title or creator, then by
 * category, then sorted by the chosen key with the array's stable sort.
 */
module Marketplace {
  import opened Seqs
  import opened CourseCard

  /** `toLowerCase` on one character; only ASCII letters are mapped. */
  function LowerChar(ch: char): char {
    if 'A' <= ch <= 'Z' then (ch as int + 32) as char else ch
  }

  /** No ASCII capital is left, and every other character is kept in place. */
  function Lower(s: string): (r: string)
    ensures |r| == |s|
    ensures forall i :: 0 <= i < |r| ==> !('A' <= r[i] <= 'Z')
    ensures forall i :: 0 <= i < |s| && !('A' <= s[i] <= 'Z') ==> r[i] == s[i]
    ensures forall i :: 0 <= i < |s| && 'A' <= s[i] <= 'Z' ==> r[i] == (s[i] as int + 32) as char
  {
    seq(|s|, i requires 0 <= i < |s| => LowerChar(s[i]))
  }

  /** Lower-casing twice is lower-casing once. */
  lemma LowerIdempotent(s: string)
    ensures Lower(Lower(s)) == Lower(s)
  {
  }

  /** `s.includes(t)`: `t` occurs in `s` at some position. */
  predicate Contains(s: string, t: string)
    decreases |s|
  {
    (|t| <= |s| && s[..|t|] == t) || (|s| > 0 && Contains(s[1..], t))
  }

  /** `t` occurs in `s` starting at position `i`. */
  predicate OccursAt(s: string, t: string, i: int) {
    0 <= i <= |s| - |t| && s[i..i + |t|] == t
  }

  /** `Contains` holds exactly when `t` occurs at some position of `s`. */
  lemma {:induction false} ContainsOccurrence(s: string, t: string)
    ensures Contains(s, t) <==> exists i :: OccursAt(s, t, i)
    decreases |s|
  {
    if |t| <= |s| && s[..|t|] == t {
      assert OccursAt(s, t, 0);
    } else if |s| > 0 {
      ContainsOccurrence(s[1..], t);
      if Contains(s[1..], t) {
        var i :| OccursAt(s[1..], t, i);
        assert s[i + 1..i + 1 + |t|] == s[1..][i..i + |t|];
        assert OccursAt(s, t, i + 1);
      }
      if exists i :: OccursAt(s, t, i) {
        var i :| OccursAt(s, t, i);
        if i > 0 {
          assert s[1..][i - 1..i - 1 + |t|] == s[i..i + |t|];
          assert OccursAt(s[1..], t, i - 1);
        }
      }
    }
  }

  predicate MatchesSearch(c: Listing, searchTerm: string) {
    Contains(Lower(c.title), Lower(searchTerm)) || Contains(Lower(c.creator), Lower(searchTerm))
  }

  /** The search ignores the case of the term: a term and its lower-cased form match the same courses. */
  lemma SearchIgnoresCase(c: Listing, searchTerm: string)
    ensures MatchesSearch(c, Lower(searchTerm)) <==> MatchesSearch(c, searchTerm)
  {
    LowerIdempotent(searchTerm);
  }

  predicate MatchesCategory(c: Listing, selectedCategory: string) {
    selectedCategory == "all" || Lower(c.category) == Lower(selectedCategory)
  }

  function BySearch(searchTerm: string): Listing -> bool {
    c => MatchesSearch(c, searchTerm)
  }

  function ByCategory(selectedCategory: string): Listing -> bool {
    c => MatchesCategory(c, selectedCategory)
  }

  /** The comparator handed to `sort`. */
  function Compare(sortBy: string, a: Listing, b: Listing): (r: int)
    ensures r == KeyOf(sortBy, a) - KeyOf(sortBy, b)
  {
    if sortBy == "roi" then b.roi - a.roi
    else if sortBy == "price" then a.sharePrice - b.sharePrice
    else if sortBy == "students" then b.students - a.students
    else 0
  }

  /** The key whose differences the comparator computes. */
  function KeyOf(sortBy: string, c: Listing): int {
    if sortBy == "roi" then -c.roi
    else if sortBy == "price" then c.sharePrice
    else if sortBy == "students" then -c.students
    else 0
  }

  function SortKey(sortBy: string): Listing -> int {
    c => KeyOf(sortBy, c)
  }

  /** A course is listed when it matches both the search and the category. */
  function Listed(searchTerm: string, selectedCategory: string): Listing -> bool {
    c => MatchesSearch(c, searchTerm) && MatchesCategory(c, selectedCategory)
  }

  /** The search and category filters, in the order the page applies them. */
  function Matching(courses: seq<Listing>, searchTerm: string, selectedCategory: string): (r: seq<Listing>)
    ensures forall i :: 0 <= i < |r| ==> Listed(searchTerm, selectedCategory)(r[i])
    ensures forall i :: 0 <= i < |courses| && Listed(searchTerm, selectedCategory)(courses[i]) ==> courses[i] in r
    ensures multiset(r) <= multiset(courses)
  {
    var searched := Filter(courses, BySearch(searchTerm));
    FilterMembers(searched, ByCategory(selectedCategory));
    Filter(searched, ByCategory(selectedCategory))
  }

  /** The two filters keep the array's order: the courses of a joined list are matched part by part. */
  lemma MatchingAppend(xs: seq<Listing>, ys: seq<Listing>, searchTerm: string, selectedCategory: string)
    ensures Matching(xs + ys, searchTerm, selectedCategory)
         == Matching(xs, searchTerm, selectedCategory) + Matching(ys, searchTerm, selectedCategory)
  {
    FilterAppend(xs, ys, BySearch(searchTerm));
    FilterAppend(Filter(xs, BySearch(searchTerm)), Filter(ys, BySearch(searchTerm)), ByCategory(selectedCategory));
  }

  /** A single course is kept exactly when it matches both the search and the category. */
  lemma MatchingSingleton(c: Listing, searchTerm: string, selectedCategory: string)
    ensures Matching([c], searchTerm, selectedCategory) == if Listed(searchTerm, selectedCategory)(c) then [c] else []
  {
    FilterSingleton(c, BySearch(searchTerm));
    FilterSingleton(c, ByCategory(selectedCategory));
  }

  /** A list sorted by the key is in the comparator's order. */
  lemma SortedByKeyIsComparatorOrder(r: seq<Listing>, sortBy: string)
    requires SortedBy(r, SortKey(sortBy))
    ensures forall i, j :: 0 <= i < j < |r| ==> Compare(sortBy, r[i], r[j]) <= 0
  {
    forall i, j | 0 <= i < j < |r| ensures Compare(sortBy, r[i], r[j]) <= 0 {
      assert SortKey(sortBy)(r[i]) <= SortKey(sortBy)(r[j]);
    }
  }

  /** `filteredCourses`. */
  function FilteredCourses(courses: seq<Listing>, searchTerm: string, selectedCategory: string, sortBy: string): (r: seq<Listing>)
    ensures forall i :: 0 <= i < |r| ==> MatchesSearch(r[i], searchTerm) && MatchesCategory(r[i], selectedCategory)
    ensures forall i :: 0 <= i < |courses| ==>
      (MatchesSearch(courses[i], searchTerm) && MatchesCategory(courses[i], selectedCategory) ==> courses[i] in r)
    ensures multiset(r) <= multiset(courses)
    ensures |r| <= |courses|
    ensures forall i, j :: 0 <= i < j < |r| ==> Compare(sortBy, r[i], r[j]) <= 0
  {
    var kept := Matching(courses, searchTerm, selectedCategory);
    var r := SortByKey(kept, SortKey(sortBy));
    SortedByKeyIsComparatorOrder(r, sortBy);
    PermutationPreserves(kept, r, Listed(searchTerm, selectedCategory));
    assert |r| == |multiset(r)| <= |multiset(courses)| == |courses|;
    r
  }

  /** The listing is a reordering of the filtered courses, and keeps every copy of each matching course. */
  lemma ListingIsPermutation(courses: seq<Listing>, searchTerm: string, selectedCategory: string, sortBy: string, c: Listing)
    requires MatchesSearch(c, searchTerm) && MatchesCategory(c, selectedCategory)
    ensures multiset(FilteredCourses(courses, searchTerm, selectedCategory, sortBy))
         == multiset(Matching(courses, searchTerm, selectedCategory))
    ensures multiset(FilteredCourses(courses, searchTerm, selectedCategory, sortBy))[c] == multiset(courses)[c]
  {
    FilterMultiplicity(courses, BySearch(searchTerm), c);
    FilterMultiplicity(Filter(courses, BySearch(searchTerm)), ByCategory(selectedCategory), c);
  }

  /** An empty search term with category `all` lists every course. */
  lemma EmptyQueryListsEverything(courses: seq<Listing>, sortBy: string)
    ensures multiset(FilteredCourses(courses, "", "all", sortBy)) == multiset(courses)
  {
    forall i | 0 <= i < |courses| ensures MatchesSearch(courses[i], "") {
      assert Lower(courses[i].title)[..0] == Lower("");
    }
    FilterAll(courses, BySearch(""));
    FilterAll(courses, ByCategory("all"));
  }

  /** Each of the three sort keys orders the listing as the page advertises. */
  lemma ListingOrder(courses: seq<Listing>, searchTerm: string, selectedCategory: string, sortBy: string)
    ensures var r := FilteredCourses(courses, searchTerm, selectedCategory, sortBy);
      && (sortBy == "roi" ==> forall i, j :: 0 <= i < j < |r| ==> r[i].roi >= r[j].roi)
      && (sortBy == "price" ==> forall i, j :: 0 <= i < j < |r| ==> r[i].sharePrice <= r[j].sharePrice)
      && (sortBy == "students" ==> forall i, j :: 0 <= i < j < |r| ==> r[i].students >= r[j].students)
  {
    var r := FilteredCourses(courses, searchTerm, selectedCategory, sortBy);
    forall i, j | 0 <= i < j < |r| ensures Compare(sortBy, r[i], r[j]) <= 0 { }
  }

  /** Courses the comparator ties (equal key `k`) are listed in the order the filters left them. */
  lemma ListingStable(courses: seq<Listing>, searchTerm: string, selectedCategory: string, sortBy: string, k: int)
    ensures Filter(FilteredCourses(courses, searchTerm, selectedCategory, sortBy), KeyIs(SortKey(sortBy), k))
         == Filter(Matching(courses, searchTerm, selectedCategory), KeyIs(SortKey(sortBy), k))
  {
    SortByKeyStable(Matching(courses, searchTerm, selectedCategory), SortKey(sortBy), k);
  }

  /** Any other sort key compares everything as equal, and the stable sort keeps the filtered order. */
  lemma OtherSortKeepsOrder(courses: seq<Listing>, searchTerm: string, selectedCategory: string, sortBy: string)
    requires sortBy != "roi" && sortBy != "price" && sortBy != "students"
    ensures FilteredCourses(courses, searchTerm, selectedCategory, sortBy) == Matching(courses, searchTerm, selectedCategory)
  {
    SortByConstantKey(Matching(courses, searchTerm, selectedCategory), SortKey(sortBy), 0);
  }
}
