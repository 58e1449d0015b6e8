/** The views the customer screen of the single-file app derives from the
    menu: the visible dishes (course filter, then a search on the trimmed,
    lower-cased query) and the count and average price of every course. */
module PoeViews {
  import opened Menu
  import opened Seqs
  import opened JsString

  /** `q.trim().toLowerCase()`. */
  function NormalizedQuery(q: string): string {
    ToLower(Trim(q))
  }

  /** The course step of both search memos: the whole menu for `"All"`,
      otherwise `menu.filter(m => m.course === c)`. */
  function CourseItems(menu: seq<Dish>, filter: CourseFilter): seq<Dish> {
    if filter.AllCourses? then menu else Filter(menu, IsCourse(filter.course))
  }

  /** The text step of both search memos: when `search` holds, the items
      whose name or description contains `query`; otherwise all of them. */
  function Searched(items: seq<Dish>, search: bool, query: string): seq<Dish> {
    if search then Filter(items, Mentioning(query)) else items
  }

  /** Whether the two steps keep a dish. */
  ghost predicate Keeps(filter: CourseFilter, search: bool, query: string, d: Dish) {
    PassesFilter(filter, d) && (!search || Mentions(d, query))
  }

  /** The `visible` memo: the dishes of the chosen course, and of those,
      when the normalised query is not empty, the ones whose name or
      description contains it. The result is an order-preserving
      subsequence of the menu that keeps a dish, as often as it occurs,
      exactly when it passes the course filter and (for a non-blank query)
      mentions the normalised query. */
  function Visible(menu: seq<Dish>, filter: CourseFilter, q: string): (r: seq<Dish>)
    ensures IsSubseq(r, menu)
    ensures forall d :: multiset(r)[d] == if VisibleKeeps(filter, q, d) then multiset(menu)[d] else 0
  {
    SearchStep(menu, filter, NormalizedQuery(q) != [], NormalizedQuery(q));
    Searched(CourseItems(menu, filter), NormalizedQuery(q) != [], NormalizedQuery(q))
  }

  /** Whether `visible` keeps a dish. */
  ghost predicate VisibleKeeps(filter: CourseFilter, q: string, d: Dish) {
    Keeps(filter, NormalizedQuery(q) != [], NormalizedQuery(q), d)
  }

  /** The query applies no text filter exactly when it is blank. */
  lemma NormalizedQueryEmptyIff(q: string)
    ensures NormalizedQuery(q) == [] <==> AllWhitespace(q)
  {
    TrimEmptyIff(q);
  }

  /** The course step keeps exactly the dishes that pass the filter, in order. */
  lemma CourseStep(menu: seq<Dish>, filter: CourseFilter)
    ensures IsSubseq(CourseItems(menu, filter), menu)
    ensures forall d :: multiset(CourseItems(menu, filter))[d] == if PassesFilter(filter, d) then multiset(menu)[d] else 0
  {
    if filter.AllCourses? {
      SubseqRefl(menu);
    } else {
      FilterIsSubseq(menu, IsCourse(filter.course));
      forall d ensures multiset(Filter(menu, IsCourse(filter.course)))[d] == if PassesFilter(filter, d) then multiset(menu)[d] else 0 {
        FilterCount(menu, IsCourse(filter.course), d);
      }
    }
  }

  /** The two steps together keep a dish, as often as it occurs and in menu
      order, exactly when it passes the course filter and, if `search`
      holds, mentions `query`. */
  lemma SearchStep(menu: seq<Dish>, filter: CourseFilter, search: bool, query: string)
    ensures IsSubseq(Searched(CourseItems(menu, filter), search, query), menu)
    ensures forall d :: multiset(Searched(CourseItems(menu, filter), search, query))[d]
                        == if Keeps(filter, search, query, d) then multiset(menu)[d] else 0
  {
    var base := CourseItems(menu, filter);
    CourseStep(menu, filter);
    if search {
      var r := Filter(base, Mentioning(query));
      FilterIsSubseq(base, Mentioning(query));
      SubseqTrans(r, base, menu);
      forall d ensures multiset(r)[d] == if Keeps(filter, search, query, d) then multiset(menu)[d] else 0 {
        FilterCount(base, Mentioning(query), d);
      }
    }
  }

  /** With the filter on `"All"` and a blank query, every dish is visible,
      in menu order. */
  lemma VisibleAllBlank(menu: seq<Dish>, q: string)
    requires AllWhitespace(q)
    ensures Visible(menu, AllCourses, q) == menu
  {
    NormalizedQueryEmptyIff(q);
  }

  /** Per-course figures: `{ avg, count }`. */
  datatype CourseStats = CourseStats(avg: real, count: nat)

  /** The number of dishes of course `c`. */
  function CourseCount(menu: seq<Dish>, c: Course): nat {
    if menu == [] then 0 else (if menu[0].course == c then 1 else 0) + CourseCount(menu[1..], c)
  }

  /** The sum of the prices of the dishes of course `c`. */
  function CoursePriceSum(menu: seq<Dish>, c: Course): real {
    if menu == [] then 0.0 else (if menu[0].course == c then menu[0].price else 0.0) + CoursePriceSum(menu[1..], c)
  }

  /** The average price of course `c`, and 0 for a course without dishes. */
  function CourseAverage(menu: seq<Dish>, c: Course): real {
    var n := CourseCount(menu, c);
    if n == 0 then 0.0 else CoursePriceSum(menu, c) / n as real
  }

  /** `items.reduce((s, i) => s + i.price, 0)`. */
  function SumPrices(items: seq<Dish>): real {
    if items == [] then 0.0 else items[0].price + SumPrices(items[1..])
  }

  /** Filtering by course and then counting and summing gives the course's
      count and price sum. */
  lemma {:induction false} FilterCourseAgrees(menu: seq<Dish>, c: Course)
    ensures |Filter(menu, IsCourse(c))| == CourseCount(menu, c)
    ensures SumPrices(Filter(menu, IsCourse(c))) == CoursePriceSum(menu, c)
    decreases |menu|
  {
    if menu != [] {
      FilterCourseAgrees(menu[1..], c);
      var items := Filter(menu, IsCourse(c));
      if menu[0].course == c {
        assert items == [menu[0]] + Filter(menu[1..], IsCourse(c));
        assert items[1..] == Filter(menu[1..], IsCourse(c));
      } else {
        assert items == Filter(menu[1..], IsCourse(c));
      }
    }
  }

  /** The `averages` memo: a `for` loop over the courses writing into `out`. */
  method Averages(menu: seq<Dish>) returns (out: map<Course, CourseStats>)
    ensures out.Keys == {Starters, Mains, Desserts}
    ensures forall c :: c in out ==> out[c].count == CourseCount(menu, c)
    ensures forall c :: c in out ==> out[c].avg == CourseAverage(menu, c)
  {
    out := map[];
    for i := 0 to |COURSES|
      invariant out.Keys == set j | 0 <= j < i :: COURSES[j]
      invariant forall c :: c in out ==> out[c] == CourseStats(CourseAverage(menu, c), CourseCount(menu, c))
    {
      var c := COURSES[i];
      var items := Filter(menu, IsCourse(c));
      var sum := SumPrices(items);
      FilterCourseAgrees(menu, c);
      out := out[c := CourseStats(if |items| > 0 then sum / |items| as real else 0.0, |items|)];
    }
    assert COURSES[0] == Starters && COURSES[1] == Mains && COURSES[2] == Desserts;
  }

  /** A course's average lies between the lowest and the highest price
      of that course; in particular it is never negative when no price is. */
  lemma AverageWithinBounds(menu: seq<Dish>, c: Course, lo: real, hi: real)
    requires CourseCount(menu, c) > 0
    requires forall i :: 0 <= i < |menu| && menu[i].course == c ==> lo <= menu[i].price <= hi
    ensures lo <= CourseAverage(menu, c) <= hi
  {
    PriceSumAbove(menu, c, lo);
    PriceSumBelow(menu, c, hi);
    AverageIsQuotient(menu, c);
    QuotientBounds(CourseCount(menu, c), CoursePriceSum(menu, c), CourseAverage(menu, c), lo, hi);
  }

  /** For a course with dishes the average is the price sum over the count. */
  lemma AverageIsQuotient(menu: seq<Dish>, c: Course)
    requires CourseCount(menu, c) > 0
    ensures CourseAverage(menu, c) == CoursePriceSum(menu, c) / CourseCount(menu, c) as real
  {
  }

  /** `x` added up `k` times. */
  function Copies(k: nat, x: real): real {
    if k == 0 then 0.0 else x + Copies(k - 1, x)
  }

  /** Adding `x` up `k` times is multiplying it by `k`. */
  lemma {:induction false} CopiesIsProduct(k: nat, x: real)
    ensures Copies(k, x) == k as real * x
  {
    if k > 0 {
      CopiesIsProduct(k - 1, x);
      assert k as real * x == (k - 1) as real * x + x;
    }
  }

  /** `k` copies of `lo` and of `hi` around `s` put `s / k` between them. */
  lemma QuotientBounds(k: nat, s: real, a: real, lo: real, hi: real)
    requires k > 0 && a == s / k as real && Copies(k, lo) <= s <= Copies(k, hi)
    ensures lo <= a <= hi
  {
    CopiesIsProduct(k, lo);
    CopiesIsProduct(k, hi);
    DivisionBounds(s, k as real, lo, hi);
  }

  /** `n * lo <= s <= n * hi` with `n > 0` puts `s / n` between `lo` and `hi`. */
  lemma DivisionBounds(s: real, n: real, lo: real, hi: real)
    requires n > 0.0 && n * lo <= s <= n * hi
    ensures lo <= s / n <= hi
  {
    var a := s / n;
    assert a * n == s;
  }

  /** The price sum of a course is at least `count` copies of `lo`. */
  lemma {:induction false} PriceSumAbove(menu: seq<Dish>, c: Course, lo: real)
    requires forall i :: 0 <= i < |menu| && menu[i].course == c ==> lo <= menu[i].price
    ensures Copies(CourseCount(menu, c), lo) <= CoursePriceSum(menu, c)
    decreases |menu|
  {
    if menu != [] {
      PriceSumAbove(menu[1..], c, lo);
    }
  }

  /** The price sum of a course is at most `count` copies of `hi`. */
  lemma {:induction false} PriceSumBelow(menu: seq<Dish>, c: Course, hi: real)
    requires forall i :: 0 <= i < |menu| && menu[i].course == c ==> menu[i].price <= hi
    ensures CoursePriceSum(menu, c) <= Copies(CourseCount(menu, c), hi)
    decreases |menu|
  {
    if menu != [] {
      PriceSumBelow(menu[1..], c, hi);
    }
  }

  /** A course without dishes has a price sum and an average of 0, so no
      division by zero ever happens; for any other course the average times
      the count gives back the price sum. */
  lemma AverageOfEmptyAndNonEmptyCourse(menu: seq<Dish>, c: Course)
    ensures CourseCount(menu, c) == 0 ==> CoursePriceSum(menu, c) == 0.0 && CourseAverage(menu, c) == 0.0
    ensures CourseCount(menu, c) > 0 ==> Copies(CourseCount(menu, c), CourseAverage(menu, c)) == CoursePriceSum(menu, c)
  {
    EmptyCourseSumsToZero(menu, c);
    if CourseCount(menu, c) > 0 {
      AverageTimesCount(menu, c);
    }
  }

  /** A course without dishes has a price sum of 0. */
  lemma {:induction false} EmptyCourseSumsToZero(menu: seq<Dish>, c: Course)
    ensures CourseCount(menu, c) == 0 ==> CoursePriceSum(menu, c) == 0.0
    decreases |menu|
  {
    if menu != [] {
      EmptyCourseSumsToZero(menu[1..], c);
    }
  }

  /** For a course with dishes, `count` copies of the average add up to the
      price sum. */
  lemma AverageTimesCount(menu: seq<Dish>, c: Course)
    requires CourseCount(menu, c) > 0
    ensures Copies(CourseCount(menu, c), CourseAverage(menu, c)) == CoursePriceSum(menu, c)
  {
    AverageIsQuotient(menu, c);
    QuotientTimesDivisor(CourseCount(menu, c), CoursePriceSum(menu, c), CourseAverage(menu, c));
  }

  lemma QuotientTimesDivisor(k: nat, s: real, a: real)
    requires k > 0 && a == s / k as real
    ensures Copies(k, a) == s
  {
    CopiesIsProduct(k, a);
  }

  /** Two Starters at 50 and 70 and one Main at 100 give Starters 2 dishes at
      60 on average, Mains 1 at 100 and Desserts 0 at 0. */
  lemma AveragesScenario()
    ensures var menu := [Dish("a", "A", None, Starters, 50.0, 1), Dish("b", "B", None, Starters, 70.0, 2),
                         Dish("c", "C", None, Mains, 100.0, 3)];
            && CourseCount(menu, Starters) == 2 && CourseAverage(menu, Starters) == 60.0
            && CourseCount(menu, Mains) == 1 && CourseAverage(menu, Mains) == 100.0
            && CourseCount(menu, Desserts) == 0 && CourseAverage(menu, Desserts) == 0.0
  {
    var menu := [Dish("a", "A", None, Starters, 50.0, 1), Dish("b", "B", None, Starters, 70.0, 2),
                 Dish("c", "C", None, Mains, 100.0, 3)];
    assert menu[1..] == [menu[1], menu[2]] && menu[2..] == [menu[2]];
  }
}
