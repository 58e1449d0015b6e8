/** The customer screen of the two-screen app: the `filteredMenu` memo. Its
    blankness test trims the query, but the match uses the lower-cased query
    WITHOUT trimming, unlike `visible` of the single-file app. */
module CustomerScreen {
  import opened Menu
  import opened Seqs
  import opened JsString
  import PoeViews

  /** Whether `filteredMenu` keeps a dish. */
  ghost predicate FilteredKeeps(filter: CourseFilter, searchQuery: string, d: Dish) {
    PoeViews.Keeps(filter, !AllWhitespace(searchQuery), ToLower(searchQuery), d)
  }

  /** The `filteredMenu` memo: the dishes of the chosen course (all of them
      for `"All"`), and of those, when the query is not blank, the ones whose
      lower-cased name or description contains the lower-cased query. The
      result is an order-preserving subsequence of the menu that keeps a
      dish, as often as it occurs, exactly when it passes the course filter
      and, for a non-blank query, mentions the lower-cased query. */
  function FilteredMenu(menu: seq<Dish>, filter: CourseFilter, searchQuery: string): (r: seq<Dish>)
    ensures IsSubseq(r, menu)
    ensures forall d :: multiset(r)[d] == if FilteredKeeps(filter, searchQuery, d) then multiset(menu)[d] else 0
  {
    TrimEmptyIff(searchQuery);
    PoeViews.SearchStep(menu, filter, !AllWhitespace(searchQuery), ToLower(searchQuery));
    PoeViews.Searched(PoeViews.CourseItems(menu, filter), Trim(searchQuery) != [], ToLower(searchQuery))
  }

  /** A blank query applies no text filter: only the course step remains. */
  lemma BlankQueryOnlyFiltersCourse(menu: seq<Dish>, c: Course, searchQuery: string)
    requires forall i :: 0 <= i < |searchQuery| ==> IsWhitespace(searchQuery[i])
    ensures FilteredMenu(menu, AllCourses, searchQuery) == menu
    ensures FilteredMenu(menu, OnlyCourse(c), searchQuery) == Filter(menu, IsCourse(c))
  {
    TrimEmptyIff(searchQuery);
  }

  /** The initial state, filter `"All"` and search `""`, shows the whole menu. */
  lemma InitialStateShowsMenu(menu: seq<Dish>)
    ensures FilteredMenu(menu, AllCourses, "") == menu
  {
    BlankQueryOnlyFiltersCourse(menu, Mains, "");
  }

  /** For a query without surrounding whitespace, both search variants agree. */
  lemma AgreesWithVisibleOnTrimmedQuery(menu: seq<Dish>, filter: CourseFilter, q: string)
    requires Trim(q) == q
    ensures FilteredMenu(menu, filter, q) == PoeViews.Visible(menu, filter, q)
  {
    assert PoeViews.NormalizedQuery(q) == ToLower(q);
  }

  /** The variants differ on a query with a trailing space: "soup " finds the
      dish "Soup" in the single-file app but not here, since no name or
      description contains the five characters "soup ". */
  lemma TrailingSpaceDivergence()
    ensures var menu := [Dish("1", "Soup", None, Starters, 45.0, 0)];
            && PoeViews.Visible(menu, AllCourses, "soup ") == menu
            && FilteredMenu(menu, AllCourses, "soup ") == []
  {
    var d := Dish("1", "Soup", None, Starters, 45.0, 0);
    SoupFoundWhenTrimmed(d);
    SoupMissedUntrimmed(d);
  }

  lemma SoupFoundWhenTrimmed(d: Dish)
    requires d.name == "Soup"
    ensures PoeViews.Visible([d], AllCourses, "soup ") == [d]
  {
    TrimSoupSpace();
    LowerSoup();
    ToLowerIdempotent("Soup");
    assert PoeViews.NormalizedQuery("soup ") == "soup";
    assert StartsWith(ToLower(d.name), "soup");
    assert Mentioning("soup")(d);
  }

  lemma TrimSoupSpace()
    ensures Trim("soup ") == "soup"
  {
    assert TrimStart("soup ") == "soup ";
    assert "soup "[..4] == "soup";
    assert TrimEnd("soup") == "soup";
  }

  lemma LowerSoup()
    ensures ToLower("Soup") == "soup"
  {
    var l := ToLower("Soup");
    assert l[0] == LowerChar('S') == 's';
    assert l[1] == 'o' && l[2] == 'u' && l[3] == 'p';
  }

  lemma SoupMissedUntrimmed(d: Dish)
    requires d.name == "Soup" && d.description == None
    ensures FilteredMenu([d], AllCourses, "soup ") == []
  {
    TrimSoupSpace();
    SoupNotMentioned(d);
    FilterNoneAccepted([d], Mentioning(ToLower("soup ")));
  }

  lemma SoupNotMentioned(d: Dish)
    requires d.name == "Soup" && d.description == None
    ensures !Mentions(d, ToLower("soup "))
  {
    var q := "soup ";
    assert q[0] == 's';
    assert !Includes(ToLower(d.name), ToLower(q));
    assert !Includes(ToLower(DescriptionOrEmpty(d)), ToLower(q));
  }
}
