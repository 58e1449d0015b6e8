/** The menu's data model, shared by both versions of the app: the `Dish`
    record, the closed set of courses, the draft a manager submits, and the
    list operations both apps perform on the menu. */
module Menu {
  import opened Seqs
  import opened JsString

  datatype Option<T> = None | Some(value: T)

  datatype Course = Starters | Mains | Desserts

  /** The courses in display order (`COURSES`). */
  const COURSES: seq<Course> := [Starters, Mains, Desserts]

  /** A menu entry. `description` is optional; `price` is a real number of
      rand (no floating point); `createdAt` is a millisecond timestamp. */
  datatype Dish = Dish(
    id: string,
    name: string,
    description: Option<string>,
    course: Course,
    price: real,
    createdAt: int)

  /** What the manager form hands to `add`: a dish without `id` and
      `createdAt` (`Omit<Dish, "id" | "createdAt">`). */
  datatype Draft = Draft(name: string, description: Option<string>, course: Course, price: real)

  /** The course filter of the customer view: `"All"` or one course. */
  datatype CourseFilter = AllCourses | OnlyCourse(course: Course)

  /** `{ ...draft, id, createdAt }`: the dish built from a draft. */
  function NewDish(draft: Draft, id: string, createdAt: int): (d: Dish)
    ensures DraftOf(d) == draft
    ensures d.id == id && d.createdAt == createdAt
  {
    Dish(id, draft.name, draft.description, draft.course, draft.price, createdAt)
  }

  /** The draft fields of a dish. */
  function DraftOf(d: Dish): Draft {
    Draft(d.name, d.description, d.course, d.price)
  }

  /** A dish is rebuilt exactly from its draft fields, its id and its
      timestamp: `NewDish` loses nothing. */
  lemma NewDishOfDraftOf(d: Dish)
    ensures NewDish(DraftOf(d), d.id, d.createdAt) == d
  {
  }

  /** `(d.description || "")`. */
  function DescriptionOrEmpty(d: Dish): string {
    match d.description
    case Some(s) => s
    case None => ""
  }

  /** The case-insensitive search test on one dish, for a query that is
      already lower-cased: the query occurs in the lower-cased name or in the
      lower-cased description. */
  predicate Mentions(d: Dish, query: string) {
    Includes(ToLower(d.name), query) || Includes(ToLower(DescriptionOrEmpty(d)), query)
  }

  /** The search test as the lambda handed to `filter`. */
  function Mentioning(query: string): Dish -> bool {
    (d: Dish) => Mentions(d, query)
  }

  /** The course test of the customer view. */
  predicate PassesFilter(f: CourseFilter, d: Dish) {
    f.AllCourses? || d.course == f.course
  }

  /** `m => m.course === c`. */
  function IsCourse(c: Course): Dish -> bool {
    (d: Dish) => d.course == c
  }

  /** `m => m.id !== id`. */
  function IdIsNot(id: string): Dish -> bool {
    (d: Dish) => d.id != id
  }

  /** The ids of the dishes on a menu. */
  function IdsOf(menu: seq<Dish>): set<string> {
    set d | d in menu :: d.id
  }

  /** No two dishes on the menu share an id. */
  ghost predicate UniqueIds(menu: seq<Dish>) {
    forall i, j :: 0 <= i < j < |menu| ==> menu[i].id != menu[j].id
  }

  /** `menu.filter(m => m.id !== id)`: the menu without the dish `id`. */
  function WithoutId(menu: seq<Dish>, id: string): (r: seq<Dish>)
    ensures IdsOf(r) == IdsOf(menu) - {id}
  {
    var r := Filter(menu, IdIsNot(id));
    forall d ensures d in r <==> d in menu && d.id != id {
      FilterMember(menu, IdIsNot(id), d);
    }
    r
  }

  /** Removing keeps exactly the dishes whose id differs, as often as they
      occur, and in their original order. */
  lemma WithoutIdKeepsOthers(menu: seq<Dish>, id: string)
    ensures IsSubseq(WithoutId(menu, id), menu)
    ensures forall d :: multiset(WithoutId(menu, id))[d] == if d.id != id then multiset(menu)[d] else 0
  {
    FilterIsSubseq(menu, IdIsNot(id));
    forall d ensures multiset(WithoutId(menu, id))[d] == if d.id != id then multiset(menu)[d] else 0 {
      FilterCount(menu, IdIsNot(id), d);
    }
  }

  /** Removing an id that is not on the menu leaves the menu unchanged. */
  lemma WithoutAbsentId(menu: seq<Dish>, id: string)
    requires id !in IdsOf(menu)
    ensures WithoutId(menu, id) == menu
  {
    forall i | 0 <= i < |menu| ensures IdIsNot(id)(menu[i]) {
      assert menu[i].id in IdsOf(menu);
    }
    FilterAllAccepted(menu, IdIsNot(id));
  }

  /** Removing twice is the same as removing once. */
  lemma WithoutIdIdempotent(menu: seq<Dish>, id: string)
    ensures WithoutId(WithoutId(menu, id), id) == WithoutId(menu, id)
  {
    WithoutAbsentId(WithoutId(menu, id), id);
  }

  /** One step of the removal: the head is kept exactly when its id differs. */
  lemma WithoutIdCons(menu: seq<Dish>, id: string)
    requires menu != []
    ensures WithoutId(menu, id) == (if menu[0].id != id then [menu[0]] else []) + WithoutId(menu[1..], id)
  {
  }

  /** Removing keeps the ids unique. */
  lemma {:induction false} WithoutIdKeepsUnique(menu: seq<Dish>, id: string)
    requires UniqueIds(menu)
    ensures UniqueIds(WithoutId(menu, id))
    decreases |menu|
  {
    if menu != [] {
      var tail := menu[1..];
      assert UniqueIds(tail);
      WithoutIdKeepsUnique(tail, id);
      WithoutIdCons(menu, id);
      if menu[0].id != id {
        var rt := WithoutId(tail, id);
        var r := [menu[0]] + rt;
        assert menu[0].id !in IdsOf(tail) by {
          forall d | d in tail ensures d.id != menu[0].id {
            var j :| 0 <= j < |tail| && tail[j] == d;
            assert tail[j] == menu[j + 1];
          }
        }
        forall i, j | 0 <= i < j < |r| ensures r[i].id != r[j].id {
          if i == 0 {
            assert r[j] == rt[j - 1];
            assert rt[j - 1].id in IdsOf(rt);
          } else {
            assert r[i] == rt[i - 1] && r[j] == rt[j - 1];
          }
        }
      }
    }
  }

  /** On a menu with unique ids, removing a present id shortens the menu by
      exactly one. */
  lemma {:induction false} WithoutPresentId(menu: seq<Dish>, id: string)
    requires UniqueIds(menu) && id in IdsOf(menu)
    ensures |WithoutId(menu, id)| == |menu| - 1
    decreases |menu|
  {
    var tail := menu[1..];
    assert UniqueIds(tail);
    WithoutIdCons(menu, id);
    if menu[0].id == id {
      assert id !in IdsOf(tail) by {
        forall d | d in tail ensures d.id != id {
          var j :| 0 <= j < |tail| && tail[j] == d;
          assert tail[j] == menu[j + 1];
        }
      }
      WithoutAbsentId(tail, id);
    } else {
      assert id in IdsOf(tail) by {
        var d :| d in menu && d.id == id;
        var j :| 0 <= j < |menu| && menu[j] == d;
        assert j != 0 && tail[j - 1] == d;
      }
      WithoutPresentId(tail, id);
    }
  }

  /** Adding a dish whose id is new keeps the ids unique, at either end. */
  lemma FreshIdKeepsUnique(menu: seq<Dish>, d: Dish)
    requires UniqueIds(menu) && d.id !in IdsOf(menu)
    ensures UniqueIds([d] + menu) && UniqueIds(menu + [d])
    ensures IdsOf([d] + menu) == IdsOf(menu) + {d.id} == IdsOf(menu + [d])
  {
    var p, a := [d] + menu, menu + [d];
    forall i, j | 0 <= i < j < |p| ensures p[i].id != p[j].id {
      if i == 0 {
        assert p[j] == menu[j - 1];
        assert menu[j - 1].id in IdsOf(menu);
      } else {
        assert p[i] == menu[i - 1] && p[j] == menu[j - 1];
      }
    }
    forall i, j | 0 <= i < j < |a| ensures a[i].id != a[j].id {
      if j == |menu| {
        assert a[i] == menu[i];
        assert menu[i].id in IdsOf(menu);
      }
    }
  }
}
