/** The top-level component of the two-screen app: the `menu` and `screen`
    state fields, the list last handed to storage, and the callbacks
    `persist`, `addDish`, `removeDish`, `openManager` and `back`. */
module MenuApp {
  import opened Menu

  /** `"customer" | "chef"`. */
  datatype Screen = CustomerView | ChefView

  class App {
    var menu: seq<Dish>
    var screen: Screen
    /** The list last passed to `save`; `None` before the first save. */
    var saved: Option<seq<Dish>>

    /** The initial state: an empty menu on the customer screen, before the
        stored list is loaded. */
    constructor ()
      ensures menu == [] && screen == CustomerView && saved == None
    {
      menu, screen, saved := [], CustomerView, None;
    }

    /** `persist(items)`: the menu becomes exactly `items`, and that same list
        is saved. */
    method Persist(items: seq<Dish>)
      modifies this
      ensures menu == items && saved == Some(items)
      ensures screen == old(screen)
    {
      menu := items;
      saved := Some(items);
    }

    /** `addDish(dish)`: the new dish, with the given id and timestamp, goes
        to the END of the menu. A fresh id keeps the ids unique. */
    method AddDish(draft: Draft, id: string, createdAt: int)
      modifies this
      ensures menu == old(menu) + [NewDish(draft, id, createdAt)]
      ensures |menu| == |old(menu)| + 1 && menu[..|old(menu)|] == old(menu)
      ensures DraftOf(menu[|menu| - 1]) == draft && menu[|menu| - 1].id == id && menu[|menu| - 1].createdAt == createdAt
      ensures saved == Some(menu) && screen == old(screen)
      ensures UniqueIds(old(menu)) && id !in IdsOf(old(menu)) ==> UniqueIds(menu)
    {
      var d := NewDish(draft, id, createdAt);
      if UniqueIds(menu) && id !in IdsOf(menu) {
        FreshIdKeepsUnique(menu, d);
      }
      Persist(menu + [d]);
    }

    /** `removeDish(id)`: the menu keeps the dishes with a different id. */
    method RemoveDish(id: string)
      modifies this
      ensures menu == WithoutId(old(menu), id)
      ensures saved == Some(menu) && screen == old(screen)
      ensures id !in IdsOf(old(menu)) ==> menu == old(menu)
      ensures UniqueIds(old(menu)) ==> UniqueIds(menu)
    {
      if id !in IdsOf(menu) {
        WithoutAbsentId(menu, id);
      }
      if UniqueIds(menu) {
        WithoutIdKeepsUnique(menu, id);
      }
      Persist(WithoutId(menu, id));
    }

    /** `openManager`: switch to the manager screen. */
    method OpenManager()
      modifies this
      ensures screen == ChefView
      ensures menu == old(menu) && saved == old(saved)
    {
      screen := ChefView;
    }

    /** `back`: return to the customer screen. */
    method Back()
      modifies this
      ensures screen == CustomerView
      ensures menu == old(menu) && saved == old(saved)
    {
      screen := CustomerView;
    }
  }
}
