/** The top-level component of the single-file app, reduced to the state the
    menu and cart rules touch: the `menu` and `cart` state fields, and the
    records last handed to storage by `persist` and `persistCart`. */
module PoeApp {
  import opened Menu
  import opened PoeCart

  class App {
    var menu: seq<Dish>
    var cart: Cart
    /** The list last passed to `save`; `None` before the first save. */
    var savedMenu: Option<seq<Dish>>
    /** The map last passed to `saveCart`; `None` before the first save. */
    var savedCart: Option<Cart>

    /** The initial state, before the stored records are loaded. */
    constructor ()
      ensures menu == [] && cart == map[]
      ensures savedMenu == None && savedCart == None
    {
      menu, cart := [], map[];
      savedMenu, savedCart := None, None;
    }

    /** `persist(items)`: the menu becomes `items`, and `items` is saved. */
    method Persist(items: seq<Dish>)
      modifies this
      ensures menu == items && savedMenu == Some(items)
      ensures cart == old(cart) && savedCart == old(savedCart)
    {
      menu := items;
      savedMenu := Some(items);
    }

    /** `persistCart(c)`: the cart becomes `c`, and `c` is saved. */
    method PersistCart(c: Cart)
      modifies this
      ensures cart == c && savedCart == Some(c)
      ensures menu == old(menu) && savedMenu == old(savedMenu)
    {
      cart := c;
      savedCart := Some(c);
    }

    /** `add(draft)`: the new dish, with the given id and timestamp, goes to
        the FRONT of the menu; the old menu follows unchanged. A fresh id
        keeps the ids unique. */
    method Add(draft: Draft, id: string, createdAt: int)
      modifies this
      ensures menu == [NewDish(draft, id, createdAt)] + old(menu)
      ensures |menu| == |old(menu)| + 1 && menu[0] == NewDish(draft, id, createdAt) && menu[1..] == old(menu)
      ensures savedMenu == Some(menu)
      ensures cart == old(cart) && savedCart == old(savedCart)
      ensures UniqueIds(old(menu)) && id !in IdsOf(old(menu)) ==> UniqueIds(menu)
    {
      var d := NewDish(draft, id, createdAt);
      if UniqueIds(menu) && id !in IdsOf(menu) {
        FreshIdKeepsUnique(menu, d);
      }
      Persist([d] + menu);
    }

    /** The confirmed branch of `remove(id)` (`del`): the menu keeps the
        dishes with a different id; the cart is left as it is, so entries for
        the removed dish stay behind as orphans. */
    method Remove(id: string)
      modifies this
      ensures menu == WithoutId(old(menu), id)
      ensures savedMenu == Some(menu)
      ensures cart == old(cart) && savedCart == old(savedCart)
      ensures id !in IdsOf(old(menu)) ==> menu == old(menu)
      ensures UniqueIds(old(menu)) ==> UniqueIds(menu)
    {
      if id !in IdsOf(menu) {
        WithoutAbsentId(menu, id);
      }
      if UniqueIds(menu) {
        WithoutIdKeepsUnique(menu, id);
      }
      Persist(WithoutId(menu, id));
    }

    /** `addToCart(id, qty)`; a card's "Add" button passes no quantity, so
        `qty` defaults to 1. */
    method AddToCart(id: string, qty: int := 1)
      modifies this
      ensures cart == AddedTo(old(cart), id, qty) && savedCart == Some(cart)
      ensures AllPositive(old(cart)) ==> AllPositive(cart)
      ensures menu == old(menu) && savedMenu == old(savedMenu)
    {
      var next := cart[id := Max0(Qty(cart, id) + qty)];
      if next[id] == 0 {
        next := next - {id};
      }
      PersistCart(next);
    }

    /** `updateCartQty(id, qty)`. */
    method UpdateCartQty(id: string, qty: int)
      modifies this
      ensures cart == SetQty(old(cart), id, qty) && savedCart == Some(cart)
      ensures AllPositive(old(cart)) ==> AllPositive(cart)
      ensures menu == old(menu) && savedMenu == old(savedMenu)
    {
      var n := cart;
      if qty <= 0 {
        n := n - {id};
      } else {
        n := n[id := qty];
      }
      PersistCart(n);
    }

    /** `removeFromCart(id)`. */
    method RemoveFromCart(id: string)
      modifies this
      ensures cart == Removed(old(cart), id) && savedCart == Some(cart)
      ensures AllPositive(old(cart)) ==> AllPositive(cart)
      ensures menu == old(menu) && savedMenu == old(savedMenu)
    {
      var n := cart;
      n := n - {id};
      PersistCart(n);
    }

    /** `clearCart()`: the cart becomes the empty map. */
    method ClearCart()
      modifies this
      ensures cart == map[] && savedCart == Some(map[])
      ensures menu == old(menu) && savedMenu == old(savedMenu)
    {
      PersistCart(map[]);
    }
  }
}
