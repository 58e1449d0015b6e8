/** The cart of the customer view: a map from dish id to quantity, the three
    map updates behind `addToCart`, `updateCartQty` and `removeFromCart`, and
    the totals shown in the cart footer (`cartItems`, `totalItems`,
    `totalPrice`). Quantities are integers. */
module PoeCart {
  import opened Menu
  import opened Seqs

  type Cart = map<string, int>

  /** The cart invariant: no quantity of zero or less is ever stored. */
  ghost predicate AllPositive(cart: Cart) {
    forall k :: k in cart ==> cart[k] > 0
  }

  /** `cart[id] || 0`: the quantity of `id`, 0 when it is not in the cart. */
  function Qty(cart: Cart, id: string): int {
    if id in cart then cart[id] else 0
  }

  /** `Math.max(0, n)`. */
  function Max0(n: int): (r: nat)
    ensures r >= n && (r == 0 || r == n)
  {
    if n < 0 then 0 else n
  }

  /** The cart after `addToCart(id, qty)`: `id` holds max(0, old + qty), a
      missing key counting as 0, and is deleted when that is 0; every other
      entry is unchanged. */
  function AddedTo(cart: Cart, id: string, qty: int): (r: Cart)
    ensures Qty(cart, id) + qty <= 0 ==> id !in r
    ensures Qty(cart, id) + qty > 0 ==> id in r && r[id] == Qty(cart, id) + qty
    ensures forall k :: k != id ==> (k in r <==> k in cart) && Qty(r, k) == Qty(cart, k)
    ensures AllPositive(cart) ==> AllPositive(r)
  {
    var next := cart[id := Max0(Qty(cart, id) + qty)];
    if next[id] == 0 then next - {id} else next
  }

  /** The cart after `updateCartQty(id, qty)`: `qty` is absolute, not a
      delta; `id` is deleted when `qty <= 0` and set to exactly `qty`
      otherwise; every other entry is unchanged. */
  function SetQty(cart: Cart, id: string, qty: int): (r: Cart)
    ensures qty <= 0 ==> id !in r
    ensures qty > 0 ==> id in r && r[id] == qty
    ensures forall k :: k != id ==> (k in r <==> k in cart) && Qty(r, k) == Qty(cart, k)
    ensures AllPositive(cart) ==> AllPositive(r)
  {
    if qty <= 0 then cart - {id} else cart[id := qty]
  }

  /** The cart after `removeFromCart(id)`: only `id` is gone. */
  function Removed(cart: Cart, id: string): (r: Cart)
    ensures id !in r && r.Keys == cart.Keys - {id}
    ensures forall k :: k in r ==> r[k] == cart[k]
    ensures AllPositive(cart) ==> AllPositive(r)
  {
    cart - {id}
  }

  /** Adding a delta is setting the clamped sum: `addToCart` and
      `updateCartQty` agree. */
  lemma AddedToIsSetQty(cart: Cart, id: string, qty: int)
    ensures AddedTo(cart, id, qty) == SetQty(cart, id, Max0(Qty(cart, id) + qty))
  {
    var a, b := AddedTo(cart, id, qty), SetQty(cart, id, Max0(Qty(cart, id) + qty));
    assert a.Keys == b.Keys;
    assert forall k :: k in a ==> a[k] == b[k] by {
      forall k | k in a ensures a[k] == b[k] {
        assert Qty(a, k) == Qty(b, k);
      }
    }
  }

  /** The cart sheet's minus and plus buttons, which call `updateCartQty`
      with `max(0, q - 1)` and `q + 1`, act exactly like `addToCart` with a
      delta of -1 and +1. */
  lemma CartSheetButtons(cart: Cart, id: string)
    ensures SetQty(cart, id, Max0(Qty(cart, id) - 1)) == AddedTo(cart, id, -1)
    ensures SetQty(cart, id, Qty(cart, id) + 1) == AddedTo(cart, id, 1)
  {
    AddedToIsSetQty(cart, id, -1);
    AddedToIsSetQty(cart, id, 1);
    if Qty(cart, id) + 1 <= 0 {
      assert SetQty(cart, id, Qty(cart, id) + 1) == cart - {id} == SetQty(cart, id, 0);
    }
  }

  /** A delta that brings the quantity to zero or below removes the entry,
      whatever the quantity was: the cart never holds a negative quantity. */
  lemma LargeDecrementRemoves(cart: Cart, id: string, qty: int)
    requires Qty(cart, id) + qty <= 0
    ensures id !in AddedTo(cart, id, qty)
    ensures forall k :: k in AddedTo(cart, id, qty) ==> k in cart && AddedTo(cart, id, qty)[k] == cart[k]
  {
    var r := AddedTo(cart, id, qty);
    forall k | k in r ensures k in cart && r[k] == cart[k] {
      assert Qty(r, k) == Qty(cart, k);
    }
  }

  /** `Object.values(cart).reduce((a, b) => a + b, 0)`: the sum of all the
      quantities, including those of ids no longer on the menu. */
  ghost function TotalItems(cart: Cart): (n: int)
    ensures AllPositive(cart) ==> n >= |cart|
    decreases |cart|
  {
    if cart == map[] then 0
    else
      var k :| k in cart;
      DeleteShrinks(cart, k);
      cart[k] + TotalItems(cart - {k})
  }

  /** Deleting a present key leaves one entry fewer. */
  lemma DeleteShrinks(cart: Cart, k: string)
    requires k in cart
    ensures |cart - {k}| == |cart| - 1
  {
    assert (cart - {k}).Keys == cart.Keys - {k};
  }

  /** The sum does not depend on which key is taken first. */
  lemma {:induction false} TotalItemsRemove(cart: Cart, k: string)
    requires k in cart
    ensures TotalItems(cart) == cart[k] + TotalItems(cart - {k})
    decreases |cart|
  {
    var j :| j in cart && TotalItems(cart) == cart[j] + TotalItems(cart - {j});
    if j != k {
      DeleteShrinks(cart, j);
      DeleteShrinks(cart, k);
      TotalItemsRemove(cart - {j}, k);
      TotalItemsRemove(cart - {k}, j);
      DeletesCommute(cart, j, k);
    }
  }

  lemma UpdateThenDelete(cart: Cart, k: string, v: int)
    ensures cart[k := v] - {k} == cart - {k}
  {
  }

  lemma DeleteAbsent(cart: Cart, k: string)
    requires k !in cart
    ensures cart - {k} == cart
  {
  }

  lemma DeletesCommute(cart: Cart, j: string, k: string)
    ensures cart - {j} - {k} == cart - {k} - {j}
  {
  }

  /** Setting one entry changes the item count by the difference. */
  lemma TotalItemsUpdate(cart: Cart, k: string, v: int)
    ensures TotalItems(cart[k := v]) == TotalItems(cart) - Qty(cart, k) + v
  {
    TotalItemsRemove(cart[k := v], k);
    UpdateThenDelete(cart, k, v);
    if k in cart {
      TotalItemsRemove(cart, k);
    } else {
      DeleteAbsent(cart, k);
    }
  }

  /** Deleting one entry lowers the item count by its quantity. */
  lemma TotalItemsDelete(cart: Cart, k: string)
    ensures TotalItems(cart - {k}) == TotalItems(cart) - Qty(cart, k)
  {
    if k in cart {
      TotalItemsRemove(cart, k);
    } else {
      DeleteAbsent(cart, k);
    }
  }

  /** How `addToCart` moves the item count: the old quantity of `id` is
      replaced by the clamped new one. Adding one dish to a cart that keeps
      its invariant raises the count by exactly one. */
  lemma TotalItemsAddedTo(cart: Cart, id: string, qty: int)
    ensures TotalItems(AddedTo(cart, id, qty)) == TotalItems(cart) - Qty(cart, id) + Max0(Qty(cart, id) + qty)
    ensures AllPositive(cart) && qty == 1 ==> TotalItems(AddedTo(cart, id, qty)) == TotalItems(cart) + 1
  {
    var n := Max0(Qty(cart, id) + qty);
    TotalItemsUpdate(cart, id, n);
    if n == 0 {
      TotalItemsDelete(cart[id := n], id);
      assert cart[id := n] - {id} == AddedTo(cart, id, qty);
    }
  }

  /** How `updateCartQty` moves the item count. */
  lemma TotalItemsSetQty(cart: Cart, id: string, qty: int)
    ensures TotalItems(SetQty(cart, id, qty)) == TotalItems(cart) - Qty(cart, id) + (if qty <= 0 then 0 else qty)
  {
    if qty <= 0 {
      TotalItemsDelete(cart, id);
    } else {
      TotalItemsUpdate(cart, id, qty);
    }
  }

  /** How `removeFromCart` moves the item count. */
  lemma TotalItemsRemoved(cart: Cart, id: string)
    ensures TotalItems(Removed(cart, id)) == TotalItems(cart) - Qty(cart, id)
  {
    TotalItemsDelete(cart, id);
  }

  /** The footer shows "0 items" exactly when a well-formed cart is empty. */
  lemma TotalItemsZeroIff(cart: Cart)
    requires AllPositive(cart)
    ensures TotalItems(cart) == 0 <==> cart == map[]
  {
    if cart != map[] {
      var k :| k in cart;
      assert |cart| > 0;
    }
  }

  /** `m => cart[m.id]`: the dish has a truthy (present, non-zero) quantity. */
  function InCart(cart: Cart): Dish -> bool {
    (d: Dish) => Qty(cart, d.id) != 0
  }

  /** `menu.filter(m => cart[m.id])`: the menu dishes shown in the cart sheet. */
  function CartItems(menu: seq<Dish>, cart: Cart): (r: seq<Dish>)
    ensures IsSubseq(r, menu)
    ensures forall d :: multiset(r)[d] == if Qty(cart, d.id) != 0 then multiset(menu)[d] else 0
  {
    FilterIsSubseq(menu, InCart(cart));
    forall d ensures multiset(Filter(menu, InCart(cart)))[d] == if Qty(cart, d.id) != 0 then multiset(menu)[d] else 0 {
      FilterCount(menu, InCart(cart), d);
    }
    Filter(menu, InCart(cart))
  }

  /** `(cart[m.id] || 0) * m.price`: one line of the cart. */
  function LineTotal(cart: Cart, d: Dish): real {
    Qty(cart, d.id) as real * d.price
  }

  /** `items.reduce((s, m) => s + (cart[m.id] || 0) * m.price, 0)`. */
  function SumLines(items: seq<Dish>, cart: Cart): real {
    if items == [] then 0.0 else LineTotal(cart, items[0]) + SumLines(items[1..], cart)
  }

  /** `totalPrice`: the sum of the lines of the cart items. It equals the
      sum of price times quantity over EVERY dish of the menu (a dish not in
      the cart contributes nothing), so keys that are not on the menu never
      count. */
  function TotalPrice(menu: seq<Dish>, cart: Cart): (r: real)
    ensures r == SumLines(menu, cart)
  {
    TotalPriceOverMenu(menu, cart);
    SumLines(Filter(menu, InCart(cart)), cart)
  }

  /** Leaving out the dishes that are not in the cart does not change the
      sum of the lines. */
  lemma {:induction false} TotalPriceOverMenu(menu: seq<Dish>, cart: Cart)
    ensures SumLines(Filter(menu, InCart(cart)), cart) == SumLines(menu, cart)
    decreases |menu|
  {
    if menu != [] {
      TotalPriceOverMenu(menu[1..], cart);
      var items, rest := Filter(menu, InCart(cart)), Filter(menu[1..], InCart(cart));
      if Qty(cart, menu[0].id) != 0 {
        assert items == [menu[0]] + rest;
        assert items[1..] == rest;
      } else {
        assert items == rest;
        assert LineTotal(cart, menu[0]) == 0.0;
      }
    }
  }

  /** Two carts that agree on the quantities of the menu's dishes have the
      same money total: orphaned entries are ignored. */
  lemma {:induction false} TotalPriceIgnoresOrphans(menu: seq<Dish>, c1: Cart, c2: Cart)
    requires forall d :: d in menu ==> Qty(c1, d.id) == Qty(c2, d.id)
    ensures TotalPrice(menu, c1) == TotalPrice(menu, c2)
  {
    SumLinesAgree(menu, c1, c2);
  }

  lemma {:induction false} SumLinesAgree(items: seq<Dish>, c1: Cart, c2: Cart)
    requires forall d :: d in items ==> Qty(c1, d.id) == Qty(c2, d.id)
    ensures SumLines(items, c1) == SumLines(items, c2)
    decreases |items|
  {
    if items != [] {
      assert items[0] in items;
      SumLinesAgree(items[1..], c1, c2);
    }
  }

  /** With non-negative prices and a well-formed cart the total is never
      negative. */
  lemma {:induction false} TotalPriceNonNegative(menu: seq<Dish>, cart: Cart)
    requires AllPositive(cart)
    requires forall d :: d in menu ==> d.price >= 0.0
    ensures TotalPrice(menu, cart) >= 0.0
  {
    SumLinesNonNegative(menu, cart);
  }

  lemma {:induction false} SumLinesNonNegative(items: seq<Dish>, cart: Cart)
    requires AllPositive(cart)
    requires forall d :: d in items ==> d.price >= 0.0
    ensures SumLines(items, cart) >= 0.0
    decreases |items|
  {
    if items != [] {
      assert items[0] in items;
      var q := Qty(cart, items[0].id) as real;
      assert q >= 0.0;
      assert q * items[0].price >= 0.0;
      SumLinesNonNegative(items[1..], cart);
    }
  }

  /** An empty cart shows 0 items and a total of 0. */
  lemma EmptyCartTotals(menu: seq<Dish>)
    ensures TotalItems(map[]) == 0
    ensures TotalPrice(menu, map[]) == 0.0
  {
    FilterNoneAccepted(menu, InCart(map[]));
  }

  /** An orphan still counts as items but never as money: with "A" at 30 and
      "B" at 20 on the menu, the cart {A: 2, B: 1, C: 5} (where "C" was
      removed from the menu) shows 8 items and a total of 80. */
  lemma OrphanScenario()
    ensures var menu := [Dish("A", "Pasta", None, Mains, 30.0, 1), Dish("B", "Cake", None, Desserts, 20.0, 2)];
            var cart := map["A" := 2, "B" := 1, "C" := 5];
            TotalItems(cart) == 8 && TotalPrice(menu, cart) == 80.0
  {
    OrphanItems(map["A" := 2, "B" := 1, "C" := 5]);
    OrphanMoney([Dish("A", "Pasta", None, Mains, 30.0, 1), Dish("B", "Cake", None, Desserts, 20.0, 2)],
                map["A" := 2, "B" := 1, "C" := 5]);
  }

  lemma OrphanItems(cart: Cart)
    requires cart == map["A" := 2, "B" := 1, "C" := 5]
    ensures TotalItems(cart) == 8
  {
    TotalItemsOfThree("A", "B", "C", 2, 1, 5);
  }

  /** A cart of three distinct keys counts the sum of its three values. */
  lemma TotalItemsOfThree(a: string, b: string, c: string, x: int, y: int, z: int)
    requires a != b && a != c && b != c
    ensures TotalItems(map[a := x, b := y, c := z]) == x + y + z
  {
    var c0: Cart := map[];
    var c1 := c0[a := x];
    var c2 := c1[b := y];
    TotalItemsUpdate(c0, a, x);
    TotalItemsUpdate(c1, b, y);
    TotalItemsUpdate(c2, c, z);
  }

  lemma OrphanMoney(menu: seq<Dish>, cart: Cart)
    requires menu == [Dish("A", "Pasta", None, Mains, 30.0, 1), Dish("B", "Cake", None, Desserts, 20.0, 2)]
    requires cart == map["A" := 2, "B" := 1, "C" := 5]
    ensures TotalPrice(menu, cart) == 80.0
  {
    assert Qty(cart, "A") == 2 && Qty(cart, "B") == 1;
    assert menu[1..][1..] == [];
    assert SumLines(menu[1..], cart) == 20.0;
  }
}
