# Chef Christoffel menu and cart core, in Dafny

Chef Christoffel is a restaurant menu app written in React Native. It exists in two versions:

- a single-file app, `Mast_POE_2/App.tsx`. It has a customer view with a search, a course filter, per-course price averages and a cart, and it has a manager view.
- a two-screen app, `Mast_POE_2/chef-christoffel-menu-1/src`, made of `App.tsx` and the screens `Customer.tsx` and `Chef.tsx`.

This project models the domain rules of both, without rendering and storage:

- the dish record and the menu list operations. The single-file app's `add` prepends the new dish, and the two-screen app's `addDish` appends it. Both versions have removal by id.
- the cart: a map from dish id to quantity. Four operations change it: `addToCart`, `updateCartQty`, `removeFromCart` and `clearCart`. All of them keep the invariant that no quantity of zero or less is stored.
- the derived views:
  - the visible dishes in both variants. `visible` trims the query before matching and `filteredMenu` does not.
  - the per-course count and average price.
  - the cart's item count and money total.
- the manager form: the validation of "Add Dish", the form reset after a successful add, and the Reset button.

Modules:

- `JsString` (jsstring.dfy): `trim`, `toLowerCase` and `includes`.
- `Seqs` (seqs.dfy): `filter` and order-preserving subsequences.
- `Menu` (menu.dfy): the data model and the list operations both apps share.
- `PoeCart` (poe_cart.dfy): the cart operations and cart totals of the single-file app.
- `PoeViews` (poe_views.dfy): the single-file app's `visible` and `averages` views.
- `PoeApp` (poe_app.dfy): the single-file app's state class.
- `ChefScreen` (chef_screen.dfy): the manager form.
- `CustomerScreen` (customer_screen.dfy): `filteredMenu`.
- `MenuApp` (menu_app.dfy): the two-screen app's state class.

The single-file app's `Chef` component (`Mast_POE_2/App.tsx:133-140`, Reset at line 154) has the same code as `Chef.tsx`. `ChefScreen` models both.

Modelling choices:

- Prices are `real`. Quantities are unbounded integers.
- The value of `parseFloat` is an input that is either NaN or a number.
- Dish ids and timestamps are parameters.
- A save to storage is modelled as a field recording the last value saved.
- A removal is modelled as its confirmed branch (`del`).
- The model follows the code as written:
  - `totalItems` sums *every* cart value, including entries whose dish was removed from the menu. Removing a dish never touches the cart. `PoeCart.OrphanScenario` shows a cart with such an orphan: it counts 8 items but adds up only the money of the dishes still on the menu.
  - The two apps place a new dish at opposite ends of the menu. Each is modelled as written.
  - A cart key counts as in the cart for `cartItems` when its value is truthy, i.e. present and non-zero.

## Model

| member | source | states |
|---|---|---|
| JsString.TrimStart | Mast_POE_2/App.tsx:96 | the result is a suffix of the input, everything removed is whitespace, and the result does not start with whitespace |
| JsString.TrimEnd | Mast_POE_2/App.tsx:96 | the result is a prefix of the input, everything removed is whitespace, and the result does not end with whitespace |
| JsString.Trim | Mast_POE_2/App.tsx:96 | `trim` yields a slice of the input with only whitespace outside it and no whitespace at either end |
| JsString.TrimEmptyIff | Mast_POE_2/chef-christoffel-menu-1/src/screens/Chef.tsx:14 | a string trims to "" if and only if it is whitespace only |
| JsString.TrimIdempotent | Mast_POE_2/chef-christoffel-menu-1/src/screens/Chef.tsx:17 | trimming a trimmed string changes nothing |
| JsString.LowerChar | Mast_POE_2/App.tsx:97 | A to Z map to a to z (code point + 32); every other character is kept |
| JsString.ToLower | Mast_POE_2/App.tsx:96-97 | `ToLower` keeps the length and lowers each character in place through `LowerChar` |
| JsString.ToLowerIdempotent | Mast_POE_2/App.tsx:96-97 | lowering twice equals lowering once |
| JsString.Includes | Mast_POE_2/App.tsx:97 | a found query is no longer than the text; the empty query is always found |
| JsString.IncludesIff | Mast_POE_2/App.tsx:97 | `includes` holds if and only if the query occurs at some position of the text |
| Seqs.Filter | Mast_POE_2/App.tsx:95 | `filter` returns no more elements than it got, and only accepted ones |
| Seqs.FilterIsSubseq | Mast_POE_2/App.tsx:95 | `filter` keeps the input order: its result is a subsequence of its input |
| Seqs.FilterCount | Mast_POE_2/App.tsx:95 | `filter` keeps each accepted element as often as it occurs and drops every other element |
| Seqs.FilterAllAccepted | Mast_POE_2/chef-christoffel-menu-1/src/App.tsx:36 | a filter that accepts every element returns its input |
| Seqs.FilterNoneAccepted | Mast_POE_2/App.tsx:216 | a filter that accepts no element returns the empty list |
| Menu.NewDish | Mast_POE_2/App.tsx:198 | the new dish carries every draft field unchanged, plus the given id and createdAt |
| Menu.NewDishOfDraftOf | Mast_POE_2/chef-christoffel-menu-1/src/App.tsx:31 | a dish is rebuilt exactly from its draft fields, id and timestamp |
| Menu.DescriptionOrEmpty | Mast_POE_2/App.tsx:97 | a missing description searches as the empty string; used by `Mentions` |
| Menu.Mentions | Mast_POE_2/App.tsx:97 | the lowered name or the lowered description contains the query; `Visible` and `FilteredMenu` state which dishes it keeps |
| Menu.PassesFilter | Mast_POE_2/App.tsx:95 | `"All"` passes every dish, a course only its own; `CourseStep` shows the course step keeps exactly these |
| Menu.WithoutId | Mast_POE_2/App.tsx:200 | after removing `id`, the ids on the menu are the old ids minus `id` |
| Menu.WithoutIdKeepsOthers | Mast_POE_2/App.tsx:200 | removal keeps exactly the dishes whose id differs, with their multiplicities, in their original order |
| Menu.WithoutAbsentId | Mast_POE_2/chef-christoffel-menu-1/src/App.tsx:36 | removing an id that is not on the menu leaves the menu unchanged |
| Menu.WithoutIdIdempotent | Mast_POE_2/chef-christoffel-menu-1/src/App.tsx:36 | removing twice equals removing once |
| Menu.WithoutIdCons | Mast_POE_2/App.tsx:200 | the head of the menu survives removal exactly when its id differs |
| Menu.WithoutIdKeepsUnique | Mast_POE_2/App.tsx:200 | removal keeps ids unique |
| Menu.WithoutPresentId | Mast_POE_2/App.tsx:200 | with unique ids, removing a present id shortens the menu by exactly one |
| Menu.FreshIdKeepsUnique | Mast_POE_2/App.tsx:198 | adding a dish with a new id keeps ids unique, at the front or at the end, and adds exactly that id |
| PoeCart.Max0 | Mast_POE_2/App.tsx:206 | `Math.max(0, n)` is at least `n`, and is either 0 or `n` |
| PoeCart.AddedTo | Mast_POE_2/App.tsx:205-206 | `id` holds max(0, old + qty), a missing key counting as 0, and is deleted when that is 0; other keys are unchanged; positivity is preserved |
| PoeCart.SetQty | Mast_POE_2/App.tsx:210 | `id` is deleted when qty <= 0 and is otherwise set to exactly qty; other keys are unchanged; positivity is preserved |
| PoeCart.Removed | Mast_POE_2/App.tsx:211 | only `id` is deleted; every other entry is unchanged; positivity is preserved |
| PoeCart.AddedToIsSetQty | Mast_POE_2/App.tsx:205-210 | adding a delta equals setting the clamped sum |
| PoeCart.CartSheetButtons | Mast_POE_2/App.tsx:257-259 | the cart sheet's minus and plus buttons act as `addToCart` with -1 and +1 |
| PoeCart.LargeDecrementRemoves | Mast_POE_2/App.tsx:206 | a delta that brings the quantity to 0 or below deletes the entry and leaves the rest unchanged |
| PoeCart.TotalItems | Mast_POE_2/App.tsx:217 | for a positive cart the item count is at least the number of entries |
| PoeCart.TotalItemsRemove | Mast_POE_2/App.tsx:217 | the sum of the values takes out any key's value first: the result does not depend on key order |
| PoeCart.TotalItemsUpdate | Mast_POE_2/App.tsx:217 | setting one entry changes the item count by the difference |
| PoeCart.TotalItemsDelete | Mast_POE_2/App.tsx:217 | deleting one entry lowers the item count by its quantity |
| PoeCart.TotalItemsAddedTo | Mast_POE_2/App.tsx:205-217 | `addToCart` replaces the old quantity with the clamped one in the count; adding one dish to a positive cart adds exactly 1 |
| PoeCart.TotalItemsSetQty | Mast_POE_2/App.tsx:210-217 | how `updateCartQty` moves the item count |
| PoeCart.TotalItemsRemoved | Mast_POE_2/App.tsx:211-217 | `removeFromCart` lowers the item count by the removed quantity |
| PoeCart.TotalItemsZeroIff | Mast_POE_2/App.tsx:217 | a positive cart counts 0 items if and only if it is empty |
| PoeCart.CartItems | Mast_POE_2/App.tsx:216 | the cart items are the menu dishes with a non-zero quantity, in menu order, with their multiplicities |
| PoeCart.Qty | Mast_POE_2/App.tsx:206 | the quantity read as `cart[id]` with 0 for a missing key; characterised through the contracts of `AddedTo`, `SetQty` and `TotalItemsUpdate` |
| PoeCart.InCart | Mast_POE_2/App.tsx:216 | `m => cart[m.id]`, the truthy test; characterised by the contract of `CartItems` |
| PoeCart.LineTotal | Mast_POE_2/App.tsx:218 | one line of the total, the quantity (0 when missing) times the price; a dish not in the cart contributes 0 (`TotalPriceOverMenu`) |
| PoeCart.SumLines | Mast_POE_2/App.tsx:218 | the `reduce` adding up the lines from 0; characterised by `TotalPriceOverMenu`, `SumLinesAgree` and `SumLinesNonNegative` |
| PoeCart.TotalPrice | Mast_POE_2/App.tsx:218 | `totalPrice` equals the sum of quantity times price over the whole menu, so orphaned cart entries add no money |
| PoeCart.TotalPriceOverMenu | Mast_POE_2/App.tsx:216-218 | leaving out the dishes not in the cart does not change the sum of quantity times price |
| PoeCart.TotalPriceIgnoresOrphans | Mast_POE_2/App.tsx:216-218 | carts that agree on the menu's dishes have the same total: orphaned entries never count as money |
| PoeCart.TotalPriceNonNegative | Mast_POE_2/App.tsx:218 | with non-negative prices and a positive cart, the total is at least 0 |
| PoeCart.EmptyCartTotals | Mast_POE_2/App.tsx:216-218 | the empty cart has 0 items and a total of 0 |
| PoeCart.OrphanScenario | Mast_POE_2/App.tsx:216-218 | the orphan entry of cart {A: 2, B: 1, C: 5} is counted as items (8) but not as money (80 for A at 30 and B at 20) |
| PoeCart.TotalItemsOfThree | Mast_POE_2/App.tsx:217 | a cart of three distinct keys counts the sum of its three values |
| PoeViews.NormalizedQueryEmptyIff | Mast_POE_2/App.tsx:96-97 | the trimmed, lowered query is empty, so no text filter applies, if and only if the query is blank |
| PoeViews.NormalizedQuery | Mast_POE_2/App.tsx:96 | `q.trim().toLowerCase()`; characterised by `NormalizedQueryEmptyIff` |
| PoeViews.CourseItems | Mast_POE_2/App.tsx:95 | the course step, shared with `filteredMenu`; `CourseStep` shows it keeps exactly the dishes passing the filter, in order |
| PoeViews.Searched | Mast_POE_2/App.tsx:97 | the text step, shared with `filteredMenu`; `SearchStep` states what the two steps keep |
| PoeViews.SearchStep | Mast_POE_2/App.tsx:95-97 | the course step followed by an optional text filter keeps a dish, in menu order and as often as it occurs, exactly when it passes the course filter and, if searching, mentions the query |
| PoeViews.Visible | Mast_POE_2/App.tsx:94-98 | `visible` is a subsequence of the menu keeping a dish, with its multiplicity, exactly when it passes the course filter and, for a non-blank query, its lowered name or description contains the trimmed, lowered query |
| PoeViews.CourseStep | Mast_POE_2/App.tsx:95 | "All" passes the menu through; a course keeps exactly its dishes, in order |
| PoeViews.VisibleAllBlank | Mast_POE_2/App.tsx:94-98 | "All" with a blank query shows the whole menu |
| PoeViews.FilterCourseAgrees | Mast_POE_2/App.tsx:103-104 | the length and price sum of a course's filtered list are its count and its price sum |
| PoeViews.SumPrices | Mast_POE_2/App.tsx:104 | `items.reduce((s, i) => s + i.price, 0)`; `FilterCourseAgrees` shows it equals the course's price sum |
| PoeViews.Averages | Mast_POE_2/App.tsx:100-107 | `averages` has an entry for every course; each entry's count is the number of dishes of that course, and its avg is the price sum over the count, or 0 when the count is 0 |
| PoeViews.AverageWithinBounds | Mast_POE_2/App.tsx:104 | a course's average lies between its lowest and highest price |
| PoeViews.PriceSumAbove | Mast_POE_2/App.tsx:104 | a course's price sum is at least `count` copies of a lower bound on its prices |
| PoeViews.PriceSumBelow | Mast_POE_2/App.tsx:104 | a course's price sum is at most `count` copies of an upper bound on its prices |
| PoeViews.AverageOfEmptyAndNonEmptyCourse | Mast_POE_2/App.tsx:104 | an empty course has sum and average 0, so no division by zero happens; otherwise `count` copies of the average add up to the sum |
| PoeViews.AverageIsQuotient | Mast_POE_2/App.tsx:104 | for a course with dishes, the average is the price sum divided by the count |
| PoeViews.EmptyCourseSumsToZero | Mast_POE_2/App.tsx:103-104 | a course with no dishes has price sum 0 |
| PoeViews.AverageTimesCount | Mast_POE_2/App.tsx:104 | for a course with dishes, `count` copies of the average add up to the price sum |
| PoeViews.AveragesScenario | Mast_POE_2/App.tsx:100-107 | Starters at 50 and 70 with one Main at 100 give 2 at 60, 1 at 100 and 0 at 0 |
| PoeApp.App.constructor | Mast_POE_2/App.tsx:183-187 | the app starts with an empty menu, an empty cart and nothing saved |
| PoeApp.App.Persist | Mast_POE_2/App.tsx:195 | the menu becomes the given list, and that list is saved; the cart is untouched |
| PoeApp.App.PersistCart | Mast_POE_2/App.tsx:196 | the cart becomes the given map, and that map is saved; the menu is untouched |
| PoeApp.App.Add | Mast_POE_2/App.tsx:198 | the menu is one longer; its head is the new dish and its tail is the old menu; it is saved; the cart is untouched; a fresh id keeps ids unique |
| PoeApp.App.Remove | Mast_POE_2/App.tsx:199-200 | the menu loses the dishes with that id and is saved; the cart is untouched; an absent id changes nothing; ids stay unique |
| PoeApp.App.AddToCart | Mast_POE_2/App.tsx:205-207 | the cart becomes `AddedTo` of the old cart and is saved, with `qty` defaulting to 1 as for a card's Add button; the menu is untouched; positivity is preserved |
| PoeApp.App.UpdateCartQty | Mast_POE_2/App.tsx:210 | the cart becomes `SetQty` of the old cart and is saved; the menu is untouched; positivity is preserved |
| PoeApp.App.RemoveFromCart | Mast_POE_2/App.tsx:211 | the cart becomes `Removed` of the old cart and is saved; the menu is untouched; positivity is preserved |
| PoeApp.App.ClearCart | Mast_POE_2/App.tsx:212 | the cart becomes the empty map and is saved; the menu is untouched |
| ChefScreen.Validate | Mast_POE_2/chef-christoffel-menu-1/src/screens/Chef.tsx:14-17 | name alert if and only if the name is blank; price alert if and only if the name is not blank and the price is NaN or negative; otherwise `add` gets the trimmed name, the trimmed description, the course and the price |
| ChefScreen.AlertText | Mast_POE_2/chef-christoffel-menu-1/src/screens/Chef.tsx:14-16 | no message after an add; otherwise the name alert's or the price alert's text, never empty |
| ChefScreen.AlertOfValidate | Mast_POE_2/chef-christoffel-menu-1/src/screens/Chef.tsx:14-16 | "Enter dish name." is shown exactly for a blank name, "Enter valid price." exactly for a non-blank name with a NaN or negative price, and nothing otherwise |
| ChefScreen.BlankNameWins | Mast_POE_2/chef-christoffel-menu-1/src/screens/Chef.tsx:14-16 | a blank name gives the name alert whatever the price: the name is checked first |
| ChefScreen.ZeroPriceAccepted | Mast_POE_2/chef-christoffel-menu-1/src/screens/Chef.tsx:15-17 | a price of exactly 0 with a non-blank name is added |
| ChefScreen.AddedDraftWellFormed | Mast_POE_2/chef-christoffel-menu-1/src/screens/Chef.tsx:17 | every draft passed to `add` has a non-blank, trimmed name, a trimmed description and a non-negative price |
| ChefScreen.ChefForm.constructor | Mast_POE_2/chef-christoffel-menu-1/src/screens/Chef.tsx:8-11 | the form starts with name "", description "", course Mains and price "" |
| ChefScreen.ChefForm.Submit | Mast_POE_2/chef-christoffel-menu-1/src/screens/Chef.tsx:13-22 | the outcome is `Validate` of the fields; after an add the form holds the defaults; after an alert every field is unchanged |
| ChefScreen.ChefForm.Reset | Mast_POE_2/chef-christoffel-menu-1/src/screens/Chef.tsx:46 | the form holds the defaults, and no outcome (no `add`) is produced |
| CustomerScreen.FilteredMenu | Mast_POE_2/chef-christoffel-menu-1/src/screens/Customer.tsx:12-19 | `filteredMenu` is a subsequence of the menu keeping a dish, with its multiplicity, exactly when it passes the course filter and, for a non-blank query, its lowered name or description contains the lowered, untrimmed query |
| CustomerScreen.BlankQueryOnlyFiltersCourse | Mast_POE_2/chef-christoffel-menu-1/src/screens/Customer.tsx:13-14 | with a blank query, "All" gives the menu and a course gives exactly that course's dishes |
| CustomerScreen.InitialStateShowsMenu | Mast_POE_2/chef-christoffel-menu-1/src/screens/Customer.tsx:9-19 | the initial state, "All" and search "", shows the menu unchanged |
| CustomerScreen.AgreesWithVisibleOnTrimmedQuery | Mast_POE_2/chef-christoffel-menu-1/src/screens/Customer.tsx:14-16 | for a query with no surrounding whitespace, `filteredMenu` equals the single-file app's `visible` |
| CustomerScreen.TrailingSpaceDivergence | Mast_POE_2/chef-christoffel-menu-1/src/screens/Customer.tsx:15 | the query "soup " finds "Soup" in `visible` but not in `filteredMenu`, because it is not trimmed before matching |
| MenuApp.App.constructor | Mast_POE_2/chef-christoffel-menu-1/src/App.tsx:15-16 | the app starts with an empty menu on the customer screen, with nothing saved |
| MenuApp.App.Persist | Mast_POE_2/chef-christoffel-menu-1/src/App.tsx:25-28 | the menu becomes exactly the given list, and that same list is saved |
| MenuApp.App.AddDish | Mast_POE_2/chef-christoffel-menu-1/src/App.tsx:30-33 | the new menu is the old one followed by the new dish, one longer, with the draft fields, id and createdAt; it is saved; a fresh id keeps ids unique |
| MenuApp.App.RemoveDish | Mast_POE_2/chef-christoffel-menu-1/src/App.tsx:35-38 | the menu keeps the dishes with another id and is saved; an absent id changes nothing; ids stay unique |
| MenuApp.App.OpenManager | Mast_POE_2/chef-christoffel-menu-1/src/App.tsx:46 | the screen becomes the manager screen; the menu is untouched |
| MenuApp.App.Back | Mast_POE_2/chef-christoffel-menu-1/src/App.tsx:48 | the screen returns to the customer screen; the menu is untouched |

## Left out

- Storage: `load`, `save`, `loadCart`, `saveCart`, and `utils/storage.ts`. These are AsyncStorage I/O and JSON serialisation. A save is recorded as the last value saved, and the initial load is not modelled.
- `MenuApp.App.Persist`: records the list passed to `save`. The model does not capture that the two-screen app imports `load` and `save` from `utils/storage.ts`, which exports only `loadMenuItems` and `saveMenuItems` (chef-christoffel-menu-1/src/App.tsx:8), nor that it imports `THEME` and `COURSES` from `styles/theme.ts`, which exports only `colors` and `themes`. As written, the imported names do not match those modules' exports.
- The await ordering of saves. It concerns I/O, not the menu rules.
- `Date.now()`. The id and the timestamp are parameters of `Add` and `AddDish`, and the model does not rule out a colliding id. Uniqueness is proved only under a fresh id.
- `parseFloat`. It is a library parser: `ChefScreen.ParsedNumber` stands for its result.
- Infinity results of `parseFloat`, and IEEE floating point in general. Prices are exact reals. `toFixed(2)` is display formatting.
- The confirmation dialogs: `Alert.alert` and `window.confirm`. `Remove` is the confirmed `del` branch, and the validation alerts are the outcomes `NameAlert` and `PriceAlert`.
- `JsString.LowerChar`: maps only the ASCII letters. `toLowerCase` also lowers non-ASCII letters, and the model does not specify the Unicode case tables. Full Unicode lowering can also change a string's length ("İ" lowers to two code units), which `ToLower` does not model.
- The single-file app's screen state ("customer", "chef", "filter"), its `FilterScreen`, its theme, its `cartOpen` flag and the `Animated` pulse. They are navigation and UI effects. The course filter itself is the `filter` parameter of `PoeViews.Visible`.
- The text-field setters of the manager and customer screens (`setName`, `setDesc`, `setCourse`, `setPrice`, `setQ`, `setSearchQuery`, and the customer screen's `setFilter`). They only store what is typed or chosen, so the form, the query and the course filter are modelled as inputs.
- Rendering and styling: the components `Card`, `Nav`, `Header` and `ThemeSwitcher`, the style modules, `makeStyles` and `courseColor`.
