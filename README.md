# Food-details cart state

A Dafny model of the order-cart state of the food-details screen of a food-ordering
mobile app (`src/pages/FoodDetails/index.tsx`). The screen shows one food with its
optional extras. The user can change how many portions and how many of each extra to
order, toggle the food as a favourite, and confirm the order. The model covers:

- **Entities** (`entities.dfy`): the `Extra`, `Food` and favourite records, plus
  `Option`, `Result` and `Outcome` for the handlers' one error ("Extra not found!").
  Prices and values are integers in cents.
- **Lookup** (`lookup.dfy`): the first record with a given id, as `Array.prototype.find` picks it.
- **Extras** (`extras.dfy`): the list `loadFood` stores (every fetched extra with quantity 0).
  The increment and decrement handlers as functions on the list: find by id, change the
  quantity, write back with a `map` that replaces every entry with that id.
- **Totals** (`totals.dfy`): `cartTotal` exactly as written. Also the total with every
  extra counted, from which it departs, a step-by-step method that mirrors the `let` accumulator and the `reduce`, and the
  `POST /orders` payload.
- **Favorites** (`favorites.dfy`): the favourite lookup done on load, the request
  `toggleFavorite` sends, and the header icon name.
- **Screen** (`screen.dfy`): the class `FoodDetailsState`. Its fields are `food`, `extras`,
  `isFavorite`, `foodQuantity` and `favoriteFood`, and its methods are the handlers.
  `Valid()` holds in every reachable state: at least one portion, no negative extra
  quantity, and no extras before the food has loaded. The constructor establishes it and
  every handler keeps it. Four client methods run whole scenarios on a fresh screen.

Network results are inputs: `LoadFood` takes the fetched food and the fetched favourites.
Requests are returned as values (`FavoriteRequest`, `OrderRequest`). Whether a favourite
request completed is a `completed` parameter of `ToggleFavorite`. The empty record `{}`
that the screen holds for `food` and for the favourite before anything is loaded is
modelled as `None`. So the total before loading is `None`, standing for JavaScript's `NaN`.

Points where the code behaves in a way a reader might not expect; the model reproduces
each one as written:

- **Cart total.** `reduce` with no initial value (line 184) throws only on an empty array.
  The guard around it at line 183 is `> 1`, where `> 0` would have been enough, so a lone
  extra is dropped as well. One food of 20.00 ordered twice, with one extra of 5.00 taken
  three times, shows 40.00, while counting every extra gives 55.00
  (`Totals.SingleExtraExample`). `Totals.CartTotalMatchesFormulaIff` states exactly when
  the shown total and the total with every extra counted agree.
- **Un-favouriting.** The favourite record is stored only by `loadFood`, and only when the
  lookup finds a match (lines 85-87). `toggleFavorite` never stores one, and a load that
  finds no match keeps the record it had. Un-favouriting deletes `/favorites/{id}` with
  the id of the record held at that moment:
  - if no load of this screen has found a favourite, the id is `undefined`
    (`Screen.FavoriteThenUnfavorite`);
  - otherwise it is the id of the last favourite any load found, even one deleted earlier,
    or one that belongs to a food loaded before a route change (`Screen.StaleFavoriteAfterReload`).
- **Favourite body.** The favourites are typed `Omit<Food, 'extras'>` (lines 69 and 81),
  but line 169 posts the whole `food` record, extras included.
- **Duplicate extra ids.** With duplicate extra ids the handlers write the first match's
  object back under every entry with that id (`Extras.IncrementDuplicateIds`). The
  "only this entry changes" lemmas assume distinct ids.

## Model

| member | source | states |
|---|---|---|
| Lookup.FirstIndexOf | src/pages/FoodDetails/index.tsx:83 | None exactly when no id matches; otherwise an index holding the id with no match before it (the first match) |
| Lookup.FirstIndexOfDistinct | src/pages/FoodDetails/index.tsx:104 | with distinct ids the lookup returns the one position holding the id |
| Extras.FindExtra | src/pages/FoodDetails/index.tsx:104 | the extra `find` returns: None exactly when no extra has the id, else the first extra with it |
| Extras.InitialExtras | src/pages/FoodDetails/index.tsx:91-96 | same length and order as the fetched extras, every field kept except quantity, which is 0 |
| Extras.InitialExtrasKeepIds | src/pages/FoodDetails/index.tsx:91-97 | the loaded list has the fetched ids in the fetched order and no negative quantity |
| Extras.ReplaceById | src/pages/FoodDetails/index.tsx:113-119 | same length; entries with another id untouched in place; entries with the id replaced |
| Extras.IncrementedExtras | src/pages/FoodDetails/index.tsx:103-123 | fails with ExtraNotFound exactly when no extra has the id; keeps ids in order and non-negative quantities |
| Extras.DecrementedExtras | src/pages/FoodDetails/index.tsx:125-149 | same not-found error; keeps ids in order; never makes a quantity negative |
| Extras.ReplaceByIdDistinct | src/pages/FoodDetails/index.tsx:112-122 | with distinct ids, replace-by-id is an update of exactly the one matching position |
| Extras.IncrementExtraDistinct | src/pages/FoodDetails/index.tsx:103-123 | with distinct ids the matching quantity rises by 1 and every other entry, the length and the order are unchanged |
| Extras.DecrementExtraDistinct | src/pages/FoodDetails/index.tsx:125-149 | with distinct ids: a no-op at quantity 0, otherwise the matching quantity drops by exactly 1 and nothing else changes |
| Extras.IncrementThenDecrement | src/pages/FoodDetails/index.tsx:103-149 | decrement undoes an increment of a non-negative quantity |
| Extras.DecrementThenIncrement | src/pages/FoodDetails/index.tsx:103-149 | increment undoes a decrement of a positive quantity |
| Extras.IncrementTwiceDecrementOnce | src/pages/FoodDetails/index.tsx:103-149 | from quantity 0, two increments and one decrement leave quantity 1 and the other extras unchanged |
| Extras.IncrementDuplicateIds | src/pages/FoodDetails/index.tsx:104-119 | with a duplicated id, a later entry becomes the first match with its quantity raised |
| Totals.ComputeCartTotal | src/pages/FoodDetails/index.tsx:175-190 | the accumulator-and-reduce computation yields CartTotal |
| Totals.Sum | src/pages/FoodDetails/index.tsx:184-186 | the `reduce` of the prices: a single price sums to itself, all-zero prices to 0, non-negative prices to at least 0 |
| Totals.ExtraPrices | src/pages/FoodDetails/index.tsx:179-181 | one price per extra, in list order, each its value times its quantity |
| Totals.FullTotal | src/pages/FoodDetails/index.tsx:175-190 | the total with every extra counted; never below the food subtotal when no extra is negative |
| Totals.CartTotal | src/pages/FoodDetails/index.tsx:175-190 | with 0 or 1 extras exactly price times quantity; with more, the total with every extra counted |
| Totals.CartTotalMatchesFormulaIff | src/pages/FoodDetails/index.tsx:175-190 | the shown total equals the total with every extra counted if and only if there is not a single extra with a non-zero price |
| Totals.SingleExtraExample | src/pages/FoodDetails/index.tsx:183-189 | 20.00 × 2 with one extra 5.00 × 3 shows 40.00 where counting every extra gives 55.00 |
| Totals.LoadedTotal | src/pages/FoodDetails/index.tsx:175-190 | right after loading both totals are price times quantity |
| Totals.IncrementRaisesTotal | src/pages/FoodDetails/index.tsx:175-190 | incrementing an extra adds its value to the total with every extra counted, and to the shown total only with more than one extra |
| Totals.DecrementLowersTotal | src/pages/FoodDetails/index.tsx:175-190 | decrementing a positive extra takes its value off the total with every extra counted, and off the shown total only with more than one extra; at 0 nothing changes |
| Totals.OrderPayloadOf | src/pages/FoodDetails/index.tsx:193-201 | the payload's price is the cart total; its extras are the whole current list; the other fields come from the food |
| Totals.OrderPriceExceedsUnitPrice | src/pages/FoodDetails/index.tsx:193-201 | with a positive price, two or more portions and non-negative extras, the order price exceeds the unit price |
| Favorites.FindFavorite | src/pages/FoodDetails/index.tsx:83 | None exactly when no favourite has the food's id; otherwise the first favourite with that id |
| Favorites.ToggleRequest | src/pages/FoodDetails/index.tsx:163-173 | a delete exactly when favourited, by the stored favourite's id (undefined when none is stored); otherwise a post of the food |
| Favorites.FavoriteIconName | src/pages/FoodDetails/index.tsx:216-219 | 'favorite' exactly when favourited, 'favorite-border' exactly when not |
| Screen.FoodDetailsState.constructor | src/pages/FoodDetails/index.tsx:65-71 | empty food, no extras, not favourite, quantity 1, no favourite record; Valid holds |
| Screen.FoodDetailsState.LoadFood | src/pages/FoodDetails/index.tsx:79-98 | flag true exactly when some favourite has the food's id; record set to the first match, else left as it was; food stored; extras initialised; quantity untouched |
| Screen.FoodDetailsState.IncrementExtra | src/pages/FoodDetails/index.tsx:103-123 | the new list is IncrementedExtras of the old one, or the error with the list unchanged; Valid kept |
| Screen.FoodDetailsState.DecrementExtra | src/pages/FoodDetails/index.tsx:125-149 | the new list is DecrementedExtras of the old one, or the error with the list unchanged; Valid kept |
| Screen.FoodDetailsState.IncrementFood | src/pages/FoodDetails/index.tsx:151-153 | quantity plus 1, nothing else changes |
| Screen.FoodDetailsState.DecrementFood | src/pages/FoodDetails/index.tsx:155-161 | unchanged at 1, otherwise minus 1; never below 1 |
| Screen.FoodDetailsState.ToggleFavorite | src/pages/FoodDetails/index.tsx:163-173 | sends ToggleRequest of the state; the flag is negated only when the request completes |
| Screen.FoodDetailsState.Total | src/pages/FoodDetails/index.tsx:175-190 | defined (not NaN) exactly when the food has loaded |
| Screen.FoodDetailsState.IconName | src/pages/FoodDetails/index.tsx:216-219 | 'favorite' exactly when the flag is set |
| Screen.FoodDetailsState.FinishOrder | src/pages/FoodDetails/index.tsx:192-203 | after loading, the payload built from the food (id, name, description, category, image), priced at the screen's total, with the current extras; before loading, the undefined payload |
| Screen.FavoriteThenUnfavorite | src/pages/FoodDetails/index.tsx:163-173 | not favourite on load; post the food; flag set; then a delete with an undefined id; flag cleared |
| Screen.StaleFavoriteAfterReload | src/pages/FoodDetails/index.tsx:83-89 | after loading a favourite and then a non-favourite, favouriting and un-favouriting the second deletes the first one's favourite |
| Screen.UnfavoriteThenFavorite | src/pages/FoodDetails/index.tsx:163-173 | favourite on load; delete by the food's id; flag cleared; then post the food; flag set |
| Screen.OrderRightAfterLoad | src/pages/FoodDetails/index.tsx:192-201 | an order confirmed right after loading costs one unit price and lists every extra at quantity 0 |

## Left out

- The HTTP calls (`api.get`, `api.post`, `api.delete`) and their promise sequencing: foreign
  I/O. The two fetch results are `LoadFood` inputs and the requests are returned values.
  A failed request is a favourite toggle with `completed == false`, or a load that never
  happens. The `GET /foods/{id}` request built from the route parameter is not modelled.
- Navigation (`navigation.reset` after an order, `navigation.setOptions` for the header
  icon): external router calls.
- Rendering, styles, icons and `formatValue`: display only, and `formatValue`'s source is
  not part of this model.
- JavaScript floating point: prices, values, ids and quantities are unbounded integers, and
  the rounding of `price * quantity` is not reproduced.
- React hook semantics (`useMemo`, `useCallback`, `useEffect` triggers, batched state
  updates). Also the stale closure in `toggleFavorite`: two toggles in flight both write
  the same negated value. The model runs the handlers one after another.
- In-place mutation of the found extra object: the handlers are modelled on values. The
  object's aliasing shows up only as the equal values written under every entry with the
  same id, which the model reproduces.
