/** The state of the food-details screen and its event handlers. The network results
    `loadFood` awaits are parameters of `LoadFood`; the requests the handlers send are
    returned as values; whether a favourite request completed is a parameter. */
module Screen {
  import opened Entities
  import opened Extras
  import opened Totals
  import opened Favorites

  /** The request `handleFinishOrder` sends. */
  datatype OrderRequest =
    /** `POST /orders` with the payload built from the loaded food and the cart. */
    | PostOrder(payload: OrderPayload)
    /** `POST /orders` sent before the food has loaded: every food field of the payload
        is undefined and its price is NaN; its extras list is empty. */
    | PostUnloadedOrder

  class FoodDetailsState {
    /** The fetched food; None is the empty record held before loading. */
    var food: Option<Food>
    var extras: seq<Extra>
    var isFavorite: bool
    var foodQuantity: int
    /** The favourite record found on loading; None is the empty record held until one is found. */
    var favoriteFood: Option<FavoriteFood>

    /** Holds in every reachable state: at least one portion, no negative extra quantity,
        and no extras before the food has loaded. */
    ghost predicate Valid()
      reads this
    {
      && foodQuantity >= 1
      && AllNonNegative(extras)
      && (food.None? ==> extras == [])
    }

    /** The initial state of the hooks: empty food, no extras, not a favourite, one portion. */
    constructor ()
      ensures Valid()
      ensures food == None && extras == [] && !isFavorite && foodQuantity == 1 && favoriteFood == None
    {
      food := None;
      extras := [];
      isFavorite := false;
      foodQuantity := 1;
      favoriteFood := None;
    }

    /** `loadFood`, given the fetched food and the fetched favourites collection. */
    method LoadFood(data: Food, favorites: seq<FavoriteFood>)
      requires Valid()
      modifies this`food, this`extras, this`isFavorite, this`favoriteFood
      ensures Valid()
      ensures isFavorite <==> exists i :: 0 <= i < |favorites| && favorites[i].id == data.id
      ensures favoriteFood == (if isFavorite then FindFavorite(favorites, data.id) else old(favoriteFood))
      ensures food == Some(data) && extras == InitialExtras(data.extras)
    {
      var findFavorite := FindFavorite(favorites, data.id);
      if findFavorite.Some? {
        favoriteFood := findFavorite;
      }
      isFavorite := findFavorite.Some?;
      food := Some(data);
      extras := InitialExtras(data.extras);
      InitialExtrasKeepIds(data.extras);
    }

    /** `handleIncrementExtra(id)`: find the extra, raise its quantity, put it back by id;
        an unknown id is the error it throws, before anything changes. */
    method IncrementExtra(id: int) returns (outcome: Outcome)
      requires Valid()
      modifies this`extras
      ensures Valid()
      ensures match IncrementedExtras(old(extras), id)
        case Success(updated) => outcome == Pass && extras == updated
        case Failure(e) => outcome == Fail(e) && extras == old(extras)
    {
      var found := FindExtra(extras, id);
      if found.None? {
        return Fail(ExtraNotFound);
      }
      var extra := extras[found.value];
      extra := extra.(quantity := extra.quantity + 1);
      extras := ReplaceById(extras, extra.id, extra);
      outcome := Pass;
    }

    /** `handleDecrementExtra(id)`: the same lookup and error; a quantity of 0 is left as it is. */
    method DecrementExtra(id: int) returns (outcome: Outcome)
      requires Valid()
      modifies this`extras
      ensures Valid()
      ensures match DecrementedExtras(old(extras), id)
        case Success(updated) => outcome == Pass && extras == updated
        case Failure(e) => outcome == Fail(e) && extras == old(extras)
    {
      var found := FindExtra(extras, id);
      if found.None? {
        return Fail(ExtraNotFound);
      }
      var extra := extras[found.value];
      if extra.quantity == 0 {
        return Pass;
      }
      extra := extra.(quantity := extra.quantity - 1);
      extras := ReplaceById(extras, extra.id, extra);
      outcome := Pass;
    }

    /** `handleIncrementFood`. */
    method IncrementFood()
      requires Valid()
      modifies this`foodQuantity
      ensures Valid()
      ensures foodQuantity == old(foodQuantity) + 1
    {
      foodQuantity := foodQuantity + 1;
    }

    /** `handleDecrementFood`: one portion is the floor. */
    method DecrementFood()
      requires Valid()
      modifies this`foodQuantity
      ensures Valid()
      ensures foodQuantity == if old(foodQuantity) == 1 then 1 else old(foodQuantity) - 1
    {
      if foodQuantity == 1 {
        return;
      }
      foodQuantity := foodQuantity - 1;
    }

    /** `toggleFavorite`: the request it sends, and the flag negated once the request has
        completed; a request that fails leaves the flag as it was. */
    method ToggleFavorite(completed: bool) returns (req: FavoriteRequest)
      requires Valid()
      modifies this`isFavorite
      ensures Valid()
      ensures req == ToggleRequest(old(isFavorite), favoriteFood, food)
      ensures isFavorite == if completed then !old(isFavorite) else old(isFavorite)
    {
      req := ToggleRequest(isFavorite, favoriteFood, food);
      if completed {
        isFavorite := !isFavorite;
      }
    }

    /** `cartTotal` for the current state; None is the NaN it yields before loading. */
    function Total(): (t: Option<int>)
      reads this
      ensures t.Some? <==> food.Some?
    {
      match food
      case Some(f) => Some(CartTotal(f.price, foodQuantity, extras))
      case None => None
    }

    /** `favoriteIconName` for the current state. */
    function IconName(): (name: string)
      reads this
      ensures name == "favorite" <==> isFavorite
    {
      FavoriteIconName(isFavorite)
    }

    /** `handleFinishOrder`: the order posted, priced at the cart total and carrying the
        whole extras list, zero quantities included. */
    method FinishOrder() returns (req: OrderRequest)
      requires Valid()
      ensures food.None? <==> req == PostUnloadedOrder
      ensures req.PostOrder? ==> Total() == Some(req.payload.price)
      ensures req.PostOrder? ==> req.payload == OrderPayloadOf(food.value, foodQuantity, extras)
      ensures req.PostOrder? ==> req.payload.extras == extras && req.payload.productId == food.value.id
    {
      if food.None? {
        return PostUnloadedOrder;
      }
      req := PostOrder(OrderPayloadOf(food.value, foodQuantity, extras));
    }
  }

  /** Loading a food that is not among the favourites, then favouriting it and taking it
      back: the second toggle deletes a favourite whose id is undefined, because the
      first toggle never stores a favourite record. */
  method FavoriteThenUnfavorite(data: Food, favorites: seq<FavoriteFood>)
    returns (loaded: bool, first: FavoriteRequest, between: bool, second: FavoriteRequest, final: bool)
    requires forall i :: 0 <= i < |favorites| ==> favorites[i].id != data.id
    ensures !loaded && first == PostFavorite(Some(data))
    ensures between && second == DeleteFavorite(None) && !final
  {
    var screen := new FoodDetailsState();
    screen.LoadFood(data, favorites);
    loaded := screen.isFavorite;
    first := screen.ToggleFavorite(true);
    between := screen.isFavorite;
    second := screen.ToggleFavorite(true);
    final := screen.isFavorite;
  }

  /** Loading a food that is among the favourites, then toggling twice: the first toggle
      deletes the favourite found on loading, the second posts the food. */
  method UnfavoriteThenFavorite(data: Food, favorites: seq<FavoriteFood>, k: nat)
    returns (loaded: bool, first: FavoriteRequest, between: bool, second: FavoriteRequest, final: bool)
    requires k < |favorites| && favorites[k].id == data.id
    ensures loaded && first == DeleteFavorite(Some(data.id))
    ensures !between && second == PostFavorite(Some(data)) && final
  {
    var screen := new FoodDetailsState();
    screen.LoadFood(data, favorites);
    loaded := screen.isFavorite;
    first := screen.ToggleFavorite(true);
    between := screen.isFavorite;
    second := screen.ToggleFavorite(true);
    final := screen.isFavorite;
  }

  /** Loading a favourite food, then another food that is not a favourite, then toggling
      twice: the second food is posted, and taking it back deletes the first food's
      favourite, because a load that finds no favourite keeps the record it had. */
  method StaleFavoriteAfterReload(a: Food, b: Food, favorites: seq<FavoriteFood>, k: nat)
    returns (first: FavoriteRequest, second: FavoriteRequest)
    requires k < |favorites| && favorites[k].id == a.id
    requires forall i :: 0 <= i < |favorites| ==> favorites[i].id != b.id
    ensures first == PostFavorite(Some(b))
    ensures second == DeleteFavorite(Some(a.id))
  {
    var screen := new FoodDetailsState();
    screen.LoadFood(a, favorites);
    screen.LoadFood(b, favorites);
    first := screen.ToggleFavorite(true);
    second := screen.ToggleFavorite(true);
  }

  /** Right after loading, the order is priced at the food subtotal of one portion,
      whatever extras the food offers, and lists every extra at quantity 0. */
  method OrderRightAfterLoad(data: Food, favorites: seq<FavoriteFood>) returns (req: OrderRequest)
    ensures req.PostOrder? && req.payload.price == data.price
    ensures req.payload.extras == InitialExtras(data.extras)
  {
    var screen := new FoodDetailsState();
    screen.LoadFood(data, favorites);
    req := screen.FinishOrder();
    LoadedTotal(data.price, 1, data.extras);
  }
}
