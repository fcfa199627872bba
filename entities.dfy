/** The records the food-details screen receives from the backend and holds in its state.
    Prices and extra values are whole amounts of the smallest currency unit (cents). */
module Entities {

  /** An add-on ordered with the food, priced per unit. The backend sends extras
      without a meaningful quantity; the screen gives each one a quantity of its own. */
  datatype Extra = Extra(id: int, name: string, value: int, quantity: int)

  /** The food record fetched for the screen, with its list of extras. */
  datatype Food = Food(
    id: int,
    name: string,
    description: string,
    price: int,
    imageUrl: string,
    formattedPrice: string,
    category: int,
    extras: seq<Extra>)

  /** An entry of the favourites collection: a food record without its extras. */
  datatype FavoriteFood = FavoriteFood(
    id: int,
    name: string,
    description: string,
    price: int,
    imageUrl: string,
    formattedPrice: string,
    category: int)

  datatype Option<+T> = None | Some(value: T)

  /** The one error the screen raises itself: an extra handler called with an unknown id. */
  datatype Error = ExtraNotFound

  datatype Result<+T> = Success(value: T) | Failure(error: Error)

  datatype Outcome = Pass | Fail(error: Error)
}
