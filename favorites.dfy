/** The favourite status of the food on the screen: the lookup `loadFood` does in the
    favourites collection, the request `toggleFavorite` issues, and the header icon. */
module Favorites {
  import opened Entities
  import opened Lookup

  function FavoriteIds(favorites: seq<FavoriteFood>): seq<int>
  {
    seq(|favorites|, i requires 0 <= i < |favorites| => favorites[i].id)
  }

  /** `favorites.find(item => item.id === foodId)`: the first favourite with the food's id. */
  function FindFavorite(favorites: seq<FavoriteFood>, foodId: int): (r: Option<FavoriteFood>)
    ensures r.None? <==> forall i :: 0 <= i < |favorites| ==> favorites[i].id != foodId
    ensures r.Some? ==>
      exists k :: 0 <= k < |favorites| && favorites[k] == r.value
        && (forall j :: 0 <= j < k ==> favorites[j].id != foodId)
    ensures r.Some? ==> r.value.id == foodId
  {
    var ids := FavoriteIds(favorites);
    assert forall i :: 0 <= i < |favorites| ==> ids[i] == favorites[i].id;
    match FirstIndexOf(ids, foodId)
    case None => None
    case Some(k) => Some(favorites[k])
  }

  /** The request `toggleFavorite` sends to the favourites collection. */
  datatype FavoriteRequest =
    /** `DELETE /favorites/{favoriteId}`; None stands for an id that is `undefined`
        because no favourite record was ever stored. */
    | DeleteFavorite(favoriteId: Option<int>)
    /** `POST /favorites` with the screen's food record; None stands for the empty
        record the screen holds before the food has loaded. */
    | PostFavorite(body: Option<Food>)

  /** The request chosen by `toggleFavorite`: delete the stored favourite when the food
      is a favourite, otherwise post the food. */
  function ToggleRequest(isFavorite: bool, favoriteFood: Option<FavoriteFood>, food: Option<Food>)
    : (req: FavoriteRequest)
    ensures req.DeleteFavorite? <==> isFavorite
    ensures req.DeleteFavorite? ==>
      (req.favoriteId.Some? <==> favoriteFood.Some?)
      && (favoriteFood.Some? ==> req.favoriteId.value == favoriteFood.value.id)
    ensures req.PostFavorite? ==> req.body == food
  {
    if isFavorite then
      DeleteFavorite(match favoriteFood case Some(f) => Some(f.id) case None => None)
    else
      PostFavorite(food)
  }

  /** The name of the header icon: a filled heart exactly for a favourite. */
  function FavoriteIconName(isFavorite: bool): (name: string)
    ensures name == "favorite" <==> isFavorite
    ensures name == "favorite-border" <==> !isFavorite
  {
    if isFavorite then "favorite" else "favorite-border"
  }
}
