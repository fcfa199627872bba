/** Finding the first record with a given id, which is what `Array.prototype.find`
    with the predicate `item => item.id === id` does. */
module Lookup {
  import opened Entities

  /** The index of the first occurrence of `id` in `ids`, or None when it does not occur. */
  function FirstIndexOf(ids: seq<int>, id: int): (r: Option<nat>)
    ensures r.None? <==> forall i :: 0 <= i < |ids| ==> ids[i] != id
    ensures r.Some? ==> r.value < |ids| && ids[r.value] == id
    ensures r.Some? ==> forall j :: 0 <= j < r.value ==> ids[j] != id
  {
    if |ids| == 0 then None
    else if ids[0] == id then Some(0)
    else match FirstIndexOf(ids[1..], id)
      case None => None
      case Some(k) => Some(k + 1)
  }

  /** Two records with distinct positions never share an id. */
  predicate Distinct(ids: seq<int>)
  {
    forall i, j :: 0 <= i < j < |ids| ==> ids[i] != ids[j]
  }

  /** With distinct ids, the first occurrence is the only one. */
  lemma FirstIndexOfDistinct(ids: seq<int>, k: nat)
    requires Distinct(ids) && k < |ids|
    ensures FirstIndexOf(ids, ids[k]) == Some(k)
  {
  }
}
