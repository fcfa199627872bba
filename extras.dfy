/** The extras list of the food-details screen: how `loadFood` initialises it and how
    `handleIncrementExtra` / `handleDecrementExtra` rewrite it (find the extra by id,
    change its quantity, put it back with a `map` over the list). */
module Extras {
  import opened Entities
  import opened Lookup

  /** The ids of the extras, in list order. */
  function Ids(extras: seq<Extra>): seq<int>
  {
    seq(|extras|, i requires 0 <= i < |extras| => extras[i].id)
  }

  predicate AllNonNegative(extras: seq<Extra>)
  {
    forall i :: 0 <= i < |extras| ==> extras[i].quantity >= 0
  }

  /** The position of the extra `extras.find(item => item.id === id)` returns. */
  function FindExtra(extras: seq<Extra>, id: int): (r: Option<nat>)
    ensures r.None? <==> forall i :: 0 <= i < |extras| ==> extras[i].id != id
    ensures r.Some? ==> r.value < |extras| && extras[r.value].id == id
    ensures r.Some? ==> forall j :: 0 <= j < r.value ==> extras[j].id != id
  {
    var ids := Ids(extras);
    assert forall i :: 0 <= i < |extras| ==> ids[i] == extras[i].id;
    FirstIndexOf(ids, id)
  }

  /** The list `loadFood` stores: each fetched extra, in order, with quantity 0. */
  function InitialExtras(fetched: seq<Extra>): (r: seq<Extra>)
    ensures |r| == |fetched|
    ensures forall i :: 0 <= i < |fetched| ==> r[i] == fetched[i].(quantity := 0)
  {
    if fetched == [] then [] else [fetched[0].(quantity := 0)] + InitialExtras(fetched[1..])
  }

  /** The `map` both handlers pass to the state setter: every entry whose id is `id`
      becomes `e`, every other entry stays where it is. */
  function ReplaceById(extras: seq<Extra>, id: int, e: Extra): (r: seq<Extra>)
    ensures |r| == |extras|
    ensures forall i :: 0 <= i < |extras| && extras[i].id != id ==> r[i] == extras[i]
    ensures forall i :: 0 <= i < |extras| && extras[i].id == id ==> r[i] == e
  {
    if extras == [] then []
    else [if extras[0].id == id then e else extras[0]] + ReplaceById(extras[1..], id, e)
  }

  /** `handleIncrementExtra(id)`: the new list, or the error it throws when no extra has that id. */
  function IncrementedExtras(extras: seq<Extra>, id: int): (r: Result<seq<Extra>>)
    ensures r.Failure? <==> forall i :: 0 <= i < |extras| ==> extras[i].id != id
    ensures r.Failure? ==> r.error == ExtraNotFound
    ensures r.Success? ==> Ids(r.value) == Ids(extras)
    ensures r.Success? && AllNonNegative(extras) ==> AllNonNegative(r.value)
  {
    match FindExtra(extras, id)
    case None => Failure(ExtraNotFound)
    case Some(k) =>
      var extra := extras[k].(quantity := extras[k].quantity + 1);
      Success(ReplaceById(extras, extra.id, extra))
  }

  /** `handleDecrementExtra(id)`: the same lookup and error; a quantity of 0 is left alone. */
  function DecrementedExtras(extras: seq<Extra>, id: int): (r: Result<seq<Extra>>)
    ensures r.Failure? <==> forall i :: 0 <= i < |extras| ==> extras[i].id != id
    ensures r.Failure? ==> r.error == ExtraNotFound
    ensures r.Success? ==> Ids(r.value) == Ids(extras)
    ensures r.Success? && AllNonNegative(extras) ==> AllNonNegative(r.value)
  {
    match FindExtra(extras, id)
    case None => Failure(ExtraNotFound)
    case Some(k) =>
      if extras[k].quantity == 0 then Success(extras)
      else
        var extra := extras[k].(quantity := extras[k].quantity - 1);
        Success(ReplaceById(extras, extra.id, extra))
  }

  /** The loaded list has the fetched ids, in the fetched order, and no negative quantity. */
  lemma InitialExtrasKeepIds(fetched: seq<Extra>)
    ensures Ids(InitialExtras(fetched)) == Ids(fetched)
    ensures AllNonNegative(InitialExtras(fetched))
  {
  }

  /** With distinct ids, replacing by id is an update of exactly one position. */
  lemma ReplaceByIdDistinct(extras: seq<Extra>, k: nat, e: Extra)
    requires Distinct(Ids(extras)) && k < |extras|
    ensures ReplaceById(extras, extras[k].id, e) == extras[k := e]
  {
    var r := ReplaceById(extras, extras[k].id, e);
    forall i | 0 <= i < |extras| && i != k
      ensures r[i] == extras[i]
    {
      assert Ids(extras)[i] != Ids(extras)[k];
    }
  }

  /** With distinct ids, incrementing raises that one quantity by 1 and changes nothing else. */
  lemma IncrementExtraDistinct(extras: seq<Extra>, k: nat)
    requires Distinct(Ids(extras)) && k < |extras|
    ensures IncrementedExtras(extras, extras[k].id)
         == Success(extras[k := extras[k].(quantity := extras[k].quantity + 1)])
  {
    FirstIndexOfDistinct(Ids(extras), k);
    ReplaceByIdDistinct(extras, k, extras[k].(quantity := extras[k].quantity + 1));
  }

  /** With distinct ids, decrementing leaves a quantity of 0 alone and otherwise lowers
      that one quantity by 1, changing nothing else. */
  lemma DecrementExtraDistinct(extras: seq<Extra>, k: nat)
    requires Distinct(Ids(extras)) && k < |extras|
    ensures DecrementedExtras(extras, extras[k].id)
         == Success(if extras[k].quantity == 0 then extras
                    else extras[k := extras[k].(quantity := extras[k].quantity - 1)])
  {
    FirstIndexOfDistinct(Ids(extras), k);
    ReplaceByIdDistinct(extras, k, extras[k].(quantity := extras[k].quantity - 1));
  }

  /** Decrementing undoes an increment of a non-negative quantity. */
  lemma IncrementThenDecrement(extras: seq<Extra>, k: nat)
    requires Distinct(Ids(extras)) && k < |extras| && extras[k].quantity >= 0
    ensures DecrementedExtras(IncrementedExtras(extras, extras[k].id).value, extras[k].id)
         == Success(extras)
  {
    var up := extras[k := extras[k].(quantity := extras[k].quantity + 1)];
    IncrementExtraDistinct(extras, k);
    assert Ids(up) == Ids(extras);
    DecrementExtraDistinct(up, k);
    assert up[k := up[k].(quantity := up[k].quantity - 1)] == extras;
  }

  /** Incrementing undoes a decrement of a positive quantity. */
  lemma DecrementThenIncrement(extras: seq<Extra>, k: nat)
    requires Distinct(Ids(extras)) && k < |extras| && extras[k].quantity > 0
    ensures IncrementedExtras(DecrementedExtras(extras, extras[k].id).value, extras[k].id)
         == Success(extras)
  {
    var down := extras[k := extras[k].(quantity := extras[k].quantity - 1)];
    DecrementExtraDistinct(extras, k);
    assert Ids(down) == Ids(extras);
    IncrementExtraDistinct(down, k);
    assert down[k := down[k].(quantity := down[k].quantity + 1)] == extras;
  }

  /** Two increments and one decrement of an extra at quantity 0 leave it at 1 and the
      other extras as they were. */
  lemma IncrementTwiceDecrementOnce(extras: seq<Extra>, k: nat)
    requires Distinct(Ids(extras)) && k < |extras| && extras[k].quantity == 0
    ensures var id := extras[k].id;
      var once := IncrementedExtras(extras, id).value;
      var twice := IncrementedExtras(once, id).value;
      DecrementedExtras(twice, id) == Success(extras[k := extras[k].(quantity := 1)])
  {
    var once := extras[k := extras[k].(quantity := 1)];
    IncrementExtraDistinct(extras, k);
    assert once[k].id == extras[k].id;
    IncrementThenDecrement(once, k);
  }

  /** As written, a second extra with the same id as the first match becomes a copy of
      that match with its quantity raised: the handler writes one object back under every
      entry with that id. */
  lemma IncrementDuplicateIds(extras: seq<Extra>, i: nat, j: nat)
    requires i < j < |extras| && extras[i].id == extras[j].id
    requires forall l :: 0 <= l < i ==> extras[l].id != extras[i].id
    ensures IncrementedExtras(extras, extras[i].id).value[j]
         == extras[i].(quantity := extras[i].quantity + 1)
  {
    assert FindExtra(extras, extras[i].id) == Some(i);
  }
}
