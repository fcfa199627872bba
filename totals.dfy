/** The cart total the screen shows (`cartTotal`) and the order it posts (`handleFinishOrder`). */
module Totals {
  import opened Entities
  import opened Lookup
  import opened Extras

  /** The sum of a list of amounts, added from the left as `reduce((prev, crr) => prev + crr)`
      does; on a single amount `reduce` returns that amount. */
  function Sum(xs: seq<int>): (r: int)
    ensures |xs| == 1 ==> r == xs[0]
    ensures (forall i :: 0 <= i < |xs| ==> xs[i] == 0) ==> r == 0
    ensures (forall i :: 0 <= i < |xs| ==> xs[i] >= 0) ==> r >= 0
  {
    if xs == [] then 0 else Sum(xs[..|xs| - 1]) + xs[|xs| - 1]
  }

  /** `extras.map(item => item.value * item.quantity)`: one price per extra, in list order. */
  function ExtraPrices(extras: seq<Extra>): (r: seq<int>)
    ensures |r| == |extras|
    ensures forall i :: 0 <= i < |extras| ==> r[i] == extras[i].value * extras[i].quantity
  {
    if extras == [] then []
    else [extras[0].value * extras[0].quantity] + ExtraPrices(extras[1..])
  }

  /** The total with every extra counted: the food subtotal plus every extra's value
      times quantity. */
  function FullTotal(price: int, foodQuantity: int, extras: seq<Extra>): (r: int)
    ensures (forall i :: 0 <= i < |extras| ==> extras[i].value >= 0 && extras[i].quantity >= 0)
            ==> r >= price * foodQuantity
  {
    var prices := ExtraPrices(extras);
    assert (forall i :: 0 <= i < |extras| ==> extras[i].value >= 0 && extras[i].quantity >= 0)
           ==> forall i :: 0 <= i < |prices| ==> prices[i] >= 0;
    price * foodQuantity + Sum(prices)
  }

  /** `cartTotal` as the screen computes it: the food subtotal, plus the extras' sum
      only when there are more than one extras. */
  function CartTotal(price: int, foodQuantity: int, extras: seq<Extra>): (r: int)
    ensures |extras| <= 1 ==> r == price * foodQuantity
    ensures |extras| > 1 ==> r == FullTotal(price, foodQuantity, extras)
  {
    var extrasPrice := ExtraPrices(extras);
    price * foodQuantity + (if |extrasPrice| > 1 then Sum(extrasPrice) else 0)
  }

  /** The `cartTotal` computation step by step: a zero accumulator that is replaced by
      the reduction of the extras' prices only when there are more than one. */
  method ComputeCartTotal(price: int, foodQuantity: int, extras: seq<Extra>) returns (total: int)
    ensures total == CartTotal(price, foodQuantity, extras)
  {
    var totalExtrasPrice := 0;
    var foodPrice := price * foodQuantity;
    var extrasPrice := ExtraPrices(extras);
    if |extrasPrice| > 1 {
      var acc := extrasPrice[0];
      var i := 1;
      assert extrasPrice[..1] == [extrasPrice[0]];
      while i < |extrasPrice|
        invariant 1 <= i <= |extrasPrice|
        invariant acc == Sum(extrasPrice[..i])
      {
        assert extrasPrice[..i + 1][..i] == extrasPrice[..i];
        acc := acc + extrasPrice[i];
        i := i + 1;
      }
      assert extrasPrice[..i] == extrasPrice;
      totalExtrasPrice := acc;
    }
    total := foodPrice + totalExtrasPrice;
  }

  /** `cartTotal` departs from the total with every extra counted exactly when there is
      a single extra whose price times quantity is not zero. */
  lemma CartTotalMatchesFormulaIff(price: int, foodQuantity: int, extras: seq<Extra>)
    ensures CartTotal(price, foodQuantity, extras) == FullTotal(price, foodQuantity, extras)
        <==> !(|extras| == 1 && extras[0].value * extras[0].quantity != 0)
  {
    var prices := ExtraPrices(extras);
    if |extras| == 0 {
      assert prices == [];
    } else if |extras| == 1 {
      assert prices[..0] == [];
      assert Sum(prices) == prices[0] == extras[0].value * extras[0].quantity;
    }
  }

  /** One food of 20.00 ordered twice with a single extra of 5.00 taken three times:
      the screen shows 40.00, counting every extra gives 55.00. */
  lemma SingleExtraExample()
    ensures CartTotal(2000, 2, [Extra(1, "extra", 500, 3)]) == 4000
    ensures FullTotal(2000, 2, [Extra(1, "extra", 500, 3)]) == 5500
  {
    assert ExtraPrices([Extra(1, "extra", 500, 3)]) == [1500];
    assert [1500][..0] == [];
  }

  lemma {:induction false} SumUpdate(xs: seq<int>, k: nat, v: int)
    requires k < |xs|
    ensures Sum(xs[k := v]) == Sum(xs) - xs[k] + v
  {
    var n := |xs| - 1;
    if k == n {
      assert xs[k := v][..n] == xs[..n];
    } else {
      assert xs[k := v][..n] == xs[..n][k := v];
      SumUpdate(xs[..n], k, v);
    }
  }

  /** Right after loading every quantity is 0, so the total is the food subtotal
      however many extras there are. */
  lemma LoadedTotal(price: int, foodQuantity: int, fetched: seq<Extra>)
    ensures CartTotal(price, foodQuantity, InitialExtras(fetched)) == price * foodQuantity
    ensures FullTotal(price, foodQuantity, InitialExtras(fetched)) == price * foodQuantity
  {
    var prices := ExtraPrices(InitialExtras(fetched));
    assert forall i :: 0 <= i < |prices| ==> prices[i] == 0;
  }

  lemma ExtraPricesUpdate(extras: seq<Extra>, k: nat, e: Extra)
    requires k < |extras|
    ensures ExtraPrices(extras[k := e]) == ExtraPrices(extras)[k := e.value * e.quantity]
  {
  }

  /** Putting `e` at position `k` changes the full total by the difference of the two
      entries' prices, and `cartTotal` by the same amount when there are more than one extras. */
  lemma TotalsUpdate(price: int, foodQuantity: int, extras: seq<Extra>, k: nat, e: Extra)
    requires k < |extras|
    ensures var delta := e.value * e.quantity - extras[k].value * extras[k].quantity;
      && FullTotal(price, foodQuantity, extras[k := e]) == FullTotal(price, foodQuantity, extras) + delta
      && CartTotal(price, foodQuantity, extras[k := e])
         == CartTotal(price, foodQuantity, extras) + (if |extras| > 1 then delta else 0)
  {
    ExtraPricesUpdate(extras, k, e);
    SumUpdate(ExtraPrices(extras), k, e.value * e.quantity);
  }

  /** With distinct ids, incrementing an extra adds its value to the full total; `cartTotal`
      follows only when there are more than one extras. */
  lemma IncrementRaisesTotal(price: int, foodQuantity: int, extras: seq<Extra>, k: nat)
    requires Distinct(Ids(extras)) && k < |extras|
    ensures var after := IncrementedExtras(extras, extras[k].id).value;
      && FullTotal(price, foodQuantity, after) == FullTotal(price, foodQuantity, extras) + extras[k].value
      && CartTotal(price, foodQuantity, after)
         == CartTotal(price, foodQuantity, extras) + (if |extras| > 1 then extras[k].value else 0)
  {
    var q := extras[k].quantity;
    var e := extras[k].(quantity := q + 1);
    var after := extras[k := e];
    assert IncrementedExtras(extras, extras[k].id).value == after by {
      IncrementExtraDistinct(extras, k);
    }
    assert e.value * e.quantity - extras[k].value * extras[k].quantity == extras[k].value by {
      MulStep(extras[k].value, q);
    }
    TotalsUpdate(price, foodQuantity, extras, k, e);
  }

  /** With distinct ids, decrementing a positive quantity takes its value off the full
      total, and off `cartTotal` when there are more than one extras; at quantity 0
      nothing changes. */
  lemma DecrementLowersTotal(price: int, foodQuantity: int, extras: seq<Extra>, k: nat)
    requires Distinct(Ids(extras)) && k < |extras|
    ensures var after := DecrementedExtras(extras, extras[k].id).value;
      var drop := if extras[k].quantity == 0 then 0 else extras[k].value;
      && FullTotal(price, foodQuantity, after) == FullTotal(price, foodQuantity, extras) - drop
      && CartTotal(price, foodQuantity, after)
         == CartTotal(price, foodQuantity, extras) - (if |extras| > 1 then drop else 0)
  {
    var q := extras[k].quantity;
    var e := extras[k].(quantity := q - 1);
    DecrementExtraDistinct(extras, k);
    if q != 0 {
      TotalsUpdate(price, foodQuantity, extras, k, e);
      MulStep(extras[k].value, q - 1);
    }
  }

  lemma MulStep(v: int, q: int)
    ensures v * (q + 1) == v * q + v
  {
  }

  /** The body of the `POST /orders` request. */
  datatype OrderPayload = OrderPayload(
    productId: int,
    name: string,
    description: string,
    price: int,
    category: int,
    thumbnailUrl: string,
    extras: seq<Extra>)

  /** The payload `handleFinishOrder` builds from the loaded food and the cart. */
  function OrderPayloadOf(food: Food, foodQuantity: int, extras: seq<Extra>): (p: OrderPayload)
    ensures p.price == CartTotal(food.price, foodQuantity, extras)
    ensures p.extras == extras
    ensures p.productId == food.id && p.name == food.name && p.description == food.description
    ensures p.category == food.category && p.thumbnailUrl == food.imageUrl
  {
    OrderPayload(food.id, food.name, food.description, CartTotal(food.price, foodQuantity, extras),
                 food.category, food.imageUrl, extras)
  }

  /** The order is priced at the cart total, not at the unit price: with a positive
      price, two or more portions and no negative extra, it costs more than one portion. */
  lemma OrderPriceExceedsUnitPrice(food: Food, foodQuantity: int, extras: seq<Extra>)
    requires food.price > 0 && foodQuantity >= 2
    requires forall i :: 0 <= i < |extras| ==> extras[i].value >= 0 && extras[i].quantity >= 0
    ensures OrderPayloadOf(food, foodQuantity, extras).price > food.price
  {
    assert food.price * foodQuantity >= food.price * 2;
    assert FullTotal(food.price, foodQuantity, extras) >= food.price * foodQuantity;
  }
}
