/** controllers/cart.controller.js: the buyer's cart. None of the handlers
    checks that the addressed line belongs to the caller. */
module CartController {
  import opened Common
  import opened Seqs
  import opened Store

  /** A cart line with its `include`d car (absent when the car is gone). */
  datatype CartView = CartView(item: CartItem, car: Option<Car>)

  function ItemsOf(vs: seq<CartView>): (items: seq<CartItem>)
    ensures |items| == |vs| && forall i :: 0 <= i < |vs| ==> items[i] == vs[i].item
  {
    seq(|vs|, i requires 0 <= i < |vs| => vs[i].item)
  }

  /** `getCartItems`: the caller's cart lines, in table order, each with its
      current car. */
  function GetCartItems(carts: seq<CartItem>, cars: seq<Car>, caller: Caller): (r: Response<seq<CartView>>)
    ensures r.status == 200 && r.body.Json?
    ensures ItemsOf(r.body.value) == Where(carts, CartBuyer, caller.userId)
    ensures forall v :: v in r.body.value ==>
              v.item in carts && v.item.buyerId == caller.userId && v.car == FindCar(cars, v.item.carId)
  {
    var mine := Where(carts, CartBuyer, caller.userId);
    var views := seq(|mine|, i requires 0 <= i < |mine| => CartView(mine[i], FindCar(cars, mine[i].carId)));
    assert ItemsOf(views) == mine;
    Ok(views)
  }

  /** The request body of `addItemToCart`; every field may override the
      defaults, `buyerId` included. */
  datatype CartBody = CartBody(buyerId: Option<int>, carId: int, quantity: int, totalPrice: Option<int>)

  /** `addItemToCart`: `{ buyerId, ...req.body }` is inserted as it is. The
      body's `buyerId` wins over the caller's, there is no check for an
      existing line for the same car, and no price is computed. */
  method AddItemToCart(db: Db, caller: Caller, body: CartBody) returns (resp: Response<CartItem>)
    requires db.Valid()
    modifies db
    ensures db.Valid()
    ensures db.carts == old(db.carts) + [CartItem(old(db.nextCartId), body.buyerId.GetOr(caller.userId),
                                                  body.carId, body.quantity, body.totalPrice)]
    ensures resp == Created(db.carts[|db.carts| - 1])
    ensures db.nextCartId == old(db.nextCartId) + 1
    ensures db.cars == old(db.cars) && db.orders == old(db.orders)
    ensures db.reviews == old(db.reviews) && db.users == old(db.users)
    ensures db.nextCarId == old(db.nextCarId) && db.nextOrderId == old(db.nextOrderId)
    ensures db.nextReviewId == old(db.nextReviewId) && db.nextUserId == old(db.nextUserId)
  {
    var item := CartItem(db.nextCartId, body.buyerId.GetOr(caller.userId), body.carId,
                         body.quantity, body.totalPrice);
    AppendFreshKey(db.carts, CartKey, db.nextCartId, item);
    db.carts := db.carts + [item];
    db.nextCartId := db.nextCartId + 1;
    resp := Created(item);
  }

  /** A cart line after a quantity change: the total is recomputed from the
      car's current price. */
  function Repriced(item: CartItem, price: int, quantity: int): (r: CartItem)
    ensures r.id == item.id && r.buyerId == item.buyerId && r.carId == item.carId
    ensures r.quantity == quantity && r.totalPrice == Some(price * quantity)
  {
    item.(quantity := quantity, totalPrice := Some(price * quantity))
  }

  /** The cart table after `updateCartItem(id, quantity)`: the line with
      that id is repriced when both it and its car exist; otherwise the table
      is as it was. */
  function UpdatedCarts(carts: seq<CartItem>, cars: seq<Car>, id: int, quantity: int): (r: seq<CartItem>)
    ensures |r| == |carts|
    ensures forall j :: 0 <= j < |carts| && carts[j].id != id ==> r[j] == carts[j]
  {
    match CartIndex(carts, id)
    case None => carts
    case Some(i) =>
      match FindCar(cars, carts[i].carId)
      case None => carts
      case Some(car) => carts[i := Repriced(carts[i], car.price, quantity)]
  }

  /** Repeating an update with the same quantity changes nothing more. */
  lemma UpdateCartItemIdempotent(carts: seq<CartItem>, cars: seq<Car>, id: int, quantity: int)
    ensures var once := UpdatedCarts(carts, cars, id, quantity);
            UpdatedCarts(once, cars, id, quantity) == once
  {
    var once := UpdatedCarts(carts, cars, id, quantity);
    match CartIndex(carts, id)
    case None =>
    case Some(i) =>
      match FindCar(cars, carts[i].carId)
      case None =>
      case Some(car) =>
        var j := CartIndex(once, id);
        assert once[i].id == id;
        assert j.Some? && j.value == i;
        assert once[i].carId == carts[i].carId;
  }

  /** `updateCartItem`: an unknown line answers 404; a line whose car is gone
      fails on `cartItem.car.price` and answers 500; otherwise the line gets
      the new quantity and `totalPrice = car.price * quantity`. */
  method UpdateCartItem(db: Db, id: int, quantity: int) returns (resp: Response<CartItem>)
    requires db.Valid()
    modifies db
    ensures db.Valid()
    ensures db.carts == UpdatedCarts(old(db.carts), old(db.cars), id, quantity)
    ensures CartIndex(old(db.carts), id).None? ==> resp == Fail(404, "Cart item not found")
    ensures CartIndex(old(db.carts), id).Some? &&
            FindCar(old(db.cars), old(db.carts)[CartIndex(old(db.carts), id).value].carId).None? ==>
              resp == Fail(500, "Cannot read properties of null (reading 'price')")
    ensures resp.status == 200 <==>
              CartIndex(old(db.carts), id).Some? &&
              FindCar(old(db.cars), old(db.carts)[CartIndex(old(db.carts), id).value].carId).Some?
    ensures resp.status == 200 ==>
              var i := CartIndex(old(db.carts), id).value;
              var car := FindCar(old(db.cars), old(db.carts)[i].carId).value;
              && resp == Ok(db.carts[i])
              && db.carts[i] == Repriced(old(db.carts)[i], car.price, quantity)
    ensures resp.status != 200 ==> db.carts == old(db.carts)
    ensures db.cars == old(db.cars) && db.orders == old(db.orders)
    ensures db.reviews == old(db.reviews) && db.users == old(db.users)
    ensures db.nextCarId == old(db.nextCarId) && db.nextCartId == old(db.nextCartId)
    ensures db.nextOrderId == old(db.nextOrderId)
    ensures db.nextReviewId == old(db.nextReviewId) && db.nextUserId == old(db.nextUserId)
  {
    var found := CartIndex(db.carts, id);
    if found.None? {
      return Fail(404, "Cart item not found");
    }
    var i := found.value;
    var car := FindCar(db.cars, db.carts[i].carId);
    if car.None? {
      return Fail(500, "Cannot read properties of null (reading 'price')");
    }
    var updated := Repriced(db.carts[i], car.value.price, quantity);
    UpdateSameKey(db.carts, CartKey, i, updated);
    db.carts := db.carts[i := updated];
    resp := Ok(updated);
  }

  /** `removeItemFromCart`: deletes the line with the given id. Deleting a
      line that does not exist makes the ORM throw, which answers 500. */
  method RemoveItemFromCart(db: Db, id: int) returns (resp: Response<CartItem>)
    requires db.Valid()
    modifies db
    ensures db.Valid()
    ensures CartIndex(old(db.carts), id).None? ==>
              resp == Fail(500, "Record to delete does not exist.") && db.carts == old(db.carts)
    ensures CartIndex(old(db.carts), id).Some? ==>
              var i := CartIndex(old(db.carts), id).value;
              && resp == Response(204, Message("Item removed from cart"))
              && db.carts == old(db.carts)[..i] + old(db.carts)[i + 1..]
    // Exactly the line with that id is gone.
    ensures forall x :: x in db.carts <==> x in old(db.carts) && x.id != id
    ensures db.cars == old(db.cars) && db.orders == old(db.orders)
    ensures db.reviews == old(db.reviews) && db.users == old(db.users)
    ensures db.nextCarId == old(db.nextCarId) && db.nextCartId == old(db.nextCartId)
    ensures db.nextOrderId == old(db.nextOrderId)
    ensures db.nextReviewId == old(db.nextReviewId) && db.nextUserId == old(db.nextUserId)
  {
    var found := CartIndex(db.carts, id);
    if found.None? {
      return Fail(500, "Record to delete does not exist.");
    }
    var i := found.value;
    RemoveAtKeys(db.carts, CartKey, i);
    RemoveAtBelow(db.carts, CartKey, db.nextCartId, i);
    RemoveAtExact(db.carts, CartKey, i);
    db.carts := db.carts[..i] + db.carts[i + 1..];
    resp := Response(204, Message("Item removed from cart"));
  }
}
