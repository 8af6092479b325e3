/** controllers/order.controller.js: placing an order and listing orders. */
module OrderController {
  import opened Common
  import opened Seqs
  import opened Store

  /** The fields `createOrder` reads from the request body. */
  datatype OrderBody = OrderBody(carId: int, paymentIntent: string, totalPrice: int, cartItemId: int)

  /** The counters of a car after one sale is booked: one more sold, one
      fewer in stock, with no check that any stock is left. */
  function RecordSale(c: Car): (r: Car)
    ensures r.quantitySold == c.quantitySold + 1
    ensures r.quantityInStock + r.quantitySold == c.quantityInStock + c.quantitySold
    ensures r.(quantitySold := c.quantitySold, quantityInStock := c.quantityInStock) == c
  {
    c.(quantitySold := c.quantitySold + 1, quantityInStock := c.quantityInStock - 1)
  }

  /** `createOrder`: the order row is written first, and only then is the car
      looked up. A missing car answers 404 but leaves the order in place. The
      sale counts one unit whatever the cart line's quantity, and the cart
      line itself is neither read nor removed. */
  method CreateOrder(db: Db, caller: Caller, body: OrderBody) returns (resp: Response<Order>)
    requires db.Valid()
    modifies db
    ensures db.Valid()
    // Exactly one order is inserted, on every path, with the caller as buyer.
    ensures db.orders == old(db.orders) + [Order(old(db.nextOrderId), caller.userId, body.carId,
                                                 body.cartItemId, body.paymentIntent, body.totalPrice)]
    ensures db.nextOrderId == old(db.nextOrderId) + 1
    ensures db.carts == old(db.carts) && db.reviews == old(db.reviews) && db.users == old(db.users)
    ensures db.nextCarId == old(db.nextCarId) && db.nextCartId == old(db.nextCartId)
    ensures db.nextReviewId == old(db.nextReviewId) && db.nextUserId == old(db.nextUserId)
    // Success depends only on the car existing, never on its stock.
    ensures resp.status == 201 <==> CarIndex(old(db.cars), body.carId).Some?
    ensures resp.status == 201 ==> resp == Created(db.orders[|db.orders| - 1])
    ensures resp.status != 201 ==> resp == Fail(404, "Car not found!") && db.cars == old(db.cars)
    // The ordered car sells one unit; every other car is untouched.
    ensures |db.cars| == |old(db.cars)|
    ensures forall j :: 0 <= j < |db.cars| ==>
              if resp.status == 201 && j == CarIndex(old(db.cars), body.carId).value
              then db.cars[j] == RecordSale(old(db.cars)[j])
              else db.cars[j] == old(db.cars)[j]
    // Stock plus sold is conserved for every car.
    ensures forall j :: 0 <= j < |db.cars| ==>
              db.cars[j].quantityInStock + db.cars[j].quantitySold
              == old(db.cars)[j].quantityInStock + old(db.cars)[j].quantitySold
  {
    var order := Order(db.nextOrderId, caller.userId, body.carId, body.cartItemId,
                       body.paymentIntent, body.totalPrice);
    AppendFreshKey(db.orders, OrderKey, db.nextOrderId, order);
    db.orders := db.orders + [order];
    db.nextOrderId := db.nextOrderId + 1;

    var found := CarIndex(db.cars, body.carId);
    if found.None? {
      return Fail(404, "Car not found!");
    }
    var i := found.value;
    var car := db.cars[i];
    UpdateSameKey(db.cars, CarKey, i, RecordSale(car));
    db.cars := db.cars[i := RecordSale(car)];
    return Created(order);
  }

  datatype BuyerSummary = BuyerSummary(email: string, username: string)
  datatype CarSummary = CarSummary(brand: string, coverImage: string, price: int)
  /** An order with the `include`d buyer and car columns. */
  datatype OrderView = OrderView(order: Order, buyer: Option<BuyerSummary>, car: Option<CarSummary>)

  function ViewOrder(o: Order, cars: seq<Car>, users: seq<User>): OrderView
  {
    var buyer := match FindUser(users, o.buyerId)
                 case None => None
                 case Some(u) => Some(BuyerSummary(u.email, u.username));
    var car := match FindCar(cars, o.carId)
               case None => None
               case Some(c) => Some(CarSummary(c.brand, c.coverImage, c.price));
    OrderView(o, buyer, car)
  }

  function OrdersOfViews(vs: seq<OrderView>): (os: seq<Order>)
    ensures |os| == |vs| && forall i :: 0 <= i < |vs| ==> os[i] == vs[i].order
  {
    seq(|vs|, i requires 0 <= i < |vs| => vs[i].order)
  }

  /** `getAllOrders`: a seller sees the orders whose buyer is the caller; a
      non-seller is refused before anything is read. (The filter is on
      `buyerId`, so a seller sees the orders they placed, not those placed
      for their cars.) */
  function GetAllOrders(orders: seq<Order>, cars: seq<Car>, users: seq<User>, caller: Caller)
    : (r: Response<seq<OrderView>>)
    ensures !caller.isSeller ==> r == Fail(403, "You are not allowed to see orders!")
    ensures caller.isSeller ==> r.status == 200 && r.body.Json?
    ensures caller.isSeller ==> OrdersOfViews(r.body.value) == Where(orders, OrderBuyer, caller.userId)
    ensures caller.isSeller ==> forall v :: v in r.body.value ==>
              v == ViewOrder(v.order, cars, users) && v.order in orders && v.order.buyerId == caller.userId
  {
    if !caller.isSeller then Fail(403, "You are not allowed to see orders!")
    else
      var mine := Where(orders, OrderBuyer, caller.userId);
      var views := seq(|mine|, i requires 0 <= i < |mine| => ViewOrder(mine[i], cars, users));
      assert OrdersOfViews(views) == mine;
      Ok(views)
  }
}

/** Two verified scenarios of `createOrder` on a fresh database. */
module OrderScenarios {
  import opened Common
  import opened Store
  import opened OrderController

  /** A car with no stock left is still sold: the order succeeds and the
      stock goes to -1. */
  method OrderOutOfStock() returns (status: int, stock: int, sold: int)
    ensures status == 201 && stock == -1 && sold == 4
  {
    var db := new Db();
    db.cars := [Car(1, 7, "brand", "image", 1000, 4, 0, 3)];
    db.nextCarId := 2;
    var resp := CreateOrder(db, Caller(9, false), OrderBody(1, "pi", 1000, 5));
    status, stock, sold := resp.status, db.cars[0].quantityInStock, db.cars[0].quantitySold;
  }

  /** Ordering a car that does not exist answers 404, yet the order row
      stays in the table. */
  method OrderMissingCar() returns (status: int, orders: seq<Order>)
    ensures status == 404 && orders == [Order(1, 9, 42, 5, "pi", 1000)]
  {
    var db := new Db();
    var resp := CreateOrder(db, Caller(9, false), OrderBody(42, "pi", 1000, 5));
    status, orders := resp.status, db.orders;
  }
}
