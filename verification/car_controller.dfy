/** controllers/car.controller.js: listing mutations, a seller's statistics
    and a seller's review summary. */
module CarController {
  import opened Common
  import opened Seqs
  import opened Store

  /** The request body of `createCar`. A `sellerId` in it is overridden. */
  datatype CarBody = CarBody(
    sellerId: Option<int>,
    brand: string,
    coverImage: string,
    price: int,
    quantity: int,
    quantityInStock: int,
    quantitySold: int)

  /** `{ ...req.body, sellerId: req.userId }` as stored under key `id`. */
  function NewCar(id: int, sellerId: int, body: CarBody): (c: Car)
    ensures c.id == id && c.sellerId == sellerId
    ensures c.brand == body.brand && c.coverImage == body.coverImage
    ensures c.price == body.price && c.quantity == body.quantity
    ensures c.quantityInStock == body.quantityInStock && c.quantitySold == body.quantitySold
  {
    Car(id, sellerId, body.brand, body.coverImage, body.price, body.quantity,
        body.quantityInStock, body.quantitySold)
  }

  /** `createCar`: sellers only; the new car always belongs to the caller. */
  method CreateCar(db: Db, caller: Caller, body: CarBody) returns (resp: Response<Car>)
    requires db.Valid()
    modifies db
    ensures db.Valid()
    ensures !caller.isSeller ==>
              resp == Fail(403, "You are not allowed to create a car!") && db.cars == old(db.cars)
              && db.nextCarId == old(db.nextCarId)
    ensures caller.isSeller ==>
              && db.cars == old(db.cars) + [NewCar(old(db.nextCarId), caller.userId, body)]
              && db.nextCarId == old(db.nextCarId) + 1
              && resp == Created(db.cars[|db.cars| - 1])
    ensures db.carts == old(db.carts) && db.orders == old(db.orders)
    ensures db.reviews == old(db.reviews) && db.users == old(db.users)
    ensures db.nextCartId == old(db.nextCartId) && db.nextOrderId == old(db.nextOrderId)
    ensures db.nextReviewId == old(db.nextReviewId) && db.nextUserId == old(db.nextUserId)
  {
    if !caller.isSeller {
      return Fail(403, "You are not allowed to create a car!");
    }
    var car := NewCar(db.nextCarId, caller.userId, body);
    AppendFreshKey(db.cars, CarKey, db.nextCarId, car);
    db.cars := db.cars + [car];
    db.nextCarId := db.nextCarId + 1;
    resp := Created(car);
  }

  /** `deleteCar`: sellers only, but any seller may delete any car; the
      refusal reuses the message of `createCar`. Rows of other tables that
      refer to the car are left as they are. */
  method DeleteCar(db: Db, caller: Caller, id: int) returns (resp: Response<Car>)
    requires db.Valid()
    modifies db
    ensures db.Valid()
    ensures !caller.isSeller ==>
              resp == Fail(403, "You are not allowed to create a car!") && db.cars == old(db.cars)
    ensures caller.isSeller && CarIndex(old(db.cars), id).None? ==>
              resp == Fail(404, "Car not found.") && db.cars == old(db.cars)
    ensures caller.isSeller && CarIndex(old(db.cars), id).Some? ==>
              var i := CarIndex(old(db.cars), id).value;
              && resp == Response(200, Message("Car deleted successfully."))
              && db.cars == old(db.cars)[..i] + old(db.cars)[i + 1..]
              && (forall x :: x in db.cars <==> x in old(db.cars) && x.id != id)
    ensures db.carts == old(db.carts) && db.orders == old(db.orders)
    ensures db.reviews == old(db.reviews) && db.users == old(db.users)
    ensures db.nextCarId == old(db.nextCarId) && db.nextCartId == old(db.nextCartId)
    ensures db.nextOrderId == old(db.nextOrderId)
    ensures db.nextReviewId == old(db.nextReviewId) && db.nextUserId == old(db.nextUserId)
  {
    if !caller.isSeller {
      return Fail(403, "You are not allowed to create a car!");
    }
    var found := CarIndex(db.cars, id);
    if found.None? {
      return Fail(404, "Car not found.");
    }
    var i := found.value;
    RemoveAtKeys(db.cars, CarKey, i);
    RemoveAtBelow(db.cars, CarKey, db.nextCarId, i);
    RemoveAtExact(db.cars, CarKey, i);
    db.cars := db.cars[..i] + db.cars[i + 1..];
    resp := Response(200, Message("Car deleted successfully."));
  }

  /** The request body of `updateCar`: every column but the key may be set,
      `sellerId` included. */
  datatype CarPatch = CarPatch(
    sellerId: Option<int>,
    brand: Option<string>,
    coverImage: Option<string>,
    price: Option<int>,
    quantity: Option<int>,
    quantityInStock: Option<int>,
    quantitySold: Option<int>)

  /** `prisma.car.update({ data: req.body })`: the given columns replace the
      stored ones, the others stay. */
  function Patched(c: Car, p: CarPatch): (r: Car)
    ensures r.id == c.id
    ensures r.sellerId == p.sellerId.GetOr(c.sellerId) && r.price == p.price.GetOr(c.price)
    ensures r.brand == p.brand.GetOr(c.brand) && r.coverImage == p.coverImage.GetOr(c.coverImage)
    ensures r.quantity == p.quantity.GetOr(c.quantity)
    ensures r.quantityInStock == p.quantityInStock.GetOr(c.quantityInStock)
    ensures r.quantitySold == p.quantitySold.GetOr(c.quantitySold)
    ensures p == CarPatch(None, None, None, None, None, None, None) ==> r == c
  {
    Car(c.id, p.sellerId.GetOr(c.sellerId), p.brand.GetOr(c.brand), p.coverImage.GetOr(c.coverImage),
        p.price.GetOr(c.price), p.quantity.GetOr(c.quantity),
        p.quantityInStock.GetOr(c.quantityInStock), p.quantitySold.GetOr(c.quantitySold))
  }

  /** `{ message, updatedCar }` */
  datatype CarUpdated = CarUpdated(message: string, updatedCar: Car)

  /** The car table after the update step of `updateCar`: the addressed car
      is patched if it exists. */
  function PatchedCars(cars: seq<Car>, id: int, p: CarPatch): (r: seq<Car>)
    ensures |r| == |cars|
    ensures forall j :: 0 <= j < |cars| && cars[j].id != id ==> r[j] == cars[j]
    ensures CarIndex(cars, id).None? ==> r == cars
  {
    match CarIndex(cars, id)
    case None => cars
    case Some(i) => cars[i := Patched(cars[i], p)]
  }

  /** `updateCar` as written: the 403 for a non-seller is sent without a
      `return`, so the update still runs. The client sees the 403, yet the car
      is changed. For that caller the later sends then throw (headers already
      sent), the rejection escapes the handler, and that crash is not part of
      this model. An unknown id makes the ORM throw, answered 500 when nothing
      was sent. */
  method UpdateCar(db: Db, caller: Caller, id: int, patch: CarPatch) returns (resp: Response<CarUpdated>)
    requires db.Valid()
    modifies db
    ensures db.Valid()
    // The table is patched for every caller, seller or not.
    ensures db.cars == PatchedCars(old(db.cars), id, patch)
    ensures !caller.isSeller ==> resp == Fail(403, "You are not allowed to create a car!")
    ensures caller.isSeller && CarIndex(old(db.cars), id).None? ==> resp == Fail(500, "Failed to update car")
    ensures caller.isSeller && CarIndex(old(db.cars), id).Some? ==>
              var i := CarIndex(old(db.cars), id).value;
              resp == Ok(CarUpdated("Car updated successfully", db.cars[i]))
    ensures db.carts == old(db.carts) && db.orders == old(db.orders)
    ensures db.reviews == old(db.reviews) && db.users == old(db.users)
    ensures db.nextCarId == old(db.nextCarId) && db.nextCartId == old(db.nextCartId)
    ensures db.nextOrderId == old(db.nextOrderId)
    ensures db.nextReviewId == old(db.nextReviewId) && db.nextUserId == old(db.nextUserId)
  {
    var sent: Option<Response<CarUpdated>> := None;
    if !caller.isSeller {
      sent := Some(Fail(403, "You are not allowed to create a car!"));
    }
    var found := CarIndex(db.cars, id);
    if found.None? {
      return sent.GetOr(Fail(500, "Failed to update car"));
    }
    var i := found.value;
    var updated := Patched(db.cars[i], patch);
    UpdateSameKey(db.cars, CarKey, i, updated);
    db.cars := db.cars[i := updated];
    resp := sent.GetOr(Ok(CarUpdated("Car updated successfully", updated)));
  }

  /** `updateCar` with the missing `return` restored: a non-seller is
      refused and nothing changes. */
  method UpdateCarGated(db: Db, caller: Caller, id: int, patch: CarPatch) returns (resp: Response<CarUpdated>)
    requires db.Valid()
    modifies db
    ensures db.Valid()
    ensures !caller.isSeller ==>
              resp == Fail(403, "You are not allowed to create a car!") && db.cars == old(db.cars)
    ensures caller.isSeller ==> db.cars == PatchedCars(old(db.cars), id, patch)
    ensures caller.isSeller && CarIndex(old(db.cars), id).None? ==> resp == Fail(500, "Failed to update car")
    ensures caller.isSeller && CarIndex(old(db.cars), id).Some? ==>
              var i := CarIndex(old(db.cars), id).value;
              resp == Ok(CarUpdated("Car updated successfully", db.cars[i]))
    ensures db.carts == old(db.carts) && db.orders == old(db.orders)
    ensures db.reviews == old(db.reviews) && db.users == old(db.users)
    ensures db.nextCarId == old(db.nextCarId) && db.nextCartId == old(db.nextCartId)
    ensures db.nextOrderId == old(db.nextOrderId)
    ensures db.nextReviewId == old(db.nextReviewId) && db.nextUserId == old(db.nextUserId)
  {
    if !caller.isSeller {
      return Fail(403, "You are not allowed to create a car!");
    }
    resp := UpdateCar(db, caller, id, patch);
  }

  // ---------------------------------------------------------------------
  // getCarsStatistics

  /** A car with one extra count attached: `{ ...car, remainingQuantity }`
      or `{ ...car, soldQuantity }`. */
  datatype TaggedCar = TaggedCar(car: Car, count: int)

  /** `a / b || 0` on numbers: NaN (0 / 0) and 0 fall back to 0; a non-zero
      numerator over 0 is an infinity. Finite non-zero quotients are kept as
      the pair of integers they divide. */
  datatype Ratio = Zero | Quotient(num: int, den: int) | Infinity(positive: bool)

  function RatioOrZero(num: int, den: int): (r: Ratio)
    ensures r == Zero <==> num == 0
    ensures r.Infinity? <==> num != 0 && den == 0
    ensures r.Infinity? ==> r.positive == (num > 0)
    ensures r.Quotient? ==> r.num == num && r.den == den && den != 0
  {
    if num == 0 then Zero
    else if den == 0 then Infinity(num > 0)
    else Quotient(num, den)
  }

  datatype CarStats = CarStats(
    totalCars: int,
    totalQuantity: int,
    totalSoldQuantity: int,
    soldRatio: Ratio,
    availableRatio: Ratio,
    remainingCars: seq<TaggedCar>,
    soldCars: seq<TaggedCar>)

  function Quantity(c: Car): int { c.quantity }
  function QuantitySold(c: Car): int { c.quantitySold }
  predicate HasQuantity(c: Car) { c.quantity > 0 }
  predicate HasSold(c: Car) { c.quantitySold > 0 }
  function Count(t: TaggedCar): int { t.count }

  /** `cars.map(car => ({ ...car, <tag>: f(car) }))` */
  function Tag(cars: seq<Car>, f: Car -> int): (r: seq<TaggedCar>)
    ensures |r| == |cars| && forall i :: 0 <= i < |cars| ==> r[i] == TaggedCar(cars[i], f(cars[i]))
  {
    seq(|cars|, i requires 0 <= i < |cars| => TaggedCar(cars[i], f(cars[i])))
  }

  /** The statistics over the caller's cars. */
  function Statistics(cars: seq<Car>, sellerId: int): CarStats
  {
    var mine := Where(cars, CarSeller, sellerId);
    var totalQuantity := Sum(mine, Quantity);
    var totalSold := Sum(mine, QuantitySold);
    CarStats(|mine|, totalQuantity, totalSold,
             RatioOrZero(totalSold, totalQuantity + totalSold),
             RatioOrZero(totalQuantity, totalQuantity + totalSold),
             Tag(Filter(mine, HasQuantity), Quantity),
             Tag(Filter(mine, HasSold), QuantitySold))
  }

  /** `getCarsStatistics`: counts and sums over the caller's cars, and the
      cars that still have units or have sold some, in table order. */
  function GetCarsStatistics(cars: seq<Car>, caller: Caller): (r: Response<CarStats>)
    ensures r.status == 200 && r.body.Json?
    ensures var s := r.body.value;
            && s.totalCars == |Where(cars, CarSeller, caller.userId)|
            && s.totalQuantity == Sum(Where(cars, CarSeller, caller.userId), Quantity)
            && s.totalSoldQuantity == Sum(Where(cars, CarSeller, caller.userId), QuantitySold)
            && (s.totalQuantity == 0 && s.totalSoldQuantity == 0 ==> s.soldRatio == Zero && s.availableRatio == Zero)
  {
    Ok(Statistics(cars, caller.userId))
  }

  /** `remainingCars` holds exactly the caller's cars with units left, each
      tagged with that quantity; `soldCars` exactly those with sales, each
      tagged with the number sold. */
  lemma StatisticsListsExact(cars: seq<Car>, sellerId: int, c: Car)
    ensures var s := Statistics(cars, sellerId);
            && (TaggedCar(c, c.quantity) in s.remainingCars <==>
                  c in cars && c.sellerId == sellerId && c.quantity > 0)
            && (forall t :: t in s.remainingCars ==> t.count == t.car.quantity)
            && (TaggedCar(c, c.quantitySold) in s.soldCars <==>
                  c in cars && c.sellerId == sellerId && c.quantitySold > 0)
            && (forall t :: t in s.soldCars ==> t.count == t.car.quantitySold)
  {
    var mine := Where(cars, CarSeller, sellerId);
    var s := Statistics(cars, sellerId);
    FilterMembership(mine, HasQuantity, c);
    FilterMembership(mine, HasSold, c);
    var rem := Filter(mine, HasQuantity);
    var sold := Filter(mine, HasSold);
    if TaggedCar(c, c.quantity) in s.remainingCars {
      var i :| 0 <= i < |rem| && s.remainingCars[i] == TaggedCar(c, c.quantity);
      assert rem[i] == c;
    }
    if c in rem {
      var i :| 0 <= i < |rem| && rem[i] == c;
      assert s.remainingCars[i] == TaggedCar(c, c.quantity);
    }
    if TaggedCar(c, c.quantitySold) in s.soldCars {
      var i :| 0 <= i < |sold| && s.soldCars[i] == TaggedCar(c, c.quantitySold);
      assert sold[i] == c;
    }
    if c in sold {
      var i :| 0 <= i < |sold| && sold[i] == c;
      assert s.soldCars[i] == TaggedCar(c, c.quantitySold);
    }
  }

  /** The cars behind a list of tagged cars, in list order. */
  function Untag(ts: seq<TaggedCar>): (r: seq<Car>)
    ensures |r| == |ts| && forall i :: 0 <= i < |ts| ==> r[i] == ts[i].car
  {
    seq(|ts|, i requires 0 <= i < |ts| => ts[i].car)
  }

  /** Tagging distributes over concatenation. */
  lemma TagAppend(a: seq<Car>, b: seq<Car>, f: Car -> int)
    ensures Tag(a + b, f) == Tag(a, f) + Tag(b, f)
  {
    assert forall i :: 0 <= i < |a + b| ==> (a + b)[i] == if i < |a| then a[i] else b[i - |a|];
  }

  /** Each listed car appears in `remainingCars` (and `soldCars`) exactly as
      often as it occurs in the table when it is the caller's and has units
      left (has sales), and not at all otherwise. */
  lemma StatisticsListsKeepMultiplicity(cars: seq<Car>, sellerId: int, c: Car)
    ensures var s := Statistics(cars, sellerId);
            && multiset(Untag(s.remainingCars))[c] ==
                 (if c.sellerId == sellerId && c.quantity > 0 then multiset(cars)[c] else 0)
            && multiset(Untag(s.soldCars))[c] ==
                 (if c.sellerId == sellerId && c.quantitySold > 0 then multiset(cars)[c] else 0)
  {
    var mine := Where(cars, CarSeller, sellerId);
    var s := Statistics(cars, sellerId);
    assert Untag(s.remainingCars) == Filter(mine, HasQuantity);
    assert Untag(s.soldCars) == Filter(mine, HasSold);
    FilterMultiplicity(mine, HasQuantity, c);
    FilterMultiplicity(mine, HasSold, c);
  }

  /** A one-row table lists its car exactly when it qualifies. */
  lemma StatisticsListsOfOne(c: Car, sellerId: int)
    ensures var s := Statistics([c], sellerId);
            && s.remainingCars == (if c.sellerId == sellerId && c.quantity > 0
                                   then [TaggedCar(c, c.quantity)] else [])
            && s.soldCars == (if c.sellerId == sellerId && c.quantitySold > 0
                              then [TaggedCar(c, c.quantitySold)] else [])
  {
    WhereUnfold([c], CarSeller, sellerId);
    assert [c][1..] == [];
  }

  /** Both lists distribute over concatenation of the table, so together
      with `StatisticsListsOfOne` they are the qualifying cars in table
      order. */
  lemma StatisticsListsAppend(a: seq<Car>, b: seq<Car>, sellerId: int)
    ensures Statistics(a + b, sellerId).remainingCars ==
              Statistics(a, sellerId).remainingCars + Statistics(b, sellerId).remainingCars
    ensures Statistics(a + b, sellerId).soldCars ==
              Statistics(a, sellerId).soldCars + Statistics(b, sellerId).soldCars
  {
    var ma := Where(a, CarSeller, sellerId);
    var mb := Where(b, CarSeller, sellerId);
    WhereAppend(a, b, CarSeller, sellerId);
    FilterAppend(ma, mb, HasQuantity);
    FilterAppend(ma, mb, HasSold);
    TagAppend(Filter(ma, HasQuantity), Filter(mb, HasQuantity), Quantity);
    TagAppend(Filter(ma, HasSold), Filter(mb, HasSold), QuantitySold);
  }

  lemma {:induction false} SumTag(cars: seq<Car>, f: Car -> int)
    ensures Sum(Tag(cars, f), Count) == Sum(cars, f)
  {
    if cars != [] {
      var init := cars[..|cars| - 1];
      SumTag(init, f);
      assert Tag(cars, f)[..|cars| - 1] == Tag(init, f);
    }
  }

  /** When no count of the caller's cars is negative, the two lists account
      for every unit: the tags of `remainingCars` add up to `totalQuantity`
      and those of `soldCars` to `totalSoldQuantity`; no ratio is infinite,
      and with nothing listed or sold both ratios are 0. */
  lemma StatisticsAccountForEveryUnit(cars: seq<Car>, sellerId: int)
    requires forall c :: c in cars && c.sellerId == sellerId ==> c.quantity >= 0 && c.quantitySold >= 0
    ensures var s := Statistics(cars, sellerId);
            && Sum(s.remainingCars, Count) == s.totalQuantity
            && Sum(s.soldCars, Count) == s.totalSoldQuantity
            && !s.soldRatio.Infinity? && !s.availableRatio.Infinity?
            && (s.totalQuantity + s.totalSoldQuantity == 0 <==> s.soldRatio == Zero && s.availableRatio == Zero)
  {
    var mine := Where(cars, CarSeller, sellerId);
    assert forall i :: 0 <= i < |mine| ==> mine[i] in cars;
    SumOverPositive(mine, HasQuantity, Quantity);
    SumOverPositive(mine, HasSold, QuantitySold);
    SumTag(Filter(mine, HasQuantity), Quantity);
    SumTag(Filter(mine, HasSold), QuantitySold);
    SumNonNegative(mine, Quantity);
    SumNonNegative(mine, QuantitySold);
  }

  // ---------------------------------------------------------------------
  // fetchSellerDetails

  function Star(r: Review): int { r.star }

  /** `car.reviews.length`, as a function of the car. */
  function ReviewCount(reviews: seq<Review>): Car -> int
  {
    (c: Car) => |Where(reviews, ReviewCar, c.id)|
  }

  /** `car.reviews.reduce((sum, review) => sum + review.star, 0)`. */
  function StarTotal(reviews: seq<Review>): Car -> int
  {
    (c: Car) => Sum(Where(reviews, ReviewCar, c.id), Star)
  }

  /** The ids of the cars in `cs`. */
  function CarIds(cs: seq<Car>): set<int>
  {
    set c | c in cs :: c.id
  }

  /** The ids of the cars of `sellerId`. */
  function SellerCarIds(cars: seq<Car>, sellerId: int): set<int>
  {
    CarIds(Where(cars, CarSeller, sellerId))
  }

  /** Whether a review is about one of the cars whose ids are `ids`. */
  function AboutCars(ids: set<int>): Review -> bool
  {
    (r: Review) => r.carId in ids
  }

  /** Splitting off one car id splits the count of matching reviews. */
  lemma {:induction false} CountSplit(reviews: seq<Review>, ids: set<int>, v: int)
    requires v !in ids
    ensures |Filter(reviews, AboutCars(ids + {v}))|
            == |Filter(reviews, AboutCars(ids))| + |Where(reviews, ReviewCar, v)|
  {
    if reviews != [] {
      CountSplit(reviews[1..], ids, v);
      WhereUnfold(reviews, ReviewCar, v);
    }
  }

  /** Appending a car adds its id. */
  lemma CarIdsSnoc(init: seq<Car>, last: Car)
    ensures CarIds(init + [last]) == CarIds(init) + {last.id}
  {
    assert forall c :: c in init + [last] <==> c in init || c == last;
  }

  /** Summing the per-car review counts over cars with distinct ids counts
      every review of those cars exactly once. */
  lemma {:induction false} ReviewCountsAdd(cs: seq<Car>, reviews: seq<Review>)
    requires KeysUnique(cs, CarKey)
    ensures Sum(cs, ReviewCount(reviews)) == |Filter(reviews, AboutCars(CarIds(cs)))|
  {
    if cs == [] {
      assert CarIds(cs) == {};
      EmptyFilter(reviews, AboutCars(CarIds(cs)));
    } else {
      var init := cs[..|cs| - 1];
      var last := cs[|cs| - 1];
      assert cs == init + [last];
      assert KeysUnique(init, CarKey) by {
        forall a, b | 0 <= a < b < |init| ensures CarKey(init[a]) != CarKey(init[b]) {
          assert init[a] == cs[a] && init[b] == cs[b];
        }
      }
      ReviewCountsAdd(init, reviews);
      CarIdsSnoc(init, last);
      assert last.id !in CarIds(init) by {
        forall c | c in init ensures c.id != last.id {
          var a :| 0 <= a < |init| && init[a] == c;
          assert cs[a] == c && CarKey(cs[a]) != CarKey(cs[|cs| - 1]);
        }
      }
      CountSplit(reviews, CarIds(init), last.id);
      assert Sum(cs, ReviewCount(reviews)) == Sum(init, ReviewCount(reviews)) + ReviewCount(reviews)(last);
    }
  }

  /** With car ids unique, the `totalReviews` that `fetchSellerDetails`
      accumulates is the number of reviews whose car belongs to the caller. */
  lemma TotalReviewsCountsSellerReviews(cars: seq<Car>, reviews: seq<Review>, sellerId: int)
    requires KeysUnique(cars, CarKey)
    ensures Sum(Where(cars, CarSeller, sellerId), ReviewCount(reviews))
            == |Filter(reviews, AboutCars(SellerCarIds(cars, sellerId)))|
  {
    var mine := Where(cars, CarSeller, sellerId);
    WhereKeepsUnique(cars, CarSeller, sellerId, CarKey);
    ReviewCountsAdd(mine, reviews);
  }

  /** `totalStars / totalReviews` (rounded to two decimals in the source),
      or 0 when there is no review. */
  datatype Average = NoReviews | Mean(totalStars: int, totalReviews: int)

  datatype SellerInfo = SellerInfo(username: string, email: string, whatsapp: string, averageStars: Average)
  datatype SellerDetails = SellerDetails(length: int, seller: SellerInfo)

  /** `fetchSellerDetails`: 404 when the caller has no car; otherwise the
      number of cars, the seller's contact columns and the average of the
      stars of every review of those cars. A missing seller row makes
      `cars[0].seller.username` throw, answered 500. */
  method FetchSellerDetails(cars: seq<Car>, reviews: seq<Review>, users: seq<User>, caller: Caller)
    returns (resp: Response<SellerDetails>)
    ensures var mine := Where(cars, CarSeller, caller.userId);
            && (mine == [] ==> resp == Fail(404, "No cars found for this seller."))
            && (mine != [] && FindUser(users, caller.userId).None? ==>
                  resp == Fail(500, "Failed to fetch seller details."))
            && (mine != [] && FindUser(users, caller.userId).Some? ==>
                  var u := FindUser(users, caller.userId).value;
                  var total := Sum(mine, ReviewCount(reviews));
                  && resp.status == 200 && resp.body.Json?
                  && resp.body.value.length == |mine|
                  && resp.body.value.seller.username == u.username
                  && resp.body.value.seller.email == u.email
                  && resp.body.value.seller.whatsapp == u.whatsapp
                  && (total == 0 ==> resp.body.value.seller.averageStars == NoReviews)
                  && (total != 0 ==> resp.body.value.seller.averageStars
                                     == Mean(Sum(mine, StarTotal(reviews)), total)))
  {
    var mine := Where(cars, CarSeller, caller.userId);
    if |mine| == 0 {
      return Fail(404, "No cars found for this seller.");
    }
    var totalReviews := 0;
    var totalStars := 0;
    for k := 0 to |mine|
      invariant totalReviews == Sum(mine[..k], ReviewCount(reviews))
      invariant totalStars == Sum(mine[..k], StarTotal(reviews))
    {
      var own := Where(reviews, ReviewCar, mine[k].id);
      assert mine[..k + 1][..k] == mine[..k];
      totalReviews := totalReviews + |own|;
      totalStars := totalStars + Sum(own, Star);
    }
    assert mine[..|mine|] == mine;
    SumNonNegative(mine, ReviewCount(reviews));
    var averageStars := if totalReviews > 0 then Mean(totalStars, totalReviews) else NoReviews;
    // `cars[0].seller` is the seller row of the caller's first car.
    var seller := FindUser(users, mine[0].sellerId);
    if seller.None? {
      return Fail(500, "Failed to fetch seller details.");
    }
    var u := seller.value;
    resp := Ok(SellerDetails(|mine|, SellerInfo(u.username, u.email, u.whatsapp, averageStars)));
  }
}

/** A verified scenario: `updateCar` by a caller who is not a seller. */
module CarScenarios {
  import opened Common
  import opened Store
  import opened CarController

  /** The non-seller is told 403, and the price changes all the same. */
  method UpdateByNonSeller() returns (status: int, price: int)
    ensures status == 403 && price == 2500
  {
    var db := new Db();
    var created := CreateCar(db, Caller(1, true), CarBody(None, "brand", "image", 1000, 1, 1, 0));
    var resp := UpdateCar(db, Caller(2, false), 1, CarPatch(None, None, None, Some(2500), None, None, None));
    status, price := resp.status, db.cars[0].price;
  }
}
