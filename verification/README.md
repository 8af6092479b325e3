# Marketplace backend: a Dafny model of its controllers and middlewares

The system is the backend of a car marketplace. Sellers list cars. Buyers
fill a cart, place orders and write reviews. Users register and log in.
The handlers modelled here read and write five ORM tables: cars, carts,
orders, reviews and users. A sixth table, favourites, is used only by
handlers this model leaves out.

The model keeps those tables in memory, in `Store.Db`:

- Each table is a `seq` of rows in insertion order.
- Each table has an autoincrement counter.
- The object invariant `Db.Valid()` says:
  - primary keys are unique and below their counters;
  - e-mail addresses are unique;
  - no buyer has two reviews of the same car.

Each handler becomes one of three things:

- A handler that changes a table is a method with `modifies db`. Its
  postcondition gives the whole new state and the response.
- A handler that only reads is usually a function of the table contents.
- Two read-only handlers are methods that take no `modifies` clause:
  - `CarController.FetchSellerDetails` keeps the source's accumulating loop;
  - `ReviewController.AddReviewAsWritten` takes the store but cannot change it.

The caller's identity (`userId`, `isSeller`) is the explicit parameter
`Common.Caller`. A response is `Common.Response`: a status code plus a body,
which is a payload, `{ error }`, `{ message }`, or a serialised exception.

Files:

- `common.dfy`: `Option`, `Caller`, `Response`, and the gates' `AppError`.
- `seqs.dfy`: filtering (`Filter`, `Where` for `findMany({ where })`),
  sums (`Sum` for `reduce`), lookup (`IndexWhere` and `FindWhere` for `findUnique`), and
  key-uniqueness facts.
- `store.dfy`: the row types, lookups, and the `Db` class.
- One module per core source file:
  - `order_controller.dfy` (`OrderController`)
  - `cart_controller.dfy` (`CartController`)
  - `car_controller.dfy` (`CarController`)
  - `review_controller.dfy` (`ReviewController`)
  - `auth_controller.dfy` (`AuthController`)
  - `check_buyer.dfy` (`CheckBuyer`)
  - `check_seller.dfy` (`CheckSeller`)
  - `error_middleware.dfy` (`ErrorMiddleware`)
- Two scenario modules. `OrderScenarios` and `CarScenarios` are verified
  scenarios: concrete requests on a fresh database, with their outcomes
  proved.

The model follows the code where the code and the design intent differ.
The code has none of these checks, and the model keeps them out:

- no stock check before an order;
- the cart line is not deleted when an order is placed;
- there is no uniqueness check on cart lines;
- there is no ownership check on cart lines or cars.

Source quirks kept as written:

- Statistics read `car.quantity` (controllers/car.controller.js:106,113).
  Ordering writes `quantityInStock` (controllers/order.controller.js:26).
  `Car` has both columns.
- `getAllOrders` filters on `buyerId` equal to the seller's own id.
- `deleteCar` and `updateCar` refuse a non-seller with the `createCar`
  message.
- The caller's identity comes from three places: `req.user.id` in the
  cart handlers, `req.user` in `deleteCar`/`updateCar`, and `req.userId`
  elsewhere. The model uses one `Caller` value for all of them.
- `getCarsStatistics` falls back to a ratio of 0 only when its numerator
  is 0. The numerator is 0 both for 0/0 (NaN) and for a zero quotient.
  A zero total with non-zero sums (for example 5 units sold and -5 listed)
  gives an infinite ratio. `CarController.StatisticsAccountForEveryUnit`
  shows this cannot happen when no count is negative.

## Model

| member | source | states |
|---|---|---|
| `OrderController.CreateOrder` | controllers/order.controller.js:3-34 | Exactly one order is inserted on every path. Its `paymentIntent`, `totalPrice`, `cartItemId` and `carId` come from the body; its buyer is the caller. The response is 201 exactly when the car exists, whatever its stock. Otherwise the response is 404, the cars are unchanged, and the order stays (an orphan order). On success that car sells one unit and loses one unit of stock. No other car changes. Stock plus sold is conserved for every car. The cart, review and user tables are untouched. |
| `OrderController.RecordSale` | controllers/order.controller.js:22-28 | Booking a sale adds one to `quantitySold`, keeps `quantityInStock + quantitySold`, and changes no other column. |
| `OrderScenarios.OrderOutOfStock` | controllers/order.controller.js:22-28 | A car with 0 units in stock is still sold: the response is 201, stock becomes -1 and sold goes from 3 to 4. So stock >= 0 is not an invariant. |
| `OrderScenarios.OrderMissingCar` | controllers/order.controller.js:6-21 | Ordering an unknown car answers 404, but the order row has already been written. |
| `OrderController.GetAllOrders` | controllers/order.controller.js:36-67 | A non-seller gets 403 with a response that does not depend on any table. A seller gets 200 and exactly the orders whose `buyerId` is the caller, in table order. Each order carries its looked-up buyer and car columns. |
| `Seqs.Where` | controllers/order.controller.js:42-45 | The rows of `findMany({ where: { column: v } })`: an element is listed exactly when it is in the table with that value, as often as it occurs there. |
| `Seqs.WhereAppend` | controllers/order.controller.js:42-45 | Filtering distributes over concatenation, so listings keep table order. |
| `CartController.GetCartItems` | controllers/cart.controller.js:2-15 | Always 200. The listed lines are exactly the caller's cart lines, in table order. Each line carries the current car with its id, or none when that car is gone. |
| `CartController.AddItemToCart` | controllers/cart.controller.js:17-31 | Exactly one line is appended, with no duplicate check and no price computed. Its `buyerId` is the body's when the body has one, otherwise the caller's. The response is 201 with that line. No other table changes. |
| `CartController.UpdateCartItem` | controllers/cart.controller.js:33-60 | An unknown id answers 404 and changes nothing. A line whose car is gone answers 500 and changes nothing. Otherwise only that line changes, to the new quantity and `totalPrice = car.price * quantity`, and the response is 200 with it. There is no ownership check, and no other table changes. |
| `CartController.Repriced` | controllers/cart.controller.js:47-54 | The repriced line keeps its id, buyer and car, takes the new quantity, and has total `price * quantity`. |
| `CartController.UpdatedCarts` | controllers/cart.controller.js:38-54 | The table keeps its length, and every line with another id is unchanged. |
| `CartController.UpdateCartItemIdempotent` | controllers/cart.controller.js:33-60 | Repeating an update with the same quantity gives the same table. |
| `CartController.RemoveItemFromCart` | controllers/cart.controller.js:63-73 | The remaining lines are exactly the old lines whose id differs from the given one. Removing an unknown id throws, answers 500 and changes nothing. Otherwise the response is 204. No other table changes. |
| `CarController.CreateCar` | controllers/car.controller.js:41-57 | A non-seller gets 403 and nothing changes. Otherwise exactly one car is appended and its seller is the caller, even when the body names another seller. The response is 201 with that car. |
| `CarController.NewCar` | controllers/car.controller.js:47-52 | The stored car takes the body's columns, the new key, and the caller as seller. |
| `CarController.DeleteCar` | controllers/car.controller.js:59-77 | A non-seller gets 403 and nothing changes. An unknown id gets 404 and nothing changes. Otherwise exactly the car with that id is removed, whoever its seller. No other table changes. |
| `CarController.Patched` | controllers/car.controller.js:85-88 | The patch replaces the columns it sets and keeps the others; the key never changes. An empty patch is the identity. |
| `CarController.PatchedCars` | controllers/car.controller.js:85-88 | Only the car with the given id can change; with no such car, the table is unchanged. |
| `CarController.UpdateCar` | controllers/car.controller.js:79-95 | As written: the table is patched for every caller. A non-seller is told 403 all the same. A seller gets 500 for an unknown id, otherwise 200 with the updated car. |
| `CarScenarios.UpdateByNonSeller` | controllers/car.controller.js:82-88 | A non-seller's price update answers 403, and the price is changed anyway. |
| `CarController.UpdateCarGated` | controllers/car.controller.js:79-95 | With the missing `return` restored, a non-seller gets 403 and the cars are unchanged. |
| `CarController.RatioOrZero` | controllers/car.controller.js:126-129 | `a / b` gives 0 exactly when the numerator is 0, which covers 0/0 = NaN. It is infinite exactly when a non-zero numerator meets a zero denominator. Otherwise it is the quotient. |
| `CarController.GetCarsStatistics` | controllers/car.controller.js:97-143 | Always 200. `totalCars` is the number of the caller's cars. `totalQuantity` is the sum of their `quantity`. `totalSoldQuantity` is the sum of their `quantitySold`. When both sums are 0, both ratios are 0. |
| `CarController.StatisticsListsExact` | controllers/car.controller.js:112-124 | `remainingCars` holds exactly the caller's cars with `quantity > 0`, each tagged with its quantity. `soldCars` holds exactly those with `quantitySold > 0`, each tagged with the number sold. |
| `CarController.StatisticsListsKeepMultiplicity` | controllers/car.controller.js:112-124 | Each car occurs in `remainingCars` as often as in the table when it is the caller's and has `quantity > 0`, and never otherwise. Likewise for `soldCars` and `quantitySold > 0`. |
| `CarController.StatisticsListsOfOne` | controllers/car.controller.js:112-124 | A one-row table lists its car, with its tag, exactly when it qualifies. |
| `CarController.StatisticsListsAppend` | controllers/car.controller.js:112-124 | Both lists of a concatenated table are the lists of the parts, concatenated. With the one-row case, the lists are the qualifying cars in table order. |
| `CarController.StatisticsAccountForEveryUnit` | controllers/car.controller.js:105-129 | Assume no count is negative. Then the tags of `remainingCars` add up to `totalQuantity` and those of `soldCars` to `totalSoldQuantity`. No ratio is infinite. Both ratios are 0 exactly when the total is 0. |
| `CarController.FetchSellerDetails` | controllers/car.controller.js:144-190 | A caller with no cars gets 404. Otherwise the loop's `totalReviews` is the sum of the review counts of the caller's cars. The average is 0 (no reviews) when that sum is 0, and otherwise the pair (total stars, total reviews). The response also carries the number of cars and the seller's contact columns. A missing seller row answers 500. |
| `CarController.TotalReviewsCountsSellerReviews` | controllers/car.controller.js:166-173 | With unique car ids, `totalReviews` equals the number of reviews whose car belongs to the caller. Each review is counted once. |
| `CarController.ReviewCountsAdd` | controllers/car.controller.js:170-173 | Summing per-car review counts over cars with distinct ids counts every review of those cars once. |
| `CarController.CountSplit` | controllers/car.controller.js:171 | Adding one new car id to a set adds that car's reviews to the count. |
| `ReviewController.AddReview` | controllers/review.controller.js:1-29 | Suppose the caller has already reviewed the car named by the route id. Then the response is 400 with "You have already reviewed this car!." and nothing is inserted. Otherwise exactly one review `(route id, star, desc, caller)` is appended, and all existing reviews are kept. Either way no buyer ends up with two reviews of one car (`Db.Valid`). |
| `ReviewController.AddReviewAsWritten` | controllers/review.controller.js:5-28 | As written, the undeclared `carId` throws before any query. Every request answers 500 with `{ error: {} }`, and the method cannot modify the store. |
| `ReviewController.GetCarReviews` | controllers/review.controller.js:31-50 | Always 200. The listed reviews are exactly those whose `carId` is the route id, in table order, each with its author's username. |
| `ReviewController.CarReviewsOnePerBuyer` | controllers/review.controller.js:6-24 | While reviews are unique per buyer and car, a car's review listing never shows two reviews by one buyer. |
| `AuthController.Register` | controllers/auth.controller.js:4-36 | An address already present answers 400 and leaves the users unchanged. Otherwise exactly one user is appended, storing `hash(password)`, and the response is that user without the password column. E-mail addresses stay unique (`Db.Valid`). |
| `AuthController.WithoutPassword` | controllers/auth.controller.js:29-31 | The response row has every column of the user except the password. |
| `AuthController.Login` | controllers/auth.controller.js:37-68 | A missing or empty e-mail or password answers 400, whatever the users are. An unknown address answers 404. A failed comparison answers 401. Otherwise the response is 200 with a token signed over `(id, email)` and the full user row, stored hash included. No other status occurs. |
| `AuthController.RegisterThenLogin` | controllers/auth.controller.js:18-63 | Suppose `compare` accepts a password against its own hash. Then logging in with the registered address and password returns the new user and its token. |
| `CheckBuyer.Check` | middlewares/checkBuyer.js:3-9 | `next` is called with a 403 error exactly when the caller is a seller. The error's message is "You are not allowed to " + action + "!". Otherwise `next` is called bare. |
| `CheckSeller.Check` | middlewares/checkSeller.js:3-11 | `next` is called with a 403 error exactly when the caller is not a seller, with the same message. For the same request it passes exactly when `checkBuyer` refuses. |
| `AppErrors.Forbidden` | middlewares/checkSeller.js:7-8 | The gates' error has status 403. Its message is "You are not allowed to ", then the action verbatim, then "!". |
| `AppErrors.ForbiddenNamesAction` | middlewares/checkSeller.js:7-8 | Two refusals are equal only when they refuse the same action. |
| `ErrorMiddleware.Handle` | middlewares/errorMiddleware.js:1-21 | `success` is always false, and the status is never 0. An operational error keeps a truthy `statusCode` (else 500) and a truthy message (else "Something went wrong!"). Any other error is 500 with "Internal Server Error". |

## Findings

| source | as written | input that shows it | evidently intended | confidence | as-written member | corrected member |
|---|---|---|---|---|---|---|
| controllers/car.controller.js:82-83 | The 403 for a non-seller has no `return`, so the update on lines 85-88 still runs. The later `res.json` on line 90, or the 500 on line 93 for an unknown id, then throws because a response was already sent; the catch's own send throws outside any `try`, so the handler's promise rejects unhandled. | A non-seller updates the price of an existing car: the response is 403 and the price changes. This assumes the one caller identity described above. As wired, middlewares/verifyToken.js sets only `req.userId` and `req.isSeller`, so `req.user` on line 81 is undefined and that line throws before the gate. | Return after the 403 and leave the car untouched. | high, not executed | `CarController.UpdateCar` (exhibited by `CarScenarios.UpdateByNonSeller`) | `CarController.UpdateCarGated` |
| controllers/review.controller.js:9 | The duplicate lookup names `carId`, which is never declared, so the handler throws a ReferenceError before any query. | Any request, for example a first review of car 1: the response is 500 and no review is stored. | Look up by `parseInt(id)`, the id the insert on line 19 uses. | high, not executed | `ReviewController.AddReviewAsWritten` | `ReviewController.AddReview` |

## Left out

- `getCars` and `getCarById` (controllers/car.controller.js:3-39): the first
  is case-insensitive `contains`/`equals` matching and float price bounds
  evaluated by the ORM; the second is a single lookup with no logic of its
  own.
- The values of `soldRatio`, `availableRatio` and `averageStars`: these
  are floating-point numbers, and `averageStars` is rounded with `toFixed`.
  A ratio is kept as the pair of integers it divides, and the average as
  `(totalStars, totalReviews)`. Only the 0 and infinite cases are decided.
- `CarController.UpdateCar`: for a non-seller it returns the 403 that
  reaches the client and the table after the update. It does not model
  the failed later sends (lines 90 and 93 throw once the 403 is out) or
  the unhandled rejection they cause. Nothing catches that rejection
  (routes/car.route.js:24 and server.js install no handler), and on
  current Node it ends the process.
- `CartController.RemoveItemFromCart`: the 500 body for an unknown id
  carries a shortened form of the ORM's `error.message`. The ORM's full
  text, with its invocation details, is not modelled. The same holds for
  the 500 of `CartController.UpdateCartItem`, whose text is the runtime's
  TypeError message.
- `AuthController.Register`: it does not state that the stored password
  differs from the plaintext. That is a property of bcrypt, which is a
  parameter here. `hash` is a deterministic function, so bcrypt's random
  salt is not modelled.
- Hashing, comparison and token signing are parameters. The JWT secret
  and the token format are not modelled.
- ORM failures other than the deterministic ones are not modelled. These
  include connection errors, foreign-key and unique-constraint violations,
  and validation of missing fields. So every insert succeeds. The
  deterministic ones are modelled: deleting an unknown cart line, updating
  an unknown car, and reading the price of a missing car.
- Deleting a car does not cascade to carts, orders or reviews. Rows that
  refer to a deleted car stay.
- Order timestamps and any column the handlers do not read or write.
- Body fields beyond the modelled columns, including a body-supplied
  primary key.
- `parseInt` on route ids: ids arrive as integers, and NaN ids are not
  modelled.
- `findMany` is taken to return rows in insertion order. The ORM does not
  promise an order.
- `removeItemFromCart` answers 204, and Express drops the body of a 204.
  The model still records the message the handler passes.
- The HTTP layer is not modelled: routes, `server.js`, and the
  `res.status().json()` plumbing. Token verification
  (middlewares/verifyToken.js) is left out too, and its result is the
  `Caller` parameter.
- utils/AppError.js is not part of this model. A gate's error keeps only
  its message and status. So the model does not connect the gates to
  `errorHandler`'s `isOperational` test.
- controllers/review.controller.js does not import the ORM client.
  utils/db.js is not part of this model. The model assumes the client is
  reachable there, as it is in the other controllers.
- controllers/car.controller.js:198-199 exports `addReview` and
  `getCarReviews`, which that file never defines. Module loading is not
  modelled, so the car handlers are treated as reachable. The review
  handlers are modelled from controllers/review.controller.js.
- Nothing is modelled for `confirmOrder`, `createPaymentIntent`,
  `getOrders`, `requestOtp`, `verifyOtp` or `resetPassword`. The routes
  import them, but no controller defines them.
- The payment, e-mail, image-upload, user-profile and favourites handlers
  are not modelled. They are third-party I/O or pass straight to the ORM.
- JavaScript numbers are IEEE doubles. The model uses unbounded integers
  for them, so it assumes every price, quantity, counter and sum is an
  integer below 2^53, where double arithmetic is exact. This covers the
  stock and sales updates (controllers/order.controller.js:25-26), the
  `reduce` sums (controllers/car.controller.js:106-110) and
  `price * quantity` (controllers/cart.controller.js:47).
- Concurrent requests are not modelled; every handler runs as one atomic
  step.
