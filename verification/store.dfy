/** The relational store the controllers reach through the ORM, held in
    memory: one sequence of rows per table, in insertion order, and one
    autoincrement counter per table. */
module Store {
  import opened Common
  import opened Seqs

  /** A listing. The statistics read `quantity`; ordering writes
      `quantityInStock`. Both columns are kept, as the controllers use both. */
  datatype Car = Car(
    id: int,
    sellerId: int,
    brand: string,
    coverImage: string,
    price: int,           // an integer amount (cents)
    quantity: int,
    quantityInStock: int,
    quantitySold: int)

  /** A cart line. `totalPrice` is unset until the line is updated. */
  datatype CartItem = CartItem(id: int, buyerId: int, carId: int, quantity: int, totalPrice: Option<int>)

  datatype Order = Order(
    id: int,
    buyerId: int,
    carId: int,
    cartItemId: int,
    paymentIntent: string,
    totalPrice: int)

  datatype Review = Review(id: int, buyerId: int, carId: int, star: int, desc: string)

  /** `password` holds the stored hash. */
  datatype User = User(
    id: int,
    email: string,
    password: string,
    username: string,
    whatsapp: string,
    isSeller: bool)

  function CarKey(c: Car): int { c.id }
  function CartKey(c: CartItem): int { c.id }
  function OrderKey(o: Order): int { o.id }
  function ReviewKey(r: Review): int { r.id }
  function UserKey(u: User): int { u.id }
  function UserEmail(u: User): string { u.email }
  function CarSeller(c: Car): int { c.sellerId }
  function CartBuyer(c: CartItem): int { c.buyerId }
  function OrderBuyer(o: Order): int { o.buyerId }
  function ReviewCar(r: Review): int { r.carId }
  /** The (buyer, car) pair a review is about. */
  function ReviewPair(r: Review): (int, int) { (r.buyerId, r.carId) }

  /** `prisma.car.findUnique({ where: { id } })`, as a position. */
  function CarIndex(cars: seq<Car>, id: int): (r: Option<nat>)
    ensures r.Some? ==> r.value < |cars| && cars[r.value].id == id
    ensures r.None? ==> forall j :: 0 <= j < |cars| ==> cars[j].id != id
  {
    IndexWhere(cars, (c: Car) => c.id == id)
  }

  /** `prisma.car.findUnique({ where: { id } })`, as a row. */
  function FindCar(cars: seq<Car>, id: int): Option<Car>
  {
    FindWhere(cars, (c: Car) => c.id == id)
  }

  /** `prisma.cart.findUnique({ where: { id } })`, as a position. */
  function CartIndex(carts: seq<CartItem>, id: int): (r: Option<nat>)
    ensures r.Some? ==> r.value < |carts| && carts[r.value].id == id
    ensures r.None? ==> forall j :: 0 <= j < |carts| ==> carts[j].id != id
  {
    IndexWhere(carts, (c: CartItem) => c.id == id)
  }

  /** `prisma.user.findUnique({ where: { id } })`. */
  function FindUser(users: seq<User>, id: int): Option<User>
  {
    FindWhere(users, (u: User) => u.id == id)
  }

  /** `prisma.user.findUnique({ where: { email } })`. */
  function FindUserByEmail(users: seq<User>, email: string): Option<User>
  {
    FindWhere(users, (u: User) => u.email == email)
  }

  /** `prisma.review.findFirst({ where: { buyerId, carId } })`. */
  function FindReview(reviews: seq<Review>, buyerId: int, carId: int): Option<Review>
  {
    FindWhere(reviews, (v: Review) => ReviewPair(v) == (buyerId, carId))
  }

  /** The database the ORM client talks to. */
  class Db {
    var cars: seq<Car>
    var carts: seq<CartItem>
    var orders: seq<Order>
    var reviews: seq<Review>
    var users: seq<User>
    var nextCarId: int
    var nextCartId: int
    var nextOrderId: int
    var nextReviewId: int
    var nextUserId: int

    /** Primary keys are unique and below their counters, e-mail addresses
        are unique, and no buyer has reviewed the same car twice. */
    ghost predicate Valid()
      reads this
    {
      && KeysUnique(cars, CarKey) && KeysBelow(cars, CarKey, nextCarId)
      && KeysUnique(carts, CartKey) && KeysBelow(carts, CartKey, nextCartId)
      && KeysUnique(orders, OrderKey) && KeysBelow(orders, OrderKey, nextOrderId)
      && KeysUnique(reviews, ReviewKey) && KeysBelow(reviews, ReviewKey, nextReviewId)
      && KeysUnique(users, UserKey) && KeysBelow(users, UserKey, nextUserId)
      && KeysUnique(users, UserEmail)
      && KeysUnique(reviews, ReviewPair)
    }

    /** An empty database; autoincrement keys start at 1. */
    constructor ()
      ensures Valid()
      ensures cars == [] && carts == [] && orders == [] && reviews == [] && users == []
      ensures nextCarId == 1 && nextCartId == 1 && nextOrderId == 1
      ensures nextReviewId == 1 && nextUserId == 1
    {
      cars, carts, orders, reviews, users := [], [], [], [], [];
      nextCarId, nextCartId, nextOrderId, nextReviewId, nextUserId := 1, 1, 1, 1, 1;
    }
  }
}
