/** controllers/review.controller.js: one review per buyer and car. */
module ReviewController {
  import opened Common
  import opened Seqs
  import opened Store

  /** `addReview` with the lookup keyed by the route id: a second review of
      the same car by the same buyer is refused; otherwise the review is
      appended and every existing review is kept as it was. */
  method AddReview(db: Db, caller: Caller, id: int, star: int, desc: string) returns (resp: Response<Review>)
    requires db.Valid()
    modifies db
    // Valid() includes: no two reviews share a (buyer, car) pair.
    ensures db.Valid()
    ensures FindReview(old(db.reviews), caller.userId, id).Some? ==>
              && resp == Response(400, Message("You have already reviewed this car!."))
              && db.reviews == old(db.reviews) && db.nextReviewId == old(db.nextReviewId)
    ensures FindReview(old(db.reviews), caller.userId, id).None? ==>
              && db.reviews == old(db.reviews) + [Review(old(db.nextReviewId), caller.userId, id, star, desc)]
              && db.nextReviewId == old(db.nextReviewId) + 1
              && resp == Created(db.reviews[|db.reviews| - 1])
    ensures db.cars == old(db.cars) && db.carts == old(db.carts)
    ensures db.orders == old(db.orders) && db.users == old(db.users)
    ensures db.nextCarId == old(db.nextCarId) && db.nextCartId == old(db.nextCartId)
    ensures db.nextOrderId == old(db.nextOrderId) && db.nextUserId == old(db.nextUserId)
  {
    if FindReview(db.reviews, caller.userId, id).Some? {
      return Response(400, Message("You have already reviewed this car!."));
    }
    var review := Review(db.nextReviewId, caller.userId, id, star, desc);
    AppendFreshKey(db.reviews, ReviewKey, db.nextReviewId, review);
    AppendNewKey(db.reviews, ReviewPair, review);
    db.reviews := db.reviews + [review];
    db.nextReviewId := db.nextReviewId + 1;
    resp := Created(review);
  }

  /** `addReview` as written: the lookup names `carId`, which is not
      declared, so evaluating it throws a ReferenceError before any query.
      The catch answers 500 with `{ error: "Failed to add review.", error }`,
      whose second `error` key (the exception, serialised as `{}`) overrides
      the first. No review can ever be added. */
  method AddReviewAsWritten(db: Db, caller: Caller, id: int, star: int, desc: string)
    returns (resp: Response<Review>)
    ensures resp == Response(500, ThrownError)
  {
    resp := Response(500, ThrownError);
  }

  /** A review with the `include`d username of its author. */
  datatype ReviewView = ReviewView(review: Review, buyer: Option<string>)

  function ReviewsOfViews(vs: seq<ReviewView>): (rs: seq<Review>)
    ensures |rs| == |vs| && forall i :: 0 <= i < |vs| ==> rs[i] == vs[i].review
  {
    seq(|vs|, i requires 0 <= i < |vs| => vs[i].review)
  }

  function Author(r: Review, users: seq<User>): Option<string>
  {
    match FindUser(users, r.buyerId)
    case None => None
    case Some(u) => Some(u.username)
  }

  /** `getCarReviews`: every review of the car named by the route id, in
      table order, each with its author's username. */
  function GetCarReviews(reviews: seq<Review>, users: seq<User>, id: int): (r: Response<seq<ReviewView>>)
    ensures r.status == 200 && r.body.Json?
    ensures ReviewsOfViews(r.body.value) == Where(reviews, ReviewCar, id)
    ensures forall v :: v in r.body.value ==>
              v.review in reviews && v.review.carId == id && v.buyer == Author(v.review, users)
  {
    var ofCar := Where(reviews, ReviewCar, id);
    var views := seq(|ofCar|, i requires 0 <= i < |ofCar| => ReviewView(ofCar[i], Author(ofCar[i], users)));
    assert ReviewsOfViews(views) == ofCar;
    Ok(views)
  }

  /** With reviews unique per (buyer, car), a car's listing holds at most one
      review by any buyer. */
  lemma CarReviewsOnePerBuyer(reviews: seq<Review>, users: seq<User>, id: int)
    requires KeysUnique(reviews, ReviewPair)
    ensures var listed := ReviewsOfViews(GetCarReviews(reviews, users, id).body.value);
            forall i, j :: 0 <= i < j < |listed| ==> listed[i].buyerId != listed[j].buyerId
  {
    var listed := ReviewsOfViews(GetCarReviews(reviews, users, id).body.value);
    WhereKeepsUnique(reviews, ReviewCar, id, ReviewPair);
    forall i, j | 0 <= i < j < |listed| ensures listed[i].buyerId != listed[j].buyerId {
      assert ReviewPair(listed[i]) != ReviewPair(listed[j]);
    }
  }
}
