/** Reviews of drinks: the `drink_reviews` table, adding a review (with the
    drink's review count in the answer) and deleting one. */
module DrinkInteractions {
  import opened Common
  import opened Policy
  import opened Accounts
  import opened Authorship
  import opened JsNumbers

  /** A `drink_reviews` row; the rating is the body's, read by `parseInt`. */
  datatype Review = Review(drinkId: Id, userId: Option<Id>, userName: Option<string>, rating: int, content: Val)

  /** The ids of one drink's reviews. */
  function ReviewsOf(reviews: map<Id, Review>, drinkId: Id): (r: set<Id>)
    ensures forall id :: id in r <==> id in reviews && reviews[id].drinkId == drinkId
  {
    set id | id in reviews && reviews[id].drinkId == drinkId
  }

  /** `COUNT(*) ... WHERE drink_id = :drinkId`. */
  function ReviewCount(reviews: map<Id, Review>, drinkId: Id): nat {
    |ReviewsOf(reviews, drinkId)|
  }

  /** Inserting a review under a fresh id adds one to its drink's count and
      leaves every other drink's count alone. */
  lemma CountAfterInsert(reviews: map<Id, Review>, id: Id, review: Review, other: Id)
    requires id !in reviews
    ensures ReviewCount(reviews[id := review], review.drinkId) == ReviewCount(reviews, review.drinkId) + 1
    ensures other != review.drinkId ==> ReviewCount(reviews[id := review], other) == ReviewCount(reviews, other)
  {
    var after := reviews[id := review];
    assert ReviewsOf(after, review.drinkId) == ReviewsOf(reviews, review.drinkId) + {id};
    if other != review.drinkId {
      assert ReviewsOf(after, other) == ReviewsOf(reviews, other);
    }
  }

  /** Removing a review takes one off its drink's count. */
  lemma CountAfterRemove(reviews: map<Id, Review>, id: Id)
    requires id in reviews
    ensures ReviewCount(reviews - {id}, reviews[id].drinkId) == ReviewCount(reviews, reviews[id].drinkId) - 1
  {
    assert ReviewsOf(reviews - {id}, reviews[id].drinkId) == ReviewsOf(reviews, reviews[id].drinkId) - {id};
  }

  class ReviewBook {
    var reviews: map<Id, Review>
    var nextReviewId: Id

    /** The serial counter is ahead of every stored review id. */
    ghost predicate Valid()
      reads this
    {
      forall id :: id in reviews ==> id < nextReviewId
    }

    constructor ()
      ensures Valid() && reviews == map[] && nextReviewId == 1
    {
      reviews := map[];
      nextReviewId := 1;
    }

    /** `addReview`: a falsy rating is refused before anything else; 401
        without a user id in the token; the author name follows the fallback
        chain; a rating `parseInt` cannot read (`NaN`), or a content
        Sequelize cannot bind, fails the insert; the answer carries the drink's review count afterwards. */
    method AddReview(claims: Option<Claims>, drinkId: Id, bodyName: Option<string>, content: Val, rating: Val,
                     accounts: map<Id, Account>)
      returns (status: Status, review: Option<Review>, reviewsCount: nat)
      requires Valid()
      modifies this
      ensures Valid()
      ensures status == BadRequest <==> !Truthy(rating)
      ensures status == Unauthorized <==> Truthy(rating) && ClaimedUserId(claims).None?
      ensures status == ServerError <==>
                Truthy(rating) && ClaimedUserId(claims).Some? && (ParseInt(rating).None? || !Bindable(OrNull(content)))
      ensures status == Created <==>
                Truthy(rating) && ClaimedUserId(claims).Some? && ParseInt(rating).Some? && Bindable(OrNull(content))
      ensures status != Created ==>
                reviews == old(reviews) && nextReviewId == old(nextReviewId) && review.None? && reviewsCount == 0
      ensures status == Created ==>
                var userId := ClaimedUserId(claims).value;
                var row := Review(drinkId, Some(userId),
                                  Some(AuthorName(bodyName, TokenName(claims), StoredName(accounts, userId))),
                                  ParseInt(rating).value, Bound(OrNull(content)));
                reviews == old(reviews)[old(nextReviewId) := row] &&
                nextReviewId == old(nextReviewId) + 1 &&
                review == Some(row)
      ensures status == Created ==> reviewsCount == ReviewCount(old(reviews), drinkId) + 1
    {
      if !Truthy(rating) {
        return BadRequest, None, 0;
      }
      var userId, userName := ResolveAuthor(bodyName, claims, accounts);
      if userId.None? {
        return Unauthorized, None, 0;
      }
      var parsed := ParseInt(rating);
      if parsed.None? || !Bindable(OrNull(content)) {
        return ServerError, None, 0;
      }
      var row := Review(drinkId, userId, userName, parsed.value, Bound(OrNull(content)));
      CountAfterInsert(reviews, nextReviewId, row, drinkId);
      reviews := reviews[nextReviewId := row];
      nextReviewId := nextReviewId + 1;
      reviewsCount := ReviewCount(reviews, drinkId);
      status, review := Created, Some(row);
    }

    /** `deleteReview`: the review must exist under the given drink, and the
        caller must own it by id or by name or hold a privileged role; only
        that review is removed. */
    method DeleteReview(actor: Option<Actor>, drinkId: Id, reviewId: Id) returns (status: Status)
      requires Valid()
      modifies this
      ensures Valid() && nextReviewId == old(nextReviewId)
      ensures status == NotFound <==> reviewId !in old(reviews) || old(reviews)[reviewId].drinkId != drinkId
      ensures status == Ok <==>
                reviewId in old(reviews) && old(reviews)[reviewId].drinkId == drinkId &&
                CanModerate(actor, old(reviews)[reviewId].userId, old(reviews)[reviewId].userName)
      ensures status == Forbidden <==>
                reviewId in old(reviews) && old(reviews)[reviewId].drinkId == drinkId &&
                !CanModerate(actor, old(reviews)[reviewId].userId, old(reviews)[reviewId].userName)
      ensures status == Ok ==> reviews == old(reviews) - {reviewId}
      ensures status == Ok ==> ReviewCount(reviews, drinkId) == ReviewCount(old(reviews), drinkId) - 1
      ensures status != Ok ==> reviews == old(reviews)
    {
      if reviewId !in reviews || reviews[reviewId].drinkId != drinkId {
        return NotFound;
      }
      var r := reviews[reviewId];
      if !CanModerate(actor, r.userId, r.userName) {
        return Forbidden;
      }
      CountAfterRemove(reviews, reviewId);
      reviews := reviews - {reviewId};
      status := Ok;
    }
  }
}
