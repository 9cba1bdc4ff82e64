/** A like table (`news_likes`, `post_likes`) as a set of (item, user) pairs,
    and the toggle both like handlers perform on it: delete the pair when it
    is there, insert it otherwise, then count the item's likes. */
module LikeSets {
  import opened Common

  /** (item id, user id) pairs. */
  type Likes = set<(Id, Id)>

  /** The rows of one item. */
  function LikesOf(likes: Likes, item: Id): (r: Likes)
    ensures r <= likes
    ensures forall k :: k in r <==> k in likes && k.0 == item
  {
    set k | k in likes && k.0 == item
  }

  /** `SELECT COUNT(*) ... WHERE item = :item`. */
  function LikeCount(likes: Likes, item: Id): nat {
    |LikesOf(likes, item)|
  }

  /** Delete the pair if it is there, insert it otherwise. */
  function Toggle(likes: Likes, item: Id, user: Id): (r: Likes)
    ensures (item, user) in r <==> (item, user) !in likes
    ensures forall k :: k != (item, user) ==> (k in r <==> k in likes)
  {
    if (item, user) in likes then likes - {(item, user)} else likes + {(item, user)}
  }

  /** Toggling twice restores the table. */
  lemma ToggleTwice(likes: Likes, item: Id, user: Id)
    ensures Toggle(Toggle(likes, item, user), item, user) == likes
  {
    var once := Toggle(likes, item, user);
    var twice := Toggle(once, item, user);
    forall k
      ensures k in twice <==> k in likes
    {
      if k == (item, user) {
      } else {
        assert k in twice <==> k in once;
      }
    }
  }

  /** The item's count moves by exactly one, in the direction of the toggle,
      and no other item's count moves. */
  lemma ToggleCount(likes: Likes, item: Id, user: Id, other: Id)
    ensures LikeCount(Toggle(likes, item, user), item) ==
              if (item, user) in likes then LikeCount(likes, item) - 1 else LikeCount(likes, item) + 1
    ensures other != item ==> LikeCount(Toggle(likes, item, user), other) == LikeCount(likes, other)
  {
    var k := (item, user);
    var after := Toggle(likes, item, user);
    if k in likes {
      assert LikesOf(after, item) == LikesOf(likes, item) - {k};
    } else {
      assert LikesOf(after, item) == LikesOf(likes, item) + {k};
    }
    if other != item {
      assert LikesOf(after, other) == LikesOf(likes, other);
    }
  }
}
