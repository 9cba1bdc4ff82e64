/** Likes and comments on news items: the `news_likes` and `news_comments`
    tables and the three handlers that change them. */
module NewsInteractions {
  import opened Common
  import opened Policy
  import opened Accounts
  import opened LikeSets
  import opened Authorship

  /** A `news_comments` row. Rows written by `addComment` always carry a
      user id and a name; the deletion gate also copes with rows that do not. */
  datatype Comment = Comment(newsId: Id, userId: Option<Id>, userName: Option<string>, content: Val, imageUrl: Val)

  class NewsSocial {
    var likes: Likes
    var comments: map<Id, Comment>
    var nextCommentId: Id

    /** The serial counter is ahead of every stored comment id. */
    ghost predicate Valid()
      reads this
    {
      forall id :: id in comments ==> id < nextCommentId
    }

    constructor ()
      ensures Valid() && likes == {} && comments == map[] && nextCommentId == 1
    {
      likes := {};
      comments := map[];
      nextCommentId := 1;
    }

    /** `toggleLike`: 401 without a user id in the token; otherwise the
        (news, user) pair is removed when present and added when absent, and
        the answer carries the item's like count and whether the caller now
        likes it. */
    method ToggleLike(claims: Option<Claims>, newsId: Id) returns (status: Status, likesCount: nat, userHasLiked: bool)
      modifies this
      ensures comments == old(comments) && nextCommentId == old(nextCommentId)
      ensures status == Unauthorized <==> ClaimedUserId(claims).None?
      ensures status != Unauthorized ==> status == Ok
      ensures status == Unauthorized ==> likes == old(likes) && likesCount == 0 && !userHasLiked
      ensures status == Ok ==>
                var key := (newsId, ClaimedUserId(claims).value);
                likes == Toggle(old(likes), newsId, key.1) &&
                (userHasLiked <==> key !in old(likes)) &&
                (userHasLiked <==> key in likes) &&
                likesCount == LikeCount(likes, newsId)
    {
      var userId := ClaimedUserId(claims);
      if userId.None? {
        return Unauthorized, 0, false;
      }
      var key := (newsId, userId.value);
      var existingLike := key in likes;
      if existingLike {
        likes := likes - {key};
      } else {
        likes := likes + {key};
      }
      likesCount := LikeCount(likes, newsId);
      userHasLiked := !existingLike;
      status := Ok;
    }

    /** `addComment`: 401 without a user id in the token; the author name
        follows the fallback chain; an absent `content`, or a content or image
        URL Sequelize cannot bind, fails the insert. */
    method AddComment(claims: Option<Claims>, newsId: Id, bodyName: Option<string>, content: Val, imageUrl: Val,
                      accounts: map<Id, Account>)
      returns (status: Status, comment: Option<Comment>)
      requires Valid()
      modifies this
      ensures Valid() && likes == old(likes)
      ensures status == Unauthorized <==> ClaimedUserId(claims).None?
      ensures status == ServerError <==>
                ClaimedUserId(claims).Some? && !(Bindable(content) && Bindable(OrNull(imageUrl)))
      ensures status == Ok <==> ClaimedUserId(claims).Some? && Bindable(content) && Bindable(OrNull(imageUrl))
      ensures status != Ok ==> comments == old(comments) && nextCommentId == old(nextCommentId) && comment.None?
      ensures status == Ok ==>
                var userId := ClaimedUserId(claims).value;
                var row := Comment(newsId, Some(userId),
                                   Some(AuthorName(bodyName, TokenName(claims), StoredName(accounts, userId))),
                                   Bound(content), Bound(OrNull(imageUrl)));
                old(nextCommentId) !in old(comments) &&
                comments == old(comments)[old(nextCommentId) := row] &&
                nextCommentId == old(nextCommentId) + 1 &&
                comment == Some(row)
    {
      var userId, userName := ResolveAuthor(bodyName, claims, accounts);
      if userId.None? {
        return Unauthorized, None;
      }
      if !Bindable(content) || !Bindable(OrNull(imageUrl)) {
        return ServerError, None;
      }
      var row := Comment(newsId, userId, userName, Bound(content), Bound(OrNull(imageUrl)));
      comments := comments[nextCommentId := row];
      nextCommentId := nextCommentId + 1;
      status, comment := Ok, Some(row);
    }

    /** `deleteComment`: the comment must exist under the given news item,
        and the caller must own it by id or by name or hold a privileged
        role; only that comment is removed. */
    method DeleteComment(actor: Option<Actor>, newsId: Id, commentId: Id) returns (status: Status)
      requires Valid()
      modifies this
      ensures Valid() && likes == old(likes) && nextCommentId == old(nextCommentId)
      ensures status == NotFound <==> commentId !in old(comments) || old(comments)[commentId].newsId != newsId
      ensures status == Ok <==>
                commentId in old(comments) && old(comments)[commentId].newsId == newsId &&
                CanModerate(actor, old(comments)[commentId].userId, old(comments)[commentId].userName)
      ensures status == Forbidden <==>
                commentId in old(comments) && old(comments)[commentId].newsId == newsId &&
                !CanModerate(actor, old(comments)[commentId].userId, old(comments)[commentId].userName)
      ensures status == Ok ==> comments == old(comments) - {commentId}
      ensures status != Ok ==> comments == old(comments)
    {
      if commentId !in comments || comments[commentId].newsId != newsId {
        return NotFound;
      }
      var c := comments[commentId];
      if !CanModerate(actor, c.userId, c.userName) {
        return Forbidden;
      }
      comments := comments - {commentId};
      status := Ok;
    }
  }

  /** Two likes by the same caller on the same item leave the table as it
      was and report the count it had. */
  method LikeTwiceRestores(social: NewsSocial, claims: Option<Claims>, newsId: Id)
    returns (firstCount: nat, secondCount: nat)
    requires ClaimedUserId(claims).Some?
    modifies social
    ensures social.likes == old(social.likes)
    ensures secondCount == LikeCount(old(social.likes), newsId)
    ensures firstCount == (if (newsId, ClaimedUserId(claims).value) in old(social.likes)
                           then secondCount - 1 else secondCount + 1)
  {
    var s1, liked1;
    s1, firstCount, liked1 := social.ToggleLike(claims, newsId);
    var s2, liked2;
    s2, secondCount, liked2 := social.ToggleLike(claims, newsId);
    ToggleTwice(old(social.likes), newsId, ClaimedUserId(claims).value);
    ToggleCount(old(social.likes), newsId, ClaimedUserId(claims).value, newsId);
  }
}
