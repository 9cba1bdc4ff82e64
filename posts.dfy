/** Likes and comments on posts: the `post_likes` and `post_comments`
    tables. These routes have no authentication; every like is made by user
    1 and every comment is signed "Аноним". */
module Posts {
  import opened Common
  import opened LikeSets

  /** The user every post like is recorded for. */
  const LIKING_USER: Id := 1

  /** A `post_comments` row. */
  datatype PostComment = PostComment(postId: Id, userName: string, content: Val)

  class PostBoard {
    var likes: Likes
    var comments: map<Id, PostComment>
    var nextCommentId: Id

    /** The serial counter is ahead of every stored comment id. */
    ghost predicate Valid()
      reads this
    {
      forall id :: id in comments ==> id < nextCommentId
    }

    constructor ()
      ensures Valid() && likes == {} && comments == map[] && nextCommentId == 1
    {
      likes := {};
      comments := map[];
      nextCommentId := 1;
    }

    /** `POST /:id/like`: the (post, 1) pair is removed when present and
        added when absent; the answer carries the post's like count and
        whether user 1 now likes it. */
    method ToggleLike(postId: Id) returns (status: Status, likesCount: nat, userHasLiked: bool)
      modifies this
      ensures comments == old(comments) && nextCommentId == old(nextCommentId)
      ensures status == Ok
      ensures likes == Toggle(old(likes), postId, LIKING_USER)
      ensures userHasLiked <==> (postId, LIKING_USER) !in old(likes)
      ensures userHasLiked <==> (postId, LIKING_USER) in likes
      ensures likesCount == LikeCount(likes, postId)
      ensures forall k: (Id, Id) :: k.1 != LIKING_USER ==> (k in likes <==> k in old(likes))
    {
      var userId := LIKING_USER;
      var key := (postId, userId);
      var existingLike := key in likes;
      if existingLike {
        likes := likes - {key};
      } else {
        likes := likes + {key};
      }
      likesCount := LikeCount(likes, postId);
      userHasLiked := !existingLike;
      status := Ok;
    }

    /** `POST /:id/comments`: inserts the content under the anonymous name;
        an absent `content`, or one Sequelize cannot bind, fails the insert. */
    method AddComment(postId: Id, content: Val) returns (status: Status, comment: Option<PostComment>)
      requires Valid()
      modifies this
      ensures Valid() && likes == old(likes)
      ensures status == ServerError <==> !Bindable(content)
      ensures status == Ok <==> Bindable(content)
      ensures status != Ok ==> comments == old(comments) && nextCommentId == old(nextCommentId) && comment.None?
      ensures status == Ok ==>
                comments == old(comments)[old(nextCommentId) := PostComment(postId, ANONYMOUS, Bound(content))] &&
                nextCommentId == old(nextCommentId) + 1 &&
                comment == Some(PostComment(postId, ANONYMOUS, Bound(content)))
      ensures forall id :: id in comments ==> id in old(comments) || comments[id].userName == ANONYMOUS
    {
      if !Bindable(content) {
        return ServerError, None;
      }
      var row := PostComment(postId, ANONYMOUS, Bound(content));
      comments := comments[nextCommentId := row];
      nextCommentId := nextCommentId + 1;
      status, comment := Ok, Some(row);
    }
  }
}
