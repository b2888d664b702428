/**
 * The post routes: creating a post behind the text validator, author-only
 * deletion, toggling a like, and adding or deleting a comment. The handlers
 * change a post's `likes` and `comments` arrays in place (splice, unshift)
 * and then save the whole document; here the document store is a map from
 * post id to post, held by a PostStore object, and the authenticated caller
 * is a plain user id.
 */
module Posts {
  import opened Js
  import PostValidation

  type UserId = string
  type PostId = string
  type CommentId = string

  /** An entry of a likes array: just the user who liked. */
  datatype Like = Like(user: UserId)

  /** An embedded comment; `id` is the identifier the store gives it on insertion. */
  datatype Comment = Comment(
    id: CommentId,
    user: UserId,
    text: string,
    name: Option<string>,
    avatar: Option<string>,
    likes: seq<Like>)

  /** A post; `name` and `avatar` are copies taken from the request when it is created. */
  datatype Post = Post(
    user: UserId,
    text: string,
    name: Option<string>,
    avatar: Option<string>,
    likes: seq<Like>,
    comments: seq<Comment>)

  /** The request body fields the post routes read. */
  datatype PostBody = PostBody(text: Option<string>, name: Option<string>, avatar: Option<string>)

  /** What a post route answers. */
  datatype Reply =
    | Json(post: Post)                      // 200 with the saved post
    | Success                               // 200 with {success: true}
    | Unauthorized                          // 401 "User not authorized"
    | Invalid(errors: map<string, string>)  // 422 with the validator's errors
    | ServerError                           // 500 from a handler's catch
    | NoReply                               // a rejection that no handler catches

  /** Some entry of `likes` belongs to `user`. */
  predicate Liked(likes: seq<Like>, user: UserId) {
    exists j :: 0 <= j < |likes| && likes[j].user == user
  }

  /** No user appears twice in `likes`. */
  predicate UniqueUsers(likes: seq<Like>) {
    forall i, j :: 0 <= i < j < |likes| ==> likes[i].user != likes[j].user
  }

  /**
   * likes.findIndex(element => element.user === user): the first index whose
   * like belongs to `user`, or -1.
   */
  function LikeIndex(likes: seq<Like>, user: UserId): (i: int)
    ensures -1 <= i < |likes|
    ensures i == -1 <==> !Liked(likes, user)
    ensures 0 <= i ==> likes[i].user == user && forall j :: 0 <= j < i ==> likes[j].user != user
  {
    if |likes| == 0 then -1
    else if likes[0].user == user then 0
    else
      var k := LikeIndex(likes[1..], user);
      if k == -1 then
        assert forall j :: 1 <= j < |likes| ==> likes[j].user == likes[1..][j - 1].user;
        -1
      else
        assert forall j :: 1 <= j <= k ==> likes[j] == likes[1..][j - 1];
        k + 1
  }

  /**
   * The like toggle: find the caller's like; when there is one, splice it out,
   * otherwise put a new like for the caller at the front.
   */
  function ToggledLikes(likes: seq<Like>, user: UserId): (r: seq<Like>)
    ensures !Liked(likes, user) ==> r == [Like(user)] + likes
    ensures Liked(likes, user) ==>
              var i := LikeIndex(likes, user);
              r == likes[..i] + likes[i + 1..]
  {
    var i := LikeIndex(likes, user);
    if i > -1 then Splice(likes, i, 1) else [Like(user)] + likes
  }

  /** Cutting one like out of an array with unique users leaves unique users. */
  lemma UniqueUsersWithout(likes: seq<Like>, k: nat)
    requires UniqueUsers(likes)
    requires k < |likes|
    ensures UniqueUsers(likes[..k] + likes[k + 1..])
  {
    var r := likes[..k] + likes[k + 1..];
    forall a, b | 0 <= a < b < |r| ensures r[a].user != r[b].user {
      assert r[a] == likes[if a < k then a else a + 1];
      assert r[b] == likes[if b < k then b else b + 1];
    }
  }

  /** Cutting out a like of some other user does not change whether `user` has a like. */
  lemma LikedWithout(likes: seq<Like>, k: nat, user: UserId)
    requires k < |likes| && likes[k].user != user
    ensures Liked(likes[..k] + likes[k + 1..], user) <==> Liked(likes, user)
  {
    var r := likes[..k] + likes[k + 1..];
    if Liked(likes, user) {
      var j :| 0 <= j < |likes| && likes[j].user == user;
      assert r[if j < k then j else j - 1] == likes[j];
    }
    if Liked(r, user) {
      var j :| 0 <= j < |r| && r[j].user == user;
      assert r[j] == likes[if j < k then j else j + 1];
    }
  }

  /** A like put in front is liked, and every like behind it keeps its standing. */
  lemma LikedInFront(likes: seq<Like>, first: UserId, user: UserId)
    ensures Liked([Like(first)] + likes, user) <==> first == user || Liked(likes, user)
  {
    var r := [Like(first)] + likes;
    assert r[0].user == first;
    if Liked(likes, user) {
      var j :| 0 <= j < |likes| && likes[j].user == user;
      assert r[j + 1] == likes[j];
    }
    if Liked(r, user) && first != user {
      var j :| 0 <= j < |r| && r[j].user == user;
      assert r[j] == likes[j - 1];
    }
  }

  /**
   * When the caller has a like, the toggle removes that one entry and nothing
   * else: the caller is gone, every other like stays, in the same order.
   */
  lemma {:induction false} ToggleRemovesOwnLike(likes: seq<Like>, user: UserId)
    requires UniqueUsers(likes)
    requires Liked(likes, user)
    ensures var r := ToggledLikes(likes, user);
            var i := LikeIndex(likes, user);
            |r| == |likes| - 1 && r == likes[..i] + likes[i + 1..] && !Liked(r, user)
  {
    NotLikedAfterCut(likes, LikeIndex(likes, user));
  }

  /** With unique users, cutting out some user's like leaves no like of that user. */
  lemma NotLikedAfterCut(likes: seq<Like>, i: nat)
    requires UniqueUsers(likes)
    requires i < |likes|
    ensures !Liked(likes[..i] + likes[i + 1..], likes[i].user)
  {
    var r := likes[..i] + likes[i + 1..];
    forall j | 0 <= j < |r| ensures r[j].user != likes[i].user {
      assert r[j] == likes[if j < i then j else j + 1];
    }
  }

  /** When the caller has no like, the toggle puts one at index 0 and shifts the others by one. */
  lemma ToggleAddsLikeAtFront(likes: seq<Like>, user: UserId)
    requires !Liked(likes, user)
    ensures var r := ToggledLikes(likes, user);
            |r| == |likes| + 1 && r[0] == Like(user)
            && forall k :: 0 <= k < |likes| ==> r[k + 1] == likes[k]
  {
    assert LikeIndex(likes, user) == -1;
  }

  /** Starting from a likes array without the caller, two toggles give the array back. */
  lemma ToggleTwiceRestores(likes: seq<Like>, user: UserId)
    requires !Liked(likes, user)
    ensures ToggledLikes(ToggledLikes(likes, user), user) == likes
  {
    var once := ToggledLikes(likes, user);
    assert once[0].user == user;
    assert LikeIndex(once, user) == 0;
    assert once[1..] == likes;
  }

  /**
   * Starting from a likes array that holds the caller, two toggles do not give
   * it back in general: the caller's like ends up at the front.
   */
  lemma ToggleTwiceMovesLikeToFront(likes: seq<Like>, user: UserId)
    requires UniqueUsers(likes)
    requires Liked(likes, user)
    ensures var i := LikeIndex(likes, user);
            ToggledLikes(ToggledLikes(likes, user), user) == [Like(user)] + likes[..i] + likes[i + 1..]
  {
    ToggleRemovesOwnLike(likes, user);
  }

  /**
   * With unique users, two toggles give the likes array back exactly when the
   * caller has no like or the caller's like is already the first entry.
   */
  lemma {:induction false} ToggleTwiceRestoresIff(likes: seq<Like>, user: UserId)
    requires UniqueUsers(likes)
    ensures ToggledLikes(ToggledLikes(likes, user), user) == likes
            <==> !Liked(likes, user) || (|likes| > 0 && likes[0].user == user)
  {
    if Liked(likes, user) {
      ToggleTwiceMovesLikeToFront(likes, user);
      var twice := ToggledLikes(ToggledLikes(likes, user), user);
      if likes[0].user == user {
        assert LikeIndex(likes, user) == 0;
        assert [Like(user)] + likes[1..] == likes;
      } else {
        assert twice[0] != likes[0];
      }
    } else {
      ToggleTwiceRestores(likes, user);
    }
  }

  /** The toggle keeps every user at most once in the likes array. */
  lemma {:induction false} TogglePreservesUniqueUsers(likes: seq<Like>, user: UserId)
    requires UniqueUsers(likes)
    ensures UniqueUsers(ToggledLikes(likes, user))
  {
    if Liked(likes, user) {
      UniqueUsersWithout(likes, LikeIndex(likes, user));
    } else {
      UniqueUsersInFront(likes, user);
    }
  }

  /** A like put in front of an array without that user keeps users unique. */
  lemma UniqueUsersInFront(likes: seq<Like>, user: UserId)
    requires UniqueUsers(likes)
    requires !Liked(likes, user)
    ensures UniqueUsers([Like(user)] + likes)
  {
    var r := [Like(user)] + likes;
    forall a, b | 0 <= a < b < |r| ensures r[a].user != r[b].user {
      assert r[b] == likes[b - 1];
      if a > 0 {
        assert r[a] == likes[a - 1];
      }
    }
  }

  /**
   * With users unique, the toggle flips whether the caller likes the post and
   * leaves every other user's like as it was.
   */
  lemma {:induction false} ToggleFlipsOnlyCaller(likes: seq<Like>, user: UserId, other: UserId)
    requires UniqueUsers(likes)
    requires other != user
    ensures Liked(ToggledLikes(likes, user), user) <==> !Liked(likes, user)
    ensures Liked(ToggledLikes(likes, user), other) <==> Liked(likes, other)
  {
    if Liked(likes, user) {
      ToggleRemovesOwnLike(likes, user);
      LikedWithout(likes, LikeIndex(likes, user), other);
    } else {
      LikedInFront(likes, user, user);
      LikedInFront(likes, user, other);
    }
  }

  /** comments.map(item => item.id) */
  function CommentIds(comments: seq<Comment>): (ids: seq<CommentId>)
    ensures |ids| == |comments|
    ensures forall i :: 0 <= i < |comments| ==> ids[i] == comments[i].id
  {
    seq(|comments|, i requires 0 <= i < |comments| => comments[i].id)
  }

  /** No two comments share an id. */
  predicate UniqueIds(comments: seq<Comment>) {
    forall i, j :: 0 <= i < j < |comments| ==> comments[i].id != comments[j].id
  }

  /**
   * The comment deletion: splice(indexOf(commentId), 1) over the comment ids.
   * A matching comment is removed; when no comment matches, indexOf gives -1
   * and splice(-1, 1) removes the LAST comment; an empty array stays empty.
   */
  function RemainingComments(comments: seq<Comment>, commentId: CommentId): (r: seq<Comment>)
    ensures |comments| == 0 ==> r == []
    ensures commentId !in CommentIds(comments) && |comments| > 0 ==> r == comments[..|comments| - 1]
    ensures commentId in CommentIds(comments) ==>
              var i := IndexOf(CommentIds(comments), commentId);
              r == comments[..i] + comments[i + 1..]
  {
    var removeIndex := IndexOf(CommentIds(comments), commentId);
    Splice(comments, removeIndex, 1)
  }

  /**
   * With ids unique, deleting a present id removes exactly that comment and
   * keeps the others in order; the id is gone afterwards.
   */
  lemma {:induction false} DeletePresentComment(comments: seq<Comment>, i: nat)
    requires UniqueIds(comments)
    requires i < |comments|
    ensures var r := RemainingComments(comments, comments[i].id);
            r == comments[..i] + comments[i + 1..] && comments[i].id !in CommentIds(r)
  {
    var id := comments[i].id;
    var ids := CommentIds(comments);
    assert id !in ids[..i] by {
      forall j | 0 <= j < i ensures ids[..i][j] != id {
        assert ids[..i][j] == comments[j].id;
      }
    }
    var k := IndexOf(ids, id);
    var r := RemainingComments(comments, id);
    assert r == comments[..i] + comments[i + 1..];
    forall j | 0 <= j < |r| ensures CommentIds(r)[j] != id {
      assert r[j] == comments[if j < i then j else j + 1];
    }
  }

  /** Deleting an id no comment has removes the last comment, not nothing. */
  lemma DeleteAbsentCommentDropsLast(comments: seq<Comment>, commentId: CommentId)
    requires commentId !in CommentIds(comments)
    requires |comments| > 0
    ensures RemainingComments(comments, commentId) == comments[..|comments| - 1]
    ensures |RemainingComments(comments, commentId)| == |comments| - 1
  {
  }

  /** Whatever is deleted, the remaining comments still have distinct ids. */
  lemma {:induction false} DeletePreservesUniqueIds(comments: seq<Comment>, commentId: CommentId)
    requires UniqueIds(comments)
    ensures UniqueIds(RemainingComments(comments, commentId))
  {
    if commentId in CommentIds(comments) {
      UniqueIdsWithout(comments, IndexOf(CommentIds(comments), commentId));
    } else if |comments| > 0 {
      var k := |comments| - 1;
      assert comments[..k] == comments[..k] + comments[k + 1..];
      UniqueIdsWithout(comments, k);
    }
  }

  /** Cutting one comment out of a list with distinct ids leaves distinct ids. */
  lemma UniqueIdsWithout(comments: seq<Comment>, k: nat)
    requires UniqueIds(comments)
    requires k < |comments|
    ensures UniqueIds(comments[..k] + comments[k + 1..])
  {
    var r := comments[..k] + comments[k + 1..];
    forall a, b | 0 <= a < b < |r| ensures r[a].id != r[b].id {
      assert r[a] == comments[if a < k then a else a + 1];
      assert r[b] == comments[if b < k then b else b + 1];
    }
  }

  /** The invariant every stored post keeps: likes and comment ids without duplicates. */
  predicate WellFormed(p: Post) {
    UniqueUsers(p.likes) && UniqueIds(p.comments)
  }

  /** Toggling a like keeps a well-formed post well-formed. */
  lemma ToggleKeepsWellFormed(p: Post, user: UserId)
    requires WellFormed(p)
    ensures WellFormed(p.(likes := ToggledLikes(p.likes, user)))
  {
    TogglePreservesUniqueUsers(p.likes, user);
  }

  /** The posts collection. */
  class PostStore {
    var posts: map<PostId, Post>

    ghost predicate Valid()
      reads this
    {
      forall id :: id in posts ==> WellFormed(posts[id])
    }

    constructor ()
      ensures Valid() && posts == map[]
    {
      posts := map[];
    }

    /**
     * POST api/posts. Invalid text answers 422 with the validator's errors and
     * stores nothing; otherwise the new post, written by the caller and with
     * text, name and avatar from the request, is stored under a fresh id.
     */
    method Create(caller: UserId, body: PostBody, newId: PostId) returns (reply: Reply)
      requires Valid()
      requires newId !in posts
      modifies this
      ensures Valid()
      ensures var v := PostValidation.ValidatePostInput(body.text);
              !v.isValid ==> reply == Invalid(v.errors) && posts == old(posts)
      ensures PostValidation.ValidatePostInput(body.text).isValid ==>
                body.text.Some? &&
                var p := Post(caller, body.text.value, body.name, body.avatar, [], []);
                reply == Json(p) && posts == old(posts)[newId := p]
    {
      var v := PostValidation.ValidatePostInput(body.text);
      if !v.isValid {
        return Invalid(v.errors);
      }
      var newPost := Post(caller, v.text, body.name, body.avatar, [], []);
      posts := posts[newId := newPost];
      reply := Json(newPost);
    }

    /**
     * DELETE api/posts/:id. A caller other than the stored author gets 401 and
     * the store is untouched; the author removes the post and gets
     * {success: true}. A missing post makes the handler throw where nothing
     * catches it.
     */
    method Delete(postId: PostId, caller: UserId) returns (reply: Reply)
      requires Valid()
      modifies this
      ensures Valid()
      ensures postId !in old(posts) ==> reply == NoReply && posts == old(posts)
      ensures postId in old(posts) && old(posts)[postId].user != caller ==>
                reply == Unauthorized && posts == old(posts)
      ensures postId in old(posts) && old(posts)[postId].user == caller ==>
                reply == Success && posts == old(posts) - {postId}
    {
      if postId !in posts {
        return NoReply;
      }
      var post := posts[postId];
      if post.user != caller {
        return Unauthorized;
      }
      posts := posts - {postId};
      reply := Success;
    }

    /**
     * POST api/posts/like/:id. The caller's like is spliced out when present and
     * put at the front otherwise; the post is saved and sent back. A missing
     * post reaches the handler's catch (500).
     */
    method ToggleLike(postId: PostId, caller: UserId) returns (reply: Reply)
      requires Valid()
      modifies this
      ensures Valid()
      ensures postId !in old(posts) ==> reply == ServerError && posts == old(posts)
      ensures postId in old(posts) ==>
                var p := old(posts)[postId].(likes := ToggledLikes(old(posts)[postId].likes, caller));
                posts == old(posts)[postId := p] && reply == Json(p)
    {
      if postId !in posts {
        return ServerError;
      }
      var post := posts[postId];
      var likes := post.likes;
      var likeIndex := LikeIndex(likes, caller);
      if likeIndex > -1 {
        likes := Splice(likes, likeIndex, 1);
      } else {
        likes := [Like(caller)] + likes;
      }
      assert likes == ToggledLikes(post.likes, caller);
      ToggleKeepsWellFormed(post, caller);
      post := post.(likes := likes);
      posts := posts[postId := post];
      reply := Json(post);
    }

    /**
     * POST api/posts/comment/:id. Invalid text answers 422 and changes nothing;
     * otherwise a comment by the caller, with the request's text and avatar,
     * is put at the front of the post's comments, the earlier comments
     * following unchanged.
     */
    method AddComment(postId: PostId, caller: UserId, body: PostBody, newCommentId: CommentId)
      returns (reply: Reply)
      requires Valid()
      requires postId in posts ==> newCommentId !in CommentIds(posts[postId].comments)
      modifies this
      ensures Valid()
      ensures var v := PostValidation.ValidatePostInput(body.text);
              !v.isValid ==> reply == Invalid(v.errors) && posts == old(posts)
      ensures PostValidation.ValidatePostInput(body.text).isValid && postId !in old(posts) ==>
                reply == NoReply && posts == old(posts)
      ensures PostValidation.ValidatePostInput(body.text).isValid && postId in old(posts) ==>
                body.text.Some? &&
                var c := Comment(newCommentId, caller, body.text.value, None, body.avatar, []);
                var p := old(posts)[postId].(comments := [c] + old(posts)[postId].comments);
                posts == old(posts)[postId := p] && reply == Json(p)
    {
      var v := PostValidation.ValidatePostInput(body.text);
      if !v.isValid {
        return Invalid(v.errors);
      }
      if postId !in posts {
        return NoReply;
      }
      var post := posts[postId];
      var newComment := Comment(newCommentId, caller, v.text, None, body.avatar, []);
      post := post.(comments := [newComment] + post.comments);
      assert UniqueIds(post.comments) by {
        forall a, b | 0 <= a < b < |post.comments|
          ensures post.comments[a].id != post.comments[b].id
        {
          assert post.comments[b] == posts[postId].comments[b - 1];
          if a == 0 {
            assert CommentIds(posts[postId].comments)[b - 1] == post.comments[b].id;
          } else {
            assert post.comments[a] == posts[postId].comments[a - 1];
          }
        }
      }
      posts := posts[postId := post];
      reply := Json(post);
    }

    /**
     * DELETE api/posts/comment/:id/:comment_id. The comment ids are searched
     * with indexOf and splice(removeIndex, 1) is applied whatever it found, so
     * an unknown id removes the last comment. There is no ownership check.
     */
    method DeleteComment(postId: PostId, commentId: CommentId) returns (reply: Reply)
      requires Valid()
      modifies this
      ensures Valid()
      ensures postId !in old(posts) ==> reply == NoReply && posts == old(posts)
      ensures postId in old(posts) ==>
                var p := old(posts)[postId].(comments := RemainingComments(old(posts)[postId].comments, commentId));
                posts == old(posts)[postId := p] && reply == Json(p)
    {
      if postId !in posts {
        return NoReply;
      }
      var post := posts[postId];
      var removeIndex := IndexOf(CommentIds(post.comments), commentId);
      post := post.(comments := Splice(post.comments, removeIndex, 1));
      DeletePreservesUniqueIds(posts[postId].comments, commentId);
      posts := posts[postId := post];
      reply := Json(post);
    }
  }
}
