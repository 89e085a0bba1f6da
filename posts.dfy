/** The post routes: creating, reading and deleting a post, liking and
    unliking it, and adding and deleting comments. Each handler is a method of
    a store holding the post documents (keyed by post id) and the user records
    the handlers read (keyed by user id). The requester's id is an input: it is
    what the token middleware attaches to the request.

    A handler reads a copy of the post document, edits its `likes` or
    `comments` array (`unshift` puts the new element in front, `splice`
    removes one) and saves the whole document back, which is what the
    assignment to `posts[postId]` stands for. */
module Posts {
  import opened Seqs

  type UserId = string
  type PostId = string
  type CommentId = string

  datatype Like = Like(user: UserId)

  datatype Comment = Comment(id: CommentId, user: UserId, text: string, name: string, avatar: string)

  /** `name` and `avatar` are copies of the author's record taken when the
      post is created; they are not kept in step with later changes. */
  datatype Post = Post(
    user: UserId,
    text: string,
    name: string,
    avatar: string,
    likes: seq<Like>,
    comments: seq<Comment>)

  /** The fields of a user record the post handlers read. */
  datatype Account = Account(name: string, avatar: string)

  datatype Error =
    | ValidationFailed   // 400, text is empty
    | UserNotFound       // 401, 'User not found'
    | NotFound           // 404, 'Post not found'
    | Unauthorized       // 401, 'Unauthorized action.' (post) or 'Unauthorized action' (comment)
    | AlreadyLiked       // 400, 'Post already liked'
    | NotLiked           // 400, 'Post has not yet been liked'
    | CommentNotFound    // 404, 'Comment not found'

  datatype Result<T> = Ok(value: T) | Err(error: Error)

  function LikeUser(l: Like): UserId { l.user }
  function CommentAuthor(c: Comment): UserId { c.user }
  function CommentKey(c: Comment): CommentId { c.id }

  /** A user likes a post at most once, and comment ids are unique in a post. */
  ghost predicate WellFormed(p: Post)
  {
    KeysDistinct(p.likes, LikeUser) && KeysDistinct(p.comments, CommentKey)
  }

  class PostStore {
    var posts: map<PostId, Post>
    var users: map<UserId, Account>

    ghost predicate Valid()
      reads this
    {
      forall id :: id in posts ==> WellFormed(posts[id])
    }

    constructor (users: map<UserId, Account>)
      ensures Valid()
      ensures posts == map[] && this.users == users
    {
      posts := map[];
      this.users := users;
    }

    /** POST /api/posts. `newId` is the id the database gives the new document. */
    method CreatePost(requester: UserId, text: string, newId: PostId) returns (r: Result<Post>)
      requires Valid()
      requires newId !in posts
      modifies this`posts
      ensures Valid()
      ensures text == "" ==> r == Err(ValidationFailed) && posts == old(posts)
      ensures text != "" && requester !in users ==> r == Err(UserNotFound) && posts == old(posts)
      ensures text != "" && requester in users ==>
        r.Ok? && r.value == Post(requester, text, users[requester].name, users[requester].avatar, [], []) &&
        posts == old(posts)[newId := r.value]
    {
      if text == "" {
        return Err(ValidationFailed);
      }
      if requester !in users {
        return Err(UserNotFound);
      }
      var user := users[requester];
      var post := Post(requester, text, user.name, user.avatar, [], []);
      posts := posts[newId := post];
      r := Ok(post);
    }

    /** GET /api/posts/:post_id */
    method GetPost(postId: PostId) returns (r: Result<Post>)
      ensures postId in posts ==> r == Ok(posts[postId])
      ensures postId !in posts ==> r == Err(NotFound)
    {
      if postId !in posts {
        return Err(NotFound);
      }
      r := Ok(posts[postId]);
    }

    /** DELETE /api/posts/:post_id: only the post's author may remove it. */
    method DeletePost(requester: UserId, postId: PostId) returns (r: Result<PostId>)
      requires Valid()
      modifies this`posts
      ensures Valid()
      ensures postId !in old(posts) ==> r == Err(NotFound) && posts == old(posts)
      ensures postId in old(posts) && old(posts)[postId].user != requester ==>
        r == Err(Unauthorized) && posts == old(posts)
      ensures postId in old(posts) && old(posts)[postId].user == requester ==>
        r == Ok(postId) && posts == old(posts) - {postId}
    {
      if postId !in posts {
        return Err(NotFound);
      }
      var post := posts[postId];
      if post.user != requester {
        return Err(Unauthorized);
      }
      posts := posts - {postId};
      r := Ok(postId);
    }

    /** PUT /api/posts/like/:post_id: the new like goes in front. */
    method LikePost(requester: UserId, postId: PostId) returns (r: Result<seq<Like>>)
      requires Valid()
      modifies this`posts
      ensures Valid()
      ensures postId !in old(posts) ==> r == Err(NotFound) && posts == old(posts)
      ensures postId in old(posts) && Occurs(old(posts)[postId].likes, LikeUser, requester) ==>
        r == Err(AlreadyLiked) && posts == old(posts)
      ensures postId in old(posts) && !Occurs(old(posts)[postId].likes, LikeUser, requester) ==>
        r == Ok([Like(requester)] + old(posts)[postId].likes) &&
        posts == old(posts)[postId := old(posts)[postId].(likes := r.value)]
    {
      if postId !in posts {
        return Err(NotFound);
      }
      var post := posts[postId];
      if |Filter(post.likes, LikeUser, requester)| > 0 {
        return Err(AlreadyLiked);
      }
      PrependFreshKeepsDistinct(Like(requester), post.likes, LikeUser);
      post := post.(likes := [Like(requester)] + post.likes);
      posts := posts[postId := post];
      r := Ok(post.likes);
    }

    /** PUT /api/posts/unlike/:post_id: removes the requester's like, which is
        then no longer among the post's likes. */
    method UnlikePost(requester: UserId, postId: PostId) returns (r: Result<seq<Like>>)
      requires Valid()
      modifies this`posts
      ensures Valid()
      ensures postId !in old(posts) ==> r == Err(NotFound) && posts == old(posts)
      ensures postId in old(posts) && !Occurs(old(posts)[postId].likes, LikeUser, requester) ==>
        r == Err(NotLiked) && posts == old(posts)
      ensures postId in old(posts) && Occurs(old(posts)[postId].likes, LikeUser, requester) ==>
        r == Ok(RemoveFirst(old(posts)[postId].likes, LikeUser, requester)) &&
        |r.value| == |old(posts)[postId].likes| - 1 &&
        !Occurs(r.value, LikeUser, requester) &&
        posts == old(posts)[postId := old(posts)[postId].(likes := r.value)]
    {
      if postId !in posts {
        return Err(NotFound);
      }
      var post := posts[postId];
      if |Filter(post.likes, LikeUser, requester)| == 0 {
        return Err(NotLiked);
      }
      var removedIndex := IndexOf(Map(post.likes, LikeUser), requester);
      SpliceAtIndexOf(post.likes, LikeUser, requester);
      RemoveFirstAt(post.likes, LikeUser, requester, removedIndex);
      RemoveFirstKeepsDistinct(post.likes, LikeUser, requester);
      post := post.(likes := Splice(post.likes, removedIndex));
      posts := posts[postId := post];
      r := Ok(post.likes);
    }

    /** POST /api/posts/comments/:post_id. The comment's name and avatar are
        copied from the requester's record; `commentId` is the id the database
        gives the new comment. */
    method AddComment(requester: UserId, postId: PostId, text: string, commentId: CommentId)
      returns (r: Result<seq<Comment>>)
      requires Valid()
      requires postId in posts ==> !Occurs(posts[postId].comments, CommentKey, commentId)
      modifies this`posts
      ensures Valid()
      ensures text == "" ==> r == Err(ValidationFailed) && posts == old(posts)
      ensures text != "" && requester !in users ==> r == Err(UserNotFound) && posts == old(posts)
      ensures text != "" && requester in users && postId !in old(posts) ==>
        r == Err(NotFound) && posts == old(posts)
      ensures text != "" && requester in users && postId in old(posts) ==>
        var comment := Comment(commentId, requester, text, users[requester].name, users[requester].avatar);
        r == Ok([comment] + old(posts)[postId].comments) &&
        posts == old(posts)[postId := old(posts)[postId].(comments := r.value)]
    {
      if text == "" {
        return Err(ValidationFailed);
      }
      if requester !in users {
        return Err(UserNotFound);
      }
      var user := users[requester];
      if postId !in posts {
        return Err(NotFound);
      }
      var post := posts[postId];
      var comment := Comment(commentId, requester, text, user.name, user.avatar);
      PrependFreshKeepsDistinct(comment, post.comments, CommentKey);
      post := post.(comments := [comment] + post.comments);
      posts := posts[postId := post];
      r := Ok(post.comments);
    }

    /** DELETE /api/posts/comments/:post_id/:comment_id. The comment is looked
        up by id and its author checked, but the element removed is the
        requester's first comment in the array, which need not be the one
        with the requested id (see `DeleteCommentMayRemoveAnother`). */
    method DeleteComment(requester: UserId, postId: PostId, commentId: CommentId)
      returns (r: Result<seq<Comment>>)
      requires Valid()
      modifies this`posts
      ensures Valid()
      ensures postId !in old(posts) ==> r == Err(NotFound) && posts == old(posts)
      ensures postId in old(posts) && !Occurs(old(posts)[postId].comments, CommentKey, commentId) ==>
        r == Err(CommentNotFound) && posts == old(posts)
      ensures postId in old(posts) && Occurs(old(posts)[postId].comments, CommentKey, commentId) ==>
        var requested := Find(old(posts)[postId].comments, CommentKey, commentId).value;
        (requested.user != requester ==> r == Err(Unauthorized) && posts == old(posts)) &&
        (requested.user == requester ==>
          r == Ok(RemoveFirst(old(posts)[postId].comments, CommentAuthor, requester)) &&
          |r.value| == |old(posts)[postId].comments| - 1 &&
          posts == old(posts)[postId := old(posts)[postId].(comments := r.value)])
    {
      if postId !in posts {
        return Err(NotFound);
      }
      var post := posts[postId];
      var comment := Find(post.comments, CommentKey, commentId);
      if comment.None? {
        return Err(CommentNotFound);
      }
      if comment.value.user != requester {
        return Err(Unauthorized);
      }
      var removedIndex := IndexOf(Map(post.comments, CommentAuthor), requester);
      CommentRemoval(post.comments, requester, commentId);
      var remaining := Splice(post.comments, removedIndex);
      post := post.(comments := remaining);
      assert WellFormed(post);
      posts := posts[postId := post];
      r := Ok(remaining);
    }
  }

  /** Once the requested comment is found and its author is the requester,
      the handler's splice index is valid and the splice removes the
      requester's first comment, keeping comment ids distinct. */
  lemma CommentRemoval(cs: seq<Comment>, u: UserId, id: CommentId)
    requires KeysDistinct(cs, CommentKey)
    requires Find(cs, CommentKey, id).Some? && Find(cs, CommentKey, id).value.user == u
    ensures var i := IndexOf(Map(cs, CommentAuthor), u);
      0 <= i < |cs| &&
      Splice(cs, i) == RemoveFirst(cs, CommentAuthor, u) &&
      |Splice(cs, i)| == |cs| - 1 &&
      KeysDistinct(Splice(cs, i), CommentKey)
  {
    var c := Find(cs, CommentKey, id).value;
    var k :| IsFirst(cs, CommentKey, id, k) && cs[k] == c;
    assert CommentAuthor(cs[k]) == u;
    SpliceAtIndexOf(cs, CommentAuthor, u);
    RemoveAtKeepsDistinct(cs, CommentKey, IndexOf(Map(cs, CommentAuthor), u));
  }

  /** Liking and then unliking gives back the likes the post had. */
  lemma LikeThenUnlike(likes: seq<Like>, u: UserId)
    requires !Occurs(likes, LikeUser, u)
    ensures var liked := [Like(u)] + likes;
      Splice(liked, IndexOf(Map(liked, LikeUser), u)) == likes
  {
    var liked := [Like(u)] + likes;
    assert Map(liked, LikeUser)[0] == u;
  }

  /** The comment-deletion handler, run on a post whose comments are
      [c1, c2], both written by "alice", with the request naming c2: the
      lookup finds c2 and its author check passes, but the splice index is
      that of alice's first comment, so c1 is removed and c2 stays. */
  lemma DeleteCommentMayRemoveAnother()
    ensures
      var c1 := Comment("c1", "alice", "first", "Alice", "a.png");
      var c2 := Comment("c2", "alice", "second", "Alice", "a.png");
      var cs := [c1, c2];
      Find(cs, CommentKey, "c2") == Some(c2) &&
      Splice(cs, IndexOf(Map(cs, CommentAuthor), "alice")) == [c2]
  {
    var c1 := Comment("c1", "alice", "first", "Alice", "a.png");
    var c2 := Comment("c2", "alice", "second", "Alice", "a.png");
    var cs := [c1, c2];
    assert Map(cs, CommentAuthor)[0] == "alice";
    assert CommentKey(cs[0]) != "c2";
    assert IsFirst(cs, CommentKey, "c2", 1);
  }

  /** In general, with comment ids distinct: when the requester wrote the
      comment at position `i`, deleting it by the handler's rule removes that
      comment exactly when it is the requester's first comment; otherwise the
      requested comment stays and an earlier one of theirs is removed. */
  lemma DeleteCommentRemovesRequestedIff(cs: seq<Comment>, u: UserId, i: int)
    requires KeysDistinct(cs, CommentKey)
    requires 0 <= i < |cs| && cs[i].user == u
    ensures Occurs(RemoveFirst(cs, CommentAuthor, u), CommentKey, cs[i].id) <==>
      exists j :: 0 <= j < i && cs[j].user == u
  {
    var r := RemoveFirst(cs, CommentAuthor, u);
    assert CommentAuthor(cs[i]) == u;
    var f := FirstExists(cs, CommentAuthor, u);
    RemoveFirstAt(cs, CommentAuthor, u, f);
    assert f <= i;
    if f == i {
      forall a | 0 <= a < |r| ensures CommentKey(r[a]) != cs[i].id {
        assert r[a] == cs[if a < i then a else a + 1];
      }
      assert !exists j :: 0 <= j < i && cs[j].user == u by {
        forall j | 0 <= j < i ensures cs[j].user != u {
          assert CommentAuthor(cs[j]) != u;
        }
      }
    } else {
      assert r[i - 1] == cs[i];
      assert cs[f].user == u;
    }
  }
}
