/** ForumService.java: the forum post life cycle and the comments over the forum_posts and
    forum_comments tables. Each table is a sequence in insertion order; IDENTITY ids come from
    counters that start at 1; the creation time is a parameter. Each public method is one
    transaction: when it fails, nothing it did is kept. */
module ForumBoard {
  import opened Wrappers
  import opened Text
  import opened Ordering
  import opened Tables
  import opened Entities
  import opened ForumQueries

  /** The exceptions the service throws. */
  datatype ForumError = PostNotFound(id: int) | NoPostPermission(action: string)

  function ForumErrorMessage(e: ForumError): (m: string)
    ensures e.PostNotFound? ==> m == "Forum post not found with id: " + IntToString(e.id)
    ensures e.NoPostPermission? ==> m == "You don't have permission to " + e.action + " this post"
  {
    match e
    case PostNotFound(id) => "Forum post not found with id: " + IntToString(id)
    case NoPostPermission(action) => "You don't have permission to " + action + " this post"
  }

  /** Selects the posts with the given id. */
  function SamePostId(id: int): ForumPost -> bool
  {
    (p: ForumPost) => p.id == id
  }

  /** The position of the post with that id: findById. */
  function FindPostIndex(posts: seq<ForumPost>, id: int): (r: Option<nat>)
    ensures r.Some? ==> r.value < |posts| && posts[r.value].id == id
    ensures r.None? <==> forall i :: 0 <= i < |posts| ==> posts[i].id != id
  {
    FirstIndex(posts, SamePostId(id))
  }

  /** The post createPost saves: the given fields, active, no likes and no replies. */
  function NewPost(title: string, content: string, category: PostCategory, owner: int, id: int, now: int)
    : (p: ForumPost)
    ensures p.active && p.likes == 0 && p.replies == 0
    ensures p.title == title && p.content == content && p.category == category
    ensures p.owner == owner && p.id == id && p.createdAt == now
  {
    ForumPost(id, title, content, category, owner, true, 0, 0, now)
  }

  /** The three setters of updatePost. */
  function EditPost(p: ForumPost, title: string, content: string, category: PostCategory): ForumPost
  {
    p.(title := title, content := content, category := category)
  }

  /** updatePost overwrites title, content and category and nothing else; editing twice with the
      same values is editing once. */
  lemma EditPostMeaning(p: ForumPost, title: string, content: string, category: PostCategory)
    ensures var e := EditPost(p, title, content, category);
            && e.title == title && e.content == content && e.category == category
            && e.id == p.id && e.owner == p.owner && e.active == p.active
            && e.likes == p.likes && e.replies == p.replies && e.createdAt == p.createdAt
            && EditPost(e, title, content, category) == e
  {
  }

  /** The outcome updatePost reaches for the stored posts: the checks in the source's order,
      then the edited post. */
  function UpdatePostDecision(posts: seq<ForumPost>, id: int, title: string, content: string,
                              category: PostCategory, caller: User): Result<ForumPost, ForumError>
  {
    match FindPostIndex(posts, id)
    case None => Err(PostNotFound(id))
    case Some(k) =>
      if !MayModify(posts[k].owner, caller) then Err(NoPostPermission("update"))
      else Ok(EditPost(posts[k], title, content, category))
  }

  /** The outcome deletePost reaches. */
  function DeletePostDecision(posts: seq<ForumPost>, id: int, caller: User): Result<ForumPost, ForumError>
  {
    match FindPostIndex(posts, id)
    case None => Err(PostNotFound(id))
    case Some(k) =>
      if !MayModify(posts[k].owner, caller) then Err(NoPostPermission("delete"))
      else Ok(posts[k].(active := false))
  }

  /** The outcome likePost reaches: any stored post, active or not, by anyone. */
  function LikeDecision(posts: seq<ForumPost>, id: int): Result<ForumPost, ForumError>
  {
    match FindPostIndex(posts, id)
    case None => Err(PostNotFound(id))
    case Some(k) => Ok(posts[k].(likes := posts[k].likes + 1))
  }

  /** Update and delete fail with "not found" exactly when no stored post has the id, and
      otherwise succeed exactly when the caller owns the post or moderates; like fails only for
      an unknown id. On success each returns the stored post with only its own fields changed:
      an edit, active = false, or one more like. */
  lemma PostDecisionsMeaning(posts: seq<ForumPost>, id: int, title: string, content: string,
                             category: PostCategory, caller: User)
    ensures var u := UpdatePostDecision(posts, id, title, content, category, caller);
            var d := DeletePostDecision(posts, id, caller);
            var l := LikeDecision(posts, id);
            var absent := forall i :: 0 <= i < |posts| ==> posts[i].id != id;
            && (absent <==> u == Err(PostNotFound(id)))
            && (absent <==> d == Err(PostNotFound(id)))
            && (absent <==> l == Err(PostNotFound(id)))
            && (l.Ok? <==> !absent)
            && (u.Ok? <==> d.Ok?)
            && (d.Ok? <==> exists i :: 0 <= i < |posts| && posts[i].id == id && MayModify(posts[i].owner, caller)
                                       && forall j :: 0 <= j < i ==> posts[j].id != id)
            && (u.Ok? ==> u.value.id == id && u.value.title == title && u.value.content == content
                          && u.value.category == category)
            && (d.Ok? ==> d.value.id == id && !d.value.active)
            && (l.Ok? ==> l.value.id == id)
  {
    var found := FindPostIndex(posts, id);
    if found.Some? {
      var k := found.value;
      assert forall j :: 0 <= j < k ==> posts[j].id != id by {
        assert forall j :: 0 <= j < k ==> !SamePostId(id)(posts[j]);
      }
      var d := DeletePostDecision(posts, id, caller);
      if d.Ok? {
        assert 0 <= k < |posts| && posts[k].id == id && MayModify(posts[k].owner, caller);
      } else {
        forall i | 0 <= i < |posts| && posts[i].id == id && (forall j :: 0 <= j < i ==> posts[j].id != id)
          ensures !MayModify(posts[i].owner, caller)
        {
          assert i == k;
        }
      }
    }
  }

  /** Selects the comments on the post with the given id. */
  function CommentOnPost(postId: int): ForumComment -> bool
  {
    (c: ForumComment) => c.post == postId
  }

  /** ORDER BY createdAt ASC. */
  predicate OlderCommentOrSame(a: ForumComment, b: ForumComment)
  {
    a.createdAt <= b.createdAt
  }

  lemma OlderCommentOrSameIsTotalPreorder()
    ensures TotalPreorder(OlderCommentOrSame)
  {
  }

  /** findByPostOrderByCreatedAtAsc: exactly the post's comments, oldest first. */
  function CommentsOf(comments: seq<ForumComment>, postId: int): (r: seq<ForumComment>)
    ensures forall c :: c in r <==> c in comments && c.post == postId
    ensures multiset(r) == multiset(Filter(comments, CommentOnPost(postId)))
    ensures |r| == Count(comments, CommentOnPost(postId))
    ensures Sorted(r, OlderCommentOrSame)
  {
    var kept := Filter(comments, CommentOnPost(postId));
    OlderCommentOrSameIsTotalPreorder();
    SortBySorted(kept, OlderCommentOrSame);
    SortByKeepsMembers(kept, OlderCommentOrSame);
    SortBy(kept, OlderCommentOrSame)
  }

  predicate UniquePostIds(posts: seq<ForumPost>)
  {
    forall i, j :: 0 <= i < j < |posts| ==> posts[i].id != posts[j].id
  }

  /** Every post's reply counter equals the number of comments stored for it. */
  predicate RepliesMatch(posts: seq<ForumPost>, comments: seq<ForumComment>)
  {
    forall i :: 0 <= i < |posts| ==> posts[i].replies == Count(comments, CommentOnPost(posts[i].id))
  }

  /** What the tables always satisfy: post ids are unique and handed out below the next id,
      likes are never negative, comment ids are unique and below the next id, every comment is
      on a post id already handed out, and the reply counters equal the comment counts. */
  predicate ForumValid(posts: seq<ForumPost>, comments: seq<ForumComment>, nextPostId: int, nextCommentId: int)
  {
    && 1 <= nextPostId && 1 <= nextCommentId
    && UniquePostIds(posts)
    && (forall i :: 0 <= i < |posts| ==> 1 <= posts[i].id < nextPostId && posts[i].likes >= 0)
    && (forall i :: 0 <= i < |comments| ==> 1 <= comments[i].id < nextCommentId && comments[i].post < nextPostId)
    && (forall i, j :: 0 <= i < j < |comments| ==> comments[i].id != comments[j].id)
    && RepliesMatch(posts, comments)
  }

  /** The comment listing of a stored post has exactly as many entries as its reply counter. */
  lemma RepliesCountComments(posts: seq<ForumPost>, comments: seq<ForumComment>, nextPostId: int,
                             nextCommentId: int, k: nat)
    requires ForumValid(posts, comments, nextPostId, nextCommentId) && k < |posts|
    ensures |CommentsOf(comments, posts[k].id)| == posts[k].replies
  {
  }

  /** A new post with the next id and no replies keeps the tables valid. */
  lemma NewPostKeepsForumValid(posts: seq<ForumPost>, comments: seq<ForumComment>, nextPostId: int,
                               nextCommentId: int, p: ForumPost)
    requires ForumValid(posts, comments, nextPostId, nextCommentId)
    requires p.id == nextPostId && p.replies == 0 && p.likes == 0
    ensures ForumValid(posts + [p], comments, nextPostId + 1, nextCommentId)
  {
    CountNone(comments, CommentOnPost(p.id));
    var after := posts + [p];
    assert forall i :: 0 <= i < |posts| ==> after[i] == posts[i];
  }

  /** Replacing a stored post by one with the same id, the same reply counter and non-negative
      likes (an edit, a soft delete or a like) keeps the tables valid. */
  lemma ReplacePostKeepsForumValid(posts: seq<ForumPost>, comments: seq<ForumComment>, nextPostId: int,
                                   nextCommentId: int, k: nat, p: ForumPost)
    requires ForumValid(posts, comments, nextPostId, nextCommentId) && k < |posts|
    requires p.id == posts[k].id && p.replies == posts[k].replies && p.likes >= 0
    ensures ForumValid(posts[k := p], comments, nextPostId, nextCommentId)
  {
    var after := posts[k := p];
    assert forall i :: 0 <= i < |after| ==> after[i].id == posts[i].id && after[i].replies == posts[i].replies;
  }

  /** A comment with the next comment id on the k-th post, with that post's reply counter raised
      by one, keeps the tables valid. */
  lemma CommentKeepsForumValid(posts: seq<ForumPost>, comments: seq<ForumComment>, nextPostId: int,
                               nextCommentId: int, k: nat, c: ForumComment)
    requires ForumValid(posts, comments, nextPostId, nextCommentId) && k < |posts|
    requires c.id == nextCommentId && c.post == posts[k].id
    ensures ForumValid(posts[k := posts[k].(replies := posts[k].replies + 1)], comments + [c],
                       nextPostId, nextCommentId + 1)
  {
    var after := posts[k := posts[k].(replies := posts[k].replies + 1)];
    var more := comments + [c];
    forall i | 0 <= i < |after|
      ensures after[i].replies == Count(more, CommentOnPost(after[i].id))
    {
      CountConcat(comments, [c], CommentOnPost(posts[i].id));
      assert Filter([c], CommentOnPost(posts[i].id)) == if c.post == posts[i].id then [c] else [] by {
        assert [c][1..] == [];
      }
    }
    assert forall i :: 0 <= i < |comments| ==> more[i] == comments[i];
  }

  class ForumService {
    var posts: seq<ForumPost>
    var comments: seq<ForumComment>
    var nextPostId: int
    var nextCommentId: int

    ghost predicate Valid()
      reads this
    {
      ForumValid(posts, comments, nextPostId, nextCommentId)
    }

    constructor()
      ensures Valid()
      ensures posts == [] && comments == []
    {
      posts := [];
      comments := [];
      nextPostId := 1;
      nextCommentId := 1;
    }

    /** getPostById */
    method GetPostById(id: int) returns (result: Option<ForumPost>)
      ensures result.None? <==> forall i :: 0 <= i < |posts| ==> posts[i].id != id
      ensures result.Some? ==> result.value in posts && result.value.id == id
    {
      var found := FindPostIndex(posts, id);
      if found.None? {
        return None;
      }
      result := Some(posts[found.value]);
    }

    /** createPost: the post is stored with the next id, active, with no likes and no replies;
        no other post and no comment changes. */
    method CreatePost(title: string, content: string, category: PostCategory, user: User, now: int)
      returns (p: ForumPost)
      requires Valid()
      modifies this
      ensures Valid()
      ensures p == NewPost(title, content, category, user.id, old(nextPostId), now)
      ensures posts == old(posts) + [p] && comments == old(comments)
      ensures forall i :: 0 <= i < |old(posts)| ==> old(posts)[i].id != p.id
    {
      p := NewPost(title, content, category, user.id, nextPostId, now);
      NewPostKeepsForumValid(posts, comments, nextPostId, nextCommentId, p);
      posts := posts + [p];
      nextPostId := nextPostId + 1;
    }

    /** updatePost: an unknown id or a caller who neither owns the post nor moderates changes
        nothing; otherwise title, content and category are overwritten in place. */
    method UpdatePost(id: int, title: string, content: string, category: PostCategory, caller: User)
      returns (result: Result<ForumPost, ForumError>)
      requires Valid()
      modifies this
      ensures Valid()
      ensures result.Err? ==> unchanged(this)
      ensures comments == old(comments)
      ensures result == UpdatePostDecision(old(posts), id, title, content, category, caller)
      ensures result.Ok? ==> posts == old(posts)[FindPostIndex(old(posts), id).value := result.value]
    {
      var found := FindPostIndex(posts, id);
      if found.None? {
        return Err(PostNotFound(id));
      }
      var k := found.value;
      if !MayModify(posts[k].owner, caller) {
        return Err(NoPostPermission("update"));
      }
      var e := EditPost(posts[k], title, content, category);
      ReplacePostKeepsForumValid(posts, comments, nextPostId, nextCommentId, k, e);
      posts := posts[k := e];
      result := Ok(e);
    }

    /** deletePost: the same two failures as updatePost; otherwise the post stays stored with
        active = false. */
    method DeletePost(id: int, caller: User) returns (result: Result<ForumPost, ForumError>)
      requires Valid()
      modifies this
      ensures Valid()
      ensures result.Err? ==> unchanged(this)
      ensures comments == old(comments)
      ensures result == DeletePostDecision(old(posts), id, caller)
      ensures result.Ok? ==> posts == old(posts)[FindPostIndex(old(posts), id).value := result.value]
    {
      var found := FindPostIndex(posts, id);
      if found.None? {
        return Err(PostNotFound(id));
      }
      var k := found.value;
      if !MayModify(posts[k].owner, caller) {
        return Err(NoPostPermission("delete"));
      }
      var d := posts[k].(active := false);
      ReplacePostKeepsForumValid(posts, comments, nextPostId, nextCommentId, k, d);
      posts := posts[k := d];
      result := Ok(d);
    }

    /** likePost: an unknown id changes nothing; otherwise the post's likes go up by exactly one.
        There is no caller, so nothing limits likes per user, and soft-deleted posts can be
        liked. */
    method LikePost(id: int) returns (result: Result<ForumPost, ForumError>)
      requires Valid()
      modifies this
      ensures Valid()
      ensures result.Err? ==> unchanged(this)
      ensures comments == old(comments)
      ensures result == LikeDecision(old(posts), id)
      ensures result.Ok? ==> posts == old(posts)[FindPostIndex(old(posts), id).value := result.value]
    {
      var found := FindPostIndex(posts, id);
      if found.None? {
        return Err(PostNotFound(id));
      }
      var k := found.value;
      var l := posts[k].(likes := posts[k].likes + 1);
      ReplacePostKeepsForumValid(posts, comments, nextPostId, nextCommentId, k, l);
      posts := posts[k := l];
      result := Ok(l);
    }

    /** getCommentsForPost: an unknown post id fails; otherwise the post's comments, oldest
        first, as many as its reply counter says. */
    method GetCommentsForPost(postId: int) returns (result: Result<seq<ForumComment>, ForumError>)
      requires Valid()
      ensures result.Err? <==> forall i :: 0 <= i < |posts| ==> posts[i].id != postId
      ensures result.Err? ==> result.error == PostNotFound(postId)
      ensures result.Ok? ==> result.value == CommentsOf(comments, postId)
      ensures result.Ok? ==> |result.value| == posts[FindPostIndex(posts, postId).value].replies
    {
      var found := FindPostIndex(posts, postId);
      if found.None? {
        return Err(PostNotFound(postId));
      }
      RepliesCountComments(posts, comments, nextPostId, nextCommentId, found.value);
      result := Ok(CommentsOf(comments, postId));
    }

    /** addComment: an unknown post id stores nothing. Otherwise one comment with the next id,
        linked to the post and the user, is stored, and that post's reply counter goes up by
        exactly one. */
    method AddComment(postId: int, content: string, user: User, now: int)
      returns (result: Result<ForumComment, ForumError>)
      requires Valid()
      modifies this
      ensures Valid()
      ensures result.Err? <==> forall i :: 0 <= i < |old(posts)| ==> old(posts)[i].id != postId
      ensures result.Err? ==> result.error == PostNotFound(postId) && unchanged(this)
      ensures result.Ok? ==>
                var k := FindPostIndex(old(posts), postId).value;
                && result.value == ForumComment(old(nextCommentId), postId, user.id, content, now)
                && comments == old(comments) + [result.value]
                && posts == old(posts)[k := old(posts)[k].(replies := old(posts)[k].replies + 1)]
    {
      var found := FindPostIndex(posts, postId);
      if found.None? {
        return Err(PostNotFound(postId));
      }
      var k := found.value;
      var c := ForumComment(nextCommentId, postId, user.id, content, now);
      var bumped := posts[k].(replies := posts[k].replies + 1);
      CommentKeepsForumValid(posts, comments, nextPostId, nextCommentId, k, c);
      posts := posts[k := bumped];
      comments := comments + [c];
      nextCommentId := nextCommentId + 1;
      result := Ok(c);
    }
  }
}
