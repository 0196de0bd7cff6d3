/** ForumController.java: the REST endpoints under /api/forum. The handlers that change posts,
    and GET /posts/user/me, are gated by @PreAuthorize on the CONTRIBUTOR or MODERATOR role, so
    an anonymous request is refused before their bodies run. The bodies resolve the signed-in
    user, call the forum service, award points for a new post, and map an exception to a 400
    with "Error: " and its message. The principal is the signed-in user's id, or None when there
    is none; the clock is a parameter. */
module ForumEndpoints {
  import opened Wrappers
  import opened Text
  import opened Entities
  import opened ForumQueries
  import opened ForumBoard
  import opened UserQueries
  import opened UserAccounts
  import opened ReportEndpoints

  const PostPoints: int := 3
  const PostDeletedMessage: string := "Post deleted successfully"

  /** The fields of a ForumPostRequest. */
  datatype PostRequest = PostRequest(title: string, content: string, category: PostCategory)

  /** The 400 a forum service exception becomes. */
  function ForumFailure<T>(e: ForumError): (r: Response<T>)
    ensures r.BadRequest? && StartsWith(r.message, "Error: ") && r.message[7..] == ForumErrorMessage(e)
  {
    BadRequest(ErrorBody(ForumErrorMessage(e)))
  }

  /** The controller with the services it calls. */
  class ForumController {
    const forum: ForumService
    const accounts: UserService

    ghost predicate Valid()
      reads this, forum, accounts
    {
      forum.Valid() && accounts.Valid()
    }

    constructor(forum: ForumService, accounts: UserService)
      requires forum.Valid() && accounts.Valid()
      ensures Valid()
      ensures this.forum == forum && this.accounts == accounts
    {
      this.forum := forum;
      this.accounts := accounts;
    }

    /** GET /posts: the active posts, newest first. */
    method GetAllPosts() returns (resp: Response<seq<ForumPost>>)
      ensures resp.Success?
      ensures forall x :: x in resp.body <==> x in forum.posts && x.active
      ensures Ordering.Sorted(resp.body, NewerPostOrSame)
    {
      resp := Success(FindActivePostsNewestFirst(forum.posts));
    }

    /** GET /posts/category/{category}: the active posts of that category, newest first. */
    method GetPostsByCategory(category: PostCategory) returns (resp: Response<seq<ForumPost>>)
      ensures resp.Success?
      ensures forall x :: x in resp.body <==> x in forum.posts && x.active && x.category == category
      ensures Ordering.Sorted(resp.body, NewerPostOrSame)
    {
      resp := Success(FindActivePostsInCategory(forum.posts, category));
    }

    /** GET /posts/popular: the active posts, most liked first, ties newest first. */
    method GetPopularPosts() returns (resp: Response<seq<ForumPost>>)
      ensures resp.Success?
      ensures forall x :: x in resp.body <==> x in forum.posts && x.active
      ensures Ordering.Sorted(resp.body, MorePopularOrSame)
    {
      resp := Success(FindPopularPosts(forum.posts));
    }

    /** GET /posts/{id}: the stored post with that id, soft-deleted or not, or 404. */
    method GetPostById(id: int) returns (resp: Response<ForumPost>)
      ensures resp.Success? || resp.NotFound?
      ensures resp.NotFound? <==> forall i :: 0 <= i < |forum.posts| ==> forum.posts[i].id != id
      ensures resp.Success? ==> resp.body in forum.posts && resp.body.id == id
    {
      var found := forum.GetPostById(id);
      if found.None? {
        return NotFound;
      }
      resp := Success(found.value);
    }

    /** GET /posts/user/me: an anonymous request is refused before the body. Otherwise every post
        of the caller, soft-deleted ones included, in table order. The user lookup sits outside
        any try, so a signed-in caller with no user row ends in a 500. */
    method GetMyPosts(principal: Option<int>) returns (resp: Response<seq<ForumPost>>)
      ensures principal.None? <==> resp == Unauthorized
      ensures resp.InternalServerError? <==> principal.Some? && CallerIndex(accounts.users, principal).None?
      ensures resp.InternalServerError? ==> resp.message == UnhandledErrorMessage
      ensures resp.Success? ==>
                && (forall x :: x in resp.body <==> x in forum.posts && x.owner == principal.value)
                && Tables.SubsequenceOf(resp.body, forum.posts)
    {
      if principal.None? {
        return Unauthorized;
      }
      var found := CallerIndex(accounts.users, principal);
      if found.None? {
        return InternalServerError(UnhandledErrorMessage);
      }
      PostAttributeQueriesKeepInactive(forum.posts, General, principal.value);
      resp := Success(FindPostsByUser(forum.posts, principal.value));
    }

    /** POST /posts: an anonymous request is refused before the body; a signed-in caller with no
        user row gets a 400. Neither changes anything. Otherwise the post is created and then
        its author earns 3 points. */
    method CreatePost(request: PostRequest, principal: Option<int>, now: int)
      returns (resp: Response<ForumPost>)
      requires Valid()
      modifies forum, accounts
      ensures Valid()
      ensures principal.None? ==> resp == Unauthorized && unchanged(forum, accounts)
      ensures principal.Some? ==>
              match CallerIndex(old(accounts.users), principal)
              case None => resp == CallerFailure(principal) && unchanged(forum, accounts)
              case Some(k) =>
                var p := NewPost(request.title, request.content, request.category, principal.value,
                                 old(forum.nextPostId), now);
                && resp == Success(p)
                && forum.posts == old(forum.posts) + [p]
                && forum.comments == old(forum.comments)
                && accounts.users == Award(old(accounts.users), k, PostPoints)
    {
      if principal.None? {
        return Unauthorized;
      }
      var found := CallerIndex(accounts.users, principal);
      if found.None? {
        return CallerFailure(principal);
      }
      var user := accounts.users[found.value];
      var p := forum.CreatePost(request.title, request.content, request.category, user, now);
      AwardStoredUser(accounts, found.value, PostPoints);
      resp := Success(p);
    }

    /** PUT /posts/{id}: an anonymous request is refused before the body; otherwise the service's
        outcome for the resolved caller, mapped to 200 or 400. */
    method UpdatePost(id: int, request: PostRequest, principal: Option<int>)
      returns (resp: Response<ForumPost>)
      requires Valid()
      modifies forum
      ensures Valid()
      ensures forum.comments == old(forum.comments)
      ensures principal.None? ==> resp == Unauthorized && unchanged(forum)
      ensures principal.Some? ==>
              match CallerIndex(accounts.users, principal)
              case None => resp == CallerFailure(principal) && unchanged(forum)
              case Some(k) =>
                match UpdatePostDecision(old(forum.posts), id, request.title, request.content,
                                         request.category, accounts.users[k])
                case Err(e) => resp == ForumFailure(e) && unchanged(forum)
                case Ok(u) =>
                  && resp == Success(u)
                  && forum.posts == old(forum.posts)[FindPostIndex(old(forum.posts), id).value := u]
    {
      if principal.None? {
        return Unauthorized;
      }
      var found := CallerIndex(accounts.users, principal);
      if found.None? {
        return CallerFailure(principal);
      }
      var result := forum.UpdatePost(id, request.title, request.content, request.category,
                                     accounts.users[found.value]);
      if result.Err? {
        return ForumFailure(result.error);
      }
      resp := Success(result.value);
    }

    /** DELETE /posts/{id}: an anonymous request is refused before the body; otherwise the soft
        delete for the resolved caller, and success answers with a message. */
    method DeletePost(id: int, principal: Option<int>) returns (resp: Response<string>)
      requires Valid()
      modifies forum
      ensures Valid()
      ensures forum.comments == old(forum.comments)
      ensures principal.None? ==> resp == Unauthorized && unchanged(forum)
      ensures principal.Some? ==>
              match CallerIndex(accounts.users, principal)
              case None => resp == CallerFailure(principal) && unchanged(forum)
              case Some(k) =>
                match DeletePostDecision(old(forum.posts), id, accounts.users[k])
                case Err(e) => resp == ForumFailure(e) && unchanged(forum)
                case Ok(d) =>
                  && resp == Success(PostDeletedMessage)
                  && forum.posts == old(forum.posts)[FindPostIndex(old(forum.posts), id).value := d]
    {
      if principal.None? {
        return Unauthorized;
      }
      var found := CallerIndex(accounts.users, principal);
      if found.None? {
        return CallerFailure(principal);
      }
      var result := forum.DeletePost(id, accounts.users[found.value]);
      if result.Err? {
        return ForumFailure(result.error);
      }
      resp := Success(PostDeletedMessage);
    }

    /** POST /posts/{id}/like: an anonymous request is refused before the body and changes
        nothing. The body itself looks no user up: for any signed-in caller the answer is exactly
        the post the service saved, and an unknown id gets a 400. */
    method LikePost(id: int, principal: Option<int>) returns (resp: Response<ForumPost>)
      requires Valid()
      modifies forum
      ensures Valid()
      ensures forum.comments == old(forum.comments)
      ensures principal.None? ==> resp == Unauthorized && unchanged(forum)
      ensures principal.Some? ==>
              match LikeDecision(old(forum.posts), id)
              case Err(e) => resp == ForumFailure(e) && unchanged(forum)
              case Ok(l) =>
                && resp == Success(l)
                && forum.posts == old(forum.posts)[FindPostIndex(old(forum.posts), id).value := l]
    {
      if principal.None? {
        return Unauthorized;
      }
      var result := forum.LikePost(id);
      if result.Err? {
        return ForumFailure(result.error);
      }
      resp := Success(result.value);
    }
  }
}
