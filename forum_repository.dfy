/** ForumPostRepository's queries over the forum_posts table, a sequence in insertion order.
    The ORDER BY clauses are stable sorts, so posts equal on every sort key keep table order
    (one of the orders the database may use); a query with no ORDER BY returns table order. */
module ForumQueries {
  import opened Ordering
  import opened Tables
  import opened Entities

  function PostIsActive(): ForumPost -> bool
  {
    (p: ForumPost) => p.active
  }

  function PostInCategory(c: PostCategory): ForumPost -> bool
  {
    (p: ForumPost) => p.category == c
  }

  function PostOwnedBy(user: int): ForumPost -> bool
  {
    (p: ForumPost) => p.owner == user
  }

  function ActivePostInCategory(c: PostCategory): ForumPost -> bool
  {
    (p: ForumPost) => p.active && p.category == c
  }

  function ActivePostOwnedBy(user: int): ForumPost -> bool
  {
    (p: ForumPost) => p.owner == user && p.active
  }

  /** ORDER BY createdAt DESC. */
  predicate NewerPostOrSame(a: ForumPost, b: ForumPost)
  {
    a.createdAt >= b.createdAt
  }

  /** ORDER BY likes DESC, createdAt DESC. */
  predicate MorePopularOrSame(a: ForumPost, b: ForumPost)
  {
    a.likes > b.likes || (a.likes == b.likes && a.createdAt >= b.createdAt)
  }

  lemma PostOrdersAreTotalPreorders()
    ensures TotalPreorder(NewerPostOrSame)
    ensures TotalPreorder(MorePopularOrSame)
  {
  }

  /** The active posts, newest first, for a given filter that implies active. */
  function NewestFirstWhere(posts: seq<ForumPost>, p: ForumPost -> bool): (r: seq<ForumPost>)
    ensures forall x :: x in r <==> x in posts && p(x)
    ensures multiset(r) == multiset(Filter(posts, p))
    ensures Sorted(r, NewerPostOrSame)
  {
    var kept := Filter(posts, p);
    PostOrdersAreTotalPreorders();
    SortBySorted(kept, NewerPostOrSame);
    SortByKeepsMembers(kept, NewerPostOrSame);
    SortBy(kept, NewerPostOrSame)
  }

  /** findByActiveTrueOrderByCreatedAtDesc: exactly the active posts, newest first. */
  function FindActivePostsNewestFirst(posts: seq<ForumPost>): (r: seq<ForumPost>)
    ensures forall x :: x in r <==> x in posts && x.active
    ensures multiset(r) == multiset(Filter(posts, PostIsActive()))
    ensures Sorted(r, NewerPostOrSame)
  {
    NewestFirstWhere(posts, PostIsActive())
  }

  /** findByActiveTrueAndCategoryOrderByCreatedAtDesc: the active posts of that category, in
      the same order. */
  function FindActivePostsInCategory(posts: seq<ForumPost>, c: PostCategory): (r: seq<ForumPost>)
    ensures forall x :: x in r <==> x in posts && x.active && x.category == c
    ensures multiset(r) == multiset(Filter(posts, ActivePostInCategory(c)))
    ensures Sorted(r, NewerPostOrSame)
  {
    NewestFirstWhere(posts, ActivePostInCategory(c))
  }

  /** The category listing is the main listing restricted to that category. */
  lemma CategoryListingRestrictsMain(posts: seq<ForumPost>, c: PostCategory)
    ensures forall x :: x in FindActivePostsInCategory(posts, c) <==>
              x in FindActivePostsNewestFirst(posts) && x.category == c
  {
  }

  /** findPopularPosts: the active posts, most liked first, and among equally liked posts the
      newest first. */
  function FindPopularPosts(posts: seq<ForumPost>): (r: seq<ForumPost>)
    ensures forall x :: x in r <==> x in posts && x.active
    ensures multiset(r) == multiset(Filter(posts, PostIsActive()))
    ensures Sorted(r, MorePopularOrSame)
  {
    var active := Filter(posts, PostIsActive());
    PostOrdersAreTotalPreorders();
    SortBySorted(active, MorePopularOrSame);
    SortByKeepsMembers(active, MorePopularOrSame);
    SortBy(active, MorePopularOrSame)
  }

  /** In the popular listing likes never increase down the list, and ties on likes are listed
      newest first. */
  lemma PopularOrderMeaning(posts: seq<ForumPost>)
    ensures var r := FindPopularPosts(posts);
            && (forall i, j :: 0 <= i < j < |r| ==> r[i].likes >= r[j].likes)
            && (forall i, j :: 0 <= i < j < |r| && r[i].likes == r[j].likes ==> r[i].createdAt >= r[j].createdAt)
  {
    var r := FindPopularPosts(posts);
    forall i, j | 0 <= i < j < |r|
      ensures r[i].likes >= r[j].likes
    {
      assert MorePopularOrSame(r[i], r[j]);
    }
  }

  /** findByCategory: no filter on active. */
  function FindPostsByCategory(posts: seq<ForumPost>, c: PostCategory): seq<ForumPost>
  {
    Filter(posts, PostInCategory(c))
  }

  /** findByUser: no filter on active. */
  function FindPostsByUser(posts: seq<ForumPost>, user: int): seq<ForumPost>
  {
    Filter(posts, PostOwnedBy(user))
  }

  /** findByCategory and findByUser return exactly the stored posts with that attribute,
      soft-deleted ones included, in table order. */
  lemma PostAttributeQueriesKeepInactive(posts: seq<ForumPost>, c: PostCategory, user: int)
    ensures forall x :: x in FindPostsByCategory(posts, c) <==> x in posts && x.category == c
    ensures forall x :: x in FindPostsByUser(posts, user) <==> x in posts && x.owner == user
    ensures SubsequenceOf(FindPostsByCategory(posts, c), posts)
    ensures SubsequenceOf(FindPostsByUser(posts, user), posts)
  {
    FilterKeepsOrder(posts, PostInCategory(c));
    FilterKeepsOrder(posts, PostOwnedBy(user));
  }

  /** countActivePostsByUser */
  function CountActivePostsByUser(posts: seq<ForumPost>, user: int): nat
  {
    Count(posts, ActivePostOwnedBy(user))
  }

  /** The active count never exceeds the user's posts, and soft-deleting one of the user's
      active posts lowers it by exactly one. */
  lemma ActivePostCountUnderSoftDelete(posts: seq<ForumPost>, user: int, k: nat)
    requires k < |posts| && posts[k].owner == user && posts[k].active
    ensures CountActivePostsByUser(posts, user) <= |FindPostsByUser(posts, user)|
    ensures CountActivePostsByUser(posts[k := posts[k].(active := false)], user)
            == CountActivePostsByUser(posts, user) - 1
  {
    CountUpdate(posts, k, posts[k].(active := false), ActivePostOwnedBy(user));
    ActiveCountAtMostOwned(posts, user);
  }

  lemma {:induction false} ActiveCountAtMostOwned(posts: seq<ForumPost>, user: int)
    ensures CountActivePostsByUser(posts, user) <= |FindPostsByUser(posts, user)|
  {
    if |posts| > 0 {
      ActiveCountAtMostOwned(posts[1..], user);
    }
  }
}
