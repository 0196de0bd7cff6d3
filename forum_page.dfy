/** Forum.jsx: the community forum page. Its state cells are the posts shown, the open/closed
    flag of each post's comment panel, the per-post comment cache with its draft, and the
    new-post form. Each click handler is one atomic step; the outcome of each API call is a
    parameter, and the calls made are logged in order. */
module ForumPage {
  import opened Wrappers
  import opened Text
  import opened Tables
  import opened Entities

  /** A post as the page holds it: the JSON of a ForumPost, whose category may be missing and
      whose reply counter may be missing. */
  datatype PostCard = PostCard(
    id: int,
    title: string,
    content: string,
    category: Option<string>,
    likes: int,
    replies: Option<int>,
    createdAt: int)

  /** A comment as the page holds it. */
  datatype CommentCard = CommentCard(id: int, content: string)

  /** A commentsCache entry: the loaded comments and the draft of a new one. */
  datatype Thread = Thread(list: seq<CommentCard>, newContent: string)

  /** The new-post form; category holds the enum name the select sends. */
  datatype PostDraft = PostDraft(title: string, content: string, category: string)

  /** The requests the page sends. */
  datatype ForumCall =
    | LoadAll
    | LoadCategory(category: string)
    | Like(postId: int)
    | FetchComments(postId: int)
    | SendComment(postId: int, content: string)
    | SendPost(draft: PostDraft)

  const EmptyDraft: PostDraft := PostDraft("", "", "GENERAL")

  // ---- Category chips -------------------------------------------------------------------

  /** getCategoryLabel */
  function CategoryLabel(category: string): string
  {
    if category == "tips" then "Tips & Tricks"
    else if category == "safety" then "Safety"
    else if category == "feature_request" then "Feature Request"
    else "General"
  }

  /** getCategoryColor */
  function CategoryColor(category: string): string
  {
    if category == "tips" then "primary"
    else if category == "safety" then "error"
    else if category == "feature_request" then "secondary"
    else "default"
  }

  /** `String(post.category || 'general').toLowerCase()`: a missing or empty category reads as
      "general"; the lower-casing covers ASCII letters. */
  function ChipKey(category: Option<string>): string
  {
    ToLower(if category.None? || category.value == "" then "general" else category.value)
  }

  /** The label of each option of the new-post dialog's category select. */
  function OptionLabel(c: PostCategory): string
  {
    match c
    case General => "General"
    case Tips => "Tips & Tricks"
    case Safety => "Safety"
    case FeatureRequest => "Feature Request"
  }

  /** The colour each category's chip gets. */
  function ChipColor(c: PostCategory): string
  {
    match c
    case General => "default"
    case Tips => "primary"
    case Safety => "error"
    case FeatureRequest => "secondary"
  }

  lemma LowerCategoryNames()
    ensures ToLower("GENERAL") == "general" && ToLower("general") == "general"
    ensures ToLower("TIPS") == "tips"
    ensures ToLower("SAFETY") == "safety"
    ensures ToLower("FEATURE_REQUEST") == "feature_request"
  {
    assert ToLower("TIPS") == "tips" by {
      assert LowerChar('T') == 't' && LowerChar('I') == 'i' && LowerChar('P') == 'p' && LowerChar('S') == 's';
    }
    assert ToLower("SAFETY") == "safety" by {
      assert LowerChar('S') == 's' && LowerChar('A') == 'a' && LowerChar('F') == 'f';
      assert LowerChar('E') == 'e' && LowerChar('T') == 't' && LowerChar('Y') == 'y';
    }
    assert ToLower("FEATURE_REQUEST") == "feature_request" by {
      assert LowerChar('F') == 'f' && LowerChar('E') == 'e' && LowerChar('A') == 'a' && LowerChar('T') == 't';
      assert LowerChar('U') == 'u' && LowerChar('R') == 'r' && LowerChar('_') == '_' && LowerChar('Q') == 'q';
      assert LowerChar('S') == 's';
    }
    assert ToLower("GENERAL") == "general" by {
      assert LowerChar('G') == 'g' && LowerChar('E') == 'e' && LowerChar('N') == 'n' && LowerChar('R') == 'r';
      assert LowerChar('A') == 'a' && LowerChar('L') == 'l';
    }
    assert ToLower("general") == "general";
  }

  /** The chip of a post whose category is the enum name of c shows the same label as c's
      option in the new-post dialog and c's own colour, and a post without a category shows
      "General" in the default colour. */
  lemma ChipMatchesCategory(c: PostCategory)
    ensures CategoryLabel(ChipKey(Some(PostCategoryName(c)))) == OptionLabel(c)
    ensures CategoryColor(ChipKey(Some(PostCategoryName(c)))) == ChipColor(c)
    ensures CategoryLabel(ChipKey(None)) == OptionLabel(General)
    ensures CategoryColor(ChipKey(None)) == ChipColor(General)
  {
    LowerCategoryNames();
  }

  /** The four distinct category chips are told apart by their labels and by their colours. */
  lemma ChipsAreDistinct(c: PostCategory, d: PostCategory)
    requires c != d
    ensures OptionLabel(c) != OptionLabel(d) && ChipColor(c) != ChipColor(d)
  {
  }

  // ---- Tabs -----------------------------------------------------------------------------

  /** The request the effect sends for a tab: all posts, one of three categories, or none for
      a tab index outside 0..3. */
  function TabRequest(tab: int): (r: Option<ForumCall>)
    ensures r.Some? <==> 0 <= tab <= 3
    ensures tab == 0 ==> r == Some(LoadAll)
    ensures 1 <= tab <= 3 ==> r.Some? && r.value.LoadCategory?
                              && r.value.category == PostCategoryName([Tips, Safety, FeatureRequest][tab - 1])
  {
    if tab == 0 then Some(LoadAll)
    else if tab == 1 then Some(LoadCategory("TIPS"))
    else if tab == 2 then Some(LoadCategory("SAFETY"))
    else if tab == 3 then Some(LoadCategory("FEATURE_REQUEST"))
    else None
  }

  // ---- Pure state updates ---------------------------------------------------------------

  /** `!!expandedComments[id]` */
  predicate IsExpanded(expanded: map<int, bool>, id: int)
  {
    id in expanded && expanded[id]
  }

  /** The toggle: the post's flag becomes the negation of its current reading. */
  function Toggled(expanded: map<int, bool>, id: int): map<int, bool>
  {
    expanded[id := !IsExpanded(expanded, id)]
  }

  /** Toggling flips the post's panel and leaves every other post's entry as it was; toggling
      twice gives the panel its first reading again. */
  lemma ToggleMeaning(expanded: map<int, bool>, id: int)
    ensures IsExpanded(Toggled(expanded, id), id) == !IsExpanded(expanded, id)
    ensures forall j :: j != id ==> (j in Toggled(expanded, id) <==> j in expanded)
    ensures forall j :: j != id && j in expanded ==> Toggled(expanded, id)[j] == expanded[j]
    ensures IsExpanded(Toggled(Toggled(expanded, id), id), id) == IsExpanded(expanded, id)
  {
  }

  /** `p.replies || 0` */
  function RepliesOrZero(p: PostCard): int
  {
    if p.replies.Some? then p.replies.value else 0
  }

  /** Selects the cards with the given id. */
  function CardWithId(id: int): PostCard -> bool
  {
    (p: PostCard) => p.id == id
  }

  /** `prev.map(p => p.id === postId ? { ...p, replies: (p.replies || 0) + 1 } : p)` */
  function BumpReplies(posts: seq<PostCard>, postId: int): (r: seq<PostCard>)
    ensures |r| == |posts|
  {
    seq(|posts|, i requires 0 <= i < |posts| =>
      if posts[i].id == postId then posts[i].(replies := Some(RepliesOrZero(posts[i]) + 1)) else posts[i])
  }

  /** Every card of the post gets one more reply, a missing counter counting as 0, and keeps
      every other field; every other card is unchanged. */
  lemma BumpRepliesMeaning(posts: seq<PostCard>, postId: int)
    ensures var r := BumpReplies(posts, postId);
            forall i :: 0 <= i < |posts| ==>
              if posts[i].id == postId then
                && RepliesOrZero(r[i]) == RepliesOrZero(posts[i]) + 1
                && r[i].replies.Some?
                && r[i].(replies := posts[i].replies) == posts[i]
              else r[i] == posts[i]
  {
  }

  /** The replies shown on all cards together. */
  function TotalReplies(posts: seq<PostCard>): int
  {
    if |posts| == 0 then 0 else RepliesOrZero(posts[0]) + TotalReplies(posts[1..])
  }

  /** A posted comment raises the replies shown on the page by exactly the number of cards of
      that post (one, when ids are unique). */
  lemma {:induction false} BumpRepliesAddsOnePerCard(posts: seq<PostCard>, postId: int)
    ensures TotalReplies(BumpReplies(posts, postId)) == TotalReplies(posts) + Count(posts, CardWithId(postId))
  {
    if |posts| > 0 {
      BumpRepliesAddsOnePerCard(posts[1..], postId);
      assert BumpReplies(posts, postId)[1..] == BumpReplies(posts[1..], postId);
    }
  }

  /** The comment cache after a comment is posted: the created comment appended to the post's
      list (an empty list when there was no entry) and the draft cleared. */
  function AppendComment(cache: map<int, Thread>, postId: int, created: CommentCard): (r: map<int, Thread>)
    ensures postId in r && r[postId].newContent == ""
    ensures r[postId].list == (if postId in cache then cache[postId].list else []) + [created]
    ensures forall j :: j != postId ==> (j in r <==> j in cache)
    ensures forall j :: j != postId && j in cache ==> r[j] == cache[j]
  {
    var list := if postId in cache then cache[postId].list else [];
    cache[postId := Thread(list + [created], "")]
  }

  /** The comment field's onChange: the post's draft becomes the new text; its loaded list, or
      an empty one when it has no entry, is kept. */
  function EditDraft(cache: map<int, Thread>, postId: int, text: string): (r: map<int, Thread>)
    ensures postId in r && r[postId].newContent == text
    ensures r[postId].list == (if postId in cache then cache[postId].list else [])
    ensures forall j :: j != postId ==> (j in r <==> j in cache)
    ensures forall j :: j != postId && j in cache ==> r[j] == cache[j]
  {
    var state := if postId in cache then cache[postId] else Thread([], "");
    cache[postId := state.(newContent := text)]
  }

  /** `state?.newContent || ''` */
  function DraftOf(cache: map<int, Thread>, postId: int): string
  {
    if postId in cache then cache[postId].newContent else ""
  }

  class ForumView {
    var tab: int
    var posts: seq<PostCard>
    var dialogOpen: bool
    var newPost: PostDraft
    var expanded: map<int, bool>
    var cache: map<int, Thread>
    /** The requests sent, oldest first. */
    var calls: seq<ForumCall>

    /** The first render and the effect's run on mount: tab 0 requests every post, and a
        loaded list replaces the empty one. */
    constructor(initialLoad: Result<seq<PostCard>, string>)
      ensures tab == 0 && !dialogOpen && newPost == EmptyDraft
      ensures expanded == map[] && cache == map[] && calls == [LoadAll]
      ensures posts == if initialLoad.Ok? then initialLoad.value else []
    {
      tab := 0;
      posts := [];
      dialogOpen := false;
      newPost := EmptyDraft;
      expanded := map[];
      cache := map[];
      calls := [LoadAll];
      if initialLoad.Ok? {
        posts := initialLoad.value;
      }
    }

    /** handleTabChange followed by the effect's load. Selecting the current tab leaves the
        state as it is, so the effect does not run; otherwise the tab's request is sent and its
        outcome replaces the posts; a failed load leaves them, and a tab outside 0..3 sends
        nothing. */
    method SelectTab(newTab: int, response: Result<seq<PostCard>, string>)
      modifies this
      ensures tab == newTab
      ensures newTab == old(tab) ==> calls == old(calls) && posts == old(posts)
      ensures TabRequest(newTab).None? ==> calls == old(calls) && posts == old(posts)
      ensures newTab != old(tab) && TabRequest(newTab).Some? ==>
                calls == old(calls) + [TabRequest(newTab).value]
      ensures newTab != old(tab) && TabRequest(newTab).Some? && response.Ok? ==> posts == response.value
      ensures response.Err? ==> posts == old(posts)
      ensures dialogOpen == old(dialogOpen) && newPost == old(newPost)
      ensures expanded == old(expanded) && cache == old(cache)
    {
      if newTab == tab {
        return;
      }
      tab := newTab;
      var request := TabRequest(newTab);
      if request.None? {
        return;
      }
      calls := calls + [request.value];
      if response.Ok? {
        posts := response.value;
      }
    }

    /** The like button, disabled without a user. The card whose id equals the returned post's
        id is replaced by it; every other card is unchanged, and a failure changes nothing. */
    method LikeClicked(signedIn: bool, postId: int, response: Result<PostCard, string>)
      modifies this
      ensures !signedIn ==> calls == old(calls) && posts == old(posts)
      ensures signedIn ==> calls == old(calls) + [Like(postId)]
      ensures signedIn && response.Ok? ==>
                && |posts| == |old(posts)|
                && forall i :: 0 <= i < |posts| ==>
                     posts[i] == if old(posts)[i].id == response.value.id then response.value else old(posts)[i]
      ensures response.Err? ==> posts == old(posts)
      ensures tab == old(tab) && dialogOpen == old(dialogOpen) && newPost == old(newPost)
      ensures expanded == old(expanded) && cache == old(cache)
    {
      if !signedIn {
        return;
      }
      calls := calls + [Like(postId)];
      if response.Ok? {
        posts := ReplaceWhere(posts, CardWithId(response.value.id), response.value);
      }
    }

    /** The comment button: flips the post's panel. Comments are fetched exactly when the panel
        was closed and the post has no cache entry; a fetched list is cached with an empty
        draft. */
    method ToggleComments(postId: int, response: Result<seq<CommentCard>, string>)
      modifies this
      ensures expanded == Toggled(old(expanded), postId)
      ensures var fetch := !IsExpanded(old(expanded), postId) && postId !in old(cache);
              && (fetch ==> calls == old(calls) + [FetchComments(postId)])
              && (!fetch ==> calls == old(calls))
              && (fetch && response.Ok? ==> cache == old(cache)[postId := Thread(response.value, "")])
              && (!fetch || response.Err? ==> cache == old(cache))
      ensures tab == old(tab) && posts == old(posts) && dialogOpen == old(dialogOpen) && newPost == old(newPost)
    {
      var wasExpanded := IsExpanded(expanded, postId);
      expanded := Toggled(expanded, postId);
      if !wasExpanded && postId !in cache {
        calls := calls + [FetchComments(postId)];
        if response.Ok? {
          cache := cache[postId := Thread(response.value, "")];
        }
      }
    }

    /** The comment field's onChange. */
    method TypeComment(postId: int, text: string)
      modifies this
      ensures cache == EditDraft(old(cache), postId, text)
      ensures tab == old(tab) && posts == old(posts) && dialogOpen == old(dialogOpen)
      ensures newPost == old(newPost) && expanded == old(expanded) && calls == old(calls)
    {
      cache := EditDraft(cache, postId, text);
    }

    /** The comment's Post button. An empty or whitespace-only draft sends nothing and changes
        nothing. Otherwise the draft is sent; a created comment is appended to the post's cached
        list, the draft is cleared, and that post's cards show one more reply. */
    method PostComment(postId: int, response: Result<CommentCard, string>)
      modifies this
      ensures IsJsBlank(DraftOf(old(cache), postId)) ==>
                calls == old(calls) && cache == old(cache) && posts == old(posts)
      ensures !IsJsBlank(DraftOf(old(cache), postId)) ==>
                calls == old(calls) + [SendComment(postId, DraftOf(old(cache), postId))]
      ensures !IsJsBlank(DraftOf(old(cache), postId)) && response.Ok? ==>
                && cache == AppendComment(old(cache), postId, response.value)
                && posts == BumpReplies(old(posts), postId)
      ensures response.Err? ==> cache == old(cache) && posts == old(posts)
      ensures tab == old(tab) && dialogOpen == old(dialogOpen) && newPost == old(newPost)
      ensures expanded == old(expanded)
    {
      var content := DraftOf(cache, postId);
      if IsJsBlank(content) {
        return;
      }
      calls := calls + [SendComment(postId, content)];
      if response.Ok? {
        cache := AppendComment(cache, postId, response.value);
        posts := BumpReplies(posts, postId);
      }
    }

    /** The dialog's Post button: the form is sent; a created post closes the dialog, resets
        the form to empty title and content with category GENERAL, and is put first in the
        list. A failure changes nothing but the request log. */
    method SubmitPost(response: Result<PostCard, string>)
      modifies this
      ensures calls == old(calls) + [SendPost(old(newPost))]
      ensures response.Ok? ==>
                && posts == [response.value] + old(posts)
                && !dialogOpen && newPost == EmptyDraft
      ensures response.Err? ==> posts == old(posts) && dialogOpen == old(dialogOpen) && newPost == old(newPost)
      ensures tab == old(tab) && expanded == old(expanded) && cache == old(cache)
    {
      calls := calls + [SendPost(newPost)];
      if response.Ok? {
        dialogOpen := false;
        newPost := EmptyDraft;
        posts := [response.value] + posts;
      }
    }
  }
}
