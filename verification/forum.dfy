/**
  The discussion forum (src/components/features/DiscussionForum.jsx): an
  in-memory list of posts, newest first, that can be extended, replied to,
  filtered by category and sorted three ways. `Date.now()` ids and
  `new Date()` timestamps are parameters; a post's date is an abstract
  timestamp in milliseconds.
 */
module Forum {
  import opened JsText

  datatype Reply = Reply(id: int, author: string, content: string, date: string)

  datatype Post = Post(
    id: int,
    author: string,
    authorAvatar: string,
    date: int,
    content: string,
    category: string,
    likes: int,
    replies: seq<Reply>,
    tags: seq<string>)

  /** The forum's state hooks plus the log of raised toasts. */
  datatype ForumState = ForumState(
    posts: seq<Post>,
    newPost: string,
    filter: string,
    sort: string,
    modalOpen: bool,
    selectedCategory: string,
    toasts: seq<string>)

  /** The category names offered by the filter menu and the new-post form. */
  const Categories: seq<string> := ["AI & ML", "Web Development", "Data Science", "Career Advice", "General"]

  const CurrentUser: string := "Current User"
  const UserAvatar: string := "https://bit.ly/user-avatar"
  const PostCreated: string := "Post created"
  const AllPosts: string := "all"

  /** The seed post; its category is not one of `Categories`. */
  function SeedPost(date: int): Post
  {
    Post(1, "John Doe", "https://bit.ly/dan-abramov", date,
         "What are your thoughts on the latest developments in AI?",
         "AI Discussion", 15, [], [])
  }

  function Initial(seedDate: int): ForumState
  {
    ForumState([SeedPost(seedDate)], "", AllPosts, "latest", false, "General", [])
  }

  // ---------------------------------------------------------------------
  // Creating a post

  /** `handleNewPost`, with `Date.now()` as `id` and `new Date()` as `now`. */
  function CreatePost(s: ForumState, id: int, now: int): (r: ForumState)
    ensures IsBlank(s.newPost) ==> r == s
    ensures !IsBlank(s.newPost) ==>
      && |r.posts| == |s.posts| + 1
      && r.posts[1..] == s.posts
      && r.posts[0].id == id
      && r.posts[0].author == CurrentUser
      && r.posts[0].authorAvatar == UserAvatar
      && r.posts[0].date == now
      && r.posts[0].content == s.newPost
      && r.posts[0].category == s.selectedCategory
      && r.posts[0].likes == 0
      && r.posts[0].replies == []
      && r.posts[0].tags == ["discussion", Lower(s.selectedCategory)]
      && r.newPost == []
      && !r.modalOpen
      && r.toasts == s.toasts + [PostCreated]
      && r.(posts := s.posts, newPost := s.newPost, modalOpen := s.modalOpen, toasts := s.toasts) == s
  {
    TrimEmptyIffBlank(s.newPost);
    if Trim(s.newPost) == [] then s
    else
      var post := Post(id, CurrentUser, UserAvatar, now, s.newPost, s.selectedCategory,
                       0, [], ["discussion", Lower(s.selectedCategory)]);
      s.(posts := [post] + s.posts, newPost := "", modalOpen := false,
         toasts := s.toasts + [PostCreated])
  }

  // ---------------------------------------------------------------------
  // Replying

  /** The `posts.map` inside `handleReply`: every post with the target id
      gets `reply` appended to its replies; every other post is untouched. */
  function ReplyTo(posts: seq<Post>, postId: int, reply: Reply): (r: seq<Post>)
    ensures |r| == |posts|
    ensures forall i :: 0 <= i < |posts| && posts[i].id != postId ==> r[i] == posts[i]
    ensures forall i :: 0 <= i < |posts| && posts[i].id == postId ==>
      && |r[i].replies| == |posts[i].replies| + 1
      && r[i].replies[..|posts[i].replies|] == posts[i].replies
      && r[i].replies[|posts[i].replies|] == reply
      && r[i].(replies := posts[i].replies) == posts[i]
  {
    seq(|posts|, i requires 0 <= i < |posts| =>
      if posts[i].id == postId then posts[i].(replies := posts[i].replies + [reply]) else posts[i])
  }

  /** `handleReply(postId, replyText)`, with `Date.now()` as `replyId`. */
  function HandleReply(s: ForumState, postId: int, text: string, replyId: int): (r: ForumState)
    ensures |r.posts| == |s.posts|
    ensures forall i :: 0 <= i < |s.posts| && s.posts[i].id != postId ==> r.posts[i] == s.posts[i]
    ensures forall i :: 0 <= i < |s.posts| && s.posts[i].id == postId ==>
      r.posts[i] == s.posts[i].(replies := s.posts[i].replies + [Reply(replyId, CurrentUser, text, "Just now")])
    ensures r.(posts := s.posts) == s
  {
    s.(posts := ReplyTo(s.posts, postId, Reply(replyId, CurrentUser, text, "Just now")))
  }

  /** The per-card state of `ForumPost`. */
  datatype Card = Card(liked: bool, showReply: bool, replyText: string)

  /** `ForumPost.handleReply`: a non-blank reply is handed to `onReply`
      (the second component) and the reply box is cleared and closed; a
      blank one is dropped and nothing changes. */
  function CardReply(c: Card): (r: (Card, Option<string>))
    ensures IsBlank(c.replyText) <==> r.1.None?
    ensures IsBlank(c.replyText) ==> r.0 == c
    ensures !IsBlank(c.replyText) ==>
      && r.1 == Some(c.replyText)
      && r.0.replyText == [] && !r.0.showReply && r.0.liked == c.liked
  {
    TrimEmptyIffBlank(c.replyText);
    if Trim(c.replyText) == [] then (c, None)
    else (c.(replyText := "", showReply := false), Some(c.replyText))
  }

  /** The "Post Reply" button of the card showing post `postId`, wired to
      the forum's `handleReply` through `onReply`. */
  function SubmitCardReply(s: ForumState, c: Card, postId: int, replyId: int): (r: (ForumState, Card))
    ensures IsBlank(c.replyText) ==> r == (s, c)
    ensures !IsBlank(c.replyText) ==> r.0 == HandleReply(s, postId, c.replyText, replyId)
  {
    var (c', sent) := CardReply(c);
    match sent
    case None => (s, c')
    case Some(text) => (HandleReply(s, postId, text, replyId), c')
  }

  // ---------------------------------------------------------------------
  // Filtering

  /** The filter callback: `filter === 'all' || post.category === filter`. */
  predicate Keeps(filter: string, p: Post)
  {
    filter == AllPosts || p.category == filter
  }

  /** `posts.filter(...)`. */
  function Filter(posts: seq<Post>, filter: string): (r: seq<Post>)
    ensures filter == AllPosts ==> r == posts
    ensures forall i :: 0 <= i < |r| ==> Keeps(filter, r[i])
  {
    if posts == [] then []
    else
      var rest := Filter(posts[1..], filter);
      if Keeps(filter, posts[0]) then [posts[0]] + rest else rest
  }

  /** Filtering keeps every post the filter accepts, as often as it occurs,
      and nothing else. */
  lemma {:induction false} FilterCount(posts: seq<Post>, filter: string)
    ensures forall p ::
      multiset(Filter(posts, filter))[p] == (if Keeps(filter, p) then multiset(posts)[p] else 0)
  {
    if posts != [] {
      FilterCount(posts[1..], filter);
      assert posts == [posts[0]] + posts[1..];
    }
  }

  /** Filtering keeps relative order: filtering a concatenation is the
      concatenation of the filtered parts. */
  lemma {:induction false} FilterAppend(a: seq<Post>, b: seq<Post>, filter: string)
    ensures Filter(a + b, filter) == Filter(a, filter) + Filter(b, filter)
  {
    if a != [] {
      assert (a + b)[1..] == a[1..] + b;
      FilterAppend(a[1..], b, filter);
    } else {
      assert a + b == b;
    }
  }

  // ---------------------------------------------------------------------
  // Sorting

  /** The comparator of `filteredPosts` is `rank(b) - rank(a)` for this rank:
      newest first, most liked first, most replies first, or all equal for
      any other sort key. */
  function Rank(sort: string, p: Post): int
  {
    if sort == "latest" then p.date
    else if sort == "popular" then p.likes
    else if sort == "mostDiscussed" then |p.replies|
    else 0
  }

  /** Non-increasing rank: each post ranks at least as high as the next. */
  predicate SortedBy(sort: string, ps: seq<Post>)
  {
    forall i :: 0 < i < |ps| ==> Rank(sort, ps[i - 1]) >= Rank(sort, ps[i])
  }

  /** Dropping the first post keeps a list sorted. */
  lemma TailSorted(sort: string, ps: seq<Post>)
    requires SortedBy(sort, ps) && ps != []
    ensures SortedBy(sort, ps[1..])
  {
    forall i | 0 < i < |ps| - 1 ensures Rank(sort, ps[1..][i - 1]) >= Rank(sort, ps[1..][i]) {
      assert ps[1..][i - 1] == ps[i] && ps[1..][i] == ps[i + 1];
    }
  }

  /** In a sorted list every post ranks at least as high as every later one. */
  lemma {:induction false} SortedPairwise(sort: string, ps: seq<Post>)
    requires SortedBy(sort, ps)
    ensures forall i, j :: 0 <= i < j < |ps| ==> Rank(sort, ps[i]) >= Rank(sort, ps[j])
  {
    if ps != [] {
      var tail := ps[1..];
      TailSorted(sort, ps);
      SortedPairwise(sort, tail);
      forall i, j | 0 <= i < j < |ps| ensures Rank(sort, ps[i]) >= Rank(sort, ps[j]) {
        if i == 0 && j > 1 {
          assert ps[1] == tail[0] && ps[j] == tail[j - 1];
        } else if i > 0 {
          assert ps[i] == tail[i - 1] && ps[j] == tail[j - 1];
        }
      }
    }
  }

  /** The posts of `ps` with rank `k`, in order. */
  function OfRank(sort: string, k: int, ps: seq<Post>): seq<Post>
  {
    if ps == [] then []
    else (if Rank(sort, ps[0]) == k then [ps[0]] else []) + OfRank(sort, k, ps[1..])
  }

  /** Puts `p` before the first post it does not rank below. */
  function Insert(sort: string, p: Post, ps: seq<Post>): (r: seq<Post>)
    requires SortedBy(sort, ps)
    ensures SortedBy(sort, r)
    ensures multiset(r) == multiset(ps) + multiset{p}
    ensures |r| == |ps| + 1 && (r[0] == p || (ps != [] && r[0] == ps[0]))
  {
    if ps == [] then [p]
    else if Rank(sort, p) >= Rank(sort, ps[0]) then
      [p] + ps
    else
      var tail := ps[1..];
      TailSorted(sort, ps);
      var rest := Insert(sort, p, tail);
      assert ps == [ps[0]] + tail;
      [ps[0]] + rest
  }

  /** Insertion is stable: `p` lands before every post of its own rank. */
  lemma {:induction false} InsertOfRank(sort: string, p: Post, ps: seq<Post>, k: int)
    requires SortedBy(sort, ps)
    ensures OfRank(sort, k, Insert(sort, p, ps)) ==
      (if Rank(sort, p) == k then [p] + OfRank(sort, k, ps) else OfRank(sort, k, ps))
  {
    var r := Insert(sort, p, ps);
    if ps == [] {
    } else if Rank(sort, p) >= Rank(sort, ps[0]) {
      assert r[1..] == ps;
    } else {
      var tail := ps[1..];
      TailSorted(sort, ps);
      InsertOfRank(sort, p, tail, k);
      assert r[1..] == Insert(sort, p, tail);
    }
  }

  /** The sort of `filteredPosts`, as the stable sort JavaScript engines
      implement: insertion sort by non-increasing rank. */
  function Sort(sort: string, ps: seq<Post>): (r: seq<Post>)
    ensures SortedBy(sort, r)
    ensures multiset(r) == multiset(ps)
  {
    if ps == [] then []
    else
      assert ps == [ps[0]] + ps[1..];
      Insert(sort, ps[0], Sort(sort, ps[1..]))
  }

  /** Sorting is stable: the posts of any one rank keep their relative
      order. */
  lemma {:induction false} SortIsStable(sort: string, ps: seq<Post>, k: int)
    ensures OfRank(sort, k, Sort(sort, ps)) == OfRank(sort, k, ps)
  {
    if ps != [] {
      SortIsStable(sort, ps[1..], k);
      InsertOfRank(sort, ps[0], Sort(sort, ps[1..]), k);
    }
  }

  /** The posts of rank `k` come from the list and have rank `k`. */
  lemma {:induction false} OfRankMembers(sort: string, k: int, ps: seq<Post>)
    ensures forall x :: x in OfRank(sort, k, ps) ==> x in ps && Rank(sort, x) == k
  {
    if ps != [] {
      OfRankMembers(sort, k, ps[1..]);
    }
  }

  /** The first post of a sorted list ranks at least as high as any post
      in it. */
  lemma HeadRanksHighest(sort: string, ps: seq<Post>, x: Post)
    requires SortedBy(sort, ps) && x in ps
    ensures Rank(sort, ps[0]) >= Rank(sort, x)
  {
    SortedPairwise(sort, ps);
    var i :| 0 <= i < |ps| && ps[i] == x;
    if i > 0 {
      assert Rank(sort, ps[0]) >= Rank(sort, ps[i]);
    }
  }

  /** Two non-empty sorted lists with the same posts of every rank in the
      same order start with the same post, and their tails again have the
      same posts of every rank in the same order. */
  lemma SameHeads(sort: string, a: seq<Post>, b: seq<Post>)
    requires SortedBy(sort, a) && SortedBy(sort, b) && a != [] && b != []
    requires forall k :: OfRank(sort, k, a) == OfRank(sort, k, b)
    ensures a[0] == b[0]
    ensures forall k :: OfRank(sort, k, a[1..]) == OfRank(sort, k, b[1..])
  {
    var ka, kb := Rank(sort, a[0]), Rank(sort, b[0]);
    OfRankMembers(sort, ka, b);
    OfRankMembers(sort, kb, a);
    assert a[0] in OfRank(sort, ka, a);
    assert b[0] in OfRank(sort, kb, b);
    HeadRanksHighest(sort, b, a[0]);
    HeadRanksHighest(sort, a, b[0]);
    assert ka == kb;
    forall k ensures OfRank(sort, k, a[1..]) == OfRank(sort, k, b[1..]) {
      var ra, rb := OfRank(sort, k, a[1..]), OfRank(sort, k, b[1..]);
      if k == ka {
        assert OfRank(sort, k, a) == [a[0]] + ra;
        assert OfRank(sort, k, b) == [b[0]] + rb;
        assert ([a[0]] + ra)[1..] == ra && ([b[0]] + rb)[1..] == rb;
      } else {
        assert OfRank(sort, k, a) == [] + ra == ra;
        assert OfRank(sort, k, b) == [] + rb == rb;
      }
    }
    assert OfRank(sort, ka, a)[0] == a[0];
  }

  /** A non-empty list has posts of its head's rank. */
  lemma NonEmptyHasItsHeadRank(sort: string, ps: seq<Post>)
    ensures ps != [] ==> OfRank(sort, Rank(sort, ps[0]), ps) != []
  {
  }

  /** A stable sort has only one possible result: two lists in rank order
      whose posts of every rank appear in the same order are equal. */
  lemma {:induction false} StableOrderIsUnique(sort: string, a: seq<Post>, b: seq<Post>)
    requires SortedBy(sort, a) && SortedBy(sort, b)
    requires forall k :: OfRank(sort, k, a) == OfRank(sort, k, b)
    ensures a == b
    decreases |a|
  {
    NonEmptyHasItsHeadRank(sort, a);
    NonEmptyHasItsHeadRank(sort, b);
    if a != [] && b != [] {
      SameHeads(sort, a, b);
      TailSorted(sort, a);
      TailSorted(sort, b);
      StableOrderIsUnique(sort, a[1..], b[1..]);
      assert a == [a[0]] + a[1..] && b == [b[0]] + b[1..];
    }
  }

  /** `Sort` is the result every stable sort by this comparator produces,
      which is what JavaScript's `Array.prototype.sort` is required to be. */
  lemma SortIsTheStableSort(sort: string, ps: seq<Post>, out: seq<Post>)
    requires SortedBy(sort, out)
    requires forall k :: OfRank(sort, k, out) == OfRank(sort, k, ps)
    ensures out == Sort(sort, ps)
  {
    forall k ensures OfRank(sort, k, Sort(sort, ps)) == OfRank(sort, k, ps) {
      SortIsStable(sort, ps, k);
    }
    StableOrderIsUnique(sort, out, Sort(sort, ps));
  }

  /** An input already in rank order comes back unchanged. */
  lemma {:induction false} SortedIsFixed(sort: string, ps: seq<Post>)
    requires SortedBy(sort, ps)
    ensures Sort(sort, ps) == ps
  {
    if ps != [] {
      var tail := ps[1..];
      TailSorted(sort, ps);
      SortedIsFixed(sort, tail);
      assert ps == [ps[0]] + tail;
    }
  }

  /** An unknown sort key, whose comparator always returns 0, keeps the
      order. */
  lemma UnknownSortKeepsOrder(sort: string, ps: seq<Post>)
    requires sort != "latest" && sort != "popular" && sort != "mostDiscussed"
    ensures Sort(sort, ps) == ps
  {
    SortedIsFixed(sort, ps);
  }

  /** `filteredPosts`: the posts the filter keeps, each as often as in the
      list, in non-increasing rank order, ties in list order. */
  function Visible(s: ForumState): (r: seq<Post>)
    ensures SortedBy(s.sort, r)
    ensures forall p :: multiset(r)[p] == if Keeps(s.filter, p) then multiset(s.posts)[p] else 0
    ensures forall k :: OfRank(s.sort, k, r) == OfRank(s.sort, k, Filter(s.posts, s.filter))
  {
    var kept := Filter(s.posts, s.filter);
    FilterCount(s.posts, s.filter);
    forall k ensures OfRank(s.sort, k, Sort(s.sort, kept)) == OfRank(s.sort, k, kept) {
      SortIsStable(s.sort, kept, k);
    }
    Sort(s.sort, kept)
  }

  /** With the "all" filter and a key whose comparator ties everything, the
      visible list is the post list itself. */
  lemma AllUnsortedShowsEverything(s: ForumState)
    requires s.filter == AllPosts
    requires s.sort != "latest" && s.sort != "popular" && s.sort != "mostDiscussed"
    ensures Visible(s) == s.posts
  {
    UnknownSortKeepsOrder(s.sort, s.posts);
  }

  /** A post that ranks at least as high as every post of the list and
      comes first in it also comes first after sorting. */
  lemma MaxHeadLeads(sort: string, ps: seq<Post>)
    requires ps != [] && forall x :: x in ps ==> Rank(sort, x) <= Rank(sort, ps[0])
    ensures Sort(sort, ps)[0] == ps[0]
  {
    var r := Sort(sort, ps);
    var k := Rank(sort, ps[0]);
    assert ps[0] in multiset(r);
    assert r[0] in multiset(ps);
    HeadRanksHighest(sort, r, ps[0]);
    SortIsStable(sort, ps, k);
    assert OfRank(sort, k, r) == [r[0]] + OfRank(sort, k, r[1..]);
    assert OfRank(sort, k, ps) == [ps[0]] + OfRank(sort, k, ps[1..]);
  }

  /** Under the "latest" sort with no filter, a post created no earlier
      than every existing post shows first. */
  lemma NewestPostLeadsLatest(s: ForumState, id: int, now: int)
    requires !IsBlank(s.newPost) && s.filter == AllPosts && s.sort == "latest"
    requires forall p :: p in s.posts ==> p.date <= now
    ensures Visible(CreatePost(s, id, now))[0] == CreatePost(s, id, now).posts[0]
    ensures Visible(CreatePost(s, id, now))[0].date == now
  {
    var ps := CreatePost(s, id, now).posts;
    forall x | x in ps ensures Rank("latest", x) <= Rank("latest", ps[0]) {
      if x != ps[0] {
        assert ps == [ps[0]] + s.posts;
      }
    }
    MaxHeadLeads("latest", ps);
  }

  /** The seed post's category, "AI Discussion", is not on the filter menu,
      so choosing any menu category hides it. */
  lemma SeedHiddenByCategoryFilters(date: int, category: string)
    requires category in Categories
    ensures Filter([SeedPost(date)], category) == []
    ensures Filter([SeedPost(date)], AllPosts) == [SeedPost(date)]
  {
  }

  /** A blank reply typed into any card leaves the forum's posts untouched. */
  lemma BlankReplyNeverReachesPosts(s: ForumState, c: Card, postId: int, replyId: int)
    requires IsBlank(c.replyText)
    ensures SubmitCardReply(s, c, postId, replyId).0.posts == s.posts
  {
  }

  /** Replying does not move posts between categories, so it commutes with
      filtering. */
  lemma {:induction false} ReplyCommutesWithFilter(posts: seq<Post>, postId: int, reply: Reply, filter: string)
    ensures Filter(ReplyTo(posts, postId, reply), filter) == ReplyTo(Filter(posts, filter), postId, reply)
  {
    if posts != [] {
      var r := ReplyTo(posts, postId, reply);
      assert r[1..] == ReplyTo(posts[1..], postId, reply);
      ReplyCommutesWithFilter(posts[1..], postId, reply, filter);
      var rest := Filter(posts[1..], filter);
      if Keeps(filter, posts[0]) {
        assert ReplyTo([posts[0]] + rest, postId, reply) == [r[0]] + ReplyTo(rest, postId, reply);
      }
    }
  }
}
