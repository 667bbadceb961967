/**
 * Posts and post likes (python_api/services/post_service.py): creating a post, toggling a like,
 * soft deletion, the filtered and paged post list, and the service's own points helper.
 */
module PostService {
  import opened Wrappers
  import opened SocialDb
  import Levels

  const CreatePostPoints: int := 10
  const ReceiveLikePoints: int := 2

  /** The CASE expression of _add_user_points, written out as the SQL has it. */
  function CaseLevel(points: int): int {
    if points >= 10000 then 6
    else if points >= 5000 then 5
    else if points >= 2000 then 4
    else if points >= 500 then 3
    else if points >= 100 then 2
    else 1
  }

  /** The SQL cut-offs are the ones of calculate_level. */
  lemma CaseLevelIsCalculateLevel(points: int)
    ensures CaseLevel(points) == Levels.CalculateLevel(points)
  {
  }

  /**
   * A user after _add_user_points: the total grows by `points` (NULL counting as 0) and the
   * level is recomputed from the new total, whatever it was before.
   */
  function Credited(u: User, points: int): (r: User)
    ensures r.points == Some(PointsOr0(u) + points)
    ensures r.level == Some(Levels.CalculateLevel(PointsOr0(u) + points))
    ensures r == u.(points := r.points, level := r.level)
  {
    CaseLevelIsCalculateLevel(PointsOr0(u) + points);
    u.(points := Some(PointsOr0(u) + points), level := Some(CaseLevel(PointsOr0(u) + points)))
  }

  /** The users table after _add_user_points: an UPDATE that matches no row changes nothing. */
  function CreditedUsers(users: map<nat, User>, userId: nat, points: int): (r: map<nat, User>)
    ensures userId in users ==> r == users[userId := Credited(users[userId], points)]
    ensures userId !in users ==> r == users
  {
    if userId in users then users[userId := Credited(users[userId], points)] else users
  }

  /** Unlike the points service, this helper can lower a stored level. */
  lemma CreditCanLowerLevel()
    ensures var u := User("u", "u@example.com", None, None, None, None, None, Some(0), Some(6), 0, 0, 0);
      Credited(u, ReceiveLikePoints).level == Some(1)
  {
  }

  method AddUserPoints(db: Database, userId: nat, points: int)
    modifies db`users
    ensures db.users == CreditedUsers(old(db.users), userId, points)
    ensures old(db.Consistent()) ==> db.Consistent()
  {
    if userId in db.users {
      FollowCountsKeptIfIn(db.users, db.follows, userId, Credited(db.users[userId], points));
      db.users := db.users[userId := Credited(db.users[userId], points)];
    }
  }

  lemma FollowCountsKeptIfIn(users: map<nat, User>, follows: seq<(nat, nat)>, u: nat, x: User)
    requires u in users
    requires x.followersCount == users[u].followersCount && x.followingCount == users[u].followingCount
    ensures FollowCountsMatch(users, follows) ==> FollowCountsMatch(users[u := x], follows)
  {
    if FollowCountsMatch(users, follows) {
      FollowCountsKept(users, follows, u, x);
    }
  }

  /**
   * create_post: the insert fails on the users foreign key for an unknown author; otherwise the
   * post gets the next id and zero counters, and the author is credited 10 points.
   */
  method CreatePost(db: Database, userId: nat, content: string, dialectTag: Option<string>,
                    audioUrl: Option<string>, now: int) returns (r: Option<nat>)
    modifies db`posts, db`users
    ensures userId !in old(db.users) ==> r.None? && db.posts == old(db.posts) && db.users == old(db.users)
    ensures userId in old(db.users) ==>
      r == Some(|old(db.posts)| + 1)
      && db.posts == old(db.posts) + [Post(userId, content, audioUrl, dialectTag, 0, 0, false, now, now)]
      && db.users == CreditedUsers(old(db.users), userId, CreatePostPoints)
    ensures old(db.Consistent()) ==> db.Consistent()
  {
    if userId !in db.users {
      return None;
    }
    var post := Post(userId, content, audioUrl, dialectTag, 0, 0, false, now, now);
    PostAddedKeeps(db.posts, db.comments, db.postLikes, post);
    db.posts := db.posts + [post];
    r := Some(|db.posts|);
    AddUserPoints(db, userId, CreatePostPoints);
  }

  /** A new post starts with no likes and no comments, so the post counters still match. */
  lemma PostAddedKeeps(posts: seq<Post>, comments: seq<Comment>, likes: set<(nat, nat)>, post: Post)
    requires post.likesCount == 0 && post.commentsCount == 0
    ensures LikeCountsMatch(posts, likes) ==> LikeCountsMatch(posts + [post], likes)
    ensures CommentCountsMatch(posts, comments) ==> CommentCountsMatch(posts + [post], comments)
  {
    var posts' := posts + [post];
    if LikeCountsMatch(posts, likes) {
      LikesOfFresh(likes, |posts|);
      assert forall i :: 0 <= i < |posts| ==> posts'[i] == posts[i];
    }
    if CommentCountsMatch(posts, comments) {
      LiveCommentsFresh(comments, |posts|);
      assert forall i :: 0 <= i < |posts| ==> posts'[i] == posts[i];
    }
  }

  /**
   * toggle_like on a live post: an existing like row is deleted and the counter decremented,
   * clamped at 0; otherwise a row is inserted (failing on the users foreign key for an unknown
   * user, which rolls everything back), the counter incremented and the author, if it is not
   * the liker, credited 2 points.
   */
  method ToggleLike(db: Database, postId: nat, userId: nat) returns (r: Option<LikeState>)
    modifies db`postLikes, db`posts, db`users
    ensures !LivePost(old(db.posts), postId) ==>
      r.None? && db.postLikes == old(db.postLikes) && db.posts == old(db.posts) && db.users == old(db.users)
    ensures LivePost(old(db.posts), postId) && (userId, postId) in old(db.postLikes) ==>
      var p := old(db.posts)[postId - 1];
      r == Some(LikeState(false, Max(p.likesCount - 1, 0)))
      && db.postLikes == old(db.postLikes) - {(userId, postId)}
      && db.posts == old(db.posts)[postId - 1 := p.(likesCount := Max(p.likesCount - 1, 0))]
      && db.users == old(db.users)
    ensures LivePost(old(db.posts), postId) && (userId, postId) !in old(db.postLikes) && userId !in old(db.users) ==>
      r.None? && db.postLikes == old(db.postLikes) && db.posts == old(db.posts) && db.users == old(db.users)
    ensures LivePost(old(db.posts), postId) && (userId, postId) !in old(db.postLikes) && userId in old(db.users) ==>
      var p := old(db.posts)[postId - 1];
      r == Some(LikeState(true, p.likesCount + 1))
      && db.postLikes == old(db.postLikes) + {(userId, postId)}
      && db.posts == old(db.posts)[postId - 1 := p.(likesCount := p.likesCount + 1)]
      && db.users == (if p.userId != userId then CreditedUsers(old(db.users), p.userId, ReceiveLikePoints)
                      else old(db.users))
    ensures r.Some? ==> (r.value.isLiked <==> (userId, postId) in db.postLikes)
    ensures old(db.Consistent()) ==> db.Consistent()
  {
    if !LivePost(db.posts, postId) {
      return None;
    }
    if (userId, postId) in db.postLikes {
      var count := Unlike(db, postId, userId);
      r := Some(LikeState(false, count));
    } else if userId !in db.users {
      return None;
    } else {
      var count := Like(db, postId, userId);
      r := Some(LikeState(true, count));
    }
  }

  /** The unlike branch of toggle_like. */
  method Unlike(db: Database, postId: nat, userId: nat) returns (count: int)
    requires 1 <= postId <= |db.posts| && (userId, postId) in db.postLikes
    modifies db`postLikes, db`posts
    ensures var p := old(db.posts)[postId - 1];
      count == Max(p.likesCount - 1, 0)
      && db.postLikes == old(db.postLikes) - {(userId, postId)}
      && db.posts == old(db.posts)[postId - 1 := p.(likesCount := count)]
    ensures old(db.Consistent()) ==> db.Consistent()
  {
    var p := db.posts[postId - 1];
    var e := (userId, postId);
    ghost var consistent := db.Consistent();
    LikesOfRemove(db.postLikes, e, postId);
    LikesOfRemoveOthers(db.postLikes, e);
    count := Max(p.likesCount - 1, 0);
    db.postLikes := db.postLikes - {e};
    db.posts := db.posts[postId - 1 := p.(likesCount := count)];
    assert consistent ==> CommentCountsMatch(db.posts, db.comments);
  }

  /** The like branch of toggle_like, once the like row can be inserted. */
  method Like(db: Database, postId: nat, userId: nat) returns (count: int)
    requires 1 <= postId <= |db.posts| && (userId, postId) !in db.postLikes
    modifies db`postLikes, db`posts, db`users
    ensures var p := old(db.posts)[postId - 1];
      count == p.likesCount + 1
      && db.postLikes == old(db.postLikes) + {(userId, postId)}
      && db.posts == old(db.posts)[postId - 1 := p.(likesCount := count)]
      && db.users == (if p.userId != userId then CreditedUsers(old(db.users), p.userId, ReceiveLikePoints)
                      else old(db.users))
    ensures old(db.Consistent()) ==> db.Consistent()
  {
    var p := db.posts[postId - 1];
    var e := (userId, postId);
    ghost var consistent := db.Consistent();
    LikesOfAdd(db.postLikes, e, postId);
    LikesOfAddOthers(db.postLikes, e);
    count := p.likesCount + 1;
    db.postLikes := db.postLikes + {e};
    db.posts := db.posts[postId - 1 := p.(likesCount := count)];
    assert consistent ==> CommentCountsMatch(db.posts, db.comments);
    if p.userId != userId {
      AddUserPoints(db, p.userId, ReceiveLikePoints);
    }
  }

  lemma LikesOfAddOthers(likes: set<(nat, nat)>, e: (nat, nat))
    requires e !in likes
    ensures forall t :: t != e.1 ==> LikesOf(likes + {e}, t) == LikesOf(likes, t)
  {
  }

  lemma LikesOfRemoveOthers(likes: set<(nat, nat)>, e: (nat, nat))
    ensures forall t :: t != e.1 ==> LikesOf(likes - {e}, t) == LikesOf(likes, t)
  {
  }

  /** delete_post: only the author of a live post may delete it; deletion is a flag. */
  method DeletePost(db: Database, postId: nat, userId: nat, now: int) returns (ok: bool)
    modifies db`posts
    ensures ok <==> LivePost(old(db.posts), postId) && old(db.posts)[postId - 1].userId == userId
    ensures ok ==> db.posts == old(db.posts)[postId - 1 := old(db.posts)[postId - 1].(isDeleted := true, updatedAt := now)]
    ensures !ok ==> db.posts == old(db.posts)
    ensures old(db.Consistent()) ==> db.Consistent()
  {
    if !LivePost(db.posts, postId) || db.posts[postId - 1].userId != userId {
      return false;
    }
    db.posts := db.posts[postId - 1 := db.posts[postId - 1].(isDeleted := true, updatedAt := now)];
    ok := true;
  }

  // ---------------------------------------------------------------------------------------
  // get_posts
  // ---------------------------------------------------------------------------------------

  /** The WHERE clause get_posts assembles from its optional filters. */
  function PostFilter(dialectTag: Option<string>, userId: Option<nat>, viewerId: Option<nat>,
                      followingOnly: bool, follows: seq<(nat, nat)>): Post -> bool
  {
    (p: Post) => PostMatches(p, dialectTag, userId, viewerId, followingOnly, follows)
  }

  predicate PostMatches(p: Post, dialectTag: Option<string>, userId: Option<nat>, viewerId: Option<nat>,
                        followingOnly: bool, follows: seq<(nat, nat)>)
  {
    !p.isDeleted
    && (dialectTag.Some? && dialectTag.value != "" ==> p.dialectTag == dialectTag)
    && (Given(userId) ==> p.userId == userId.value)
    && (followingOnly && Given(viewerId) ==> (viewerId.value, p.userId) in follows)
  }

  datatype PostItem = PostItem(id: nat, post: Post, isLiked: bool)
  datatype PostPage = PostPage(posts: seq<PostItem>, total: nat, page: int, pageSize: int, hasMore: bool)

  /** One list entry: the viewer's like is looked up only for a given viewer. */
  function Item(posts: seq<Post>, likes: set<(nat, nat)>, viewerId: Option<nat>, id: nat): PostItem
    requires 1 <= id <= |posts|
  {
    PostItem(id, posts[id - 1], Given(viewerId) && (viewerId.value, id) in likes)
  }

  /** The loop of get_posts that turns the fetched rows into list entries. */
  method PostItems(posts: seq<Post>, likes: set<(nat, nat)>, viewerId: Option<nat>, found: seq<nat>)
    returns (items: seq<PostItem>)
    requires forall m :: 0 <= m < |found| ==> 1 <= found[m] <= |posts|
    ensures |items| == |found|
    ensures forall m :: 0 <= m < |found| ==> items[m] == Item(posts, likes, viewerId, found[m])
  {
    items := [];
    var k := 0;
    while k < |found|
      invariant 0 <= k <= |found|
      invariant |items| == k
      invariant forall m :: 0 <= m < k ==> items[m] == Item(posts, likes, viewerId, found[m])
    {
      var id := found[k];
      var isLiked := false;
      if Given(viewerId) {
        isLiked := (viewerId.value, id) in likes;
      }
      items := items + [PostItem(id, posts[id - 1], isLiked)];
      k := k + 1;
    }
  }

  /**
   * get_posts: the total of matching posts, one page of them newest first, and has_more =
   * offset + len(posts) < total. A negative LIMIT or OFFSET makes the query fail, which the
   * service answers with an empty page and total 0.
   */
  method GetPosts(db: Database, page: int, pageSize: int, dialectTag: Option<string>, userId: Option<nat>,
                  viewerId: Option<nat>, followingOnly: bool) returns (r: PostPage)
    ensures var offset := Offset(page, pageSize);
      pageSize < 0 || offset < 0 ==> r == PostPage([], 0, page, pageSize, false)
    ensures var ids := NewestFirst(db.posts, PostFilter(dialectTag, userId, viewerId, followingOnly, db.follows));
      var offset := Offset(page, pageSize);
      pageSize >= 0 && offset >= 0 ==>
        r.total == |ids| && r.page == page && r.pageSize == pageSize
        && |r.posts| == Min(pageSize, Max(0, |ids| - offset))
        && (forall k :: 0 <= k < |r.posts| ==> r.posts[k] == Item(db.posts, db.postLikes, viewerId, ids[offset + k]))
        && r.hasMore == (offset + |r.posts| < r.total)
  {
    var keep := PostFilter(dialectTag, userId, viewerId, followingOnly, db.follows);
    var ids := NewestFirst(db.posts, keep);
    var offset := Offset(page, pageSize);
    var rows := Page(ids, pageSize, offset);
    if rows.Err? {
      return PostPage([], 0, page, pageSize, false);
    }
    var found := rows.value;
    assert forall m :: 0 <= m < |found| ==> found[m] == ids[offset + m];
    var items := PostItems(db.posts, db.postLikes, viewerId, found);
    r := PostPage(items, |ids|, page, pageSize, offset + |items| < |ids|);
  }

  /**
   * For a successful query, the has_more of get_posts agrees with the page * page_size < total
   * test that the comment lists use.
   */
  lemma HasMoreIsNextPageTest(page: int, pageSize: int, total: nat)
    requires pageSize >= 0 && Offset(page, pageSize) >= 0
    ensures var offset := Offset(page, pageSize);
      (offset + Min(pageSize, Max(0, total - offset)) < total) <==> page * pageSize < total
  {
    assert page * pageSize == Offset(page, pageSize) + pageSize;
  }
}
