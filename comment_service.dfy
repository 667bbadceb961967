/**
 * Comments and comment likes (python_api/services/comment_service.py): creating a comment or a
 * reply, soft deletion, toggling a comment like, the paged comment and reply lists, and the
 * service's own points helper with its copy of the level cut-offs.
 */
module CommentService {
  import opened Wrappers
  import opened SocialDb
  import Levels
  import NotificationService

  const CommentPoints: int := 5
  const ReceiveLikePoints: int := 2
  const DeletedContent: string := "[已删除]"
  const ReplyPreview: nat := 3

  /** _calculate_level, the service's own copy of the threshold chain. */
  function LevelFor(points: int): int {
    if points >= 10000 then 6
    else if points >= 5000 then 5
    else if points >= 2000 then 4
    else if points >= 500 then 3
    else if points >= 100 then 2
    else 1
  }

  lemma LevelForIsCalculateLevel(points: int)
    ensures LevelFor(points) == Levels.CalculateLevel(points)
  {
  }

  /**
   * A user after this service's _add_user_points: points grow (NULL counting as 0), updated_at
   * is refreshed, and the level is set from the new total even when that lowers it.
   */
  function Credited(u: User, points: int, now: int): (r: User)
    ensures r.points == Some(PointsOr0(u) + points)
    ensures r.level == Some(Levels.CalculateLevel(PointsOr0(u) + points))
    ensures r == u.(points := r.points, level := r.level, updatedAt := now)
  {
    LevelForIsCalculateLevel(PointsOr0(u) + points);
    u.(points := Some(PointsOr0(u) + points), level := Some(LevelFor(PointsOr0(u) + points)), updatedAt := now)
  }

  function CreditedUsers(users: map<nat, User>, userId: nat, points: int, now: int): (r: map<nat, User>)
    ensures userId in users ==> r == users[userId := Credited(users[userId], points, now)]
    ensures userId !in users ==> r == users
  {
    if userId in users then users[userId := Credited(users[userId], points, now)] else users
  }

  method AddUserPoints(db: Database, userId: nat, points: int, now: int)
    modifies db`users
    ensures db.users == CreditedUsers(old(db.users), userId, points, now)
    ensures old(db.Consistent()) ==> db.Consistent()
  {
    if userId in db.users {
      ghost var consistent := FollowCountsMatch(db.users, db.follows);
      var x := Credited(db.users[userId], points, now);
      if consistent {
        FollowCountsKept(db.users, db.follows, userId, x);
      }
      db.users := db.users[userId := x];
    }
  }

  // ---------------------------------------------------------------------------------------
  // create_comment
  // ---------------------------------------------------------------------------------------

  /**
   * The checks create_comment makes before writing: the post is live, and a reply's parent
   * (a truthy parent_id) is a live comment of the same post.
   */
  predicate Accepted(posts: seq<Post>, comments: seq<Comment>, postId: nat, parentId: Option<nat>) {
    LivePost(posts, postId)
    && (Given(parentId) ==> LiveComment(comments, parentId.value) && comments[parentId.value - 1].postId == postId)
  }

  /**
   * The insert's foreign keys: the commenter exists, and parent_id, when present, names a row;
   * a parent_id of 0 passes the truthiness check but fails here.
   */
  predicate Insertable(users: map<nat, User>, comments: seq<Comment>, userId: nat, parentId: Option<nat>) {
    userId in users && (parentId.Some? ==> 1 <= parentId.value <= |comments|)
  }

  /** Who is notified of a new comment, with which type and text, if anyone. */
  function Recipient(posts: seq<Post>, comments: seq<Comment>, postId: nat, userId: nat, parentId: Option<nat>)
    : (r: Option<(nat, string, string)>)
    requires Accepted(posts, comments, postId, parentId)
    ensures r.Some? ==> r.value.0 != userId
    ensures r.Some? && Given(parentId) ==> r.value == (comments[parentId.value - 1].userId, "reply", "回复了你的评论")
    ensures r.Some? && !Given(parentId) ==> r.value == (posts[postId - 1].userId, "comment", "评论了你的帖子")
    ensures r.None? <==> (if Given(parentId) then comments[parentId.value - 1].userId else posts[postId - 1].userId) == userId
  {
    if Given(parentId) then
      var author := comments[parentId.value - 1].userId;
      if author != userId then Some((author, "reply", "回复了你的评论")) else None
    else
      var author := posts[postId - 1].userId;
      if author != userId then Some((author, "comment", "评论了你的帖子")) else None
  }

  /**
   * create_comment: nothing is written when a check or a foreign key fails. Otherwise the
   * comment is appended, the post's comments_count grows by one, the commenter is credited 5
   * points, and after the commit the reply's parent author or the post author is notified
   * unless that is the commenter.
   */
  method CreateComment(db: Database, postId: nat, userId: nat, content: string, parentId: Option<nat>,
                       audioUrl: Option<string>, now: int) returns (r: Option<nat>)
    modifies db`comments, db`posts, db`users, db`notifications
    ensures !Accepted(old(db.posts), old(db.comments), postId, parentId)
            || !Insertable(old(db.users), old(db.comments), userId, parentId) ==>
      r.None? && db.comments == old(db.comments) && db.posts == old(db.posts)
      && db.users == old(db.users) && db.notifications == old(db.notifications)
    ensures Accepted(old(db.posts), old(db.comments), postId, parentId)
            && Insertable(old(db.users), old(db.comments), userId, parentId) ==>
      var id := |old(db.comments)| + 1;
      var p := old(db.posts)[postId - 1];
      r == Some(id)
      && db.comments == old(db.comments) + [Comment(postId, userId, parentId, content, audioUrl, 0, false, now)]
      && db.posts == old(db.posts)[postId - 1 := p.(commentsCount := p.commentsCount + 1, updatedAt := now)]
      && db.users == CreditedUsers(old(db.users), userId, CommentPoints, now)
      && var to := Recipient(old(db.posts), old(db.comments), postId, userId, parentId);
         db.notifications == old(db.notifications)
           + (if to.Some? && to.value.0 in old(db.users)
              then [Notification(to.value.0, to.value.1, Some(userId), Some(postId), Some(id), Some(to.value.2), false, now)]
              else [])
    ensures old(db.Consistent()) ==> db.Consistent()
  {
    if !Accepted(db.posts, db.comments, postId, parentId) || !Insertable(db.users, db.comments, userId, parentId) {
      return None;
    }
    var to := Recipient(db.posts, db.comments, postId, userId, parentId);
    var id := InsertComment(db, postId, userId, content, parentId, audioUrl, now);
    AddUserPoints(db, userId, CommentPoints, now);
    if to.Some? {
      var _ := NotificationService.CreateNotification(db, to.value.0, to.value.1, Some(userId), Some(postId),
                                                      Some(id), Some(to.value.2), now);
    }
    r := Some(id);
  }

  /** The insert and the comments_count update of create_comment. */
  method InsertComment(db: Database, postId: nat, userId: nat, content: string, parentId: Option<nat>,
                       audioUrl: Option<string>, now: int) returns (id: nat)
    requires LivePost(db.posts, postId)
    modifies db`comments, db`posts
    ensures id == |db.comments| == |old(db.comments)| + 1
    ensures var p := old(db.posts)[postId - 1];
      db.comments == old(db.comments) + [Comment(postId, userId, parentId, content, audioUrl, 0, false, now)]
      && db.posts == old(db.posts)[postId - 1 := p.(commentsCount := p.commentsCount + 1, updatedAt := now)]
    ensures old(db.Consistent()) ==> db.Consistent()
  {
    var c := Comment(postId, userId, parentId, content, audioUrl, 0, false, now);
    var p := db.posts[postId - 1];
    var p' := p.(commentsCount := p.commentsCount + 1, updatedAt := now);
    CommentInsertKeeps(db.posts, db.comments, db.postLikes, db.commentLikes, c, now);
    db.comments := db.comments + [c];
    db.posts := db.posts[postId - 1 := p'];
    id := |db.comments|;
  }

  // ---------------------------------------------------------------------------------------
  // What the writes do to the counters
  // ---------------------------------------------------------------------------------------

  /** The counters a comment write can disturb: post likes, comment likes and comments per post. */
  predicate CountersMatch(posts: seq<Post>, comments: seq<Comment>, postLikes: set<(nat, nat)>,
                          commentLikes: set<(nat, nat)>)
  {
    LikeCountsMatch(posts, postLikes) && CommentLikeCountsMatch(comments, commentLikes)
    && CommentCountsMatch(posts, comments)
  }

  /** The counters still match after create_comment's insert and update. */
  lemma CommentInsertKeeps(posts: seq<Post>, comments: seq<Comment>, postLikes: set<(nat, nat)>,
                           commentLikes: set<(nat, nat)>, c: Comment, now: int)
    requires LivePost(posts, c.postId) && !c.isDeleted && c.likesCount == 0
    ensures var p := posts[c.postId - 1];
      var posts' := posts[c.postId - 1 := p.(commentsCount := p.commentsCount + 1, updatedAt := now)];
      CountersMatch(posts, comments, postLikes, commentLikes) ==> CountersMatch(posts', comments + [c], postLikes, commentLikes)
  {
    if CountersMatch(posts, comments, postLikes, commentLikes) {
      var p := posts[c.postId - 1];
      CommentAddedCounts(posts, comments, c, now);
      CommentAddedLikes(comments, commentLikes, c);
      LikeCountsAfterCommentCount(posts, postLikes, c.postId - 1, p.(commentsCount := p.commentsCount + 1, updatedAt := now));
    }
  }

  /** The posts after delete_comment's `GREATEST(comments_count - 1, 0)` on post q. */
  function Decremented(posts: seq<Post>, q: nat, now: int): seq<Post> {
    if 1 <= q <= |posts|
    then posts[q - 1 := posts[q - 1].(commentsCount := Max(0, posts[q - 1].commentsCount - 1), updatedAt := now)]
    else posts
  }

  /** The counters still match after delete_comment's two updates. */
  lemma CommentDeleteKeeps(posts: seq<Post>, comments: seq<Comment>, postLikes: set<(nat, nat)>,
                           commentLikes: set<(nat, nat)>, j: nat, c': Comment, now: int)
    requires j < |comments| && !comments[j].isDeleted
    requires c' == comments[j].(isDeleted := true, content := c'.content)
    ensures CountersMatch(posts, comments, postLikes, commentLikes) ==>
      CountersMatch(Decremented(posts, comments[j].postId, now), comments[j := c'], postLikes, commentLikes)
  {
    if CountersMatch(posts, comments, postLikes, commentLikes) {
      var q := comments[j].postId;
      var posts' := Decremented(posts, q, now);
      assert CommentCountsMatch(posts', comments[j := c']) by {
        CommentRemovedCounts(posts, comments, j, c', now);
      }
      assert CommentLikeCountsMatch(comments[j := c'], commentLikes) by {
        CommentLikeCountsKept(comments, commentLikes, j, c');
      }
      assert LikeCountsMatch(posts', postLikes) by {
        if 1 <= q <= |posts| {
          var p' := posts[q - 1].(commentsCount := Max(0, posts[q - 1].commentsCount - 1), updatedAt := now);
          assert posts' == posts[q - 1 := p'];
          LikeCountsAfterCommentCount(posts, postLikes, q - 1, p');
        }
      }
    }
  }

  /** A new live comment on a live post adds one to that post's counter and changes no other. */
  lemma CommentAddedCounts(posts: seq<Post>, comments: seq<Comment>, c: Comment, now: int)
    requires CommentCountsMatch(posts, comments)
    requires LivePost(posts, c.postId) && !c.isDeleted
    ensures var p := posts[c.postId - 1];
      CommentCountsMatch(posts[c.postId - 1 := p.(commentsCount := p.commentsCount + 1, updatedAt := now)], comments + [c])
  {
    var p := posts[c.postId - 1];
    var posts' := posts[c.postId - 1 := p.(commentsCount := p.commentsCount + 1, updatedAt := now)];
    forall i | 0 <= i < |posts'|
      ensures posts'[i].commentsCount == LiveCommentCount(comments + [c], i + 1)
    {
      MatchingAppend(comments, c, LiveOnPost(i + 1));
    }
  }

  /** A new comment starts with no likes, so the comment like counters still match. */
  lemma CommentAddedLikes(comments: seq<Comment>, likes: set<(nat, nat)>, c: Comment)
    requires CommentLikeCountsMatch(comments, likes) && c.likesCount == 0
    ensures CommentLikeCountsMatch(comments + [c], likes)
  {
    LikesOfFresh(likes, |comments|);
  }

  /** Soft-deleting a live comment takes one off its post's counter (never below 0) and no other. */
  lemma CommentRemovedCounts(posts: seq<Post>, comments: seq<Comment>, j: nat, c': Comment, now: int)
    requires CommentCountsMatch(posts, comments)
    requires j < |comments| && !comments[j].isDeleted
    requires c' == comments[j].(isDeleted := true, content := c'.content)
    ensures CommentCountsMatch(Decremented(posts, comments[j].postId, now), comments[j := c'])
  {
    var posts' := Decremented(posts, comments[j].postId, now);
    forall i | 0 <= i < |posts'|
      ensures posts'[i].commentsCount == LiveCommentCount(comments[j := c'], i + 1)
    {
      MatchingUpdateCount(comments, j, c', LiveOnPost(i + 1));
    }
  }

  /** Rewriting a comment without touching its like counter keeps the comment like counters. */
  lemma CommentLikeCountsKept(comments: seq<Comment>, likes: set<(nat, nat)>, j: nat, c': Comment)
    requires CommentLikeCountsMatch(comments, likes)
    requires j < |comments| && c'.likesCount == comments[j].likesCount
    ensures CommentLikeCountsMatch(comments[j := c'], likes)
  {
  }

  /** Rewriting a post without touching its like counter keeps the post like counters. */
  lemma LikeCountsAfterCommentCount(posts: seq<Post>, likes: set<(nat, nat)>, j: nat, p': Post)
    requires LikeCountsMatch(posts, likes)
    requires j < |posts| && p'.likesCount == posts[j].likesCount
    ensures LikeCountsMatch(posts[j := p'], likes)
  {
  }

  // ---------------------------------------------------------------------------------------
  // delete_comment
  // ---------------------------------------------------------------------------------------

  /**
   * delete_comment: only the author of a live comment may delete it. Its content is replaced
   * and it is flagged deleted; its post's comments_count drops by one, clamped at 0.
   */
  method DeleteComment(db: Database, commentId: nat, userId: nat, now: int) returns (ok: bool)
    modifies db`comments, db`posts
    ensures ok <==> LiveComment(old(db.comments), commentId) && old(db.comments)[commentId - 1].userId == userId
    ensures !ok ==> db.comments == old(db.comments) && db.posts == old(db.posts)
    ensures ok ==>
      var c := old(db.comments)[commentId - 1];
      db.comments == old(db.comments)[commentId - 1 := c.(isDeleted := true, content := DeletedContent)]
      && db.posts == (if 1 <= c.postId <= |old(db.posts)|
                      then var p := old(db.posts)[c.postId - 1];
                           old(db.posts)[c.postId - 1 := p.(commentsCount := Max(0, p.commentsCount - 1), updatedAt := now)]
                      else old(db.posts))
    ensures old(db.Consistent()) ==> db.Consistent()
  {
    if !LiveComment(db.comments, commentId) || db.comments[commentId - 1].userId != userId {
      return false;
    }
    var c := db.comments[commentId - 1];
    var c' := c.(isDeleted := true, content := DeletedContent);
    CommentDeleteKeeps(db.posts, db.comments, db.postLikes, db.commentLikes, commentId - 1, c', now);
    var posts := db.posts;
    if 1 <= c.postId <= |posts| {
      var p := posts[c.postId - 1];
      posts := posts[c.postId - 1 := p.(commentsCount := Max(0, p.commentsCount - 1), updatedAt := now)];
    }
    assert posts == Decremented(db.posts, c.postId, now);
    db.comments := db.comments[commentId - 1 := c'];
    db.posts := posts;
    ok := true;
  }

  // ---------------------------------------------------------------------------------------
  // toggle_comment_like
  // ---------------------------------------------------------------------------------------

  /**
   * toggle_comment_like on a live comment: an existing like is removed and the counter clamped
   * at 0; otherwise the like is inserted (an unknown user fails the foreign key and nothing
   * changes), the counter grows, and a comment author who is not the liker gets 2 points and,
   * after the commit, a "like" notification.
   */
  method ToggleCommentLike(db: Database, commentId: nat, userId: nat, now: int) returns (r: Option<LikeState>)
    modifies db`commentLikes, db`comments, db`users, db`notifications
    ensures !LiveComment(old(db.comments), commentId) ==>
      r.None? && db.commentLikes == old(db.commentLikes) && db.comments == old(db.comments)
      && db.users == old(db.users) && db.notifications == old(db.notifications)
    ensures LiveComment(old(db.comments), commentId) && (userId, commentId) in old(db.commentLikes) ==>
      var c := old(db.comments)[commentId - 1];
      r == Some(LikeState(false, Max(0, c.likesCount - 1)))
      && db.commentLikes == old(db.commentLikes) - {(userId, commentId)}
      && db.comments == old(db.comments)[commentId - 1 := c.(likesCount := Max(0, c.likesCount - 1))]
      && db.users == old(db.users) && db.notifications == old(db.notifications)
    ensures LiveComment(old(db.comments), commentId) && (userId, commentId) !in old(db.commentLikes)
            && userId !in old(db.users) ==>
      r.None? && db.commentLikes == old(db.commentLikes) && db.comments == old(db.comments)
      && db.users == old(db.users) && db.notifications == old(db.notifications)
    ensures LiveComment(old(db.comments), commentId) && (userId, commentId) !in old(db.commentLikes)
            && userId in old(db.users) ==>
      var c := old(db.comments)[commentId - 1];
      r == Some(LikeState(true, c.likesCount + 1))
      && db.commentLikes == old(db.commentLikes) + {(userId, commentId)}
      && db.comments == old(db.comments)[commentId - 1 := c.(likesCount := c.likesCount + 1)]
      && (c.userId == userId ==> db.users == old(db.users) && db.notifications == old(db.notifications))
      && (c.userId != userId ==>
            db.users == CreditedUsers(old(db.users), c.userId, ReceiveLikePoints, now)
            && db.notifications == old(db.notifications)
                 + (if c.userId in old(db.users) && 1 <= c.postId <= |db.posts|
                    then [Notification(c.userId, "like", Some(userId), Some(c.postId), Some(commentId), Some("点赞了你的评论"), false, now)]
                    else []))
    ensures r.Some? ==> (r.value.isLiked <==> (userId, commentId) in db.commentLikes)
    ensures old(db.Consistent()) ==> db.Consistent()
  {
    if !LiveComment(db.comments, commentId) {
      return None;
    }
    var c := db.comments[commentId - 1];
    if (userId, commentId) in db.commentLikes {
      var count := UnlikeComment(db, commentId, userId);
      r := Some(LikeState(false, count));
    } else if userId !in db.users {
      return None;
    } else {
      var count := LikeComment(db, commentId, userId);
      if c.userId != userId {
        AddUserPoints(db, c.userId, ReceiveLikePoints, now);
        var _ := NotificationService.CreateNotification(db, c.userId, "like", Some(userId), Some(c.postId),
                                                        Some(commentId), Some("点赞了你的评论"), now);
      }
      r := Some(LikeState(true, count));
    }
  }

  method UnlikeComment(db: Database, commentId: nat, userId: nat) returns (count: int)
    requires 1 <= commentId <= |db.comments| && (userId, commentId) in db.commentLikes
    modifies db`commentLikes, db`comments
    ensures var c := old(db.comments)[commentId - 1];
      count == Max(0, c.likesCount - 1)
      && db.commentLikes == old(db.commentLikes) - {(userId, commentId)}
      && db.comments == old(db.comments)[commentId - 1 := c.(likesCount := count)]
    ensures old(db.Consistent()) ==> db.Consistent()
  {
    var c := db.comments[commentId - 1];
    var e := (userId, commentId);
    ghost var consistent := db.Consistent();
    LikesOfRemove(db.commentLikes, e, commentId);
    assert forall t :: t != commentId ==> LikesOf(db.commentLikes - {e}, t) == LikesOf(db.commentLikes, t);
    count := Max(0, c.likesCount - 1);
    SameVerdictAfterCount(db.comments, commentId - 1, c.(likesCount := count));
    db.commentLikes := db.commentLikes - {e};
    db.comments := db.comments[commentId - 1 := c.(likesCount := count)];
  }

  method LikeComment(db: Database, commentId: nat, userId: nat) returns (count: int)
    requires 1 <= commentId <= |db.comments| && (userId, commentId) !in db.commentLikes
    modifies db`commentLikes, db`comments
    ensures var c := old(db.comments)[commentId - 1];
      count == c.likesCount + 1
      && db.commentLikes == old(db.commentLikes) + {(userId, commentId)}
      && db.comments == old(db.comments)[commentId - 1 := c.(likesCount := count)]
    ensures old(db.Consistent()) ==> db.Consistent()
  {
    var c := db.comments[commentId - 1];
    var e := (userId, commentId);
    ghost var consistent := db.Consistent();
    LikesOfAdd(db.commentLikes, e, commentId);
    assert forall t :: t != commentId ==> LikesOf(db.commentLikes + {e}, t) == LikesOf(db.commentLikes, t);
    count := c.likesCount + 1;
    SameVerdictAfterCount(db.comments, commentId - 1, c.(likesCount := count));
    db.commentLikes := db.commentLikes + {e};
    db.comments := db.comments[commentId - 1 := c.(likesCount := count)];
  }

  /** A change to a comment's like counter changes no post's comment count. */
  lemma SameVerdictAfterCount(comments: seq<Comment>, j: nat, c: Comment)
    requires j < |comments| && c == comments[j].(likesCount := c.likesCount)
    ensures forall q :: LiveCommentCount(comments[j := c], q) == LiveCommentCount(comments, q)
  {
    forall q: nat
      ensures LiveCommentCount(comments[j := c], q) == LiveCommentCount(comments, q)
    {
      MatchingSameVerdict(comments[j := c], comments, LiveOnPost(q));
    }
  }

  // ---------------------------------------------------------------------------------------
  // get_comments and get_comment_replies
  // ---------------------------------------------------------------------------------------

  /** `WHERE post_id = p AND parent_id IS NULL AND is_deleted = FALSE`. */
  function TopLevelOn(p: nat): Comment -> bool {
    (c: Comment) => c.postId == p && c.parentId.None? && !c.isDeleted
  }

  /** The same rows, kept only when `JOIN users` finds their author. */
  function TopLevelShown(p: nat, users: map<nat, User>): Comment -> bool {
    (c: Comment) => c.postId == p && c.parentId.None? && !c.isDeleted && c.userId in users
  }

  /** `WHERE parent_id = id AND is_deleted = FALSE`. */
  function RepliesTo(id: nat): Comment -> bool {
    (c: Comment) => c.parentId == Some(id) && !c.isDeleted
  }

  function RepliesShown(id: nat, users: map<nat, User>): Comment -> bool {
    (c: Comment) => c.parentId == Some(id) && !c.isDeleted && c.userId in users
  }

  /** The live replies on a post: live rows of the post with a parent. */
  function RepliesOn(p: nat): Comment -> bool {
    (c: Comment) => c.postId == p && c.parentId.Some? && !c.isDeleted
  }

  datatype ReplyItem = ReplyItem(id: nat, comment: Comment, isLiked: bool)
  datatype CommentItem = CommentItem(id: nat, comment: Comment, isLiked: bool, replies: seq<ReplyItem>, replyCount: nat)
  datatype CommentPage = CommentPage(comments: seq<CommentItem>, total: nat, page: int, pageSize: int, hasMore: bool)
  datatype ReplyPage = ReplyPage(replies: seq<ReplyItem>, total: nat, page: int, pageSize: int, hasMore: bool)

  function LikedBy(likes: set<(nat, nat)>, viewerId: Option<nat>, id: nat): bool {
    Given(viewerId) && (viewerId.value, id) in likes
  }

  function ReplyOf(comments: seq<Comment>, likes: set<(nat, nat)>, viewerId: Option<nat>, id: nat): ReplyItem
    requires 1 <= id <= |comments|
  {
    ReplyItem(id, comments[id - 1], LikedBy(likes, viewerId, id))
  }

  /** The reply rows fetched for one page, turned into entries one by one. */
  method ReplyItems(comments: seq<Comment>, likes: set<(nat, nat)>, viewerId: Option<nat>, found: seq<nat>)
    returns (items: seq<ReplyItem>)
    requires forall m :: 0 <= m < |found| ==> 1 <= found[m] <= |comments|
    ensures |items| == |found|
    ensures forall m :: 0 <= m < |found| ==> items[m] == ReplyOf(comments, likes, viewerId, found[m])
  {
    items := [];
    var k := 0;
    while k < |found|
      invariant 0 <= k <= |found|
      invariant |items| == k
      invariant forall m :: 0 <= m < k ==> items[m] == ReplyOf(comments, likes, viewerId, found[m])
    {
      var id := found[k];
      var isLiked := false;
      if Given(viewerId) {
        isLiked := (viewerId.value, id) in likes;
      }
      items := items + [ReplyItem(id, comments[id - 1], isLiked)];
      k := k + 1;
    }
  }

  /** The first ReplyPreview ids of a list (LIMIT 3). */
  function Take(ids: seq<nat>, n: nat): (r: seq<nat>)
    ensures |r| == Min(n, |ids|) && r == ids[..|r|]
  {
    if |ids| <= n then ids else ids[..n]
  }

  /** One top-level entry: the viewer's like, its first live replies oldest first, its live reply count. */
  predicate IsCommentItem(item: CommentItem, comments: seq<Comment>, users: map<nat, User>,
                          likes: set<(nat, nat)>, viewerId: Option<nat>, id: nat)
    requires 1 <= id <= |comments|
  {
    var shown := Take(Matching(comments, RepliesShown(id, users)), ReplyPreview);
    item.id == id && item.comment == comments[id - 1] && item.isLiked == LikedBy(likes, viewerId, id)
    && item.replyCount == |Matching(comments, RepliesTo(id))|
    && |item.replies| == |shown|
    && forall j :: 0 <= j < |shown| ==> item.replies[j] == ReplyOf(comments, likes, viewerId, shown[j])
  }

  /** The outer loop of get_comments, with the nested loop over each comment's replies. */
  method CommentItems(comments: seq<Comment>, users: map<nat, User>, likes: set<(nat, nat)>,
                      viewerId: Option<nat>, found: seq<nat>) returns (items: seq<CommentItem>)
    requires forall m :: 0 <= m < |found| ==> 1 <= found[m] <= |comments|
    ensures |items| == |found|
    ensures forall m :: 0 <= m < |found| ==> IsCommentItem(items[m], comments, users, likes, viewerId, found[m])
  {
    items := [];
    var k := 0;
    while k < |found|
      invariant 0 <= k <= |found|
      invariant |items| == k
      invariant forall m :: 0 <= m < k ==> IsCommentItem(items[m], comments, users, likes, viewerId, found[m])
    {
      var item := CommentItemAt(comments, users, likes, viewerId, found[k]);
      ghost var before := items;
      items := items + [item];
      assert items[k] == item && forall m :: 0 <= m < k ==> items[m] == before[m];
      k := k + 1;
    }
  }

  /** One top-level entry, with its reply preview and reply count. */
  method CommentItemAt(comments: seq<Comment>, users: map<nat, User>, likes: set<(nat, nat)>,
                       viewerId: Option<nat>, id: nat) returns (item: CommentItem)
    requires 1 <= id <= |comments|
    ensures IsCommentItem(item, comments, users, likes, viewerId, id)
  {
    var isLiked := LikedBy(likes, viewerId, id);
    var shown := Take(Matching(comments, RepliesShown(id, users)), ReplyPreview);
    var replies := ReplyItems(comments, likes, viewerId, shown);
    var replyCount := |Matching(comments, RepliesTo(id))|;
    item := CommentItem(id, comments[id - 1], isLiked, replies, replyCount);
  }

  /** The ids of one page of get_comments' rows: newest first, LIMIT pageSize OFFSET offset. */
  function TopLevelIds(comments: seq<Comment>, users: map<nat, User>, postId: nat, pageSize: int, offset: int)
    : (r: Result<seq<nat>, DbError>)
    ensures r.Err? <==> pageSize < 0 || offset < 0
    ensures r.Ok? ==> forall k :: 0 <= k < |r.value| ==>
      1 <= r.value[k] <= |comments| && TopLevelShown(postId, users)(comments[r.value[k] - 1])
  {
    Page(NewestFirst(comments, TopLevelShown(postId, users)), pageSize, offset)
  }

  /** The ids of one page of get_comment_replies' rows: oldest first, LIMIT pageSize OFFSET offset. */
  function ReplyIds(comments: seq<Comment>, users: map<nat, User>, commentId: nat, pageSize: int, offset: int)
    : (r: Result<seq<nat>, DbError>)
    ensures r.Err? <==> pageSize < 0 || offset < 0
    ensures r.Ok? ==> forall k :: 0 <= k < |r.value| ==>
      1 <= r.value[k] <= |comments| && RepliesShown(commentId, users)(comments[r.value[k] - 1])
  {
    Page(Matching(comments, RepliesShown(commentId, users)), pageSize, offset)
  }

  /**
   * get_comments: one page of the post's live top-level comments newest first (authors found
   * in users), total = all live comments of the post, replies included, and has_more =
   * page * page_size < the number of live top-level comments. Errors are not caught.
   */
  method GetComments(db: Database, postId: nat, page: int, pageSize: int, viewerId: Option<nat>)
    returns (r: Result<CommentPage, DbError>)
    ensures r.Err? <==> pageSize < 0 || Offset(page, pageSize) < 0
    ensures r.Ok? ==>
      r.value.total == LiveCommentCount(db.comments, postId)
      && r.value.hasMore == (page * pageSize < |Matching(db.comments, TopLevelOn(postId))|)
      && r.value.page == page && r.value.pageSize == pageSize
    ensures r.Ok? ==>
      var rows := TopLevelIds(db.comments, db.users, postId, pageSize, Offset(page, pageSize));
      rows.Ok? && |r.value.comments| == |rows.value|
      && forall k :: 0 <= k < |rows.value| ==>
           IsCommentItem(r.value.comments[k], db.comments, db.users, db.commentLikes, viewerId, rows.value[k])
  {
    var rows := TopLevelIds(db.comments, db.users, postId, pageSize, Offset(page, pageSize));
    if rows.Err? {
      return Err(rows.error);
    }
    var found := rows.value;
    var total := |Matching(db.comments, LiveOnPost(postId))|;
    var topLevelTotal := |Matching(db.comments, TopLevelOn(postId))|;
    var items := CommentItems(db.comments, db.users, db.commentLikes, viewerId, found);
    r := Ok(CommentPage(items, total, page, pageSize, page * pageSize < topLevelTotal));
  }

  /**
   * get_comment_replies: one page of the live replies oldest first (authors found in users),
   * total = all live replies, has_more = page * page_size < total. Errors are not caught.
   */
  method GetCommentReplies(db: Database, commentId: nat, page: int, pageSize: int, viewerId: Option<nat>)
    returns (r: Result<ReplyPage, DbError>)
    ensures r.Err? <==> pageSize < 0 || Offset(page, pageSize) < 0
    ensures r.Ok? ==>
      r.value.total == |Matching(db.comments, RepliesTo(commentId))|
      && r.value.hasMore == (page * pageSize < r.value.total)
      && r.value.page == page && r.value.pageSize == pageSize
    ensures r.Ok? ==>
      var rows := ReplyIds(db.comments, db.users, commentId, pageSize, Offset(page, pageSize));
      rows.Ok? && |r.value.replies| == |rows.value|
      && forall k :: 0 <= k < |rows.value| ==>
           r.value.replies[k] == ReplyOf(db.comments, db.commentLikes, viewerId, rows.value[k])
  {
    var rows := ReplyIds(db.comments, db.users, commentId, pageSize, Offset(page, pageSize));
    if rows.Err? {
      return Err(rows.error);
    }
    var found := rows.value;
    var total := |Matching(db.comments, RepliesTo(commentId))|;
    var items := ReplyItems(db.comments, db.commentLikes, viewerId, found);
    r := Ok(ReplyPage(items, total, page, pageSize, page * pageSize < total));
  }

  /** The total of get_comments is its top-level total plus the post's live replies. */
  lemma {:induction false} TotalCountsReplies(comments: seq<Comment>, p: nat)
    ensures LiveCommentCount(comments, p) == |Matching(comments, TopLevelOn(p))| + |Matching(comments, RepliesOn(p))|
  {
    if comments != [] {
      var n := |comments| - 1;
      TotalCountsReplies(comments[..n], p);
      MatchingLast(comments, LiveOnPost(p));
      MatchingLast(comments, TopLevelOn(p));
      MatchingLast(comments, RepliesOn(p));
    }
  }

  /** Every entry a top-level comment carries is a live reply to it, at most three, oldest first. */
  lemma ShownRepliesAreLiveAndOrdered(comments: seq<Comment>, users: map<nat, User>, id: nat)
    ensures var shown := Take(Matching(comments, RepliesShown(id, users)), ReplyPreview);
      |shown| <= 3
      && (forall j :: 0 <= j < |shown| ==>
            1 <= shown[j] <= |comments| && comments[shown[j] - 1].parentId == Some(id) && !comments[shown[j] - 1].isDeleted)
      && (forall j, l :: 0 <= j < l < |shown| ==> shown[j] < shown[l])
  {
    var all := Matching(comments, RepliesShown(id, users));
    var shown := Take(all, ReplyPreview);
    assert forall j :: 0 <= j < |shown| ==> shown[j] == all[j];
  }
}
