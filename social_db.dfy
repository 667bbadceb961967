/**
 * The community database (python_api/database/migrations.py, python_api/database/connection.py)
 * as in-memory tables: one field of class Database per table. SERIAL tables are sequences in
 * insertion order, so the row with id i is at index i - 1 and "ORDER BY created_at" is index
 * order; the two partial unique indexes on likes and the UNIQUE constraint on follows make those
 * tables sets of pairs (follows keeps its creation order as a duplicate-free sequence).
 *
 * The counters that the services maintain next to the rows (likes_count, comments_count,
 * followers_count, following_count) are related to the rows they count by the predicates
 * LikeCountsMatch, CommentCountsMatch and FollowCountsMatch; the services preserve them.
 */
module SocialDb {
  import opened Wrappers
  import Levels

  datatype User = User(
    username: string,
    email: string,
    nickname: Option<string>,
    avatarUrl: Option<string>,
    bio: Option<string>,
    hometown: Option<string>,
    dialect: Option<string>,
    points: Option<int>,       // nullable INT DEFAULT 0
    level: Option<int>,        // nullable INT DEFAULT 1
    followersCount: int,
    followingCount: int,
    updatedAt: int)

  datatype Post = Post(
    userId: nat,
    content: string,
    audioUrl: Option<string>,
    dialectTag: Option<string>,
    likesCount: int,
    commentsCount: int,
    isDeleted: bool,
    createdAt: int,
    updatedAt: int)

  datatype Comment = Comment(
    postId: nat,
    userId: nat,
    parentId: Option<nat>,
    content: string,
    audioUrl: Option<string>,
    likesCount: int,
    isDeleted: bool,
    createdAt: int)

  datatype Notification = Notification(
    userId: nat,
    kind: string,
    actorId: Option<nat>,
    postId: Option<nat>,
    commentId: Option<nat>,
    content: Option<string>,
    isRead: bool,
    createdAt: int)

  /** A points_history row; `day` is the calendar day of its created_at. */
  datatype HistoryRow = HistoryRow(userId: nat, points: int, reason: string, day: int)

  /** A user_checkins row, keyed by (user_id, checkin_date). */
  datatype CheckinRow = CheckinRow(consecutiveDays: int, pointsEarned: int)

  /** A verification_codes row. */
  datatype CodeRow = CodeRow(email: string, code: string, purpose: string, expiresAt: int, used: bool, createdAt: int)

  /** The answer of a like toggle: whether the like now exists, and the new counter. */
  datatype LikeState = LikeState(isLiked: bool, likesCount: int)

  /** The database errors the services let through or turn into a failure result. */
  datatype DbError = ForeignKeyViolation | NegativeLimitOrOffset

  class Database {
    var users: map<nat, User>
    var posts: seq<Post>
    var comments: seq<Comment>
    var postLikes: set<(nat, nat)>       // (user_id, post_id)
    var commentLikes: set<(nat, nat)>    // (user_id, comment_id)
    var follows: seq<(nat, nat)>         // (follower_id, following_id), oldest first
    var notifications: seq<Notification>
    var pointsHistory: seq<HistoryRow>
    var checkins: map<(nat, int), CheckinRow>
    var codes: seq<CodeRow>

    /** An empty database, as after the migrations. */
    constructor ()
      ensures users == map[] && posts == [] && comments == [] && postLikes == {} && commentLikes == {}
      ensures follows == [] && notifications == [] && pointsHistory == [] && checkins == map[] && codes == []
    {
      users := map[];
      posts := [];
      comments := [];
      postLikes := {};
      commentLikes := {};
      follows := [];
      notifications := [];
      pointsHistory := [];
      checkins := map[];
      codes := [];
    }

    /** Every counter equals the number of rows it counts. */
    predicate Consistent()
      reads this
    {
      LikeCountsMatch(posts, postLikes) && CommentLikeCountsMatch(comments, commentLikes)
      && CommentCountsMatch(posts, comments) && FollowCountsMatch(users, follows)
      && NoDuplicates(follows)
    }
  }

  /** Python truthiness of an optional id: given and non-zero. */
  predicate Given(x: Option<nat>) {
    x.Some? && x.value != 0
  }

  /** COALESCE(points, 0) and `points or 0`, which agree on integers. */
  function PointsOr0(u: User): int {
    u.points.GetOr(0)
  }

  /** `level or 1`: NULL and 0 both read as 1. */
  function LevelOr1(u: User): int {
    if u.level.None? || u.level.value == 0 then 1 else u.level.value
  }

  /** UserPublicProfile as the services fill it from a users row (python_api/models/user.py). */
  datatype PublicProfile = PublicProfile(
    id: nat,
    username: string,
    nickname: Option<string>,
    avatarUrl: Option<string>,
    bio: Option<string>,
    hometown: Option<string>,
    dialect: Option<string>,
    points: int,
    level: int,
    levelName: string,
    followersCount: int,
    followingCount: int,
    isFollowing: bool)

  /** The profile of user `id`: NULL points read as 0, NULL or 0 level as 1, the name looked up. */
  function PublicProfileOf(id: nat, u: User, isFollowing: bool): (r: PublicProfile)
    ensures r.id == id && r.username == u.username && r.isFollowing == isFollowing
    ensures r.nickname == u.nickname && r.avatarUrl == u.avatarUrl && r.bio == u.bio
    ensures r.hometown == u.hometown && r.dialect == u.dialect
    ensures r.followersCount == u.followersCount && r.followingCount == u.followingCount
    ensures u.points.Some? ==> r.points == u.points.value
    ensures u.points.None? ==> r.points == 0
    ensures r.level != 0 && (u.level.Some? && u.level.value != 0 ==> r.level == u.level.value)
    ensures Levels.IsLevel(r.level) ==> r.levelName == Levels.LevelNames[r.level]
    ensures !Levels.IsLevel(r.level) ==> r.levelName == Levels.DefaultLevelName
  {
    PublicProfile(id, u.username, u.nickname, u.avatarUrl, u.bio, u.hometown, u.dialect,
                  PointsOr0(u), LevelOr1(u), Levels.LevelName(LevelOr1(u)),
                  u.followersCount, u.followingCount, isFollowing)
  }

  /**
   * `SET level = new WHERE level IS NULL OR level < new`: the stored level after the points
   * services' guarded update, which can only raise it.
   */
  function RaisedLevel(level: Option<int>, computed: int): (r: Option<int>)
    ensures level.None? ==> r == Some(computed)
    ensures level.Some? ==> r.Some? && r.value >= level.value && r.value >= computed
    ensures level.Some? ==> r.value == level.value || r.value == computed
  {
    if level.None? || level.value < computed then Some(computed) else level
  }

  /**
   * The row after the points services' `SET points = COALESCE(points, 0) + n, updated_at = NOW()`
   * followed by the guarded level update.
   */
  function PointsAdded(u: User, points: int, now: int): (r: User)
    ensures r.points == Some(PointsOr0(u) + points)
    ensures r.level == RaisedLevel(u.level, Levels.CalculateLevel(PointsOr0(u) + points))
    ensures r == u.(points := r.points, level := r.level, updatedAt := now)
  {
    var total := PointsOr0(u) + points;
    u.(points := Some(total), level := RaisedLevel(u.level, Levels.CalculateLevel(total)), updatedAt := now)
  }

  function Max(a: int, b: int): int {
    if a >= b then a else b
  }

  function Min(a: int, b: int): int {
    if a <= b then a else b
  }

  // ---------------------------------------------------------------------------------------
  // Row selection, ordering and LIMIT/OFFSET
  // ---------------------------------------------------------------------------------------

  /** The ids (index + 1) of the rows that satisfy keep, in ascending order. */
  function Matching<T>(rows: seq<T>, keep: T -> bool): (r: seq<nat>)
    ensures |r| <= |rows|
    ensures forall k :: 0 <= k < |r| ==> 1 <= r[k] <= |rows| && keep(rows[r[k] - 1])
    ensures forall k, l :: 0 <= k < l < |r| ==> r[k] < r[l]
  {
    if rows == [] then []
    else
      var init := Matching(rows[..|rows| - 1], keep);
      if keep(rows[|rows| - 1]) then init + [|rows|] else init
  }

  /** No row that satisfies keep is missing from Matching. */
  lemma {:induction false} MatchingComplete<T>(rows: seq<T>, keep: T -> bool, i: nat)
    requires i < |rows| && keep(rows[i])
    ensures i + 1 in Matching(rows, keep)
  {
    var n := |rows| - 1;
    if i < n {
      assert rows[..n][i] == rows[i];
      MatchingComplete(rows[..n], keep, i);
    }
  }

  lemma MatchingAppend<T>(rows: seq<T>, x: T, keep: T -> bool)
    ensures Matching(rows + [x], keep) == Matching(rows, keep) + (if keep(x) then [|rows| + 1] else [])
  {
    assert (rows + [x])[..|rows|] == rows;
  }

  /** Replacing one row changes the number of matches only by that row's own verdicts. */
  lemma MatchingUpdateCount<T>(rows: seq<T>, j: nat, x: T, keep: T -> bool)
    requires j < |rows|
    ensures |Matching(rows[j := x], keep)| + (if keep(rows[j]) then 1 else 0)
         == |Matching(rows, keep)| + (if keep(x) then 1 else 0)
  {
    MatchingIsCount(rows, keep);
    MatchingIsCount(rows[j := x], keep);
    CountUpdate(rows, j, x, keep);
  }

  /** The number of rows that satisfy keep. */
  function CountOf<T>(rows: seq<T>, keep: T -> bool): nat {
    if rows == [] then 0 else CountOf(rows[..|rows| - 1], keep) + (if keep(rows[|rows| - 1]) then 1 else 0)
  }

  lemma {:induction false} MatchingIsCount<T>(rows: seq<T>, keep: T -> bool)
    ensures |Matching(rows, keep)| == CountOf(rows, keep)
  {
    if rows != [] {
      MatchingIsCount(rows[..|rows| - 1], keep);
    }
  }

  lemma {:induction false} CountUpdate<T>(rows: seq<T>, j: nat, x: T, keep: T -> bool)
    requires j < |rows|
    ensures CountOf(rows[j := x], keep) + (if keep(rows[j]) then 1 else 0)
         == CountOf(rows, keep) + (if keep(x) then 1 else 0)
  {
    var n := |rows| - 1;
    var rows' := rows[j := x];
    if j < n {
      assert rows'[..n] == rows[..n][j := x];
      CountUpdate(rows[..n], j, x, keep);
    } else {
      assert rows'[..n] == rows[..n];
    }
  }

  lemma MatchingLast<T>(rows: seq<T>, keep: T -> bool)
    requires rows != []
    ensures |Matching(rows, keep)| == |Matching(rows[..|rows| - 1], keep)| + (if keep(rows[|rows| - 1]) then 1 else 0)
  {
  }

  lemma {:induction false} MatchingNone<T>(rows: seq<T>, keep: T -> bool)
    requires forall i :: 0 <= i < |rows| ==> !keep(rows[i])
    ensures Matching(rows, keep) == []
  {
    if rows != [] {
      MatchingNone(rows[..|rows| - 1], keep);
    }
  }

  /** A change that keeps every row's verdict keeps the matches. */
  lemma {:induction false} MatchingSameVerdict<T>(rows: seq<T>, rows': seq<T>, keep: T -> bool)
    requires |rows| == |rows'|
    requires forall i :: 0 <= i < |rows| ==> keep(rows[i]) == keep(rows'[i])
    ensures Matching(rows, keep) == Matching(rows', keep)
  {
    if rows != [] {
      var n := |rows| - 1;
      MatchingSameVerdict(rows[..n], rows'[..n], keep);
    }
  }

  /** The ids of the rows that satisfy keep, newest (highest id) first. */
  function NewestFirst<T>(rows: seq<T>, keep: T -> bool): (r: seq<nat>)
    ensures forall k :: 0 <= k < |r| ==> 1 <= r[k] <= |rows| && keep(rows[r[k] - 1])
    ensures forall k, l :: 0 <= k < l < |r| ==> r[k] > r[l]
  {
    if rows == [] then []
    else
      var rest := NewestFirst(rows[..|rows| - 1], keep);
      if keep(rows[|rows| - 1]) then [|rows|] + rest else rest
  }

  /** No row that satisfies keep is missing from NewestFirst. */
  lemma {:induction false} NewestFirstComplete<T>(rows: seq<T>, keep: T -> bool, i: nat)
    requires i < |rows| && keep(rows[i])
    ensures i + 1 in NewestFirst(rows, keep)
  {
    if i < |rows| - 1 {
      NewestFirstComplete(rows[..|rows| - 1], keep, i);
    }
  }

  /** NewestFirst and Matching list the same rows. */
  lemma {:induction false} NewestFirstCount<T>(rows: seq<T>, keep: T -> bool)
    ensures |NewestFirst(rows, keep)| == |Matching(rows, keep)|
  {
    if rows != [] {
      NewestFirstCount(rows[..|rows| - 1], keep);
    }
  }

  function Reverse<T>(s: seq<T>): (r: seq<T>)
    ensures |r| == |s|
    ensures forall k :: 0 <= k < |s| ==> r[k] == s[|s| - 1 - k]
  {
    if s == [] then [] else [s[|s| - 1]] + Reverse(s[..|s| - 1])
  }

  /** `LIMIT limit OFFSET offset`; PostgreSQL rejects a negative bound. */
  function Page<T>(rows: seq<T>, limit: int, offset: int): (r: Result<seq<T>, DbError>)
    ensures r.Err? <==> limit < 0 || offset < 0
    ensures r.Ok? ==> |r.value| == Min(limit, Max(0, |rows| - offset))
    ensures r.Ok? ==> forall k :: 0 <= k < |r.value| ==> r.value[k] == rows[offset + k]
  {
    if limit < 0 || offset < 0 then Err(NegativeLimitOrOffset)
    else
      var lo := Min(offset, |rows|);
      var hi := Min(offset + limit, |rows|);
      Ok(rows[lo..hi])
  }

  /** The offset of page `page` (pages count from 1). */
  function Offset(page: int, size: int): int {
    (page - 1) * size
  }

  // ---------------------------------------------------------------------------------------
  // Likes
  // ---------------------------------------------------------------------------------------

  /** The like rows of one post (or one comment). */
  function LikesOf(likes: set<(nat, nat)>, target: nat): set<(nat, nat)> {
    set e | e in likes && e.1 == target
  }

  lemma LikesOfAdd(likes: set<(nat, nat)>, e: (nat, nat), target: nat)
    requires e !in likes
    ensures |LikesOf(likes + {e}, target)| == |LikesOf(likes, target)| + (if e.1 == target then 1 else 0)
  {
    if e.1 == target {
      assert LikesOf(likes + {e}, target) == LikesOf(likes, target) + {e};
    } else {
      assert LikesOf(likes + {e}, target) == LikesOf(likes, target);
    }
  }

  lemma LikesOfRemove(likes: set<(nat, nat)>, e: (nat, nat), target: nat)
    requires e in likes
    ensures |LikesOf(likes - {e}, target)| + (if e.1 == target then 1 else 0) == |LikesOf(likes, target)|
  {
    if e.1 == target {
      assert LikesOf(likes, target) == LikesOf(likes - {e}, target) + {e};
    } else {
      assert LikesOf(likes - {e}, target) == LikesOf(likes, target);
    }
  }

  /** Every like row refers to one of the first n posts (or comments): the foreign key. */
  predicate LikesReferTo(likes: set<(nat, nat)>, n: nat) {
    forall e :: e in likes ==> 1 <= e.1 <= n
  }

  /** A post or comment created after the others has no likes yet. */
  lemma LikesOfFresh(likes: set<(nat, nat)>, n: nat)
    requires LikesReferTo(likes, n)
    ensures LikesOf(likes, n + 1) == {} && LikesReferTo(likes, n + 1)
  {
  }

  predicate LikeCountsMatch(posts: seq<Post>, likes: set<(nat, nat)>) {
    LikesReferTo(likes, |posts|)
    && forall i :: 0 <= i < |posts| ==> posts[i].likesCount == |LikesOf(likes, i + 1)|
  }

  predicate CommentLikeCountsMatch(comments: seq<Comment>, likes: set<(nat, nat)>) {
    LikesReferTo(likes, |comments|)
    && forall i :: 0 <= i < |comments| ==> comments[i].likesCount == |LikesOf(likes, i + 1)|
  }

  // ---------------------------------------------------------------------------------------
  // Comments per post
  // ---------------------------------------------------------------------------------------

  /** The rows `WHERE post_id = p AND is_deleted = FALSE`. */
  function LiveOnPost(p: nat): Comment -> bool {
    (c: Comment) => c.postId == p && !c.isDeleted
  }

  function LiveCommentCount(comments: seq<Comment>, p: nat): nat {
    |Matching(comments, LiveOnPost(p))|
  }

  /** Every comment belongs to one of the posts: the foreign key. */
  predicate CommentsReferTo(comments: seq<Comment>, n: nat) {
    forall i :: 0 <= i < |comments| ==> 1 <= comments[i].postId <= n
  }

  predicate CommentCountsMatch(posts: seq<Post>, comments: seq<Comment>) {
    CommentsReferTo(comments, |posts|)
    && forall i :: 0 <= i < |posts| ==> posts[i].commentsCount == LiveCommentCount(comments, i + 1)
  }

  /** A post created after the others has no comments yet. */
  lemma LiveCommentsFresh(comments: seq<Comment>, n: nat)
    requires CommentsReferTo(comments, n)
    ensures LiveCommentCount(comments, n + 1) == 0 && CommentsReferTo(comments, n + 1)
  {
    MatchingNone(comments, LiveOnPost(n + 1));
  }

  /** `SELECT ... FROM posts WHERE id = p AND is_deleted = FALSE` finds a row. */
  predicate LivePost(posts: seq<Post>, p: nat) {
    1 <= p <= |posts| && !posts[p - 1].isDeleted
  }

  /** `SELECT ... FROM comments WHERE id = c AND is_deleted = FALSE` finds a row. */
  predicate LiveComment(comments: seq<Comment>, c: nat) {
    1 <= c <= |comments| && !comments[c - 1].isDeleted
  }

  // ---------------------------------------------------------------------------------------
  // Follows
  // ---------------------------------------------------------------------------------------

  predicate NoDuplicates<T(==)>(s: seq<T>) {
    forall i, j :: 0 <= i < j < |s| ==> s[i] != s[j]
  }

  /** The followers of v, oldest follow first. */
  function Followers(follows: seq<(nat, nat)>, v: nat): (r: seq<nat>)
    ensures forall x :: x in r <==> (x, v) in follows
  {
    if follows == [] then []
    else
      var e := follows[|follows| - 1];
      Followers(follows[..|follows| - 1], v) + (if e.1 == v then [e.0] else [])
  }

  /** The users u follows, oldest follow first. */
  function Following(follows: seq<(nat, nat)>, u: nat): (r: seq<nat>)
    ensures forall x :: x in r <==> (u, x) in follows
  {
    if follows == [] then []
    else
      var e := follows[|follows| - 1];
      Following(follows[..|follows| - 1], u) + (if e.0 == u then [e.1] else [])
  }

  /** DELETE FROM follows WHERE (follower_id, following_id) = e, keeping the order of the rest. */
  function RemoveEdge(follows: seq<(nat, nat)>, e: (nat, nat)): (r: seq<(nat, nat)>)
    ensures forall x :: x in r <==> x in follows && x != e
  {
    if follows == [] then []
    else
      var last := follows[|follows| - 1];
      RemoveEdge(follows[..|follows| - 1], e) + (if last == e then [] else [last])
  }

  predicate FollowCountsMatch(users: map<nat, User>, follows: seq<(nat, nat)>) {
    forall u :: u in users ==>
      users[u].followersCount == |Followers(follows, u)| && users[u].followingCount == |Following(follows, u)|
  }

  lemma FollowersAppend(follows: seq<(nat, nat)>, e: (nat, nat), v: nat)
    ensures Followers(follows + [e], v) == Followers(follows, v) + (if e.1 == v then [e.0] else [])
    ensures Following(follows + [e], v) == Following(follows, v) + (if e.0 == v then [e.1] else [])
  {
    assert (follows + [e])[..|follows|] == follows;
  }

  /** Removing an edge that occurs once takes exactly one entry off each of its two lists. */
  lemma {:induction false} FollowersRemove(follows: seq<(nat, nat)>, e: (nat, nat), v: nat)
    requires NoDuplicates(follows) && e in follows
    ensures |Followers(RemoveEdge(follows, e), v)| + (if e.1 == v then 1 else 0) == |Followers(follows, v)|
    ensures |Following(RemoveEdge(follows, e), v)| + (if e.0 == v then 1 else 0) == |Following(follows, v)|
  {
    var n := |follows| - 1;
    var init := follows[..n];
    assert follows == init + [follows[n]];
    assert NoDuplicates(init);
    if follows[n] == e {
      assert e !in init;
      RemoveAbsent(init, e);
      assert RemoveEdge(follows, e) == init;
    } else {
      assert e in init;
      FollowersRemove(init, e, v);
    }
  }

  lemma {:induction false} RemoveAbsent(follows: seq<(nat, nat)>, e: (nat, nat))
    requires e !in follows
    ensures RemoveEdge(follows, e) == follows
  {
    if follows != [] {
      var n := |follows| - 1;
      RemoveAbsent(follows[..n], e);
      assert follows == follows[..n] + [follows[n]];
    }
  }

  /** Removing an edge just appended restores the table. */
  lemma RemoveAppended(follows: seq<(nat, nat)>, e: (nat, nat))
    requires e !in follows
    ensures RemoveEdge(follows + [e], e) == follows
  {
    assert (follows + [e])[..|follows|] == follows;
    RemoveAbsent(follows, e);
  }

  lemma NoDuplicatesRemove(follows: seq<(nat, nat)>, e: (nat, nat))
    requires NoDuplicates(follows)
    ensures NoDuplicates(RemoveEdge(follows, e))
  {
    if follows != [] {
      var n := |follows| - 1;
      var last := follows[n];
      NoDuplicatesRemove(follows[..n], e);
      assert last !in follows[..n];
      assert last !in RemoveEdge(follows[..n], e);
    }
  }

  // ---------------------------------------------------------------------------------------
  // Preservation under updates that do not touch what the predicates read
  // ---------------------------------------------------------------------------------------

  /** Changing a user's profile, points or level keeps the follow counters consistent. */
  lemma FollowCountsKept(users: map<nat, User>, follows: seq<(nat, nat)>, u: nat, x: User)
    requires FollowCountsMatch(users, follows) && u in users
    requires x.followersCount == users[u].followersCount && x.followingCount == users[u].followingCount
    ensures FollowCountsMatch(users[u := x], follows)
  {
  }
}
