/**
 * Follows (python_api/services/follow_service.py): following and unfollowing with the two
 * counters kept on users, the membership test, and the follower and following lists with their
 * is_following flags.
 */
module FollowService {
  import opened Wrappers
  import opened SocialDb

  /** The users after a follow: the followee gains a follower, the follower a followed user. */
  function Followed(users: map<nat, User>, follower: nat, following: nat): (r: map<nat, User>)
    requires follower in users && following in users && follower != following
    ensures r.Keys == users.Keys
    ensures r[following] == users[following].(followersCount := users[following].followersCount + 1)
    ensures r[follower] == users[follower].(followingCount := users[follower].followingCount + 1)
    ensures forall u :: u in users && u != follower && u != following ==> r[u] == users[u]
  {
    var a := users[follower];
    var b := users[following];
    users[following := b.(followersCount := b.followersCount + 1)][follower := a.(followingCount := a.followingCount + 1)]
  }

  /**
   * The users after an unfollow: the two `UPDATE ... SET c = GREATEST(c - 1, 0) WHERE id = x`
   * in order, each a no-op for a missing row.
   */
  function Unfollowed(users: map<nat, User>, follower: nat, following: nat): (r: map<nat, User>)
    ensures r.Keys == users.Keys
    ensures forall u :: u in users && u != follower && u != following ==> r[u] == users[u]
    ensures following in users && follower != following ==>
      r[following] == users[following].(followersCount := Max(users[following].followersCount - 1, 0))
    ensures follower in users && follower != following ==>
      r[follower] == users[follower].(followingCount := Max(users[follower].followingCount - 1, 0))
    ensures follower == following && follower in users ==>
      r[follower] == users[follower].(followersCount := Max(users[follower].followersCount - 1, 0),
                                      followingCount := Max(users[follower].followingCount - 1, 0))
  {
    var step := if following in users
                then users[following := users[following].(followersCount := Max(users[following].followersCount - 1, 0))]
                else users;
    if follower in step
    then step[follower := step[follower].(followingCount := Max(step[follower].followingCount - 1, 0))]
    else step
  }

  /** The follow tables stay consistent after inserting a new edge and the two increments. */
  lemma FollowKeeps(users: map<nat, User>, follows: seq<(nat, nat)>, follower: nat, following: nat)
    requires follower in users && following in users && follower != following
    requires (follower, following) !in follows
    ensures FollowCountsMatch(users, follows) && NoDuplicates(follows) ==>
      FollowCountsMatch(Followed(users, follower, following), follows + [(follower, following)])
      && NoDuplicates(follows + [(follower, following)])
  {
    if FollowCountsMatch(users, follows) && NoDuplicates(follows) {
      var e := (follower, following);
      var users' := Followed(users, follower, following);
      forall v | v in users'
        ensures users'[v].followersCount == |Followers(follows + [e], v)|
        ensures users'[v].followingCount == |Following(follows + [e], v)|
      {
        FollowersAppend(follows, e, v);
      }
    }
  }

  /** The follow tables stay consistent after deleting an edge and the two clamped decrements. */
  lemma UnfollowKeeps(users: map<nat, User>, follows: seq<(nat, nat)>, follower: nat, following: nat)
    requires (follower, following) in follows
    ensures FollowCountsMatch(users, follows) && NoDuplicates(follows) ==>
      FollowCountsMatch(Unfollowed(users, follower, following), RemoveEdge(follows, (follower, following)))
      && NoDuplicates(RemoveEdge(follows, (follower, following)))
  {
    if FollowCountsMatch(users, follows) && NoDuplicates(follows) {
      var e := (follower, following);
      var users' := Unfollowed(users, follower, following);
      forall v | v in users'
        ensures users'[v].followersCount == |Followers(RemoveEdge(follows, e), v)|
        ensures users'[v].followingCount == |Following(RemoveEdge(follows, e), v)|
      {
        FollowersRemove(follows, e, v);
      }
      NoDuplicatesRemove(follows, e);
    }
  }

  /**
   * follow_user: following oneself, or someone already followed, is refused with False and no
   * write. Otherwise the edge is inserted and both counters grow; an unknown user fails the
   * foreign key, the transaction is rolled back and the error is raised.
   */
  method Follow(db: Database, follower: nat, following: nat) returns (r: Result<bool, DbError>)
    modifies db`follows, db`users
    ensures follower == following || (follower, following) in old(db.follows) ==>
      r == Ok(false) && db.follows == old(db.follows) && db.users == old(db.users)
    ensures follower != following && (follower, following) !in old(db.follows)
            && (follower !in old(db.users) || following !in old(db.users)) ==>
      r == Err(ForeignKeyViolation) && db.follows == old(db.follows) && db.users == old(db.users)
    ensures follower != following && (follower, following) !in old(db.follows)
            && follower in old(db.users) && following in old(db.users) ==>
      r == Ok(true) && db.follows == old(db.follows) + [(follower, following)]
      && db.users == Followed(old(db.users), follower, following)
    ensures r == Ok(true) <==> (follower, following) in db.follows && (follower, following) !in old(db.follows)
    ensures old(db.Consistent()) ==> db.Consistent()
  {
    if follower == following {
      return Ok(false);
    }
    if (follower, following) in db.follows {
      return Ok(false);
    }
    if follower !in db.users || following !in db.users {
      return Err(ForeignKeyViolation);
    }
    FollowKeeps(db.users, db.follows, follower, following);
    db.follows := db.follows + [(follower, following)];
    db.users := Followed(db.users, follower, following);
    r := Ok(true);
  }

  /**
   * unfollow_user: False with no write when the edge is absent; otherwise the edge is deleted
   * and both counters drop by one, clamped at 0.
   */
  method Unfollow(db: Database, follower: nat, following: nat) returns (ok: bool)
    modifies db`follows, db`users
    ensures ok <==> (follower, following) in old(db.follows)
    ensures !ok ==> db.follows == old(db.follows) && db.users == old(db.users)
    ensures ok ==>
      db.follows == RemoveEdge(old(db.follows), (follower, following))
      && db.users == Unfollowed(old(db.users), follower, following)
    ensures (follower, following) !in db.follows
    ensures old(db.Consistent()) ==> db.Consistent()
  {
    if (follower, following) !in db.follows {
      return false;
    }
    UnfollowKeeps(db.users, db.follows, follower, following);
    db.follows := RemoveEdge(db.follows, (follower, following));
    db.users := Unfollowed(db.users, follower, following);
    ok := true;
  }

  method IsFollowing(db: Database, follower: nat, following: nat) returns (r: bool)
    ensures r <==> (follower, following) in db.follows
  {
    r := (follower, following) in db.follows;
  }

  /**
   * A follow followed by an unfollow of the same pair gives back the edge table and every
   * user's counters, which are never negative in a consistent database.
   */
  lemma FollowThenUnfollow(users: map<nat, User>, follows: seq<(nat, nat)>, follower: nat, following: nat)
    requires follower in users && following in users && follower != following
    requires (follower, following) !in follows
    requires users[follower].followingCount >= 0 && users[following].followersCount >= 0
    ensures RemoveEdge(follows + [(follower, following)], (follower, following)) == follows
    ensures Unfollowed(Followed(users, follower, following), follower, following) == users
  {
    RemoveAppended(follows, (follower, following));
    var back := Unfollowed(Followed(users, follower, following), follower, following);
    assert back.Keys == users.Keys;
    assert back[follower] == users[follower];
    assert back[following] == users[following];
  }

  /** In a consistent database the counters are never negative: they count rows. */
  lemma CountersNonNegative(users: map<nat, User>, follows: seq<(nat, nat)>, u: nat)
    requires FollowCountsMatch(users, follows) && u in users
    ensures users[u].followersCount >= 0 && users[u].followingCount >= 0
  {
  }

  // ---------------------------------------------------------------------------------------
  // get_followers and get_following
  // ---------------------------------------------------------------------------------------

  /** `follows f JOIN users u ON f.follower_id = u.id WHERE f.following_id = owner`. */
  function FollowerRow(owner: nat, users: map<nat, User>): ((nat, nat)) -> bool {
    (e: (nat, nat)) => e.1 == owner && e.0 in users
  }

  /** `follows f JOIN users u ON f.following_id = u.id WHERE f.follower_id = owner`. */
  function FollowingRow(owner: nat, users: map<nat, User>): ((nat, nat)) -> bool {
    (e: (nat, nat)) => e.0 == owner && e.1 in users
  }

  /** The ids of one page of get_followers' rows: newest follow first, LIMIT size OFFSET offset. */
  function FollowerIds(follows: seq<(nat, nat)>, users: map<nat, User>, owner: nat, size: int, offset: int)
    : (r: Result<seq<nat>, DbError>)
    ensures r.Err? <==> size < 0 || offset < 0
    ensures r.Ok? ==> forall k :: 0 <= k < |r.value| ==>
      1 <= r.value[k] <= |follows| && follows[r.value[k] - 1].1 == owner && follows[r.value[k] - 1].0 in users
  {
    Page(NewestFirst(follows, FollowerRow(owner, users)), size, offset)
  }

  /** The ids of one page of get_following's rows: newest follow first, LIMIT size OFFSET offset. */
  function FollowingIds(follows: seq<(nat, nat)>, users: map<nat, User>, owner: nat, size: int, offset: int)
    : (r: Result<seq<nat>, DbError>)
    ensures r.Err? <==> size < 0 || offset < 0
    ensures r.Ok? ==> forall k :: 0 <= k < |r.value| ==>
      1 <= r.value[k] <= |follows| && follows[r.value[k] - 1].0 == owner && follows[r.value[k] - 1].1 in users
  {
    Page(NewestFirst(follows, FollowingRow(owner, users)), size, offset)
  }

  /** get_followers' flag: queried only for a truthy viewer other than the listed user. */
  predicate FollowerFlag(follows: seq<(nat, nat)>, viewerId: Option<nat>, id: nat) {
    Given(viewerId) && viewerId.value != id && (viewerId.value, id) in follows
  }

  /** get_following's flag: true outright when the viewer owns the list, else queried as above. */
  predicate FollowingFlag(follows: seq<(nat, nat)>, viewerId: Option<nat>, owner: nat, id: nat) {
    Given(viewerId) && (viewerId.value == owner || (viewerId.value != id && (viewerId.value, id) in follows))
  }

  datatype FollowPage = FollowPage(items: seq<PublicProfile>, total: nat, page: int, size: int)

  function FollowerItem(users: map<nat, User>, follows: seq<(nat, nat)>, viewerId: Option<nat>, i: nat): PublicProfile
    requires 1 <= i <= |follows| && follows[i - 1].0 in users
  {
    var id := follows[i - 1].0;
    PublicProfileOf(id, users[id], FollowerFlag(follows, viewerId, id))
  }

  function FollowingItem(users: map<nat, User>, follows: seq<(nat, nat)>, viewerId: Option<nat>, owner: nat, i: nat): PublicProfile
    requires 1 <= i <= |follows| && follows[i - 1].1 in users
  {
    var id := follows[i - 1].1;
    PublicProfileOf(id, users[id], FollowingFlag(follows, viewerId, owner, id))
  }

  /** The loop of get_followers over the fetched rows. */
  method FollowerItems(users: map<nat, User>, follows: seq<(nat, nat)>, viewerId: Option<nat>, found: seq<nat>)
    returns (items: seq<PublicProfile>)
    requires forall m :: 0 <= m < |found| ==> 1 <= found[m] <= |follows| && follows[found[m] - 1].0 in users
    ensures |items| == |found|
    ensures forall m :: 0 <= m < |found| ==> items[m] == FollowerItem(users, follows, viewerId, found[m])
    ensures forall m :: 0 <= m < |items| && Given(viewerId) && items[m].id == viewerId.value ==> !items[m].isFollowing
  {
    items := [];
    var k := 0;
    while k < |found|
      invariant 0 <= k <= |found|
      invariant |items| == k
      invariant forall m :: 0 <= m < k ==> items[m] == FollowerItem(users, follows, viewerId, found[m])
    {
      var id := follows[found[k] - 1].0;
      var isFollowing := false;
      if Given(viewerId) && viewerId.value != id {
        isFollowing := (viewerId.value, id) in follows;
      }
      items := items + [PublicProfileOf(id, users[id], isFollowing)];
      k := k + 1;
    }
  }

  /** The loop of get_following over the fetched rows. */
  method FollowingItems(users: map<nat, User>, follows: seq<(nat, nat)>, viewerId: Option<nat>, owner: nat, found: seq<nat>)
    returns (items: seq<PublicProfile>)
    requires forall m :: 0 <= m < |found| ==> 1 <= found[m] <= |follows| && follows[found[m] - 1].1 in users
    ensures |items| == |found|
    ensures forall m :: 0 <= m < |found| ==> items[m] == FollowingItem(users, follows, viewerId, owner, found[m])
    ensures Given(viewerId) && viewerId.value == owner ==> forall m :: 0 <= m < |items| ==> items[m].isFollowing
  {
    items := [];
    var k := 0;
    while k < |found|
      invariant 0 <= k <= |found|
      invariant |items| == k
      invariant forall m :: 0 <= m < k ==> items[m] == FollowingItem(users, follows, viewerId, owner, found[m])
    {
      var id := follows[found[k] - 1].1;
      var isFollowing := false;
      if Given(viewerId) {
        if viewerId.value == owner {
          isFollowing := true;
        } else if viewerId.value != id {
          isFollowing := (viewerId.value, id) in follows;
        }
      }
      items := items + [PublicProfileOf(id, users[id], isFollowing)];
      k := k + 1;
    }
  }

  /**
   * get_followers: total counts every follow row of the user (no join); the page lists the
   * followers found in users, most recent follow first. A negative LIMIT or OFFSET raises.
   */
  method GetFollowers(db: Database, userId: nat, page: int, size: int, viewerId: Option<nat>)
    returns (r: Result<FollowPage, DbError>)
    ensures r.Err? <==> size < 0 || Offset(page, size) < 0
    ensures r.Ok? ==>
      r.value.total == |Followers(db.follows, userId)| && r.value.page == page && r.value.size == size
    ensures r.Ok? ==>
      var rows := FollowerIds(db.follows, db.users, userId, size, Offset(page, size));
      rows.Ok? && |r.value.items| == |rows.value|
      && forall k :: 0 <= k < |rows.value| ==> r.value.items[k] == FollowerItem(db.users, db.follows, viewerId, rows.value[k])
    ensures r.Ok? ==> forall k :: 0 <= k < |r.value.items| && Given(viewerId) && r.value.items[k].id == viewerId.value ==>
      !r.value.items[k].isFollowing
  {
    var rows := FollowerIds(db.follows, db.users, userId, size, Offset(page, size));
    if rows.Err? {
      return Err(rows.error);
    }
    var found := rows.value;
    var total := |Followers(db.follows, userId)|;
    var items := FollowerItems(db.users, db.follows, viewerId, found);
    r := Ok(FollowPage(items, total, page, size));
  }

  /**
   * get_following: total counts every follow row by the user; the page lists the followed users
   * found in users, most recent follow first. A negative LIMIT or OFFSET raises.
   */
  method GetFollowing(db: Database, userId: nat, page: int, size: int, viewerId: Option<nat>)
    returns (r: Result<FollowPage, DbError>)
    ensures r.Err? <==> size < 0 || Offset(page, size) < 0
    ensures r.Ok? ==>
      r.value.total == |Following(db.follows, userId)| && r.value.page == page && r.value.size == size
    ensures r.Ok? ==>
      var rows := FollowingIds(db.follows, db.users, userId, size, Offset(page, size));
      rows.Ok? && |r.value.items| == |rows.value|
      && forall k :: 0 <= k < |rows.value| ==> r.value.items[k] == FollowingItem(db.users, db.follows, viewerId, userId, rows.value[k])
    ensures r.Ok? && Given(viewerId) && viewerId.value == userId ==>
      forall k :: 0 <= k < |r.value.items| ==> r.value.items[k].isFollowing
  {
    var rows := FollowingIds(db.follows, db.users, userId, size, Offset(page, size));
    if rows.Err? {
      return Err(rows.error);
    }
    var found := rows.value;
    var total := |Following(db.follows, userId)|;
    var items := FollowingItems(db.users, db.follows, viewerId, userId, found);
    r := Ok(FollowPage(items, total, page, size));
  }

  /**
   * The owner's shortcut in get_following gives the same answer as the query it skips: every
   * row it lists is an edge from the owner, except for a self-follow row listing the owner.
   */
  lemma FollowingShortcutAgrees(follows: seq<(nat, nat)>, viewerId: Option<nat>, owner: nat, i: nat)
    requires 1 <= i <= |follows| && follows[i - 1].0 == owner
    requires Given(viewerId) && viewerId.value == owner && follows[i - 1].1 != owner
    ensures FollowingFlag(follows, viewerId, owner, follows[i - 1].1)
        == (viewerId.value != follows[i - 1].1 && (viewerId.value, follows[i - 1].1) in follows)
  {
    assert follows[i - 1] in follows;
  }
}
