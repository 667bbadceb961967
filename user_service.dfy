/**
 * User profiles (python_api/services/user_service.py): reading a profile, the public profile
 * with its is_following flag, the partial profile update, and adding points with a level that
 * only rises.
 */
module UserService {
  import opened Wrappers
  import opened SocialDb
  import Levels

  /** UserProfile (python_api/models/user.py): a user's own view, email included. */
  datatype UserProfile = UserProfile(
    id: nat,
    username: string,
    email: string,
    nickname: Option<string>,
    avatarUrl: Option<string>,
    bio: Option<string>,
    hometown: Option<string>,
    dialect: Option<string>,
    points: int,
    level: int,
    followersCount: int,
    followingCount: int)

  function ProfileOf(id: nat, u: User): (r: UserProfile)
    ensures r.id == id && r.username == u.username && r.email == u.email
    ensures r.nickname == u.nickname && r.avatarUrl == u.avatarUrl && r.bio == u.bio
    ensures r.hometown == u.hometown && r.dialect == u.dialect
    ensures r.followersCount == u.followersCount && r.followingCount == u.followingCount
    ensures u.points.Some? ==> r.points == u.points.value
    ensures u.points.None? ==> r.points == 0
    ensures r.level != 0 && (u.level.Some? && u.level.value != 0 ==> r.level == u.level.value)
    ensures u.level.None? || u.level.value == 0 ==> r.level == 1
  {
    UserProfile(id, u.username, u.email, u.nickname, u.avatarUrl, u.bio, u.hometown, u.dialect,
                PointsOr0(u), LevelOr1(u), u.followersCount, u.followingCount)
  }

  /** get_user_by_id. */
  method GetUserById(db: Database, userId: nat) returns (r: Option<UserProfile>)
    ensures r.Some? <==> userId in db.users
    ensures r.Some? ==> r.value == ProfileOf(userId, db.users[userId])
  {
    if userId !in db.users {
      return None;
    }
    r := Some(ProfileOf(userId, db.users[userId]));
  }

  /** get_public_profile's flag: looked up only for a truthy viewer other than the profiled user. */
  predicate ViewerFollows(follows: seq<(nat, nat)>, viewerId: Option<nat>, userId: nat) {
    Given(viewerId) && viewerId.value != userId && (viewerId.value, userId) in follows
  }

  /** get_public_profile. */
  method GetPublicProfile(db: Database, userId: nat, viewerId: Option<nat>) returns (r: Option<PublicProfile>)
    ensures r.Some? <==> userId in db.users
    ensures r.Some? ==> r.value == PublicProfileOf(userId, db.users[userId], r.value.isFollowing)
    ensures r.Some? ==> (r.value.isFollowing <==>
      viewerId.Some? && viewerId.value != 0 && viewerId.value != userId && (viewerId.value, userId) in db.follows)
  {
    if userId !in db.users {
      return None;
    }
    var isFollowing := false;
    if Given(viewerId) && viewerId.value != userId {
      isFollowing := (viewerId.value, userId) in db.follows;
    }
    r := Some(PublicProfileOf(userId, db.users[userId], isFollowing));
  }

  /** A user never shows as following themself on their own profile page. */
  lemma OwnProfileNotFollowed(follows: seq<(nat, nat)>, userId: nat)
    ensures !ViewerFollows(follows, Some(userId), userId)
  {
  }

  // ---------------------------------------------------------------------------------------
  // update_profile
  // ---------------------------------------------------------------------------------------

  /** UserProfileUpdate: every field optional, None meaning "leave as is". */
  datatype ProfileUpdate = ProfileUpdate(
    nickname: Option<string>,
    bio: Option<string>,
    hometown: Option<string>,
    dialect: Option<string>,
    avatarUrl: Option<string>)

  predicate NoFields(upd: ProfileUpdate) {
    upd.nickname.None? && upd.bio.None? && upd.hometown.None? && upd.dialect.None? && upd.avatarUrl.None?
  }

  /** A supplied value, or the current one. */
  function Override(current: Option<string>, supplied: Option<string>): (r: Option<string>)
    ensures supplied.Some? ==> r == supplied
    ensures supplied.None? ==> r == current
  {
    if supplied.Some? then supplied else current
  }

  /** The row after the UPDATE: the supplied columns and updated_at, nothing else. */
  function Updated(u: User, upd: ProfileUpdate, now: int): (r: User)
    ensures r.nickname == Override(u.nickname, upd.nickname) && r.bio == Override(u.bio, upd.bio)
    ensures r.hometown == Override(u.hometown, upd.hometown) && r.dialect == Override(u.dialect, upd.dialect)
    ensures r.avatarUrl == Override(u.avatarUrl, upd.avatarUrl)
    ensures r.updatedAt == now
    ensures r == u.(nickname := r.nickname, bio := r.bio, hometown := r.hometown, dialect := r.dialect,
                    avatarUrl := r.avatarUrl, updatedAt := now)
  {
    u.(nickname := Override(u.nickname, upd.nickname), bio := Override(u.bio, upd.bio),
       hometown := Override(u.hometown, upd.hometown), dialect := Override(u.dialect, upd.dialect),
       avatarUrl := Override(u.avatarUrl, upd.avatarUrl), updatedAt := now)
  }

  /** An update with no field supplied would change nothing but updated_at. */
  lemma EmptyUpdateKeepsFields(u: User, upd: ProfileUpdate, now: int)
    requires NoFields(upd)
    ensures Updated(u, upd, now) == u.(updatedAt := now)
  {
  }

  /** Applying the same update twice gives the row the first application gave. */
  lemma UpdateIdempotent(u: User, upd: ProfileUpdate, now: int)
    ensures Updated(Updated(u, upd, now), upd, now) == Updated(u, upd, now)
  {
  }

  /**
   * update_profile: the SET list holds one assignment per supplied field. With none, nothing is
   * written and the current profile (or None) is returned; otherwise the row, if any, gets the
   * supplied fields and a fresh updated_at, and the new profile is returned.
   */
  method UpdateProfile(db: Database, userId: nat, upd: ProfileUpdate, now: int) returns (r: Option<UserProfile>)
    modifies db`users
    ensures NoFields(upd) ==> db.users == old(db.users)
    ensures !NoFields(upd) && userId in old(db.users) ==>
      db.users == old(db.users)[userId := Updated(old(db.users)[userId], upd, now)]
    ensures !NoFields(upd) && userId !in old(db.users) ==> db.users == old(db.users)
    ensures r.Some? <==> userId in old(db.users)
    ensures r.Some? ==> userId in db.users && r.value == ProfileOf(userId, db.users[userId])
    ensures old(db.Consistent()) ==> db.Consistent()
  {
    var assignments: seq<string> := [];
    if upd.nickname.Some? { assignments := assignments + ["nickname"]; }
    if upd.bio.Some? { assignments := assignments + ["bio"]; }
    if upd.hometown.Some? { assignments := assignments + ["hometown"]; }
    if upd.dialect.Some? { assignments := assignments + ["dialect"]; }
    if upd.avatarUrl.Some? { assignments := assignments + ["avatar_url"]; }
    assert assignments == [] <==> NoFields(upd);
    if assignments == [] {
      r := GetUserById(db, userId);
      return;
    }
    if userId !in db.users {
      return None;
    }
    var u := Updated(db.users[userId], upd, now);
    if FollowCountsMatch(db.users, db.follows) {
      FollowCountsKept(db.users, db.follows, userId, u);
    }
    db.users := db.users[userId := u];
    r := GetUserById(db, userId);
  }

  // ---------------------------------------------------------------------------------------
  // add_points
  // ---------------------------------------------------------------------------------------

  /**
   * add_points: None for a missing user; otherwise the points are added, the level is written
   * only when the computed level is higher (or the level is NULL), and the profile returned.
   */
  method AddPoints(db: Database, userId: nat, points: int, now: int) returns (r: Option<UserProfile>)
    modifies db`users
    ensures userId !in old(db.users) ==> r.None? && db.users == old(db.users)
    ensures userId in old(db.users) ==>
      db.users == old(db.users)[userId := PointsAdded(old(db.users)[userId], points, now)]
      && r == Some(ProfileOf(userId, db.users[userId]))
    ensures userId in old(db.users) && old(db.users)[userId].level.Some? ==>
      db.users[userId].level.Some? && db.users[userId].level.value >= old(db.users)[userId].level.value
    ensures old(db.Consistent()) ==> db.Consistent()
  {
    if userId !in db.users {
      return None;
    }
    var u := db.users[userId];
    var newPoints := PointsOr0(u) + points;
    var withPoints := u.(points := Some(newPoints), updatedAt := now);
    var newLevel := Levels.CalculateLevel(newPoints);
    var stored := withPoints;
    if withPoints.level.None? || withPoints.level.value < newLevel {
      stored := withPoints.(level := Some(newLevel));
    }
    assert stored == PointsAdded(u, points, now);
    if FollowCountsMatch(db.users, db.follows) {
      FollowCountsKept(db.users, db.follows, userId, stored);
    }
    db.users := db.users[userId := stored];
    r := GetUserById(db, userId);
  }

  /** Adding no points leaves points as they were (NULL becoming 0) and never lowers the level. */
  lemma AddingNothingKeepsLevel(u: User, now: int)
    requires u.level.Some? && Levels.IsLevel(u.level.value)
    requires u.level.value >= Levels.CalculateLevel(PointsOr0(u))
    ensures PointsAdded(u, 0, now).level == u.level
  {
  }
}
