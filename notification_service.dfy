/**
 * Notifications (python_api/services/notification_service.py): creation with self-suppression,
 * the paged list newest first, the unread count, and marking one or all as read.
 */
module NotificationService {
  import opened Wrappers
  import opened SocialDb
  import Levels

  function ForUser(u: nat): Notification -> bool {
    (n: Notification) => n.userId == u
  }

  function UnreadFor(u: nat): Notification -> bool {
    (n: Notification) => n.userId == u && !n.isRead
  }

  /** The rows `WHERE user_id = u AND is_read = FALSE`, counted. */
  function UnreadCount(ns: seq<Notification>, u: nat): nat {
    |Matching(ns, UnreadFor(u))|
  }

  /** The foreign keys of a new notifications row, all of them nullable except user_id. */
  predicate ReferencesExist(users: map<nat, User>, postCount: nat, commentCount: nat, userId: nat,
                            actorId: Option<nat>, postId: Option<nat>, commentId: Option<nat>)
  {
    userId in users
    && (actorId.Some? ==> actorId.value in users)
    && (postId.Some? ==> 1 <= postId.value <= postCount)
    && (commentId.Some? ==> 1 <= commentId.value <= commentCount)
  }

  /** `if actor_id and user_id == actor_id`: nobody is notified of their own action. */
  predicate SelfNotification(userId: nat, actorId: Option<nat>) {
    Given(actorId) && actorId.value == userId
  }

  /**
   * create_notification: suppressed for the actor themself; otherwise one unread row is
   * appended and its id returned, unless a foreign key fails, which the service reports as None.
   */
  method CreateNotification(db: Database, userId: nat, kind: string, actorId: Option<nat>, postId: Option<nat>,
                            commentId: Option<nat>, content: Option<string>, now: int) returns (r: Option<nat>)
    modifies db`notifications
    ensures SelfNotification(userId, actorId) ==> r.None? && db.notifications == old(db.notifications)
    ensures !SelfNotification(userId, actorId) && ReferencesExist(db.users, |db.posts|, |db.comments|, userId, actorId, postId, commentId) ==>
      r == Some(|old(db.notifications)| + 1)
      && db.notifications == old(db.notifications) + [Notification(userId, kind, actorId, postId, commentId, content, false, now)]
    ensures !SelfNotification(userId, actorId) && !ReferencesExist(db.users, |db.posts|, |db.comments|, userId, actorId, postId, commentId) ==>
      r.None? && db.notifications == old(db.notifications)
  {
    if SelfNotification(userId, actorId) {
      return None;
    }
    if !ReferencesExist(db.users, |db.posts|, |db.comments|, userId, actorId, postId, commentId) {
      return None;
    }
    db.notifications := db.notifications + [Notification(userId, kind, actorId, postId, commentId, content, false, now)];
    r := Some(|db.notifications|);
  }

  /** A new notification adds one to its recipient's unread count and nothing to anyone else's. */
  lemma UnreadAfterCreate(ns: seq<Notification>, n: Notification, u: nat)
    requires !n.isRead
    ensures UnreadCount(ns + [n], u) == UnreadCount(ns, u) + (if n.userId == u then 1 else 0)
  {
    MatchingAppend(ns, n, UnreadFor(u));
  }

  method GetUnreadCount(db: Database, userId: nat) returns (n: nat)
    ensures n == UnreadCount(db.notifications, userId)
  {
    n := |Matching(db.notifications, UnreadFor(userId))|;
  }

  /** mark_as_read: the row must match both the id and the owner; rowcount counts it even if already read. */
  method MarkAsRead(db: Database, notificationId: nat, userId: nat) returns (ok: bool)
    modifies db`notifications
    ensures ok <==> 1 <= notificationId <= |old(db.notifications)| && old(db.notifications)[notificationId - 1].userId == userId
    ensures ok ==> db.notifications == old(db.notifications)[notificationId - 1 := old(db.notifications)[notificationId - 1].(isRead := true)]
    ensures !ok ==> db.notifications == old(db.notifications)
  {
    if 1 <= notificationId <= |db.notifications| && db.notifications[notificationId - 1].userId == userId {
      db.notifications := db.notifications[notificationId - 1 := db.notifications[notificationId - 1].(isRead := true)];
      ok := true;
    } else {
      ok := false;
    }
  }

  /** Marking one notification read lowers its owner's unread count by at most one. */
  lemma MarkAsReadCount(ns: seq<Notification>, j: nat, u: nat)
    requires j < |ns|
    ensures UnreadCount(ns[j := ns[j].(isRead := true)], u) + (if ns[j].userId == u && !ns[j].isRead then 1 else 0)
         == UnreadCount(ns, u)
  {
    MatchingUpdateCount(ns, j, ns[j].(isRead := true), UnreadFor(u));
  }

  /** The notifications after `UPDATE ... SET is_read = TRUE WHERE user_id = u`. */
  function AllRead(ns: seq<Notification>, u: nat): (r: seq<Notification>)
    ensures |r| == |ns|
    ensures forall i :: 0 <= i < |ns| ==> r[i] == if ns[i].userId == u then ns[i].(isRead := true) else ns[i]
  {
    if ns == [] then []
    else
      var n := ns[|ns| - 1];
      AllRead(ns[..|ns| - 1], u) + [if n.userId == u then n.(isRead := true) else n]
  }

  /**
   * mark_all_as_read: every unread row of the user becomes read, one at a time, and the number
   * of rows changed is returned.
   */
  method MarkAllAsRead(db: Database, userId: nat) returns (changed: nat)
    modifies db`notifications
    ensures changed == UnreadCount(old(db.notifications), userId)
    ensures db.notifications == AllRead(old(db.notifications), userId)
    ensures UnreadCount(db.notifications, userId) == 0
    ensures forall v :: v != userId ==> UnreadCount(db.notifications, v) == UnreadCount(old(db.notifications), v)
  {
    var ns := db.notifications;
    var out: seq<Notification> := [];
    changed := 0;
    var k := 0;
    while k < |ns|
      invariant 0 <= k <= |ns|
      invariant out == AllRead(ns[..k], userId)
      invariant changed == UnreadCount(ns[..k], userId)
    {
      var n := ns[k];
      assert ns[..k + 1] == ns[..k] + [n];
      AllReadAppend(ns[..k], n, userId);
      UnreadAppend(ns[..k], n, userId);
      if n.userId == userId {
        if !n.isRead {
          changed := changed + 1;
        }
        out := out + [n.(isRead := true)];
      } else {
        out := out + [n];
      }
      k := k + 1;
    }
    assert ns[..k] == ns;
    db.notifications := out;
    AllReadCounts(ns, userId);
  }

  lemma AllReadAppend(ns: seq<Notification>, n: Notification, u: nat)
    ensures AllRead(ns + [n], u) == AllRead(ns, u) + [if n.userId == u then n.(isRead := true) else n]
  {
    assert (ns + [n])[..|ns|] == ns;
  }

  lemma UnreadAppend(ns: seq<Notification>, n: Notification, u: nat)
    ensures UnreadCount(ns + [n], u) == UnreadCount(ns, u) + (if n.userId == u && !n.isRead then 1 else 0)
  {
    MatchingAppend(ns, n, UnreadFor(u));
  }

  lemma AllReadCounts(ns: seq<Notification>, u: nat)
    ensures UnreadCount(AllRead(ns, u), u) == 0
    ensures forall v :: v != u ==> UnreadCount(AllRead(ns, u), v) == UnreadCount(ns, v)
  {
    MatchingNone(AllRead(ns, u), UnreadFor(u));
    forall v | v != u
      ensures UnreadCount(AllRead(ns, u), v) == UnreadCount(ns, v)
    {
      MatchingSameVerdict(AllRead(ns, u), ns, UnreadFor(v));
    }
  }

  // ---------------------------------------------------------------------------------------
  // get_notifications
  // ---------------------------------------------------------------------------------------

  /** The actor profile built from the LEFT JOIN, when the joined row has a (non-zero) id. */
  datatype Actor = Actor(
    id: nat,
    username: string,
    nickname: Option<string>,
    avatarUrl: Option<string>,
    points: int,
    level: int,
    levelName: string)

  function ActorOf(users: map<nat, User>, actorId: Option<nat>): (r: Option<Actor>)
    ensures r.Some? <==> Given(actorId) && actorId.value in users
    ensures r.Some? ==> r.value.id == actorId.value && r.value.username == users[actorId.value].username
    ensures r.Some? ==> r.value.nickname == users[actorId.value].nickname && r.value.avatarUrl == users[actorId.value].avatarUrl
    ensures r.Some? ==> r.value.points == users[actorId.value].points.GetOr(0)
    ensures r.Some? ==> r.value.level == (if users[actorId.value].level.Some? && users[actorId.value].level.value != 0
                                          then users[actorId.value].level.value else 1)
    ensures r.Some? ==> r.value.level >= 1 || r.value.level < 0
    ensures r.Some? ==> r.value.levelName == Levels.LevelName(r.value.level)
    ensures r.Some? && Levels.IsLevel(r.value.level) ==> r.value.levelName == Levels.LevelNames[r.value.level]
    ensures r.Some? && !Levels.IsLevel(r.value.level) ==> r.value.levelName == Levels.DefaultLevelName
  {
    if Given(actorId) && actorId.value in users then
      var u := users[actorId.value];
      Some(Actor(actorId.value, u.username, u.nickname, u.avatarUrl, PointsOr0(u), LevelOr1(u), Levels.LevelName(LevelOr1(u))))
    else None
  }

  datatype NotificationItem = NotificationItem(id: nat, notification: Notification, actor: Option<Actor>)
  datatype NotificationPage = NotificationPage(items: seq<NotificationItem>, total: nat, page: int, size: int)

  function ItemOf(ns: seq<Notification>, users: map<nat, User>, id: nat): NotificationItem
    requires 1 <= id <= |ns|
  {
    NotificationItem(id, ns[id - 1], ActorOf(users, ns[id - 1].actorId))
  }

  method NotificationItems(ns: seq<Notification>, users: map<nat, User>, found: seq<nat>) returns (items: seq<NotificationItem>)
    requires forall m :: 0 <= m < |found| ==> 1 <= found[m] <= |ns|
    ensures |items| == |found|
    ensures forall m :: 0 <= m < |found| ==> items[m] == ItemOf(ns, users, found[m])
  {
    items := [];
    var k := 0;
    while k < |found|
      invariant 0 <= k <= |found|
      invariant |items| == k
      invariant forall m :: 0 <= m < k ==> items[m] == ItemOf(ns, users, found[m])
    {
      var id := found[k];
      var actor := ActorOf(users, ns[id - 1].actorId);
      items := items + [NotificationItem(id, ns[id - 1], actor)];
      k := k + 1;
    }
  }

  /**
   * get_notifications: the user's total, and one page of their notifications newest first at
   * offset (page - 1) * size. A negative LIMIT or OFFSET is a database error the service lets through.
   */
  method GetNotifications(db: Database, userId: nat, page: int, size: int) returns (r: Result<NotificationPage, DbError>)
    ensures r.Err? <==> size < 0 || Offset(page, size) < 0
    ensures r.Ok? ==>
      r.value.total == |Matching(db.notifications, ForUser(userId))|
      && r.value.total == |NewestFirst(db.notifications, ForUser(userId))|
      && r.value.page == page && r.value.size == size
    ensures r.Ok? ==>
      var rows := Page(NewestFirst(db.notifications, ForUser(userId)), size, Offset(page, size));
      rows.Ok? && |r.value.items| == |rows.value|
      && forall k :: 0 <= k < |r.value.items| ==> r.value.items[k] == ItemOf(db.notifications, db.users, rows.value[k])
  {
    var total := |Matching(db.notifications, ForUser(userId))|;
    var ids := NewestFirst(db.notifications, ForUser(userId));
    NewestFirstCount(db.notifications, ForUser(userId));
    var offset := Offset(page, size);
    var rows := Page(ids, size, offset);
    if rows.Err? {
      return Err(rows.error);
    }
    var found := rows.value;
    var items := NotificationItems(db.notifications, db.users, found);
    r := Ok(NotificationPage(items, total, page, size));
  }
}
