/**
 * Points, check-ins and status (python_api/services/points_service.py): adding points under a
 * per-reason daily cap with a level that only rises, the daily check-in with its streak bonus,
 * and the status summary with the next level's threshold and the current streak.
 */
module PointsService {
  import opened Wrappers
  import opened SocialDb
  import Levels
  import Text

  /** DAILY_LIMITS: the most points a reason may earn a user per calendar day. */
  const DailyLimits: map<string, int> := map["发布帖子" := 50, "发表评论" := 30]

  const CheckinReason: string := "每日签到"
  const CheckinBase: int := 5
  const AlreadyCheckedIn: string := "今日已签到"

  /** `SELECT SUM(points) ... WHERE user_id = u AND reason = r AND created_at >= CURRENT_DATE`, NULL as 0. */
  function TodaySum(history: seq<HistoryRow>, userId: nat, reason: string, today: int): int {
    if history == [] then 0
    else
      var h := history[|history| - 1];
      TodaySum(history[..|history| - 1], userId, reason, today)
        + (if h.userId == userId && h.reason == reason && h.day >= today then h.points else 0)
  }

  lemma TodaySumAppend(history: seq<HistoryRow>, h: HistoryRow, userId: nat, reason: string, today: int)
    ensures TodaySum(history + [h], userId, reason, today)
         == TodaySum(history, userId, reason, today)
            + (if h.userId == userId && h.reason == reason && h.day >= today then h.points else 0)
  {
    assert (history + [h])[..|history|] == history;
  }

  /** The amount add_points credits once it has passed the cap check (`today < limit`). */
  function Clamped(points: int, today: int, limit: int): (r: int)
    requires today < limit
    ensures r == Min(points, limit - today)
    ensures today + r <= limit
    ensures points > 0 ==> r > 0
  {
    if today + points > limit then Max(0, limit - today) else points
  }

  /**
   * What add_points credits: None when a capped reason's day total has reached its limit,
   * else what is left under the limit for a capped reason and the full amount for any other.
   */
  function Granted(history: seq<HistoryRow>, userId: nat, points: int, reason: string, today: int): (r: Option<int>)
    ensures r.None? <==> reason in DailyLimits && TodaySum(history, userId, reason, today) >= DailyLimits[reason]
    ensures r.Some? && reason !in DailyLimits ==> r.value == points
    ensures r.Some? && reason in DailyLimits ==>
      r.value == Min(points, DailyLimits[reason] - TodaySum(history, userId, reason, today))
  {
    if reason !in DailyLimits then Some(points)
    else
      var today' := TodaySum(history, userId, reason, today);
      if today' >= DailyLimits[reason] then None else Some(Clamped(points, today', DailyLimits[reason]))
  }

  /** The users table after `SET points = COALESCE(points, 0) + n` and the conditional level update. */
  function WithPoints(users: map<nat, User>, userId: nat, points: int, now: int): map<nat, User> {
    if userId in users then users[userId := PointsAdded(users[userId], points, now)] else users
  }

  /** The two UPDATEs of add_points: a missing user matches no row. */
  method CreditUser(db: Database, userId: nat, points: int, now: int)
    modifies db`users
    ensures db.users == WithPoints(old(db.users), userId, points, now)
    ensures old(db.Consistent()) ==> db.Consistent()
  {
    if userId in db.users {
      ghost var consistent := FollowCountsMatch(db.users, db.follows);
      var u := PointsAdded(db.users[userId], points, now);
      if consistent {
        FollowCountsKept(db.users, db.follows, userId, u);
      }
      db.users := db.users[userId := u];
    }
  }

  /**
   * add_points: a refused grant writes nothing; a granted one appends a history row of exactly
   * the granted amount and credits it to the user. A missing user still gets the history row,
   * since the UPDATE then matches no row.
   */
  method AddPoints(db: Database, userId: nat, points: int, reason: string, today: int, now: int) returns (ok: bool)
    modifies db`pointsHistory, db`users
    ensures ok <==> Granted(old(db.pointsHistory), userId, points, reason, today).Some?
    ensures !ok ==> db.pointsHistory == old(db.pointsHistory) && db.users == old(db.users)
    ensures ok ==>
      db.pointsHistory == old(db.pointsHistory)
        + [HistoryRow(userId, Granted(old(db.pointsHistory), userId, points, reason, today).value, reason, today)]
    ensures ok ==>
      db.users == WithPoints(old(db.users), userId, Granted(old(db.pointsHistory), userId, points, reason, today).value, now)
    ensures old(db.Consistent()) ==> db.Consistent()
  {
    var amount := points;
    if reason in DailyLimits {
      var limit := DailyLimits[reason];
      var todayPoints := TodaySum(db.pointsHistory, userId, reason, today);
      if todayPoints >= limit {
        return false;
      }
      if todayPoints + amount > limit {
        amount := Max(0, limit - todayPoints);
      }
    }
    db.pointsHistory := db.pointsHistory + [HistoryRow(userId, amount, reason, today)];
    CreditUser(db, userId, amount, now);
    ok := true;
  }

  /** A granted capped reason never takes the day's total past its limit. */
  lemma GrantStaysUnderLimit(history: seq<HistoryRow>, userId: nat, points: int, reason: string, today: int)
    requires reason in DailyLimits && Granted(history, userId, points, reason, today).Some?
    ensures var h := HistoryRow(userId, Granted(history, userId, points, reason, today).value, reason, today);
      TodaySum(history + [h], userId, reason, today) <= DailyLimits[reason]
  {
    var h := HistoryRow(userId, Granted(history, userId, points, reason, today).value, reason, today);
    TodaySumAppend(history, h, userId, reason, today);
  }

  /** Once a capped reason's day total reaches its limit, every later grant that day is refused. */
  lemma CapHolds(history: seq<HistoryRow>, userId: nat, points: int, reason: string, today: int, more: int)
    requires reason in DailyLimits && Granted(history, userId, points, reason, today).Some?
    requires points >= DailyLimits[reason] - TodaySum(history, userId, reason, today)
    ensures var h := HistoryRow(userId, Granted(history, userId, points, reason, today).value, reason, today);
      Granted(history + [h], userId, more, reason, today).None?
  {
    var h := HistoryRow(userId, Granted(history, userId, points, reason, today).value, reason, today);
    TodaySumAppend(history, h, userId, reason, today);
  }

  /** Quota left under a capped reason's limit; full grants while it lasts, never beyond it. */
  lemma CapIsReachedExactly(points: int, today: int, limit: int)
    requires today < limit && points > 0
    ensures today + Clamped(points, today, limit) == if today + points <= limit then today + points else limit
  {
  }

  /** The history row of a successful add_points carries the amount added to the user's total. */
  lemma HistoryMatchesCredit(u: User, credited: int, now: int)
    ensures PointsOr0(PointsAdded(u, credited, now)) == PointsOr0(u) + credited
  {
  }

  // ---------------------------------------------------------------------------------------
  // daily_checkin
  // ---------------------------------------------------------------------------------------

  /** The streak after checking in today: yesterday's consecutive_days + 1, or a fresh 1. */
  function Streak(checkins: map<(nat, int), CheckinRow>, userId: nat, today: int): int {
    if (userId, today - 1) in checkins then checkins[(userId, today - 1)].consecutiveDays + 1 else 1
  }

  /** The consecutive-check-in bonus. */
  function Bonus(streak: int): (r: int)
    ensures streak >= 7 ==> r == 10
    ensures 3 <= streak < 7 ==> r == 3
    ensures streak < 3 ==> r == 0
  {
    if streak >= 7 then 10 else if streak >= 3 then 3 else 0
  }

  lemma BonusMonotone(s: int, t: int)
    requires s <= t
    ensures Bonus(s) <= Bonus(t)
  {
  }

  datatype CheckinResult = CheckinResult(success: bool, points: int, streak: int, message: string)

  /** `f"签到成功！积分 +{total}"`, with the bonus note when there is a bonus. */
  function CheckinMessage(total: nat, bonus: nat): (r: string)
    ensures bonus == 0 ==> r == "签到成功！积分 +" + Text.NatToString(total)
    ensures bonus > 0 ==> r == "签到成功！积分 +" + Text.NatToString(total) + " (含连续签到奖励 +" + Text.NatToString(bonus) + ")"
  {
    var message := "签到成功！积分 +" + Text.NatToString(total);
    if bonus > 0 then message + " (含连续签到奖励 +" + Text.NatToString(bonus) + ")" else message
  }

  /**
   * daily_checkin: a second check-in on the same day is refused and changes nothing. Otherwise
   * today's row records the streak and the points earned (5 plus the bonus), and those points
   * are credited under the uncapped check-in reason.
   */
  method DailyCheckin(db: Database, userId: nat, today: int, now: int) returns (r: CheckinResult)
    modifies db`checkins, db`pointsHistory, db`users
    ensures (userId, today) in old(db.checkins) ==>
      r == CheckinResult(false, 0, 0, AlreadyCheckedIn) && db.checkins == old(db.checkins)
      && db.pointsHistory == old(db.pointsHistory) && db.users == old(db.users)
    ensures (userId, today) !in old(db.checkins) ==>
      var streak := Streak(old(db.checkins), userId, today);
      var total := CheckinBase + Bonus(streak);
      r.success && r.streak == streak && r.points == total
      && r.message == CheckinMessage(total, Bonus(streak))
      && db.checkins == old(db.checkins)[(userId, today) := CheckinRow(streak, total)]
      && db.pointsHistory == old(db.pointsHistory) + [HistoryRow(userId, total, CheckinReason, today)]
      && db.users == WithPoints(old(db.users), userId, total, now)
    ensures (userId, today) in db.checkins
    ensures old(db.Consistent()) ==> db.Consistent()
  {
    if (userId, today) in db.checkins {
      return CheckinResult(false, 0, 0, AlreadyCheckedIn);
    }
    var streak := 1;
    if (userId, today - 1) in db.checkins {
      streak := db.checkins[(userId, today - 1)].consecutiveDays + 1;
    }
    var bonus := 0;
    if streak >= 7 {
      bonus := 10;
    } else if streak >= 3 {
      bonus := 3;
    }
    var total := CheckinBase + bonus;
    db.checkins := db.checkins[(userId, today) := CheckinRow(streak, total)];
    var _ := AddPoints(db, userId, total, CheckinReason, today, now);
    r := CheckinResult(true, total, streak, CheckinMessage(total, bonus));
  }

  /** A day's check-in earns 5, 8 or 15 points. */
  lemma CheckinPointsRange(checkins: map<(nat, int), CheckinRow>, userId: nat, today: int)
    ensures var total := CheckinBase + Bonus(Streak(checkins, userId, today));
      total == 5 || total == 8 || total == 15
  {
  }

  /** A streak continued from yesterday is one longer than yesterday's. */
  lemma StreakContinues(checkins: map<(nat, int), CheckinRow>, userId: nat, today: int, n: int)
    requires (userId, today - 1) in checkins && checkins[(userId, today - 1)].consecutiveDays == n
    ensures Streak(checkins, userId, today) == n + 1
    ensures Streak(checkins[(userId, today) := CheckinRow(n + 1, CheckinBase + Bonus(n + 1))], userId, today + 1) == n + 2
  {
  }

  /** The message of a seventh consecutive check-in. */
  lemma SeventhDayMessage()
    ensures CheckinMessage(15, 10) == "签到成功！积分 +15 (含连续签到奖励 +10)"
  {
    assert Text.NatToString(15) == "15";
    assert Text.NatToString(10) == "10";
  }

  // ---------------------------------------------------------------------------------------
  // get_user_status
  // ---------------------------------------------------------------------------------------

  /** The `levels` table get_user_status keeps for itself. */
  const StatusLevels: map<int, int> := map[1 := 0, 2 := 100, 3 := 500, 4 := 2000, 5 := 5000, 6 := 10000]

  lemma StatusLevelsAreLevelPoints()
    ensures StatusLevels == Levels.LevelPoints
  {
  }

  datatype UserStatus = UserStatus(
    points: int,
    level: int,
    levelName: string,
    isCheckedIn: bool,
    streakDays: int,
    nextLevelPoints: Option<int>)

  /** What get_user_status raises: the KeyError of `levels[next_level]` for a negative level. */
  datatype StatusError = MissingLevelKey(key: int)

  /**
   * get_user_status: the defaults for a missing user, else the user's points and level (as
   * `or 0` / `or 1` read them), the level's name, and the next level's threshold (None at the
   * top); today's streak if checked in today, else yesterday's, else 0.
   */
  method GetUserStatus(db: Database, userId: nat, today: int) returns (r: Result<UserStatus, StatusError>)
    ensures userId !in db.users ==>
      r.Ok? && r.value.points == 0 && r.value.level == 1
      && r.value.levelName == Levels.DefaultLevelName && r.value.nextLevelPoints == Some(100)
    ensures r.Err? <==> userId in db.users && LevelOr1(db.users[userId]) < 0
    ensures r.Ok? && userId in db.users ==>
      var u := db.users[userId];
      r.value.points == PointsOr0(u) && r.value.level == LevelOr1(u)
      && r.value.levelName == Levels.LevelName(r.value.level)
      && (r.value.level < Levels.MaxLevel ==>
            r.value.level + 1 in Levels.LevelPoints
            && r.value.nextLevelPoints == Some(Levels.LevelPoints[r.value.level + 1]))
      && (r.value.level >= Levels.MaxLevel ==> r.value.nextLevelPoints.None?)
    ensures r.Ok? ==> (r.value.isCheckedIn <==> (userId, today) in db.checkins)
    ensures r.Ok? && (userId, today) in db.checkins ==> r.value.streakDays == db.checkins[(userId, today)].consecutiveDays
    ensures r.Ok? && (userId, today) !in db.checkins ==>
      r.value.streakDays == if (userId, today - 1) in db.checkins then db.checkins[(userId, today - 1)].consecutiveDays else 0
  {
    var points := 0;
    var level := 1;
    var levelName := Levels.DefaultLevelName;
    var isCheckedIn := false;
    var streakDays := 0;
    var nextLevelPoints: Option<int> := Some(100);
    if userId in db.users {
      var u := db.users[userId];
      points := PointsOr0(u);
      level := LevelOr1(u);
      levelName := Levels.LevelName(level);
      var nextLevel := level + 1;
      if nextLevel <= 6 {
        if nextLevel !in StatusLevels {
          return Err(MissingLevelKey(nextLevel));
        }
        nextLevelPoints := Some(StatusLevels[nextLevel]);
      } else {
        nextLevelPoints := None;
      }
    }
    if (userId, today) in db.checkins {
      isCheckedIn := true;
      streakDays := db.checkins[(userId, today)].consecutiveDays;
    } else if (userId, today - 1) in db.checkins {
      streakDays := db.checkins[(userId, today - 1)].consecutiveDays;
    }
    r := Ok(UserStatus(points, level, levelName, isCheckedIn, streakDays, nextLevelPoints));
  }

  /** Below the top level, the next threshold is still ahead of a user whose level matches their points. */
  lemma NextLevelAhead(points: int)
    requires Levels.CalculateLevel(points) < Levels.MaxLevel
    ensures Levels.CalculateLevel(points) + 1 in Levels.LevelPoints
    ensures points < Levels.LevelPoints[Levels.CalculateLevel(points) + 1]
  {
    Levels.CalculateLevelIsLargestMet(points);
  }
}
