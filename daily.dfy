/**
 * Daily actions (daily.service.ts): recording an act of worship with its
 * reward, the windows of recent actions, the streak of consecutive days,
 * and the quote of the day.
 *
 * Timestamps are integer milliseconds; "midnight" is the start of the
 * 24-hour day holding a timestamp (one fixed time zone, no daylight saving).
 */
module Daily {
  import opened Ordering
  import opened Store
  import opened XpLevel
  import Users

  const MS_PER_DAY: nat := 1000 * 60 * 60 * 24

  /** The day number of a timestamp. */
  function DayOf(t: int): int {
    t / MS_PER_DAY
  }

  /** `setHours(0, 0, 0, 0)`: the midnight that starts the day of `t`. */
  function StartOfDay(t: int): (s: int)
    ensures s <= t < s + MS_PER_DAY
    ensures s == DayOf(t) * MS_PER_DAY
  {
    DayOf(t) * MS_PER_DAY
  }

  lemma DayMonotone(a: int, b: int)
    requires a <= b
    ensures DayOf(a) <= DayOf(b)
  {
    assert StartOfDay(a) < StartOfDay(b) + MS_PER_DAY;
  }

  /** A timestamp lies in the day of `now` exactly when it lies between that day's midnight and the next. */
  lemma SameDay(t: int, now: int)
    ensures DayOf(t) == DayOf(now) <==> StartOfDay(now) <= t < StartOfDay(now) + MS_PER_DAY
  {
    assert StartOfDay(t) <= t < StartOfDay(t) + MS_PER_DAY;
  }

  datatype Rewards = Rewards(xp: nat, coins: nat)

  /** getActionRewards: the reward table, with a default for every other type. */
  function GetActionRewards(actionType: ActionType): (r: Rewards)
    ensures actionType == Prayer ==> r == Rewards(50, 10)
    ensures actionType == Tasbeeh ==> r == Rewards(30, 5)
    ensures actionType == Charity ==> r == Rewards(100, 20)
    ensures actionType == Azkar ==> r == Rewards(40, 8)
    ensures actionType.OtherAction? ==> r == Rewards(10, 2)
  {
    match actionType
    case Prayer => Rewards(50, 10)
    case Tasbeeh => Rewards(30, 5)
    case Charity => Rewards(100, 20)
    case Azkar => Rewards(40, 8)
    case OtherAction(_) => Rewards(10, 2)
  }

  /**
   * recordAction: always appends one row stamped `now`, with no check for
   * an earlier action of the same type on the same day, then credits the
   * type's XP (which recomputes the level and may emit a level-up event)
   * and the type's coins.
   */
  method RecordAction(db: Db, userId: nat, actionType: ActionType, now: int)
    returns (action: DailyAction, rewards: Rewards)
    requires db.Valid()
    requires userId in db.users
    requires forall i :: 0 <= i < |db.actions| ==> db.actions[i].createdAt <= now
    modifies db`actions, db`users, db`events
    ensures db.Valid()
    ensures action == DailyAction(userId, actionType, now)
    ensures rewards == GetActionRewards(actionType)
    ensures db.actions == old(db.actions) + [action]
    ensures
      var u := old(db.users)[userId];
      var xp := u.xp + rewards.xp;
      && db.users == old(db.users)[userId := u.(xp := xp, level := CalculateLevel(xp), coins := u.coins + rewards.coins)]
      && db.events == old(db.events) + Users.LevelUpEvents(userId, u.level, CalculateLevel(xp))
  {
    action := DailyAction(userId, actionType, now);
    AppendAction(db, action);
    rewards := GetActionRewards(actionType);
    Credit(db, userId, rewards);
  }

  /** The two increments of recordAction: `addXp`, then `addCoins`. */
  method Credit(db: Db, userId: nat, rewards: Rewards)
    requires db.Valid()
    requires userId in db.users
    modifies db`users, db`events
    ensures db.Valid()
    ensures
      var u := old(db.users)[userId];
      var xp := u.xp + rewards.xp;
      && db.users == old(db.users)[userId := u.(xp := xp, level := CalculateLevel(xp), coins := u.coins + rewards.coins)]
      && db.events == old(db.events) + Users.LevelUpEvents(userId, u.level, CalculateLevel(xp))
  {
    var _ := Users.AddXp(db, userId, rewards.xp);
    var _ := Users.AddCoins(db, userId, rewards.coins);
  }

  /** `dailyAction.create`: the row joins the log, which stays in timestamp order. */
  method AppendAction(db: Db, action: DailyAction)
    requires db.Valid()
    requires forall i :: 0 <= i < |db.actions| ==> db.actions[i].createdAt <= action.createdAt
    modifies db`actions
    ensures db.Valid()
    ensures db.actions == old(db.actions) + [action]
  {
    db.actions := db.actions + [action];
  }

  /** Positions in the log of the user's actions stamped at or after `since`, newest first. */
  function IndicesSince(actions: seq<DailyAction>, userId: nat, since: int): (r: seq<nat>)
    ensures forall i :: 0 <= i < |r| ==> r[i] < |actions|
    ensures forall i :: i in r <==> 0 <= i < |actions| && actions[i].userId == userId && actions[i].createdAt >= since
    ensures forall i, j :: 0 <= i < j < |r| ==> r[i] > r[j]
  {
    var r := Descending(set i | 0 <= i < |actions| && actions[i].userId == userId && actions[i].createdAt >= since);
    assert forall i :: 0 <= i < |r| ==> r[i] in r;
    r
  }

  /**
   * `findMany({ where: { userId, createdAt: { gte: since } }, orderBy:
   * { createdAt: 'desc' } })`: every such row of the log, each once, the
   * latest first. On a chronological log the timestamps do not increase
   * along the result.
   */
  function ActionsSince(actions: seq<DailyAction>, userId: nat, since: int): (r: seq<DailyAction>)
    ensures forall a :: a in r ==> a in actions && a.userId == userId && a.createdAt >= since
    ensures
      var idx := IndicesSince(actions, userId, since);
      && |r| == |idx|
      && forall i :: 0 <= i < |idx| ==> r[i] == actions[idx[i]]
    ensures Chronological(actions) ==> forall i, j :: 0 <= i < j < |r| ==> r[i].createdAt >= r[j].createdAt
  {
    var idx := IndicesSince(actions, userId, since);
    var r := Pick(actions, idx);
    assert forall a :: a in r ==> exists i :: 0 <= i < |idx| && a == actions[idx[i]];
    r
  }

  /** getUserActions: the user's actions of the last `days` days (7 by default), latest first. */
  function GetUserActions(actions: seq<DailyAction>, userId: nat, now: int, days: nat): (r: seq<DailyAction>)
    ensures forall a :: a in r ==> a in actions && a.userId == userId && now - a.createdAt <= days * MS_PER_DAY
    ensures forall i :: 0 <= i < |actions| && actions[i].userId == userId && now - actions[i].createdAt <= days * MS_PER_DAY ==>
      actions[i] in r
    ensures Chronological(actions) ==> forall i, j :: 0 <= i < j < |r| ==> r[i].createdAt >= r[j].createdAt
    ensures
      var idx := IndicesSince(actions, userId, now - days * MS_PER_DAY);
      && |r| == |idx|
      && forall k :: 0 <= k < |r| ==> r[k] == actions[idx[k]]
  {
    var r := ActionsSince(actions, userId, now - days * MS_PER_DAY);
    forall i | 0 <= i < |actions| && actions[i].userId == userId && now - actions[i].createdAt <= days * MS_PER_DAY
      ensures actions[i] in r
    {
      var idx := IndicesSince(actions, userId, now - days * MS_PER_DAY);
      assert i in idx;
      var k :| 0 <= k < |idx| && idx[k] == i;
      assert r[k] == actions[i];
    }
    r
  }

  /**
   * getTodayActions: the user's actions stamped at or after today's
   * midnight, latest first; when no action lies in the future these are
   * exactly the user's actions of today.
   */
  function GetTodayActions(actions: seq<DailyAction>, userId: nat, now: int): (r: seq<DailyAction>)
    ensures forall a :: a in r ==> a in actions && a.userId == userId && a.createdAt >= StartOfDay(now)
    ensures forall i :: 0 <= i < |actions| && actions[i].userId == userId && DayOf(actions[i].createdAt) == DayOf(now) ==>
      actions[i] in r
    ensures (forall a :: a in actions ==> a.createdAt <= now) ==>
      forall a :: a in r ==> DayOf(a.createdAt) == DayOf(now)
    ensures Chronological(actions) ==> forall i, j :: 0 <= i < j < |r| ==> r[i].createdAt >= r[j].createdAt
    ensures
      var idx := IndicesSince(actions, userId, StartOfDay(now));
      && |r| == |idx|
      && forall k :: 0 <= k < |r| ==> r[k] == actions[idx[k]]
  {
    var since := StartOfDay(now);
    TodayRowsIncluded(actions, userId, now);
    var r := ActionsSince(actions, userId, since);
    forall a | a in r && a.createdAt <= now ensures DayOf(a.createdAt) == DayOf(now) {
      SameDay(a.createdAt, now);
    }
    r
  }

  /** Every row of the user dated today is among the rows since today's midnight. */
  lemma TodayRowsIncluded(actions: seq<DailyAction>, userId: nat, now: int)
    ensures forall i :: 0 <= i < |actions| && actions[i].userId == userId && DayOf(actions[i].createdAt) == DayOf(now) ==>
      actions[i] in ActionsSince(actions, userId, StartOfDay(now))
  {
    var r := ActionsSince(actions, userId, StartOfDay(now));
    var idx := IndicesSince(actions, userId, StartOfDay(now));
    forall i | 0 <= i < |actions| && actions[i].userId == userId && DayOf(actions[i].createdAt) == DayOf(now)
      ensures actions[i] in r
    {
      SameDay(actions[i].createdAt, now);
      assert i in idx;
      var k :| 0 <= k < |idx| && idx[k] == i;
      assert r[k] == actions[i];
    }
  }

  ghost predicate NonDecreasing(s: seq<int>) {
    forall i, j :: 0 <= i < j < |s| ==> s[i] <= s[j]
  }

  /** Positions of the latest 365 actions of the user and type, newest first. */
  function LatestOfType(actions: seq<DailyAction>, userId: nat, actionType: ActionType): (r: seq<nat>)
    ensures |r| <= 365
    ensures forall i :: 0 <= i < |r| ==>
      r[i] < |actions| && actions[r[i]].userId == userId && actions[r[i]].actionType == actionType
    ensures forall i, j :: 0 <= i < j < |r| ==> r[i] > r[j]
    ensures forall i :: 0 <= i < |actions| && actions[i].userId == userId && actions[i].actionType == actionType && i !in r ==>
      |r| == 365 && forall k :: 0 <= k < |r| ==> i < r[k]
  {
    var matching := set i | 0 <= i < |actions| && actions[i].userId == userId && actions[i].actionType == actionType;
    TakeDescending(matching, 365);
    Take(Descending(matching), 365)
  }

  /** How many days before `now` each of the latest 365 actions of the user and type lies, latest first. */
  function StreakOffsets(actions: seq<DailyAction>, userId: nat, actionType: ActionType, now: int): (r: seq<int>)
    ensures |r| <= 365
    ensures
      var idx := LatestOfType(actions, userId, actionType);
      && |r| == |idx|
      && forall k :: 0 <= k < |r| ==> r[k] == DayOf(now) - DayOf(actions[idx[k]].createdAt)
    ensures Chronological(actions) ==> NonDecreasing(r)
  {
    var idx := LatestOfType(actions, userId, actionType);
    var r := seq(|idx|, k requires 0 <= k < |idx| => DayOf(now) - DayOf(actions[idx[k]].createdAt));
    forall i, j | 0 <= i < j < |r| && Chronological(actions) ensures r[i] <= r[j] {
      DayMonotone(actions[idx[j]].createdAt, actions[idx[i]].createdAt);
    }
    r
  }

  /**
   * The streak the loop of getStreak computes: walking the offsets, one
   * equal to the streak so far extends it, a smaller one (another action
   * on a day already counted) is skipped, and a larger one (a missed day)
   * ends the walk. Every day 0 .. streak-1 occurs; on offsets in ascending
   * order the day `streak` does not, so no longer run of days exists.
   */
  method CountStreak(offsets: seq<int>) returns (streak: nat)
    ensures streak <= |offsets|
    ensures forall d :: 0 <= d < streak ==> d in offsets
    ensures NonDecreasing(offsets) ==> streak !in offsets
  {
    streak := 0;
    var i := 0;
    while i < |offsets|
      invariant 0 <= i <= |offsets|
      invariant streak <= i
      invariant forall d :: 0 <= d < streak ==> d in offsets[..i]
      invariant forall j :: 0 <= j < i ==> offsets[j] < streak
    {
      assert offsets[..i + 1] == offsets[..i] + [offsets[i]];
      if offsets[i] == streak {
        streak := streak + 1;
      } else if offsets[i] > streak {
        assert NonDecreasing(offsets) ==> forall j :: i <= j < |offsets| ==> offsets[j] > streak;
        assert offsets == offsets[..i] + offsets[i..];
        assert forall d :: 0 <= d < streak ==> d in offsets by {
          forall d | 0 <= d < streak ensures d in offsets {
            assert d in offsets[..i];
          }
        }
        return;
      }
      i := i + 1;
    }
    assert offsets[..i] == offsets;
  }

  /** `k` is the length of the run of days 0 .. k-1 that all occur, ended by a missing day k. */
  ghost predicate IsStreak(offsets: seq<int>, k: nat) {
    (forall d :: 0 <= d < k ==> d in offsets) && k !in offsets
  }

  /** The run is unique: the streak is the largest k with days 0 .. k-1 all present. */
  lemma StreakUnique(offsets: seq<int>, k1: nat, k2: nat)
    requires IsStreak(offsets, k1) && IsStreak(offsets, k2)
    ensures k1 == k2
  {
    assert k1 < k2 ==> k1 in offsets;
    assert k2 < k1 ==> k2 in offsets;
  }

  /** A further action on a day that is already present leaves the streak as it was. */
  lemma SameDayKeepsStreak(offsets: seq<int>, d: int, k: nat)
    requires d in offsets
    ensures IsStreak(offsets, k) <==> IsStreak(offsets + [d], k)
  {
    assert forall x :: x in offsets + [d] <==> x in offsets;
  }

  /**
   * getStreak: on a chronological log, the number of consecutive days,
   * ending today, with an action of the type among the user's latest 365
   * such actions; 0 when there is none today.
   */
  method GetStreak(actions: seq<DailyAction>, userId: nat, actionType: ActionType, now: int) returns (streak: nat)
    ensures streak <= 365
    ensures Chronological(actions) ==> IsStreak(StreakOffsets(actions, userId, actionType, now), streak)
    ensures Chronological(actions) && (forall i :: 0 <= i < |actions| ==> actions[i].createdAt <= now) ==>
      (streak > 0 <==> DoneToday(actions, userId, actionType, now))
  {
    var offsets := StreakOffsets(actions, userId, actionType, now);
    streak := CountStreak(offsets);
    if Chronological(actions) && (forall i :: 0 <= i < |actions| ==> actions[i].createdAt <= now) {
      StreakIffDoneToday(actions, userId, actionType, now, streak);
    }
  }

  /** The user has an action of the type stamped on the day of `now`. */
  ghost predicate DoneToday(actions: seq<DailyAction>, userId: nat, actionType: ActionType, now: int) {
    exists i :: 0 <= i < |actions| && actions[i].userId == userId && actions[i].actionType == actionType &&
      DayOf(actions[i].createdAt) == DayOf(now)
  }

  /**
   * On a chronological log with no action after `now`, the streak is
   * positive exactly when the user has an action of the type today, even
   * though only the latest 365 such actions are looked at.
   */
  lemma StreakIffDoneToday(actions: seq<DailyAction>, userId: nat, actionType: ActionType, now: int, k: nat)
    requires Chronological(actions)
    requires forall i :: 0 <= i < |actions| ==> actions[i].createdAt <= now
    requires IsStreak(StreakOffsets(actions, userId, actionType, now), k)
    ensures k > 0 <==> DoneToday(actions, userId, actionType, now)
  {
    if k > 0 {
      CountedIsToday(actions, userId, actionType, now);
    }
    if DoneToday(actions, userId, actionType, now) {
      TodayCounted(actions, userId, actionType, now);
    }
  }

  /** Day 0 among the offsets comes from an action of the type today. */
  lemma CountedIsToday(actions: seq<DailyAction>, userId: nat, actionType: ActionType, now: int)
    requires 0 in StreakOffsets(actions, userId, actionType, now)
    ensures DoneToday(actions, userId, actionType, now)
  {
    var offsets := StreakOffsets(actions, userId, actionType, now);
    var idx := LatestOfType(actions, userId, actionType);
    var j :| 0 <= j < |offsets| && offsets[j] == 0;
    assert DayOf(actions[idx[j]].createdAt) == DayOf(now);
  }

  /** An action of the type today puts day 0 among the offsets. */
  lemma TodayCounted(actions: seq<DailyAction>, userId: nat, actionType: ActionType, now: int)
    requires Chronological(actions)
    requires forall i :: 0 <= i < |actions| ==> actions[i].createdAt <= now
    requires DoneToday(actions, userId, actionType, now)
    ensures 0 in StreakOffsets(actions, userId, actionType, now)
  {
    var offsets := StreakOffsets(actions, userId, actionType, now);
    var idx := LatestOfType(actions, userId, actionType);
    var i :| 0 <= i < |actions| && actions[i].userId == userId && actions[i].actionType == actionType &&
      DayOf(actions[i].createdAt) == DayOf(now);
    if i in idx {
      var j :| 0 <= j < |idx| && idx[j] == i;
      assert offsets[j] == 0;
    } else {
      assert i < idx[0];
      DayMonotone(actions[i].createdAt, actions[idx[0]].createdAt);
      DayMonotone(actions[idx[0]].createdAt, now);
      assert offsets[0] == 0;
    }
  }

  const QUOTES: seq<string> := [
    "Verily, with hardship comes ease. - Quran 94:6",
    "The best among you are those who have the best manners. - Prophet Muhammad (PBUH)",
    "Do not lose hope, nor be sad. - Quran 3:139",
    "Allah does not burden a soul beyond that it can bear. - Quran 2:286",
    "The strong person is not the one who can wrestle someone else down. The strong person is the one who can control himself when he is angry. - Prophet Muhammad (PBUH)"
  ]

  /** getQuoteOfTheDay: the quote at `dayOfYear % 5`, always a valid position, repeating every five days. */
  function QuoteOfTheDay(dayOfYear: nat): (q: string)
    ensures 0 <= dayOfYear % |QUOTES| < |QUOTES|
    ensures q in QUOTES
    ensures q == QUOTES[dayOfYear % |QUOTES|]
  {
    QUOTES[dayOfYear % |QUOTES|]
  }
}
