/**
 * Badges (badges.service.ts): awarding a badge at most once per user, and
 * the two event handlers that award level-milestone and challenge badges.
 */
module Badges {
  import opened Outcomes
  import opened Ordering
  import opened Store

  /** The badge rows after the user is given the badge: one new row unless the user already holds it. */
  function WithBadge(userBadges: seq<UserBadge>, userId: nat, badgeId: nat): (r: seq<UserBadge>)
    ensures UserBadge(userId, badgeId) in r
    ensures forall b :: b in r <==> b in userBadges || b == UserBadge(userId, badgeId)
    ensures UserBadge(userId, badgeId) in userBadges ==> r == userBadges
    ensures UserBadge(userId, badgeId) !in userBadges ==> r == userBadges + [UserBadge(userId, badgeId)]
  {
    if UserBadge(userId, badgeId) in userBadges then userBadges else userBadges + [UserBadge(userId, badgeId)]
  }

  /** Giving the same badge twice leaves the rows as giving it once. */
  lemma WithBadgeIdempotent(userBadges: seq<UserBadge>, userId: nat, badgeId: nat)
    ensures WithBadge(WithBadge(userBadges, userId, badgeId), userId, badgeId) == WithBadge(userBadges, userId, badgeId)
  {
  }

  /**
   * awardBadge: NotFound for an unknown badge, Conflict when the user
   * already holds it, and nothing changes on either; otherwise exactly one
   * row joining the user to the badge is added. A user therefore holds each
   * badge at most once.
   */
  method AwardBadge(db: Db, userId: nat, badgeId: nat) returns (r: Result<UserBadge>)
    requires db.Valid()
    modifies db`userBadges
    ensures db.Valid()
    ensures badgeId !in db.badges ==> r == Err(NotFound)
    ensures badgeId in db.badges && UserBadge(userId, badgeId) in old(db.userBadges) ==> r == Err(Conflict)
    ensures r.Err? ==> db.userBadges == old(db.userBadges)
    ensures badgeId in db.badges && UserBadge(userId, badgeId) !in old(db.userBadges) ==>
      r == Ok(UserBadge(userId, badgeId)) && db.userBadges == old(db.userBadges) + [r.value]
    ensures badgeId in db.badges ==> db.userBadges == WithBadge(old(db.userBadges), userId, badgeId)
  {
    if badgeId !in db.badges {
      return Err(NotFound);
    }
    var userBadge := UserBadge(userId, badgeId);
    if userBadge in db.userBadges {
      return Err(Conflict);
    }
    db.userBadges := db.userBadges + [userBadge];
    r := Ok(userBadge);
  }

  const LEVEL_MILESTONES: seq<nat> := [5, 10, 25, 50, 100]

  function DigitChar(d: nat): (c: char)
    requires d < 10
    ensures '0' <= c <= '9' && c as int - '0' as int == d
  {
    ('0' as int + d) as char
  }

  /** The decimal digits of n, as a template literal writes a whole number. */
  function DecimalString(n: nat): (s: string)
    ensures |s| >= 1
    ensures forall i :: 0 <= i < |s| ==> '0' <= s[i] <= '9'
    ensures s[0] == '0' ==> n == 0
    decreases n
  {
    if n < 10 then [DigitChar(n)] else DecimalString(n / 10) + [DigitChar(n % 10)]
  }

  /** The number a string of decimal digits denotes. */
  function ParseDecimal(s: string): nat
    requires forall i :: 0 <= i < |s| ==> '0' <= s[i] <= '9'
  {
    if s == [] then 0 else ParseDecimal(s[..|s| - 1]) * 10 + (s[|s| - 1] as int - '0' as int)
  }

  /** DecimalString loses nothing: distinct levels get distinct badge names. */
  lemma {:induction false} ParseDecimalString(n: nat)
    ensures ParseDecimal(DecimalString(n)) == n
    decreases n
  {
    if n >= 10 {
      var s := DecimalString(n);
      assert s[..|s| - 1] == DecimalString(n / 10);
      ParseDecimalString(n / 10);
    }
  }

  /** `Level ${newLevel} Master`. */
  function LevelBadgeName(level: nat): string {
    "Level " + DecimalString(level) + " Master"
  }

  /** Badge names of different levels differ. */
  lemma LevelBadgeNameInjective(a: nat, b: nat)
    requires LevelBadgeName(a) == LevelBadgeName(b)
    ensures a == b
  {
    var sa, sb := DecimalString(a), DecimalString(b);
    assert |sa| == |sb|;
    assert sa == LevelBadgeName(a)[6..6 + |sa|];
    assert sb == LevelBadgeName(b)[6..6 + |sb|];
    ParseDecimalString(a);
    ParseDecimalString(b);
  }

  /** `${challenge.title} Champion`. */
  function ChampionBadgeName(title: string): string {
    title + " Champion"
  }

  /** `badge.findFirst({ where: { name } })`: the lowest-id badge with that name. */
  function FindBadgeByName(badges: map<nat, Badge>, name: string): (r: Option<nat>)
    ensures r.None? <==> forall b :: b in badges ==> badges[b].name != name
    ensures r.Some? ==> r.value in badges && badges[r.value].name == name
    ensures r.Some? ==> forall b :: b in badges && badges[b].name == name ==> r.value <= b
  {
    var matching := set b | b in badges && badges[b].name == name;
    assert forall b :: b in badges && badges[b].name == name ==> b in matching;
    First(matching)
  }

  /**
   * The badge handleLevelUp tries to award: only when the new level is
   * exactly a milestone (milestones crossed on the way are not awarded),
   * and only when a badge with that level's name exists.
   */
  function LevelUpBadge(badges: map<nat, Badge>, newLevel: nat): (r: Option<nat>)
    ensures newLevel !in LEVEL_MILESTONES ==> r.None?
    ensures newLevel in LEVEL_MILESTONES ==> r == FindBadgeByName(badges, LevelBadgeName(newLevel))
  {
    if newLevel in LEVEL_MILESTONES then FindBadgeByName(badges, LevelBadgeName(newLevel)) else None
  }

  /**
   * handleLevelUp: awards the level's milestone badge when there is one,
   * swallowing the conflict when the user already holds it; otherwise
   * nothing changes. Running it again changes nothing more.
   */
  method HandleLevelUp(db: Db, userId: nat, oldLevel: nat, newLevel: nat)
    requires db.Valid()
    modifies db`userBadges
    ensures db.Valid()
    ensures LevelUpBadge(db.badges, newLevel).None? ==> db.userBadges == old(db.userBadges)
    ensures LevelUpBadge(db.badges, newLevel).Some? ==>
      db.userBadges == WithBadge(old(db.userBadges), userId, LevelUpBadge(db.badges, newLevel).value)
  {
    if newLevel in LEVEL_MILESTONES {
      var badge := FindBadgeByName(db.badges, LevelBadgeName(newLevel));
      if badge.Some? {
        var _ := AwardBadge(db, userId, badge.value);
      }
    }
  }

  /**
   * handleChallengeCompleted: awards the `<title> Champion` badge when one
   * exists, swallowing the conflict when the user already holds it;
   * otherwise nothing changes.
   */
  method HandleChallengeCompleted(db: Db, userId: nat, challengeId: nat, challenge: Challenge)
    requires db.Valid()
    modifies db`userBadges
    ensures db.Valid()
    ensures FindBadgeByName(db.badges, ChampionBadgeName(challenge.title)).None? ==>
      db.userBadges == old(db.userBadges)
    ensures FindBadgeByName(db.badges, ChampionBadgeName(challenge.title)).Some? ==>
      db.userBadges == WithBadge(old(db.userBadges), userId, FindBadgeByName(db.badges, ChampionBadgeName(challenge.title)).value)
  {
    var badge := FindBadgeByName(db.badges, ChampionBadgeName(challenge.title));
    if badge.Some? {
      var _ := AwardBadge(db, userId, badge.value);
    }
  }

  /** Delivering the same level-up event twice leaves the same badges as delivering it once. */
  method HandleLevelUpTwice(db: Db, userId: nat, oldLevel: nat, newLevel: nat)
    requires db.Valid()
    modifies db`userBadges
    ensures db.Valid()
    ensures LevelUpBadge(db.badges, newLevel).None? ==> db.userBadges == old(db.userBadges)
    ensures LevelUpBadge(db.badges, newLevel).Some? ==>
      db.userBadges == WithBadge(old(db.userBadges), userId, LevelUpBadge(db.badges, newLevel).value)
  {
    HandleLevelUp(db, userId, oldLevel, newLevel);
    HandleLevelUp(db, userId, oldLevel, newLevel);
    if LevelUpBadge(db.badges, newLevel).Some? {
      WithBadgeIdempotent(old(db.userBadges), userId, LevelUpBadge(db.badges, newLevel).value);
    }
  }
}
