/**
 * Leaderboards (leaderboards.service.ts): read-only rankings of users by
 * XP or coins, of a challenge's participants by points, and of a user's
 * friends. Rankings are lists of user ids; rows with equal keys keep
 * ascending id order.
 */
module Leaderboards {
  import opened Ordering
  import opened Store
  import Users

  function Min(a: nat, b: nat): nat {
    if a < b then a else b
  }

  /**
   * `findMany({ orderBy: { key: 'desc' }, take: limit })` over the given
   * ids: at most `limit` of them, each once, largest key first, and no id
   * left out ranks above one taken.
   */
  function Rank(ids: seq<nat>, key: nat -> int, limit: nat): (r: seq<nat>)
    requires Distinct(ids)
    ensures |r| == Min(limit, |ids|)
    ensures forall i :: 0 <= i < |r| ==> r[i] in ids
    ensures Distinct(r)
    ensures forall i, j :: 0 <= i < j < |r| ==> key(r[i]) >= key(r[j])
    ensures forall x :: x in ids && x !in r ==> forall i :: 0 <= i < |r| ==> key(r[i]) >= key(x)
    ensures limit >= |ids| ==> forall x :: x in ids ==> x in r
  {
    var sorted := SortDesc(ids, key);
    var r := Take(sorted, limit);
    forall x | limit >= |ids| && x in ids ensures x in r {
      assert x in multiset(sorted);
    }
    PermutationDistinct(ids, sorted);
    forall i | 0 <= i < |r| ensures r[i] in ids {
      assert r[i] == sorted[i] && sorted[i] in multiset(sorted);
    }
    forall x | x in ids && x !in r ensures forall i :: 0 <= i < |r| ==> key(r[i]) >= key(x) {
      TopRows(ids, key, limit, x);
    }
    r
  }

  function XpOf(users: map<nat, User>, id: nat): int {
    if id in users then users[id].xp else 0
  }

  function CoinsOf(users: map<nat, User>, id: nat): int {
    if id in users then users[id].coins else 0
  }

  function AllUserIds(users: map<nat, User>): (r: seq<nat>)
    ensures Distinct(r)
    ensures |r| == |users|
    ensures forall id :: id in r <==> id in users
  {
    var r := Ascending(users.Keys);
    assert |users.Keys| == |users|;
    r
  }

  /**
   * getXpLeaderboard: min(limit, number of users) users, each once, by XP
   * descending; no user left out has more XP than one listed.
   */
  function XpLeaderboard(users: map<nat, User>, limit: nat): (r: seq<nat>)
    ensures |r| == Min(limit, |users|)
    ensures forall i :: 0 <= i < |r| ==> r[i] in users
    ensures Distinct(r)
    ensures forall i, j :: 0 <= i < j < |r| ==> users[r[i]].xp >= users[r[j]].xp
    ensures forall id :: id in users && id !in r ==> forall i :: 0 <= i < |r| ==> users[r[i]].xp >= users[id].xp
  {
    Rank(AllUserIds(users), (id: nat) => XpOf(users, id), limit)
  }

  /**
   * getCoinsLeaderboard: min(limit, number of users) users, each once, by
   * coins descending; no user left out has more coins than one listed.
   */
  function CoinsLeaderboard(users: map<nat, User>, limit: nat): (r: seq<nat>)
    ensures |r| == Min(limit, |users|)
    ensures forall i :: 0 <= i < |r| ==> r[i] in users
    ensures Distinct(r)
    ensures forall i, j :: 0 <= i < j < |r| ==> users[r[i]].coins >= users[r[j]].coins
    ensures forall id :: id in users && id !in r ==> forall i :: 0 <= i < |r| ==> users[r[i]].coins >= users[id].coins
  {
    Rank(AllUserIds(users), (id: nat) => CoinsOf(users, id), limit)
  }

  /** The progress row counts on the challenge leaderboard: IN_PROGRESS or COMPLETED. */
  predicate Ranked(progress: map<(nat, nat), Progress>, userId: nat, challengeId: nat) {
    (userId, challengeId) in progress &&
    (progress[(userId, challengeId)].status == InProgress || progress[(userId, challengeId)].status == Completed)
  }

  function PointsOf(progress: map<(nat, nat), Progress>, challengeId: nat, userId: nat): int {
    if (userId, challengeId) in progress then progress[(userId, challengeId)].pointsEarned else 0
  }

  /**
   * getChallengeLeaderboard: the users of the challenge's IN_PROGRESS or
   * COMPLETED progress rows, each once, at most `limit`, by points earned
   * descending; no such user left out has more points than one listed.
   */
  function ChallengeLeaderboard(progress: map<(nat, nat), Progress>, challengeId: nat, limit: nat): (r: seq<nat>)
    ensures |r| <= limit
    ensures forall i :: 0 <= i < |r| ==> (r[i], challengeId) in progress && Ranked(progress, r[i], challengeId)
    ensures Distinct(r)
    ensures forall i, j :: 0 <= i < j < |r| ==>
      progress[(r[i], challengeId)].pointsEarned >= progress[(r[j], challengeId)].pointsEarned
    ensures forall u :: Ranked(progress, u, challengeId) && u !in r ==>
      forall i :: 0 <= i < |r| ==> progress[(r[i], challengeId)].pointsEarned >= progress[(u, challengeId)].pointsEarned
    ensures |r| < limit ==> forall u :: Ranked(progress, u, challengeId) ==> u in r
  {
    ByPoints(progress, challengeId, Ascending(Participants(progress, challengeId)), limit)
  }

  /** Rank over users with a progress row for the challenge, by points earned. */
  function ByPoints(progress: map<(nat, nat), Progress>, challengeId: nat, ids: seq<nat>, limit: nat): (r: seq<nat>)
    requires Distinct(ids)
    requires forall u :: u in ids ==> (u, challengeId) in progress
    ensures |r| <= limit
    ensures forall i :: 0 <= i < |r| ==> r[i] in ids && (r[i], challengeId) in progress
    ensures Distinct(r)
    ensures forall i, j :: 0 <= i < j < |r| ==>
      progress[(r[i], challengeId)].pointsEarned >= progress[(r[j], challengeId)].pointsEarned
    ensures forall u :: u in ids && u !in r ==>
      forall i :: 0 <= i < |r| ==> progress[(r[i], challengeId)].pointsEarned >= progress[(u, challengeId)].pointsEarned
    ensures |r| < limit ==> forall u :: u in ids ==> u in r
  {
    var key := (u: nat) => PointsOf(progress, challengeId, u);
    var r := Rank(ids, key, limit);
    assert forall i :: 0 <= i < |r| ==> r[i] in ids && (r[i], challengeId) in progress;
    forall i, j | 0 <= i < j < |r|
      ensures progress[(r[i], challengeId)].pointsEarned >= progress[(r[j], challengeId)].pointsEarned
    {
      assert key(r[i]) >= key(r[j]);
    }
    forall u, i | u in ids && u !in r && 0 <= i < |r|
      ensures progress[(r[i], challengeId)].pointsEarned >= progress[(u, challengeId)].pointsEarned
    {
      assert key(r[i]) >= key(u);
    }
    r
  }

  /** The users with a ranked progress row for the challenge. */
  function Participants(progress: map<(nat, nat), Progress>, challengeId: nat): (s: set<nat>)
    ensures forall u :: u in s <==> Ranked(progress, u, challengeId)
  {
    var s := set p | p in progress && p.1 == challengeId && Ranked(progress, p.0, challengeId) :: p.0;
    forall u | Ranked(progress, u, challengeId) ensures u in s {
      var p := (u, challengeId);
      assert p in progress && p.0 == u;
    }
    s
  }

  /** The ids getFriendsLeaderboard ranks: every friend's id, then the user's own. */
  function FriendIds(friendships: map<nat, Friendship>, userId: nat): (r: seq<nat>)
    ensures forall x :: x in r <==>
      (x == userId ||
       exists k :: k in friendships && Users.AcceptedWith(friendships[k], userId) && Users.OtherParty(friendships[k], userId) == x)
  {
    Users.GetFriends(friendships, userId) + [userId]
  }

  /** The users with the given ids, each once, by XP descending. */
  function ByXp(users: map<nat, User>, ids: seq<nat>): (r: seq<nat>)
    requires Distinct(ids)
    requires forall x :: x in ids ==> x in users
    ensures forall x :: x in r <==> x in ids
    ensures Distinct(r)
    ensures forall i :: 0 <= i < |r| ==> r[i] in users
    ensures forall i, j :: 0 <= i < j < |r| ==> users[r[i]].xp >= users[r[j]].xp
  {
    var key := (id: nat) => XpOf(users, id);
    var r := Order(ids, key);
    assert forall i :: 0 <= i < |r| ==> r[i] in ids && r[i] in users;
    forall i, j | 0 <= i < j < |r| ensures users[r[i]].xp >= users[r[j]].xp {
      assert r[i] in ids && r[j] in ids;
      assert key(r[i]) >= key(r[j]);
    }
    r
  }

  /** The users with the given ids, each once, by coins descending. */
  function ByCoins(users: map<nat, User>, ids: seq<nat>): (r: seq<nat>)
    requires Distinct(ids)
    requires forall x :: x in ids ==> x in users
    ensures forall x :: x in r <==> x in ids
    ensures Distinct(r)
    ensures forall i :: 0 <= i < |r| ==> r[i] in users
    ensures forall i, j :: 0 <= i < j < |r| ==> users[r[i]].coins >= users[r[j]].coins
  {
    var key := (id: nat) => CoinsOf(users, id);
    var r := Order(ids, key);
    assert forall i :: 0 <= i < |r| ==> r[i] in ids && r[i] in users;
    forall i, j | 0 <= i < j < |r| ensures users[r[i]].coins >= users[r[j]].coins {
      assert r[i] in ids && r[j] in ids;
      assert key(r[i]) >= key(r[j]);
    }
    r
  }

  /**
   * getFriendsLeaderboard: exactly the existing users among the friend ids,
   * each once, by XP descending when the type is "xp" and by coins
   * descending for any other type.
   */
  function FriendsLeaderboard(users: map<nat, User>, friendships: map<nat, Friendship>, userId: nat, boardType: string)
    : (r: seq<nat>)
    ensures forall id :: id in r <==> id in users && id in FriendIds(friendships, userId)
    ensures Distinct(r)
    ensures boardType == "xp" ==> forall i, j :: 0 <= i < j < |r| ==> users[r[i]].xp >= users[r[j]].xp
    ensures boardType != "xp" ==> forall i, j :: 0 <= i < j < |r| ==> users[r[i]].coins >= users[r[j]].coins
  {
    var friendIds := FriendIds(friendships, userId);
    var ids := Ascending(set id | id in users && id in friendIds);
    if boardType == "xp" then ByXp(users, ids) else ByCoins(users, ids)
  }
}
