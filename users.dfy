/**
 * The ledger (XP, coins, derived level, level-up events) and the
 * friendship state machine PENDING -> ACCEPTED / BLOCKED (users.service.ts).
 * WebSocket notifications to the other user are not modelled.
 */
module Users {
  import opened Outcomes
  import opened Ordering
  import opened XpLevel
  import opened Store
  import Chat

  /** The event list addXp appends: one level-up event when the level rises, however far. */
  function LevelUpEvents(userId: nat, oldLevel: nat, newLevel: nat): (r: seq<Event>)
    ensures |r| <= 1
    ensures |r| == 1 <==> newLevel > oldLevel
    ensures forall e :: e in r ==> e == LevelUp(userId, oldLevel, newLevel)
  {
    if newLevel > oldLevel then [LevelUp(userId, oldLevel, newLevel)] else []
  }

  /**
   * addXp: adds XP, recomputes the level from the new XP and emits a
   * `user.levelUp` event carrying the stored and the new level when the
   * level rises. Coins are unchanged.
   */
  method AddXp(db: Db, userId: nat, amount: nat) returns (r: Result<User>)
    requires db.Valid()
    modifies db`users, db`events
    ensures db.Valid()
    ensures userId !in old(db.users) ==>
      r == Err(NotFound) && db.users == old(db.users) && db.events == old(db.events)
    ensures userId in old(db.users) ==>
      var u := old(db.users[userId]);
      var newLevel := CalculateLevel(u.xp + amount);
      && r == Ok(u.(xp := u.xp + amount, level := newLevel))
      && db.users == old(db.users)[userId := r.value]
      && db.events == old(db.events) + LevelUpEvents(userId, u.level, newLevel)
  {
    if userId !in db.users {
      return Err(NotFound);
    }
    var user := db.users[userId];
    var newXp := user.xp + amount;
    var oldLevel := user.level;
    var newLevel := CalculateLevel(newXp);
    var updated := user.(xp := newXp, level := newLevel);
    db.SetUser(userId, updated);
    if newLevel > oldLevel {
      db.events := db.events + [LevelUp(userId, oldLevel, newLevel)];
    }
    r := Ok(updated);
  }

  /** addCoins: an atomic increment of the balance; XP and level are unchanged. */
  method AddCoins(db: Db, userId: nat, amount: nat) returns (r: Result<User>)
    requires db.Valid()
    modifies db`users
    ensures db.Valid()
    ensures userId !in old(db.users) ==> r == Err(NotFound) && db.users == old(db.users)
    ensures userId in old(db.users) ==>
      var u := old(db.users[userId]);
      && r == Ok(u.(coins := u.coins + amount))
      && db.users == old(db.users)[userId := r.value]
  {
    if userId !in db.users {
      return Err(NotFound);
    }
    var user := db.users[userId];
    var updated := user.(coins := user.coins + amount);
    db.SetUser(userId, updated);
    r := Ok(updated);
  }

  /** deductCoins: fails and changes nothing when the balance is too small; never goes negative. */
  method DeductCoins(db: Db, userId: nat, amount: nat) returns (r: Result<User>)
    requires db.Valid()
    modifies db`users
    ensures db.Valid()
    ensures r.Err? ==> db.users == old(db.users)
    ensures userId !in old(db.users) ==> r == Err(NotFound)
    ensures userId in old(db.users) && old(db.users[userId]).coins < amount ==> r == Err(BadRequest)
    ensures userId in old(db.users) && old(db.users[userId]).coins >= amount ==>
      var u := old(db.users[userId]);
      && r == Ok(u.(coins := u.coins - amount))
      && db.users == old(db.users)[userId := r.value]
  {
    if userId !in db.users {
      return Err(NotFound);
    }
    var user := db.users[userId];
    if user.coins < amount {
      return Err(BadRequest);
    }
    var updated := user.(coins := user.coins - amount);
    db.SetUser(userId, updated);
    r := Ok(updated);
  }

  /** The friendship joins a and b, in either direction. */
  predicate Between(f: Friendship, a: nat, b: nat) {
    (f.userId == a && f.friendId == b) || (f.userId == b && f.friendId == a)
  }

  /** `findUnique({ email })`: the user registered with that email. */
  function FindUserByEmail(users: map<nat, User>, email: string): (r: Option<nat>)
    ensures r.Some? ==> r.value in users && users[r.value].email == email
    ensures r.None? ==> forall u :: u in users ==> users[u].email != email
  {
    var matching := set u | u in users && users[u].email == email;
    assert forall u :: u in users && users[u].email == email ==> u in matching;
    First(matching)
  }

  /** searchUserByEmail. */
  function SearchUserByEmail(users: map<nat, User>, email: string): (r: Result<nat>)
    ensures r.Err? <==> forall u :: u in users ==> users[u].email != email
    ensures r.Err? ==> r.error == NotFound
    ensures r.Ok? ==> r.value in users && users[r.value].email == email
  {
    match FindUserByEmail(users, email)
    case None => Err(NotFound)
    case Some(u) => Ok(u)
  }

  /**
   * The user a friend request is addressed to: the owner of `email` when a
   * non-empty email is given (NotFound if nobody has it), otherwise
   * `friendId` (BadRequest if neither is given). An empty email counts as
   * absent, as a falsy string does in the source.
   */
  function RequestTarget(users: map<nat, User>, friendId: Option<nat>, email: Option<string>): (r: Result<nat>)
    ensures email.Some? && email.value != "" ==>
      (r == Err(NotFound) <==> forall u :: u in users ==> users[u].email != email.value)
    ensures email.Some? && email.value != "" && r.Ok? ==> r.value in users && users[r.value].email == email.value
    ensures email.None? || email.value == "" ==> r == if friendId.Some? then Ok(friendId.value) else Err(BadRequest)
  {
    if email.Some? && email.value != "" then
      match FindUserByEmail(users, email.value)
      case None => Err(NotFound)
      case Some(u) => Ok(u)
    else if friendId.None? then Err(BadRequest)
    else Ok(friendId.value)
  }

  /**
   * sendFriendRequest: refuses requests to oneself (BadRequest), to an
   * unknown user (NotFound) and between two users who already share a
   * friendship row in either direction and in any status (Conflict);
   * otherwise adds exactly one PENDING row from the sender to the target.
   */
  method SendFriendRequest(db: Db, userId: nat, friendId: Option<nat>, email: Option<string>)
    returns (r: Result<nat>)
    requires db.Valid()
    requires userId in db.users
    modifies db`friendships, db`nextId
    ensures db.Valid()
    ensures r.Err? ==> db.friendships == old(db.friendships) && db.nextId == old(db.nextId)
    ensures
      var t := RequestTarget(db.users, friendId, email);
      && (t.Err? ==> r == t)
      && (t.Ok? && t.value == userId ==> r == Err(BadRequest))
      && (t.Ok? && t.value != userId && t.value !in db.users ==> r == Err(NotFound))
      && (t.Ok? && t.value != userId && t.value in db.users &&
          (exists k :: k in old(db.friendships) && Between(old(db.friendships)[k], userId, t.value)) ==>
            r == Err(Conflict))
      && (t.Ok? && t.value != userId && t.value in db.users &&
          (forall k :: k in old(db.friendships) ==> !Between(old(db.friendships)[k], userId, t.value)) ==>
            && r == Ok(old(db.nextId))
            && r.value !in old(db.friendships)
            && db.friendships == old(db.friendships)[r.value := Friendship(userId, t.value, Pending)])
  {
    var target := RequestTarget(db.users, friendId, email);
    if target.Err? {
      return Err(target.error);
    }
    var fid := target.value;
    if userId == fid {
      return Err(BadRequest);
    }
    if fid !in db.users {
      return Err(NotFound);
    }
    if exists k :: k in db.friendships && Between(db.friendships[k], userId, fid) {
      return Err(Conflict);
    }
    var id := db.NewId();
    db.friendships := db.friendships[id := Friendship(userId, fid, Pending)];
    r := Ok(id);
  }

  /**
   * acceptFriendRequest: only the recipient may accept, whatever the
   * current status. A PRIVATE chat group with exactly the two users as
   * members is created unless one holding both already exists; afterwards
   * the two users always share a PRIVATE group.
   */
  method AcceptFriendRequest(db: Db, userId: nat, friendshipId: nat) returns (r: Result<Friendship>)
    requires db.Valid()
    modifies db`friendships, db`groups, db`members, db`nextId
    ensures db.Valid()
    ensures friendshipId !in old(db.friendships) ==> r == Err(NotFound)
    ensures friendshipId in old(db.friendships) && old(db.friendships)[friendshipId].friendId != userId ==>
      r == Err(BadRequest)
    ensures r.Err? ==>
      db.friendships == old(db.friendships) && db.groups == old(db.groups) &&
      db.members == old(db.members) && db.nextId == old(db.nextId)
    ensures friendshipId in old(db.friendships) && old(db.friendships)[friendshipId].friendId == userId ==>
      var f := old(db.friendships)[friendshipId];
      var create := !Chat.HasPrivateChat(old(db.groups), old(db.members), f.userId, userId) &&
                    f.userId in db.users && userId in db.users;
      var g := old(db.nextId);
      && r == Ok(f.(status := Accepted))
      && db.friendships == old(db.friendships)[friendshipId := r.value]
      && (create ==>
            && db.groups == old(db.groups)[g := ChatGroup(
                 db.users[f.userId].displayName + " & " + db.users[userId].displayName, Private)]
            && db.members == old(db.members)[g + 1 := GroupMember(f.userId, g)][g + 2 := GroupMember(userId, g)]
            && db.nextId == g + 3)
      && (!create ==> db.groups == old(db.groups) && db.members == old(db.members) && db.nextId == g)
      && (f.userId in db.users && userId in db.users ==>
            Chat.HasPrivateChat(db.groups, db.members, f.userId, userId))
  {
    if friendshipId !in db.friendships {
      return Err(NotFound);
    }
    var friendship := db.friendships[friendshipId];
    if friendship.friendId != userId {
      return Err(BadRequest);
    }
    var updated := friendship.(status := Accepted);
    db.friendships := db.friendships[friendshipId := updated];
    var requester := friendship.userId;
    if !Chat.HasPrivateChat(db.groups, db.members, requester, userId) &&
       requester in db.users && userId in db.users {
      OpenPrivateChat(db, requester, userId);
    }
    r := Ok(updated);
  }

  /**
   * The private group acceptFriendRequest creates: named after both users,
   * with one membership row for each.
   */
  method OpenPrivateChat(db: Db, a: nat, b: nat)
    requires db.Valid()
    requires a in db.users && b in db.users
    modifies db`groups, db`members, db`nextId
    ensures db.Valid()
    ensures
      var g := old(db.nextId);
      && db.groups == old(db.groups)[g := ChatGroup(db.users[a].displayName + " & " + db.users[b].displayName, Private)]
      && db.members == old(db.members)[g + 1 := GroupMember(a, g)][g + 2 := GroupMember(b, g)]
      && db.nextId == g + 3
    ensures Chat.HasPrivateChat(db.groups, db.members, a, b)
  {
    var name := db.users[a].displayName + " & " + db.users[b].displayName;
    var g := Chat.CreateGroup(db, name, Private);
    var m1 := Chat.AddMember(db, g, a);
    var m2 := Chat.AddMember(db, g, b);
    assert Chat.IsMember(db.members, g, a) by { assert db.members[m1] == GroupMember(a, g); }
    assert Chat.IsMember(db.members, g, b) by { assert db.members[m2] == GroupMember(b, g); }
  }

  /** blockFriendRequest: only the recipient may block, whatever the current status. */
  method BlockFriendRequest(db: Db, userId: nat, friendshipId: nat) returns (r: Result<Friendship>)
    requires db.Valid()
    modifies db`friendships
    ensures db.Valid()
    ensures friendshipId !in old(db.friendships) ==> r == Err(NotFound)
    ensures friendshipId in old(db.friendships) && old(db.friendships)[friendshipId].friendId != userId ==>
      r == Err(BadRequest)
    ensures r.Err? ==> db.friendships == old(db.friendships)
    ensures friendshipId in old(db.friendships) && old(db.friendships)[friendshipId].friendId == userId ==>
      && r == Ok(old(db.friendships)[friendshipId].(status := Blocked))
      && db.friendships == old(db.friendships)[friendshipId := r.value]
  {
    if friendshipId !in db.friendships {
      return Err(NotFound);
    }
    var friendship := db.friendships[friendshipId];
    if friendship.friendId != userId {
      return Err(BadRequest);
    }
    var updated := friendship.(status := Blocked);
    db.friendships := db.friendships[friendshipId := updated];
    r := Ok(updated);
  }

  /** The ACCEPTED friendship between a and b that `findFirst` picks, in either direction. */
  function FindAccepted(friendships: map<nat, Friendship>, a: nat, b: nat): (r: Option<nat>)
    ensures r.Some? ==>
      r.value in friendships && friendships[r.value].status == Accepted && Between(friendships[r.value], a, b)
    ensures r.None? ==>
      forall k :: k in friendships ==> friendships[k].status != Accepted || !Between(friendships[k], a, b)
  {
    var matching := set k | k in friendships && friendships[k].status == Accepted && Between(friendships[k], a, b);
    assert forall k :: k in friendships && friendships[k].status == Accepted && Between(friendships[k], a, b) ==>
      k in matching;
    First(matching)
  }

  /** unfriend: deletes the ACCEPTED friendship between the two users; NotFound when there is none. */
  method Unfriend(db: Db, userId: nat, friendId: nat) returns (r: Result<()>)
    requires db.Valid()
    modifies db`friendships
    ensures db.Valid()
    ensures FindAccepted(old(db.friendships), userId, friendId).None? ==>
      r == Err(NotFound) && db.friendships == old(db.friendships)
    ensures FindAccepted(old(db.friendships), userId, friendId).Some? ==>
      r.Ok? && db.friendships == old(db.friendships) - {FindAccepted(old(db.friendships), userId, friendId).value}
  {
    var found := FindAccepted(db.friendships, userId, friendId);
    if found.None? {
      return Err(NotFound);
    }
    db.friendships := db.friendships - {found.value};
    r := Ok(());
  }

  /** blockFriend: sets the ACCEPTED friendship between the two users to BLOCKED; NotFound when there is none. */
  method BlockFriend(db: Db, userId: nat, friendId: nat) returns (r: Result<()>)
    requires db.Valid()
    modifies db`friendships
    ensures db.Valid()
    ensures FindAccepted(old(db.friendships), userId, friendId).None? ==>
      r == Err(NotFound) && db.friendships == old(db.friendships)
    ensures FindAccepted(old(db.friendships), userId, friendId).Some? ==>
      var k := FindAccepted(old(db.friendships), userId, friendId).value;
      r.Ok? && db.friendships == old(db.friendships)[k := old(db.friendships)[k].(status := Blocked)]
  {
    var found := FindAccepted(db.friendships, userId, friendId);
    if found.None? {
      return Err(NotFound);
    }
    var k := found.value;
    db.friendships := db.friendships[k := db.friendships[k].(status := Blocked)];
    r := Ok(());
  }

  /** The other party of a friendship that involves the user. */
  function OtherParty(f: Friendship, userId: nat): nat {
    if f.userId == userId then f.friendId else f.userId
  }

  predicate AcceptedWith(f: Friendship, userId: nat) {
    f.status == Accepted && (f.userId == userId || f.friendId == userId)
  }

  function OtherParties(friendships: map<nat, Friendship>, ks: seq<nat>, userId: nat): (r: seq<nat>)
    requires forall i :: 0 <= i < |ks| ==> ks[i] in friendships
    ensures |r| == |ks|
    ensures forall i :: 0 <= i < |ks| ==> r[i] == OtherParty(friendships[ks[i]], userId)
  {
    if ks == [] then [] else [OtherParty(friendships[ks[0]], userId)] + OtherParties(friendships, ks[1..], userId)
  }

  /**
   * getFriends (also the friend ids of getFriendsLeaderboard): the other
   * party of every ACCEPTED friendship involving the user, in the order
   * of the friendship rows.
   */
  function GetFriends(friendships: map<nat, Friendship>, userId: nat): (r: seq<nat>)
    ensures forall x :: x in r <==>
      exists k :: k in friendships && AcceptedWith(friendships[k], userId) && OtherParty(friendships[k], userId) == x
  {
    var matching := set k | k in friendships && AcceptedWith(friendships[k], userId);
    var ks := Ascending(matching);
    assert forall i :: 0 <= i < |ks| ==> ks[i] in matching;
    var r := OtherParties(friendships, ks, userId);
    forall x | x in r
      ensures exists k :: k in friendships && AcceptedWith(friendships[k], userId) && OtherParty(friendships[k], userId) == x
    {
      var i :| 0 <= i < |r| && r[i] == x;
      assert ks[i] in matching;
    }
    forall k | k in friendships && AcceptedWith(friendships[k], userId)
      ensures OtherParty(friendships[k], userId) in r
    {
      assert k in matching;
      var i :| 0 <= i < |ks| && ks[i] == k;
      assert r[i] == OtherParty(friendships[k], userId);
    }
    r
  }

  /** getPendingRequests: PENDING rows addressed to the user, newest first. */
  function GetPendingRequests(friendships: map<nat, Friendship>, userId: nat): (r: seq<nat>)
    ensures forall k :: k in r <==> k in friendships && friendships[k].friendId == userId && friendships[k].status == Pending
    ensures forall i, j :: 0 <= i < j < |r| ==> r[i] > r[j]
  {
    Descending(set k | k in friendships && friendships[k].friendId == userId && friendships[k].status == Pending)
  }
}
