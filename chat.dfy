/** Chat groups: visibility, messages and membership (chat.service.ts). */
module Chat {
  import opened Outcomes
  import opened Ordering
  import opened Store

  /** Some membership row puts the user in the group. */
  predicate IsMember(members: map<nat, GroupMember>, groupId: nat, userId: nat) {
    exists m :: m in members && members[m].groupId == groupId && members[m].userId == userId
  }

  /** A PRIVATE group has both users among its members. */
  predicate HasPrivateChat(groups: map<nat, ChatGroup>, members: map<nat, GroupMember>, a: nat, b: nat) {
    exists g :: g in groups && groups[g].groupType == Private && IsMember(members, g, a) && IsMember(members, g, b)
  }

  predicate Listed(groups: map<nat, ChatGroup>, members: map<nat, GroupMember>, g: nat, userId: Option<nat>)
    requires g in groups
  {
    match userId
    case None => groups[g].groupType == Public
    case Some(u) =>
      groups[g].groupType == Public || groups[g].groupType == ChallengeGroup ||
      (groups[g].groupType == Private && IsMember(members, g, u))
  }

  /**
   * getAllGroups: for a user, every group except the PRIVATE groups they
   * are not a member of; without a user, the PUBLIC groups only. Newest
   * (largest id) first.
   */
  function GetAllGroups(groups: map<nat, ChatGroup>, members: map<nat, GroupMember>, userId: Option<nat>): (r: seq<nat>)
    ensures userId.None? ==>
      forall g :: g in r <==> g in groups && groups[g].groupType == Public
    ensures userId.Some? ==>
      forall g :: g in r <==> g in groups && (groups[g].groupType != Private || IsMember(members, g, userId.value))
    ensures forall i, j :: 0 <= i < j < |r| ==> r[i] > r[j]
  {
    Descending(set g | g in groups && Listed(groups, members, g, userId))
  }

  /** sendMessage: any user may post to an existing group; membership is not checked. */
  method SendMessage(db: Db, userId: nat, groupId: nat, content: string) returns (r: Result<Message>)
    requires userId in db.users
    modifies db`messages
    ensures groupId !in db.groups ==> r == Err(NotFound) && db.messages == old(db.messages)
    ensures groupId in db.groups ==>
      r == Ok(Message(groupId, userId, content)) && db.messages == old(db.messages) + [r.value]
  {
    if groupId !in db.groups {
      return Err(NotFound);
    }
    var message := Message(groupId, userId, content);
    db.messages := db.messages + [message];
    r := Ok(message);
  }

  /** Positions in the message log of the group's messages, newest first. */
  function GroupMessageIndices(messages: seq<Message>, groupId: nat): (r: seq<nat>)
    ensures forall i :: 0 <= i < |r| ==> r[i] < |messages|
    ensures forall i :: i in r <==> 0 <= i < |messages| && messages[i].groupId == groupId
    ensures forall i, j :: 0 <= i < j < |r| ==> r[i] > r[j]
  {
    var r := Descending(set i | 0 <= i < |messages| && messages[i].groupId == groupId);
    assert forall i :: 0 <= i < |r| ==> r[i] in r;
    r
  }

  /**
   * getMessages: NotFound for an unknown group; otherwise the group's
   * latest messages, newest first, at most `limit` of them, and every one
   * of its messages newer than the oldest one returned.
   */
  function GetMessages(groups: map<nat, ChatGroup>, messages: seq<Message>, groupId: nat, limit: nat): (r: Result<seq<Message>>)
    ensures groupId !in groups <==> r == Err(NotFound)
    ensures r.Ok? ==> |r.value| <= limit
    ensures r.Ok? ==> forall m :: m in r.value ==> m in messages && m.groupId == groupId
    ensures r.Ok? ==>
      var idx := Take(GroupMessageIndices(messages, groupId), limit);
      && |r.value| == |idx|
      && (forall i :: 0 <= i < |idx| ==> r.value[i] == messages[idx[i]])
      && (forall i, j :: 0 <= i < j < |idx| ==> idx[i] > idx[j])
      && (|idx| < limit ==> forall k :: 0 <= k < |messages| && messages[k].groupId == groupId ==> k in idx)
  {
    if groupId !in groups then Err(NotFound)
    else
      var idx := Take(GroupMessageIndices(messages, groupId), limit);
      LatestIndices(messages, groupId, limit);
      PickedFromGroup(messages, idx, groupId);
      Ok(Pick(messages, idx))
  }

  /** The first `limit` positions of the group's messages, newest first. */
  lemma LatestIndices(messages: seq<Message>, groupId: nat, limit: nat)
    ensures
      var idx := Take(GroupMessageIndices(messages, groupId), limit);
      && (forall i :: 0 <= i < |idx| ==> idx[i] < |messages| && messages[idx[i]].groupId == groupId)
      && (forall i, j :: 0 <= i < j < |idx| ==> idx[i] > idx[j])
      && (|idx| < limit ==> forall k :: 0 <= k < |messages| && messages[k].groupId == groupId ==> k in idx)
  {
    var all := GroupMessageIndices(messages, groupId);
    var idx := Take(all, limit);
    assert forall i :: 0 <= i < |idx| ==> idx[i] == all[i] && all[i] in all;
  }

  /** Messages picked at positions of the group's messages belong to the group. */
  lemma PickedFromGroup(messages: seq<Message>, idx: seq<nat>, groupId: nat)
    requires forall i :: 0 <= i < |idx| ==> idx[i] < |messages| && messages[idx[i]].groupId == groupId
    ensures forall m :: m in Pick(messages, idx) ==> m in messages && m.groupId == groupId
  {
    var r := Pick(messages, idx);
    forall m | m in r ensures m in messages && m.groupId == groupId {
      var i :| 0 <= i < |r| && r[i] == m;
      assert m == messages[idx[i]];
    }
  }

  /** The membership row `findFirst` picks: the oldest one joining the user to the group. */
  function FindMembership(members: map<nat, GroupMember>, userId: nat, groupId: nat): (r: Option<nat>)
    ensures r.None? <==> !IsMember(members, groupId, userId)
    ensures r.Some? ==> r.value in members && members[r.value] == GroupMember(userId, groupId)
  {
    var matching := set m | m in members && members[m].userId == userId && members[m].groupId == groupId;
    assert IsMember(members, groupId, userId) ==> matching != {} by {
      if IsMember(members, groupId, userId) {
        var m :| m in members && members[m].groupId == groupId && members[m].userId == userId;
        assert m in matching;
      }
    }
    First(matching)
  }

  /** leaveGroup: deletes one membership row and no other. */
  method LeaveGroup(db: Db, userId: nat, groupId: nat) returns (r: Result<()>)
    requires db.Valid()
    modifies db`members
    ensures db.Valid()
    ensures groupId !in db.groups ==> r == Err(NotFound)
    ensures groupId in db.groups && !IsMember(old(db.members), groupId, userId) ==> r == Err(NotFound)
    ensures r.Err? ==> db.members == old(db.members)
    ensures groupId in db.groups && IsMember(old(db.members), groupId, userId) ==>
      && r.Ok?
      && var m := FindMembership(old(db.members), userId, groupId).value;
      && m in old(db.members) && old(db.members)[m] == GroupMember(userId, groupId)
      && db.members == old(db.members) - {m}
  {
    if groupId !in db.groups {
      return Err(NotFound);
    }
    var membership := FindMembership(db.members, userId, groupId);
    if membership.None? {
      return Err(NotFound);
    }
    db.members := db.members - {membership.value};
    r := Ok(());
  }

  /** `chatGroup.create`: a new group under a fresh id. */
  method CreateGroup(db: Db, name: string, groupType: GroupType) returns (g: nat)
    requires db.Valid()
    modifies db`groups, db`nextId
    ensures db.Valid()
    ensures g == old(db.nextId) && db.nextId == g + 1
    ensures db.groups == old(db.groups)[g := ChatGroup(name, groupType)]
  {
    g := db.NewId();
    db.groups := db.groups[g := ChatGroup(name, groupType)];
  }

  /** `groupMember.create`: a new membership row under a fresh id. */
  method AddMember(db: Db, groupId: nat, userId: nat) returns (m: nat)
    requires db.Valid()
    modifies db`members, db`nextId
    ensures db.Valid()
    ensures m == old(db.nextId) && db.nextId == m + 1
    ensures db.members == old(db.members)[m := GroupMember(userId, groupId)]
  {
    m := db.NewId();
    db.members := db.members[m := GroupMember(userId, groupId)];
  }
}
