/**
 * The relational store the services share, as an in-memory object: one
 * field per table. Keyed tables map a row id to the row; append-only
 * tables (purchases, awarded badges, messages, daily actions, emitted
 * events) are sequences in insertion order. `nextId` hands out the ids of
 * rows the services create; ids only grow, so a larger id is a newer row.
 */
module Store {
  import opened Outcomes
  import XpLevel

  datatype User = User(email: string, displayName: string, xp: nat, coins: nat, level: nat)

  /** A challenge task; `goalCount` is optional (null in the database). */
  datatype Task = Task(id: nat, title: string, goalCount: Option<nat>, points: nat)

  datatype Challenge = Challenge(
    title: string, startAt: int, endAt: int,
    rewardXp: nat, rewardCoins: nat, isGlobal: bool, tasks: seq<Task>)

  /** One value of a progress row's `taskProgress` JSON object. */
  datatype TaskEntry = TaskEntry(current: nat, goal: nat, completed: bool)

  /** IN_PROGRESS, COMPLETED, or any other value of the schema's status enum. */
  datatype ProgressStatus = InProgress | Completed | OtherStatus

  /** A ChallengeProgress row; the table is keyed by (userId, challengeId). */
  datatype Progress = Progress(taskProgress: map<nat, TaskEntry>, pointsEarned: nat, status: ProgressStatus)

  datatype FriendStatus = Pending | Accepted | Blocked
  datatype Friendship = Friendship(userId: nat, friendId: nat, status: FriendStatus)

  datatype ItemType = Hair | Cloth | Accessory | Shoes
  datatype Item = Item(name: string, itemType: ItemType, priceCoins: nat, priceXp: nat)
  datatype UserItem = UserItem(userId: nat, itemId: nat, equipped: bool)
  datatype PurchaseStatus = Success
  datatype Purchase = Purchase(userId: nat, itemId: nat, priceCoins: nat, status: PurchaseStatus)

  datatype Badge = Badge(name: string)
  datatype UserBadge = UserBadge(userId: nat, badgeId: nat)

  datatype GroupType = Public | Private | ChallengeGroup
  datatype ChatGroup = ChatGroup(name: string, groupType: GroupType)
  datatype GroupMember = GroupMember(userId: nat, groupId: nat)
  datatype Message = Message(groupId: nat, senderId: nat, content: string)

  /**
   * PRAYER, TASBEEH, CHARITY, AZKAR, or another value of the DailyActionType
   * enum. Enum values are distinct, so `OtherAction` stands only for a value
   * other than the four named ones and its name is never one of theirs.
   */
  datatype ActionType = Prayer | Tasbeeh | Charity | Azkar | OtherAction(name: string)

  /** A daily action row; `createdAt` is a timestamp in milliseconds. */
  datatype DailyAction = DailyAction(userId: nat, actionType: ActionType, createdAt: int)

  /** Domain events emitted on the in-process bus, in emission order. */
  datatype Event =
    | LevelUp(userId: nat, oldLevel: nat, newLevel: nat)
    | ChallengeDone(userId: nat, challengeId: nat, challenge: Challenge)

  /** A task entry keeps `current` within its goal, and is completed exactly when it reached it. */
  predicate EntryOk(e: TaskEntry) {
    e.goal >= 1 && e.current <= e.goal && (e.completed <==> e.current == e.goal)
  }

  predicate EntriesOk(taskProgress: map<nat, TaskEntry>) {
    forall t :: t in taskProgress ==> EntryOk(taskProgress[t])
  }

  /** Task ids are primary keys, so no two tasks of a challenge share one. */
  predicate TaskIdsDistinct(tasks: seq<Task>) {
    forall i, j :: 0 <= i < j < |tasks| ==> tasks[i].id != tasks[j].id
  }

  /** Two friendships join the same two users, in either direction. */
  predicate SamePair(f: Friendship, g: Friendship) {
    (f.userId == g.userId && f.friendId == g.friendId) ||
    (f.userId == g.friendId && f.friendId == g.userId)
  }

  /**
   * Inventory rows refer to existing items, a user owns an item at most
   * once, and wears at most one item of each type.
   */
  ghost predicate ValidInventory(items: map<nat, Item>, inventory: map<nat, UserItem>) {
    && (forall k :: k in inventory ==> inventory[k].itemId in items)
    && (forall k1, k2 :: k1 in inventory && k2 in inventory && k1 != k2 ==>
          inventory[k1].userId != inventory[k2].userId || inventory[k1].itemId != inventory[k2].itemId)
    && (forall k1, k2 ::
          (k1 in inventory && k2 in inventory && k1 != k2 &&
           inventory[k1].equipped && inventory[k2].equipped &&
           inventory[k1].userId == inventory[k2].userId) ==>
          items[inventory[k1].itemId].itemType != items[inventory[k2].itemId].itemType)
  }

  /** A log whose timestamps never decrease. */
  ghost predicate Chronological(actions: seq<DailyAction>) {
    forall i, j :: 0 <= i < j < |actions| ==> actions[i].createdAt <= actions[j].createdAt
  }

  class Db {
    var users: map<nat, User>
    var challenges: map<nat, Challenge>
    var progress: map<(nat, nat), Progress>
    var friendships: map<nat, Friendship>
    var items: map<nat, Item>
    var inventory: map<nat, UserItem>
    var purchases: seq<Purchase>
    var badges: map<nat, Badge>
    var userBadges: seq<UserBadge>
    var groups: map<nat, ChatGroup>
    var members: map<nat, GroupMember>
    var messages: seq<Message>
    var actions: seq<DailyAction>
    var events: seq<Event>
    var nextId: nat

    /** Rows created by the services have ids below `nextId`. */
    ghost predicate IdsBelowNext()
      reads this`friendships, this`inventory, this`groups, this`members, this`nextId
    {
      && (forall k :: k in friendships ==> k < nextId)
      && (forall k :: k in inventory ==> k < nextId)
      && (forall k :: k in groups ==> k < nextId)
      && (forall k :: k in members ==> k < nextId)
    }

    /**
     * The stored level is at least 1 and never ahead of the level the XP
     * gives. It can lag behind: the challenge reward adds XP without
     * recomputing the level.
     */
    ghost predicate LevelsTracked()
      reads this`users
    {
      forall u :: u in users ==> 1 <= users[u].level <= XpLevel.CalculateLevel(users[u].xp)
    }

    /** Progress rows refer to an existing user and challenge and hold well-formed entries. */
    ghost predicate ProgressOk()
      reads this`progress, this`users, this`challenges
    {
      forall p :: p in progress ==>
        p.0 in users && p.1 in challenges && EntriesOk(progress[p].taskProgress)
    }

    ghost predicate ChallengesOk()
      reads this`challenges
    {
      forall c :: c in challenges ==> TaskIdsDistinct(challenges[c].tasks)
    }

    /** Nobody befriends themself, and two users share at most one friendship row. */
    ghost predicate FriendshipsOk()
      reads this`friendships
    {
      && (forall k :: k in friendships ==> friendships[k].userId != friendships[k].friendId)
      && (forall k1, k2 :: k1 in friendships && k2 in friendships && k1 != k2 ==>
            !SamePair(friendships[k1], friendships[k2]))
    }

    ghost predicate InventoryOk()
      reads this`inventory, this`items
    {
      ValidInventory(items, inventory)
    }

    /** A user holds each badge at most once. */
    ghost predicate BadgesOnce()
      reads this`userBadges
    {
      forall i, j :: 0 <= i < j < |userBadges| ==> userBadges[i] != userBadges[j]
    }

    /** Daily actions are stored in the order of their timestamps. */
    ghost predicate ActionsChronological()
      reads this`actions
    {
      Chronological(actions)
    }

    ghost predicate Valid()
      reads this`users, this`challenges, this`progress, this`friendships, this`items, this`inventory
      reads this`userBadges, this`groups, this`members, this`actions, this`nextId
    {
      && IdsBelowNext() && LevelsTracked() && ProgressOk() && ChallengesOk()
      && FriendshipsOk() && InventoryOk() && BadgesOnce() && ActionsChronological()
    }

    /** An empty store. */
    constructor ()
      ensures Valid()
      ensures users == map[] && challenges == map[] && progress == map[]
      ensures friendships == map[] && items == map[] && inventory == map[] && purchases == []
      ensures badges == map[] && userBadges == [] && groups == map[] && members == map[]
      ensures messages == [] && actions == [] && events == [] && nextId == 0
    {
      users, challenges, progress := map[], map[], map[];
      friendships, items, inventory, purchases := map[], map[], map[], [];
      badges, userBadges, groups, members := map[], [], map[], map[];
      messages, actions, events, nextId := [], [], [], 0;
    }

    /** Emits an event to the subscribers: the event log grows by it. */
    method Emit(e: Event)
      modifies this`events
      ensures events == old(events) + [e]
    {
      events := events + [e];
    }

    /**
     * `user.update` of an existing user to a row whose level is at least 1
     * and not ahead of its XP.
     */
    method SetUser(userId: nat, u: User)
      requires Valid()
      requires userId in users
      requires 1 <= u.level <= XpLevel.CalculateLevel(u.xp)
      modifies this`users
      ensures Valid()
      ensures users == old(users)[userId := u]
    {
      users := users[userId := u];
      assert users.Keys == old(users).Keys;
      assert ProgressOk();
    }

    /** A fresh row id, larger than every id handed out before. */
    method NewId() returns (id: nat)
      modifies this`nextId
      ensures id == old(nextId) && nextId == id + 1
    {
      id := nextId;
      nextId := nextId + 1;
    }
  }
}
