# Sabit progress and rewards engine, in Dafny

This project models the progress and rewards engine of the Sabit NestJS backend, with proofs. That engine covers:

- the level arithmetic;
- the XP and coin ledger with its level-up events;
- the challenge progress tracker and its one-time reward;
- daily acts of worship with their rewards and streaks;
- the shop;
- badges;
- the friendship state machine;
- the leaderboards;
- the chat rules for visibility, messages and membership.

The Prisma database is one object, `Store.Db`, with one field per table:

- Keyed tables are `map`s from row id to row.
- Append-only tables are `seq`s in insertion order: purchases, awarded badges, messages, daily actions, and the log of emitted events.

Each service operation that writes to the store is a method taking the store. Its `modifies` clause names the tables it may write, one field at a time. Every such method keeps the store invariant `Db.Valid()`, which says:

- progress rows refer to an existing user and challenge, and inventory rows to an existing item (the other foreign keys — of friendships, memberships, badge awards, messages, daily actions and purchases — are not tracked by the invariant);
- ids handed out are below `nextId`;
- the stored level is at least 1 and never ahead of the level the XP gives;
- task entries are well formed;
- no friendship joins a user to themself, and at most one row joins any two users;
- inventory rows are unique per (user, item), and a user wears at most one item per type;
- a user holds each badge at most once;
- the daily-action log is in timestamp order.

Read-only queries are functions of the tables they read.

Modelling conventions:

- Row ids are naturals handed out in increasing order. So "newest first" (`orderBy: { createdAt: 'desc' }` on groups, requests and messages) is "largest id first", or "latest position first" in a log.
- A `findFirst` without an order picks the smallest id.
- `orderBy: { key: 'desc' }` is a stable sort of the ids taken in ascending order. Rows with equal keys therefore come out in ascending id order.
- Timestamps are integer milliseconds and "now" is a parameter. The day of a timestamp is `t / 86400000`, in one fixed time zone with no daylight saving.
- Errors are `NotFound`, `Conflict` and `BadRequest`, the NestJS exceptions the services throw, returned as `Result.Err`. On every error path the store is left exactly as it was.
- Every lookup by id that throws NotFound on a missing row is `Outcomes.Lookup`: `getChallengeById` (challenges.service.ts:72-85), `getItemById` (shop.service.ts:20-30), `getBadgeById` (badges.service.ts:28-38) and `getGroupById` (chat.service.ts:63-73).
- The in-process event bus is the append-only `events` log. The badge handlers are methods that are called explicitly.

Files:

| file | contents |
|---|---|
| outcomes.dfy | `Result`, `Option`, the error kinds, lookup by id |
| xp_level.dfy | integer square root, `calculateLevel`, `xpForNextLevel`, `xpProgress` |
| ordering.dfy | ascending and descending id orders, `findFirst`, stable descending sort, `take` |
| store.dfy | the rows, the store object, its invariant |
| users.dfy | ledger and friendship state machine |
| challenges.dfy | challenge progress tracker |
| daily.dfy | daily actions, time windows, streak, quote of the day |
| shop.dfy | purchases, equip and unequip |
| badges.dfy | badge awarding and event handlers |
| leaderboards.dfy | XP, coins, challenge and friends leaderboards |
| chat.dfy | group visibility, messages, leaving a group |

## Model

| member | source | states |
|---|---|---|
| XpLevel.ISqrt | Backend/src/common/utils/xp-level.util.ts:6 | the integer square root: r*r <= n < (r+1)*(r+1), the integer counterpart of `Math.floor(Math.sqrt(..))` |
| XpLevel.CalculateLevel | Backend/src/common/utils/xp-level.util.ts:5-7 | the level is at least 1, and xp lies in its band 100*(L-1)^2 <= xp < 100*L^2 |
| XpLevel.LevelUnique | Backend/src/common/utils/xp-level.util.ts:5-7 | a level whose band contains xp is calculateLevel(xp), so the band characterises the level |
| XpLevel.LevelMonotone | Backend/src/common/utils/xp-level.util.ts:5-7 | more XP never gives a lower level |
| XpLevel.XpForNextLevel | Backend/src/common/utils/xp-level.util.ts:12-14 | the threshold of any level >= 1 is at least 100 |
| XpLevel.LevelAtThreshold | Backend/src/common/utils/xp-level.util.ts:5-14 | reaching xpForNextLevel(L) exactly puts a user at level L + 1 |
| XpLevel.LevelBelowThreshold | Backend/src/common/utils/xp-level.util.ts:5-14 | one XP below xpForNextLevel(L), a user is still at level L |
| XpLevel.XpProgress | Backend/src/common/utils/xp-level.util.ts:19-28 | currentLevel is calculateLevel(xp); xpForCurrent <= xp < xpForNext = xpForNextLevel(level); the percentage's denominator is never zero |
| Users.LevelUpEvents | Backend/src/modules/users/users.service.ts:89-96 | at most one event; one exactly when the new level is above the old one, whatever the number of levels crossed, carrying (oldLevel, newLevel) |
| Users.AddXp | Backend/src/modules/users/users.service.ts:68-99 | NotFound for an unknown user, nothing changed; otherwise xp' = xp + amount and level' = calculateLevel(xp'), coins untouched, events grow by LevelUpEvents(old, new) |
| Users.AddCoins | Backend/src/modules/users/users.service.ts:101-112 | coins' = coins + amount, XP and level untouched; NotFound for an unknown user |
| Users.DeductCoins | Backend/src/modules/users/users.service.ts:114-137 | NotFound for an unknown user, BadRequest when coins < amount, nothing changed on either; otherwise coins' = coins - amount, never negative |
| Users.FindUserByEmail | Backend/src/modules/users/users.service.ts:143-153 | `findUnique({ email })`: a user with that email, or none when no user has it |
| Users.SearchUserByEmail | Backend/src/modules/users/users.service.ts:432-450 | NotFound exactly when no user has the email; otherwise a user with that email |
| Users.RequestTarget | Backend/src/modules/users/users.service.ts:140-157 | the addressee: the owner of a non-empty email (NotFound if none), else friendId, else BadRequest |
| Users.SendFriendRequest | Backend/src/modules/users/users.service.ts:139-214 | the addressee's errors first; BadRequest for oneself; NotFound for an unknown user; Conflict when any row joins the two users, in either direction and any status; otherwise exactly one new PENDING row from sender to addressee; nothing changes on failure |
| Users.AcceptFriendRequest | Backend/src/modules/users/users.service.ts:216-317 | NotFound or BadRequest (only the recipient may accept), nothing changed; otherwise the row becomes ACCEPTED whatever its status; a PRIVATE group named after both users, with both as members, is created only when none holds both; afterwards they always share one |
| Users.OpenPrivateChat | Backend/src/modules/users/users.service.ts:284-308 | one PRIVATE group named "A & B" and exactly two membership rows, after which the two users share a private group |
| Users.BlockFriendRequest | Backend/src/modules/users/users.service.ts:319-343 | NotFound or BadRequest (only the recipient may block), nothing changed; otherwise that row alone becomes BLOCKED whatever its status |
| Users.FindAccepted | Backend/src/modules/users/users.service.ts:347-354 | an ACCEPTED row joining the two users in either direction, or none when no such row exists |
| Users.Unfriend | Backend/src/modules/users/users.service.ts:345-373 | NotFound and nothing changed without an ACCEPTED row between the two; otherwise exactly that row is deleted |
| Users.BlockFriend | Backend/src/modules/users/users.service.ts:375-404 | NotFound and nothing changed without an ACCEPTED row between the two; otherwise exactly that row becomes BLOCKED |
| Users.OtherParties | Backend/src/modules/users/users.service.ts:474-478 | one id per friendship, the other party of each, in order |
| Users.GetFriends | Backend/src/modules/users/users.service.ts:452-494 | x is listed exactly when some ACCEPTED row involves the user and has x as its other party |
| Users.GetPendingRequests | Backend/src/modules/users/users.service.ts:406-430 | exactly the PENDING rows addressed to the user, newest first |
| Challenges.GoalOf | Backend/src/modules/challenges/challenges.service.ts:116 | `goalCount \|\| 1`: the goal is at least 1, the goal count when it is positive, and 1 when it is missing |
| Challenges.InitialTaskProgress | Backend/src/modules/challenges/challenges.service.ts:111-119 | one entry per task id and no other key; each entry is {current 0, goal goalCount \|\| 1, not completed}, and all are well formed |
| Challenges.JoinChallenge | Backend/src/modules/challenges/challenges.service.ts:87-142 | NotFound for an unknown challenge, Conflict for a second join, nothing changed on either; otherwise one IN_PROGRESS row with 0 points and the initial entries |
| Challenges.FindTask | Backend/src/modules/challenges/challenges.service.ts:174 | a task of the challenge with that id, or none exactly when no task has it |
| Challenges.AdvanceEntry | Backend/src/modules/challenges/challenges.service.ts:189-195 | completed with current = goal when current + increment >= goal; otherwise current grows by the increment and completion is unchanged; on a well-formed entry current stays <= goal, never decreases, and completion is never undone |
| Challenges.StartEntry | Backend/src/modules/challenges/challenges.service.ts:181-187 | the stored entry, or a fresh {0, goal, not completed} when the row has none |
| Challenges.AdvanceProgress | Backend/src/modules/challenges/challenges.service.ts:180-208 | only the task's entry changes, as AdvanceEntry says; points grow by the task's points exactly when that entry is completed after the call, also on a repeat call for a completed task; the status is COMPLETED exactly when every entry is completed; well-formed entries stay well formed |
| Challenges.ProgressAfter | Backend/src/modules/challenges/challenges.service.ts:165-208 | NotFound without a row, BadRequest when already COMPLETED, NotFound for a task not in the challenge, in that order; Ok exactly otherwise, with the advanced row |
| Challenges.UpdateProgress | Backend/src/modules/challenges/challenges.service.ts:144-243 | the result is ProgressAfter of the old table; nothing changes on failure; on success the row is replaced; when it turns COMPLETED the user gets the reward XP and coins and one completion event is emitted, otherwise users and events are untouched |
| Challenges.CompleteChallenge | Backend/src/modules/challenges/challenges.service.ts:233-240 | the reward is paid, then exactly one `challenge.completed` event with the challenge is appended |
| Challenges.AwardChallengeRewards | Backend/src/modules/challenges/challenges.service.ts:285-297 | only the user's row changes: XP and coins increment by the reward, and the level is not recomputed |
| Challenges.Rewarded | Backend/src/modules/challenges/challenges.service.ts:285-297 | XP and coins grow by exactly the reward; the level and the profile are unchanged |
| Outcomes.Lookup | Backend/src/modules/challenges/challenges.service.ts:72-85 | the row under the id, and NotFound exactly when there is none |
| Challenges.GetUserProgress | Backend/src/modules/challenges/challenges.service.ts:245-267 | NotFound exactly when the user has not joined; otherwise that row |
| Challenges.GetAllChallenges | Backend/src/modules/challenges/challenges.service.ts:55-70 | exactly the global challenges not ended at `now`, each once, latest start first |
| Daily.StartOfDay | Backend/src/modules/daily/daily.service.ts:55-56 | the midnight that starts the day of t: s <= t < s + one day |
| Daily.DayMonotone | Backend/src/modules/daily/daily.service.ts:88-93 | a later timestamp never falls on an earlier day |
| Daily.SameDay | Backend/src/modules/daily/daily.service.ts:55-63 | t falls on the day of `now` exactly when it lies between that day's midnight and the next |
| Daily.GetActionRewards | Backend/src/modules/daily/daily.service.ts:126-135 | PRAYER 50/10, TASBEEH 30/5, CHARITY 100/20, AZKAR 40/8, any other type 10/2 |
| Daily.RecordAction | Backend/src/modules/daily/daily.service.ts:13-35 | always appends exactly one row stamped `now`, with no per-day uniqueness check; the user is credited with exactly the type's XP, with the level recomputed, and coins; a level-up event is emitted as addXp does |
| Daily.Credit | Backend/src/modules/daily/daily.service.ts:26-29 | addXp then addCoins: xp, level and coins of the user as the two promise, and no other user changes |
| Daily.AppendAction | Backend/src/modules/daily/daily.service.ts:15-21 | the row joins the end of the log, which stays in timestamp order |
| Daily.IndicesSince | Backend/src/modules/daily/daily.service.ts:41-51 | exactly the log positions of the user's rows stamped at or after `since`, latest first |
| Daily.ActionsSince | Backend/src/modules/daily/daily.service.ts:41-51 | those rows in that order; on a chronological log their timestamps do not increase |
| Daily.GetUserActions | Backend/src/modules/daily/daily.service.ts:37-52 | only the user's rows of the last `days` days, and every one of them, one entry per matching log position (duplicates kept); on a chronological log, latest first |
| Daily.GetTodayActions | Backend/src/modules/daily/daily.service.ts:54-69 | only rows of the user stamped at or after today's midnight; every row of the user dated today; with no future row, exactly today's rows, one entry per matching log position; newest first |
| Daily.LatestOfType | Backend/src/modules/daily/daily.service.ts:72-81 | at most 365 positions of the user's rows of the type, latest first; a row of the type left out means 365 later rows were taken |
| Daily.StreakOffsets | Backend/src/modules/daily/daily.service.ts:84-93 | one offset per row LatestOfType takes, in its order: today's day minus the day of that row; on a chronological log they never decrease |
| Daily.CountStreak | Backend/src/modules/daily/daily.service.ts:83-101 | the streak is at most the number of offsets; every day 0 .. streak-1 occurs; on ascending offsets the day `streak` does not |
| Daily.StreakUnique | Backend/src/modules/daily/daily.service.ts:83-101 | at most one k has days 0 .. k-1 present and day k missing, so the streak is the longest such run |
| Daily.SameDayKeepsStreak | Backend/src/modules/daily/daily.service.ts:95-99 | another action on a day already present leaves the streak unchanged |
| Daily.GetStreak | Backend/src/modules/daily/daily.service.ts:71-103 | at most 365; on a chronological log the streak is the unique run ending today, and with no row after `now` it is positive exactly when the user has an action of the type today |
| Daily.StreakIffDoneToday | Backend/src/modules/daily/daily.service.ts:84-103 | on a chronological log with no row after `now`, the streak is positive exactly when an action of the type lies on today, even beyond the latest 365 |
| Daily.QuoteOfTheDay | Backend/src/modules/daily/daily.service.ts:105-124 | `dayOfYear % 5` is always a valid position, and the quote is one of the five |
| Shop.CheckPurchase | Backend/src/modules/shop/shop.service.ts:44-79 | errors in the source's order: NotFound for the item, Conflict when already owned, NotFound for the user, BadRequest for coins, BadRequest for XP when the item asks for XP; Ok exactly when all checks pass |
| Shop.BuyItem | Backend/src/modules/shop/shop.service.ts:38-118 | fails exactly as CheckPurchase says, with nothing changed; otherwise coins drop by exactly the price and stay >= 0, XP is not deducted, one unowned inventory row and one SUCCESS purchase with the price are added; the inventory stays unique per (user, item) |
| Shop.Checkout | Backend/src/modules/shop/shop.service.ts:82-115 | the transaction's three writes, all of them: the coin decrement, one inventory row, one purchase record |
| Shop.Charge | Backend/src/modules/shop/shop.service.ts:84-91 | only the user's coins change, decremented by a price they cover |
| Shop.AddInventoryRow | Backend/src/modules/shop/shop.service.ts:94-102 | one new row under a fresh id, the inventory otherwise as it was |
| Shop.EquipItem | Backend/src/modules/shop/shop.service.ts:120-156 | NotFound for an unknown row, BadRequest for another user's row, nothing changed on either; otherwise the chosen row is worn, every other row of the user and type is taken off, other rows are untouched, and at most one item per (user, type) is worn |
| Shop.UnequipSlot | Backend/src/modules/shop/shop.service.ts:136-146 | every row of the user holding an item of the type is taken off, and no other row changes |
| Shop.UnequipItem | Backend/src/modules/shop/shop.service.ts:158-178 | the same ownership checks, nothing changed on failure; otherwise only that row is taken off |
| Badges.WithBadge | Backend/src/modules/badges/badges.service.ts:46-73 | the user holds the badge afterwards; the rows are the old ones plus that pair, one row added only when it was missing |
| Badges.WithBadgeIdempotent | Backend/src/modules/badges/badges.service.ts:46-73 | awarding twice gives the same rows as awarding once |
| Badges.AwardBadge | Backend/src/modules/badges/badges.service.ts:40-76 | NotFound for an unknown badge, Conflict when held, nothing changed on either; otherwise exactly one (user, badge) row is added; a user holds each badge at most once |
| Badges.DecimalString | Backend/src/modules/badges/badges.service.ts:101 | the digits of a level in a template literal: non-empty, all digits, no leading zero |
| Badges.ParseDecimalString | Backend/src/modules/badges/badges.service.ts:101 | reading the digits back gives the number |
| Badges.LevelBadgeNameInjective | Backend/src/modules/badges/badges.service.ts:101 | different levels give different "Level N Master" names |
| Badges.FindBadgeByName | Backend/src/modules/badges/badges.service.ts:102-104 | the lowest-id badge with that name, or none when no badge has it |
| Badges.LevelUpBadge | Backend/src/modules/badges/badges.service.ts:98-104 | a badge is sought only when the new level is exactly 5, 10, 25, 50 or 100; milestones jumped over are not |
| Badges.HandleLevelUp | Backend/src/modules/badges/badges.service.ts:92-115 | the milestone badge is given when it exists, and a conflict is swallowed; otherwise nothing changes |
| Badges.HandleLevelUpTwice | Backend/src/modules/badges/badges.service.ts:92-115 | handling the same level-up twice leaves the badges as handling it once |
| Badges.HandleChallengeCompleted | Backend/src/modules/badges/badges.service.ts:118-137 | the "<title> Champion" badge is given when it exists, and a conflict is swallowed; otherwise nothing changes |
| Leaderboards.Rank | Backend/src/modules/leaderboards/leaderboards.service.ts:8-22 | min(limit, n) distinct ids from the input, sorted by key descending; no id left out outranks one taken; all ids when the limit allows |
| Leaderboards.AllUserIds | Backend/src/modules/leaderboards/leaderboards.service.ts:9 | every user id once |
| Leaderboards.XpLeaderboard | Backend/src/modules/leaderboards/leaderboards.service.ts:8-22 | min(limit, users) users, each once, XP descending; no user left out has more XP than one listed |
| Leaderboards.CoinsLeaderboard | Backend/src/modules/leaderboards/leaderboards.service.ts:24-38 | min(limit, users) users, each once, coins descending; no user left out has more coins than one listed |
| Leaderboards.Participants | Backend/src/modules/leaderboards/leaderboards.service.ts:42-47 | exactly the users with an IN_PROGRESS or COMPLETED row for the challenge |
| Leaderboards.ByPoints | Backend/src/modules/leaderboards/leaderboards.service.ts:60-63 | at most `limit` of the given users, each once, points descending; none left out has more points than one listed; all of them when fewer than `limit` are listed |
| Leaderboards.ChallengeLeaderboard | Backend/src/modules/leaderboards/leaderboards.service.ts:40-65 | only users of ranked rows of the challenge, at most `limit`, each once, points descending; no ranked user left out outscores one listed; all of them when fewer than `limit` are listed |
| Leaderboards.FriendIds | Backend/src/modules/leaderboards/leaderboards.service.ts:69-81 | exactly the user and the other party of each ACCEPTED friendship involving the user |
| Ordering.Order | Backend/src/modules/leaderboards/leaderboards.service.ts:83-100 | the same ids, each once, sorted by the key descending |
| Leaderboards.ByXp | Backend/src/modules/leaderboards/leaderboards.service.ts:83-100 | the given users, each once, XP descending |
| Leaderboards.ByCoins | Backend/src/modules/leaderboards/leaderboards.service.ts:83-100 | the given users, each once, coins descending |
| Leaderboards.FriendsLeaderboard | Backend/src/modules/leaderboards/leaderboards.service.ts:67-101 | exactly the existing users among the friend ids, each once, by XP descending for type "xp" and by coins descending otherwise |
| Chat.GetAllGroups | Backend/src/modules/chat/chat.service.ts:15-61 | with a user: exactly the PUBLIC and CHALLENGE groups and the PRIVATE groups they belong to; without: exactly the PUBLIC groups; newest first |
| Chat.SendMessage | Backend/src/modules/chat/chat.service.ts:75-102 | NotFound and nothing appended for an unknown group; otherwise exactly one message with that sender and content, membership unchecked |
| Chat.GroupMessageIndices | Backend/src/modules/chat/chat.service.ts:113-126 | exactly the positions of the group's messages, newest first |
| Chat.GetMessages | Backend/src/modules/chat/chat.service.ts:104-129 | NotFound exactly for an unknown group; otherwise at most `limit` of the group's messages, newest first, and all of them when fewer than `limit` are returned |
| Chat.LatestIndices | Backend/src/modules/chat/chat.service.ts:113-127 | the positions taken are the group's, strictly newest first, and all of them when fewer than `limit` |
| Chat.PickedFromGroup | Backend/src/modules/chat/chat.service.ts:113-127 | messages picked at the group's positions belong to the group and the log |
| Chat.FindMembership | Backend/src/modules/chat/chat.service.ts:141-146 | a membership row joining the user to the group, or none exactly when the user is not a member |
| Chat.LeaveGroup | Backend/src/modules/chat/chat.service.ts:131-158 | NotFound for an unknown group or a non-member, nothing changed; otherwise exactly that one membership row is removed |
| Chat.CreateGroup | Backend/src/modules/users/users.service.ts:295-298 | one new group under a fresh id |
| Chat.AddMember | Backend/src/modules/users/users.service.ts:299-303 | one new membership row under a fresh id |
| Ordering.Descending | Backend/src/modules/users/users.service.ts:424-426 | the ids of a set, each once, strictly descending, so newest first |
| Ordering.First | Backend/src/modules/users/users.service.ts:347-354 | `findFirst`: the smallest matching id, none exactly when nothing matches |
| Ordering.SortDesc | Backend/src/modules/leaderboards/leaderboards.service.ts:17-19 | a permutation of the input sorted by key descending |
| Ordering.TopRows | Backend/src/modules/leaderboards/leaderboards.service.ts:17-20 | after `orderBy desc` and `take`, no row left out has a larger key than a row taken |
| Ordering.TakeDescending | Backend/src/modules/daily/daily.service.ts:72-81 | `take` on a newest-first order keeps every element when there are fewer than the limit, and otherwise only elements newer than every one left out |

## Left out

- WebSocket gateways and the `usersGateway.emit*` notifications to the other user are not modelled. They are network push with no effect on the store.
- The floating-point percentage of `xpProgress` is not modelled, and neither is `Math.sqrt` rounding for very large XP. The level is the exact integer square root.
- The wall clock and time zones are not modelled:
  - "now" is a parameter in integer milliseconds;
  - days are fixed 24-hour periods of one zone, with no daylight saving;
  - `getUserActions` goes back `days` whole days, not calendar days across a clock change;
  - the quote's day of the year is a parameter.
- Concurrency is not modelled; every operation runs alone. This leaves out:
  - the read-then-write races of `deductCoins`, of `buyItem`'s checks and of the double completion payout;
  - the `Promise.all` of `recordAction`, which is modelled as addXp followed by addCoins.
- Event delivery (EventEmitter2, `@OnEvent`) is not modelled. Emitted events are appended to a log and the badge handlers are called explicitly.
- Message order is the order of the message log. `createdAt` of messages, groups and friend requests is read as creation order, i.e. as id or position order.
- Ties in `orderBy ... desc` (equal XP, coins, points or start dates) come out in ascending id order. The database leaves that order unspecified.
- Not modelled, because each is only a read of one table or an admin insert with no rule to state:
  - `createChallenge`, `createItem`, `createBadge` and the standalone `createGroup` endpoint (Chat.CreateGroup models only the private group `acceptFriendRequest` creates);
  - `getAllItems`, `getAllBadges`, `getUserBadges` and `getUserChallenges`;
  - `getProfile`, `updateProfile`, `getInventory` and `getEquippedItems`.
- The `metadata` of a daily action and the selected or included relation columns of query results are not modelled. Results are ids or rows.
- Badges.AwardBadge: does not check that the user exists; the store does not model the user foreign key of the badge table.
- Users.AddCoins: an unknown user gives NotFound, standing for the error Prisma raises when `update` finds no row.
- Users.RequestTarget: friend ids are naturals, so the source's empty-string friend id cannot occur; an empty email is treated as absent.
- Users.RequestTarget: models the service as written, email branch included. Over HTTP that branch is not live: the friend request body declares only `friendId`, and the global validation pipe (main.ts:16-22) rejects a body carrying `email` with BadRequest before the service runs.
- Challenges.UpdateProgress: requires increment >= 1, as the progress DTO validates; the goal count and points bounds of the challenge DTO are not needed by the proofs.
- JoinChallenge and RecordAction require the caller to be an existing user. The authenticated user id always is one.
- Users.SendFriendRequest: requires the sender to be an existing user, as the authenticated user id always is; for a missing sender the source's `friend.create` would fail on its user foreign key, which the model does not state.
- Chat.SendMessage: requires the sender to be an existing user, as the authenticated user id always is; for a missing sender the source's `message.create` would fail on its sender foreign key, which the model does not state.
- RecordAction requires `now` to be no earlier than any stored action, which keeps the log chronological. GetStreak and the window queries state their ordering results only for a chronological log.
- Behaviour the model keeps exactly as the code has it:
  - `recordAction` records every call, with no per-day deduplication;
  - the challenge reward adds XP without recomputing the level, so the store invariant only bounds the stored level by the level the XP gives.
