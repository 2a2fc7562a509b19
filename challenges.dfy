/**
 * The challenge progress tracker (challenges.service.ts): joining a
 * challenge, advancing a task counter, completion of the challenge and
 * its one-time reward.
 */
module Challenges {
  import opened Outcomes
  import opened Ordering
  import opened Store
  import XpLevel

  /** `task.goalCount || 1`: a missing or zero goal counts as 1. */
  function GoalOf(t: Task): (goal: nat)
    ensures goal >= 1
    ensures t.goalCount.Some? && t.goalCount.value > 0 ==> goal == t.goalCount.value
    ensures t.goalCount.None? ==> goal == 1
  {
    match t.goalCount
    case Some(n) => if n > 0 then n else 1
    case None => 1
  }

  /**
   * The `forEach` of joinChallenge: one entry per task, counter at 0,
   * goal from the task, not completed.
   */
  method InitialTaskProgress(tasks: seq<Task>) returns (taskProgress: map<nat, TaskEntry>)
    requires TaskIdsDistinct(tasks)
    ensures forall id :: id in taskProgress <==> exists i :: 0 <= i < |tasks| && tasks[i].id == id
    ensures forall i :: 0 <= i < |tasks| ==> taskProgress[tasks[i].id] == TaskEntry(0, GoalOf(tasks[i]), false)
    ensures EntriesOk(taskProgress)
  {
    taskProgress := map[];
    for i := 0 to |tasks|
      invariant forall id :: id in taskProgress <==> exists j :: 0 <= j < i && tasks[j].id == id
      invariant forall j :: 0 <= j < i ==> taskProgress[tasks[j].id] == TaskEntry(0, GoalOf(tasks[j]), false)
    {
      taskProgress := taskProgress[tasks[i].id := TaskEntry(0, GoalOf(tasks[i]), false)];
    }
  }

  /**
   * joinChallenge: NotFound for an unknown challenge, Conflict when the
   * user already has a progress row for it (the store is unchanged in both
   * cases); otherwise one IN_PROGRESS row with a fresh entry per task.
   */
  method JoinChallenge(db: Db, userId: nat, challengeId: nat) returns (r: Result<Progress>)
    requires db.Valid()
    requires userId in db.users
    modifies db`progress
    ensures db.Valid()
    ensures challengeId !in db.challenges ==> r == Err(NotFound)
    ensures challengeId in db.challenges && (userId, challengeId) in old(db.progress) ==> r == Err(Conflict)
    ensures r.Err? ==> db.progress == old(db.progress)
    ensures challengeId in db.challenges && (userId, challengeId) !in old(db.progress) ==>
      var tasks := db.challenges[challengeId].tasks;
      && r.Ok?
      && db.progress == old(db.progress)[(userId, challengeId) := r.value]
      && r.value.status == InProgress && r.value.pointsEarned == 0
      && (forall id :: id in r.value.taskProgress <==> exists i :: 0 <= i < |tasks| && tasks[i].id == id)
      && (forall i :: 0 <= i < |tasks| ==> r.value.taskProgress[tasks[i].id] == TaskEntry(0, GoalOf(tasks[i]), false))
  {
    if challengeId !in db.challenges {
      return Err(NotFound);
    }
    if (userId, challengeId) in db.progress {
      return Err(Conflict);
    }
    var taskProgress := InitialTaskProgress(db.challenges[challengeId].tasks);
    var row := Progress(taskProgress, 0, InProgress);
    db.progress := db.progress[(userId, challengeId) := row];
    r := Ok(row);
  }

  /** `tasks.find(t => t.id === taskId)`: the first task with that id. */
  function FindTask(tasks: seq<Task>, taskId: nat): (r: Option<Task>)
    ensures r.Some? ==> r.value in tasks && r.value.id == taskId
    ensures r.None? <==> forall t :: t in tasks ==> t.id != taskId
  {
    if tasks == [] then None
    else if tasks[0].id == taskId then Some(tasks[0])
    else FindTask(tasks[1..], taskId)
  }

  /**
   * One increment of a task entry: the counter grows by the increment and
   * is clamped to the goal, at which point the entry is completed. On a
   * well-formed entry the counter never decreases and completion is never
   * undone.
   */
  function AdvanceEntry(e: TaskEntry, increment: nat): (e': TaskEntry)
    ensures e'.goal == e.goal
    ensures e.current + increment >= e.goal ==> e'.completed && e'.current == e.goal
    ensures e.current + increment < e.goal ==> e'.current == e.current + increment && e'.completed == e.completed
    ensures EntryOk(e) ==> EntryOk(e') && e.current <= e'.current <= e'.goal && (e.completed ==> e'.completed)
  {
    var bumped := e.(current := e.current + increment);
    if bumped.current >= bumped.goal then bumped.(completed := true, current := bumped.goal) else bumped
  }

  /** `Object.values(taskProgress).every(tp => tp.completed)`. */
  predicate AllCompleted(taskProgress: map<nat, TaskEntry>) {
    forall t :: t in taskProgress ==> taskProgress[t].completed
  }

  /** The entry a task starts from: the stored one, or a fresh one when the row has none. */
  function StartEntry(taskProgress: map<nat, TaskEntry>, task: Task): (e: TaskEntry)
    ensures task.id in taskProgress ==> e == taskProgress[task.id]
    ensures task.id !in taskProgress ==> e.current == 0 && e.goal == GoalOf(task) && !e.completed
    ensures EntriesOk(taskProgress) ==> EntryOk(e)
  {
    if task.id in taskProgress then taskProgress[task.id] else TaskEntry(0, GoalOf(task), false)
  }

  /**
   * The progress row after one increment of `task`: only that task's entry
   * changes, and it changes as AdvanceEntry says; the task's points are
   * added when its entry is completed after the call; the status is
   * COMPLETED exactly when every entry is completed. Well-formed entries
   * stay well-formed and the points never decrease.
   */
  function AdvanceProgress(p: Progress, task: Task, increment: nat): (p': Progress)
    ensures task.id in p'.taskProgress && p'.taskProgress.Keys == p.taskProgress.Keys + {task.id}
    ensures p'.taskProgress[task.id] == AdvanceEntry(StartEntry(p.taskProgress, task), increment)
    ensures forall t :: t in p.taskProgress && t != task.id ==> p'.taskProgress[t] == p.taskProgress[t]
    ensures p'.taskProgress[task.id].completed ==> p'.pointsEarned == p.pointsEarned + task.points
    ensures !p'.taskProgress[task.id].completed ==> p'.pointsEarned == p.pointsEarned
    ensures p'.status == Completed <==> AllCompleted(p'.taskProgress)
    ensures p'.status == InProgress <==> !AllCompleted(p'.taskProgress)
    ensures EntriesOk(p.taskProgress) ==> EntriesOk(p'.taskProgress)
  {
    var entry := AdvanceEntry(StartEntry(p.taskProgress, task), increment);
    var taskProgress := p.taskProgress[task.id := entry];
    var pointsEarned := if entry.completed then p.pointsEarned + task.points else p.pointsEarned;
    Progress(taskProgress, pointsEarned, if AllCompleted(taskProgress) then Completed else InProgress)
  }

  /**
   * The outcome of updateProgress on the progress table. Fails with
   * NotFound when the user has not joined, BadRequest when the challenge is
   * already COMPLETED, and NotFound when the task is not one of the
   * challenge's; otherwise the row advanced as AdvanceProgress says.
   */
  function ProgressAfter(progress: map<(nat, nat), Progress>, challenges: map<nat, Challenge>,
                         userId: nat, challengeId: nat, taskId: nat, increment: nat): (r: Result<Progress>)
    ensures (userId, challengeId) !in progress ==> r == Err(NotFound)
    ensures ((userId, challengeId) in progress && progress[(userId, challengeId)].status == Completed) ==>
      r == Err(BadRequest)
    ensures ((userId, challengeId) in progress && progress[(userId, challengeId)].status != Completed &&
             (challengeId !in challenges || FindTask(challenges[challengeId].tasks, taskId).None?)) ==>
      r == Err(NotFound)
    ensures r.Ok? <==>
      && (userId, challengeId) in progress && progress[(userId, challengeId)].status != Completed
      && challengeId in challenges && FindTask(challenges[challengeId].tasks, taskId).Some?
    ensures r.Ok? ==>
      r.value == AdvanceProgress(progress[(userId, challengeId)], FindTask(challenges[challengeId].tasks, taskId).value, increment)
  {
    if (userId, challengeId) !in progress then Err(NotFound)
    else if progress[(userId, challengeId)].status == Completed then Err(BadRequest)
    else if challengeId !in challenges then Err(NotFound)
    else match FindTask(challenges[challengeId].tasks, taskId)
      case None => Err(NotFound)
      case Some(task) => Ok(AdvanceProgress(progress[(userId, challengeId)], task, increment))
  }

  /**
   * updateProgress. On failure nothing changes. On success the row is
   * replaced by the advanced one; when its status becomes COMPLETED the
   * challenge's reward XP and coins are paid and one completion event is
   * emitted, and otherwise users and events are untouched. The reward does
   * not recompute the user's level.
   */
  method UpdateProgress(db: Db, userId: nat, challengeId: nat, taskId: nat, increment: nat)
    returns (r: Result<Progress>)
    requires db.Valid()
    requires increment >= 1
    modifies db`progress, db`users, db`events
    ensures db.Valid()
    ensures r == ProgressAfter(old(db.progress), db.challenges, userId, challengeId, taskId, increment)
    ensures r.Err? ==>
      db.progress == old(db.progress) && db.users == old(db.users) && db.events == old(db.events)
    ensures r.Ok? ==> db.progress == old(db.progress)[(userId, challengeId) := r.value]
    ensures r.Ok? && r.value.status == Completed ==>
      && userId in old(db.users) && challengeId in db.challenges
      && db.users == old(db.users)[userId := Rewarded(old(db.users)[userId], db.challenges[challengeId])]
      && db.events == old(db.events) + [ChallengeDone(userId, challengeId, db.challenges[challengeId])]
    ensures r.Ok? && r.value.status != Completed ==> db.users == old(db.users) && db.events == old(db.events)
  {
    if (userId, challengeId) !in db.progress {
      return Err(NotFound);
    }
    var progress := db.progress[(userId, challengeId)];
    assert userId in db.users && challengeId in db.challenges && EntriesOk(progress.taskProgress) by {
      assert db.ProgressOk();
    }
    if progress.status == Completed {
      return Err(BadRequest);
    }
    var challenge := db.challenges[challengeId];
    var found := FindTask(challenge.tasks, taskId);
    if found.None? {
      return Err(NotFound);
    }
    var updated := AdvanceProgress(progress, found.value, increment);
    SaveProgress(db, userId, challengeId, updated);
    if updated.status == Completed {
      CompleteChallenge(db, userId, challengeId);
    }
    r := Ok(updated);
  }

  /** What follows a completion: the reward is paid, then `challenge.completed` is emitted. */
  method CompleteChallenge(db: Db, userId: nat, challengeId: nat)
    requires db.Valid()
    requires userId in db.users && challengeId in db.challenges
    modifies db`users, db`events
    ensures db.Valid()
    ensures db.users == old(db.users)[userId := Rewarded(old(db.users)[userId], db.challenges[challengeId])]
    ensures db.events == old(db.events) + [ChallengeDone(userId, challengeId, db.challenges[challengeId])]
  {
    var challenge := db.challenges[challengeId];
    AwardChallengeRewards(db, userId, challenge);
    db.Emit(ChallengeDone(userId, challengeId, challenge));
  }

  /** `userChallengeProgress.update`: replaces a stored progress row. */
  method SaveProgress(db: Db, userId: nat, challengeId: nat, row: Progress)
    requires db.Valid()
    requires (userId, challengeId) in db.progress
    requires EntriesOk(row.taskProgress)
    modifies db`progress
    ensures db.Valid()
    ensures db.progress == old(db.progress)[(userId, challengeId) := row]
  {
    db.progress := db.progress[(userId, challengeId) := row];
  }

  /**
   * awardChallengeRewards: increments XP and coins by the challenge's
   * reward. The level is left as stored, so it may now lag behind the XP.
   */
  method AwardChallengeRewards(db: Db, userId: nat, challenge: Challenge)
    requires db.Valid()
    requires userId in db.users
    modifies db`users
    ensures db.Valid()
    ensures db.users == old(db.users)[userId := Rewarded(old(db.users)[userId], challenge)]
  {
    var u := db.users[userId];
    XpLevel.LevelMonotone(u.xp, u.xp + challenge.rewardXp);
    db.SetUser(userId, Rewarded(u, challenge));
  }

  /**
   * The user after a challenge's reward: XP and coins grow by the reward,
   * the profile and the stored level stay as they were.
   */
  function Rewarded(u: User, challenge: Challenge): (u': User)
    ensures u'.xp == u.xp + challenge.rewardXp && u'.coins == u.coins + challenge.rewardCoins
    ensures u'.level == u.level && u'.email == u.email && u'.displayName == u.displayName
  {
    u.(xp := u.xp + challenge.rewardXp, coins := u.coins + challenge.rewardCoins)
  }

  /** getUserProgress. */
  function GetUserProgress(progress: map<(nat, nat), Progress>, userId: nat, challengeId: nat): (r: Result<Progress>)
    ensures (userId, challengeId) !in progress <==> r == Err(NotFound)
    ensures r.Ok? ==> r.value == progress[(userId, challengeId)]
  {
    if (userId, challengeId) in progress then Ok(progress[(userId, challengeId)]) else Err(NotFound)
  }

  function StartAt(challenges: map<nat, Challenge>, id: nat): int {
    if id in challenges then challenges[id].startAt else 0
  }

  /**
   * getAllChallenges: the global challenges that have not ended at `now`,
   * each once, latest start first.
   */
  function GetAllChallenges(challenges: map<nat, Challenge>, now: int): (r: seq<nat>)
    ensures forall c :: c in r <==> c in challenges && challenges[c].isGlobal && challenges[c].endAt >= now
    ensures Distinct(r)
    ensures forall i, j :: 0 <= i < j < |r| ==> challenges[r[i]].startAt >= challenges[r[j]].startAt
  {
    var open := set c | c in challenges && challenges[c].isGlobal && challenges[c].endAt >= now;
    var ids := Ascending(open);
    AscendingDistinct(open);
    var key := (id: nat) => StartAt(challenges, id);
    var r := Order(ids, key);
    ByStartAt(challenges, key, r);
    r
  }

  /** Ids of stored challenges sorted by `StartAt` are sorted by their start dates. */
  lemma ByStartAt(challenges: map<nat, Challenge>, key: nat -> int, r: seq<nat>)
    requires forall id :: key(id) == StartAt(challenges, id)
    requires forall x :: x in r ==> x in challenges
    requires forall i, j :: 0 <= i < j < |r| ==> key(r[i]) >= key(r[j])
    ensures forall i :: 0 <= i < |r| ==> r[i] in challenges
    ensures forall i, j :: 0 <= i < j < |r| ==> challenges[r[i]].startAt >= challenges[r[j]].startAt
  {
    assert forall i :: 0 <= i < |r| ==> r[i] in r;
  }
}
