/** The board of the tasks page and its experience-point (XP) game: completing a
    task earns its points and may raise the level once; un-completing takes the points back
    without ever lowering the level. */
module Tasks {
  import opened Basics
  import Text
  import Seqs

  datatype Task = Task(id: string, title: string, points: nat, completed: bool,
                       assignee: Option<string>, dueDate: Option<string>)

  datatype Stats = Stats(level: int, currentXP: int, xpToNextLevel: nat, totalTasksCompleted: int)

  /** The stats the page starts with: level 1, 15 XP of 100, one task done. */
  const InitialStats: Stats := Stats(1, 15, 100, 1)

  /** The three demo tasks the page starts with. */
  const InitialTasks: seq<Task> := [
    Task("1", "Clean the kitchen", 50, false, Some("Dad"), None),
    Task("2", "Take out trash", 20, false, Some("Mom"), None),
    Task("3", "Water plants", 15, true, Some("Kid"), None)
  ]

  /** `Math.floor(x * 1.5)` for a non-negative integer `x`. */
  function Grow(x: nat): (r: nat)
    ensures 2 * r <= 3 * x < 2 * r + 2
  {
    x + x / 2
  }

  /** The XP needed to leave `level`: 100 at level 1, then grown by half at each level-up. */
  function Threshold(level: int): (t: nat)
    ensures t >= 100
    decreases level
  {
    if level <= 1 then 100 else Grow(Threshold(level - 1))
  }

  /** The XP it takes to reach `level` from level 1 with 0 XP. */
  function XPBefore(level: int): nat
    decreases level
  {
    if level <= 1 then 0 else XPBefore(level - 1) + Threshold(level - 1)
  }

  /** Stats that the game could have reached from level 1: the threshold matches the level. */
  predicate OnTrack(s: Stats) {
    s.level >= 1 && s.xpToNextLevel == Threshold(s.level) && s.currentXP >= 0 && s.totalTasksCompleted >= 0
  }

  /** The XP earned since level 1, as the stats record it. */
  function EarnedXP(s: Stats): int {
    XPBefore(s.level) + s.currentXP
  }

  /** The stats after completing a task worth `points`: the sum is checked against the threshold
      once, so at most one level-up happens, and the completed count goes up by one. */
  function Completed(s: Stats, points: nat): (r: Stats)
    ensures s.level <= r.level <= s.level + 1
    ensures r.level == s.level + 1 <==> s.currentXP + points >= s.xpToNextLevel
    ensures r.level == s.level ==> r.currentXP == s.currentXP + points && r.xpToNextLevel == s.xpToNextLevel
    ensures r.level == s.level + 1 ==> r.currentXP == s.currentXP + points - s.xpToNextLevel
    ensures r.level == s.level + 1 ==> r.xpToNextLevel == Grow(s.xpToNextLevel)
    ensures r.xpToNextLevel >= s.xpToNextLevel
    ensures r.totalTasksCompleted == s.totalTasksCompleted + 1
  {
    var sum := s.currentXP + points;
    if sum >= s.xpToNextLevel then
      Stats(s.level + 1, sum - s.xpToNextLevel, Grow(s.xpToNextLevel), s.totalTasksCompleted + 1)
    else
      Stats(s.level, sum, s.xpToNextLevel, s.totalTasksCompleted + 1)
  }

  /** The stats after un-completing a task worth `points`: XP and the completed count drop, floored
      at 0, and the level and threshold stay where they are. */
  function Uncompleted(s: Stats, points: nat): (r: Stats)
    ensures r.level == s.level && r.xpToNextLevel == s.xpToNextLevel
    ensures r.currentXP >= 0 && r.totalTasksCompleted >= 0
    ensures s.currentXP >= points ==> r.currentXP == s.currentXP - points
    ensures s.currentXP < points ==> r.currentXP == 0
    ensures s.totalTasksCompleted >= 1 ==> r.totalTasksCompleted == s.totalTasksCompleted - 1
    ensures s.totalTasksCompleted < 1 ==> r.totalTasksCompleted == 0
  {
    Stats(s.level,
          if s.currentXP - points > 0 then s.currentXP - points else 0,
          s.xpToNextLevel,
          if s.totalTasksCompleted - 1 > 0 then s.totalTasksCompleted - 1 else 0)
  }

  /** Completing keeps the stats on track and adds exactly a completed item's points to the XP earned. */
  lemma CompletionConservesXP(s: Stats, points: nat)
    requires OnTrack(s)
    ensures OnTrack(Completed(s, points))
    ensures EarnedXP(Completed(s, points)) == EarnedXP(s) + points
  {
    var r := Completed(s, points);
    if r.level == s.level + 1 {
      assert XPBefore(s.level + 1) == XPBefore(s.level) + Threshold(s.level);
      assert Threshold(s.level + 1) == Grow(Threshold(s.level));
    }
  }

  /** Un-completing keeps the stats on track and takes back the points, but never more than
      the XP gathered in the current level. */
  lemma UncompletionTakesBackXP(s: Stats, points: nat)
    requires OnTrack(s)
    ensures OnTrack(Uncompleted(s, points))
    ensures EarnedXP(Uncompleted(s, points)) == EarnedXP(s) - (if points <= s.currentXP then points else s.currentXP)
  {
  }

  /** Without a level-up, un-completing a task undoes its completion exactly. */
  lemma UndoWithoutLevelUp(s: Stats, points: nat)
    requires s.currentXP >= 0 && s.totalTasksCompleted >= 0
    requires s.currentXP + points < s.xpToNextLevel
    ensures Uncompleted(Completed(s, points), points) == s
  {
  }

  /** A level-up is not undone: completing a 20-point task from 90 of 100 XP reaches level 2,
      and un-completing it leaves level 2 with 0 XP. */
  lemma LevelUpNotUndone()
    ensures Completed(Stats(1, 90, 100, 0), 20) == Stats(2, 10, 150, 1)
    ensures Uncompleted(Completed(Stats(1, 90, 100, 0), 20), 20) == Stats(2, 0, 150, 0)
  {
  }

  /** One completion raises the level once even when the XP would cover more:
      300 points from level 1 end at level 2 with 200 XP against a threshold of 150. */
  lemma SingleLevelUpPerCompletion()
    ensures Completed(Stats(1, 0, 100, 0), 300) == Stats(2, 200, 150, 1)
  {
  }

  /** `tasks.find(t => t.id === id)`: the first task with that id. */
  function FindTask(tasks: seq<Task>, id: string): (r: Option<Task>)
    ensures r.None? <==> forall i :: 0 <= i < |tasks| ==> tasks[i].id != id
    ensures r.Some? ==> exists i :: 0 <= i < |tasks| && tasks[i] == r.value && r.value.id == id
                                    && forall j :: 0 <= j < i ==> tasks[j].id != id
  {
    if tasks == [] then None
    else if tasks[0].id == id then Some(tasks[0])
    else
      var r := FindTask(tasks[1..], id);
      if r.Some? then
        var i :| 0 <= i < |tasks[1..]| && tasks[1..][i] == r.value && r.value.id == id
                 && forall j :: 0 <= j < i ==> tasks[1..][j].id != id;
        assert tasks[i + 1] == r.value;
        assert forall j :: 0 <= j < i + 1 ==> tasks[j].id != id by {
          forall j | 0 < j < i + 1 ensures tasks[j].id != id {
            assert tasks[j] == tasks[1..][j - 1];
          }
        }
        r
      else
        assert forall i :: 0 <= i < |tasks| ==> tasks[i].id != id by {
          forall i | 0 < i < |tasks| ensures tasks[i].id != id {
            assert tasks[i] == tasks[1..][i - 1];
          }
        }
        r
  }

  /** `tasks.map(t => t.id === id ? { ...t, completed: done } : t)`. */
  function SetCompleted(tasks: seq<Task>, id: string, done: bool): (r: seq<Task>)
    ensures |r| == |tasks|
    ensures forall i :: 0 <= i < |tasks| && tasks[i].id == id ==> r[i] == tasks[i].(completed := done)
    ensures forall i :: 0 <= i < |tasks| && tasks[i].id != id ==> r[i] == tasks[i]
  {
    if tasks == [] then []
    else
      [if tasks[0].id == id then tasks[0].(completed := done) else tasks[0]]
      + SetCompleted(tasks[1..], id, done)
  }

  /** `tasks.filter(t => t.id !== id)`. */
  function WithoutTask(tasks: seq<Task>, id: string): (r: seq<Task>)
    ensures forall i :: 0 <= i < |r| ==> r[i].id != id && r[i] in tasks
    ensures forall i :: 0 <= i < |tasks| && tasks[i].id != id ==> tasks[i] in r
  {
    Seqs.Filter(tasks, (t: Task) => t.id != id)
  }

  /** The new entry `addTask` appends, or `None` for a title that is blank after trimming.
      The stored title is the untrimmed input. */
  function NewTask(title: string, points: nat, id: string): (r: Option<Task>)
    ensures r.None? <==> forall i :: 0 <= i < |title| ==> Text.IsSpace(title[i])
    ensures r.Some? ==> r.value.id == id && r.value.title == title && r.value.points == points
    ensures r.Some? ==> !r.value.completed && r.value.assignee.None? && r.value.dueDate.None?
  {
    Text.TrimEmptyIff(title);
    if Text.Trim(title) == [] then None else Some(Task(id, title, points, false, None, None))
  }

  /** The state of the tasks page. */
  class TaskBoard {
    var tasks: seq<Task>
    var stats: Stats

    ghost predicate Valid()
      reads this
    {
      OnTrack(stats)
    }

    constructor ()
      ensures Valid()
      ensures tasks == InitialTasks && stats == InitialStats
    {
      tasks := InitialTasks;
      stats := InitialStats;
    }

    method AddTask(title: string, points: nat, id: string)
      requires Valid()
      modifies this
      ensures Valid()
      ensures tasks == match NewTask(title, points, id)
                       case None => old(tasks)
                       case Some(t) => old(tasks) + [t]
      ensures stats == old(stats)
    {
      var t := NewTask(title, points, id);
      if t.Some? {
        tasks := tasks + [t.value];
      }
    }

    /** `toggleTask`: flips the first task with the id (every task sharing the id gets the same
        new flag) and credits or debits its points. Level and threshold never go down. */
    method ToggleTask(id: string)
      requires Valid()
      modifies this
      ensures Valid()
      ensures old(stats).level <= stats.level && old(stats).xpToNextLevel <= stats.xpToNextLevel
      ensures match FindTask(old(tasks), id)
              case None => tasks == old(tasks) && stats == old(stats)
              case Some(t) =>
                && tasks == SetCompleted(old(tasks), id, !t.completed)
                && stats == (if t.completed then Uncompleted(old(stats), t.points)
                             else Completed(old(stats), t.points))
    {
      var found := FindTask(tasks, id);
      if found.None? {
        return;
      }
      var task := found.value;
      var isCompleting := !task.completed;
      tasks := SetCompleted(tasks, id, isCompleting);
      if isCompleting {
        var newXP := stats.currentXP + task.points;
        var newLevel := stats.level;
        var newXPToNext := stats.xpToNextLevel;
        var currentXP := newXP;
        if currentXP >= newXPToNext {
          newLevel := newLevel + 1;
          currentXP := currentXP - newXPToNext;
          newXPToNext := Grow(newXPToNext);
        }
        var next := Stats(newLevel, currentXP, newXPToNext, stats.totalTasksCompleted + 1);
        assert next == Completed(stats, task.points);
        CompletionConservesXP(stats, task.points);
        stats := next;
      } else {
        UncompletionTakesBackXP(stats, task.points);
        stats := Uncompleted(stats, task.points);
      }
    }

    method DeleteTask(id: string)
      requires Valid()
      modifies this
      ensures Valid()
      ensures tasks == WithoutTask(old(tasks), id)
      ensures stats == old(stats)
    {
      tasks := WithoutTask(tasks, id);
    }
  }
}
