/**
 * The task store: the ordered list of tasks, mutated in place by id, and the
 * two lifetime counters kept beside it. Completing a task removes it from the
 * list after folding its time into the counters, and records a study day with
 * the streak tracker.
 */
module Store {
  import opened Wrappers
  import opened Sequences
  import opened Tasks
  import opened Stats
  import opened Streak

  class TaskStore {
    var tasks: seq<Task>
    var totalTimeAccumulated: int
    var totalTasksCompleted: int
    const streak: StreakTracker

    /** Task ids are unique in the store, and subtask ids within each task. */
    ghost predicate Valid()
      reads this
    {
      WellFormed(tasks)
    }

    /** No task in the store is marked completed (completion removes tasks instead). */
    ghost predicate NoneCompleted()
      reads this
    {
      forall i :: 0 <= i < |tasks| ==> !tasks[i].completed
    }

    /**
     * Start-up: the saved tasks, normalised, or none; the saved counters, an
     * unreadable counter (`parseInt(…) || 0`) being 0.
     */
    constructor (saved: Option<seq<RawTask>>, savedTime: Option<int>, savedCompleted: Option<int>,
                 streak: StreakTracker)
      ensures this.streak == streak
      ensures saved.None? ==> tasks == []
      ensures saved.Some? ==> (|tasks| == |saved.value| &&
        forall i :: 0 <= i < |tasks| ==> tasks[i] == Normalise(saved.value[i]))
      ensures totalTimeAccumulated == savedTime.GetOr(0)
      ensures totalTasksCompleted == savedCompleted.GetOr(0)
    {
      var loaded := [];
      if saved.Some? {
        loaded := NormaliseAll(saved.value);
      }
      tasks := loaded;
      totalTimeAccumulated := savedTime.GetOr(0);
      totalTasksCompleted := savedCompleted.GetOr(0);
      this.streak := streak;
    }

    /** The task form's submit handler: `tasks.push(createTask(…))`. */
    method AddTask(id: int, title: string, subject: string, estimatedTime: int,
                   dueDate: Option<int>, softDeadline: Option<int>)
      modifies this
      ensures tasks == old(tasks) + [CreateTask(id, title, subject, estimatedTime, dueDate, softDeadline)]
      ensures totalTimeAccumulated == old(totalTimeAccumulated)
      ensures totalTasksCompleted == old(totalTasksCompleted)
      ensures old(Valid()) && IdFree(old(tasks), id) ==> Valid()
      ensures old(NoneCompleted()) ==> NoneCompleted()
    {
      tasks := tasks + [CreateTask(id, title, subject, estimatedTime, dueDate, softDeadline)];
    }

    /** `addSubtask`: append a new, open subtask to the task with id `taskId`, if there is one. */
    method AddSubtask(taskId: int, subtaskId: int, title: string)
      modifies this
      ensures var i := IndexOf(old(tasks), taskId);
        if i == -1 then tasks == old(tasks)
        else tasks == old(tasks)[i := old(tasks)[i].(subtasks :=
          old(tasks)[i].subtasks + [Subtask(subtaskId, title, false)])]
      ensures totalTimeAccumulated == old(totalTimeAccumulated)
      ensures totalTasksCompleted == old(totalTasksCompleted)
      ensures var i := IndexOf(old(tasks), taskId);
        old(Valid()) && (i >= 0 ==> SubtaskIndexOf(old(tasks)[i].subtasks, subtaskId) == -1) ==> Valid()
      ensures old(NoneCompleted()) ==> NoneCompleted()
    {
      var i := IndexOf(tasks, taskId);
      if i == -1 {
        return;
      }
      var task := tasks[i];
      tasks := tasks[i := task.(subtasks := task.subtasks + [Subtask(subtaskId, title, false)])];
    }

    /** `toggleSubtaskComplete`: flip one subtask of one task; nothing happens when either id is absent. */
    method ToggleSubtaskComplete(taskId: int, subtaskId: int)
      modifies this
      ensures var i := IndexOf(old(tasks), taskId);
        var j := if i == -1 then -1 else SubtaskIndexOf(old(tasks)[i].subtasks, subtaskId);
        if j == -1 then tasks == old(tasks)
        else
          var task := old(tasks)[i];
          var st := task.subtasks[j];
          tasks == old(tasks)[i := task.(subtasks := task.subtasks[j := st.(completed := !st.completed)])]
      ensures totalTimeAccumulated == old(totalTimeAccumulated)
      ensures totalTasksCompleted == old(totalTasksCompleted)
      ensures old(Valid()) ==> Valid()
      ensures old(NoneCompleted()) ==> NoneCompleted()
    {
      var i := IndexOf(tasks, taskId);
      if i == -1 {
        return;
      }
      var task := tasks[i];
      var j := SubtaskIndexOf(task.subtasks, subtaskId);
      if j == -1 {
        return;
      }
      var st := task.subtasks[j];
      tasks := tasks[i := task.(subtasks := task.subtasks[j := st.(completed := !st.completed)])];
    }

    /** `addTimeSpent`: 15 more minutes studied on the task, and on the lifetime counter. */
    method AddTimeSpent(id: int)
      modifies this
      ensures var i := IndexOf(old(tasks), id);
        if i == -1 then
          tasks == old(tasks) && totalTimeAccumulated == old(totalTimeAccumulated)
        else
          && tasks == old(tasks)[i := old(tasks)[i].(timeSpent := old(tasks)[i].timeSpent + 15)]
          && totalTimeAccumulated == old(totalTimeAccumulated) + 15
      ensures totalTasksCompleted == old(totalTasksCompleted)
      ensures TotalTimeSpent(tasks) == old(TotalTimeSpent(tasks)) + (if IndexOf(old(tasks), id) == -1 then 0 else 15)
      ensures old(Valid()) ==> Valid()
      ensures old(NoneCompleted()) ==> NoneCompleted()
    {
      var i := IndexOf(tasks, id);
      if i != -1 {
        var task := tasks[i];
        TotalTimeSpentUpdate(tasks, i, task.(timeSpent := task.timeSpent + 15));
        if Valid() {
          WellFormedUpdate(tasks, i, task.(timeSpent := task.timeSpent + 15));
        }
        tasks := tasks[i := task.(timeSpent := task.timeSpent + 15)];
        totalTimeAccumulated := totalTimeAccumulated + 15;
      }
    }

    /** `addEstimatedTime`: 15 more minutes estimated for the task; nothing else changes. */
    method AddEstimatedTime(id: int)
      modifies this
      ensures var i := IndexOf(old(tasks), id);
        if i == -1 then tasks == old(tasks)
        else tasks == old(tasks)[i := old(tasks)[i].(estimatedTime := old(tasks)[i].estimatedTime + 15)]
      ensures totalTimeAccumulated == old(totalTimeAccumulated)
      ensures totalTasksCompleted == old(totalTasksCompleted)
      ensures TotalTimeSpent(tasks) == old(TotalTimeSpent(tasks))
      ensures old(Valid()) ==> Valid()
      ensures old(NoneCompleted()) ==> NoneCompleted()
    {
      var i := IndexOf(tasks, id);
      if i != -1 {
        var task := tasks[i];
        TotalTimeSpentUpdate(tasks, i, task.(estimatedTime := task.estimatedTime + 15));
        if Valid() {
          WellFormedUpdate(tasks, i, task.(estimatedTime := task.estimatedTime + 15));
        }
        tasks := tasks[i := task.(estimatedTime := task.estimatedTime + 15)];
      }
    }

    /**
     * `toggleComplete`: remove the task; if it was open, count it and fold its
     * time into the lifetime counters; record `today` as a study day. An
     * absent id changes nothing, the streak included.
     */
    method ToggleComplete(id: int, today: int)
      modifies this, streak
      ensures var i := IndexOf(old(tasks), id);
        if i == -1 then
          && tasks == old(tasks)
          && totalTimeAccumulated == old(totalTimeAccumulated)
          && totalTasksCompleted == old(totalTasksCompleted)
          && streak.State() == old(streak.State())
        else
          && tasks == RemoveAt(old(tasks), i)
          && (if old(tasks)[i].completed then
                totalTasksCompleted == old(totalTasksCompleted)
                && totalTimeAccumulated == old(totalTimeAccumulated)
              else
                totalTasksCompleted == old(totalTasksCompleted) + 1
                && totalTimeAccumulated == old(totalTimeAccumulated) + old(tasks)[i].timeSpent)
          && streak.State() == NextStreak(old(streak.State()), today)
      ensures var i := IndexOf(old(tasks), id);
        i >= 0 ==> TotalTimeSpent(tasks) == old(TotalTimeSpent(tasks)) - old(tasks)[i].timeSpent
      ensures old(Valid()) ==> Valid()
      ensures old(NoneCompleted()) ==> NoneCompleted()
    {
      var i := IndexOf(tasks, id);
      if i != -1 {
        var task := tasks[i];
        if !task.completed {
          totalTasksCompleted := totalTasksCompleted + 1;
          totalTimeAccumulated := totalTimeAccumulated + task.timeSpent;
        }
        TotalTimeSpentRemove(tasks, i);
        if Valid() {
          WellFormedRemove(tasks, i);
        }
        tasks := RemoveAt(tasks, i);
        streak.UpdateStreak(today);
      }
    }

    /** `scheduleTask`: set (or, with `None`, clear) the task's scheduled date. */
    method ScheduleTask(id: int, date: Option<int>)
      modifies this
      ensures var i := IndexOf(old(tasks), id);
        if i == -1 then tasks == old(tasks)
        else tasks == old(tasks)[i := old(tasks)[i].(scheduledDate := date)]
      ensures totalTimeAccumulated == old(totalTimeAccumulated)
      ensures totalTasksCompleted == old(totalTasksCompleted)
      ensures old(Valid()) ==> Valid()
      ensures old(NoneCompleted()) ==> NoneCompleted()
    {
      var i := IndexOf(tasks, id);
      if i != -1 {
        tasks := tasks[i := tasks[i].(scheduledDate := date)];
      }
    }
  }
}
