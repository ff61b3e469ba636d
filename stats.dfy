/**
 * The statistics derived from the task store: the time and completion totals
 * of `updateStats`, and the remaining minutes and open-task count that the
 * "today" panel accumulates over the tasks of the day.
 */
module Stats {
  import opened Wrappers
  import opened Sequences
  import opened Tasks
  import opened Classifier

  /** `tasks.reduce((acc, t) => acc + t.timeSpent, 0)`, accumulated from the left. */
  function TotalTimeSpent(ts: seq<Task>): (r: int)
    ensures (forall i :: 0 <= i < |ts| ==> ts[i].timeSpent >= 0) ==> r >= 0
  {
    if ts == [] then 0 else TotalTimeSpent(ts[..|ts| - 1]) + ts[|ts| - 1].timeSpent
  }

  /** `tasks.filter(t => t.completed).length`. */
  function CompletedCount(ts: seq<Task>): (r: nat)
    ensures r <= |ts|
    ensures r == 0 <==> forall i :: 0 <= i < |ts| ==> !ts[i].completed
  {
    var f := Filter(ts, (t: Task) => t.completed);
    FilterLength(ts, (t: Task) => t.completed);
    assert f != [] ==> exists i :: 0 <= i < |ts| && ts[i].completed by {
      if f != [] {
        assert f[0] in ts;
      }
    }
    assert (exists i :: 0 <= i < |ts| && ts[i].completed) ==> f != [] by {
      if i :| 0 <= i < |ts| && ts[i].completed {
        assert ts[i] in f;
      }
    }
    |f|
  }

  /** `Math.max(task.estimatedTime - task.timeSpent, 0)`: the minutes still needed for one task. */
  function Remaining(t: Task): (r: int)
    ensures r >= 0 && r >= t.estimatedTime - t.timeSpent
    ensures r == 0 || r == t.estimatedTime - t.timeSpent
  {
    if t.estimatedTime - t.timeSpent > 0 then t.estimatedTime - t.timeSpent else 0
  }

  /** The sum of the remaining minutes of `ts`, accumulated from the left; never negative. */
  function RemainingMinutes(ts: seq<Task>): (r: int)
    ensures r >= 0
  {
    if ts == [] then 0 else RemainingMinutes(ts[..|ts| - 1]) + Remaining(ts[|ts| - 1])
  }

  /** The number of tasks of `ts` not completed; at most `|ts|`. */
  function IncompleteCount(ts: seq<Task>): (r: nat)
    ensures r <= |ts|
  {
    if ts == [] then 0
    else IncompleteCount(ts[..|ts| - 1]) + if ts[|ts| - 1].completed then 0 else 1
  }

  /** The time total of two parts of the store adds up. */
  lemma {:induction false} TotalTimeSpentAppend(a: seq<Task>, b: seq<Task>)
    ensures TotalTimeSpent(a + b) == TotalTimeSpent(a) + TotalTimeSpent(b)
  {
    if b == [] {
      assert a + b == a;
    } else {
      var b' := b[..|b| - 1];
      assert (a + b)[..|a + b| - 1] == a + b';
      TotalTimeSpentAppend(a, b');
    }
  }

  /** With no negative times, each task's time is part of the time total. */
  lemma {:induction false} TotalTimeSpentBounds(ts: seq<Task>)
    requires forall i :: 0 <= i < |ts| ==> ts[i].timeSpent >= 0
    ensures forall i :: 0 <= i < |ts| ==> ts[i].timeSpent <= TotalTimeSpent(ts)
  {
    if ts != [] {
      var front := ts[..|ts| - 1];
      TotalTimeSpentBounds(front);
      forall i | 0 <= i < |ts| ensures ts[i].timeSpent <= TotalTimeSpent(ts) {
        if i < |front| {
          assert front[i] == ts[i];
        }
      }
    }
  }

  /** Replacing one task changes the time total by exactly the difference in that task's time. */
  lemma TotalTimeSpentUpdate(ts: seq<Task>, i: nat, t: Task)
    requires i < |ts|
    ensures TotalTimeSpent(ts[i := t]) == TotalTimeSpent(ts) - ts[i].timeSpent + t.timeSpent
  {
    assert ts == ts[..i] + [ts[i]] + ts[i + 1..];
    assert ts[i := t] == ts[..i] + [t] + ts[i + 1..];
    TotalTimeSpentAppend(ts[..i] + [ts[i]], ts[i + 1..]);
    TotalTimeSpentAppend(ts[..i] + [t], ts[i + 1..]);
    TotalTimeSpentAppend(ts[..i], [ts[i]]);
    TotalTimeSpentAppend(ts[..i], [t]);
  }

  /** Removing one task takes exactly its time out of the time total. */
  lemma TotalTimeSpentRemove(ts: seq<Task>, i: nat)
    requires i < |ts|
    ensures TotalTimeSpent(RemoveAt(ts, i)) == TotalTimeSpent(ts) - ts[i].timeSpent
  {
    var front, back := ts[..i], ts[i + 1..];
    assert TotalTimeSpent(ts) == TotalTimeSpent(front + [ts[i]]) + TotalTimeSpent(back) by {
      assert ts == (front + [ts[i]]) + back;
      TotalTimeSpentAppend(front + [ts[i]], back);
    }
    assert TotalTimeSpent(front + [ts[i]]) == TotalTimeSpent(front) + ts[i].timeSpent by {
      TotalTimeSpentAppend(front, [ts[i]]);
    }
    assert TotalTimeSpent(RemoveAt(ts, i)) == TotalTimeSpent(front) + TotalTimeSpent(back) by {
      assert RemoveAt(ts, i) == front + back;
      TotalTimeSpentAppend(front, back);
    }
  }

  /** The completed count of a concatenation adds up. */
  lemma CompletedCountAppend(a: seq<Task>, b: seq<Task>)
    ensures CompletedCount(a + b) == CompletedCount(a) + CompletedCount(b)
  {
    FilterAppend(a, b, (t: Task) => t.completed);
  }

  /** Replacing one task changes the completed count only through that task's flag. */
  lemma CompletedCountUpdate(ts: seq<Task>, i: nat, t: Task)
    requires i < |ts|
    ensures CompletedCount(ts[i := t]) ==
      CompletedCount(ts) - (if ts[i].completed then 1 else 0) + (if t.completed then 1 else 0)
  {
    assert ts == ts[..i] + [ts[i]] + ts[i + 1..];
    assert ts[i := t] == ts[..i] + [t] + ts[i + 1..];
    CompletedCountAppend(ts[..i] + [ts[i]], ts[i + 1..]);
    CompletedCountAppend(ts[..i] + [t], ts[i + 1..]);
    CompletedCountAppend(ts[..i], [ts[i]]);
    CompletedCountAppend(ts[..i], [t]);
  }

  /** Removing one task lowers the completed count by one exactly when that task was completed. */
  lemma CompletedCountRemove(ts: seq<Task>, i: nat)
    requires i < |ts|
    ensures CompletedCount(RemoveAt(ts, i)) == CompletedCount(ts) - (if ts[i].completed then 1 else 0)
  {
    assert ts == ts[..i] + [ts[i]] + ts[i + 1..];
    assert RemoveAt(ts, i) == ts[..i] + ts[i + 1..];
    CompletedCountAppend(ts[..i] + [ts[i]], ts[i + 1..]);
    CompletedCountAppend(ts[..i], [ts[i]]);
    CompletedCountAppend(ts[..i], ts[i + 1..]);
  }

  /** Every task is either counted as completed or counted as open. */
  lemma {:induction false} IncompletePlusCompleted(ts: seq<Task>)
    ensures IncompleteCount(ts) + CompletedCount(ts) == |ts|
  {
    if ts != [] {
      var front := ts[..|ts| - 1];
      assert ts == front + [ts[|ts| - 1]];
      IncompletePlusCompleted(front);
      CompletedCountAppend(front, [ts[|ts| - 1]]);
    }
  }

  /** A store in which no task is completed has a completed count of zero. */
  lemma NoneCompletedCount(ts: seq<Task>)
    requires forall i :: 0 <= i < |ts| ==> !ts[i].completed
    ensures CompletedCount(ts) == 0
  {
  }

  /**
   * A newly created task carries the given fields, has spent nothing, is open,
   * unscheduled and without subtasks; so appending it adds nothing to the time
   * and completed totals, one open task, and its whole positive estimate to
   * the minutes still needed.
   */
  lemma CreatedTaskStats(ts: seq<Task>, id: int, title: string, subject: string, estimatedTime: int,
                         dueDate: Option<int>, softDeadline: Option<int>)
    ensures var t := CreateTask(id, title, subject, estimatedTime, dueDate, softDeadline);
      && t.id == id && t.title == title && t.subject == subject && t.estimatedTime == estimatedTime
      && t.dueDate == dueDate && t.softDeadline == softDeadline
      && t.timeSpent == 0 && !t.completed && t.scheduledDate == None && t.subtasks == []
      && TotalTimeSpent(ts + [t]) == TotalTimeSpent(ts)
      && CompletedCount(ts + [t]) == CompletedCount(ts)
      && IncompleteCount(ts + [t]) == IncompleteCount(ts) + 1
      && Remaining(t) == (if estimatedTime > 0 then estimatedTime else 0)
  {
    var t := CreateTask(id, title, subject, estimatedTime, dueDate, softDeadline);
    assert (ts + [t])[..|ts|] == ts;
    CompletedCountAppend(ts, [t]);
  }

  /**
   * The loop of the "today" panel: over the tasks scheduled or due today, the
   * total of the minutes still needed and the number of tasks not completed.
   */
  method TodayTotals(ts: seq<Task>, today: int) returns (totalRemainingMinutes: int, incompleteCount: nat)
    ensures totalRemainingMinutes == RemainingMinutes(TodayTasks(ts, today))
    ensures incompleteCount == IncompleteCount(TodayTasks(ts, today))
  {
    var todayTasks := TodayTasks(ts, today);
    totalRemainingMinutes, incompleteCount := 0, 0;
    var i := 0;
    while i < |todayTasks|
      invariant 0 <= i <= |todayTasks|
      invariant totalRemainingMinutes == RemainingMinutes(todayTasks[..i])
      invariant incompleteCount == IncompleteCount(todayTasks[..i])
    {
      var task := todayTasks[i];
      assert todayTasks[..i + 1][..i] == todayTasks[..i];
      totalRemainingMinutes := totalRemainingMinutes + Remaining(task);
      if !task.completed {
        incompleteCount := incompleteCount + 1;
      }
      i := i + 1;
    }
    assert todayTasks[..i] == todayTasks;
  }
}
