/**
 * The date classifier: the "today" and "upcoming" views of the task store.
 * `today` and `now` are day numbers; the upcoming window is the closed
 * interval of day numbers from `now` to `now + 7`.
 */
module Classifier {
  import opened Wrappers
  import opened Sequences
  import opened Tasks

  /** The length of the upcoming window, in days. */
  const UpcomingDays := 7

  /** Scheduled for today, or due today. */
  predicate IsToday(t: Task, today: int) {
    t.scheduledDate == Some(today) || t.dueDate == Some(today)
  }

  /** A date that is present and lies in the upcoming window starting at `now`; an absent date never does. */
  predicate InWindow(d: Option<int>, now: int) {
    d.Some? && now <= d.value <= now + UpcomingDays
  }

  /** Scheduled date, soft deadline or due date in the upcoming window, each checked on its own. */
  predicate IsUpcoming(t: Task, now: int) {
    InWindow(t.scheduledDate, now) || InWindow(t.softDeadline, now) || InWindow(t.dueDate, now)
  }

  /** `getTodayTasks`: exactly the tasks scheduled or due today, in store order. */
  function TodayTasks(ts: seq<Task>, today: int): (r: seq<Task>)
    ensures IsSubsequence(r, ts)
    ensures forall t :: t in r <==> t in ts && (t.scheduledDate == Some(today) || t.dueDate == Some(today))
  {
    Filter(ts, (t: Task) => IsToday(t, today))
  }

  /** `getUpcomingTasks`: exactly the tasks with at least one date in `[now, now + 7]`, in store order. */
  function UpcomingTasks(ts: seq<Task>, now: int): (r: seq<Task>)
    ensures IsSubsequence(r, ts)
    ensures forall t :: t in r <==> (t in ts &&
      ((t.scheduledDate.Some? && now <= t.scheduledDate.value <= now + 7) ||
       (t.softDeadline.Some? && now <= t.softDeadline.value <= now + 7) ||
       (t.dueDate.Some? && now <= t.dueDate.value <= now + 7)))
    ensures forall t :: t in r ==> t.scheduledDate.Some? || t.softDeadline.Some? || t.dueDate.Some?
  {
    Filter(ts, (t: Task) => IsUpcoming(t, now))
  }

  /** A task listed for today is listed as often as it occurs in the store. */
  lemma TodayTasksMultiplicity(ts: seq<Task>, today: int)
    ensures forall t :: multiset(TodayTasks(ts, today))[t] == if IsToday(t, today) then multiset(ts)[t] else 0
  {
    FilterMultiset(ts, (t: Task) => IsToday(t, today));
  }

  /** An upcoming task is listed as often as it occurs in the store. */
  lemma UpcomingTasksMultiplicity(ts: seq<Task>, now: int)
    ensures forall t :: multiset(UpcomingTasks(ts, now))[t] == if IsUpcoming(t, now) then multiset(ts)[t] else 0
  {
    FilterMultiset(ts, (t: Task) => IsUpcoming(t, now));
  }

  /** A task whose three dates are all absent is in no view built from dates. */
  lemma UndatedTaskNeverListed(ts: seq<Task>, t: Task, day: int)
    requires t.scheduledDate == None && t.softDeadline == None && t.dueDate == None
    ensures t !in TodayTasks(ts, day) && t !in UpcomingTasks(ts, day)
  {
  }
}
