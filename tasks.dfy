/**
 * The records of the task store: tasks, their subtasks, task creation,
 * lookup by id, and the normalisation applied to tasks reloaded from storage.
 * Calendar dates are day numbers; a date that is absent (null, or the empty
 * string of an unset date input) is `None`.
 */
module Tasks {
  import opened Wrappers
  import opened Sequences

  datatype Subtask = Subtask(id: int, title: string, completed: bool)

  datatype Task = Task(
    id: int,
    title: string,
    subject: string,
    estimatedTime: int,   // minutes
    timeSpent: int,       // minutes
    dueDate: Option<int>,
    softDeadline: Option<int>,
    subtasks: seq<Subtask>,
    completed: bool,
    scheduledDate: Option<int>)

  /** A new task: nothing spent, not completed, not scheduled, no subtasks. The id is supplied by the caller. */
  function CreateTask(id: int, title: string, subject: string, estimatedTime: int,
                      dueDate: Option<int>, softDeadline: Option<int>): (t: Task)
    ensures t.id == id && t.title == title && t.subject == subject && t.estimatedTime == estimatedTime
    ensures t.dueDate == dueDate && t.softDeadline == softDeadline
    ensures t.timeSpent == 0 && !t.completed && t.scheduledDate == None && t.subtasks == []
  {
    Task(id, title, subject, estimatedTime, 0, dueDate, softDeadline, [], false, None)
  }

  /** No two tasks of the store share an id. */
  ghost predicate UniqueIds(ts: seq<Task>) {
    forall i, j :: 0 <= i < j < |ts| ==> ts[i].id != ts[j].id
  }

  /** No two subtasks of one task share an id. */
  ghost predicate UniqueSubtaskIds(sts: seq<Subtask>) {
    forall i, j :: 0 <= i < j < |sts| ==> sts[i].id != sts[j].id
  }

  /** The id invariants of a store: unique task ids, and unique subtask ids within each task. */
  ghost predicate WellFormed(ts: seq<Task>) {
    UniqueIds(ts) && forall i :: 0 <= i < |ts| ==> UniqueSubtaskIds(ts[i].subtasks)
  }

  /** Removing a task from a well-formed store leaves it well-formed. */
  lemma WellFormedRemove(ts: seq<Task>, k: nat)
    requires k < |ts| && WellFormed(ts)
    ensures WellFormed(RemoveAt(ts, k))
  {
  }

  /** Changing a task's fields other than its id and subtasks leaves the store well-formed. */
  lemma WellFormedUpdate(ts: seq<Task>, k: nat, t: Task)
    requires k < |ts| && WellFormed(ts)
    requires t.id == ts[k].id && t.subtasks == ts[k].subtasks
    ensures WellFormed(ts[k := t])
  {
  }

  /** `id` is used by no task of `ts`. */
  ghost predicate IdFree(ts: seq<Task>, id: int) {
    forall i :: 0 <= i < |ts| ==> ts[i].id != id
  }

  /** `tasks.findIndex(t => t.id === id)`; `tasks.find` yields the task at this index. */
  function IndexOf(ts: seq<Task>, id: int): (r: int)
    ensures -1 <= r < |ts|
    ensures r == -1 <==> IdFree(ts, id)
    ensures 0 <= r ==> ts[r].id == id && IdFree(ts[..r], id)
  {
    FirstIndex(ts, (t: Task) => t.id == id)
  }

  /** `task.subtasks.find(st => st.id === id)`, as an index, or -1. */
  function SubtaskIndexOf(sts: seq<Subtask>, id: int): (r: int)
    ensures -1 <= r < |sts|
    ensures r == -1 <==> forall i :: 0 <= i < |sts| ==> sts[i].id != id
    ensures 0 <= r ==> sts[r].id == id && forall i :: 0 <= i < r ==> sts[i].id != id
  {
    FirstIndex(sts, (st: Subtask) => st.id == id)
  }

  /** With unique ids, the lookup finds the one task carrying the id. */
  lemma IndexOfUnique(ts: seq<Task>, k: nat)
    requires UniqueIds(ts) && k < |ts|
    ensures IndexOf(ts, ts[k].id) == k
  {
  }

  /**
   * A task record as reloaded from storage, before normalisation: a numeric
   * or boolean field that is missing or null is `None`; 0 and false are kept
   * as `Some` and normalise the same as `None`.
   */
  datatype RawTask = RawTask(
    id: int,
    title: string,
    subject: string,
    estimatedTime: Option<int>,
    timeSpent: Option<int>,
    dueDate: Option<int>,
    softDeadline: Option<int>,
    subtasks: seq<Subtask>,
    completed: Option<bool>,
    scheduledDate: Option<int>)

  /** The defaults the reload loop writes into one record: 0 minutes, not completed, dates null. */
  function Normalise(r: RawTask): (t: Task)
    ensures t.id == r.id && t.title == r.title && t.subject == r.subject && t.subtasks == r.subtasks
    ensures t.dueDate == r.dueDate && t.softDeadline == r.softDeadline && t.scheduledDate == r.scheduledDate
    ensures r.estimatedTime.Some? ==> t.estimatedTime == r.estimatedTime.value
    ensures r.estimatedTime.None? ==> t.estimatedTime == 0
    ensures r.timeSpent.Some? ==> t.timeSpent == r.timeSpent.value
    ensures r.timeSpent.None? ==> t.timeSpent == 0
    ensures r.completed.Some? ==> t.completed == r.completed.value
    ensures r.completed.None? ==> !t.completed
    ensures Serialise(t) == r <==> r.estimatedTime.Some? && r.timeSpent.Some? && r.completed.Some?
  {
    Task(r.id, r.title, r.subject, r.estimatedTime.GetOr(0), r.timeSpent.GetOr(0),
         r.dueDate, r.softDeadline, r.subtasks, r.completed.GetOr(false), r.scheduledDate)
  }

  /** A task as it is written to storage, every field present. */
  function Serialise(t: Task): RawTask {
    RawTask(t.id, t.title, t.subject, Some(t.estimatedTime), Some(t.timeSpent),
            t.dueDate, t.softDeadline, t.subtasks, Some(t.completed), t.scheduledDate)
  }

  /** Saving a task and reloading it gives back the same task. */
  lemma NormaliseSerialise(t: Task)
    ensures Normalise(Serialise(t)) == t
  {
  }

  /** A record saved with missing counters reloads with zero minutes and not completed. */
  lemma NormaliseDefaults(r: RawTask)
    requires r.estimatedTime == None && r.timeSpent == None && r.completed == None
    ensures var t := Normalise(r);
      t.estimatedTime == 0 && t.timeSpent == 0 && !t.completed
      && t.id == r.id && t.subtasks == r.subtasks
  {
  }

  /** The reload loop: every reloaded record, in order, with its missing fields defaulted. */
  method NormaliseAll(saved: seq<RawTask>) returns (ts: seq<Task>)
    ensures |ts| == |saved|
    ensures forall i :: 0 <= i < |saved| ==> ts[i] == Normalise(saved[i])
  {
    ts := [];
    var i := 0;
    while i < |saved|
      invariant 0 <= i <= |saved|
      invariant |ts| == i
      invariant forall j :: 0 <= j < i ==> ts[j] == Normalise(saved[j])
    {
      ts := ts + [Normalise(saved[i])];
      i := i + 1;
    }
  }

  /** Saving a whole store and reloading it gives back the same tasks, in the same order. */
  lemma SaveReload(ts: seq<Task>)
    ensures var saved := seq(|ts|, i requires 0 <= i < |ts| => Serialise(ts[i]));
      seq(|saved|, i requires 0 <= i < |saved| => Normalise(saved[i])) == ts
  {
  }
}
