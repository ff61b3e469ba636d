/**
 * Client code: what a caller can conclude from the contracts alone, on usage
 * scenarios of the dashboard.
 */
module Scenarios {
  import opened Wrappers
  import opened Tasks
  import opened Streak
  import opened Store
  import opened Subjects

  /**
   * An essay task is created, studied for 15 minutes and completed. Each of
   * the two steps adds 15 minutes to the lifetime time counter, so the
   * 15 minutes studied are counted twice.
   */
  method EssayScenario(id: int, due: int, today: int)
  {
    var tracker := new StreakTracker(None, None);
    var store := new TaskStore(None, None, None, tracker);
    var essay := CreateTask(id, "Essay", "English", 60, Some(due), None);
    store.AddTask(id, "Essay", "English", 60, Some(due), None);
    assert store.tasks == [essay];
    assert IndexOf(store.tasks, id) == 0;

    store.AddTimeSpent(id);
    assert store.tasks == [essay.(timeSpent := 15)];
    assert store.totalTimeAccumulated == 15;
    assert IndexOf(store.tasks, id) == 0;

    store.ToggleComplete(id, today);
    assert store.tasks == [];
    assert store.totalTasksCompleted == 1;
    assert store.totalTimeAccumulated == 30;
    assert tracker.State() == StreakState(Some(today), 1);
  }

  /** Completing on three consecutive days gives a streak of 3; a gap of five days resets it to 1. */
  method StreakScenario(d: int)
  {
    var tracker := new StreakTracker(None, None);
    tracker.UpdateStreak(d);
    tracker.UpdateStreak(d);
    tracker.UpdateStreak(d + 1);
    tracker.UpdateStreak(d + 2);
    assert tracker.streakCount == 3;
    tracker.UpdateStreak(d + 7);
    assert tracker.streakCount == 1;
  }

  /** With nothing saved, adding "History" to the defaults gives five subjects, and they survive a reload. */
  method SubjectScenario()
  {
    var list := new SubjectList(NothingSaved);
    HistoryIsNew();
    list.AddSubject(Some("History"));
    assert list.subjects == DefaultSubjects + ["History"];

    var reloaded := new SubjectList(Saved(list.subjects));
    assert reloaded.subjects == list.subjects;
  }

  /** "History" is already trimmed and matches none of the default subjects up to letter case. */
  lemma HistoryIsNew()
    ensures Trim("History") == "History" && !ContainsIgnoringCase(DefaultSubjects, "History")
  {
    TrimUnpadded("History");
    var h := Lower("History");
    assert h[0] == 'h';
    forall i | 0 <= i < |DefaultSubjects| ensures Lower(DefaultSubjects[i]) != h {
      var c := DefaultSubjects[i][0];
      assert c == 'M' || c == 'S' || c == 'E';
      assert Lower(DefaultSubjects[i])[0] == LowerChar(c);
    }
  }

  /** Adding a subject that is already present up to letter case leaves the list as it was. */
  method DuplicateSubjectScenario()
  {
    var list := new SubjectList(Saved(["Misc", "History"]));
    TrimUnpadded("history");
    assert ContainsIgnoringCase(list.subjects, "history") by {
      assert Lower(list.subjects[1]) == Lower("history");
    }
    list.AddSubject(Some("history"));
    assert list.subjects == ["Misc", "History"];
  }
}
