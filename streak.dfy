/**
 * The streak tracker: the number of consecutive calendar days on which a task
 * was completed. Days are day numbers, so "yesterday" is `today - 1`.
 */
module Streak {
  import opened Wrappers

  /** The persisted pair `(lastStudyDate, streakCount)`. */
  datatype StreakState = StreakState(lastStudyDate: Option<int>, streakCount: int)

  /** `getYesterdayDate`. */
  function Yesterday(today: int): (d: int)
    ensures d < today && d + 1 == today
  {
    today - 1
  }

  /** What one completion on `today` does to the streak state. */
  function NextStreak(s: StreakState, today: int): (r: StreakState)
    ensures r.lastStudyDate == Some(today)
    ensures s.lastStudyDate == Some(today) ==> r == s
    ensures s.lastStudyDate == Some(today - 1) ==> r.streakCount == s.streakCount + 1
    ensures s.lastStudyDate != Some(today) && s.lastStudyDate != Some(today - 1) ==> r.streakCount == 1
  {
    if s.lastStudyDate == Some(today) then s
    else if s.lastStudyDate == Some(Yesterday(today)) then StreakState(Some(today), s.streakCount + 1)
    else StreakState(Some(today), 1)
  }

  /** A recorded study day always comes with a streak of at least one day. */
  ghost predicate Consistent(s: StreakState) {
    s.lastStudyDate.Some? ==> s.streakCount >= 1
  }

  /** A second completion on the same day changes nothing. */
  lemma SameDayIdempotent(s: StreakState, today: int)
    ensures NextStreak(NextStreak(s, today), today) == NextStreak(s, today)
  {
  }

  /** After a completion the last study day is today, and a consistent state stays consistent with a streak of at least one. */
  lemma NextStreakConsistent(s: StreakState, today: int)
    requires Consistent(s)
    ensures var s' := NextStreak(s, today);
      s'.lastStudyDate == Some(today) && s'.streakCount >= 1 && Consistent(s')
  {
  }

  /** A gap of two days or more (or no record at all) starts a new streak of one. */
  lemma GapResets(s: StreakState, today: int)
    requires s.lastStudyDate.None? || s.lastStudyDate.value < today - 1 || s.lastStudyDate.value > today
    ensures NextStreak(s, today) == StreakState(Some(today), 1)
  {
  }

  /** The state after one completion on each of `days`, in order. */
  function ApplyDays(s: StreakState, days: seq<int>): StreakState {
    if days == [] then s else NextStreak(ApplyDays(s, days[..|days| - 1]), days[|days| - 1])
  }

  /** The `n` consecutive days `d, d + 1, …, d + n - 1`. */
  function Run(d: int, n: nat): (r: seq<int>)
    ensures |r| == n && forall i :: 0 <= i < n ==> r[i] == d + i
  {
    seq(n, i => d + i)
  }

  /**
   * Completing tasks on `n` consecutive days extends the streak by `n` when the
   * last study day was the day before the run, and makes it `n` otherwise.
   */
  lemma {:induction false} ConsecutiveRun(s: StreakState, d: int, n: nat)
    requires n >= 1
    requires s.lastStudyDate != Some(d)
    ensures ApplyDays(s, Run(d, n)) ==
      StreakState(Some(d + n - 1), if s.lastStudyDate == Some(d - 1) then s.streakCount + n else n)
  {
    if n == 1 {
      assert Run(d, 1)[..0] == [];
    } else {
      assert Run(d, n)[..n - 1] == Run(d, n - 1);
      ConsecutiveRun(s, d, n - 1);
    }
  }

  /** Three consecutive days, starting without a record, give a streak of three. */
  lemma ThreeDayStreak(d: int)
    ensures ApplyDays(StreakState(None, 0), [d, d + 1, d + 2]).streakCount == 3
  {
    assert [d, d + 1, d + 2] == Run(d, 3);
    ConsecutiveRun(StreakState(None, 0), d, 3);
  }

  /** The streak tracker, with its persisted state as fields. */
  class StreakTracker {
    var lastStudyDate: Option<int>
    var streakCount: int

    function State(): StreakState
      reads this
    {
      StreakState(lastStudyDate, streakCount)
    }

    /** Loads the persisted state; an unreadable streak count (`parseInt(…) || 0`) is 0. */
    constructor (savedLastStudyDate: Option<int>, savedStreakCount: Option<int>)
      ensures lastStudyDate == savedLastStudyDate
      ensures streakCount == savedStreakCount.GetOr(0)
    {
      lastStudyDate := savedLastStudyDate;
      streakCount := savedStreakCount.GetOr(0);
    }

    /** `updateStreak`, for a completion on `today`. */
    method UpdateStreak(today: int)
      modifies this
      ensures old(lastStudyDate) == Some(today) ==>
        lastStudyDate == old(lastStudyDate) && streakCount == old(streakCount)
      ensures old(lastStudyDate) == Some(Yesterday(today)) ==>
        lastStudyDate == Some(today) && streakCount == old(streakCount) + 1
      ensures old(lastStudyDate) != Some(today) && old(lastStudyDate) != Some(Yesterday(today)) ==>
        lastStudyDate == Some(today) && streakCount == 1
      ensures State() == NextStreak(old(State()), today)
    {
      if lastStudyDate == Some(today) {
        return;
      } else if lastStudyDate == Some(Yesterday(today)) {
        streakCount := streakCount + 1;
      } else {
        streakCount := 1;
      }
      lastStudyDate := Some(today);
    }
  }
}
