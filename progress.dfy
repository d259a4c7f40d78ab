/** The study-progress hook: today's focused minutes, the day rollover, the streak and the daily goal. */
module StudyProgress {
  import opened Common
  import opened Store

  /** The daily goal, in hours. */
  const TodayGoal: nat := 2

  /** The record used when nothing is stored: today, no minutes, last studied today. */
  function InitialRecord(today: Day): (r: ProgressRecord)
    ensures r.date == today && r.lastStudyDate == today && r.totalMinutes == 0
  {
    ProgressRecord(today, 0, today)
  }

  /** The record the hook starts from. */
  function LoadRecord(stored: Option<ProgressRecord>, today: Day): (r: ProgressRecord)
    ensures stored.Some? ==> r == stored.value
    ensures stored.None? ==> r == InitialRecord(today)
  {
    stored.GetOr(InitialRecord(today))
  }

  /** The record after the new-day effect has run on `today`. */
  function RolledOver(r: ProgressRecord, today: Day): (r': ProgressRecord)
    ensures r'.date == today && r'.lastStudyDate == r.lastStudyDate
    ensures r.date == today ==> r' == r
    ensures r.date != today ==> r'.totalMinutes == 0
  {
    if r.date != today then ProgressRecord(today, 0, r.lastStudyDate) else r
  }

  /** Running the new-day effect a second time on the same day changes nothing. */
  lemma RolloverIdempotent(r: ProgressRecord, today: Day)
    ensures RolledOver(RolledOver(r, today), today) == RolledOver(r, today)
  {
  }

  /** The record after `addSession(minutes)` on `today`. */
  function WithSession(r: ProgressRecord, minutes: nat, today: Day): (r': ProgressRecord)
    ensures r'.totalMinutes == r.totalMinutes + minutes
    ensures r'.date == today && r'.lastStudyDate == today
  {
    ProgressRecord(today, r.totalMinutes + minutes, today)
  }

  /** What one evaluation of the streak does: the value it returns and the value it writes to the
      streak key, if it writes one. */
  datatype StreakOutcome = StreakOutcome(streak: int, write: Option<int>)

  /** One evaluation of the streak, from the day of the last session, today and the stored streak. */
  function EvaluateStreak(lastStudyDate: Day, today: Day, stored: Option<int>): (o: StreakOutcome)
    ensures today - lastStudyDate == 0 ==> o.write == None && o.streak == stored.GetOr(1)
    ensures today - lastStudyDate == 1 ==> o.write == Some(o.streak) && o.streak == (if stored.Some? then stored.value + 1 else 1)
    ensures today - lastStudyDate != 0 && today - lastStudyDate != 1 ==> o == StreakOutcome(1, Some(1))
  {
    var diffDays := today - lastStudyDate;
    if diffDays == 0 then StreakOutcome(stored.GetOr(1), None)
    else if diffDays == 1 then
      var newStreak := if stored.Some? then stored.value + 1 else 1;
      StreakOutcome(newStreak, Some(newStreak))
    else StreakOutcome(1, Some(1))
  }

  /** The streak key after an evaluation has written its outcome. */
  function Persist(stored: Option<int>, o: StreakOutcome): Option<int> {
    if o.write.Some? then o.write else stored
  }

  /** The streak key after `n` evaluations (one per render) with the same dates. */
  function StoredAfter(lastStudyDate: Day, today: Day, stored: Option<int>, n: nat): Option<int> {
    if n == 0 then stored
    else
      var before := StoredAfter(lastStudyDate, today, stored, n - 1);
      Persist(before, EvaluateStreak(lastStudyDate, today, before))
  }

  /** On the day after the last session every evaluation increments the stored streak again,
      since the last study date is not advanced: `n` renders raise it by `n`. */
  lemma {:induction false} NextDayRendersInflateStreak(lastStudyDate: Day, stored: int, n: nat)
    ensures StoredAfter(lastStudyDate, lastStudyDate + 1, Some(stored), n) == Some(stored + n)
  {
    if n > 0 {
      NextDayRendersInflateStreak(lastStudyDate, stored, n - 1);
    }
  }

  /** On the day of the last session evaluations never write, so the streak stays put. */
  lemma {:induction false} SameDayRendersKeepStreak(day: Day, stored: Option<int>, n: nat)
    ensures StoredAfter(day, day, stored, n) == stored
    ensures EvaluateStreak(day, day, StoredAfter(day, day, stored, n)).streak == stored.GetOr(1)
  {
    if n > 0 {
      SameDayRendersKeepStreak(day, stored, n - 1);
    }
  }

  /** After a gap of two days or more (or a last study date in the future) the streak is 1 from the
      first evaluation on. */
  lemma {:induction false} BrokenStreakIsOne(lastStudyDate: Day, today: Day, stored: Option<int>, n: nat)
    requires today - lastStudyDate != 0 && today - lastStudyDate != 1
    requires n > 0
    ensures StoredAfter(lastStudyDate, today, stored, n) == Some(1)
  {
    if n > 1 {
      BrokenStreakIsOne(lastStudyDate, today, stored, n - 1);
    }
  }

  /** Once a session has been credited today, the streak stops changing today. */
  lemma SessionSettlesStreak(r: ProgressRecord, minutes: nat, today: Day, stored: Option<int>)
    ensures EvaluateStreak(WithSession(r, minutes, today).lastStudyDate, today, stored).write == None
  {
  }

  /** `Math.round`: the nearest integer, halves rounded up. */
  function RoundHalfUp(x: real): (n: int)
    ensures n as real - 0.5 <= x < n as real + 0.5
  {
    (x + 0.5).Floor
  }

  /** `todayHours`: the minutes of the record, in hours. */
  function TodayHours(r: ProgressRecord): (h: real)
    ensures h * 60.0 == r.totalMinutes as real
  {
    r.totalMinutes as real / 60.0
  }

  /** `progressPercentage`: the rounded share of the daily goal reached, capped at 100. */
  function ProgressPercentage(r: ProgressRecord): (p: int)
    ensures 0 <= p <= 100
    ensures p == 100 <==> r.totalMinutes >= 120
  {
    var raw := RoundHalfUp(TodayHours(r) / TodayGoal as real * 100.0);
    if raw < 100 then raw else 100
  }

  /** The hook's state: the progress record it holds, the record its latest render saw (which the
      `addSession` closure of that render reads), over the store it writes through. */
  class ProgressTracker {
    var data: ProgressRecord
    var rendered: ProgressRecord
    const store: LocalStore

    /** Mounting the hook reads the stored record, or starts a fresh one without writing it. The
        first render evaluates the streak, and the new-day effect then runs; when it rolls a stale
        record over, the hook renders, and evaluates the streak, a second time. */
    constructor(store: LocalStore, today: Day)
      modifies store`progress, store`streak
      ensures this.store == store
      ensures var loaded := LoadRecord(old(store.progress), today);
        data == RolledOver(loaded, today) && rendered == data
        && store.progress == (if loaded.date != today then Some(data) else old(store.progress))
      ensures var mountRenders := if LoadRecord(old(store.progress), today).date != today then 2 else 1;
        store.streak == StoredAfter(data.lastStudyDate, today, old(store.streak), mountRenders)
    {
      this.store := store;
      data := LoadRecord(store.progress, today);
      rendered := data;
      new;
      ghost var streak0 := store.streak;
      var stale := data.date != today;
      var _ := Render(today);
      assert store.streak == StoredAfter(data.lastStudyDate, today, streak0, 1);
      NewDayEffect(today);
      if stale {
        var _ := Render(today);
        assert store.streak == StoredAfter(data.lastStudyDate, today, streak0, 2);
      }
    }

    /** The new-day effect: on a day other than the record's, minutes restart at 0 and the record is
        written; on the record's own day nothing happens. */
    method NewDayEffect(today: Day)
      modifies this`data, store`progress
      ensures data == RolledOver(old(data), today)
      ensures store.progress == if old(data).date != today then Some(data) else old(store.progress)
    {
      if data.date != today {
        var newData := ProgressRecord(today, 0, data.lastStudyDate);
        data := newData;
        store.progress := Some(newData);
      }
    }

    /** `calculateStreak`, run on every render: returns the streak and may write the streak key. */
    method CalculateStreak(today: Day) returns (streak: int)
      modifies store`streak
      ensures var o := EvaluateStreak(data.lastStudyDate, today, old(store.streak));
        streak == o.streak && store.streak == Persist(old(store.streak), o)
    {
      var diffDays := today - data.lastStudyDate;
      if diffDays == 0 {
        streak := if store.streak.Some? then store.streak.value else 1;
      } else if diffDays == 1 {
        streak := if store.streak.Some? then store.streak.value + 1 else 1;
        store.streak := Some(streak);
      } else {
        store.streak := Some(1);
        streak := 1;
      }
    }

    /** A render of the hook: it sees the current record, hands out an `addSession` reading that
        record, and evaluates the streak. */
    method Render(today: Day) returns (streak: int)
      modifies this`rendered, store`streak
      ensures rendered == data
      ensures var o := EvaluateStreak(data.lastStudyDate, today, old(store.streak));
        streak == o.streak && store.streak == Persist(old(store.streak), o)
    {
      rendered := data;
      streak := CalculateStreak(today);
    }

    /** `addSession(minutes)` of the latest render: credits the minutes to the record that render
        saw, dates it today and writes it. */
    method AddSession(minutes: nat, today: Day)
      modifies this`data, store`progress
      ensures data == WithSession(rendered, minutes, today)
      ensures store.progress == Some(data)
    {
      var newData := ProgressRecord(today, rendered.totalMinutes + minutes, today);
      data := newData;
      store.progress := Some(newData);
    }
  }
}
