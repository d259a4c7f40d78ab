/** The Pomodoro timer hook: a focus/break countdown that credits a finished focus session. */
module Timer {
  import opened Common
  import opened Store
  import StudyProgress

  /** 25 minutes of focus and 5 minutes of break, in seconds. */
  const FocusTime: nat := 25 * 60
  const BreakTime: nat := 5 * 60

  /** The minutes a finished focus session adds to the day's progress. */
  const SessionMinutes: nat := 25

  /** The countdown: seconds left, whether it is running, and whether this is a break. */
  datatype TimerState = TimerState(timeLeft: int, isRunning: bool, isBreak: bool)

  function Duration(isBreak: bool): nat {
    if isBreak then BreakTime else FocusTime
  }

  /** The countdown stays within the length of the current phase. */
  predicate WithinPhase(s: TimerState) {
    0 <= s.timeLeft <= Duration(s.isBreak)
  }

  /** The state on mount and after `reset`: a full focus phase, not running. */
  const Initial: TimerState := TimerState(FocusTime, false, false)

  /** One pass of the countdown: its next state, and whether it completed a focus phase (which
      calls `addSession(25)` and counts a session). */
  datatype Step = Step(next: TimerState, credit: bool)

  /** The countdown effect together with the interval it schedules: with time left and running, one
      second passes; at zero the phase completes, whether or not the timer is running. */
  function Next(s: TimerState): (r: Step)
    ensures WithinPhase(s) ==> WithinPhase(r.next)
    ensures s.isRunning && s.timeLeft > 0 ==>
      r.next == TimerState(s.timeLeft - 1, true, s.isBreak) && !r.credit
    ensures s.timeLeft == 0 ==>
      r.next == TimerState(Duration(!s.isBreak), false, !s.isBreak) && r.credit == !s.isBreak
    ensures !s.isRunning && s.timeLeft != 0 ==> r == Step(s, false)
  {
    if s.isRunning && s.timeLeft > 0 then
      Step(s.(timeLeft := s.timeLeft - 1), false)
    else if s.timeLeft == 0 then
      Step(TimerState(if s.isBreak then FocusTime else BreakTime, false, !s.isBreak), !s.isBreak)
    else
      Step(s, false)
  }

  /** `start` and `pause` touch only the running flag; `reset` forgets everything. */
  function Started(s: TimerState): TimerState { s.(isRunning := true) }
  function Paused(s: TimerState): TimerState { s.(isRunning := false) }
  function ResetState(s: TimerState): TimerState { Initial }

  /** The commands keep the countdown within its phase, and reset is idempotent. */
  lemma CommandsKeepPhase(s: TimerState)
    requires WithinPhase(s)
    ensures WithinPhase(Started(s)) && WithinPhase(Paused(s)) && WithinPhase(ResetState(s))
    ensures Started(s).timeLeft == s.timeLeft && Started(s).isBreak == s.isBreak
    ensures Paused(s).timeLeft == s.timeLeft && Paused(s).isBreak == s.isBreak
    ensures ResetState(ResetState(s)) == ResetState(s) == Initial
  {
  }

  /** `n` passes of the countdown from `s`: the state reached and the number of focus phases
      completed on the way. */
  function Run(s: TimerState, n: nat): (TimerState, nat)
    decreases n
  {
    if n == 0 then (s, 0)
    else
      var step := Next(s);
      var rest := Run(step.next, n - 1);
      (rest.0, rest.1 + if step.credit then 1 else 0)
  }

  /** Running `a` passes and then `b` more is running `a + b` passes. */
  lemma {:induction false} RunSplit(s: TimerState, a: nat, b: nat)
    ensures Run(s, a + b).0 == Run(Run(s, a).0, b).0
    ensures Run(s, a + b).1 == Run(s, a).1 + Run(Run(s, a).0, b).1
    decreases a
  {
    if a > 0 {
      RunSplit(Next(s).next, a - 1, b);
    }
  }

  /** While running, each pass takes exactly one second off and credits nothing. */
  lemma {:induction false} Countdown(s: TimerState, n: nat)
    requires s.isRunning && n <= s.timeLeft
    ensures Run(s, n) == (s.(timeLeft := s.timeLeft - n), 0)
    decreases n
  {
    if n > 0 {
      Countdown(s.(timeLeft := s.timeLeft - 1), n - 1);
    }
  }

  /** A paused countdown with time left stays as it is. */
  lemma {:induction false} PausedStays(s: TimerState, n: nat)
    requires !s.isRunning && s.timeLeft != 0
    ensures Run(s, n) == (s, 0)
    decreases n
  {
    if n > 0 {
      PausedStays(s, n - 1);
    }
  }

  /** A running phase with `t` seconds left ends after `t + 1` passes in the other phase, at its full
      length and stopped; a focus phase is credited exactly once and a break not at all. After that
      nothing changes until the next `start`. */
  lemma PhaseCompletes(s: TimerState, extra: nat)
    requires s.isRunning && WithinPhase(s)
    ensures Run(s, s.timeLeft + 1 + extra) ==
      (TimerState(Duration(!s.isBreak), false, !s.isBreak), if s.isBreak then 0 else 1)
  {
    var t := s.timeLeft;
    RunSplit(s, t, 1 + extra);
    Countdown(s, t);
    var atZero := s.(timeLeft := 0);
    RunSplit(atZero, 1, extra);
    PausedStays(Next(atZero).next, extra);
  }

  /** Starting a full focus phase and letting it run: 1500 seconds later it has turned into a
      stopped 300-second break, with `addSession(25)` called once. */
  lemma FocusSessionEndToEnd()
    ensures Run(Started(Initial), FocusTime + 1) == (TimerState(BreakTime, false, true), 1)
    ensures Run(Started(Initial), FocusTime).1 == 0
  {
    PhaseCompletes(Started(Initial), 0);
    Countdown(Started(Initial), FocusTime);
  }

  /** Phases alternate: completing the break that follows a focus phase gives a full focus phase. */
  lemma BreakReturnsToFocus()
    ensures Run(Started(TimerState(BreakTime, false, true)), BreakTime + 1) == (Initial, 0)
  {
    PhaseCompletes(Started(TimerState(BreakTime, false, true)), 0);
  }

  /** The clock face: whole minutes and the seconds past them. */
  function Clock(s: TimerState): (mmss: (int, int))
    requires WithinPhase(s)
    ensures mmss.0 * 60 + mmss.1 == s.timeLeft
    ensures 0 <= mmss.1 < 60 && 0 <= mmss.0 <= 25
  {
    (s.timeLeft / 60, s.timeLeft % 60)
  }

  /** The share of the current phase already elapsed, in percent. */
  function Progress(s: TimerState): (p: real)
    requires WithinPhase(s)
    ensures 0.0 <= p <= 100.0
    ensures p == 0.0 <==> s.timeLeft == Duration(s.isBreak)
    ensures p == 100.0 <==> s.timeLeft == 0
  {
    var totalTime := Duration(s.isBreak) as real;
    (totalTime - s.timeLeft as real) / totalTime * 100.0
  }

  /** `getSessionCount`: the stored count if it was stored today, otherwise 0. */
  function GetSessionCount(stored: Option<SessionRecord>, today: Day): (n: int)
    ensures stored.Some? && stored.value.date == today ==> n == stored.value.count
    ensures stored.None? || stored.value.date != today ==> n == 0
  {
    if stored.Some? && stored.value.date == today then stored.value.count else 0
  }

  /** A count written on completion is read back on the same day and reads as 0 on any other day. */
  lemma SessionCountReadBack(count: int, written: Day, today: Day)
    ensures GetSessionCount(Some(SessionRecord(written, count)), today) == if written == today then count else 0
  {
  }

  /** The hook's state, with the progress hook it calls and the store both write to. */
  class PomodoroTimer {
    var timeLeft: int
    var isRunning: bool
    var isBreak: bool
    /** Read from the store once, on mount; not reset when the day changes. */
    var sessionCount: int
    const progress: StudyProgress.ProgressTracker
    const store: LocalStore

    ghost predicate Valid()
      reads this, progress
    {
      WithinPhase(State()) && progress.store == store
    }

    function State(): TimerState
      reads this
    {
      TimerState(timeLeft, isRunning, isBreak)
    }

    /** Mounting the hook mounts the progress hook, with its first render and new-day effect, and
        reads the session count. */
    constructor(store: LocalStore, today: Day)
      modifies store`progress, store`streak
      ensures Valid() && fresh(progress) && this.store == store
      ensures State() == Initial
      ensures sessionCount == GetSessionCount(store.sessions, today)
      ensures var loaded := StudyProgress.LoadRecord(old(store.progress), today);
        progress.data == StudyProgress.RolledOver(loaded, today) && progress.rendered == progress.data
        && store.progress == (if loaded.date != today then Some(progress.data) else old(store.progress))
      ensures var mountRenders := if StudyProgress.LoadRecord(old(store.progress), today).date != today then 2 else 1;
        store.streak == StudyProgress.StoredAfter(progress.data.lastStudyDate, today, old(store.streak), mountRenders)
    {
      timeLeft, isRunning, isBreak := FocusTime, false, false;
      this.store := store;
      progress := new StudyProgress.ProgressTracker(store, today);
      sessionCount := GetSessionCount(store.sessions, today);
    }

    method Start()
      requires Valid()
      modifies this`isRunning
      ensures Valid()
      ensures State() == Started(old(State()))
    {
      isRunning := true;
    }

    method Pause()
      requires Valid()
      modifies this`isRunning
      ensures Valid()
      ensures State() == Paused(old(State()))
    {
      isRunning := false;
    }

    method Reset()
      requires Valid()
      modifies this`isRunning, this`isBreak, this`timeLeft
      ensures Valid()
      ensures State() == ResetState(old(State()))
    {
      isRunning := false;
      isBreak := false;
      timeLeft := FocusTime;
    }

    /** One pass of the countdown on `today`, with the renders it causes. Completing a focus phase
        calls the `addSession` of the latest render, crediting 25 minutes, and stores the count
        `sessionCount + 1` under today. A pass that changes the countdown renders the hook again
        (`renders` is 1): the render evaluates the streak, and the new-day effect then rolls the
        record over if the day has changed. A rollover that is not batched with a completion
        renders once more (`renders` is 2). A paused pass with time left changes nothing and does
        not render. */
    method Tick(today: Day) returns (renders: nat)
      requires Valid()
      modifies this, progress, store`progress, store`sessions, store`streak
      ensures Valid()
      ensures State() == Next(old(State())).next
      ensures renders == 0 <==> State() == old(State())
      ensures renders == 0 ==>
        && progress.data == old(progress.data) && progress.rendered == old(progress.rendered)
        && store.progress == old(store.progress)
      ensures renders > 0 && (renders == 2 || Next(old(State())).credit || old(progress.data).date == today) ==>
        progress.rendered == progress.data
      ensures renders == 1 && !Next(old(State())).credit && old(progress.data).date != today ==>
        progress.rendered == old(progress.data)
      ensures Next(old(State())).credit ==>
        && renders == 1
        && progress.data == StudyProgress.WithSession(old(progress.rendered), SessionMinutes, today)
        && store.progress == Some(progress.data)
        && sessionCount == old(sessionCount) + 1
        && store.sessions == Some(SessionRecord(today, sessionCount))
      ensures !Next(old(State())).credit ==>
        && sessionCount == old(sessionCount)
        && store.sessions == old(store.sessions)
      ensures !Next(old(State())).credit && renders > 0 ==>
        && progress.data == StudyProgress.RolledOver(old(progress.data), today)
        && store.progress == (if old(progress.data).date != today then Some(progress.data) else old(store.progress))
        && renders == (if old(progress.data).date != today && timeLeft != 0 then 2 else 1)
      ensures store.streak == StudyProgress.StoredAfter(progress.data.lastStudyDate, today, old(store.streak), renders)
    {
      var before := State();
      ghost var streak0 := store.streak;
      if isRunning && timeLeft > 0 {
        timeLeft := timeLeft - 1;
      } else if timeLeft == 0 {
        isRunning := false;
        if !isBreak {
          progress.AddSession(SessionMinutes, today);
          var newCount := sessionCount + 1;
          store.sessions := Some(SessionRecord(today, newCount));
          sessionCount := newCount;
        }
        timeLeft := if isBreak then FocusTime else BreakTime;
        isBreak := !isBreak;
      }
      renders := 0;
      if State() != before {
        ghost var lastStudyDate := progress.data.lastStudyDate;
        RenderAfterPass(today);
        renders := 1;
        assert store.streak == StudyProgress.StoredAfter(lastStudyDate, today, streak0, 1);
        var rolls := progress.data.date != today;
        progress.NewDayEffect(today);
        if rolls && timeLeft != 0 {
          RenderAfterPass(today);
          renders := 2;
          assert store.streak == StudyProgress.StoredAfter(lastStudyDate, today, streak0, 2);
        }
      }
    }

    /** The hook renders: the progress hook it calls renders with it. */
    method RenderAfterPass(today: Day)
      requires progress.store == store
      modifies progress`rendered, store`streak
      ensures progress.rendered == progress.data
      ensures store.streak == StudyProgress.Persist(old(store.streak),
        StudyProgress.EvaluateStreak(progress.data.lastStudyDate, today, old(store.streak)))
    {
      var _ := progress.Render(today);
    }
  }
}
