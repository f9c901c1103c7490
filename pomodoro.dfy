/** The Pomodoro phase/session state machine of the `App` component:
    the five pieces of React state `mode`, `sessions`, `timeLeft`,
    `isRunning` and `isBreak`, the once-per-second tick, and the
    start, pause, reset and skip buttons.

    The pure functions over `State` are the specification; the class
    `Timer` holds the same five fields and updates them in place the way
    the component's setters do, each method proved against its function. */
module Pomodoro {
  import opened Wrappers

  /** The three phases ('work', 'shortBreak', 'longBreak'). */
  datatype Mode = Work | ShortBreak | LongBreak

  const WorkTime: nat := 25 * 60
  const ShortBreakTime: nat := 5 * 60
  const LongBreakTime: nat := 15 * 60

  /** Every this-many completed work sessions, the break is a long one. */
  const LongBreakEvery: nat := 4

  /** The fixed length of a phase, in seconds. */
  function Duration(m: Mode): (d: nat)
    ensures 0 < d <= WorkTime
    ensures m != Work ==> d < WorkTime
  {
    match m
    case Work => WorkTime
    case ShortBreak => ShortBreakTime
    case LongBreak => LongBreakTime
  }

  /** A snapshot of the component's timer state. */
  datatype State = State(mode: Mode, sessions: nat, timeLeft: int, isRunning: bool, isBreak: bool)

  /** What the notification announces when a phase ends by itself. */
  datatype Notice = WorkComplete | BreakOver

  /** The invariant every reachable state keeps: `isBreak` mirrors the
      mode, the countdown lies within the phase, and the kind of break
      agrees with the number of completed work sessions. */
  predicate Consistent(s: State) {
    && s.isBreak == (s.mode != Work)
    && 1 <= s.timeLeft <= Duration(s.mode)
    && (s.mode == LongBreak ==> s.sessions > 0 && s.sessions % LongBreakEvery == 0)
    && (s.mode == ShortBreak ==> s.sessions % LongBreakEvery != 0)
  }

  /** The state on mount. */
  function Initial(): (s: State)
    ensures Consistent(s)
    ensures s.mode == Work && s.sessions == 0 && s.timeLeft == Duration(Work) && !s.isRunning
  {
    State(Work, 0, WorkTime, false, false)
  }

  /** The end of a phase that ran out, as the tick callback handles it:
      the timer stops and exactly one phase transition is made. */
  function Complete(s: State): (r: State)
    ensures Consistent(r)
    ensures !r.isRunning && r.timeLeft == Duration(r.mode)
    ensures s.mode == Work ==>
      r.sessions == s.sessions + 1 && r.isBreak
      && (r.mode == LongBreak <==> r.sessions % LongBreakEvery == 0)
      && (r.mode == ShortBreak <==> r.sessions % LongBreakEvery != 0)
    ensures s.mode != Work ==> r.mode == Work && !r.isBreak && r.sessions == s.sessions
  {
    if s.mode == Work then
      var newSessions := s.sessions + 1;
      if newSessions % LongBreakEvery == 0 then
        State(LongBreak, newSessions, LongBreakTime, false, true)
      else
        State(ShortBreak, newSessions, ShortBreakTime, false, true)
    else
      State(Work, s.sessions, WorkTime, false, false)
  }

  /** One run of the interval callback's state updater. */
  function AfterTick(s: State): (r: State)
    ensures Consistent(s) ==> Consistent(r)
    ensures s.timeLeft > 1 ==> r.timeLeft == s.timeLeft - 1 && r.mode == s.mode && r.sessions == s.sessions
  {
    if s.timeLeft <= 1 then Complete(s) else s.(timeLeft := s.timeLeft - 1)
  }

  /** The skip button: it stops the timer and repeats the completion
      logic in its own code, without raising any notification. */
  function AfterSkip(s: State): (r: State)
    ensures r == Complete(s)
  {
    if s.mode == Work then
      var newSessions := s.sessions + 1;
      if newSessions % LongBreakEvery == 0 then
        State(LongBreak, newSessions, LongBreakTime, false, true)
      else
        State(ShortBreak, newSessions, ShortBreakTime, false, true)
    else
      State(Work, s.sessions, WorkTime, false, false)
  }

  /** The reset button, from any state. */
  function AfterReset(s: State): (r: State)
    ensures r == Initial()
  {
    State(Work, 0, WorkTime, false, false)
  }

  /** The start button. */
  function AfterStart(s: State): (r: State)
    ensures r.isRunning
    ensures Consistent(s) ==> Consistent(r)
    ensures r.(isRunning := s.isRunning) == s
  {
    s.(isRunning := true)
  }

  /** The pause button. */
  function AfterPause(s: State): (r: State)
    ensures !r.isRunning
    ensures Consistent(s) ==> Consistent(r)
    ensures r.(isRunning := s.isRunning) == s
  {
    s.(isRunning := false)
  }

  /** `n` successive ticks. */
  function Ticks(s: State, n: nat): State {
    if n == 0 then s else AfterTick(Ticks(s, n - 1))
  }

  /** Before the countdown runs out, each tick takes exactly one second
      off `timeLeft` and changes nothing else. */
  lemma {:induction false} TicksCountDown(s: State, k: nat)
    requires k < s.timeLeft
    ensures Ticks(s, k) == s.(timeLeft := s.timeLeft - k)
  {
    if k > 0 {
      TicksCountDown(s, k - 1);
    }
  }

  /** A phase that has `timeLeft` seconds to go ends on exactly the
      `timeLeft`-th tick, not earlier, with one phase transition. */
  lemma {:induction false} PhaseEndsAfterTimeLeftTicks(s: State)
    requires 1 <= s.timeLeft
    ensures forall k: nat :: k < s.timeLeft ==> Ticks(s, k).mode == s.mode
    ensures Ticks(s, s.timeLeft) == Complete(s)
  {
    forall k: nat | k < s.timeLeft ensures Ticks(s, k).mode == s.mode {
      TicksCountDown(s, k);
    }
    TicksCountDown(s, s.timeLeft - 1);
  }

  /** A completion reached by ticking and one reached by skipping lead to the same state. */
  lemma SkipMatchesNaturalCompletion(s: State)
    requires Consistent(s)
    ensures AfterSkip(s) == Ticks(s, s.timeLeft)
  {
    PhaseEndsAfterTimeLeftTicks(s);
  }

  /** `n` successive skips. */
  function Skips(s: State, n: nat): State {
    if n == 0 then s else AfterSkip(Skips(s, n - 1))
  }

  /** Skipping from the initial state alternates work and break; after the
      `k`-th work session the break is long exactly when `k` is a multiple
      of four (sessions 4, 8, 12, ...). */
  lemma {:induction false} SkipCycle(k: nat)
    ensures Skips(Initial(), 2 * k) == State(Work, k, WorkTime, false, false)
    ensures Skips(Initial(), 2 * k + 1) ==
      (var m := if (k + 1) % 4 == 0 then LongBreak else ShortBreak;
       State(m, k + 1, Duration(m), false, true))
  {
    if k > 0 {
      SkipCycle(k - 1);
      assert 2 * k == (2 * (k - 1) + 1) + 1;
    }
  }

  /** The fourth skipped work session leads to the long break and the fifth to a short one again. */
  lemma FourthBreakIsLong()
    ensures Skips(Initial(), 7).mode == LongBreak && Skips(Initial(), 7).sessions == 4
    ensures Skips(Initial(), 5).mode == ShortBreak && Skips(Initial(), 9).mode == ShortBreak
  {
    SkipCycle(3);
    SkipCycle(2);
    SkipCycle(4);
  }

  /** A user action or a timer event. */
  datatype Event = TickEvent | StartPressed | PausePressed | ResetPressed | SkipPressed

  /** The effect of one event; a tick only happens while an interval is
      armed, that is while running, and each button runs its own handler.
      Every event keeps the invariant, and only reset lowers `sessions`. */
  function Apply(s: State, e: Event): (r: State)
    ensures Consistent(s) ==> Consistent(r)
    ensures e == TickEvent && !s.isRunning ==> r == s
    ensures e == ResetPressed ==> r == Initial()
    ensures e != ResetPressed ==> r.sessions >= s.sessions
    ensures e == StartPressed ==> r.isRunning
    ensures e == PausePressed || e == SkipPressed ==> !r.isRunning
  {
    match e
    case TickEvent => if s.isRunning then AfterTick(s) else s
    case StartPressed => AfterStart(s)
    case PausePressed => AfterPause(s)
    case ResetPressed => AfterReset(s)
    case SkipPressed => AfterSkip(s)
  }

  /** The state after a sequence of events. */
  function Run(s: State, events: seq<Event>): State
    decreases |events|
  {
    if events == [] then s else Run(Apply(s, events[0]), events[1..])
  }

  /** Every state reachable from a consistent one is consistent. */
  lemma {:induction false} RunKeepsConsistent(s: State, events: seq<Event>)
    requires Consistent(s)
    ensures Consistent(Run(s, events))
    decreases |events|
  {
    if events != [] {
      RunKeepsConsistent(Apply(s, events[0]), events[1..]);
    }
  }

  /** The completed-session count never goes down unless reset is pressed. */
  lemma {:induction false} SessionsOnlyGrowWithoutReset(s: State, events: seq<Event>)
    requires ResetPressed !in events
    ensures Run(s, events).sessions >= s.sessions
    decreases |events|
  {
    if events != [] {
      assert ResetPressed !in events[1..] by {
        forall i | 0 <= i < |events[1..]| ensures events[1..][i] != ResetPressed {
          assert events[1..][i] == events[i + 1];
        }
      }
      SessionsOnlyGrowWithoutReset(Apply(s, events[0]), events[1..]);
    }
  }

  /** The timer state of the component, updated in place by its setters. */
  class Timer {
    var mode: Mode
    var sessions: nat
    var timeLeft: int
    var isRunning: bool
    var isBreak: bool

    /** The current values of the five fields. */
    function Snapshot(): State
      reads this
    {
      State(mode, sessions, timeLeft, isRunning, isBreak)
    }

    ghost predicate Valid()
      reads this
    {
      Consistent(Snapshot())
    }

    /** The initial `useState` values. */
    constructor ()
      ensures Valid() && Snapshot() == Initial()
    {
      timeLeft := WorkTime;
      isRunning := false;
      isBreak := false;
      sessions := 0;
      mode := Work;
    }

    /** One firing of the one-second interval, which exists only while running.
        It returns the notice raised when the phase ran out, and none otherwise:
        `notice.Some?` stands for the `playNotification` call, whose sound
        `Alarm.PlayNotification` chooses. */
    method Tick() returns (notice: Option<Notice>)
      requires Valid() && isRunning
      modifies this
      ensures Valid()
      ensures Snapshot() == AfterTick(old(Snapshot()))
      ensures notice.Some? <==> old(timeLeft) <= 1
      ensures notice.Some? ==> notice.value == (if old(mode) == Work then WorkComplete else BreakOver)
    {
      if timeLeft <= 1 {
        isRunning := false;
        // the message is chosen from isBreak before any update is applied
        notice := Some(if isBreak then BreakOver else WorkComplete);
        if mode == Work {
          var newSessions := sessions + 1;
          sessions := newSessions;
          if newSessions % LongBreakEvery == 0 {
            mode := LongBreak;
            timeLeft := LongBreakTime;
            isBreak := true;
          } else {
            mode := ShortBreak;
            timeLeft := ShortBreakTime;
            isBreak := true;
          }
        } else {
          mode := Work;
          timeLeft := WorkTime;
          isBreak := false;
        }
      } else {
        timeLeft := timeLeft - 1;
        notice := None;
      }
    }

    method Start()
      requires Valid()
      modifies this
      ensures Valid()
      ensures Snapshot() == AfterStart(old(Snapshot()))
    {
      isRunning := true;
    }

    method Pause()
      requires Valid()
      modifies this
      ensures Valid()
      ensures Snapshot() == AfterPause(old(Snapshot()))
    {
      isRunning := false;
    }

    method Reset()
      modifies this
      ensures Valid()
      ensures Snapshot() == AfterReset(old(Snapshot()))
    {
      isRunning := false;
      sessions := 0;
      mode := Work;
      timeLeft := WorkTime;
      isBreak := false;
    }

    /** Skip: the same transition as a natural completion, with no notice. */
    method Skip()
      requires Valid()
      modifies this
      ensures Valid()
      ensures Snapshot() == AfterSkip(old(Snapshot()))
    {
      isRunning := false;
      if mode == Work {
        var newSessions := sessions + 1;
        sessions := newSessions;
        if newSessions % LongBreakEvery == 0 {
          mode := LongBreak;
          timeLeft := LongBreakTime;
          isBreak := true;
        } else {
          mode := ShortBreak;
          timeLeft := ShortBreakTime;
          isBreak := true;
        }
      } else {
        mode := Work;
        timeLeft := WorkTime;
        isBreak := false;
      }
    }
  }
}
