/** The beep schedules of `playNotification` and `testAudio`, reduced to
    their integer millisecond offsets: beep `i` is due at
    `i * beepGap`, and the test run queues one auto-stop after all beeps.
    The oscillator, gain and frequency calls of each beep are left to the
    audio device and are not modelled. */
module Alarm {
  import opened Wrappers

  /** The timing part of the audio settings: the tone length (in
      milliseconds), how many beeps and the gap between their starts. */
  datatype AudioSettings = AudioSettings(durationMs: int, beepCount: int, beepGap: int)

  /** The settings on mount: 0.3 s tones, 3 beeps, 400 ms apart. */
  const DefaultSettings := AudioSettings(300, 3, 400)

  /** Which sound the user selected. */
  datatype AudioType = Synthesized | Custom

  /** How often `for (let i = 0; i < beepCount; i++)` runs. */
  function BeepTotal(beepCount: int): (n: nat)
    ensures beepCount >= 0 ==> n == beepCount
    ensures beepCount <= 0 ==> n == 0
  {
    if beepCount > 0 then beepCount else 0
  }

  lemma MulStrictlyIncreasing(k: int, l: int, g: int)
    requires k < l && g > 0
    ensures k * g < l * g
  {
    assert l * g - k * g == (l - k) * g;
  }

  /** The delays of the beep timeouts: beep `i` at `i * beepGap`, in order. */
  function BeepSchedule(beepCount: int, beepGap: int): (r: seq<int>)
    ensures |r| == BeepTotal(beepCount)
    ensures forall i :: 0 <= i < |r| ==> r[i] == i * beepGap
    decreases beepCount
  {
    if beepCount <= 0 then [] else BeepSchedule(beepCount - 1, beepGap) + [(beepCount - 1) * beepGap]
  }

  predicate StrictlyIncreasing(offsets: seq<int>) {
    forall i, j :: 0 <= i < j < |offsets| ==> offsets[i] < offsets[j]
  }

  /** With a positive gap the beeps fall due strictly one after another. */
  lemma ScheduleIncreasing(beepCount: int, beepGap: int)
    requires beepGap > 0
    ensures StrictlyIncreasing(BeepSchedule(beepCount, beepGap))
  {
    var r := BeepSchedule(beepCount, beepGap);
    forall i, j | 0 <= i < j < |r| ensures r[i] < r[j] {
      MulStrictlyIncreasing(i, j, beepGap);
    }
  }

  /** The loop that queues one timeout per beep, returning their delays in order. */
  method ScheduleBeeps(beepCount: int, beepGap: int) returns (offsets: seq<int>)
    ensures offsets == BeepSchedule(beepCount, beepGap)
  {
    offsets := [];
    var i := 0;
    while i < beepCount
      invariant 0 <= i <= BeepTotal(beepCount)
      invariant offsets == BeepSchedule(i, beepGap)
    {
      offsets := offsets + [i * beepGap];
      i := i + 1;
    }
  }

  /** The delay of the test run's auto-stop timeout: one gap after the
      last beep starts, plus one tone's length. */
  function AutoStopOffset(s: AudioSettings): (t: int)
    ensures s.beepCount > 0 ==> t == (s.beepCount - 1) * s.beepGap + s.beepGap + s.durationMs
    ensures s.beepCount >= 0 && s.beepGap >= 0 ==> t >= s.durationMs
  {
    MulDistributes(s.beepCount - 1, 1, s.beepGap);
    s.beepCount * s.beepGap + s.durationMs
  }

  /** The auto-stop fires one gap after the last tone ends: every tone,
      started at `i * beepGap` and lasting `durationMs`, is over by then,
      and strictly so when the gap is positive. */
  lemma AutoStopAfterEveryTone(s: AudioSettings, i: int)
    requires 0 <= i < s.beepCount && s.beepGap >= 0
    ensures i * s.beepGap + s.durationMs + s.beepGap <= AutoStopOffset(s)
    ensures s.beepGap > 0 ==> i * s.beepGap + s.durationMs < AutoStopOffset(s)
  {
    var g, rest := s.beepGap, s.beepCount - i - 1;
    MulDistributes(i, rest, g);
    MulNonNegative(rest, g);
    assert s.beepCount * g == i * g + rest * g + g by {
      MulDistributes(i + rest, 1, g);
    }
  }

  lemma MulDistributes(a: int, b: int, g: int)
    ensures (a + b) * g == a * g + b * g
  {
  }

  lemma MulNonNegative(a: int, b: int)
    requires a >= 0 && b >= 0
    ensures a * b >= 0
  {
  }

  /** The auto-stop comes later than every beep's start whenever the beeps
      are spaced or have a length. */
  lemma AutoStopAfterEveryBeep(s: AudioSettings, i: int)
    requires 0 <= i < s.beepCount
    requires s.beepGap >= 0 && s.durationMs >= 0 && (s.beepGap > 0 || s.durationMs > 0)
    ensures i * s.beepGap < AutoStopOffset(s)
  {
    AutoStopAfterEveryTone(s, i);
  }

  /** Every beep of the schedule is due before the auto-stop. */
  lemma ScheduleEndsBeforeAutoStop(s: AudioSettings)
    requires s.beepGap >= 0 && s.durationMs >= 0 && (s.beepGap > 0 || s.durationMs > 0)
    ensures var r := BeepSchedule(s.beepCount, s.beepGap);
      forall i :: 0 <= i < |r| ==> r[i] < AutoStopOffset(s)
  {
    var r := BeepSchedule(s.beepCount, s.beepGap);
    forall i | 0 <= i < |r| ensures r[i] < AutoStopOffset(s) {
      AutoStopAfterEveryBeep(s, i);
    }
  }

  /** What `playNotification` sounds. */
  datatype NotificationSound = PlayClip | Beeps(offsets: seq<int>)

  /** The audio part of `playNotification`: the uploaded clip when one is
      selected and loaded, otherwise the synthesized beeps, none of which
      checks any flag before sounding. */
  method PlayNotification(audioType: AudioType, hasClip: bool, s: AudioSettings)
    returns (sound: NotificationSound)
    ensures sound == PlayClip <==> audioType == Custom && hasClip
    ensures sound.Beeps? ==> sound.offsets == BeepSchedule(s.beepCount, s.beepGap)
  {
    if audioType == Custom && hasClip {
      sound := PlayClip;
    } else {
      var offsets := ScheduleBeeps(s.beepCount, s.beepGap);
      sound := Beeps(offsets);
    }
  }

  /** What a click on the test button does. */
  datatype TestAction =
    | StopTest
    | TestClip
    | TestBeeps(offsets: seq<int>, capturedPlaying: bool, autoStopAt: int)

  /** `testAudio`: a click while a test plays stops it; otherwise it plays
      the clip, or queues the beeps, whose guard closes over the flag
      value seen at this click, and the auto-stop. */
  method TestAudio(isTestPlaying: bool, audioType: AudioType, hasClip: bool, s: AudioSettings)
    returns (action: TestAction)
    ensures isTestPlaying <==> action == StopTest
    ensures action == TestClip <==> !isTestPlaying && audioType == Custom && hasClip
    ensures action.TestBeeps? ==> !action.capturedPlaying
    ensures action.TestBeeps? ==> action.autoStopAt == AutoStopOffset(s)
    ensures action.TestBeeps? ==> action.offsets == BeepSchedule(s.beepCount, s.beepGap)
  {
    if isTestPlaying {
      action := StopTest;
    } else if audioType == Custom && hasClip {
      action := TestClip;
    } else {
      var offsets := ScheduleBeeps(s.beepCount, s.beepGap);
      action := TestBeeps(offsets, isTestPlaying, AutoStopOffset(s));
    }
  }

  /** As written: each queued test beep returns early unless the flag value
      it closed over is true. */
  function SoundedAsWritten(offsets: seq<int>, capturedPlaying: bool): (r: seq<int>)
    ensures |r| <= |offsets|
    ensures capturedPlaying ==> r == offsets
    decreases |offsets|
  {
    if offsets == [] then []
    else (if capturedPlaying then [offsets[0]] else []) + SoundedAsWritten(offsets[1..], capturedPlaying)
  }

  lemma {:induction false} CapturedFalseSilencesAll(offsets: seq<int>)
    ensures SoundedAsWritten(offsets, false) == []
    decreases |offsets|
  {
    if offsets != [] {
      CapturedFalseSilencesAll(offsets[1..]);
    }
  }

  /** A synthesized test started from idle, as the code is written: the
      guard reads the captured `false`, so not one beep sounds. */
  method TestBeepsAsWritten(s: AudioSettings) returns (sounded: seq<int>)
    ensures sounded == []
  {
    var action := TestAudio(false, Synthesized, false, s);
    sounded := SoundedAsWritten(action.offsets, action.capturedPlaying);
    CapturedFalseSilencesAll(action.offsets);
  }

  /** Intended: each beep reads the flag when it fires; the flag is
      cleared at `stopAt` (the stop click or the auto-stop), so the beeps
      due before that moment sound and the later ones do not. */
  function Sounded(offsets: seq<int>, stopAt: int): (r: seq<int>)
    ensures forall x :: x in r <==> x in offsets && x < stopAt
    ensures |r| <= |offsets|
    decreases |offsets|
  {
    if offsets == [] then []
    else (if offsets[0] < stopAt then [offsets[0]] else []) + Sounded(offsets[1..], stopAt)
  }

  /** With increasing offsets, what sounds is the schedule up to the stop:
      a prefix, holding exactly the beeps due before `stopAt`. */
  lemma {:induction false} SoundedIsPrefix(offsets: seq<int>, stopAt: int)
    requires StrictlyIncreasing(offsets)
    ensures var r := Sounded(offsets, stopAt);
      && r == offsets[..|r|]
      && (forall i :: 0 <= i < |r| ==> offsets[i] < stopAt)
      && (forall i :: |r| <= i < |offsets| ==> offsets[i] >= stopAt)
    decreases |offsets|
  {
    if offsets != [] {
      var rest := offsets[1..];
      assert StrictlyIncreasing(rest) by {
        forall i, j | 0 <= i < j < |rest| ensures rest[i] < rest[j] {
          assert rest[i] == offsets[i + 1] && rest[j] == offsets[j + 1];
        }
      }
      SoundedIsPrefix(rest, stopAt);
      var t := Sounded(rest, stopAt);
      if offsets[0] >= stopAt {
        assert t == [];
      }
    }
  }

  /** The moment the playing flag is cleared: the stop click, unless the auto-stop comes first. */
  function StopTime(autoStopAt: int, stopClick: Option<int>): (t: int)
    ensures t <= autoStopAt
    ensures stopClick.Some? ==> t <= stopClick.value
    ensures t == autoStopAt || (stopClick.Some? && t == stopClick.value)
  {
    match stopClick
    case Some(click) => if click < autoStopAt then click else autoStopAt
    case None => autoStopAt
  }

  /** A schedule that ends before the auto-stop is cut only by a stop
      click: what sounds is the part due before the click. */
  lemma StopCutsSchedule(offsets: seq<int>, autoStopAt: int, stopClick: Option<int>)
    requires StrictlyIncreasing(offsets)
    requires forall i :: 0 <= i < |offsets| ==> offsets[i] < autoStopAt
    ensures var r := Sounded(offsets, StopTime(autoStopAt, stopClick));
      && r == offsets[..|r|]
      && (stopClick.Some? ==> forall i :: 0 <= i < |r| ==> offsets[i] < stopClick.value)
      && (forall i :: |r| <= i < |offsets| ==> stopClick.Some? && offsets[i] >= stopClick.value)
      && (stopClick.None? ==> |r| == |offsets|)
  {
    var stopAt := StopTime(autoStopAt, stopClick);
    SoundedIsPrefix(offsets, stopAt);
  }

  /** Intended behaviour of a synthesized test started from idle, stopped
      by a click at `stopClick` if there is one and by the auto-stop
      otherwise: the beeps due before the stop sound, in order, and
      without a stop click every one of the `beepCount` beeps sounds. */
  method TestBeepsIntended(s: AudioSettings, stopClick: Option<int>) returns (sounded: seq<int>)
    requires s.beepGap > 0 && s.durationMs >= 0
    ensures var schedule := BeepSchedule(s.beepCount, s.beepGap);
      && |sounded| <= |schedule| && sounded == schedule[..|sounded|]
      && (stopClick.Some? ==> forall i :: 0 <= i < |sounded| ==> sounded[i] < stopClick.value)
      && (forall i :: |sounded| <= i < |schedule| ==> stopClick.Some? && schedule[i] >= stopClick.value)
      && (stopClick.None? ==> sounded == schedule)
  {
    var action := TestAudio(false, Synthesized, false, s);
    sounded := Sounded(action.offsets, StopTime(action.autoStopAt, stopClick));
    ScheduleIncreasing(s.beepCount, s.beepGap);
    ScheduleEndsBeforeAutoStop(s);
    StopCutsSchedule(action.offsets, action.autoStopAt, stopClick);
  }

  /** Under the intended guard (`Sounded`), a stop at 500 ms lets two of
      the default beeps at 0, 400 and 800 ms sound, and a stop at 300 ms
      only the first. As written no test beep sounds at all
      (`TestBeepsAsWritten`), and the notification beeps are never stopped. */
  lemma StopAt500WithDefaults()
    ensures Sounded(BeepSchedule(DefaultSettings.beepCount, DefaultSettings.beepGap), 500) == [0, 400]
    ensures Sounded(BeepSchedule(DefaultSettings.beepCount, DefaultSettings.beepGap), 300) == [0]
  {
    var r := BeepSchedule(DefaultSettings.beepCount, DefaultSettings.beepGap);
    assert |r| == 3 && r[0] == 0 && r[1] == 400 && r[2] == 800;
    assert r == [0, 400, 800];
    assert Sounded([0, 400, 800], 500) == [0, 400];
    assert Sounded([0, 400, 800], 300) == [0];
  }
}
