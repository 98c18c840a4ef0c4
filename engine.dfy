/**
 * The workout session: the module-level state of the timer script and the
 * operations that drive it. The clock (`Date.now()`), the host's voice list,
 * whether a screen wake lock is granted and today's date text are parameters;
 * the speech engine is the `speech` log and the completion history the
 * `history` map.
 */
module Engine {
  import opened Wrappers
  import opened Routines
  import opened SegmentIndex
  import opened TimeFormat
  import opened Voices
  import opened Announcements

  /**
   * The three display texts the timer writes: the clock, the phase name and
   * the instruction. Every clock text the script writes is `formatTime` of a
   * number of seconds (the finish screen's "00:00" is the text of 0, see
   * `FormatZero`), so the screen keeps that number and renders it.
   */
  datatype Screen = Screen(clock: int, phase: string, instruction: string) {
    function TimerText(): string {
      FormatTime(clock)
    }
  }

  const DoneScreen := Screen(0, "Complete!", "Great job!")

  /** What one redisplay shows, the offset it records as spoken, and what it says. */
  datatype Refresh = Refresh(screen: Screen, mark: int, cues: seq<Cue>)

  /**
   * `updateDisplay` at `elapsedSeconds` with `lastSpoken` as the last spoken
   * offset: `None` when no segment contains that second, otherwise the
   * segment's time left, name and instruction, and the countdown cues unless
   * this offset has already been spoken.
   */
  function RefreshAt(segs: seq<Segment>, elapsedSeconds: int, lastSpoken: int): (r: Option<Refresh>)
    ensures r.Some? <==> Locate(Durations(segs), elapsedSeconds).Found?
  {
    match Locate(Durations(segs), elapsedSeconds)
    case NotFound => None
    case Found(i, offset, remaining) =>
      Some(Refresh(Screen(remaining, segs[i].phase, segs[i].instruction),
                   offset,
                   if offset != lastSpoken then AudioCues(segs, i, remaining) else []))
  }

  /**
   * A second redisplay in the same second says nothing: the first one left
   * the offset it handled as the last spoken one.
   */
  lemma RefreshAgainSilent(segs: seq<Segment>, elapsedSeconds: int, lastSpoken: int)
    requires RefreshAt(segs, elapsedSeconds, lastSpoken).Some?
    ensures var r := RefreshAt(segs, elapsedSeconds, lastSpoken).value;
            RefreshAt(segs, elapsedSeconds, r.mark) == Some(Refresh(r.screen, r.mark, []))
  {
  }

  /**
   * For a well-formed routine the clock text of a redisplay reads back as the
   * seconds left in the current segment, which lie between 1 and its duration.
   */
  lemma RefreshTimerText(segs: seq<Segment>, elapsedSeconds: int, lastSpoken: int)
    requires Positive(Durations(segs)) && elapsedSeconds >= 0
    ensures var loc := Locate(Durations(segs), elapsedSeconds);
            loc.Found? ==> && loc.index < |segs|
                           && 1 <= loc.remaining <= segs[loc.index].duration
                           && ParseClock(RefreshAt(segs, elapsedSeconds, lastSpoken).value.screen.TimerText())
                              == Some(loc.remaining)
  {
    var loc := Locate(Durations(segs), elapsedSeconds);
    LocateInRange(Durations(segs), elapsedSeconds);
    if loc.Found? {
      FormatTimeRoundTrip(loc.remaining);
    }
  }

  /**
   * What a tick says before redisplaying: "Starting <phase>" when the segment
   * containing `elapsedSeconds` is not the one the session was on.
   */
  function Crossing(segs: seq<Segment>, current: nat, elapsedSeconds: int): (log: seq<SpeechEvent>)
    ensures |log| <= 1
    ensures var loc := Locate(Durations(segs), elapsedSeconds);
            |log| == 1 <==> loc.Found? && loc.index != current
    ensures var loc := Locate(Durations(segs), elapsedSeconds);
            |log| == 1 ==> log == [Say(Starting(segs[loc.index].phase))]
  {
    match Locate(Durations(segs), elapsedSeconds)
    case Found(i, _, _) => if i != current then [Say(Starting(segs[i].phase))] else []
    case NotFound => []
  }

  /**
   * Across one tick, the phases announced as starting grow by exactly the
   * phase of the segment reached when the tick changed segment, and by
   * nothing otherwise: the countdown cues never announce a phase.
   */
  lemma {:induction false} TickAnnouncesReachedPhase(before: seq<SpeechEvent>, segs: seq<Segment>, current: nat,
                                                     elapsedSeconds: int, lastSpoken: int)
    requires RefreshAt(segs, elapsedSeconds, lastSpoken).Some?
    ensures var loc := Locate(Durations(segs), elapsedSeconds);
            var r := RefreshAt(segs, elapsedSeconds, lastSpoken).value;
            Started(before + Crossing(segs, current, elapsedSeconds) + Says(r.cues))
              == Started(before) + (if loc.index != current then [segs[loc.index].phase] else [])
  {
    var loc := Locate(Durations(segs), elapsedSeconds);
    var r := RefreshAt(segs, elapsedSeconds, lastSpoken).value;
    var crossing := Crossing(segs, current, elapsedSeconds);
    if loc.index != current {
      var step := Say(Starting(segs[loc.index].phase));
      assert crossing == [step] && [step][..0] == [];
    } else {
      assert crossing == [];
    }
    if r.cues == AudioCues(segs, loc.index, loc.remaining) {
      StartedOfCountdown(segs, loc.index, loc.remaining);
    } else {
      assert r.cues == [];
    }
    StartedAppend(before, crossing);
    StartedAppend(before + crossing, Says(r.cues));
  }

  /**
   * The last spoken offset survives a segment change: with a 1-second "Rest"
   * followed by a 5-second "Go", the start speaks offset 0 of "Rest"; the tick
   * at second 1 lands on offset 0 of "Go", where the count "5" is due, and
   * says nothing because offset 0 is already marked as spoken.
   */
  lemma CountdownMutedAfterCrossing()
    ensures var segs := [Segment("Rest", 1, "", ""), Segment("Go", 5, "", "")];
            && RefreshAt(segs, 0, -1).Some? && RefreshAt(segs, 0, -1).value.mark == 0
            && AudioCues(segs, 1, 5) == [Count(5)]
            && RefreshAt(segs, 1, 0).Some? && RefreshAt(segs, 1, 0).value.cues == []
  {
    var segs := [Segment("Rest", 1, "", ""), Segment("Go", 5, "", "")];
    var d := [1, 5];
    assert Durations(segs) == d;
    assert d[..0] == [] && d[..1] == [1] && d[..2] == d;
    assert Prefix(d, 1) == 1 && Prefix(d, 2) == 6;
    LocateContaining(d, 0, 0);
    LocateContaining(d, 1, 1);
  }

  class Session {
    /** Whether the NoSleep fallback library is loaded. */
    const hasNoSleep: bool

    var routine: Option<Routine>         // currentRoutine
    var segmentIndex: nat                // currentSegmentIndex
    var running: bool                    // timerInterval is set
    var startTime: int                   // null is read as 0, as JavaScript arithmetic does
    var pauseTimestamp: int              // likewise
    var isPaused: bool
    var wakeHeld: bool                   // a screen wake lock sentinel is held
    var noSleepOn: bool
    var totalDuration: int
    var elapsedTime: int                 // milliseconds, as of the last tick
    var lastSpokenSecond: int
    var speechPrimed: bool               // speechInitialized
    var selectedVoice: Option<Voice>
    var speech: seq<SpeechEvent>
    var history: map<string, string>     // routine id to completion date
    var screen: Screen

    ghost predicate Valid()
      reads this`routine, this`totalDuration, this`running, this`noSleepOn
    {
      && (routine.Some? ==> totalDuration == Total(Durations(routine.value.segments)))
      && (running ==> routine.Some? && |routine.value.segments| > 0)
      && (noSleepOn ==> hasNoSleep)
    }

    ghost function Segs(): seq<Segment>
      reads this`routine
      requires routine.Some?
    {
      routine.value.segments
    }

    /** The script's initial globals; `stored` is the history kept by the browser. */
    constructor (noSleepAvailable: bool, stored: map<string, string>)
      ensures Valid()
      ensures hasNoSleep == noSleepAvailable && history == stored
      ensures routine.None? && segmentIndex == 0 && !running && !isPaused
      ensures startTime == 0 && pauseTimestamp == 0 && totalDuration == 0 && elapsedTime == 0
      ensures lastSpokenSecond == -1 && !wakeHeld && !noSleepOn
      ensures !speechPrimed && selectedVoice.None? && speech == []
    {
      hasNoSleep := noSleepAvailable;
      routine := None;
      segmentIndex := 0;
      running := false;
      startTime := 0;
      pauseTimestamp := 0;
      isPaused := false;
      wakeHeld := false;
      noSleepOn := false;
      totalDuration := 0;
      elapsedTime := 0;
      lastSpokenSecond := -1;
      speechPrimed := false;
      selectedVoice := None;
      speech := [];
      history := stored;
      screen := Screen(0, "", "");
    }

    /**
     * `loadRoutine`: look the routine up; when found, reset the session and
     * show the "Ready to Start" screen. A routine without segments gets the
     * reset and the "Ready to Start" phase text, then fails on its first
     * segment, and the workout view is not shown.
     */
    method LoadRoutine(catalog: seq<Routine>, id: string) returns (shown: bool)
      requires Valid() && !running
      modifies this`routine, this`segmentIndex, this`isPaused, this`startTime, this`pauseTimestamp,
               this`elapsedTime, this`lastSpokenSecond, this`totalDuration, this`screen
      ensures Valid()
      ensures routine == FindRoutine(catalog, id)
      ensures routine.None? ==> && !shown && segmentIndex == old(segmentIndex) && isPaused == old(isPaused)
                                && startTime == old(startTime) && pauseTimestamp == old(pauseTimestamp)
                                && elapsedTime == old(elapsedTime) && lastSpokenSecond == old(lastSpokenSecond)
                                && totalDuration == old(totalDuration) && screen == old(screen)
      ensures routine.Some? ==> && segmentIndex == 0 && !isPaused && startTime == 0 && pauseTimestamp == 0
                                && elapsedTime == 0 && lastSpokenSecond == -1
                                && totalDuration == Total(Durations(Segs()))
                                && shown == (|Segs()| > 0)
      ensures routine.Some? && shown ==>
                screen == Screen(Segs()[0].duration, "Ready to Start", Segs()[0].instruction)
      ensures routine.Some? && !shown ==> screen == old(screen).(phase := "Ready to Start")
    {
      routine := FindRoutine(catalog, id);
      if routine.None? {
        return false;
      }
      var segs := routine.value.segments;
      segmentIndex := 0;
      isPaused := false;
      startTime := 0;
      pauseTimestamp := 0;
      elapsedTime := 0;
      lastSpokenSecond := -1;
      totalDuration := TotalDuration(segs);
      if |segs| == 0 {
        screen := screen.(phase := "Ready to Start");
        return false;
      }
      screen := Screen(segs[0].duration, "Ready to Start", segs[0].instruction);
      shown := true;
    }

    /** `selectVoice`, run when the host's voice list changes and on the first start. */
    method ChooseVoice(voices: seq<Voice>)
      modifies this`selectedVoice
      ensures |voices| == 0 ==> selectedVoice == old(selectedVoice)
      ensures |voices| > 0 ==> selectedVoice == SelectVoice(voices) && selectedVoice.value in voices
    {
      if |voices| > 0 {
        selectedVoice := SelectVoice(voices);
      }
    }

    /**
     * `startWorkout`: prime speech once, engage NoSleep, request the wake
     * lock, anchor the clock at `now`, announce the first segment and show it.
     */
    method Start(now: int, voices: seq<Voice>, wakeGranted: bool)
      requires Valid() && !running && routine.Some? && |Segs()| > 0
      modifies this`speechPrimed, this`selectedVoice, this`noSleepOn, this`wakeHeld, this`startTime,
               this`segmentIndex, this`elapsedTime, this`lastSpokenSecond, this`speech, this`screen,
               this`running
      ensures Valid() && running && speechPrimed
      ensures selectedVoice == if !old(speechPrimed) && old(selectedVoice).None? && |voices| > 0
                               then SelectVoice(voices) else old(selectedVoice)
      ensures noSleepOn == (old(noSleepOn) || hasNoSleep)
      ensures wakeHeld == (old(wakeHeld) || wakeGranted)
      ensures startTime == now && segmentIndex == 0 && elapsedTime == 0
      ensures var opening := old(speech) + (if old(speechPrimed) then [] else [Prime])
                             + [Say(Starting(Segs()[0].phase))];
              match RefreshAt(Segs(), 0, -1)
              case None => screen == old(screen) && lastSpokenSecond == -1 && speech == opening
              case Some(r) => screen == r.screen && lastSpokenSecond == r.mark && speech == opening + Says(r.cues)
    {
      ghost var opening := speech + (if speechPrimed then [] else [Prime]) + [Say(Starting(Segs()[0].phase))];
      Prepare(now, voices, wakeGranted);
      assert speech == opening && elapsedTime / 1000 == 0 && lastSpokenSecond == -1;
      UpdateDisplay();
      running := true;
    }

    /** The part of `startWorkout` before the first redisplay. */
    method Prepare(now: int, voices: seq<Voice>, wakeGranted: bool)
      requires Valid() && !running && routine.Some? && |Segs()| > 0
      modifies this`speechPrimed, this`selectedVoice, this`noSleepOn, this`wakeHeld, this`startTime,
               this`segmentIndex, this`elapsedTime, this`lastSpokenSecond, this`speech
      ensures Valid() && speechPrimed
      ensures selectedVoice == if !old(speechPrimed) && old(selectedVoice).None? && |voices| > 0
                               then SelectVoice(voices) else old(selectedVoice)
      ensures noSleepOn == (old(noSleepOn) || hasNoSleep)
      ensures wakeHeld == (old(wakeHeld) || wakeGranted)
      ensures startTime == now && segmentIndex == 0 && elapsedTime == 0 && lastSpokenSecond == -1
      ensures speech == old(speech) + (if old(speechPrimed) then [] else [Prime])
                        + [Say(Starting(Segs()[0].phase))]
    {
      if !speechPrimed {
        if selectedVoice.None? {
          ChooseVoice(voices);
        }
        speech := speech + [Prime];
        speechPrimed := true;
      }
      if hasNoSleep {
        noSleepOn := true;
      }
      wakeHeld := wakeHeld || wakeGranted;
      startTime := now;
      segmentIndex := 0;
      elapsedTime := 0;
      lastSpokenSecond := -1;
      speech := speech + [Say(Starting(routine.value.segments[0].phase))];
    }

    /** `pauseWorkout`: only when not paused; hush speech and give up the wake lock. */
    method Pause(now: int)
      requires Valid()
      modifies this`isPaused, this`pauseTimestamp, this`speech, this`wakeHeld
      ensures Valid()
      ensures old(isPaused) ==> unchanged(this)
      ensures !old(isPaused) ==> isPaused && pauseTimestamp == now && speech == old(speech) + [Cancel] && !wakeHeld
    {
      if !isPaused {
        isPaused := true;
        pauseTimestamp := now;
        speech := speech + [Cancel];
        wakeHeld := false;
      }
    }

    /**
     * `resumeWorkout`: only when paused; move the clock anchor forward by the
     * length of the pause, so that the elapsed time at `now` is the elapsed
     * time at which the pause began, and request the wake lock again.
     */
    method Resume(now: int, wakeGranted: bool)
      requires Valid()
      modifies this`isPaused, this`startTime, this`pauseTimestamp, this`wakeHeld
      ensures Valid()
      ensures !old(isPaused) ==> unchanged(this)
      ensures old(isPaused) ==> && !isPaused && pauseTimestamp == 0
                                && startTime == old(startTime) + (now - old(pauseTimestamp))
                                && wakeHeld == (old(wakeHeld) || wakeGranted)
      ensures old(isPaused) ==> now - startTime == old(pauseTimestamp) - old(startTime)
    {
      if isPaused {
        isPaused := false;
        var pauseDuration := now - pauseTimestamp;
        startTime := startTime + pauseDuration;
        pauseTimestamp := 0;
        wakeHeld := wakeHeld || wakeGranted;
      }
    }

    /** `stopWorkout`: stop the ticks, hush speech, release both wake guards, rewind the index. */
    method Stop()
      requires Valid()
      modifies this`running, this`isPaused, this`speech, this`wakeHeld, this`noSleepOn, this`segmentIndex
      ensures Valid()
      ensures !running && !isPaused && !wakeHeld && !noSleepOn && segmentIndex == 0
      ensures speech == old(speech) + [Cancel]
    {
      running := false;
      isPaused := false;
      speech := speech + [Cancel];
      wakeHeld := false;
      if hasNoSleep {
        noSleepOn := false;
      }
      segmentIndex := 0;
    }

    /**
     * `updateDisplay`: recompute the segment from the elapsed time of the last
     * tick, show it, and run the countdown cues once per segment offset.
     */
    method UpdateDisplay()
      modifies this`screen, this`lastSpokenSecond, this`speech
      ensures routine.None? ==> screen == old(screen) && lastSpokenSecond == old(lastSpokenSecond) && speech == old(speech)
      ensures routine.Some? ==>
                match RefreshAt(Segs(), elapsedTime / 1000, old(lastSpokenSecond))
                case None => screen == old(screen) && lastSpokenSecond == old(lastSpokenSecond) && speech == old(speech)
                case Some(r) => screen == r.screen && lastSpokenSecond == r.mark && speech == old(speech) + Says(r.cues)
    {
      if routine.None? {
        return;
      }
      var segs := routine.value.segments;
      var elapsedSeconds := elapsedTime / 1000;
      var loc := LocateSegment(Durations(segs), elapsedSeconds);
      if loc.NotFound? {
        return;
      }
      var segmentElapsed := loc.offset;
      var segmentRemaining := loc.remaining;
      screen := Screen(segmentRemaining, segs[loc.index].phase, segs[loc.index].instruction);
      if segmentElapsed != lastSpokenSecond {
        lastSpokenSecond := segmentElapsed;
        speech := speech + Says(AudioCues(segs, loc.index, segmentRemaining));
      }
    }

    /**
     * `updateTimer`, the once-a-second tick: nothing while paused; otherwise
     * recompute the elapsed time from the clock, jump straight to the segment
     * that contains it (announcing only that segment), finish once every
     * segment has elapsed, and redisplay.
     */
    method Tick(now: int, today: string)
      requires Valid() && running
      modifies this`elapsedTime, this`segmentIndex, this`speech, this`screen, this`lastSpokenSecond,
               this`running, this`wakeHeld, this`noSleepOn, this`history
      ensures Valid()
      ensures old(isPaused) ==> && elapsedTime == old(elapsedTime) && segmentIndex == old(segmentIndex)
                                && speech == old(speech) && screen == old(screen)
                                && lastSpokenSecond == old(lastSpokenSecond) && running
                                && wakeHeld == old(wakeHeld) && noSleepOn == old(noSleepOn)
                                && history == old(history)
      ensures !old(isPaused) ==> elapsedTime == now - startTime
      ensures !old(isPaused) ==> Ticked(now, today)
      ensures !old(isPaused) && running ==> Settled((now - startTime) / 1000)
    {
      if isPaused {
        return;
      }
      Step(now, today);
    }

    /**
     * What an unpaused tick leaves behind, from the seconds elapsed at `now`:
     * past the end, the finish; in a gap the locator cannot place, nothing
     * new; otherwise the segment reached, its redisplay, and the speech of
     * the crossing and of the countdown.
     */
    twostate predicate Ticked(now: int, today: string)
      reads this`routine, this`startTime, this`totalDuration, this`running, this`screen, this`wakeHeld,
            this`noSleepOn, this`speech, this`history, this`segmentIndex, this`lastSpokenSecond
      requires routine.Some?
    {
      var es := (now - startTime) / 1000;
      var loc := Locate(Durations(Segs()), es);
      && (loc.NotFound? && es >= totalDuration ==>
            && !running && screen == DoneScreen && !wakeHeld && !noSleepOn
            && speech == old(speech) + [Say(Complete)]
            && history == old(history)[routine.value.id := today]
            && segmentIndex == old(segmentIndex) && lastSpokenSecond == old(lastSpokenSecond))
      && (loc.NotFound? && es < totalDuration ==>
            && running && wakeHeld == old(wakeHeld) && noSleepOn == old(noSleepOn)
            && screen == old(screen) && speech == old(speech) && history == old(history)
            && segmentIndex == old(segmentIndex) && lastSpokenSecond == old(lastSpokenSecond))
      && (loc.Found? ==>
            && running && wakeHeld == old(wakeHeld) && noSleepOn == old(noSleepOn)
            && history == old(history) && segmentIndex == loc.index
            && var r := RefreshAt(Segs(), es, old(lastSpokenSecond)).value;
            && screen == r.screen && lastSpokenSecond == r.mark
            && speech == old(speech) + Crossing(Segs(), old(segmentIndex), es) + Says(r.cues))
    }

    /**
     * Nothing is left to do in elapsed second `es`: the segment containing it
     * is the current one, shown, with its offset handled; or no segment
     * contains it and the routine has not ended yet.
     */
    ghost predicate Settled(es: int)
      reads this`routine, this`totalDuration, this`segmentIndex, this`lastSpokenSecond, this`screen
      requires routine.Some?
    {
      match Locate(Durations(Segs()), es)
      case Found(i, offset, remaining) =>
        && segmentIndex == i && lastSpokenSecond == offset
        && screen == Screen(remaining, Segs()[i].phase, Segs()[i].instruction)
      case NotFound => es < totalDuration
    }

    /** The unpaused tick. */
    method Step(now: int, today: string)
      requires Valid() && running
      modifies this`elapsedTime, this`segmentIndex, this`speech, this`screen, this`lastSpokenSecond,
               this`running, this`wakeHeld, this`noSleepOn, this`history
      ensures Valid() && elapsedTime == now - startTime
      ensures Ticked(now, today)
      ensures running ==> Settled((now - startTime) / 1000)
    {
      var loc := Advance(now);
      if loc.NotFound? && elapsedTime / 1000 >= totalDuration {
        Finish(today);
        return;
      }
      UpdateDisplay();
    }

    /**
     * The first half of the tick: the elapsed time from the clock, the
     * segment containing it, and the announcement of that segment when the
     * tick has moved to another one.
     */
    method Advance(now: int) returns (loc: Location)
      requires Valid() && running
      modifies this`elapsedTime, this`segmentIndex, this`speech
      ensures elapsedTime == now - startTime
      ensures loc == Locate(Durations(Segs()), elapsedTime / 1000)
      ensures loc.Found? ==> segmentIndex == loc.index
      ensures loc.NotFound? ==> segmentIndex == old(segmentIndex)
      ensures speech == old(speech) + Crossing(Segs(), old(segmentIndex), elapsedTime / 1000)
    {
      elapsedTime := now - startTime;
      var segs := routine.value.segments;
      loc := LocateSegment(Durations(segs), elapsedTime / 1000);
      if loc.Found? && segmentIndex != loc.index {
        segmentIndex := loc.index;
        speech := speech + [Say(Starting(segs[loc.index].phase))];
      }
    }

    /**
     * `finishWorkout`: stop the ticks, show the finish screen, announce the
     * end, record today's date for the routine, release both wake guards.
     */
    method Finish(today: string)
      requires Valid() && routine.Some?
      modifies this`running, this`screen, this`speech, this`history, this`wakeHeld, this`noSleepOn
      ensures Valid()
      ensures !running && screen == DoneScreen && !wakeHeld && !noSleepOn
      ensures speech == old(speech) + [Say(Complete)]
      ensures history == old(history)[routine.value.id := today]
    {
      running := false;
      screen := DoneScreen;
      speech := speech + [Say(Complete)];
      history := history[routine.value.id := today];
      wakeHeld := false;
      if hasNoSleep {
        noSleepOn := false;
      }
    }

    /**
     * The `visibilitychange` handler on becoming visible: during an unpaused
     * workout, redisplay (from the elapsed time of the last tick) and request
     * the wake lock if none is held.
     */
    method OnVisible(wakeGranted: bool)
      requires Valid()
      modifies this`screen, this`lastSpokenSecond, this`speech, this`wakeHeld
      ensures !(running && !isPaused) ==> unchanged(this)
      ensures running && !isPaused ==> wakeHeld == (old(wakeHeld) || wakeGranted)
      ensures running && !isPaused ==>
                match RefreshAt(Segs(), elapsedTime / 1000, old(lastSpokenSecond))
                case None => screen == old(screen) && lastSpokenSecond == old(lastSpokenSecond) && speech == old(speech)
                case Some(r) => screen == r.screen && lastSpokenSecond == r.mark && speech == old(speech) + Says(r.cues)
    {
      if running && !isPaused {
        UpdateDisplay();
      }
      if running && !isPaused && !wakeHeld {
        wakeHeld := wakeGranted;
      }
    }

    /** The wake lock's `release` listener: the host took the lock away. */
    method WakeLockReleased()
      modifies this`wakeHeld
      ensures !wakeHeld
    {
      wakeHeld := false;
    }
  }

  /** `segments.reduce((sum, seg) => sum + seg.duration, 0)`. */
  method TotalDuration(segs: seq<Segment>) returns (total: int)
    ensures total == Total(Durations(segs))
  {
    total := 0;
    var i := 0;
    while i < |segs|
      invariant 0 <= i <= |segs|
      invariant total == Prefix(Durations(segs), i)
    {
      PrefixStep(Durations(segs), i);
      total := total + segs[i].duration;
      i := i + 1;
    }
    PrefixAll(Durations(segs));
  }

  /**
   * Pausing at `p` and resuming at `r` leaves the elapsed time at `r` equal
   * to the elapsed time at `p`: the pause does not count.
   */
  method PauseThenResume(s: Session, p: int, r: int, wakeGranted: bool)
    requires s.Valid() && !s.isPaused
    modifies s
    ensures s.Valid() && !s.isPaused
    ensures r - s.startTime == p - old(s.startTime)
  {
    s.Pause(p);
    s.Resume(r, wakeGranted);
  }

  /**
   * Two ticks within the same elapsed second have exactly the effect of the
   * first one alone: the second finds the segment already current and its
   * offset already spoken, so it shows the same screen and says nothing.
   */
  method TwoTicksInOneSecond(s: Session, t1: int, t2: int, today: string)
    requires s.Valid() && s.running && !s.isPaused
    requires (t1 - s.startTime) / 1000 == (t2 - s.startTime) / 1000
    modifies s`elapsedTime, s`segmentIndex, s`speech, s`screen, s`lastSpokenSecond,
             s`running, s`wakeHeld, s`noSleepOn, s`history
    ensures s.Valid()
    ensures s.routine == old(s.routine) && s.startTime == old(s.startTime)
    ensures s.Ticked(t1, today)
  {
    s.Tick(t1, today);
    if s.running {
      RepeatTick(s, t2, today);
    }
  }


  /**
   * A tick in a second that has already been handled changes nothing the
   * page shows or says: same screen, segment, mark, speech and history.
   */
  method RepeatTick(s: Session, now: int, today: string)
    requires s.Valid() && s.running && !s.isPaused && s.Settled((now - s.startTime) / 1000)
    modifies s`elapsedTime, s`segmentIndex, s`speech, s`screen, s`lastSpokenSecond,
             s`running, s`wakeHeld, s`noSleepOn, s`history
    ensures s.Valid() && s.running && s.elapsedTime == now - s.startTime
    ensures s.screen == old(s.screen) && s.segmentIndex == old(s.segmentIndex)
    ensures s.lastSpokenSecond == old(s.lastSpokenSecond) && s.speech == old(s.speech)
    ensures s.history == old(s.history) && s.wakeHeld == old(s.wakeHeld) && s.noSleepOn == old(s.noSleepOn)
  {
    ghost var es := (now - s.startTime) / 1000;
    if Locate(Durations(s.Segs()), es).Found? {
      RefreshAgainSilent(s.Segs(), es, s.lastSpokenSecond);
    }
    s.Tick(now, today);
  }

}
