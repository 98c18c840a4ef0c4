# Workout timer: a verified model

This project models the workout engine of the pelosaurus-rex web app, which lives in `static/script.js`. A routine is a list of timed segments. Each segment has a phase name, a duration in whole seconds and an instruction.

The timer anchors a start time and ticks once a second. On each tick it recomputes the elapsed whole seconds from the clock. It then finds the segment that contains them by walking the running sum of durations. It jumps straight to that segment, announces "Starting <phase>", and shows the time left as `MM:SS`. Inside a segment it speaks a heads-up at 30 seconds and a countdown from 5. A pause is absorbed by moving the anchor forward. When every segment has elapsed, the workout finishes and today's date is recorded for the routine.

A login keypad in front of the app collects a PIN of up to four digits.

Modules:

- `Routines` (`routines.dfy`): segments and routines, the cumulative durations (`Prefix`, `Total`) and the catalog lookup.
- `SegmentIndex` (`segment_index.dfy`): the segment locator. `Locate` is its definition and `LocateSegment` is the loop the script runs.
- `TimeFormat` (`time_format.dfy`): `formatTime`, written with JavaScript's number-to-text conversion, `padStart` and the truncating `%`. A reader `ParseClock` turns the text back into seconds.
- `Voices` (`voices.dfy`): the speech-voice preference ladder of `selectVoice`.
- `Announcements` (`announcements.dfy`): the cues of `handleAudioCues` and the speech log.
- `Engine` (`engine.dfy`): the script's module-level state as the class `Session`. Its methods are load, start, pause, resume, stop, tick, redisplay, finish and the visibility handler.
- `Login` (`keypad.dfy`): the PIN accumulator as the class `Keypad`.
- `Wrappers` (`wrappers.dfy`): `Option`.

The clock `Date.now()` is a parameter `now`. So are the host's voice list, whether a wake-lock request is granted, and today's date text. Speech is recorded in a log (`speech`) of `Say(cue)`, `Cancel` and `Prime` events. The browser's stored completion history is the map `history`.

JavaScript `null` in `startTime` and `pauseTimestamp` is modelled as 0, which is what JavaScript arithmetic reads it as. `Math.floor(x / n)` for a positive `n` is Dafny's `/`. The `%` in `formatTime` is JavaScript's truncating remainder, written out as `JsRemainder`.

A few points where a reader might expect other behaviour; the model follows the code:

- **`lastSpokenSecond` is not reset when the tick crosses into a new segment**, although a fresh segment might be expected to start its cues afresh. A countdown second whose offset equals the last spoken offset of the previous segment stays silent. `CountdownMutedAfterCrossing` shows this with a 1-second segment followed by a 5-second one.
- **There is no guard against the clock going backwards.** The elapsed time is used as computed.
- **The visibility handler redisplays from the elapsed time of the last tick.** It does not read the clock again.
- **Segment boundaries follow the running sum exactly.** With segments of 10, 5 and 10 seconds, second 24 is offset 9 of the third segment (not offset 14, which counting from the second segment's start would give), and second 25 is past the end. `BoundaryExample` states this.
- **The script declares `wakeLock` twice at top level** (lines 8 and 57). The model keeps a single flag, `wakeHeld`.

Preconditions on `Session` methods stand for what the page's buttons allow:
- start only when no workout runs and a routine with segments is loaded;
- ticks only while the interval is set;
- loading only when no workout runs.

## Model

| member | source | states |
|---|---|---|
| Routines.FindRoutine | static/script.js:238-239 | `routines.find` by id: the result is the first catalog routine with that id (no earlier routine has it), and there is none exactly when no routine has that id |
| Routines.FindRoutineIndex | static/script.js:238 | the index found is the first whose routine has the id; none when no routine has it |
| Engine.TotalDuration | static/script.js:250 | the `reduce` loop computes the sum of all segment durations, the routine's total length |
| SegmentIndex.LocateSpec | static/script.js:479-495 | the located segment is the first whose end lies after the elapsed second; the offset is the elapsed time minus the segment's start, the remaining time is its duration minus the offset; when nothing is found every segment has ended |
| SegmentIndex.Locate | static/script.js:440-456 | the locator itself (by recursion on the durations): a found index names a segment of the routine; `LocateSpec` states what it finds |
| SegmentIndex.LocateSegment | static/script.js:440-456 | the accumulating `for` loop with early exit returns exactly the locator's answer |
| SegmentIndex.LocateInRange | static/script.js:483-495 | for positive durations and non-negative elapsed time the found segment has started, the offset lies in `[0, duration)` and the time left in `[1, duration]` |
| SegmentIndex.LocateContaining | static/script.js:483-490 | whenever segment `k` covers the elapsed second in the half-open range `[start, start + duration)`, segment `k` is the one found, with offset `elapsed - start` |
| SegmentIndex.LocateNotFoundIff | static/script.js:458-461 | for positive durations and non-negative elapsed time, no segment is found exactly when the elapsed seconds reach the total duration |
| SegmentIndex.LocateNotFoundPastEnd | static/script.js:458-461 | for any non-empty routine a failed lookup implies `elapsedSeconds >= totalDuration`, so the tick's finish test always holds after a failed lookup |
| SegmentIndex.BoundaryExample | static/script.js:440-456 | for durations 10, 5, 10: second 9 is the last of segment 0, second 10 the first of segment 1, second 24 the last of segment 2 (offset 9), second 25 is past the end |
| TimeFormat.JsRemainder | static/script.js:591 | JavaScript's `%`: the Euclidean remainder for a non-negative dividend, a value in `(-b, 0]` for a negative one, and in both cases `a - r` is a multiple of `b`, so for a negative dividend it is the truncating remainder |
| TimeFormat.PadStart | static/script.js:592 | `padStart(2, '0')`: the result is as long as the target width or the input, whichever is longer, ends with the input, and holds only the fill character before it |
| TimeFormat.FormatTimeRoundTrip | static/script.js:589-593 | `FormatTime` (with `NumberToString` for `toString` and `PadStart` for `padStart`): for `s >= 0` the text is a minutes field of at least two digits, ':' and a seconds field of two digits below 60, and it reads back as `mins * 60 + secs == s` |
| TimeFormat.FormatZero | static/script.js:557 | the finish screen's "00:00" is the text of zero seconds |
| Voices.Rank | static/script.js:611-617 | the rung of a voice is the first ladder condition it meets |
| Voices.FindOnRung | static/script.js:612-617 | one `voices.find` of the ladder: the first voice from the scan position on that meets the rung's condition, or none exactly when no later voice meets it |
| Voices.SelectVoice | static/script.js:595-620 | a voice is chosen exactly when the host offers one, and it is one of the offered voices |
| Voices.LadderBest | static/script.js:611-617 | `Ladder`, the `||` chain of `find`s from a rung down, returns a voice of least rank, the first of that rank, or nothing when no voice is on any rung |
| Voices.SelectVoiceBest | static/script.js:611-619 | the chosen voice has the best rank among the offered voices and is the first of that rank; when no rung matches that is the first voice |
| Announcements.AudioCues | static/script.js:514-527 | "In 30 seconds, <next phase>" exactly when 30 seconds are left and a next segment exists; the count exactly when 1 to 5 seconds are left; never both; nothing otherwise. `Phrase` only documents the text spoken for each cue; the log records cues, not texts |
| Announcements.StartedOfCountdown | static/script.js:514-527 | the countdown cues never announce a phase start |
| Engine.RefreshAt | static/script.js:473-507 | a redisplay shows something exactly when the locator finds a segment |
| Engine.RefreshAgainSilent | static/script.js:503-506 | a second redisplay at the same second, after the first recorded its offset, shows the same screen and says nothing |
| Engine.RefreshTimerText | static/script.js:494-498 | for positive durations the timer text of a redisplay reads back as the seconds left in the current segment, between 1 and its duration |
| Engine.Crossing | static/script.js:444-448 | the speech of the segment check: one event exactly when the located segment differs from the current one, and that event is "Starting <its phase>" |
| Engine.TickAnnouncesReachedPhase | static/script.js:444-451 | across one tick the announced phases grow by the reached segment's phase when the index changed and by nothing otherwise, so skipped segments are never announced |
| Engine.CountdownMutedAfterCrossing | static/script.js:444-451 | after a 1-second "Rest", the tick into a 5-second "Go" lands on offset 0, already marked spoken, and the due count "5" is not said |
| Engine.Session.constructor | static/script.js:2-15 | the initial globals: nothing loaded, not running, not paused, `lastSpokenSecond == -1`, empty speech log |
| Engine.Session.LoadRoutine | static/script.js:238-257 | an unknown id changes only the current routine; a known one resets the index, the pause state, the anchors, the elapsed time and `lastSpokenSecond`, sets the total to the durations' sum and shows "Ready to Start" with the first segment's duration and instruction; with no segments it writes only the "Ready to Start" phase text and reports nothing shown |
| Engine.Session.ChooseVoice | static/script.js:595-619 | an empty voice list keeps the current voice; otherwise the ladder's choice, one of the offered voices |
| Engine.Session.Start | static/script.js:327-363 | primes speech once (choosing a voice if none), engages NoSleep, holds the wake lock if granted, anchors the clock at `now`, resets index, elapsed time and `lastSpokenSecond`, says "Starting <first phase>", then redisplays second 0 and sets the timer running |
| Engine.Session.Prepare | static/script.js:327-356 | the state changes and the speech of `startWorkout` before its first redisplay |
| Engine.Session.Pause | static/script.js:365-381 | a no-op when already paused; otherwise paused at `now`, speech cancelled and the wake lock given up |
| Engine.Session.Resume | static/script.js:383-398 | a no-op when not paused; otherwise the anchor moves forward by the pause's length, so `now - startTime` equals the elapsed time at which the pause began |
| Engine.PauseThenResume | static/script.js:365-398 | after a pause at `p` and a resume at `r`, `r - startTime` equals `p` minus the old anchor: the pause does not count as elapsed time |
| Engine.Session.Stop | static/script.js:400-427 | not running, not paused, speech cancelled, wake lock and NoSleep released, index rewound to 0 |
| Engine.Session.UpdateDisplay | static/script.js:473-507 | with a routine loaded: when no segment contains the last tick's second, nothing changes; otherwise the screen shows the segment's time left, phase and instruction, and the cues are spoken only when the offset differs from `lastSpokenSecond`, which then records it |
| Engine.Session.Tick | static/script.js:429-463 | a tick while paused changes nothing; otherwise the elapsed time comes from the clock and, by `Ticked`: once no segment is found and the total has elapsed, the finish; a found segment becomes the index, "Starting <phase>" is said only if the index changed, then the redisplay of that second; a second no segment contains before the end changes nothing but the elapsed time; a tick that keeps the workout running leaves its second `Settled` |
| Engine.Session.Step | static/script.js:432-463 | the unpaused tick: finish past the end, otherwise the jump to the located segment and the redisplay, as `Ticked` describes, leaving the second `Settled` while running |
| Engine.Session.Advance | static/script.js:432-456 | the elapsed time is set from the clock; the located segment becomes the index; "Starting <phase>" is said exactly when the index changed |
| Engine.TwoTicksInOneSecond | static/script.js:429-463 | two ticks at the same elapsed second, with the clock anchor and the routine untouched, leave exactly the state one tick at the first time leaves (`Ticked` at `t1`): same screen, segment, mark, history and speech log |
| Engine.RepeatTick | static/script.js:429-463 | a tick in a second already handled (`Settled`: its segment current and shown with its offset spoken, or a gap before the end) keeps the workout running and changes neither the screen, the segment, the mark, the speech log, the history nor the wake-lock and NoSleep state |
| Engine.Session.Finish | static/script.js:553-586 | not running, "00:00" / "Complete!" / "Great job!" shown, "Workout complete! Great job!" said, today's date stored for the routine's id, wake lock and NoSleep released |
| Engine.Session.OnVisible | static/script.js:81-91 | during an unpaused workout: a redisplay from the last tick's elapsed time, and a wake-lock request if none is held; otherwise nothing |
| Engine.Session.WakeLockReleased | static/script.js:67-70 | the `release` listener clears the wake-lock sentinel |
| Login.Keypad.constructor | static/script.js:114 | the PIN starts empty |
| Login.Keypad.Press | static/script.js:121-136 | "clear" empties the PIN and error text; "enter" submits the PIN only when it is non-empty; any other key appends only while the PIN is shorter than 4, so with one-character keys the PIN never exceeds 4 characters |
| Login.Keypad.Settle | static/script.js:141-169 | acceptance clears the PIN and error and loads the dashboard; rejection clears the PIN and shows "Invalid PIN. Try again."; a failed request shows "Connection error. Try again." and keeps the PIN |
| Login.Typed | static/script.js:131-135 | presses of one-character keys into a PIN of at most 4 characters leave at most 4; a full PIN ignores further keys |
| Login.TypedKeepsFirstFour | static/script.js:131-135 | typing digits keeps exactly the first ones that fit into four characters and drops the rest |

## Left out

- Rendering of the page is not modelled. This covers the DOM updates, button visibility, the timeline, the segment counter, the "next phase" line, `showView` and the haptic `vibrate` calls. The screen is modelled only as the timer's seconds, the phase and the instruction.
- The progress bar and percentage are floating point and are not modelled.
- The network and storage are not modelled. This covers `fetch` of routines and of `/api/auth`, the auth token and its expiry in `localStorage`, `checkAuth`, and the JSON parse and write of the stored history. The history is an abstract map update, and a failed write is not modelled.
- `static/spotify.js`, `static/sw.js` and `main.py` are not part of this model.
- Speech is not modelled beyond the log. The log does not capture the `cancel()` inside every `speak`, the 50 ms `setTimeout` before an utterance, the chosen voice on each utterance, or `speechSynthesis.resume()`. The model assumes speech synthesis is available.
- `setInterval` is a `running` flag, and ticks are explicit calls with a supplied `now`. Wake-lock requests are awaited in the script; here they are a granted flag applied at once, so interleavings with other events during the await are not modelled. The NoSleep library is a flag.
- `Engine.Session.Start`: the `catch` around `noSleep.enable()` is not modelled. Enabling is assumed to succeed.
- `Engine.Session.LoadRoutine`: for a routine without segments the script throws at `segments[0]`, after the reset, the total, the title and the "Ready to Start" phase text. The model writes the phase text and then returns `false`; the exception itself and the title are not modelled.
- The comment-only cue block left at the end of `updateTimer` does nothing, and the model has no counterpart for it.
